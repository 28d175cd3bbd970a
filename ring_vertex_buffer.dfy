/**
 * BloomFramework's ring vertex buffer: one persistently mapped buffer written
 * front to back. Each draw covers the vertices written since the previous
 * one and leaves a fence behind; before a vertex slot is written again, the
 * fence left when that slot started a drawn range is waited for. GL fences
 * are abstract names handed in by the caller.
 */
module RingBuffers {
  import opened Wrappers
  import opened QuadIndices

  /** A fence and the vertex index at which the range it guards starts. */
  datatype FencePoint = FencePoint(bufferIndex: int, fence: nat)

  /** DrawRangeElements over vertices [first, last] with `count` indices starting at `byteOffset`. */
  datatype RangeDraw = RangeDraw(first: int, last: int, count: int, byteOffset: int)

  /** The size in bytes of one uint index. */
  const IndexSize := 4

  class RingVertexBuffer<V(0)> {
    const maxVertices: int
    /** The mapped buffer. */
    const data: array<V>
    var startIndex: int
    var currentIndex: int
    /** The fence queue, head first. */
    var fences: seq<FencePoint>
    var draws: seq<RangeDraw>
    /** The fences AddVertex waited on, in order. */
    var waited: seq<nat>

    ghost predicate Valid()
      reads this
    {
      && data.Length == maxVertices
      && 0 <= startIndex <= currentIndex < maxVertices
      && (forall p <- fences :: 0 <= p.bufferIndex < maxVertices)
    }

    /** The vertices written since the last draw. */
    ghost function Pending(): seq<V>
      reads this, data
      requires 0 <= startIndex <= currentIndex <= data.Length
    {
      data[startIndex..currentIndex]
    }

    /** The constructor: a mapped buffer of `verticesNumber` vertices. */
    constructor (verticesNumber: int)
      requires 0 < verticesNumber
      ensures Valid() && fresh(data) && maxVertices == verticesNumber
      ensures startIndex == 0 && currentIndex == 0 && fences == [] && draws == [] && waited == []
    {
      maxVertices := verticesNumber;
      data := new V[verticesNumber];
      startIndex, currentIndex := 0, 0;
      fences, draws, waited := [], [], [];
    }

    /**
     * AddVertex: when the oldest fence guards the slot about to be written,
     * it is dequeued and waited for; then the vertex is written at the cursor,
     * and reaching the end of the buffer draws the pending range and wraps to
     * the start. `newFence` is the fence a draw would create.
     */
    method AddVertex(vertex: V, newFence: nat)
      requires Valid()
      modifies this, data
      ensures Valid()
      ensures var head := old(fences) != [] && old(fences)[0].bufferIndex == old(currentIndex);
        && (head ==> waited == old(waited) + [old(fences)[0].fence])
        && (!head ==> waited == old(waited))
        && var queue := if head then old(fences)[1..] else old(fences);
        && (old(currentIndex) + 1 < maxVertices ==>
              && currentIndex == old(currentIndex) + 1 && startIndex == old(startIndex)
              && Pending() == old(Pending()) + [vertex]
              && fences == queue && draws == old(draws))
        && (old(currentIndex) + 1 == maxVertices ==>
              && currentIndex == 0 && startIndex == 0
              && fences == queue + [FencePoint(old(startIndex), newFence)]
              && draws == old(draws) + [Span(old(startIndex), maxVertices)])
      ensures forall i :: 0 <= i < maxVertices && i != old(currentIndex) ==> data[i] == old(data[i])
      ensures data[old(currentIndex)] == vertex
    {
      if |fences| > 0 {
        if fences[0].bufferIndex == currentIndex {
          // The wait until the fence is signalled is not modelled.
          waited := waited + [fences[0].fence];
          fences := fences[1..];
        }
      }
      data[currentIndex] := vertex;
      currentIndex := currentIndex + 1;
      assert data[startIndex..currentIndex] == old(data[startIndex..currentIndex]) + [vertex];
      if currentIndex == maxVertices {
        Draw(newFence);
      }
    }

    /** The draw call for the vertices [start, end). */
    static function Span(start: int, end: int): (d: RangeDraw)
      requires 0 <= start < end
      ensures d.first == start && d.last == end - 1 && d.last - d.first + 1 == end - start
      ensures 2 * d.count <= 3 * (end - start) < 2 * d.count + 2
      ensures d.byteOffset == IndexSize * ToIndicesCount(start) && 0 <= d.byteOffset
    {
      RangeDraw(start, end - 1, ToIndicesCount(end - start), ToIndicesCount(start) * 4)
    }

    /**
     * Draw: nothing when no vertex was written since the last draw; otherwise
     * draws exactly those vertices, then resets.
     */
    method Draw(newFence: nat)
      requires data.Length == maxVertices && 0 <= startIndex <= currentIndex <= maxVertices
      requires currentIndex == maxVertices ==> startIndex < currentIndex
      requires forall p <- fences :: 0 <= p.bufferIndex < maxVertices
      modifies this`startIndex, this`currentIndex, this`fences, this`draws
      ensures old(currentIndex) == old(startIndex) ==> unchanged(this)
      ensures old(currentIndex) != old(startIndex) ==>
        && draws == old(draws) + [Span(old(startIndex), old(currentIndex))]
        && fences == old(fences) + [FencePoint(old(startIndex), newFence)]
        && currentIndex == startIndex == (if old(currentIndex) == maxVertices then 0 else old(currentIndex))
      ensures Valid()
    {
      if currentIndex == startIndex {
        return;
      }
      draws := draws + [Span(startIndex, currentIndex)];
      Reset(newFence);
    }

    /**
     * Reset: leaves a fence tagged with the start of the range just drawn,
     * wraps the cursor when it is at the end, and starts the next range at
     * the cursor.
     */
    method Reset(newFence: nat)
      requires data.Length == maxVertices && 0 <= startIndex <= currentIndex <= maxVertices
      requires startIndex < maxVertices
      requires forall p <- fences :: 0 <= p.bufferIndex < maxVertices
      modifies this`startIndex, this`currentIndex, this`fences
      ensures fences == old(fences) + [FencePoint(old(startIndex), newFence)]
      ensures currentIndex == startIndex == (if old(currentIndex) == maxVertices then 0 else old(currentIndex))
      ensures Valid()
    {
      fences := fences + [FencePoint(startIndex, newFence)];
      if currentIndex == maxVertices {
        currentIndex := 0;
      }
      startIndex := currentIndex;
    }

    /** Dispose is not implemented and always throws. */
    method Dispose() returns (error: Exception)
      ensures error == NotImplemented
    {
      return NotImplemented;
    }
  }
}
