/**
 * BloomBirb's vertex batch: a fixed ring of dirty-range vertex buffers. The
 * current buffer takes the vertices; once full it is drawn and the next one
 * in the ring becomes current.
 */
module BirbVertexBatches {
  import opened Wrappers
  import opened DirtyBuffers

  class VertexBatch<V(==,0)> {
    const buffers: seq<DirtyVertexBuffer<V>>
    const bufferCount: int
    /** The size every buffer was created with. */
    const bufferSize: int
    var currentBufferIndex: int
    /** The buffers and the vertex arrays they have allocated. */
    ghost var Repr: set<object>

    ghost predicate Valid()
      reads this, Repr
    {
      && |buffers| == bufferCount && 0 < bufferCount
      && (forall i :: 0 <= i < bufferCount ==> buffers[i] in Repr)
      && (forall i :: 0 <= i < bufferCount && buffers[i].vertices != null ==> buffers[i].vertices in Repr)
      && (forall i, j :: 0 <= i < j < bufferCount ==> buffers[i] != buffers[j])
      && (forall i, j :: 0 <= i < j < bufferCount && buffers[i].vertices != null ==> buffers[i].vertices != buffers[j].vertices)
      && (forall i :: 0 <= i < bufferCount ==> buffers[i].Valid() && buffers[i].size == bufferSize)
      && 0 <= currentBufferIndex < bufferCount
    }

    /**
     * The constructor: `numberOfBuffers` buffers of `bufferSize` vertices,
     * none initialized yet; `verticesPerPrimitive` and `indicesPerPrimitive`
     * are those of the buffer type the subclass creates.
     */
    constructor (numberOfBuffers: int, bufferSize: int, verticesPerPrimitive: int, indicesPerPrimitive: int)
      requires 0 < numberOfBuffers && 0 <= bufferSize && 0 < verticesPerPrimitive
      ensures Valid() && fresh(Repr)
      ensures bufferCount == numberOfBuffers && this.bufferSize == bufferSize && currentBufferIndex == 0
      ensures forall i :: 0 <= i < bufferCount ==>
        buffers[i].vertices == null && buffers[i].count == 0 && buffers[i].draws == [] && !buffers[i].isDisposed
    {
      bufferCount := numberOfBuffers;
      this.bufferSize := bufferSize;
      var created: seq<DirtyVertexBuffer<V>> := [];
      for i := 0 to numberOfBuffers
        invariant |created| == i
        invariant forall k :: 0 <= k < i ==> fresh(created[k])
        invariant forall k, m :: 0 <= k < m < i ==> created[k] != created[m]
        invariant forall k :: 0 <= k < i ==>
          && created[k].Valid() && created[k].size == bufferSize
          && created[k].vertices == null && created[k].count == 0 && created[k].draws == [] && !created[k].isDisposed
      {
        var b := new DirtyVertexBuffer(bufferSize, verticesPerPrimitive, indicesPerPrimitive);
        created := created + [b];
      }
      buffers := created;
      currentBufferIndex := 0;
      Repr := set i | 0 <= i < numberOfBuffers :: created[i] as object;
    }

    /**
     * Initialize: initializes every buffer in order, each with its own GL
     * names and all with the shared element buffer.
     */
    method Initialize(vaos: seq<nat>, vbos: seq<nat>, ebo: SharedElementBuffer, generatedEbo: nat, indices: seq<int>)
      requires Valid() && |vaos| == bufferCount && |vbos| == bufferCount && generatedEbo != 0 && ebo !in Repr
      modifies this`Repr, Repr, ebo
      ensures Valid() && fresh(Repr - old(Repr))
      ensures currentBufferIndex == old(currentBufferIndex)
      ensures forall i :: 0 <= i < bufferCount ==>
        && buffers[i].vertices != null && buffers[i].vaoHandle == vaos[i] && buffers[i].vboHandle == vbos[i]
        && buffers[i].count == old(buffers[i].count) && buffers[i].draws == old(buffers[i].draws)
    {
      for i := 0 to bufferCount
        invariant Valid() && fresh(Repr - old(Repr))
        invariant currentBufferIndex == old(currentBufferIndex)
        invariant forall k :: 0 <= k < i ==> buffers[k].vertices != null && buffers[k].vaoHandle == vaos[k] && buffers[k].vboHandle == vbos[k]
        invariant forall k :: 0 <= k < bufferCount ==> buffers[k].count == old(buffers[k].count) && buffers[k].draws == old(buffers[k].draws)
      {
        var b := buffers[i];
        b.Initialize(vaos[i], vbos[i], ebo, generatedEbo, indices);
        Repr := Repr + {b.vertices};
      }
    }

    /**
     * AddVertex: the current buffer takes the vertex in its next slot (an
     * exception from it propagates and nothing moves on); a buffer that became
     * full draws all its vertices and the next buffer in the ring becomes
     * current.
     */
    method AddVertex(vertex: V) returns (error: Option<Exception>)
      requires Valid()
      modifies Repr, this`currentBufferIndex
      ensures Valid() && Repr == old(Repr)
      ensures var b := buffers[old(currentBufferIndex)];
        && (error == Some(ArgumentNull) <==> old(b.vertices) == null)
        && (error == Some(IndexOutOfRange) <==> old(b.vertices) != null && old(b.count) == b.size)
        && (error.Some? ==> currentBufferIndex == old(currentBufferIndex) && unchanged(b) && (b.vertices != null ==> unchanged(b.vertices)))
        && (error.None? ==> b.vertices != null && b.vertices[..] == old(b.vertices[..])[old(b.count) := vertex])
        && (error.None? && old(b.count) + 1 < b.size ==>
              && currentBufferIndex == old(currentBufferIndex)
              && b.count == old(b.count) + 1 && b.draws == old(b.draws) && b.store == old(b.store))
        && (error.None? && old(b.count) + 1 == b.size ==>
              && currentBufferIndex == (old(currentBufferIndex) + 1) % bufferCount
              && b.count == 0 && b.beginBuffer == -1
              && b.draws == old(b.draws) + [b.size / b.verticesPerPrimitive * b.indicesPerPrimitive])
      ensures forall i :: 0 <= i < bufferCount && i != old(currentBufferIndex) ==>
        unchanged(buffers[i]) && (buffers[i].vertices != null ==> unchanged(buffers[i].vertices))
    {
      var current := buffers[currentBufferIndex];
      error := current.AddVertex(vertex);
      if error.Some? {
        return;
      }
      if current.IsFull() {
        current.DrawBuffer();
        currentBufferIndex := (currentBufferIndex + 1) % bufferCount;
      }
    }

    /** FlushBatch: draws the current buffer if it holds a vertex, and returns to the first buffer. */
    method FlushBatch()
      requires Valid()
      modifies Repr, this`currentBufferIndex
      ensures Valid() && Repr == old(Repr)
      ensures currentBufferIndex == 0
      ensures var b := buffers[old(currentBufferIndex)];
        && (old(b.count) > 0 ==> b.count == 0 && b.draws == old(b.draws) + [old(b.count) / b.verticesPerPrimitive * b.indicesPerPrimitive])
        && (old(b.count) == 0 ==> unchanged(b))
      ensures forall i :: 0 <= i < bufferCount && i != old(currentBufferIndex) ==> unchanged(buffers[i])
    {
      var current := buffers[currentBufferIndex];
      if current.count > 0 {
        current.DrawBuffer();
      }
      currentBufferIndex := 0;
    }

    /** Dispose: disposes every buffer. */
    method Dispose(ebo: SharedElementBuffer)
      requires Valid()
      modifies Repr
      ensures Valid()
      ensures forall i :: 0 <= i < bufferCount ==> buffers[i].isDisposed
    {
      for i := 0 to bufferCount
        invariant Valid()
        invariant forall k :: 0 <= k < i ==> buffers[k].isDisposed
      {
        buffers[i].Dispose(ebo);
      }
    }
  }
}
