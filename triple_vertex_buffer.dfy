/**
 * BloomFramework's triple buffer: three plain vertex buffers used in turn.
 * Vertices go to the current buffer; once `verticesPerBuffer` vertices have
 * gone to it (it has then drawn itself) or it is drawn or reset, the next
 * buffer becomes current.
 */
module TripleBuffers {
  import opened QuadIndices
  import opened VertexBuffers

  class TripleBuffer<V(0)> {
    const buffers: seq<VertexBuffer<V>>
    const verticesPerBuffer: int
    var currentBufferIndex: int
    /** The vertices added to the current buffer since it became current. */
    var count: int
    var isDisposed: bool
    /** The three buffers and their arrays. */
    ghost const Repr: set<object>

    ghost predicate Valid()
      reads this, Repr
    {
      && |buffers| == 3
      && Repr == {buffers[0], buffers[1], buffers[2], buffers[0].data, buffers[1].data, buffers[2].data}
      && (forall i, j :: 0 <= i < j < 3 ==> buffers[i] != buffers[j] && buffers[i].data != buffers[j].data)
      && (forall i :: 0 <= i < 3 ==> buffers[i].Valid() && buffers[i].data.Length == verticesPerBuffer)
      && 0 <= currentBufferIndex < 3
      && 0 <= count < verticesPerBuffer
    }

    constructor (verticesPerBuffer: int, vbos: seq<nat>, vaos: seq<nat>)
      requires 0 < verticesPerBuffer && |vbos| == 3 && |vaos| == 3
      ensures Valid() && fresh(Repr)
      ensures this.verticesPerBuffer == verticesPerBuffer
      ensures forall i :: 0 <= i < 3 ==>
        && buffers[i].vboHandle == vbos[i] && buffers[i].vaoHandle == vaos[i]
        && buffers[i].currentIndex == 0 && buffers[i].submissions == [] && !buffers[i].isDisposed
      ensures currentBufferIndex == 0 && count == 0 && !isDisposed
    {
      this.verticesPerBuffer := verticesPerBuffer;
      var created: seq<VertexBuffer<V>> := [];
      for i := 0 to 3
        invariant |created| == i
        invariant forall k :: 0 <= k < i ==> fresh(created[k]) && fresh(created[k].data)
        invariant forall k, m :: 0 <= k < m < i ==> created[k] != created[m] && created[k].data != created[m].data
        invariant forall k :: 0 <= k < i ==>
          && created[k].Valid() && created[k].data.Length == verticesPerBuffer
          && created[k].vboHandle == vbos[k] && created[k].vaoHandle == vaos[k]
          && created[k].currentIndex == 0 && created[k].submissions == [] && !created[k].isDisposed
      {
        var b := new VertexBuffer(verticesPerBuffer, vbos[i], vaos[i]);
        created := created + [b];
      }
      buffers := created;
      Repr := {created[0], created[1], created[2], created[0].data, created[1].data, created[2].data};
      currentBufferIndex, count, isDisposed := 0, 0, false;
    }

    /**
     * AddVertex: forwards the vertex to the current buffer and counts it;
     * the count reaching `verticesPerBuffer` moves on to the next buffer.
     * The other two buffers are not touched.
     */
    method AddVertex(vertex: V)
      requires Valid()
      modifies this, Repr
      ensures Valid()
      ensures old(count) + 1 < verticesPerBuffer ==> currentBufferIndex == old(currentBufferIndex) && count == old(count) + 1
      ensures old(count) + 1 == verticesPerBuffer ==> currentBufferIndex == (old(currentBufferIndex) + 1) % 3 && count == 0
      ensures var b := buffers[old(currentBufferIndex)];
        && (old(b.currentIndex) + 1 < verticesPerBuffer ==>
              b.Pending() == old(b.Pending()) + [vertex] && b.submissions == old(b.submissions))
        && (old(b.currentIndex) + 1 == verticesPerBuffer ==>
              b.currentIndex == 0 && b.submissions == old(b.submissions) + [Submission(old(b.Pending()) + [vertex], ToIndicesCount(verticesPerBuffer))])
      ensures forall i :: 0 <= i < 3 && i != old(currentBufferIndex) ==> unchanged(buffers[i], buffers[i].data)
      ensures isDisposed == old(isDisposed)
    {
      var b := buffers[currentBufferIndex];
      b.AddVertex(vertex);
      count := count + 1;
      if count == verticesPerBuffer {
        Reset();
      }
    }

    /** Draw: nothing when the current buffer has no vertex; otherwise draws it and moves on. */
    method Draw()
      requires Valid()
      modifies this, Repr
      ensures Valid()
      ensures old(count) == 0 ==> unchanged(this) && unchanged(Repr)
      ensures old(count) != 0 ==>
        && currentBufferIndex == (old(currentBufferIndex) + 1) % 3 && count == 0
        && var b := buffers[old(currentBufferIndex)];
        && b.currentIndex == 0
        && b.submissions == old(b.submissions) + (if old(b.currentIndex) == 0 then [] else [Submission(old(b.Pending()), ToIndicesCount(old(b.currentIndex)))])
      ensures forall i :: 0 <= i < 3 && i != old(currentBufferIndex) ==> unchanged(buffers[i], buffers[i].data)
    {
      if count == 0 {
        return;
      }
      var b := buffers[currentBufferIndex];
      b.Draw();
      Reset();
    }

    /**
     * Reset: nothing when the current buffer has no vertex; otherwise the next
     * buffer becomes current with a count of 0. The buffer left behind keeps
     * its pending vertices.
     */
    method Reset()
      requires 0 <= currentBufferIndex < 3
      modifies this`currentBufferIndex, this`count
      ensures old(count) == 0 ==> currentBufferIndex == old(currentBufferIndex) && count == 0
      ensures old(count) != 0 ==> currentBufferIndex == (old(currentBufferIndex) + 1) % 3 && count == 0
      ensures 0 <= currentBufferIndex < 3
    {
      if count == 0 {
        return;
      }
      currentBufferIndex := (currentBufferIndex + 1) % 3;
      count := 0;
    }

    /** Dispose: disposes the three buffers once; later calls do nothing. */
    method Dispose()
      requires Valid()
      modifies this, Repr
      ensures Valid() && isDisposed
      ensures old(isDisposed) ==> unchanged(Repr)
      ensures !old(isDisposed) ==> forall i :: 0 <= i < 3 ==>
        && buffers[i].isDisposed
        && buffers[i].deletions == old(buffers[i].deletions) +
             (if old(buffers[i].isDisposed) then [] else [DeletedVertexArray(buffers[i].vaoHandle), DeletedBuffer(buffers[i].vboHandle)])
      ensures currentBufferIndex == old(currentBufferIndex) && count == old(count)
      ensures forall i :: 0 <= i < 3 ==> buffers[i].currentIndex == old(buffers[i].currentIndex) && buffers[i].submissions == old(buffers[i].submissions)
    {
      if isDisposed {
        return;
      }
      for i := 0 to 3
        invariant Valid()
        invariant forall k :: 0 <= k < i ==>
          && buffers[k].isDisposed
          && buffers[k].deletions == old(buffers[k].deletions) +
               (if old(buffers[k].isDisposed) then [] else [DeletedVertexArray(buffers[k].vaoHandle), DeletedBuffer(buffers[k].vboHandle)])
        invariant forall k :: i <= k < 3 ==> buffers[k].isDisposed == old(buffers[k].isDisposed) && buffers[k].deletions == old(buffers[k].deletions)
        invariant forall k :: 0 <= k < 3 ==> buffers[k].currentIndex == old(buffers[k].currentIndex) && buffers[k].submissions == old(buffers[k].submissions)
        invariant currentBufferIndex == old(currentBufferIndex) && count == old(count) && !isDisposed
      {
        buffers[i].Dispose();
      }
      isDisposed := true;
    }
  }
}
