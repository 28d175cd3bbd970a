/**
 * BloomFramework's plain vertex buffer: vertices are written into a CPU-side
 * array at a cursor, and the filled prefix is uploaded and drawn either on
 * request or as soon as the array is full. The upload-and-draw pair of GL
 * calls is recorded as one `Submission`.
 */
module VertexBuffers {
  import opened QuadIndices

  /** BufferSubData of the filled prefix followed by DrawElements of `indexCount` indices. */
  datatype Submission<V> = Submission(vertices: seq<V>, indexCount: int)

  /** A GL object deletion made by dispose. */
  datatype Deletion = DeletedVertexArray(vao: nat) | DeletedBuffer(vbo: nat)

  /** A submission draws the quads of its vertices: between 1 and `capacity` vertices, 1.5 indices each. */
  predicate WellFormed<V>(s: Submission<V>, capacity: int)
  {
    0 < |s.vertices| <= capacity && s.indexCount == ToIndicesCount(|s.vertices|)
  }

  class VertexBuffer<V(0)> {
    const vboHandle: nat
    const vaoHandle: nat
    /** The CPU-side copy of the vertices; its length is the buffer's capacity. */
    const data: array<V>
    var currentIndex: int
    var submissions: seq<Submission<V>>
    var isDisposed: bool
    var deletions: seq<Deletion>

    ghost predicate Valid()
      reads this
    {
      && 0 <= currentIndex < data.Length
      && (forall s <- submissions :: WellFormed(s, data.Length))
    }

    /** The vertices added since the last draw or reset. */
    ghost function Pending(): seq<V>
      reads this, data
      requires 0 <= currentIndex <= data.Length
    {
      data[..currentIndex]
    }

    /**
     * The constructor: a CPU array of `vertexCount` vertices and the GL names
     * GenBuffer and GenVertexArray returned.
     */
    constructor (vertexCount: nat, vbo: nat, vao: nat)
      requires 0 < vertexCount
      ensures Valid() && fresh(data) && data.Length == vertexCount
      ensures vboHandle == vbo && vaoHandle == vao
      ensures currentIndex == 0 && submissions == [] && !isDisposed && deletions == []
    {
      data := new V[vertexCount];
      vboHandle, vaoHandle := vbo, vao;
      currentIndex := 0;
      submissions := [];
      isDisposed := false;
      deletions := [];
    }

    /**
     * AddVertex: stores the vertex at the cursor and advances it; when that
     * fills the array the whole array is drawn and the cursor returns to 0.
     */
    method AddVertex(vertex: V)
      requires Valid()
      modifies this, data
      ensures Valid()
      ensures old(currentIndex) + 1 < data.Length ==>
        currentIndex == old(currentIndex) + 1 && Pending() == old(Pending()) + [vertex] && submissions == old(submissions)
      ensures old(currentIndex) + 1 == data.Length ==>
        currentIndex == 0 && submissions == old(submissions) + [Submission(old(Pending()) + [vertex], ToIndicesCount(data.Length))]
      ensures isDisposed == old(isDisposed) && deletions == old(deletions)
    {
      data[currentIndex] := vertex;
      currentIndex := currentIndex + 1;
      assert data[..currentIndex] == old(data[..currentIndex]) + [vertex];
      if currentIndex == data.Length {
        Draw();
      }
    }

    /**
     * Draw: nothing when no vertex is pending; otherwise submits the pending
     * vertices with the index count of that many vertices, then resets.
     */
    method Draw()
      requires 0 <= currentIndex <= data.Length && 0 < data.Length
      requires forall s <- submissions :: WellFormed(s, data.Length)
      modifies this
      ensures Valid()
      ensures old(currentIndex) == 0 ==> submissions == old(submissions)
      ensures old(currentIndex) != 0 ==>
        submissions == old(submissions) + [Submission(old(Pending()), ToIndicesCount(old(currentIndex)))]
      ensures currentIndex == 0 && isDisposed == old(isDisposed) && deletions == old(deletions)
    {
      if currentIndex == 0 {
        return;
      }
      submissions := submissions + [Submission(data[..currentIndex], ToIndicesCount(currentIndex))];
      Reset();
    }

    /** Reset: drops the pending vertices by moving the cursor back to 0; nothing else changes. */
    method Reset()
      modifies this`currentIndex
      ensures currentIndex == 0
    {
      currentIndex := 0;
    }

    /** Dispose: deletes the vertex array and the buffer once; later calls do nothing. */
    method Dispose()
      modifies this`isDisposed, this`deletions
      ensures isDisposed
      ensures old(isDisposed) ==> deletions == old(deletions)
      ensures !old(isDisposed) ==> deletions == old(deletions) + [DeletedVertexArray(vaoHandle), DeletedBuffer(vboHandle)]
    {
      if isDisposed {
        return;
      }
      deletions := deletions + [DeletedVertexArray(vaoHandle), DeletedBuffer(vboHandle)];
      isDisposed := true;
    }
  }
}
