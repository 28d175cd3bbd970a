/**
 * BloomBirb's vertex buffer: a CPU array of vertices reused from one draw to
 * the next, where only the range of slots whose vertex actually changed is
 * uploaded. The GL array buffer's contents are modelled as `store`, one
 * optional vertex per slot (None: never written); the element buffer shared
 * by all instances is `SharedElementBuffer`.
 */
module DirtyBuffers {
  import opened Wrappers

  /** Slot contents written by an upload. */
  function Written<V>(data: seq<V>): (s: seq<Option<V>>)
    ensures |s| == |data| && forall i :: 0 <= i < |data| ==> s[i] == Some(data[i])
  {
    seq(|data|, i requires 0 <= i < |data| => Some(data[i]))
  }

  /**
   * BufferData(data, offset) as written: an upload past `size` throws; one
   * that covers the whole buffer OR starts at offset 0 re-creates the GL
   * store with exactly `data`; anything else overwrites the slots in place
   * (a write past the end of the store is rejected by GL and changes nothing).
   */
  function UploadAsWritten<V>(store: seq<Option<V>>, size: int, data: seq<V>, offset: nat): (r: Result<seq<Option<V>>, Exception>)
    ensures r.Err? <==> offset + |data| > size
    ensures r.Ok? && (|data| == size || offset == 0) ==> r.value == Written(data)
  {
    if offset + |data| > size then Err(IndexOutOfRange)
    else if |data| == size || offset == 0 then Ok(Written(data))
    else if offset + |data| > |store| then Ok(store)
    else Ok(store[..offset] + Written(data) + store[offset + |data|..])
  }

  /** A dirty range starting at slot 0 and shorter than the buffer shrinks the GL store to that range. */
  lemma UploadAsWrittenShrinks<V>(store: seq<Option<V>>, size: int, data: seq<V>)
    requires 0 < |data| < size
    ensures UploadAsWritten(store, size, data, 0).Ok?
    ensures |UploadAsWritten(store, size, data, 0).value| == |data| < size
  {
  }

  /**
   * A buffer of 8 vertices, all uploaded, whose next batch changes only the
   * first 4: the upload leaves a GL store of 4 vertices while the draw that
   * follows reads all 8.
   */
  lemma UploadAsWrittenLosesVertices()
    ensures var store := Written([1, 2, 3, 4, 5, 6, 7, 8]);
      var after := UploadAsWritten(store, 8, [9, 9, 9, 9], 0);
      after.Ok? && |after.value| == 4 && |store| == 8
  {
  }

  /** BufferData as evidently intended: the store is re-created only for a whole-buffer upload. */
  function UploadCorrected<V>(store: seq<Option<V>>, size: int, data: seq<V>, offset: nat): (r: Result<seq<Option<V>>, Exception>)
    requires |store| == size
    ensures r.Err? <==> offset + |data| > size
    ensures r.Ok? ==>
      && |r.value| == size
      && r.value[offset..offset + |data|] == Written(data)
      && r.value[..offset] == store[..offset]
      && r.value[offset + |data|..] == store[offset + |data|..]
  {
    if offset + |data| > size then Err(IndexOutOfRange)
    else if |data| == size then Ok(Written(data))
    else Ok(store[..offset] + Written(data) + store[offset + |data|..])
  }

  /**
   * With the corrected upload, a GL store that matched the CPU array outside
   * the dirty range matches it everywhere once the dirty range is uploaded.
   */
  lemma CorrectedUploadSynchronises<V>(store: seq<Option<V>>, cpu: seq<V>, begin: nat, end: nat)
    requires |store| == |cpu| && begin <= end <= |cpu|
    requires forall i :: 0 <= i < |cpu| && !(begin <= i < end) ==> store[i] == Some(cpu[i])
    ensures UploadCorrected(store, |cpu|, cpu[begin..end], begin) == Ok(Written(cpu))
  {
    var r := UploadCorrected(store, |cpu|, cpu[begin..end], begin).value;
    forall i | 0 <= i < |cpu|
      ensures r[i] == Some(cpu[i])
    {
      if i < begin {
        assert r[..begin][i] == r[i];
      } else if i < end {
        assert r[begin..end][i - begin] == r[i];
      } else {
        assert r[end..][i - end] == r[i];
      }
    }
    assert r == Written(cpu);
  }

  /** The static element buffer state every instance shares: its name and the largest index count uploaded. */
  class SharedElementBuffer {
    var eboHandle: nat
    var eboMaxSize: int
    var boundElementBuffer: nat
    var contents: seq<int>

    constructor ()
      ensures eboHandle == 0 && eboMaxSize == 0 && boundElementBuffer == 0 && contents == []
    {
      eboHandle, eboMaxSize, boundElementBuffer, contents := 0, 0, 0, [];
    }

    /**
     * createAndUseEBO: creates the name on first use and binds it; the
     * indices the subclass builds are uploaded only when more are wanted than
     * were uploaded before.
     */
    method CreateAndUse(desiredSize: int, generated: nat, indices: seq<int>)
      requires generated != 0
      modifies this
      ensures eboHandle == (if old(eboHandle) == 0 then generated else old(eboHandle))
      ensures boundElementBuffer == eboHandle != 0
      ensures old(eboMaxSize) >= desiredSize ==> eboMaxSize == old(eboMaxSize) && contents == old(contents)
      ensures old(eboMaxSize) < desiredSize ==> eboMaxSize == desiredSize && contents == indices
      ensures old(eboMaxSize) <= eboMaxSize
    {
      if eboHandle == 0 {
        eboHandle := generated;
      }
      boundElementBuffer := eboHandle;
      if eboMaxSize >= desiredSize {
        return;
      }
      eboMaxSize := desiredSize;
      contents := indices;
    }
  }

  /** A GL object deletion made by Dispose. */
  datatype Deletion = DeletedVertexArray(vao: nat) | DeletedBuffer(name: nat)

  class DirtyVertexBuffer<V(==,0)> {
    /** Size: the capacity in vertices. */
    const size: int
    const verticesPerPrimitive: int
    const indicesPerPrimitive: int
    /** Vertices; null until Initialize. */
    var vertices: array?<V>
    var count: int
    var beginBuffer: int
    var endBuffer: int
    var vaoHandle: nat
    var vboHandle: nat
    /** The contents of the GL array buffer. */
    var store: seq<Option<V>>
    /** The index counts passed to DrawElements, in order. */
    var draws: seq<int>
    var isDisposed: bool
    var deletions: seq<Deletion>
    /** The slots written since the last reset. */
    ghost var changed: set<int>

    ghost predicate Valid()
      reads this
    {
      && 0 <= size && 0 < verticesPerPrimitive
      && (vertices != null ==> vertices.Length == size)
      && 0 <= count <= size
      && (vertices == null ==> count == 0)
      && ((beginBuffer == -1) <==> (endBuffer == -1))
      && ((beginBuffer == -1) <==> changed == {})
      && (beginBuffer != -1 ==> 0 <= beginBuffer < endBuffer <= count && beginBuffer in changed && endBuffer - 1 in changed)
      && (forall i <- changed :: beginBuffer <= i < endBuffer)
    }

    constructor (amountOfVertices: int, verticesPerPrimitive: int, indicesPerPrimitive: int)
      requires 0 <= amountOfVertices && 0 < verticesPerPrimitive
      ensures Valid()
      ensures size == amountOfVertices && vertices == null && count == 0 && beginBuffer == -1
      ensures this.verticesPerPrimitive == verticesPerPrimitive && this.indicesPerPrimitive == indicesPerPrimitive
      ensures store == [] && draws == [] && !isDisposed && deletions == []
    {
      size := amountOfVertices;
      this.verticesPerPrimitive := verticesPerPrimitive;
      this.indicesPerPrimitive := indicesPerPrimitive;
      vertices := null;
      count, beginBuffer, endBuffer := 0, -1, -1;
      vaoHandle, vboHandle := 0, 0;
      store, draws := [], [];
      isDisposed, deletions := false, [];
      changed := {};
    }

    /** IsFull. */
    predicate IsFull()
      reads this
    {
      count == size
    }

    /**
     * Initialize: allocates the CPU array and a GL store of `size` unwritten
     * slots, then sets up the shared element buffer. The count and the dirty
     * range are left as they are.
     */
    method Initialize(vao: nat, vbo: nat, ebo: SharedElementBuffer, generatedEbo: nat, indices: seq<int>)
      requires Valid() && generatedEbo != 0
      modifies this, ebo
      ensures Valid() && vertices != null && fresh(vertices)
      ensures vaoHandle == vao && vboHandle == vbo && store == seq(size, _ => None)
      ensures count == old(count) && beginBuffer == old(beginBuffer) && endBuffer == old(endBuffer)
      ensures draws == old(draws) && isDisposed == old(isDisposed) && deletions == old(deletions)
      ensures ebo.eboHandle == (if old(ebo.eboHandle) == 0 then generatedEbo else old(ebo.eboHandle))
      ensures old(ebo.eboMaxSize) >= size / verticesPerPrimitive * indicesPerPrimitive ==>
        ebo.eboMaxSize == old(ebo.eboMaxSize) && ebo.contents == old(ebo.contents)
      ensures old(ebo.eboMaxSize) < size / verticesPerPrimitive * indicesPerPrimitive ==>
        ebo.eboMaxSize == size / verticesPerPrimitive * indicesPerPrimitive && ebo.contents == indices
    {
      vertices := new V[size];
      vaoHandle := vao;
      vboHandle := vbo;
      store := seq(size, _ => None);
      ebo.CreateAndUse(size / verticesPerPrimitive * indicesPerPrimitive, generatedEbo, indices);
    }

    /**
     * AddVertex: throws when not initialized, or when the buffer is already
     * full (the array write is out of range). Otherwise a vertex that differs
     * from the one in the slot is stored and the dirty range grows to cover
     * the slot; the count always advances.
     */
    method AddVertex(vertex: V) returns (error: Option<Exception>)
      requires Valid()
      modifies this, vertices
      ensures Valid() && vertices == old(vertices)
      ensures old(vertices) == null ==> error == Some(ArgumentNull) && unchanged(this)
      ensures old(vertices) != null && old(count) == size ==> error == Some(IndexOutOfRange) && unchanged(this) && unchanged(vertices)
      ensures old(vertices) != null && old(count) < size ==>
        && error.None?
        && count == old(count) + 1
        && vertices[..] == old(vertices[..])[old(count) := vertex]
        && (old(vertices[count]) == vertex ==>
              beginBuffer == old(beginBuffer) && endBuffer == old(endBuffer) && changed == old(changed))
        && (old(vertices[count]) != vertex ==>
              && changed == old(changed) + {old(count)}
              && beginBuffer == (if old(beginBuffer) == -1 then old(count) else old(beginBuffer))
              && endBuffer == old(count) + 1)
      ensures store == old(store) && draws == old(draws) && isDisposed == old(isDisposed) && deletions == old(deletions)
    {
      if vertices == null {
        return Some(ArgumentNull);
      }
      if count >= vertices.Length {
        return Some(IndexOutOfRange);
      }
      if vertices[count] != vertex {
        vertices[count] := vertex;
        if beginBuffer == -1 {
          beginBuffer := count;
          endBuffer := count + 1;
        } else {
          endBuffer := count + 1;
        }
        changed := changed + {count};
      }
      count := count + 1;
      return None;
    }

    /** reset: no vertex and a clean range. */
    method Reset()
      requires Valid()
      modifies this`count, this`beginBuffer, this`endBuffer, this`changed
      ensures Valid()
      ensures count == 0 && beginBuffer == -1 && endBuffer == -1 && changed == {}
    {
      count, beginBuffer, endBuffer := 0, -1, -1;
      changed := {};
    }

    /** BufferData: the GL store becomes what the as-written upload gives, or the call throws. */
    method BufferData(data: seq<V>, offset: nat) returns (error: Option<Exception>)
      modifies this`store
      ensures UploadAsWritten(old(store), size, data, offset).Err? ==> error == Some(IndexOutOfRange) && store == old(store)
      ensures UploadAsWritten(old(store), size, data, offset).Ok? ==> error.None? && store == UploadAsWritten(old(store), size, data, offset).value
    {
      if offset + |data| > size {
        return Some(IndexOutOfRange);
      }
      if |data| == size || offset == 0 {
        store := Written(data);
      } else if offset + |data| <= |store| {
        store := store[..offset] + Written(data) + store[offset + |data|..];
      }
      return None;
    }

    /**
     * DrawBuffer: uploads the dirty range, if any, draws the whole primitives
     * among the vertices added, and resets.
     */
    method DrawBuffer()
      requires Valid()
      modifies this`store, this`draws, this`count, this`beginBuffer, this`endBuffer, this`changed
      ensures Valid()
      ensures old(beginBuffer) == -1 ==> store == old(store)
      ensures old(beginBuffer) != -1 ==>
        store == UploadAsWritten(old(store), size, old(vertices[beginBuffer..endBuffer]), old(beginBuffer)).value
      ensures draws == old(draws) + [old(count) / verticesPerPrimitive * indicesPerPrimitive]
      ensures count == 0 && beginBuffer == -1 && endBuffer == -1
    {
      if beginBuffer != -1 {
        var _ := BufferData(vertices[beginBuffer..endBuffer], beginBuffer);
      }
      draws := draws + [count / verticesPerPrimitive * indicesPerPrimitive];
      Reset();
    }

    /**
     * Dispose: deletes the vertex array, the vertex buffer and the SHARED
     * element buffer, once.
     */
    method Dispose(ebo: SharedElementBuffer)
      modifies this`isDisposed, this`deletions
      ensures isDisposed
      ensures old(isDisposed) ==> deletions == old(deletions)
      ensures !old(isDisposed) ==>
        deletions == old(deletions) + [DeletedVertexArray(vaoHandle), DeletedBuffer(vboHandle), DeletedBuffer(ebo.eboHandle)]
    {
      if isDisposed {
        return;
      }
      deletions := deletions + [DeletedVertexArray(vaoHandle), DeletedBuffer(vboHandle), DeletedBuffer(ebo.eboHandle)];
      isDisposed := true;
    }
  }
}
