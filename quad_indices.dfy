/**
 * The shared quad index buffers of BloomFramework: every quad of four
 * vertices is drawn as two triangles through six indices, and one element
 * buffer, kept in static state, is regenerated only when a larger one is
 * asked for. GL calls are recorded in the fields of the classes below.
 */
module QuadIndices {
  import opened Wrappers

  const VerticesPerQuad := 4
  const IndicesPerQuad := 6

  /**
   * ToIndicesCount: the vertex count times the float 6/4, cast back to int,
   * which truncates toward zero.
   */
  function ToIndicesCount(vertices: int): (indices: int)
    ensures 0 <= vertices ==> 0 <= 2 * indices <= 3 * vertices < 2 * indices + 2
    ensures vertices < 0 ==> 0 <= -2 * indices <= -3 * vertices < -2 * indices + 2
  {
    if 0 <= vertices then vertices * 3 / 2 else -((-vertices) * 3 / 2)
  }

  /** The two triangles of quad `k`: (4k, 4k+1, 4k+2) and (4k+2, 4k+3, 4k). */
  function QuadTriangles(k: nat): (t: seq<int>)
    ensures |t| == IndicesPerQuad
  {
    [4 * k, 4 * k + 1, 4 * k + 2, 4 * k + 2, 4 * k + 3, 4 * k]
  }

  /** The index list of `quads` quads, one quad after the other. */
  function QuadIndexList(quads: nat): (s: seq<int>)
    ensures |s| == IndicesPerQuad * quads
  {
    if quads == 0 then [] else QuadIndexList(quads - 1) + QuadTriangles(quads - 1)
  }

  /** Quad `k` of the list holds 4k, 4k+1, 4k+2, 4k+2, 4k+3, 4k. */
  lemma {:induction false} QuadPattern(quads: nat, k: nat)
    requires k < quads
    ensures QuadIndexList(quads)[6 * k .. 6 * k + 6] == QuadTriangles(k)
  {
    if k < quads - 1 {
      QuadPattern(quads - 1, k);
      assert QuadIndexList(quads)[..6 * (quads - 1)] == QuadIndexList(quads - 1);
    }
  }

  /** Every index of the list of `quads` quads names one of its first 4 * quads vertices. */
  lemma {:induction false} QuadIndicesInRange(quads: nat)
    ensures forall x <- QuadIndexList(quads) :: 0 <= x < VerticesPerQuad * quads
  {
    if quads > 0 {
      QuadIndicesInRange(quads - 1);
    }
  }

  /**
   * For a vertex count that is a multiple of 4 the index count is 6 per quad,
   * and every generated index is below the vertex count.
   */
  lemma IndicesBelowVertexCount(vertices: nat)
    requires vertices % VerticesPerQuad == 0
    ensures ToIndicesCount(vertices) == IndicesPerQuad * (vertices / VerticesPerQuad)
    ensures ToIndicesCount(vertices) % IndicesPerQuad == 0
    ensures forall x <- QuadIndexList(ToIndicesCount(vertices) / IndicesPerQuad) :: 0 <= x < vertices
  {
    QuadIndicesInRange(vertices / 4);
  }

  /**
   * The fill loop shared by both index buffers: six indices per step, the
   * vertex number advancing by four. When the count is not a multiple of 6
   * the last step writes past the end of the array and C# throws
   * IndexOutOfRangeException; a negative count fails at the allocation.
   */
  method GenerateQuadIndices(count: int) returns (r: Result<seq<int>, Exception>)
    ensures r.Ok? <==> 0 <= count && count % IndicesPerQuad == 0
    ensures r.Ok? ==> r.value == QuadIndexList(count / IndicesPerQuad) && |r.value| == count
    ensures count < 0 ==> r == Err(Overflow)
    ensures 0 <= count && count % IndicesPerQuad != 0 ==> r == Err(IndexOutOfRange)
  {
    if count < 0 {
      return Err(Overflow);
    }
    var indices := new int[count];
    var i, j := 0, 0;
    ghost var q := 0;
    while i < count
      invariant 0 <= i <= count && i == 6 * q && j == 4 * q
      invariant indices[..i] == QuadIndexList(q)
    {
      if i + 5 >= count {
        // The writes before the one past the end go to an array that is dropped.
        PartialQuad(count, q);
        return Err(IndexOutOfRange);
      }
      indices[i] := j;
      indices[i + 1] := j + 1;
      indices[i + 2] := j + 2;
      indices[i + 3] := j + 2;
      indices[i + 4] := j + 3;
      indices[i + 5] := j;
      assert indices[..i + 6] == indices[..i] + QuadTriangles(q);
      i, j, q := i + 6, j + 4, q + 1;
    }
    WholeQuads(count, q);
    assert indices[..] == indices[..i];
    return Ok(indices[..]);
  }

  /** A count of whole quads' indices divides back to the number of quads. */
  lemma WholeQuads(count: int, q: int)
    requires count == 6 * q
    ensures count % IndicesPerQuad == 0 && count / IndicesPerQuad == q
  {
  }

  /** A count strictly between two whole quads' indices is not a multiple of six. */
  lemma PartialQuad(count: int, q: int)
    requires 6 * q < count < 6 * q + 6
    ensures count % IndicesPerQuad != 0
  {
  }

  /** The static state of QuadElementBuffer together with the GL element buffer it owns. */
  class QuadElementBuffer {
    /** eboHandle; 0 until GenBuffer has been called. */
    var eboHandle: nat
    var maxVertices: int
    /** The element buffer bound in GL. */
    var boundElementBuffer: nat
    /** The indices last uploaded with BufferData. */
    var contents: seq<int>

    ghost predicate Valid()
      reads this
    {
      0 <= maxVertices
    }

    constructor ()
      ensures Valid() && eboHandle == 0 && maxVertices == 0 && boundElementBuffer == 0 && contents == []
    {
      eboHandle, maxVertices, boundElementBuffer, contents := 0, 0, 0, [];
    }

    /**
     * Bind: creates the handle on first use and binds it; regenerates the
     * indices unless the stored maxVertices is at least the new INDEX count
     * (the comparison mixes units), recording the vertex count before the
     * fill loop, so a count that gives an index count that is not a multiple
     * of 6 fails after maxVertices has changed. `generated` is the name
     * GenBuffer returns.
     */
    method Bind(numberOfVertices: int, generated: nat) returns (error: Option<Exception>)
      requires Valid() && generated != 0
      modifies this
      ensures Valid()
      ensures eboHandle == (if old(eboHandle) == 0 then generated else old(eboHandle))
      ensures boundElementBuffer == eboHandle != 0
      ensures var n := ToIndicesCount(numberOfVertices);
        if old(maxVertices) >= n then
          error.None? && maxVertices == old(maxVertices) && contents == old(contents)
        else
          && maxVertices == numberOfVertices
          && (n % IndicesPerQuad == 0 ==> error.None? && contents == QuadIndexList(n / IndicesPerQuad))
          && (n % IndicesPerQuad != 0 ==> error == Some(IndexOutOfRange) && contents == old(contents))
    {
      if eboHandle == 0 {
        eboHandle := generated;
      }
      boundElementBuffer := eboHandle;
      var numberOfIndices := ToIndicesCount(numberOfVertices);
      if maxVertices >= numberOfIndices {
        return None;
      }
      maxVertices := numberOfVertices;
      var indices := GenerateQuadIndices(numberOfIndices);
      if indices.Err? {
        return Some(indices.error);
      }
      contents := indices.value;
      return None;
    }
  }

  /** The static state of QuadIndexBuffer together with the GL element buffer it owns. */
  class QuadIndexBuffer {
    var eboHandle: nat
    var maxIndices: int
    var boundElementBuffer: nat
    var contents: seq<int>

    ghost predicate Valid()
      reads this
    {
      0 <= maxIndices && |contents| == maxIndices
    }

    constructor ()
      ensures Valid() && eboHandle == 0 && maxIndices == 0 && boundElementBuffer == 0 && contents == []
    {
      eboHandle, maxIndices, boundElementBuffer, contents := 0, 0, 0, [];
    }

    /**
     * InitializeEbo: does nothing past the bind when maxIndices already
     * covers the request; otherwise uploads the quad indices and only then
     * records the new count, so maxIndices never decreases and always
     * matches the uploaded data.
     */
    method InitializeEbo(desiredIndices: int, generated: nat) returns (error: Option<Exception>)
      requires Valid() && generated != 0
      modifies this
      ensures Valid()
      ensures eboHandle == (if old(eboHandle) == 0 then generated else old(eboHandle))
      ensures boundElementBuffer == eboHandle != 0
      ensures old(maxIndices) <= maxIndices
      ensures old(maxIndices) >= desiredIndices ==> error.None? && maxIndices == old(maxIndices) && contents == old(contents)
      ensures old(maxIndices) < desiredIndices && desiredIndices % IndicesPerQuad == 0 ==>
        error.None? && maxIndices == desiredIndices && contents == QuadIndexList(desiredIndices / IndicesPerQuad)
      ensures old(maxIndices) < desiredIndices && desiredIndices % IndicesPerQuad != 0 ==>
        error == Some(IndexOutOfRange) && maxIndices == old(maxIndices) && contents == old(contents)
    {
      if eboHandle == 0 {
        eboHandle := generated;
      }
      boundElementBuffer := eboHandle;
      if maxIndices >= desiredIndices {
        return None;
      }
      var buffer := GenerateQuadIndices(desiredIndices);
      if buffer.Err? {
        return Some(buffer.error);
      }
      contents := buffer.value;
      maxIndices := desiredIndices;
      return None;
    }
  }

  /** QuadBuffer: the vertex capacity handed to the base constructor. */
  function QuadBufferVertices(numberOfQuads: int): int
  {
    numberOfQuads * 4
  }

  /** QuadBuffer: the index count it asks the shared index buffer for. */
  function QuadBufferIndices(numberOfQuads: int): int
  {
    numberOfQuads * 6
  }

  /**
   * A quad buffer's index request is the index count of its vertex capacity,
   * is always a whole number of quads, and names only its own vertices.
   */
  lemma QuadBufferSizesAgree(numberOfQuads: nat)
    ensures QuadBufferIndices(numberOfQuads) == ToIndicesCount(QuadBufferVertices(numberOfQuads))
    ensures QuadBufferIndices(numberOfQuads) % IndicesPerQuad == 0
    ensures forall x <- QuadIndexList(QuadBufferIndices(numberOfQuads) / IndicesPerQuad) ::
      0 <= x < QuadBufferVertices(numberOfQuads)
  {
    IndicesBelowVertexCount(QuadBufferVertices(numberOfQuads));
  }
}
