/**
 * GLUtils.SetVAO: the vertex array attributes for a vertex format. Attribute
 * i of the layout is bound at location i, with the format's size as the
 * stride and, as the offset, the bytes taken by the attributes before it.
 *
 * The GL is a log of calls. GL enum values are those of the OpenGL headers.
 */
module GLUtils {
  import opened Wrappers
  import opened Vertices

  // The vertex attribute component types of the OpenGL headers, and the
  // three list-only constants that sit between GL_FLOAT and GL_DOUBLE.
  const GL_BYTE: int := 0x1400
  const GL_UNSIGNED_BYTE: int := 0x1401
  const GL_SHORT: int := 0x1402
  const GL_UNSIGNED_SHORT: int := 0x1403
  const GL_INT: int := 0x1404
  const GL_UNSIGNED_INT: int := 0x1405
  const GL_FLOAT: int := 0x1406
  const GL_2_BYTES: int := 0x1407
  const GL_3_BYTES: int := 0x1408
  const GL_4_BYTES: int := 0x1409
  const GL_DOUBLE: int := 0x140A
  const GL_HALF_FLOAT: int := 0x140B
  const GL_FIXED: int := 0x140C

  /** The bytes one component of a GL vertex attribute type takes; None for a code that is not such a type. */
  function GLComponentBytes(code: int): (n: Option<int>)
    ensures n.Some? ==> n.value in {1, 2, 4, 8}
  {
    if code == GL_BYTE || code == GL_UNSIGNED_BYTE then Some(1)
    else if code == GL_SHORT || code == GL_UNSIGNED_SHORT || code == GL_HALF_FLOAT then Some(2)
    else if code == GL_INT || code == GL_UNSIGNED_INT || code == GL_FLOAT || code == GL_FIXED then Some(4)
    else if code == GL_DOUBLE then Some(8)
    else None
  }

  /** toGLVertexAttribPointerType as written: the enum value added to GL_BYTE. */
  function ToGLTypeAsWritten(t: AttribType): (code: int)
    ensures GL_BYTE <= code < GL_BYTE + 10
  {
    Ordinal(t) + GL_BYTE
  }

  /** The GL constant that names each attribute type. */
  function ToGLType(t: AttribType): (code: int)
    ensures GL_BYTE <= code <= GL_FIXED
    ensures code != GL_2_BYTES && code != GL_3_BYTES && code != GL_4_BYTES
  {
    match t
    case Byte => GL_BYTE
    case UnsignedByte => GL_UNSIGNED_BYTE
    case Short => GL_SHORT
    case UnsignedShort => GL_UNSIGNED_SHORT
    case Int => GL_INT
    case UnsignedInt => GL_UNSIGNED_INT
    case Float => GL_FLOAT
    case Double => GL_DOUBLE
    case HalfFloat => GL_HALF_FLOAT
    case Fixed => GL_FIXED
  }

  /** sizeOf: the bytes of one component; 0 for the half float and fixed types. */
  function SizeOf(t: AttribType): (n: int)
    ensures n in {0, 1, 2, 4, 8}
    ensures n == 0 <==> t == HalfFloat || t == Fixed
  {
    match t
    case Byte | UnsignedByte => 1
    case Short | UnsignedShort => 2
    case Int | UnsignedInt | Float => 4
    case Double => 8
    case _ => 0
  }

  /**
   * The corrected type map names a GL vertex attribute type for every
   * attribute type, a different one for each, and the byte size sizeOf
   * gives agrees with GL's wherever sizeOf gives one.
   */
  lemma ToGLTypeIsFaithful(t: AttribType, u: AttribType)
    ensures GLComponentBytes(ToGLType(t)).Some?
    ensures SizeOf(t) != 0 ==> GLComponentBytes(ToGLType(t)) == Some(SizeOf(t))
    ensures t != u ==> ToGLType(t) != ToGLType(u)
  {
  }

  /** The map as written agrees with the GL constants on every type up to Float. */
  lemma AsWrittenAgreesUpToFloat(t: AttribType)
    ensures ToGLTypeAsWritten(t) == ToGLType(t) <==> Ordinal(t) <= Ordinal(Float)
  {
  }

  /**
   * The map as written sends Double to GL_2_BYTES, which is not a vertex
   * attribute type, where GL_DOUBLE was meant (and likewise HalfFloat and
   * Fixed to GL_3_BYTES and GL_4_BYTES).
   */
  lemma AsWrittenMisnamesDouble()
    ensures ToGLTypeAsWritten(Double) == GL_2_BYTES != GL_DOUBLE == ToGLType(Double)
    ensures GLComponentBytes(ToGLTypeAsWritten(Double)).None?
    ensures GLComponentBytes(ToGLTypeAsWritten(HalfFloat)).None? && GLComponentBytes(ToGLTypeAsWritten(Fixed)).None?
  {
  }

  /** The bytes a layout takes: the sum of count times component size. */
  function LayoutBytes(layout: seq<LayoutEntry>): int
  {
    if |layout| == 0 then 0
    else LayoutBytes(layout[..|layout| - 1]) + layout[|layout| - 1].count * SizeOf(layout[|layout| - 1].kind)
  }

  /** The bytes of a layout with more entries are those of its parts added. */
  lemma {:induction false} LayoutBytesAppend(a: seq<LayoutEntry>, b: seq<LayoutEntry>)
    ensures LayoutBytes(a + b) == LayoutBytes(a) + LayoutBytes(b)
    decreases |b|
  {
    if |b| > 0 {
      var b' := b[..|b| - 1];
      assert (a + b)[..|a + b| - 1] == a + b';
      LayoutBytesAppend(a, b');
    } else {
      assert a + b == a;
    }
  }

  /** A depth-wrapping vertex takes the room of its inner layout and one float, its declared size. */
  lemma DepthWrappingSizeIsLayout(inner: seq<LayoutEntry>, innerSize: int)
    requires innerSize == LayoutBytes(inner)
    ensures DepthWrappingSize(innerSize) == LayoutBytes(DepthWrappingLayout(inner))
  {
    LayoutBytesAppend(inner, [LayoutEntry(Float, 1)]);
    assert [LayoutEntry(Float, 1)][..0] == [];
  }

  /** Each vertex format's declared size is exactly the room its layout takes: the stride packs the attributes. */
  lemma SizesMatchLayouts()
    ensures PositionAndColourSize == LayoutBytes(PositionAndColourLayout)
    ensures TexturedVertexSize == LayoutBytes(TexturedVertexLayout)
    ensures ShaderVertexSize == LayoutBytes(ShaderVertexLayout)
  {
    assert PositionAndColourLayout[..1] == [LayoutEntry(Float, 2)];
    assert TexturedVertexLayout[..2] == PositionAndColourLayout;
    LayoutBytesAppend(PositionAndColourLayout, [LayoutEntry(Float, 2)]);
    assert [LayoutEntry(Float, 2)][..0] == [];
    DepthWrappingSizeIsLayout(TexturedVertexLayout, TexturedVertexSize);
  }

  /** A logged GL call. */
  datatype GLCall =
    | VertexAttribPointer(index: nat, size: int, glType: int, normalized: bool, stride: int, offset: int)
    | EnableVertexAttribArray(index: nat)

  /** The calls SetVAO makes for a layout: per attribute, its pointer and then its enabling. */
  function SetVAOCalls(layout: seq<LayoutEntry>, stride: int): (calls: seq<GLCall>)
    ensures |calls| == 2 * |layout|
  {
    if |layout| == 0 then []
    else
      var n := |layout| - 1;
      SetVAOCalls(layout[..n], stride)
      + [VertexAttribPointer(n, layout[n].count, ToGLTypeAsWritten(layout[n].kind), false, stride, LayoutBytes(layout[..n])),
         EnableVertexAttribArray(n)]
  }

  /**
   * Attribute i is pointed at location i, with its count, its GL type, not
   * normalised, the given stride and the bytes of the attributes before it
   * as offset, and location i is then enabled.
   */
  lemma {:induction false} SetVAOCallsAt(layout: seq<LayoutEntry>, stride: int, i: nat)
    requires i < |layout|
    ensures SetVAOCalls(layout, stride)[2 * i] ==
      VertexAttribPointer(i, layout[i].count, ToGLTypeAsWritten(layout[i].kind), false, stride, LayoutBytes(layout[..i]))
    ensures SetVAOCalls(layout, stride)[2 * i + 1] == EnableVertexAttribArray(i)
    decreases |layout|
  {
    var n := |layout| - 1;
    if i < n {
      SetVAOCallsAt(layout[..n], stride, i);
      assert layout[..n][i] == layout[i] && layout[..n][..i] == layout[..i];
    }
  }

  /** SetVAO: the calls of SetVAOCalls, made one attribute at a time with a running offset. */
  method SetVAO(layout: seq<LayoutEntry>, size: int) returns (calls: seq<GLCall>)
    ensures calls == SetVAOCalls(layout, size)
  {
    var stride := size;
    var offset := 0;
    calls := [];
    for i := 0 to |layout|
      invariant offset == LayoutBytes(layout[..i])
      invariant calls == SetVAOCalls(layout[..i], stride)
    {
      var entry := layout[i];
      assert layout[..i + 1][..i] == layout[..i];
      calls := calls + [VertexAttribPointer(i, entry.count, ToGLTypeAsWritten(entry.kind), false, stride, offset)];
      offset := offset + entry.count * SizeOf(entry.kind);
      calls := calls + [EnableVertexAttribArray(i)];
    }
    assert layout[..|layout|] == layout;
  }

  /**
   * For the drawn vertex, SetVAO points locations 0 to 3 (position,
   * colour, texture position, depth) at offsets 0, 8, 24 and 32 of a
   * 36-byte stride, all of GL_FLOAT components; the last attribute ends
   * exactly at the stride.
   */
  lemma ShaderVertexAttributes()
    ensures var l := ShaderVertexLayout;
      && |l| == 4
      && LayoutBytes(l[..0]) == 0 && LayoutBytes(l[..1]) == 8 && LayoutBytes(l[..2]) == 24 && LayoutBytes(l[..3]) == 32
      && LayoutBytes(l) == ShaderVertexSize == 36
      && forall i :: 0 <= i < 4 ==> ToGLTypeAsWritten(l[i].kind) == GL_FLOAT
  {
    var l := ShaderVertexLayout;
    ShaderVertexLayoutIsDeclared();
    assert l[..1] == [LayoutEntry(Float, 2)];
    assert l[..2][..1] == l[..1];
    assert l[..3][..2] == l[..2];
    assert l[..4] == l;
    SizesMatchLayouts();
  }
}
