/**
 * The BloomBirb vertex formats. Each format has a byte size and a layout:
 * the list of its attributes, each a component type and a component count,
 * in the order the shaders declare them (locations 0 to 3 of the shared
 * shader header: position, colour, texture position, depth).
 *
 * Vectors of floats are tuples of reals; float rounding is not modelled.
 */
module Vertices {

  /** VertexAttributeType, in declaration order. */
  datatype AttribType =
    | Byte | UnsignedByte | Short | UnsignedShort | Int | UnsignedInt
    | Float | Double | HalfFloat | Fixed

  /** The enum's underlying value: its position in the declaration. */
  function Ordinal(t: AttribType): (n: nat)
    ensures n < 10
  {
    match t
    case Byte => 0
    case UnsignedByte => 1
    case Short => 2
    case UnsignedShort => 3
    case Int => 4
    case UnsignedInt => 5
    case Float => 6
    case Double => 7
    case HalfFloat => 8
    case Fixed => 9
  }

  /** VertexLayoutEntry: `count` components of type `kind`. */
  datatype LayoutEntry = LayoutEntry(kind: AttribType, count: int)

  type Vec2 = (real, real)
  type Vec4 = (real, real, real, real)

  /** sizeof(float). */
  const FloatSize: int := 4

  /** PositionAndColourVertex: a position and a colour, six floats. */
  datatype PositionAndColourVertex = PositionAndColourVertex(position: Vec2, colour: Vec4)

  const PositionAndColourSize: int := FloatSize * 6
  const PositionAndColourLayout: seq<LayoutEntry> := [LayoutEntry(Float, 2), LayoutEntry(Float, 4)]

  /** TexturedVertex2D: a position and colour vertex and a texture position. */
  datatype TexturedVertex2D = TexturedVertex2D(positionAndColour: PositionAndColourVertex, texturePosition: Vec2)

  const TexturedVertexSize: int := PositionAndColourSize + FloatSize * 2
  const TexturedVertexLayout: seq<LayoutEntry> := PositionAndColourLayout + [LayoutEntry(Float, 2)]

  /** The TexturedVertex2D constructor: the position and colour go into the nested vertex. */
  function NewTexturedVertex2D(position: Vec2, colour: Vec4, texturePosition: Vec2): (v: TexturedVertex2D)
    ensures v.positionAndColour.position == position && v.positionAndColour.colour == colour
    ensures v.texturePosition == texturePosition
    ensures forall w: TexturedVertex2D ::
      (w.positionAndColour.position == position && w.positionAndColour.colour == colour && w.texturePosition == texturePosition) ==> w == v
  {
    TexturedVertex2D(PositionAndColourVertex(position, colour), texturePosition)
  }

  /** TexturedVertex2D.Equals: component by component, which is equality of the vertices. */
  function TexturedEquals(a: TexturedVertex2D, b: TexturedVertex2D): (r: bool)
    ensures r <==> a == b
  {
    a.positionAndColour == b.positionAndColour && a.texturePosition == b.texturePosition
  }

  /** DepthWrappingVertex: a vertex and the depth it was made at. */
  datatype DepthWrappingVertex<T> = DepthWrappingVertex(vertex: T, depth: real)

  /** The size of a depth-wrapping vertex: the inner vertex and one float. */
  function DepthWrappingSize(innerSize: int): int
  {
    innerSize + FloatSize
  }

  /** The layout of a depth-wrapping vertex: the inner layout and one float. */
  function DepthWrappingLayout(inner: seq<LayoutEntry>): (layout: seq<LayoutEntry>)
    ensures |layout| == |inner| + 1 && layout[..|inner|] == inner
    ensures layout[|inner|] == LayoutEntry(Float, 1)
  {
    inner + [LayoutEntry(Float, 1)]
  }

  /** DepthWrappingVertex.Equals: equal inner vertices and equal depths, which is equality of the vertices. */
  function DepthEquals<T(==)>(a: DepthWrappingVertex<T>, b: DepthWrappingVertex<T>): (r: bool)
    ensures r <==> a == b
  {
    a.vertex == b.vertex && a.depth == b.depth
  }

  /** The layout the engine draws with: a depth-wrapped textured vertex. */
  const ShaderVertexLayout: seq<LayoutEntry> := DepthWrappingLayout(TexturedVertexLayout)
  const ShaderVertexSize: int := DepthWrappingSize(TexturedVertexSize)

  /**
   * The drawn vertex has a position (2 floats), a colour (4), a texture
   * position (2) and a depth (1), in that order, as the shared shader
   * header declares at locations 0 to 3; it is 36 bytes long.
   */
  lemma ShaderVertexLayoutIsDeclared()
    ensures ShaderVertexLayout == [LayoutEntry(Float, 2), LayoutEntry(Float, 4), LayoutEntry(Float, 2), LayoutEntry(Float, 1)]
    ensures ShaderVertexSize == 36
  {
  }

  /**
   * The static next depth shared by every DepthWrappingVertex of one inner
   * type: a new vertex takes the current depth.
   */
  class DepthCounter {
    var nextDepth: real

    /** A static float starts at zero. */
    constructor ()
      ensures nextDepth == 0.0
    {
      nextDepth := 0.0;
    }

    /** Reset: the next vertex is at depth -1. */
    method Reset()
      modifies this
      ensures nextDepth == -1.0
    {
      nextDepth := -1.0;
    }

    /** Increment: every later vertex is one step (0.001) deeper. */
    method Increment()
      modifies this
      ensures nextDepth == old(nextDepth) + 0.001
      ensures nextDepth > old(nextDepth)
    {
      nextDepth := nextDepth + 0.001;
    }

    /** The constructor and the implicit conversion: the vertex wrapped at the current depth. */
    method Wrap<T>(vertex: T) returns (v: DepthWrappingVertex<T>)
      ensures v.vertex == vertex && v.depth == nextDepth
    {
      v := DepthWrappingVertex(vertex, nextDepth);
    }
  }
}
