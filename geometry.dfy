/** Integer rectangles (Silk.NET Rectangle<int>: an origin and a size). */
module Geometry {

  datatype Rect = Rect(x: int, y: int, w: int, h: int)

  function Right(r: Rect): int { r.x + r.w }
  function Bottom(r: Rect): int { r.y + r.h }

  /** Some pixel lies in both rectangles (an empty rectangle overlaps nothing). */
  predicate Overlap(a: Rect, b: Rect)
  {
    && 0 < a.w && 0 < a.h && 0 < b.w && 0 < b.h
    && a.x < Right(b) && b.x < Right(a)
    && a.y < Bottom(b) && b.y < Bottom(a)
  }

  /** The rectangle lies inside a texture of the given size. */
  predicate Inside(r: Rect, width: int, height: int)
  {
    0 <= r.x && 0 <= r.y && 0 <= r.w && 0 <= r.h && Right(r) <= width && Bottom(r) <= height
  }

  /** The rectangles are at least `gap` pixels apart along one axis. */
  predicate Separated(a: Rect, b: Rect, gap: int)
  {
    Right(a) + gap <= b.x || Right(b) + gap <= a.x || Bottom(a) + gap <= b.y || Bottom(b) + gap <= a.y
  }

  /** The rectangle grown by `p` pixels on every side. */
  function Inflate(r: Rect, p: int): Rect
  {
    Rect(r.x - p, r.y - p, r.w + 2 * p, r.h + 2 * p)
  }

  function Min(a: int, b: int): int { if a <= b then a else b }
  function Max(a: int, b: int): int { if a <= b then b else a }

  /**
   * Two rectangles kept `gap` pixels apart can each be grown by half the gap
   * without the grown areas touching each other or the other rectangle.
   */
  lemma HalfGapKeepsApart(a: Rect, b: Rect, gap: int)
    requires gap >= 0 && Separated(a, b, gap)
    ensures !Overlap(a, b)
    ensures !Overlap(Inflate(a, gap / 2), b) && !Overlap(a, Inflate(b, gap / 2))
    ensures !Overlap(Inflate(a, gap / 2), Inflate(b, gap / 2))
  {
  }
}
