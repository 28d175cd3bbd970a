/**
 * The free-rectangle packer of BloomBirb's TextureAtlas: the atlas keeps a list
 * of free rectangles, places an image in the smallest free rectangle that
 * holds it, and replaces that rectangle by two rectangles for the space left.
 */
module GuillotineAtlas {
  import opened Wrappers
  import opened Geometry
  import opened Texture

  predicate Holds(r: Rect, w: int, h: int)
  {
    r.w >= w && r.h >= h
  }

  function Area(r: Rect): int
  {
    r.w * r.h
  }

  /**
   * The rectangle `Where(fits).OrderBy(area).First()` picks: the index of the
   * free rectangle of least area among those that hold a `w` x `h` image,
   * the earliest one on a tie (OrderBy is a stable sort).
   */
  function BestFit(rs: seq<Rect>, w: int, h: int): (k: Option<nat>)
    ensures k.None? <==> forall i :: 0 <= i < |rs| ==> !Holds(rs[i], w, h)
    ensures k.Some? ==>
      && k.value < |rs| && Holds(rs[k.value], w, h)
      && (forall i :: 0 <= i < |rs| && Holds(rs[i], w, h) ==> Area(rs[k.value]) <= Area(rs[i]))
      && (forall i :: 0 <= i < k.value && Holds(rs[i], w, h) ==> Area(rs[k.value]) < Area(rs[i]))
  {
    if |rs| == 0 then None
    else
      var last := |rs| - 1;
      var best := BestFit(rs[..last], w, h);
      assert forall i :: 0 <= i < last ==> rs[..last][i] == rs[i];
      if Holds(rs[last], w, h) && (best.None? || Area(rs[last]) < Area(rs[best.value])) then Some(last)
      else best
  }

  /** List.Remove: drops the first element equal to `x`, if any. */
  function RemoveFirst(rs: seq<Rect>, x: Rect): (r: seq<Rect>)
    ensures x in rs ==> |r| == |rs| - 1
    ensures x !in rs ==> r == rs
  {
    if |rs| == 0 then []
    else if rs[0] == x then rs[1..]
    else [rs[0]] + RemoveFirst(rs[1..], x)
  }

  /** Removing the value at an index with no equal element before it removes exactly that index. */
  lemma {:induction false} RemoveFirstAt(rs: seq<Rect>, k: nat)
    requires k < |rs| && forall i :: 0 <= i < k ==> rs[i] != rs[k]
    ensures RemoveFirst(rs, rs[k]) == rs[..k] + rs[k + 1..]
  {
    if k > 0 {
      RemoveFirstAt(rs[1..], k - 1);
      assert rs[1..][..k - 1] + rs[1..][k..] == rs[1..k] + rs[k + 1..];
      assert [rs[0]] + rs[1..k] == rs[..k];
    }
  }

  /** The picked rectangle is removed from its own position: no equal rectangle comes before it. */
  lemma BestFitRemoved(rs: seq<Rect>, w: int, h: int)
    requires BestFit(rs, w, h).Some?
    ensures var k := BestFit(rs, w, h).value; RemoveFirst(rs, rs[k]) == rs[..k] + rs[k + 1..]
  {
    var k := BestFit(rs, w, h).value;
    RemoveFirstAt(rs, k);
  }

  /** The two rectangles that replace the chosen one, as the source builds them. */
  function SplitAsWritten(r: Rect, w: int, h: int): (pieces: seq<Rect>)
    ensures |pieces| == 2
  {
    [Rect(r.x + w, r.y, r.w - w, r.h), Rect(r.x, r.y + h, r.w, r.h + h)]
  }

  /**
   * One tryGetRegion step as written: the region at the origin of the chosen
   * rectangle, and the free list with that rectangle replaced by its split.
   */
  function AllocateAsWritten(rs: seq<Rect>, w: int, h: int): (res: Option<(Rect, seq<Rect>)>)
    ensures res.None? <==> BestFit(rs, w, h).None?
    ensures res.Some? ==>
      var f := rs[BestFit(rs, w, h).value];
      && res.value.0 == Rect(f.x, f.y, w, h)
      && res.value.1 == rs[..BestFit(rs, w, h).value] + rs[BestFit(rs, w, h).value + 1..] + SplitAsWritten(f, w, h)
      && |res.value.1| == |rs| + 1
  {
    match BestFit(rs, w, h)
    case None => None
    case Some(k) =>
      BestFitRemoved(rs, w, h);
      var f := rs[k];
      Some((Rect(f.x, f.y, w, h), RemoveFirst(rs, f) + SplitAsWritten(f, w, h)))
  }

  class TextureAtlas {
    const width: int
    const height: int
    /** The free rectangles. */
    var rectangles: seq<Rect>
    /** The BufferImageData calls: the pixel region each image was written to. */
    var uploads: seq<Rect>

    /** Construction followed by Initialize(size): one free rectangle covering the texture. */
    constructor Initialize(width: int, height: int)
      ensures this.width == width && this.height == height
      ensures rectangles == [Rect(0, 0, width, height)] && uploads == []
    {
      this.width := width;
      this.height := height;
      rectangles := [Rect(0, 0, width, height)];
      uploads := [];
    }

    /**
     * tryGetRegion: fails, changing nothing, when no free rectangle holds the
     * image; otherwise returns the image-sized region at the origin of the
     * smallest such rectangle and replaces that rectangle by its two pieces.
     */
    method TryGetRegion(w: int, h: int) returns (rect: Option<Rect>)
      modifies this`rectangles
      ensures rect.None? <==> forall i :: 0 <= i < |old(rectangles)| ==> !Holds(old(rectangles)[i], w, h)
      ensures rect.None? ==> rectangles == old(rectangles)
      ensures rect.Some? ==>
        && AllocateAsWritten(old(rectangles), w, h) == Some((rect.value, rectangles))
        && |rectangles| == |old(rectangles)| + 1
    {
      var best := BestFit(rectangles, w, h);
      if best.None? {
        return None;
      }
      var smallestFittingRect := rectangles[best.value];
      var r := Rect(smallestFittingRect.x, smallestFittingRect.y, w, h);
      var rect1 := Rect(smallestFittingRect.x + w, smallestFittingRect.y, smallestFittingRect.w - w, smallestFittingRect.h);
      var rect2 := Rect(smallestFittingRect.x, smallestFittingRect.y + h, smallestFittingRect.w, smallestFittingRect.h + h);
      ghost var remaining := RemoveFirst(rectangles, smallestFittingRect);
      assert AllocateAsWritten(rectangles, w, h) == Some((r, remaining + [rect1, rect2]));
      rectangles := RemoveFirst(rectangles, smallestFittingRect);
      rectangles := rectangles + [rect1];
      rectangles := rectangles + [rect2];
      assert rectangles == remaining + [rect1, rect2];
      return Some(r);
    }

    /**
     * AddSubtexture: null when no region is found; otherwise the image is
     * written at the region's origin and the usage carries the region and
     * whether any pixel of the image is not opaque.
     */
    method AddSubtexture(img: Image) returns (usage: Option<TextureUsage>)
      requires ValidImage(img)
      modifies this
      ensures usage.None? <==> forall i :: 0 <= i < |old(rectangles)| ==> !Holds(old(rectangles)[i], img.width, img.height)
      ensures usage.None? ==> rectangles == old(rectangles) && uploads == old(uploads)
      ensures usage.Some? ==>
        && AllocateAsWritten(old(rectangles), img.width, img.height) == Some((usage.value.region, rectangles))
        && uploads == old(uploads) + [usage.value.region]
        && (usage.value.hasTransparencies <==> exists i :: 0 <= i < |img.rows| && AnyTranslucent(img.rows[i]))
    {
      var rect := TryGetRegion(img.width, img.height);
      if rect.None? {
        return None;
      }
      var transparent := ScanTransparency(img);
      uploads := uploads + [rect.value];
      return Some(TextureUsage(rect.value, transparent));
    }
  }

  /**
   * As written the split does not partition the leftover space: in a fresh
   * 4 x 4 atlas, placing a 2 x 2 image leaves two free rectangles that share
   * the 2 x 2 block at (2, 2), and the lower one reaches past the bottom edge.
   */
  lemma SplitAsWrittenOverlaps()
    ensures AllocateAsWritten([Rect(0, 0, 4, 4)], 2, 2) == Some((Rect(0, 0, 2, 2), [Rect(2, 0, 2, 4), Rect(0, 2, 4, 6)]))
    ensures Overlap(Rect(2, 0, 2, 4), Rect(0, 2, 4, 6)) && !Inside(Rect(0, 2, 4, 6), 4, 4)
  {
    var rs := [Rect(0, 0, 4, 4)];
    assert BestFit(rs, 2, 2) == Some(0);
    var res := AllocateAsWritten(rs, 2, 2);
    assert rs[..0] + rs[1..] == [];
    assert res.value.1 == [Rect(2, 0, 2, 4), Rect(0, 2, 4, 6)];
  }

  lemma AllocationStep2()
    ensures AllocateAsWritten([Rect(2, 0, 2, 4), Rect(0, 2, 4, 6)], 2, 2)
      == Some((Rect(2, 0, 2, 2), [Rect(0, 2, 4, 6), Rect(4, 0, 0, 4), Rect(2, 2, 2, 6)]))
  {
    var rs := [Rect(2, 0, 2, 4), Rect(0, 2, 4, 6)];
    assert rs[..1] == [Rect(2, 0, 2, 4)];
    assert BestFit(rs, 2, 2) == Some(0);
    var res := AllocateAsWritten(rs, 2, 2);
    assert rs[..0] + rs[1..] == [Rect(0, 2, 4, 6)];
    assert res.value.1 == [Rect(0, 2, 4, 6), Rect(4, 0, 0, 4), Rect(2, 2, 2, 6)];
  }

  lemma AllocationStep3()
    ensures AllocateAsWritten([Rect(0, 2, 4, 6), Rect(4, 0, 0, 4), Rect(2, 2, 2, 6)], 4, 2)
      == Some((Rect(0, 2, 4, 2), [Rect(4, 0, 0, 4), Rect(2, 2, 2, 6), Rect(4, 2, 0, 6), Rect(0, 4, 4, 8)]))
  {
    var rs := [Rect(0, 2, 4, 6), Rect(4, 0, 0, 4), Rect(2, 2, 2, 6)];
    assert rs[..2] == [Rect(0, 2, 4, 6), Rect(4, 0, 0, 4)];
    assert rs[..2][..1] == [Rect(0, 2, 4, 6)];
    assert BestFit(rs[..2][..1], 4, 2) == Some(0);
    assert BestFit(rs[..2], 4, 2) == Some(0);
    assert BestFit(rs, 4, 2) == Some(0);
    var res := AllocateAsWritten(rs, 4, 2);
    assert rs[..0] + rs[1..] == [Rect(4, 0, 0, 4), Rect(2, 2, 2, 6)];
    assert res.value.1 == [Rect(4, 0, 0, 4), Rect(2, 2, 2, 6), Rect(4, 2, 0, 6), Rect(0, 4, 4, 8)];
  }

  /**
   * The overlapping free rectangles let two images share pixels: in a fresh
   * 4 x 4 atlas, after two 2 x 2 images (SplitAsWrittenOverlaps,
   * AllocationStep2) a 4 x 2 image goes to (0, 2) (AllocationStep3), and the
   * next 2 x 2 image is put at (2, 2), on top of it.
   */
  lemma AllocationsAsWrittenOverlap()
    ensures var rs := [Rect(4, 0, 0, 4), Rect(2, 2, 2, 6), Rect(4, 2, 0, 6), Rect(0, 4, 4, 8)];
      && AllocateAsWritten(rs, 2, 2).Some? && AllocateAsWritten(rs, 2, 2).value.0 == Rect(2, 2, 2, 2)
      && Overlap(Rect(0, 2, 4, 2), AllocateAsWritten(rs, 2, 2).value.0)
  {
    var rs := [Rect(4, 0, 0, 4), Rect(2, 2, 2, 6), Rect(4, 2, 0, 6), Rect(0, 4, 4, 8)];
    assert rs[..3] == [Rect(4, 0, 0, 4), Rect(2, 2, 2, 6), Rect(4, 2, 0, 6)];
    assert rs[..3][..2] == [Rect(4, 0, 0, 4), Rect(2, 2, 2, 6)];
    assert rs[..3][..2][..1] == [Rect(4, 0, 0, 4)];
    assert BestFit(rs[..3][..2][..1], 2, 2) == None;
    assert BestFit(rs[..3][..2], 2, 2) == Some(1);
    assert BestFit(rs[..3], 2, 2) == Some(1);
    assert BestFit(rs, 2, 2) == Some(1);
  }

  /** The split the comment in tryGetRegion describes: the strip right of the image and the block below it. */
  function SplitCorrected(r: Rect, w: int, h: int): (pieces: seq<Rect>)
    requires 0 <= w <= r.w && 0 <= h <= r.h
    ensures |pieces| == 2
    ensures forall p <- pieces :: Within(p, r) && !Overlap(p, Rect(r.x, r.y, w, h))
    ensures !Overlap(pieces[0], pieces[1])
  {
    [Rect(r.x + w, r.y, r.w - w, r.h), Rect(r.x, r.y + h, w, r.h - h)]
  }

  /** `a` lies within `f`. */
  predicate Within(a: Rect, f: Rect)
  {
    f.x <= a.x && f.y <= a.y && Right(a) <= Right(f) && Bottom(a) <= Bottom(f)
  }

  lemma WithinKeepsApart(a: Rect, f: Rect, b: Rect)
    requires Within(a, f) && !Overlap(f, b)
    ensures !Overlap(a, b) && !Overlap(b, a)
  {
  }

  predicate Disjoint(rs: seq<Rect>)
  {
    forall i, j :: 0 <= i < j < |rs| ==> !Overlap(rs[i], rs[j])
  }

  predicate Apart(a: seq<Rect>, b: seq<Rect>)
  {
    forall x <- a, y <- b :: !Overlap(x, y)
  }

  /**
   * The packing invariant: free rectangles and placed images all lie inside
   * the texture, and no two of them share a pixel.
   */
  predicate PackingValid(free: seq<Rect>, used: seq<Rect>, width: int, height: int)
  {
    && (forall r <- free :: Inside(r, width, height))
    && (forall r <- used :: Inside(r, width, height))
    && Disjoint(free) && Disjoint(used) && Apart(free, used)
  }

  function AllocateCorrected(rs: seq<Rect>, w: int, h: int): (res: Option<(Rect, seq<Rect>)>)
    requires 0 <= w && 0 <= h
    ensures res.None? <==> BestFit(rs, w, h).None?
    ensures res.Some? ==> Within(res.value.0, rs[BestFit(rs, w, h).value]) && res.value.0.w == w && res.value.0.h == h
  {
    match BestFit(rs, w, h)
    case None => None
    case Some(k) =>
      var f := rs[k];
      Some((Rect(f.x, f.y, w, h), RemoveFirst(rs, f) + SplitCorrected(f, w, h)))
  }

  /** Replacing one rectangle of a disjoint list by disjoint pieces of it keeps the list disjoint. */
  lemma {:induction false} DisjointReplace(rs: seq<Rect>, k: nat, pieces: seq<Rect>)
    requires Disjoint(rs) && k < |rs|
    requires Disjoint(pieces) && forall p <- pieces :: Within(p, rs[k])
    ensures Disjoint(rs[..k] + rs[k + 1..] + pieces)
  {
    var rest := rs[..k] + rs[k + 1..];
    assert forall i :: 0 <= i < |rest| ==> rest[i] == rs[if i < k then i else i + 1];
    var out := rest + pieces;
    forall i, j | 0 <= i < j < |out|
      ensures !Overlap(out[i], out[j])
    {
      if j < |rest| {
        assert out[i] == rs[if i < k then i else i + 1] && out[j] == rs[if j < k then j else j + 1];
      } else if i < |rest| {
        var oi := if i < k then i else i + 1;
        assert out[i] == rs[oi] && oi != k;
        assert out[j] in pieces;
        assert !Overlap(rs[k], rs[oi]) by {
          if oi < k {
            assert !Overlap(rs[oi], rs[k]);
          }
        }
        WithinKeepsApart(out[j], rs[k], rs[oi]);
      } else {
        assert out[i] == pieces[i - |rest|] && out[j] == pieces[j - |rest|];
      }
    }
  }

  /** Every other member of a disjoint list is apart from the one at `k`. */
  lemma {:induction false} OthersApartFromChosen(rs: seq<Rect>, k: nat)
    requires Disjoint(rs) && k < |rs|
    ensures forall x <- rs[..k] + rs[k + 1..] :: x in rs && !Overlap(x, rs[k])
  {
    var rest := rs[..k] + rs[k + 1..];
    forall x <- rest
      ensures x in rs && !Overlap(x, rs[k])
    {
      var i :| 0 <= i < |rest| && rest[i] == x;
      var oi := if i < k then i else i + 1;
      assert x == rs[oi] && oi != k;
      if oi > k {
        assert !Overlap(rs[k], rs[oi]);
      }
    }
  }

  /** A new image taken from a free rectangle that no placed image touches touches none either. */
  lemma {:induction false} UsedStaysDisjoint(used: seq<Rect>, region: Rect, f: Rect)
    requires Disjoint(used) && Within(region, f) && forall u <- used :: !Overlap(f, u)
    ensures Disjoint(used + [region])
  {
    var used' := used + [region];
    forall i, j | 0 <= i < j < |used'|
      ensures !Overlap(used'[i], used'[j])
    {
      if j == |used| {
        assert used'[i] in used;
        WithinKeepsApart(region, f, used'[i]);
      } else {
        assert used'[i] == used[i] && used'[j] == used[j];
      }
    }
  }

  /** The free list after the split stays apart from the placed images, the new one included. */
  lemma {:induction false} FreeStaysApart(rest: seq<Rect>, pieces: seq<Rect>, used: seq<Rect>, region: Rect, f: Rect)
    requires Apart(rest, used) && forall x <- rest :: !Overlap(x, f)
    requires forall p <- pieces :: Within(p, f) && !Overlap(p, region)
    requires Within(region, f) && forall u <- used :: !Overlap(f, u)
    ensures Apart(rest + pieces, used + [region])
  {
    forall x <- rest + pieces, y <- used + [region]
      ensures !Overlap(x, y)
    {
      if x in pieces {
        if y != region {
          WithinKeepsApart(x, f, y);
        }
      } else if y == region {
        WithinKeepsApart(region, f, x);
      }
    }
  }

  /**
   * With the corrected split every allocation keeps the packing invariant:
   * placed images stay inside the texture and never share a pixel with each
   * other or with the free space.
   */
  lemma {:induction false} AllocateCorrectedKeepsPacking(free: seq<Rect>, used: seq<Rect>, width: int, height: int, w: int, h: int)
    requires PackingValid(free, used, width, height) && 0 <= w && 0 <= h
    requires AllocateCorrected(free, w, h).Some?
    ensures var (region, free') := AllocateCorrected(free, w, h).value;
      PackingValid(free', used + [region], width, height)
  {
    var k := BestFit(free, w, h).value;
    var f := free[k];
    var region := Rect(f.x, f.y, w, h);
    var pieces := SplitCorrected(f, w, h);
    BestFitRemoved(free, w, h);
    var rest := free[..k] + free[k + 1..];
    assert AllocateCorrected(free, w, h).value == (region, rest + pieces);
    DisjointReplace(free, k, pieces);
    OthersApartFromChosen(free, k);
    assert forall x <- rest :: x in free;
    UsedStaysDisjoint(used, region, f);
    FreeStaysApart(rest, pieces, used, region, f);
  }
}
