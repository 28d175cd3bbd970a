/**
 * The shelf packer of BloomFramework's TextureAtlas: images are placed left to
 * right along a row ("shelf") whose height is the tallest image in it, with
 * `paddingAmount` pixels between images, and a new row starts below when the
 * width runs out. The top-left corner holds a small block of white pixels.
 */
module ShelfAtlas {
  import opened Wrappers
  import opened Bytes
  import opened Geometry
  import opened Texture

  /**
   * paddingAmount, `2 << MipMapLevels` on a C# int: the shift count is taken
   * modulo 32 and the product wraps to 32 bits.
   */
  function Padding(mipLevels: int): (p: int)
    ensures -0x8000_0000 <= p < 0x8000_0000
  {
    ToInt32((2 * Pow2(mipLevels % 32)) % TwoTo32)
  }

  /** Below 30 mip levels the padding is the positive power of two 2^(levels+1). */
  lemma {:induction false} PaddingIsPowerOfTwo(mipLevels: int)
    requires 0 <= mipLevels < 30
    ensures Padding(mipLevels) == 2 * Pow2(mipLevels) && Padding(mipLevels) >= 2
    ensures Padding(mipLevels) == Pow2(mipLevels + 1)
  {
    Pow2Below(mipLevels, 30);
    assert Pow2(30) == 0x4000_0000 by {
      assert Pow2(10) == 1024;
      Pow2Add(10, 10);
      Pow2Add(20, 10);
    }
    var doubled := 2 * Pow2(mipLevels);
    assert mipLevels % 32 == mipLevels;
    assert 0 < doubled < 0x8000_0000;
    assert doubled % TwoTo32 == doubled;
  }

  /** The white block written by Initialize: (x, y) with both coordinates in [0, halfPad]. */
  predicate InWhiteCorner(p: (int, int), halfPad: int)
  {
    0 <= p.0 <= halfPad && 0 <= p.1 <= halfPad
  }

  /** A logged row write touches some pixel of the rectangle. */
  predicate RowMeets(u: RowUpload, r: Rect)
  {
    && r.y <= u.y < Bottom(r)
    && u.x < Right(r) && r.x < u.x + |u.pixels|
  }

  /** The row touches none of the given images and not the white corner. */
  predicate ClearOf(u: RowUpload, images: seq<Rect>, padding: int)
  {
    && (forall r <- images :: !RowMeets(u, r))
    && !RowMeets(u, Rect(0, 0, padding / 2 + 1, padding / 2 + 1))
  }

  /**
   * Rows written within half the padding around an image kept `padding` away
   * from the other images and out of the corner touch neither.
   */
  lemma PaddedRowsStayClear(rows: seq<RowUpload>, region: Rect, others: seq<Rect>, padding: int)
    requires 0 < padding
    requires forall u <- rows :: RowWithin(u, Inflate(region, padding / 2))
    requires forall r <- others :: Separated(r, region, padding)
    requires 1 + padding <= region.x || 1 + padding <= region.y
    ensures forall u <- rows :: ClearOf(u, others, padding)
  {
    forall u <- rows, r <- others
      ensures !RowMeets(u, r)
    {
      HalfGapKeepsApart(r, region, padding);
    }
  }

  class TextureAtlas {
    const width: int
    const height: int
    const mipLevels: int
    /** paddingAmount: the number of pixels kept free between two images. */
    const padding: int

    /** currentCoord: where the next image goes if it fits in the open row. */
    var cursorX: int
    var cursorY: int
    /** The height of the open row, padding included. */
    var maxY: int

    /** The pixels SetPixel painted white. */
    var whitePixels: set<(int, int)>
    /** The TexSubImage2D row writes, in order. */
    var uploads: seq<RowUpload>
    /** The rectangles handed out so far, in order. */
    ghost var placed: seq<Rect>

    /** The rectangle lies in the open row, left of the cursor. */
    ghost predicate InOpenRow(r: Rect)
      reads this
    {
      r.y == cursorY && Right(r) + padding <= cursorX && r.h + padding <= maxY
    }

    ghost predicate Valid()
      reads this
    {
      && padding == Padding(mipLevels) && 0 < padding
      && 0 <= cursorX && 0 <= cursorY && 0 <= maxY
      && (cursorY == 0 ==> 1 + padding <= cursorX && 1 + padding <= maxY)
      && (cursorY != 0 ==> 1 + padding <= cursorY)
      && (forall r <- placed :: Inside(r, width, height) && 0 < r.w && 0 < r.h)
      && (forall r <- placed :: InOpenRow(r) || Bottom(r) + padding <= cursorY)
      && (forall r <- placed :: 1 + padding <= r.x || 1 + padding <= r.y)
      && (forall i, j :: 0 <= i < j < |placed| ==> Separated(placed[i], placed[j], padding))
    }

    /** Construction followed by Initialize(size). */
    constructor Initialize(width: int, height: int, mipLevels: int)
      requires 0 <= mipLevels < 30
      ensures Valid()
      ensures this.width == width && this.height == height && this.mipLevels == mipLevels
      ensures padding == Pow2(mipLevels + 1)
      ensures cursorX == 1 + padding && cursorY == 0 && maxY == 1 + padding
      ensures forall p :: p in whitePixels <==> InWhiteCorner(p, padding / 2)
      ensures placed == [] && uploads == []
    {
      this.width := width;
      this.height := height;
      this.mipLevels := mipLevels;
      PaddingIsPowerOfTwo(mipLevels);
      var pad := Padding(mipLevels);
      padding := pad;
      var halfPad := pad / 2;
      var white: set<(int, int)> := {};
      for i := 0 to halfPad + 1
        invariant forall p :: p in white <==> 0 <= p.0 < i && 0 <= p.1 <= halfPad
      {
        for j := 0 to halfPad + 1
          invariant forall p :: p in white <==> (0 <= p.0 < i && 0 <= p.1 <= halfPad) || (p.0 == i && 0 <= p.1 < j)
        {
          white := white + {(i, j)};
        }
      }
      whitePixels := white;
      cursorX := 1 + pad;
      cursorY := 0;
      maxY := 1 + pad;
      uploads := [];
      placed := [];
    }

    /** The image is too wide for what is left of the open row. */
    ghost predicate Wraps(w: int)
      reads this
    {
      w > width - cursorX
    }

    /** Where an image of width `w` goes: the cursor, or the start of the next row. */
    ghost function NextOrigin(w: int): (int, int)
      reads this
    {
      if Wraps(w) then (0, cursorY + maxY) else (cursorX, cursorY)
    }

    /** findFittingRect succeeds: the image fits below the row top and within the width. */
    ghost predicate Fits(w: int, h: int)
      reads this
    {
      !(h > height - NextOrigin(w).1 || w > width)
    }

    /**
     * findFittingRect: the image goes at the cursor, or at the start of a new
     * row when its width does not fit; it fails, changing nothing, when its
     * height does not fit under the row or it is wider than the texture.
     */
    method FindFittingRect(w: int, h: int) returns (rect: Option<Rect>)
      requires Valid() && 0 < w && 0 < h
      modifies this`cursorX, this`cursorY, this`maxY, this`placed
      ensures Valid()
      ensures rect.None? <==> !old(Fits(w, h))
      ensures rect.None? ==> unchanged(this)
      ensures rect.Some? ==>
        && var (nx, ny) := old(NextOrigin(w));
        && rect.value == Rect(nx, ny, w, h)
        && maxY == Max(if old(Wraps(w)) then 0 else old(maxY), h + padding)
        && cursorX == nx + w + padding && cursorY == ny
        && placed == old(placed) + [rect.value]
      ensures rect.Some? ==> Inside(rect.value, width, height) && (forall r <- old(placed) :: Separated(r, rect.value, padding))
      ensures rect.Some? ==> 1 + padding <= rect.value.x || 1 + padding <= rect.value.y
    {
      var nextX, nextY := cursorX, cursorY;
      var newMaxY := maxY;

      if w > width - nextX {
        nextX, nextY := 0, nextY + maxY;
        newMaxY := 0;
      }

      if h > height - nextY || w > width {
        return None;
      }

      var r := Rect(nextX, nextY, w, h);
      ghost var oldCursorY, oldMaxY := cursorY, maxY;
      maxY := Max(newMaxY, h + padding);
      cursorX := nextX + w + padding;
      cursorY := nextY;
      forall q <- placed
        ensures InOpenRow(q) || Bottom(q) + padding <= cursorY
      {
        if nextY != oldCursorY {
          assert Bottom(q) + padding <= oldCursorY + oldMaxY;
        }
      }
      placed := placed + [r];
      return Some(r);
    }

    /**
     * AddSubtexture: finds room for the image, records whether any of its
     * pixels is not opaque, and uploads it with half the padding replicated
     * around it, so that no written pixel touches another image or the white
     * corner.
     */
    method AddSubtexture(img: Image) returns (usage: Option<TextureUsage>)
      requires Valid() && ValidImage(img)
      modifies this
      ensures Valid()
      ensures usage.None? <==> !old(Fits(img.width, img.height))
      ensures usage.None? ==> unchanged(this)
      ensures usage.Some? ==>
        && placed == old(placed) + [usage.value.region]
        && usage.value.region == Rect(old(NextOrigin(img.width)).0, old(NextOrigin(img.width)).1, img.width, img.height)
        && (usage.value.hasTransparencies <==> exists i :: 0 <= i < |img.rows| && AnyTranslucent(img.rows[i]))
        && |uploads| >= |old(uploads)| && uploads[..|old(uploads)|] == old(uploads)
        && (forall k :: |old(uploads)| <= k < |uploads| ==>
              RowWithin(uploads[k], Inflate(usage.value.region, padding / 2)) && RowWithin(uploads[k], Rect(0, 0, width, height)))
        && (forall k :: |old(uploads)| <= k < |uploads| ==> ClearOf(uploads[k], old(placed), padding))
      ensures whitePixels == old(whitePixels)
    {
      var rect := FindFittingRect(img.width, img.height);
      if rect.None? {
        return None;
      }
      var region := rect.value;
      var transparent := ScanTransparency(img);
      var rows, _ := UploadData(width, height, img, region.x, region.y, padding / 2);
      PaddedRowsStayClear(rows, region, old(placed), padding);
      uploads := uploads + rows;
      return Some(TextureUsage(region, transparent));
    }
  }

  /**
   * A new 4096 x 4096 atlas with at most 10 mip levels takes any image smaller
   * than 2048 in both directions at the cursor in its first row.
   */
  lemma FreshAtlasTakesSmallImage(mipLevels: int, w: int, h: int)
    requires 0 <= mipLevels <= 10 && 0 < w < 2048 && 0 < h < 2048
    ensures var pad := Padding(mipLevels);
      && 1 + pad + w <= 4096
      && !(w > 4096 - (1 + pad)) && !(h > 4096 - 0 || w > 4096)
  {
    PaddingIsPowerOfTwo(mipLevels);
    Pow2Below(mipLevels, 11);
    assert Pow2(11) == 2048 by {
      assert Pow2(5) == 32;
    }
  }
}
