/**
 * Pixel uploads of an OpenGL texture (BloomFramework Texture): the row loop of
 * UploadData, the edge-replicating row padding and the transparency scans.
 * The GL calls themselves are recorded as `RowUpload` values.
 */
module Texture {
  import opened Bytes
  import opened Geometry

  datatype Rgba = Rgba(r: byte, g: byte, b: byte, a: byte)

  const White := Rgba(255, 255, 255, 255)

  /** An ImageSharp image as rows of pixels; ImageSharp never builds an empty image. */
  datatype Image = Image(width: int, height: int, rows: seq<seq<Rgba>>)

  predicate ValidImage(img: Image)
  {
    && 0 < img.width && 0 < img.height && |img.rows| == img.height
    && forall i :: 0 <= i < |img.rows| ==> |img.rows[i]| == img.width
  }

  predicate Translucent(p: Rgba) { p.a < 255 }

  predicate AnyTranslucent(row: seq<Rgba>)
  {
    exists j :: 0 <= j < |row| && Translucent(row[j])
  }

  /** Some pixel of the top-left `w` x `h` corner of the image is not opaque. */
  predicate CornerTranslucent(img: Image, w: int, h: int)
    requires ValidImage(img) && w <= img.width && h <= img.height
  {
    exists r, c :: 0 <= r < h && 0 <= c < w && Translucent(img.rows[r][c])
  }

  /** One TexSubImage2D call: a single row of pixels written at (x, y). */
  datatype RowUpload = RowUpload(x: int, y: int, pixels: seq<Rgba>)

  /** The region of the texture an upload produced and whether it has transparency. */
  datatype TextureUsage = TextureUsage(region: Rect, hasTransparencies: bool)

  /** The row lies on line `y` of the texture, between columns `x0` and `x1`. */
  predicate RowWithin(u: RowUpload, r: Rect)
  {
    r.x <= u.x && u.x + |u.pixels| <= Right(r) && r.y <= u.y < Bottom(r)
  }

  /** Math.Clamp for a non-empty range. */
  function Clamp(v: int, lo: int, hi: int): (c: int)
    requires lo <= hi
    ensures lo <= c <= hi && (lo <= v <= hi ==> c == v)
    ensures (v < lo ==> c == lo) && (hi < v ==> c == hi)
  {
    if v < lo then lo else if hi < v then hi else v
  }

  /** hasTransparentPixels: scans the row and stops at the first pixel that is not opaque. */
  method HasTransparentPixels(row: seq<Rgba>) returns (found: bool)
    ensures found <==> AnyTranslucent(row)
  {
    for j := 0 to |row|
      invariant forall k :: 0 <= k < j ==> !Translucent(row[k])
    {
      if row[j].a < 255 {
        return true;
      }
    }
    return false;
  }

  /**
   * The scan both texture atlases run in AddSubtexture: every row is visited,
   * and the inner loop over a row stops at its first pixel that is not opaque.
   */
  method ScanTransparency(img: Image) returns (transparent: bool)
    ensures transparent <==> exists i :: 0 <= i < |img.rows| && AnyTranslucent(img.rows[i])
  {
    transparent := false;
    for i := 0 to |img.rows|
      invariant transparent <==> exists k :: 0 <= k < i && AnyTranslucent(img.rows[k])
    {
      var row := img.rows[i];
      var j := 0;
      while j < |row|
        invariant 0 <= j <= |row|
        invariant forall m :: 0 <= m < j ==> !Translucent(row[m])
        invariant transparent <==> exists k :: 0 <= k < i && AnyTranslucent(img.rows[k])
      {
        if row[j].a < 255 {
          transparent := true;
          break;
        }
        j := j + 1;
      }
    }
  }

  /**
   * The padded row: `original` shifted right by `leftPadding`, with its first
   * pixel repeated to the left and its last pixel repeated to the right.
   */
  function PaddedRow(original: seq<Rgba>, leftPadding: int, length: nat): (row: seq<Rgba>)
    requires |original| > 0
    ensures |row| == length
    ensures forall k :: 0 <= k < |original| && 0 <= leftPadding + k < length ==> row[leftPadding + k] == original[k]
    ensures forall i :: 0 <= i < length && i < leftPadding ==> row[i] == original[0]
    ensures forall i :: 0 <= i < length && leftPadding + |original| <= i ==> row[i] == original[|original| - 1]
  {
    var row := seq(length, i => original[Clamp(i - leftPadding, 0, |original| - 1)]);
    assert forall i :: 0 <= i < length ==> row[i] == original[Clamp(i - leftPadding, 0, |original| - 1)];
    row
  }

  /** padPixelRow: fills the whole output span from the clamped source positions. */
  method PadPixelRow(original: seq<Rgba>, output: array<Rgba>, leftPadding: int)
    requires |original| > 0
    modifies output
    ensures output[..] == PaddedRow(original, leftPadding, output.Length)
  {
    for i := 0 to output.Length
      invariant forall k :: 0 <= k < i ==> output[k] == PaddedRow(original, leftPadding, output.Length)[k]
    {
      output[i] := original[Clamp(i - leftPadding, 0, |original| - 1)];
    }
  }

  /** The image row whose pixels are written on texture line `y` for an upload at vertical offset `oy`. */
  function SourceIndex(img: Image, oy: int, y: int): (i: int)
    requires ValidImage(img)
    ensures 0 <= i < img.height
  {
    Clamp(y - oy, 0, img.height - 1)
  }

  /** The image row written on texture line `y`, cut to the first `tw` pixels. */
  function SourceSlice(img: Image, oy: int, y: int, tw: nat): (row: seq<Rgba>)
    requires ValidImage(img) && tw <= img.width
    ensures |row| == tw
  {
    img.rows[SourceIndex(img, oy, y)][..tw]
  }

  /**
   * The texture lines written for an image cut to height `th` at vertical
   * offset `oy`, with `padding` lines above and below, read only the first
   * `th` image rows and read each of them on its own line; so they hold a
   * pixel that is not opaque exactly when the `tw` x `th` corner does.
   */
  lemma {:induction false} WrittenRowsTransparency(img: Image, height: int, oy: int, padding: nat, tw: nat)
    requires ValidImage(img) && 0 <= oy < height && tw <= img.width
    ensures var th := Min(img.height, height - oy);
      (exists y :: Max(0, oy - padding) <= y < Min(height, oy + th + padding) && AnyTranslucent(SourceSlice(img, oy, y, tw)))
      <==> CornerTranslucent(img, tw, th)
  {
    var th := Min(img.height, height - oy);
    var lo, hi := Max(0, oy - padding), Min(height, oy + th + padding);
    if y :| lo <= y < hi && AnyTranslucent(SourceSlice(img, oy, y, tw)) {
      var c :| 0 <= c < tw && Translucent(SourceSlice(img, oy, y, tw)[c]);
      var r := SourceIndex(img, oy, y);
      assert r < th by {
        if th < img.height {
          assert y - oy < th;
        }
      }
      assert Translucent(img.rows[r][c]);
    }
    if CornerTranslucent(img, tw, th) {
      var r, c :| 0 <= r < th && 0 <= c < tw && Translucent(img.rows[r][c]);
      assert SourceSlice(img, oy, oy + r, tw)[c] == img.rows[r][c];
      assert lo <= oy + r < hi && AnyTranslucent(SourceSlice(img, oy, oy + r, tw));
    }
  }

  /** Texture line `y` as UploadData writes it: the padded source row placed at column `x`. */
  predicate WrittenLine(u: RowUpload, img: Image, oy: int, y: int, tw: nat, x: int, leftSpace: int, len: nat)
    requires ValidImage(img) && 0 < tw <= img.width
  {
    u == RowUpload(x, y, PaddedRow(SourceSlice(img, oy, y, tw), leftSpace, len))
  }

  /**
   * The pixel-row callback of UploadData: for every line from `padding` above
   * to `padding` below the image that falls inside the texture, the source
   * row (clamped into the image, cut to `tw` pixels) is padded and written.
   */
  method WriteRows(height: int, img: Image, ox: int, oy: int, padding: nat, tw: nat, th: nat, leftSpace: nat, rightSpace: nat)
    returns (uploads: seq<RowUpload>, hasTransparencies: bool)
    requires ValidImage(img) && 0 < tw <= img.width && th == Min(img.height, height - oy) && 0 <= oy < height
    ensures |uploads| == Min(height, oy + th + padding) - Max(0, oy - padding)
    ensures forall k :: 0 <= k < |uploads| ==>
      WrittenLine(uploads[k], img, oy, Max(0, oy - padding) + k, tw, ox - leftSpace, leftSpace, leftSpace + tw + rightSpace)
    ensures hasTransparencies <==> CornerTranslucent(img, tw, th)
  {
    ghost var lo := Max(0, oy - padding);
    ghost var len := leftSpace + tw + rightSpace;
    hasTransparencies := false;
    uploads := [];
    var i := -(padding as int);
    while i < th + padding
      invariant -(padding as int) <= i <= th + padding
      invariant |uploads| == Max(0, Min(oy + i, height) - lo)
      invariant forall k :: 0 <= k < |uploads| ==> WrittenLine(uploads[k], img, oy, lo + k, tw, ox - leftSpace, leftSpace, len)
      invariant hasTransparencies <==>
        exists y :: lo <= y < lo + |uploads| && AnyTranslucent(SourceSlice(img, oy, y, tw))
    {
      if oy + i < 0 || oy + i >= height {
        i := i + 1;
        continue;
      }
      var rowSpan := img.rows[Clamp(i, 0, img.height - 1)][..tw];
      assert rowSpan == SourceSlice(img, oy, lo + |uploads|, tw);
      if !hasTransparencies {
        hasTransparencies := HasTransparentPixels(rowSpan);
      }
      var paddedRowSpan := new Rgba[leftSpace + tw + rightSpace];
      PadPixelRow(rowSpan, paddedRowSpan, leftSpace);
      uploads := uploads + [RowUpload(ox - leftSpace, i + oy, paddedRowSpan[..])];
      i := i + 1;
    }
    WrittenRowsTransparency(img, height, oy, padding, tw);
  }

  /**
   * UploadData: the image cut to the texture is written at (ox, oy), one call
   * per texture line, each line grown by up to `padding` pixels on either side
   * and each padding line above and below repeating the nearest image row;
   * lines and columns outside the texture are skipped.
   */
  method UploadData(width: int, height: int, img: Image, ox: int, oy: int, padding: nat)
    returns (uploads: seq<RowUpload>, usage: TextureUsage)
    requires ValidImage(img)
    requires 0 <= ox < width && 0 <= oy < height
    ensures usage.region == Rect(ox, oy, Min(img.width, width - ox), Min(img.height, height - oy))
    ensures 0 < usage.region.w && 0 < usage.region.h && Inside(usage.region, width, height)
    ensures usage.hasTransparencies <==> CornerTranslucent(img, usage.region.w, usage.region.h)
    ensures |uploads| == Min(height, oy + usage.region.h + padding) - Max(0, oy - padding)
    ensures forall k :: 0 <= k < |uploads| ==>
      WrittenLine(uploads[k], img, oy, Max(0, oy - padding) + k, usage.region.w,
        Max(0, ox - padding), ox - Max(0, ox - padding), Min(width, ox + usage.region.w + padding) - Max(0, ox - padding))
    ensures forall k :: 0 <= k < |uploads| ==>
      RowWithin(uploads[k], Inflate(usage.region, padding)) && RowWithin(uploads[k], Rect(0, 0, width, height))
  {
    var targetWidth := Min(img.width, width - ox);
    var targetHeight := Min(img.height, height - oy);
    var leftSpace := Clamp(ox, 0, padding);
    var rightSpace := Clamp(width - (ox + targetWidth), 0, padding);
    var hasTransparencies;
    uploads, hasTransparencies := WriteRows(height, img, ox, oy, padding, targetWidth, targetHeight, leftSpace, rightSpace);
    assert ox - leftSpace == Max(0, ox - padding);
    assert ox - leftSpace + leftSpace + targetWidth + rightSpace == Min(width, ox + targetWidth + padding);
    usage := TextureUsage(Rect(ox, oy, targetWidth, targetHeight), hasTransparencies);
  }
}
