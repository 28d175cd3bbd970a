/**
 * The four fixed-layout descriptor blocks of a binary BMFont file: the
 * character record, the font info block, the common block and the kerning
 * pair. Each decoder reads its fields as little-endian values out of a byte
 * span, as the record structs' constructors do, and fails with
 * IndexOutOfRange when the span is too short for a byte it reads. Each has
 * an encoder as its partner, and the two are proved inverse in both
 * directions.
 */
module BMFontBlocks {
  import opened Wrappers
  import opened Bytes

  // ---------------------------------------------------------------- CharacterInfo

  /** The bytes a character record occupies. */
  const CharacterSize: nat := 20

  /**
   * A glyph: its code point `id`, its rectangle on the page texture, the
   * signed drawing offsets and advance, the page it is on and its colour
   * channel mask.
   */
  datatype CharacterInfo = CharacterInfo(
    id: nat,
    x: nat, y: nat, width: nat, height: nat,
    xOffset: int, yOffset: int, xAdvance: int,
    page: nat, channel: nat)

  /** The field widths a character record can hold (the page is a single byte). */
  predicate CharacterFits(c: CharacterInfo)
  {
    && c.id < TwoTo32
    && c.x < TwoTo16 && c.y < TwoTo16 && c.width < TwoTo16 && c.height < TwoTo16
    && -0x8000 <= c.xOffset < 0x8000 && -0x8000 <= c.yOffset < 0x8000 && -0x8000 <= c.xAdvance < 0x8000
    && c.page < 256 && c.channel < 256
  }

  /**
   * The CharacterInfo constructor: the id is the u32 of bytes 0-3, the
   * rectangle four u16 values, the offsets and advance u16 values wrapped to
   * signed 16 bits, and the page and channel bytes 18 and 19.
   */
  function DecodeCharacter(span: seq<byte>): (r: Result<CharacterInfo, Exception>)
    ensures r.Err? <==> |span| < CharacterSize
    ensures r.Err? ==> r.error == IndexOutOfRange
    ensures r.Ok? ==> CharacterFits(r.value)
  {
    if |span| < CharacterSize then Err(IndexOutOfRange)
    else
      Ok(CharacterInfo(
        LE32(span[0], span[1], span[2], span[3]),
        LE16(span[4], span[5]), LE16(span[6], span[7]), LE16(span[8], span[9]), LE16(span[10], span[11]),
        ToInt16(LE16(span[12], span[13])), ToInt16(LE16(span[14], span[15])), ToInt16(LE16(span[16], span[17])),
        span[18] as nat, span[19] as nat))
  }

  /** The 20 bytes a character record is stored as. */
  function EncodeCharacter(c: CharacterInfo): (bs: seq<byte>)
    requires CharacterFits(c)
    ensures |bs| == CharacterSize
  {
    Bytes32(c.id)
      + Bytes16(c.x) + Bytes16(c.y) + Bytes16(c.width) + Bytes16(c.height)
      + Bytes16(FromInt16(c.xOffset)) + Bytes16(FromInt16(c.yOffset)) + Bytes16(FromInt16(c.xAdvance))
      + [c.page as byte, c.channel as byte]
  }

  /** Decoding an encoded character gives it back. */
  lemma DecodeEncodeCharacter(c: CharacterInfo)
    requires CharacterFits(c)
    ensures DecodeCharacter(EncodeCharacter(c)) == Ok(c)
  {
  }

  /** Encoding a decoded character gives back the 20 bytes it was read from. */
  lemma EncodeDecodeCharacter(span: seq<byte>)
    requires CharacterSize <= |span|
    ensures EncodeCharacter(DecodeCharacter(span).value) == span[..CharacterSize]
  {
    Bytes32OfLE32(span[0], span[1], span[2], span[3]);
    Bytes16OfLE16(span[4], span[5]);
    Bytes16OfLE16(span[6], span[7]);
    Bytes16OfLE16(span[8], span[9]);
    Bytes16OfLE16(span[10], span[11]);
    FromInt16OfToInt16(LE16(span[12], span[13]));
    FromInt16OfToInt16(LE16(span[14], span[15]));
    FromInt16OfToInt16(LE16(span[16], span[17]));
    Bytes16OfLE16(span[12], span[13]);
    Bytes16OfLE16(span[14], span[15]);
    Bytes16OfLE16(span[16], span[17]);
  }

  // ---------------------------------------------------------------- FontInfo

  /** The bytes before the font name. */
  const FontInfoFixedSize: nat := 14

  /**
   * The font info block: the signed font size, the flag byte, the charset,
   * the vertical stretch, the antialiasing level, the four paddings, the two
   * spacings, the outline width, and the font name as its raw bytes.
   */
  datatype FontInfo = FontInfo(
    fontSize: int, bitField: nat, charset: nat, stretchH: nat, antialiasing: nat,
    paddingUp: nat, paddingRight: nat, paddingDown: nat, paddingLeft: nat,
    spacingHoriz: nat, spacingVert: nat, outline: nat,
    fontName: seq<byte>)

  /** The value of the block's fields before any info block is read. */
  const NoFontInfo := FontInfo(0, 0, 0, 0, 0, 0, 0, 0, 0, 0, 0, 0, [])

  predicate FontInfoFits(f: FontInfo)
  {
    && -0x8000 <= f.fontSize < 0x8000
    && f.bitField < 256 && f.charset < 256 && f.stretchH < TwoTo16 && f.antialiasing < 256
    && f.paddingUp < 256 && f.paddingRight < 256 && f.paddingDown < 256 && f.paddingLeft < 256
    && f.spacingHoriz < 256 && f.spacingVert < 256 && f.outline < 256
  }

  /**
   * The FontInfo constructor. Bytes 0-13 are the fixed fields; the name is
   * what lies between them and the last byte, the name's terminating NUL.
   * A span shorter than 14 bytes fails on a missing byte, and one of exactly
   * 14 on the name's slice, whose length would be -1.
   */
  function DecodeFontInfo(span: seq<byte>): (r: Result<FontInfo, Exception>)
    ensures |span| < FontInfoFixedSize <==> r == Err(IndexOutOfRange)
    ensures |span| == FontInfoFixedSize <==> r == Err(ArgumentOutOfRange)
    ensures r.Ok? ==> FontInfoFits(r.value) && |r.value.fontName| == |span| - FontInfoFixedSize - 1
  {
    if |span| < FontInfoFixedSize then Err(IndexOutOfRange)
    else if |span| == FontInfoFixedSize then Err(ArgumentOutOfRange)
    else
      Ok(FontInfo(
        ToInt16(LE16(span[0], span[1])), span[2] as nat, span[3] as nat, LE16(span[4], span[5]), span[6] as nat,
        span[7] as nat, span[8] as nat, span[9] as nat, span[10] as nat,
        span[11] as nat, span[12] as nat, span[13] as nat,
        span[FontInfoFixedSize..|span| - 1]))
  }

  /** The bytes of an info block: the fixed fields, the name and its NUL. */
  function EncodeFontInfo(f: FontInfo): (bs: seq<byte>)
    requires FontInfoFits(f)
    ensures |bs| == FontInfoFixedSize + |f.fontName| + 1
  {
    Bytes16(FromInt16(f.fontSize)) + [f.bitField as byte, f.charset as byte] + Bytes16(f.stretchH)
      + [f.antialiasing as byte, f.paddingUp as byte, f.paddingRight as byte, f.paddingDown as byte, f.paddingLeft as byte,
         f.spacingHoriz as byte, f.spacingVert as byte, f.outline as byte]
      + f.fontName + [0]
  }

  /** Decoding an encoded info block gives it back. */
  lemma DecodeEncodeFontInfo(f: FontInfo)
    requires FontInfoFits(f)
    ensures DecodeFontInfo(EncodeFontInfo(f)) == Ok(f)
  {
    var bs := EncodeFontInfo(f);
    assert bs[FontInfoFixedSize..|bs| - 1] == f.fontName;
  }

  /**
   * Encoding a decoded info block gives back the bytes it was read from,
   * except that the last byte, which the decoder drops unread, becomes NUL.
   */
  lemma EncodeDecodeFontInfo(span: seq<byte>)
    requires FontInfoFixedSize < |span|
    ensures EncodeFontInfo(DecodeFontInfo(span).value) == span[..|span| - 1] + [0]
  {
    Bytes16OfLE16(span[0], span[1]);
    FromInt16OfToInt16(LE16(span[0], span[1]));
    Bytes16OfLE16(span[4], span[5]);
    assert span[..|span| - 1] == span[..FontInfoFixedSize] + span[FontInfoFixedSize..|span| - 1];
  }

  // ---------------------------------------------------------------- Common

  /** The bytes of the common block that are read. */
  const CommonSize: nat := 15

  /**
   * The common block: line height, baseline, the page texture size, the
   * page count, whether the glyphs are packed into channels, and the usage of
   * each of the four channels.
   */
  datatype Common = Common(
    lineHeight: nat, baseline: nat, scaleW: nat, scaleH: nat, pages: nat,
    packed: bool,
    alphaChannel: nat, redChannel: nat, greenChannel: nat, blueChannel: nat)

  /** The value of the block's fields before any common block is read. */
  const NoCommon := Common(0, 0, 0, 0, 0, false, 0, 0, 0, 0)

  predicate CommonFits(c: Common)
  {
    && c.lineHeight < TwoTo16 && c.baseline < TwoTo16 && c.scaleW < TwoTo16 && c.scaleH < TwoTo16 && c.pages < TwoTo16
    && c.alphaChannel < 256 && c.redChannel < 256 && c.greenChannel < 256 && c.blueChannel < 256
  }

  /**
   * The Common constructor: five u16 values from bytes 0-9, `packed` is bit 0
   * of byte 10, and the channel usages are bytes 11-14. Bytes after the
   * fifteenth are not read.
   */
  function DecodeCommon(span: seq<byte>): (r: Result<Common, Exception>)
    ensures r.Err? <==> |span| < CommonSize
    ensures r.Err? ==> r.error == IndexOutOfRange
    ensures r.Ok? ==> CommonFits(r.value)
  {
    if |span| < CommonSize then Err(IndexOutOfRange)
    else
      Ok(Common(
        LE16(span[0], span[1]), LE16(span[2], span[3]), LE16(span[4], span[5]), LE16(span[6], span[7]), LE16(span[8], span[9]),
        span[10] as int % 2 == 1,
        span[11] as nat, span[12] as nat, span[13] as nat, span[14] as nat))
  }

  /** The common block decoder reads only the first 15 bytes of its span. */
  lemma CommonReadsFifteenBytes(span: seq<byte>, rest: seq<byte>)
    requires CommonSize <= |span|
    ensures DecodeCommon(span[..CommonSize] + rest) == DecodeCommon(span)
  {
    var t := span[..CommonSize] + rest;
    assert forall i :: 0 <= i < CommonSize ==> t[i] == span[i];
  }

  /** The 15 bytes of a common block, with `packed` written as 1 or 0. */
  function EncodeCommon(c: Common): (bs: seq<byte>)
    requires CommonFits(c)
    ensures |bs| == CommonSize
  {
    Bytes16(c.lineHeight) + Bytes16(c.baseline) + Bytes16(c.scaleW) + Bytes16(c.scaleH) + Bytes16(c.pages)
      + [if c.packed then 1 else 0]
      + [c.alphaChannel as byte, c.redChannel as byte, c.greenChannel as byte, c.blueChannel as byte]
  }

  /** Decoding an encoded common block gives it back. */
  lemma DecodeEncodeCommon(c: Common)
    requires CommonFits(c)
    ensures DecodeCommon(EncodeCommon(c)) == Ok(c)
  {
  }

  /**
   * Encoding a decoded common block gives back the 15 bytes it was read
   * from, except that byte 10 keeps only its bit 0.
   */
  lemma EncodeDecodeCommon(span: seq<byte>)
    requires CommonSize <= |span|
    ensures EncodeCommon(DecodeCommon(span).value) == span[..10] + [if span[10] as int % 2 == 1 then 1 else 0] + span[11..CommonSize]
  {
    var c := DecodeCommon(span).value;
    Bytes16OfLE16(span[0], span[1]);
    Bytes16OfLE16(span[2], span[3]);
    Bytes16OfLE16(span[4], span[5]);
    Bytes16OfLE16(span[6], span[7]);
    Bytes16OfLE16(span[8], span[9]);
    assert span[..10] == [span[0], span[1]] + [span[2], span[3]] + [span[4], span[5]] + [span[6], span[7]] + [span[8], span[9]];
    assert span[11..CommonSize] == [span[11], span[12], span[13], span[14]];
  }

  // ---------------------------------------------------------------- KerningPair

  /** The bytes a kerning pair occupies. */
  const KerningPairSize: nat := 10

  /** The horizontal adjustment `amount` between the code points `first` and `second`. */
  datatype KerningPair = KerningPair(first: nat, second: nat, amount: int)

  predicate KerningPairFits(p: KerningPair)
  {
    p.first < TwoTo32 && p.second < TwoTo32 && -0x8000 <= p.amount < 0x8000
  }

  /** The KerningPair constructor: two u32 values and a signed 16-bit amount. */
  function DecodeKerningPair(span: seq<byte>): (r: Result<KerningPair, Exception>)
    ensures r.Err? <==> |span| < KerningPairSize
    ensures r.Err? ==> r.error == IndexOutOfRange
    ensures r.Ok? ==> KerningPairFits(r.value)
  {
    if |span| < KerningPairSize then Err(IndexOutOfRange)
    else
      Ok(KerningPair(
        LE32(span[0], span[1], span[2], span[3]),
        LE32(span[4], span[5], span[6], span[7]),
        ToInt16(LE16(span[8], span[9]))))
  }

  /** The 10 bytes a kerning pair is stored as. */
  function EncodeKerningPair(p: KerningPair): (bs: seq<byte>)
    requires KerningPairFits(p)
    ensures |bs| == KerningPairSize
  {
    Bytes32(p.first) + Bytes32(p.second) + Bytes16(FromInt16(p.amount))
  }

  /** Decoding an encoded kerning pair gives it back. */
  lemma DecodeEncodeKerningPair(p: KerningPair)
    requires KerningPairFits(p)
    ensures DecodeKerningPair(EncodeKerningPair(p)) == Ok(p)
  {
  }

  /** Encoding a decoded kerning pair gives back the 10 bytes it was read from. */
  lemma EncodeDecodeKerningPair(span: seq<byte>)
    requires KerningPairSize <= |span|
    ensures EncodeKerningPair(DecodeKerningPair(span).value) == span[..KerningPairSize]
  {
    Bytes32OfLE32(span[0], span[1], span[2], span[3]);
    Bytes32OfLE32(span[4], span[5], span[6], span[7]);
    FromInt16OfToInt16(LE16(span[8], span[9]));
    Bytes16OfLE16(span[8], span[9]);
  }
}
