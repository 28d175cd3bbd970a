/**
 * BloomFramework's BMFont loader. A binary BMFont file is the header
 * "BMF" 3 followed by blocks, each a type byte, a little-endian 32-bit
 * length and that many bytes of data. Block 1 is the font info, 2 the common
 * block, 3 the page names, 4 the character records and 5 the kerning pairs;
 * any other type is skipped. The stream is a byte sequence read from the
 * front; the loaded font is a value, as its fields are read-only once the
 * constructor is done.
 */
module BMFonts {
  import opened Wrappers
  import opened Bytes
  import opened BMFontBlocks

  /** "BMF" and format version 3. */
  const ValidHeader: seq<byte> := [66, 77, 70, 3]

  /** The code of '?', the fallback glyph. */
  const QuestionMark: nat := 63

  /**
   * A loaded font. `pageNames` is None while no page block has been read
   * (the array is then null); the characters are keyed by id and the kerning
   * pairs by first and then second code point.
   */
  datatype Font = Font(
    fontInfo: FontInfo,
    commonInfo: Common,
    pageNames: Option<seq<seq<byte>>>,
    characters: map<nat, CharacterInfo>,
    kerningPairs: map<nat, map<nat, KerningPair>>)

  /** The font before any block has been read. */
  const EmptyFont := Font(NoFontInfo, NoCommon, None, map[], map[])

  // ---------------------------------------------------------------- header

  /** isValidFontStream: reads four bytes (a shorter stream ends the read) and compares them with the header. */
  function IsValidFontStream(stream: seq<byte>): (r: Result<bool, Exception>)
    ensures r.Err? <==> |stream| < |ValidHeader|
    ensures r.Err? ==> r.error == EndOfStream
    ensures r == Ok(true) <==> |ValidHeader| <= |stream| && stream[..|ValidHeader|] == ValidHeader
  {
    if |stream| < |ValidHeader| then Err(EndOfStream) else Ok(stream[..|ValidHeader|] == ValidHeader)
  }

  // ---------------------------------------------------------------- block 3: page names

  /**
   * The names a page block yields, from the `i`th on: name `k` is the
   * `length` bytes at `stride * k`. A negative length or a name running past
   * the data fails as a span slice out of range.
   */
  function NamesFrom(data: seq<byte>, pages: nat, stride: nat, length: int, i: nat): (r: Result<seq<seq<byte>>, Exception>)
    requires i <= pages
    ensures r.Ok? ==> |r.value| == pages - i
    ensures r.Err? ==> r.error == ArgumentOutOfRange
    decreases pages - i
  {
    if i == pages then Ok([])
    else if length < 0 || |data| < stride * i + length then Err(ArgumentOutOfRange)
    else
      match NamesFrom(data, pages, stride, length, i + 1)
      case Ok(rest) => Ok([data[stride * i..stride * i + length]] + rest)
      case Err(e) => Err(e)
  }

  /**
   * The page block as written: `pages` names (a page count of 0 divides by
   * zero), each one byte shorter than a `pages`-th of the block, with name
   * `i` taken from offset `pages * i`.
   */
  function PageNamesAsWritten(pages: nat, data: seq<byte>): (r: Result<seq<seq<byte>>, Exception>)
    ensures pages == 0 <==> r == Err(DivideByZero)
    ensures r.Ok? ==> |r.value| == pages
  {
    if pages == 0 then Err(DivideByZero)
    else NamesFrom(data, pages, pages, |data| / pages - 1, 0)
  }

  /** The page block as the format lays it out: name `i` starts at `i` times a `pages`-th of the block. */
  function PageNamesCorrected(pages: nat, data: seq<byte>): (r: Result<seq<seq<byte>>, Exception>)
    ensures pages == 0 <==> r == Err(DivideByZero)
    ensures r.Ok? ==> |r.value| == pages
  {
    if pages == 0 then Err(DivideByZero)
    else NamesFrom(data, pages, |data| / pages, |data| / pages - 1, 0)
  }

  /** Names each followed by their NUL, back to back: a page block. */
  function JoinNames(names: seq<seq<byte>>): (data: seq<byte>)
  {
    if names == [] then [] else names[0] + [0] + JoinNames(names[1..])
  }

  lemma {:induction false} JoinNamesLength(names: seq<seq<byte>>, length: nat)
    requires forall k :: 0 <= k < |names| ==> |names[k]| == length
    ensures |JoinNames(names)| == |names| * (length + 1)
  {
    if names != [] {
      JoinNamesLength(names[1..], length);
      MulSucc(|names| - 1, length + 1);
    }
  }

  lemma MulSucc(i: nat, w: nat)
    ensures (i + 1) * w == i * w + w
  {
  }

  lemma {:induction false} MulBelow(i: nat, n: nat, w: nat)
    requires i < n
    ensures i * w + w <= n * w
    decreases n - i
  {
    MulSucc(i, w);
    if i + 1 < n {
      MulBelow(i + 1, n, w);
    }
  }

  /** Name `i` of a joined block sits at `i * (length + 1)`. */
  lemma {:induction false} JoinNamesSlice(names: seq<seq<byte>>, length: nat, i: nat)
    requires forall k :: 0 <= k < |names| ==> |names[k]| == length
    requires i < |names|
    ensures i * (length + 1) + length < |JoinNames(names)|
    ensures JoinNames(names)[i * (length + 1)..i * (length + 1) + length] == names[i]
  {
    var w := length + 1;
    var data := JoinNames(names);
    var head := names[0] + [0];
    var tail := JoinNames(names[1..]);
    assert data == head + tail && |head| == w;
    if i == 0 {
      assert data[..length] == names[0];
    } else {
      JoinNamesSlice(names[1..], length, i - 1);
      var s' := (i - 1) * w;
      MulSucc(i - 1, w);
      assert i * w == s' + w;
      assert data[s' + w..s' + w + length] == tail[s'..s' + length];
    }
  }

  lemma {:induction false} NamesFromJoined(names: seq<seq<byte>>, length: nat, i: nat)
    requires forall k :: 0 <= k < |names| ==> |names[k]| == length
    requires i <= |names|
    ensures NamesFrom(JoinNames(names), |names|, length + 1, length, i) == Ok(names[i..])
    decreases |names| - i
  {
    if i < |names| {
      NamesFromJoined(names, length, i + 1);
      JoinNamesSlice(names, length, i);
      assert names[i..] == [names[i]] + names[i + 1..];
    }
  }

  /** A product divided by one of its factors gives the other. */
  lemma DivideProduct(n: nat, w: nat)
    requires 0 < n
    ensures (n * w) / n == w
  {
    var x := n * w;
    var q, r := x / n, x % n;
    assert x == n * q + r && 0 <= r < n;
    if q < w {
      MulMonotone(n, q + 1, w);
    } else if q > w {
      MulMonotone(n, w + 1, q);
    }
  }

  lemma MulMonotone(n: nat, a: nat, b: nat)
    requires a <= b
    ensures n * a <= n * b
  {
  }

  /**
   * The corrected page block reads back every name of a block of equally
   * long, NUL-terminated names.
   */
  lemma PageNamesCorrectedRoundTrip(names: seq<seq<byte>>, length: nat)
    requires names != [] && forall k :: 0 <= k < |names| ==> |names[k]| == length
    ensures PageNamesCorrected(|names|, JoinNames(names)) == Ok(names)
  {
    JoinNamesLength(names, length);
    DivideProduct(|names|, length + 1);
    NamesFromJoined(names, length, 0);
  }

  /**
   * As written, the second of two 2-byte page names "ab" and "cd" is read
   * from offset 2, the first name's NUL, instead of offset 3.
   */
  lemma PageNamesAsWrittenMisreads()
    ensures var names := [[97, 98], [99, 100]];
      && PageNamesAsWritten(2, JoinNames(names)) == Ok([[97, 98], [0, 99]])
      && PageNamesCorrected(2, JoinNames(names)) == Ok(names)
  {
    var names: seq<seq<byte>> := [[97, 98], [99, 100]];
    var data := JoinNames(names);
    assert JoinNames(names[1..]) == [99, 100, 0] by {
      assert names[1..][1..] == [];
    }
    assert data == [97, 98, 0, 99, 100, 0];
    assert data[0..2] == [97, 98] && data[2..4] == [0, 99];
    var first, second := data[0..2], data[2..4];
    assert NamesFrom(data, 2, 2, 2, 2) == Ok([]);
    assert NamesFrom(data, 2, 2, 2, 1) == Ok([second] + []);
    assert NamesFrom(data, 2, 2, 2, 0) == Ok([first] + ([second] + []));
    assert [first] + ([second] + []) == [[97, 98], [0, 99]];
    PageNamesCorrectedRoundTrip(names, 2);
  }

  // ---------------------------------------------------------------- block 4: characters

  /** The `blockLength / 20` records of a character block. */
  function CharacterRecords(data: seq<byte>): (cs: seq<CharacterInfo>)
    ensures |cs| == |data| / CharacterSize
    ensures forall k :: 0 <= k < |cs| ==> CharacterFits(cs[k])
  {
    seq(|data| / CharacterSize, k requires 0 <= k < |data| / CharacterSize =>
      DecodeCharacter(data[CharacterSize * k..CharacterSize * k + CharacterSize]).value)
  }

  /** The records from the `i`th on added one by one; an id already present fails as Dictionary.Add does. */
  function AddCharacters(chars: map<nat, CharacterInfo>, cs: seq<CharacterInfo>, i: nat): (r: Result<map<nat, CharacterInfo>, Exception>)
    requires i <= |cs|
    ensures r.Ok? ==> chars.Keys <= r.value.Keys
    ensures r.Err? ==> r.error == DuplicateKey
    decreases |cs| - i
  {
    if i == |cs| then Ok(chars)
    else if cs[i].id in chars then Err(DuplicateKey)
    else AddCharacters(chars[cs[i].id := cs[i]], cs, i + 1)
  }

  /** The records from the `i`th on have distinct ids, none of them among the keys of `chars`. */
  ghost predicate FreshCharacters(chars: map<nat, CharacterInfo>, cs: seq<CharacterInfo>, i: nat)
  {
    && (forall k :: i <= k < |cs| ==> cs[k].id !in chars)
    && (forall k, m :: i <= k < m < |cs| ==> cs[k].id != cs[m].id)
  }

  /** A character block loads exactly when its ids are new and distinct. */
  lemma {:induction false} AddCharactersSucceeds(chars: map<nat, CharacterInfo>, cs: seq<CharacterInfo>, i: nat)
    requires i <= |cs|
    ensures AddCharacters(chars, cs, i).Ok? <==> FreshCharacters(chars, cs, i)
    decreases |cs| - i
  {
    if i < |cs| && cs[i].id !in chars {
      var chars' := chars[cs[i].id := cs[i]];
      AddCharactersSucceeds(chars', cs, i + 1);
      if FreshCharacters(chars', cs, i + 1) {
        assert FreshCharacters(chars, cs, i);
      } else if FreshCharacters(chars, cs, i) {
        assert FreshCharacters(chars', cs, i + 1);
      }
    }
  }

  /**
   * A loaded character block keeps the old entries, maps each record's id
   * to the record, and adds no other key.
   */
  lemma {:induction false} AddCharactersContents(chars: map<nat, CharacterInfo>, cs: seq<CharacterInfo>, i: nat)
    requires i <= |cs| && AddCharacters(chars, cs, i).Ok?
    ensures var r := AddCharacters(chars, cs, i).value;
      && r.Keys == chars.Keys + (set k | i <= k < |cs| :: cs[k].id)
      && (forall id :: id in chars ==> r[id] == chars[id])
      && (forall k :: i <= k < |cs| ==> r[cs[k].id] == cs[k])
    decreases |cs| - i
  {
    AddCharactersSucceeds(chars, cs, i);
    if i < |cs| {
      AddCharactersContents(chars[cs[i].id := cs[i]], cs, i + 1);
      assert (set k | i <= k < |cs| :: cs[k].id) == {cs[i].id} + (set k | i + 1 <= k < |cs| :: cs[k].id);
    }
  }

  // ---------------------------------------------------------------- block 5: kerning pairs

  /** The `blockLength / 10` records of a kerning block. */
  function KerningRecords(data: seq<byte>): (ps: seq<KerningPair>)
    ensures |ps| == |data| / KerningPairSize
    ensures forall k :: 0 <= k < |ps| ==> KerningPairFits(ps[k])
  {
    seq(|data| / KerningPairSize, k requires 0 <= k < |data| / KerningPairSize =>
      DecodeKerningPair(data[KerningPairSize * k..KerningPairSize * k + KerningPairSize]).value)
  }

  /** Whether the nested maps hold an entry for `first` then `second`. */
  predicate HasPair(pairs: map<nat, map<nat, KerningPair>>, first: nat, second: nat)
  {
    first in pairs && second in pairs[first]
  }

  /**
   * The records from the `i`th on added one by one into the nested maps; the
   * inner map of a new first code point starts empty, and a pair already
   * present fails as Dictionary.Add does.
   */
  function AddKerningPairs(pairs: map<nat, map<nat, KerningPair>>, ps: seq<KerningPair>, i: nat): (r: Result<map<nat, map<nat, KerningPair>>, Exception>)
    requires i <= |ps|
    ensures r.Err? ==> r.error == DuplicateKey
    decreases |ps| - i
  {
    if i == |ps| then Ok(pairs)
    else
      var nested := if ps[i].first in pairs then pairs[ps[i].first] else map[];
      if ps[i].second in nested then Err(DuplicateKey)
      else AddKerningPairs(pairs[ps[i].first := nested[ps[i].second := ps[i]]], ps, i + 1)
  }

  /** The records from the `i`th on name distinct pairs, none of them already present. */
  ghost predicate FreshPairs(pairs: map<nat, map<nat, KerningPair>>, ps: seq<KerningPair>, i: nat)
  {
    && (forall k :: i <= k < |ps| ==> !HasPair(pairs, ps[k].first, ps[k].second))
    && (forall k, m :: i <= k < m < |ps| ==> (ps[k].first, ps[k].second) != (ps[m].first, ps[m].second))
  }

  /** Adding one pair to the nested maps adds exactly that pair and keeps the others. */
  lemma InsertPair(pairs: map<nat, map<nat, KerningPair>>, p: KerningPair)
    ensures var nested := if p.first in pairs then pairs[p.first] else map[];
      var pairs' := pairs[p.first := nested[p.second := p]];
      && (forall a: nat, b: nat :: HasPair(pairs', a, b) <==> HasPair(pairs, a, b) || (a, b) == (p.first, p.second))
      && (forall a: nat, b: nat :: HasPair(pairs, a, b) && (a, b) != (p.first, p.second) ==> pairs'[a][b] == pairs[a][b])
      && pairs'[p.first][p.second] == p
  {
  }

  /** A kerning block loads exactly when its pairs are new and distinct. */
  lemma {:induction false} AddKerningPairsSucceeds(pairs: map<nat, map<nat, KerningPair>>, ps: seq<KerningPair>, i: nat)
    requires i <= |ps|
    ensures AddKerningPairs(pairs, ps, i).Ok? <==> FreshPairs(pairs, ps, i)
    decreases |ps| - i
  {
    if i < |ps| {
      var p := ps[i];
      var nested := if p.first in pairs then pairs[p.first] else map[];
      if p.second !in nested {
        var pairs' := pairs[p.first := nested[p.second := p]];
        InsertPair(pairs, p);
        AddKerningPairsSucceeds(pairs', ps, i + 1);
        if FreshPairs(pairs, ps, i) {
          assert FreshPairs(pairs', ps, i + 1);
        }
        if FreshPairs(pairs', ps, i + 1) {
          assert FreshPairs(pairs, ps, i);
        }
      }
    }
  }

  /**
   * A loaded kerning block keeps every old entry and holds each record
   * under its first and second code points.
   */
  lemma {:induction false} AddKerningPairsContents(pairs: map<nat, map<nat, KerningPair>>, ps: seq<KerningPair>, i: nat)
    requires i <= |ps| && AddKerningPairs(pairs, ps, i).Ok?
    ensures var r := AddKerningPairs(pairs, ps, i).value;
      && (forall a: nat, b: nat :: HasPair(pairs, a, b) ==> HasPair(r, a, b) && r[a][b] == pairs[a][b])
      && (forall k :: i <= k < |ps| ==> HasPair(r, ps[k].first, ps[k].second) && r[ps[k].first][ps[k].second] == ps[k])
    decreases |ps| - i
  {
    AddKerningPairsSucceeds(pairs, ps, i);
    if i < |ps| {
      var p := ps[i];
      var nested := if p.first in pairs then pairs[p.first] else map[];
      var pairs' := pairs[p.first := nested[p.second := p]];
      InsertPair(pairs, p);
      AddKerningPairsContents(pairs', ps, i + 1);
    }
  }

  // ---------------------------------------------------------------- the block loop

  /** One block's effect on the font; unknown block types leave it as it is. */
  function ApplyBlock(font: Font, blockType: byte, data: seq<byte>): (r: Result<Font, Exception>)
    ensures !(1 <= blockType <= 5) ==> r == Ok(font)
    ensures r.Ok? ==> font.characters.Keys <= r.value.characters.Keys
  {
    if blockType == 1 then
      match DecodeFontInfo(data)
      case Ok(info) => Ok(font.(fontInfo := info))
      case Err(e) => Err(e)
    else if blockType == 2 then
      match DecodeCommon(data)
      case Ok(common) => Ok(font.(commonInfo := common))
      case Err(e) => Err(e)
    else if blockType == 3 then
      match PageNamesAsWritten(font.commonInfo.pages, data)
      case Ok(names) => Ok(font.(pageNames := Some(names)))
      case Err(e) => Err(e)
    else if blockType == 4 then
      match AddCharacters(font.characters, CharacterRecords(data), 0)
      case Ok(chars) => Ok(font.(characters := chars))
      case Err(e) => Err(e)
    else if blockType == 5 then
      match AddKerningPairs(font.kerningPairs, KerningRecords(data), 0)
      case Ok(pairs) => Ok(font.(kerningPairs := pairs))
      case Err(e) => Err(e)
    else Ok(font)
  }

  /**
   * The blocks from `pos` on. The end of the stream ends the font; a stream
   * that ends inside a length or a block's data fails, and so does a length
   * whose top bit is set, which is negative as an int.
   */
  function ParseBlocks(stream: seq<byte>, pos: nat, font: Font): (r: Result<Font, Exception>)
    requires pos <= |stream|
    decreases |stream| - pos, 0
  {
    if pos == |stream| then Ok(font)
    else if |stream| - pos < 5 then Err(EndOfStream)
    else
      var length := ToInt32(LE32(stream[pos + 1], stream[pos + 2], stream[pos + 3], stream[pos + 4]));
      if length < 0 then Err(Overflow)
      else if |stream| - (pos + 5) < length then Err(EndOfStream)
      else
        Then(ApplyBlock(font, stream[pos], stream[pos + 5..pos + 5 + length]), stream, pos + 5 + length)
  }

  /** Parsing goes on from `pos` with the font a block gave, or stops with its error. */
  function Then(r: Result<Font, Exception>, stream: seq<byte>, pos: nat): Result<Font, Exception>
    requires pos <= |stream|
    decreases |stream| - pos, 1
  {
    match r
    case Ok(font) => ParseBlocks(stream, pos, font)
    case Err(e) => Err(e)
  }

  /** The Font constructor's outcome: a stream without the header fails with InvalidData. */
  function ParseFont(stream: seq<byte>): (r: Result<Font, Exception>)
    ensures IsValidFontStream(stream) == Ok(false) ==> r == Err(InvalidData)
    ensures |stream| == |ValidHeader| && stream == ValidHeader ==> r == Ok(EmptyFont)
  {
    match IsValidFontStream(stream)
    case Err(e) => Err(e)
    case Ok(valid) => if valid then ParseBlocks(stream, |ValidHeader|, EmptyFont) else Err(InvalidData)
  }

  /** Four bytes holding the little-endian length `n`. */
  predicate LengthBytes(lengthBytes: seq<byte>, n: nat)
  {
    |lengthBytes| == 4 && LE32(lengthBytes[0], lengthBytes[1], lengthBytes[2], lengthBytes[3]) == n
  }

  /** The type, the length and the data read at the start of a well-formed block. */
  lemma BlockFields(stream: seq<byte>, pos: nat, blockType: byte, lengthBytes: seq<byte>, data: seq<byte>)
    requires LengthBytes(lengthBytes, |data|) && |data| < 0x8000_0000 && pos + 5 + |data| <= |stream|
    requires stream[pos..pos + 5 + |data|] == [blockType] + lengthBytes + data
    ensures stream[pos] == blockType
    ensures ToInt32(LE32(stream[pos + 1], stream[pos + 2], stream[pos + 3], stream[pos + 4])) == |data|
    ensures stream[pos + 5..pos + 5 + |data|] == data
  {
    var block := [blockType] + lengthBytes + data;
    assert stream[pos] == block[0];
    assert block[5..] == data;
    assert stream[pos + 1] == lengthBytes[0] && stream[pos + 2] == lengthBytes[1] && stream[pos + 3] == lengthBytes[2] && stream[pos + 4] == lengthBytes[3];
  }

  /** A well-formed block in the stream is applied and parsing goes on after it. */
  lemma ParseBlockAt(stream: seq<byte>, pos: nat, font: Font, blockType: byte, lengthBytes: seq<byte>, data: seq<byte>)
    requires LengthBytes(lengthBytes, |data|) && |data| < 0x8000_0000 && pos + 5 + |data| <= |stream|
    requires stream[pos..pos + 5 + |data|] == [blockType] + lengthBytes + data
    ensures ParseBlocks(stream, pos, font) == Then(ApplyBlock(font, blockType, data), stream, pos + 5 + |data|)
  {
    BlockFields(stream, pos, blockType, lengthBytes, data);
    ParseBlocksStep(stream, pos, font, blockType, data);
  }

  /** One unfolding of ParseBlocks at a block of type `blockType` holding `data`. */
  lemma ParseBlocksStep(stream: seq<byte>, pos: nat, font: Font, blockType: byte, data: seq<byte>)
    requires pos + 5 + |data| <= |stream|
    requires stream[pos] == blockType && stream[pos + 5..pos + 5 + |data|] == data
    requires ToInt32(LE32(stream[pos + 1], stream[pos + 2], stream[pos + 3], stream[pos + 4])) == |data|
    ensures ParseBlocks(stream, pos, font) == Then(ApplyBlock(font, blockType, data), stream, pos + 5 + |data|)
  {
  }

  /** A block of an unknown type is skipped whatever it holds. */
  lemma UnknownBlockSkipped(stream: seq<byte>, pos: nat, font: Font, blockType: byte, lengthBytes: seq<byte>, data: seq<byte>)
    requires !(1 <= blockType <= 5)
    requires LengthBytes(lengthBytes, |data|) && |data| < 0x8000_0000 && pos + 5 + |data| <= |stream|
    requires stream[pos..pos + 5 + |data|] == [blockType] + lengthBytes + data
    ensures ParseBlocks(stream, pos, font) == ParseBlocks(stream, pos + 5 + |data|, font)
  {
    ParseBlockAt(stream, pos, font, blockType, lengthBytes, data);
  }

  // ---------------------------------------------------------------- lookups

  /** GetCharacterInfo: the glyph of `character`, else that of '?', which must then exist. */
  function GetCharacterInfo(font: Font, character: nat): (r: Result<CharacterInfo, Exception>)
    requires character < TwoTo16
    ensures character in font.characters ==> r == Ok(font.characters[character])
    ensures character !in font.characters && QuestionMark in font.characters ==> r == Ok(font.characters[QuestionMark])
    ensures r.Err? <==> character !in font.characters && QuestionMark !in font.characters
    ensures r.Err? ==> r.error == KeyNotFound
  {
    if character in font.characters then Ok(font.characters[character])
    else if QuestionMark in font.characters then Ok(font.characters[QuestionMark])
    else Err(KeyNotFound)
  }

  /** GetKerningAmount: the amount recorded for the pair, 0 when there is none. */
  function GetKerningAmount(font: Font, first: nat, second: nat): (r: int)
    requires first < TwoTo16 && second < TwoTo16
    ensures HasPair(font.kerningPairs, first, second) ==> r == font.kerningPairs[first][second].amount
    ensures !HasPair(font.kerningPairs, first, second) ==> r == 0
  {
    if first !in font.kerningPairs then 0
    else if second !in font.kerningPairs[first] then 0
    else font.kerningPairs[first][second].amount
  }

  /**
   * GetCharacterTexture, up to the texture store: the name of the glyph's
   * page and its rectangle (x, y, width, height) on it. Without a page block
   * the name array is null, and a page past its end is out of range.
   */
  function GetCharacterTexture(font: Font, character: nat): (r: Result<(seq<byte>, (nat, nat, nat, nat)), Exception>)
    requires character < TwoTo16
    ensures GetCharacterInfo(font, character).Err? ==> r == Err(KeyNotFound)
    ensures r.Ok? ==>
      var c := GetCharacterInfo(font, character).value;
      && font.pageNames.Some? && c.page < |font.pageNames.value|
      && r.value == (font.pageNames.value[c.page], (c.x, c.y, c.width, c.height))
    ensures GetCharacterInfo(font, character).Ok? && font.pageNames.None? ==> r == Err(NullReference)
  {
    match GetCharacterInfo(font, character)
    case Err(e) => Err(e)
    case Ok(c) =>
      if font.pageNames.None? then Err(NullReference)
      else if |font.pageNames.value| <= c.page then Err(IndexOutOfRange)
      else Ok((font.pageNames.value[c.page], (c.x, c.y, c.width, c.height)))
  }

  // ---------------------------------------------------------------- whole files

  /** Character records back to back: a character block. */
  function EncodeCharacters(cs: seq<CharacterInfo>): (data: seq<byte>)
    requires forall k :: 0 <= k < |cs| ==> CharacterFits(cs[k])
    ensures |data| == CharacterSize * |cs|
  {
    if cs == [] then [] else EncodeCharacter(cs[0]) + EncodeCharacters(cs[1..])
  }

  /** The records of a character block that starts with one record. */
  lemma CharacterRecordsCons(record: seq<byte>, rest: seq<byte>)
    requires |record| == CharacterSize
    ensures CharacterRecords(record + rest) == [DecodeCharacter(record).value] + CharacterRecords(rest)
  {
    var data := record + rest;
    assert |data| / CharacterSize == 1 + |rest| / CharacterSize;
    forall k | 1 <= k < |data| / CharacterSize
      ensures data[CharacterSize * k..CharacterSize * k + CharacterSize]
           == rest[CharacterSize * (k - 1)..CharacterSize * (k - 1) + CharacterSize]
    {
    }
    assert data[..CharacterSize] == record;
  }

  /** The records of an encoded character block are the characters encoded. */
  lemma {:induction false} DecodeEncodedCharacters(cs: seq<CharacterInfo>)
    requires forall k :: 0 <= k < |cs| ==> CharacterFits(cs[k])
    ensures CharacterRecords(EncodeCharacters(cs)) == cs
  {
    if cs != [] {
      DecodeEncodedCharacters(cs[1..]);
      CharacterRecordsCons(EncodeCharacter(cs[0]), EncodeCharacters(cs[1..]));
      DecodeEncodeCharacter(cs[0]);
      assert cs == [cs[0]] + cs[1..];
    }
  }

  /** Kerning records back to back: a kerning block. */
  function EncodeKerningPairs(ps: seq<KerningPair>): (data: seq<byte>)
    requires forall k :: 0 <= k < |ps| ==> KerningPairFits(ps[k])
    ensures |data| == KerningPairSize * |ps|
  {
    if ps == [] then [] else EncodeKerningPair(ps[0]) + EncodeKerningPairs(ps[1..])
  }

  /** The records of a kerning block that starts with one record. */
  lemma KerningRecordsCons(record: seq<byte>, rest: seq<byte>)
    requires |record| == KerningPairSize
    ensures KerningRecords(record + rest) == [DecodeKerningPair(record).value] + KerningRecords(rest)
  {
    var data := record + rest;
    assert |data| / KerningPairSize == 1 + |rest| / KerningPairSize;
    forall k | 1 <= k < |data| / KerningPairSize
      ensures data[KerningPairSize * k..KerningPairSize * k + KerningPairSize]
           == rest[KerningPairSize * (k - 1)..KerningPairSize * (k - 1) + KerningPairSize]
    {
    }
    assert data[..KerningPairSize] == record;
  }

  /** The records of an encoded kerning block are the pairs encoded. */
  lemma {:induction false} DecodeEncodedKerningPairs(ps: seq<KerningPair>)
    requires forall k :: 0 <= k < |ps| ==> KerningPairFits(ps[k])
    ensures KerningRecords(EncodeKerningPairs(ps)) == ps
  {
    if ps != [] {
      DecodeEncodedKerningPairs(ps[1..]);
      KerningRecordsCons(EncodeKerningPair(ps[0]), EncodeKerningPairs(ps[1..]));
      DecodeEncodeKerningPair(ps[0]);
      assert ps == [ps[0]] + ps[1..];
    }
  }

  /** A file made of the header and one well-formed block is that block applied to the empty font. */
  lemma SingleBlockFile(blockType: byte, lengthBytes: seq<byte>, data: seq<byte>)
    requires LengthBytes(lengthBytes, |data|) && |data| < 0x8000_0000
    ensures var stream := ValidHeader + ([blockType] + lengthBytes + data);
      ParseFont(stream) == Then(ApplyBlock(EmptyFont, blockType, data), stream, |stream|)
  {
    var block := [blockType] + lengthBytes + data;
    var stream := ValidHeader + block;
    assert stream[..4] == ValidHeader;
    assert stream[4..4 + 5 + |data|] == block;
    ParseBlockAt(stream, 4, EmptyFont, blockType, lengthBytes, data);
  }

  /**
   * A font file holding one character block of glyphs with distinct ids
   * loads, and GetCharacterInfo then finds every one of them by its id.
   */
  lemma LoadedCharactersAreFound(cs: seq<CharacterInfo>, lengthBytes: seq<byte>)
    requires forall k :: 0 <= k < |cs| ==> CharacterFits(cs[k]) && cs[k].id < TwoTo16
    requires forall k, m :: 0 <= k < m < |cs| ==> cs[k].id != cs[m].id
    requires CharacterSize * |cs| < 0x8000_0000 && LengthBytes(lengthBytes, CharacterSize * |cs|)
    ensures var font := ParseFont(ValidHeader + ([4] + lengthBytes + EncodeCharacters(cs)));
      && font.Ok?
      && forall k :: 0 <= k < |cs| ==> GetCharacterInfo(font.value, cs[k].id) == Ok(cs[k])
  {
    var data := EncodeCharacters(cs);
    SingleBlockFile(4, lengthBytes, data);
    DecodeEncodedCharacters(cs);
    CharacterBlockFound(data, cs);
  }

  /** A character block of distinct ids, applied to the empty font, makes every glyph found by its id. */
  lemma CharacterBlockFound(data: seq<byte>, cs: seq<CharacterInfo>)
    requires CharacterRecords(data) == cs
    requires forall k :: 0 <= k < |cs| ==> cs[k].id < TwoTo16
    requires forall k, m :: 0 <= k < m < |cs| ==> cs[k].id != cs[m].id
    ensures var r := ApplyBlock(EmptyFont, 4, data);
      && r.Ok?
      && forall k :: 0 <= k < |cs| ==> GetCharacterInfo(r.value, cs[k].id) == Ok(cs[k])
  {
    AddCharactersSucceeds(map[], cs, 0);
    AddCharactersContents(map[], cs, 0);
  }

  /**
   * A font file holding one kerning block of distinct pairs loads, and
   * GetKerningAmount then gives each pair's amount.
   */
  lemma LoadedKerningAmountsAreFound(ps: seq<KerningPair>, lengthBytes: seq<byte>)
    requires forall k :: 0 <= k < |ps| ==> KerningPairFits(ps[k]) && ps[k].first < TwoTo16 && ps[k].second < TwoTo16
    requires forall k, m :: 0 <= k < m < |ps| ==> (ps[k].first, ps[k].second) != (ps[m].first, ps[m].second)
    requires KerningPairSize * |ps| < 0x8000_0000 && LengthBytes(lengthBytes, KerningPairSize * |ps|)
    ensures var font := ParseFont(ValidHeader + ([5] + lengthBytes + EncodeKerningPairs(ps)));
      && font.Ok?
      && forall k :: 0 <= k < |ps| ==> GetKerningAmount(font.value, ps[k].first, ps[k].second) == ps[k].amount
  {
    var data := EncodeKerningPairs(ps);
    SingleBlockFile(5, lengthBytes, data);
    DecodeEncodedKerningPairs(ps);
    KerningBlockFound(data, ps);
  }

  /** A kerning block of distinct pairs, applied to the empty font, makes every pair's amount found. */
  lemma KerningBlockFound(data: seq<byte>, ps: seq<KerningPair>)
    requires KerningRecords(data) == ps
    requires forall k :: 0 <= k < |ps| ==> ps[k].first < TwoTo16 && ps[k].second < TwoTo16
    requires forall k, m :: 0 <= k < m < |ps| ==> (ps[k].first, ps[k].second) != (ps[m].first, ps[m].second)
    ensures var r := ApplyBlock(EmptyFont, 5, data);
      && r.Ok?
      && forall k :: 0 <= k < |ps| ==> GetKerningAmount(r.value, ps[k].first, ps[k].second) == ps[k].amount
  {
    AddKerningPairsSucceeds(map[], ps, 0);
    AddKerningPairsContents(map[], ps, 0);
  }

  // ---------------------------------------------------------------- the constructor

  /** `names` in front of the names of a result. */
  function Prepend(names: seq<seq<byte>>, r: Result<seq<seq<byte>>, Exception>): Result<seq<seq<byte>>, Exception>
  {
    match r
    case Ok(rest) => Ok(names + rest)
    case Err(e) => Err(e)
  }

  /** The loop of block 3: one name per page. */
  method ReadPageNames(pages: nat, data: seq<byte>) returns (r: Result<seq<seq<byte>>, Exception>)
    ensures r == PageNamesAsWritten(pages, data)
  {
    if pages == 0 {
      return Err(DivideByZero);
    }
    var stringLength := |data| / pages - 1;
    var names := [];
    assert Prepend(names, NamesFrom(data, pages, pages, stringLength, 0)) == NamesFrom(data, pages, pages, stringLength, 0) by {
      assert forall rest: seq<seq<byte>> :: [] + rest == rest;
    }
    for i := 0 to pages
      invariant |names| == i
      invariant NamesFrom(data, pages, pages, stringLength, 0) == Prepend(names, NamesFrom(data, pages, pages, stringLength, i))
    {
      var start := pages * i;
      if stringLength < 0 || |data| < start + stringLength {
        return Err(ArgumentOutOfRange);
      }
      var name := data[start..start + stringLength];
      assert forall rest :: names + ([name] + rest) == (names + [name]) + rest;
      names := names + [name];
    }
    assert names + [] == names;
    return Ok(names);
  }

  /** The loop of block 4: `blockLength / 20` records added to the characters. */
  method ReadCharacters(chars: map<nat, CharacterInfo>, data: seq<byte>) returns (r: Result<map<nat, CharacterInfo>, Exception>)
    ensures r == AddCharacters(chars, CharacterRecords(data), 0)
  {
    var n := |data| / 20;
    ghost var cs := CharacterRecords(data);
    var loaded: map<nat, CharacterInfo> := chars;
    for i := 0 to n
      invariant AddCharacters(chars, cs, 0) == AddCharacters(loaded, cs, i)
    {
      var c := DecodeCharacter(data[i * 20..i * 20 + 20]).value;
      assert c == cs[i];
      if c.id in loaded {
        return Err(DuplicateKey);
      }
      loaded := loaded[c.id := c];
    }
    return Ok(loaded);
  }

  /** The loop of block 5: `blockLength / 10` records added to the nested kerning maps. */
  method ReadKerningPairs(pairs: map<nat, map<nat, KerningPair>>, data: seq<byte>) returns (r: Result<map<nat, map<nat, KerningPair>>, Exception>)
    ensures r == AddKerningPairs(pairs, KerningRecords(data), 0)
  {
    var n := |data| / 10;
    ghost var ps := KerningRecords(data);
    var loaded: map<nat, map<nat, KerningPair>> := pairs;
    for i := 0 to n
      invariant AddKerningPairs(pairs, ps, 0) == AddKerningPairs(loaded, ps, i)
    {
      var p := DecodeKerningPair(data[i * 10..i * 10 + 10]).value;
      assert p == ps[i];
      var nested := if p.first in loaded then loaded[p.first] else map[];
      if p.second in nested {
        return Err(DuplicateKey);
      }
      loaded := loaded[p.first := nested[p.second := p]];
    }
    return Ok(loaded);
  }

  /** The switch over the block type. */
  method ReadBlock(font: Font, blockType: byte, blockData: seq<byte>) returns (r: Result<Font, Exception>)
    ensures r == ApplyBlock(font, blockType, blockData)
  {
    if blockType == 1 {
      var info := DecodeFontInfo(blockData);
      if info.Err? {
        return Err(info.error);
      }
      return Ok(font.(fontInfo := info.value));
    } else if blockType == 2 {
      var common := DecodeCommon(blockData);
      if common.Err? {
        return Err(common.error);
      }
      return Ok(font.(commonInfo := common.value));
    } else if blockType == 3 {
      var names := ReadPageNames(font.commonInfo.pages, blockData);
      if names.Err? {
        return Err(names.error);
      }
      return Ok(font.(pageNames := Some(names.value)));
    } else if blockType == 4 {
      var chars := ReadCharacters(font.characters, blockData);
      if chars.Err? {
        return Err(chars.error);
      }
      return Ok(font.(characters := chars.value));
    } else if blockType == 5 {
      var pairs := ReadKerningPairs(font.kerningPairs, blockData);
      if pairs.Err? {
        return Err(pairs.error);
      }
      return Ok(font.(kerningPairs := pairs.value));
    }
    return Ok(font);
  }

  /** The Font constructor: the header check, then blocks until the stream ends. */
  method LoadFont(stream: seq<byte>) returns (r: Result<Font, Exception>)
    ensures r == ParseFont(stream)
  {
    if |stream| < |ValidHeader| {
      return Err(EndOfStream);
    }
    if stream[..|ValidHeader|] != ValidHeader {
      return Err(InvalidData);
    }
    var font := EmptyFont;
    var pos := |ValidHeader|;
    while pos < |stream|
      invariant pos <= |stream|
      invariant ParseFont(stream) == ParseBlocks(stream, pos, font)
      decreases |stream| - pos
    {
      var blockType := stream[pos];
      if |stream| - pos < 5 {
        return Err(EndOfStream);
      }
      var blockLength := ToInt32(LE32(stream[pos + 1], stream[pos + 2], stream[pos + 3], stream[pos + 4]));
      if blockLength < 0 {
        return Err(Overflow);
      }
      if |stream| - (pos + 5) < blockLength {
        return Err(EndOfStream);
      }
      var blockData := stream[pos + 5..pos + 5 + blockLength];
      var next := ReadBlock(font, blockType, blockData);
      if next.Err? {
        return Err(next.error);
      }
      font := next.value;
      pos := pos + 5 + blockLength;
    }
    return Ok(font);
  }
}
