/**
 * The format checks and sample assembly shared by BloomBirb's audio
 * decoders: which wave encodings are accepted, which OpenAL buffer format a
 * channel count and sample width map to, and how a 24- or 32-bit PCM sample
 * is assembled from its little-endian bytes before it is scaled to 16 bits.
 */
module AudioFormats {
  import opened Wrappers
  import opened Bytes

  /** The encodings a wave header may declare; any other is `Other`. */
  datatype WaveEncoding = Pcm | IeeeFloat | Other(tag: int)

  /** The OpenAL buffer formats. */
  datatype BufferFormat = Mono8 | Mono16 | Stereo8 | Stereo16

  /** ThrowIfInvalid: nothing for PCM and IEEE float; otherwise an InvalidDataException. */
  function ThrowIfInvalid(encoding: WaveEncoding): (thrown: Option<Exception>)
    ensures thrown.None? <==> encoding == Pcm || encoding == IeeeFloat
    ensures thrown.Some? ==> thrown.value == InvalidData
  {
    match encoding
    case Pcm => None
    case IeeeFloat => None
    case Other(_) => Some(InvalidData)
  }

  /** The channel count of a format: mono or stereo. */
  function Channels(format: BufferFormat): (n: nat)
    ensures n == 1 <==> format == Mono8 || format == Mono16
    ensures n == 2 <==> format == Stereo8 || format == Stereo16
  {
    match format
    case Mono8 | Mono16 => 1
    case Stereo8 | Stereo16 => 2
  }

  /** The sample width of a format, in bits. */
  function BitsPerSample(format: BufferFormat): (n: nat)
    ensures n == 8 <==> format == Mono8 || format == Stereo8
    ensures n == 16 <==> format == Mono16 || format == Stereo16
  {
    match format
    case Mono8 | Stereo8 => 8
    case Mono16 | Stereo16 => 16
  }

  /**
   * ConvertToBufferFormat: the format with that channel count and sample
   * width, for one or two channels of 8 or 16 bits; any other combination
   * throws.
   */
  function ConvertToBufferFormat(bitsPerSample: int, channels: int): (r: Result<BufferFormat, Exception>)
    ensures r.Ok? <==> (channels == 1 || channels == 2) && (bitsPerSample == 8 || bitsPerSample == 16)
    ensures r.Ok? ==> Channels(r.value) == channels && BitsPerSample(r.value) == bitsPerSample
    ensures r.Err? ==> r.error == NotSupported
  {
    if channels == 1 then
      if bitsPerSample == 8 then Ok(Mono8)
      else if bitsPerSample == 16 then Ok(Mono16)
      else Err(NotSupported)
    else if channels == 2 then
      if bitsPerSample == 8 then Ok(Stereo8)
      else if bitsPerSample == 16 then Ok(Stereo16)
      else Err(NotSupported)
    else Err(NotSupported)
  }

  /** Every buffer format is the one its own channel count and width convert to. */
  lemma ConvertToBufferFormatRoundTrip(format: BufferFormat)
    ensures ConvertToBufferFormat(BitsPerSample(format), Channels(format)) == Ok(format)
  {
  }

  /** The unsigned little-endian value of the bytes. */
  function LEValue(bytes: seq<byte>): nat
  {
    if |bytes| == 0 then 0
    else
      var n := |bytes| - 1;
      LEValue(bytes[..n]) + bytes[n] as int * Pow2(8 * n)
  }

  /**
   * The inner loop of ToPcm16 over the bytes of one sample: the value so
   * far plus the next byte shifted left by 8 for each byte before it, on a
   * C# int.
   */
  function Accumulate(bytes: seq<byte>): (value: int)
  {
    if |bytes| == 0 then 0
    else
      var n := |bytes| - 1;
      Wrap32(Accumulate(bytes[..n]) + Shl32(bytes[n] as int, 8 * n))
  }

  /** One assembled sample: the accumulated value, shifted left by 8 more for a 3-byte sample. */
  function SampleValue(bytes: seq<byte>, sampleSize: int): int
  {
    var value := Accumulate(bytes);
    if sampleSize == 3 then Shl32(value, 8) else value
  }

  /** The number of samples ToPcm16 reads: the length divided by the sample size, truncated toward zero. */
  function SampleCount(length: nat, sampleSize: int): (count: nat)
    requires sampleSize != 0
    ensures sampleSize > 0 ==> count * sampleSize <= length < (count + 1) * sampleSize
    ensures sampleSize < 0 ==> count == 0
  {
    if sampleSize > 0 then length / sampleSize else 0
  }

  /** Sample i of the buffer: the value assembled from bytes [i * s, (i + 1) * s), where those lie in the buffer. */
  function Sample(pcmSamples: seq<byte>, sampleSize: int, i: int): int
  {
    if 0 <= i * sampleSize <= (i + 1) * sampleSize <= |pcmSamples|
    then SampleValue(pcmSamples[i * sampleSize..(i + 1) * sampleSize], sampleSize)
    else 0
  }

  /** The bytes of every sample ToPcm16 reads lie inside the buffer. */
  lemma SampleInBuffer(length: nat, sampleSize: int, i: nat)
    requires sampleSize != 0 && i < SampleCount(length, sampleSize)
    ensures 0 <= i * sampleSize <= (i + 1) * sampleSize <= length
  {
    var count := length / sampleSize;
    assert count * sampleSize <= length by {
      assert count * sampleSize + length % sampleSize == length;
    }
    assert (i + 1) * sampleSize <= count * sampleSize by {
      assert i + 1 <= count;
    }
  }

  /** Wrapping after an addition whose one operand was wrapped already wraps the plain sum. */
  lemma Wrap32Add(a: int, b: int)
    ensures Wrap32(a + Wrap32(b)) == Wrap32(a + b)
    ensures Wrap32(Wrap32(a) + b) == Wrap32(a + b)
  {
    var w := Wrap32(b);
    assert a + w - (a + b) == w - b;
    SameResidueSameWrap(a + w, a + b);
    var v := Wrap32(a);
    assert v + b - (a + b) == v - a;
    SameResidueSameWrap(v + b, a + b);
  }

  /** Values that differ by a multiple of 2^32 wrap to the same int. */
  lemma SameResidueSameWrap(x: int, y: int)
    requires (x - y) % TwoTo32 == 0
    ensures Wrap32(x) == Wrap32(y)
  {
    var q := (x - y) / TwoTo32;
    assert x == y + TwoTo32 * q;
    AddMultipleKeepsResidue(y, q);
  }

  /** Adding a multiple of 2^32 keeps the residue. */
  lemma AddMultipleKeepsResidue(y: int, q: int)
    ensures (y + TwoTo32 * q) % TwoTo32 == y % TwoTo32
  {
  }

  /** The powers of two a byte is shifted by. */
  lemma BytePowers()
    ensures Pow2(0) == 1 && Pow2(8) == 0x100 && Pow2(16) == 0x1_0000 && Pow2(24) == 0x100_0000
  {
    assert Pow2(8) == 0x100;
    Pow2Add(8, 8);
    Pow2Add(8, 16);
  }

  /** Up to four bytes, the accumulation is the little-endian value on a C# int. */
  lemma {:induction false} AccumulateIsLittleEndian(bytes: seq<byte>)
    requires |bytes| <= 4
    ensures Accumulate(bytes) == Wrap32(LEValue(bytes))
  {
    if |bytes| > 0 {
      var n := |bytes| - 1;
      var prefix := bytes[..n];
      var shifted := bytes[n] as int * Pow2(8 * n);
      assert LEValue(bytes) == LEValue(prefix) + shifted;
      calc {
        Accumulate(bytes);
        Wrap32(Accumulate(prefix) + Shl32(bytes[n] as int, 8 * n));
        { ShiftWithinWord(bytes[n] as int, 8 * n); }
        Wrap32(Accumulate(prefix) + Wrap32(shifted));
        { Wrap32Add(Accumulate(prefix), shifted); }
        Wrap32(Accumulate(prefix) + shifted);
        { AccumulateIsLittleEndian(prefix); }
        Wrap32(Wrap32(LEValue(prefix)) + shifted);
        { Wrap32Add(LEValue(prefix), shifted); }
        Wrap32(LEValue(prefix) + shifted);
        Wrap32(LEValue(bytes));
      }
    }
  }

  /** A shift by less than 32 is a multiplication by a power of two, wrapped. */
  lemma ShiftWithinWord(x: int, k: nat)
    requires k < 32
    ensures Shl32(x, k) == Wrap32(x * Pow2(k))
  {
    assert k % 32 == k;
  }

  /** The little-endian value of three and of four bytes, written out. */
  lemma LEValueWrittenOut(bytes: seq<byte>)
    requires 3 <= |bytes| <= 4
    ensures LEValue(bytes[..3]) == bytes[0] as int + bytes[1] as int * 0x100 + bytes[2] as int * 0x1_0000
    ensures |bytes| == 4 ==> LEValue(bytes) == LE32(bytes[0], bytes[1], bytes[2], bytes[3])
  {
    BytePowers();
    var b0, b1, b2 := bytes[0] as int, bytes[1] as int, bytes[2] as int;
    assert bytes[..1][..0] == [];
    assert LEValue(bytes[..1]) == b0;
    assert bytes[..2][..1] == bytes[..1];
    assert LEValue(bytes[..2]) == b0 + b1 * 0x100;
    assert bytes[..3][..2] == bytes[..2];
    assert LEValue(bytes[..3]) == b0 + b1 * 0x100 + b2 * 0x1_0000;
    if |bytes| == 4 {
      assert bytes[..3] == bytes[..|bytes| - 1];
      assert LEValue(bytes) == b0 + b1 * 0x100 + b2 * 0x1_0000 + bytes[3] as int * 0x100_0000;
    }
  }

  /** A value that already fits a C# int is its own wrap. */
  lemma Wrap32Small(x: int)
    requires 0 <= x < TwoTo32
    ensures Wrap32(x) == ToInt32(x)
  {
  }

  /**
   * A 24-bit sample becomes the signed 24-bit little-endian value scaled
   * to 32 bits (times 256).
   */
  lemma Pcm24Sample(bytes: seq<byte>)
    requires |bytes| == 3
    ensures var v := LEValue(bytes);
      SampleValue(bytes, 3) == (if v < 0x80_0000 then v else v - 0x100_0000) * 256
  {
    AccumulateIsLittleEndian(bytes);
    LEValueWrittenOut(bytes);
    assert bytes[..3] == bytes;
    BytePowers();
    var v := LEValue(bytes);
    assert 0 <= v < 0x100_0000;
    Wrap32Small(v);
    assert Accumulate(bytes) == v;
    assert 8 % 32 == 8;
    var scaled := v * 0x100;
    assert Shl32(v, 8) == Wrap32(scaled);
    Wrap32Small(scaled);
  }

  /** A 32-bit sample is the signed 32-bit little-endian value. */
  lemma Pcm32Sample(bytes: seq<byte>)
    requires |bytes| == 4
    ensures SampleValue(bytes, 4) == ToInt32(LE32(bytes[0], bytes[1], bytes[2], bytes[3]))
  {
    AccumulateIsLittleEndian(bytes);
    LEValueWrittenOut(bytes);
    Wrap32Small(LE32(bytes[0], bytes[1], bytes[2], bytes[3]));
  }

  /**
   * ToPcm16 up to the assembly of each sample: one value per whole sample,
   * sample i assembled from bytes [i * s, (i + 1) * s); a sample size of
   * zero divides by zero.
   */
  method AssembleSamples(pcmSamples: seq<byte>, sampleSize: int) returns (r: Result<seq<int>, Exception>)
    ensures r.Err? <==> sampleSize == 0
    ensures r.Err? ==> r.error == DivideByZero
    ensures r.Ok? ==> |r.value| == SampleCount(|pcmSamples|, sampleSize)
    ensures r.Ok? ==> forall i :: 0 <= i < |r.value| ==> r.value[i] == Sample(pcmSamples, sampleSize, i)
  {
    if sampleSize == 0 {
      return Err(DivideByZero);
    }
    var count := SampleCount(|pcmSamples|, sampleSize);
    var values: seq<int> := [];
    for i := 0 to count
      invariant |values| == i
      invariant forall k :: 0 <= k < i ==> values[k] == Sample(pcmSamples, sampleSize, k)
    {
      SampleInBuffer(|pcmSamples|, sampleSize, i);
      var value := AssembleOne(pcmSamples, i * sampleSize, sampleSize);
      values := values + [value];
    }
    return Ok(values);
  }

  /** The bytes of one sample, starting at `start`, or-ed together lowest byte first. */
  method AssembleOne(pcmSamples: seq<byte>, start: nat, sampleSize: nat) returns (value: int)
    requires start + sampleSize <= |pcmSamples|
    ensures value == SampleValue(pcmSamples[start..start + sampleSize], sampleSize)
  {
    ghost var bytes := pcmSamples[start..start + sampleSize];
    value := 0;
    for j := 0 to sampleSize
      invariant value == Accumulate(bytes[..j])
    {
      AccumulateStep(bytes, j);
      value := Wrap32(value + Shl32(pcmSamples[start + j] as int, 8 * j));
    }
    assert bytes[..sampleSize] == bytes;
    if sampleSize == 3 {
      value := Shl32(value, 8);
    }
  }

  /** One more byte of a sample: the value so far plus the byte shifted to its place. */
  lemma AccumulateStep(bytes: seq<byte>, j: nat)
    requires j < |bytes|
    ensures Accumulate(bytes[..j + 1]) == Wrap32(Accumulate(bytes[..j]) + Shl32(bytes[j] as int, 8 * j))
  {
    assert bytes[..j + 1][..j] == bytes[..j];
  }
}
