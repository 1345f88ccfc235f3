/**
 Canonical wave files in each of the five sample encodings, and that decoding gives back what was written.
 */
module WavFiles {
  import opened Wrappers
  import opened Placement
  import opened LittleEndian
  import opened WavDecoder

  datatype Encoding = Pcm8 | Pcm16 | Pcm24 | Pcm32 | Float32

  function Width(e: Encoding): (w: nat)
    ensures 1 <= w <= 4
  {
    match e case Pcm8 => 1 case Pcm16 => 2 case Pcm24 => 3 case Pcm32 => 4 case Float32 => 4
  }

  /** Half the range of the numbers an integer encoding can write. */
  function Half(e: Encoding): int {
    match e case Pcm8 => 0x80 case Pcm16 => 0x8000 case Pcm24 => 0x80_0000 case Pcm32 => 0x8000_0000
            case Float32 => 0x8000_0000
  }

  /** A sample is a signed number, or the pattern of a float. */
  predicate IsSample(e: Encoding, n: int) { if e.Float32? then 0 <= n < 0x1_0000_0000 else -Half(e) <= n < Half(e) }

  predicate AllSamples(e: Encoding, samples: seq<int>) { forall i :: 0 <= i < |samples| ==> IsSample(e, samples[i]) }

  /** What a sample means: the number over half the range, or what the float's pattern denotes, if it is finite. */
  function Meaning(floats: int -> Option<real>, e: Encoding, n: int): Option<real> {
    if e.Float32? then floats(n) else Some(n as real / Half(e) as real)
  }

  /** Offset by half the range for eight bits, two's complement for more. */
  function Pattern(e: Encoding, n: int): (r: int)
    requires IsSample(e, n)
    ensures 0 <= r < 2 * Half(e)
  {
    if e.Pcm8? then n + 0x80 else if n < 0 then n + 2 * Half(e) else n
  }

  function SampleBytes(e: Encoding, n: int): (r: seq<Byte>)
    requires IsSample(e, n)
    ensures |r| == Width(e)
  {
    var p := Pattern(e, n);
    match e
    case Pcm8 => [p]
    case Pcm16 => U16(p)
    case Pcm24 => U16(p % 0x10000) + [p / 0x10000]
    case Pcm32 => U32(p)
    case Float32 => U32(p)
  }

  /** The samples one after the other. */
  function Data(e: Encoding, samples: seq<int>): (r: seq<Byte>)
    requires AllSamples(e, samples)
  {
    if samples == [] then [] else Data(e, samples[..|samples| - 1]) + SampleBytes(e, samples[|samples| - 1])
  }

  function FormatOf(e: Encoding, sampleRate: int, channels: int): RawFormat {
    RawFormat(if e.Float32? then 3 else 1, channels, sampleRate, channels * Width(e), Width(e) * 8)
  }

  function FormatPayload(e: Encoding, sampleRate: int, channels: int): (r: seq<Byte>)
    requires 8000 <= sampleRate <= 192000 && 1 <= channels <= 2
    ensures |r| == 16
  {
    var block := channels * Width(e);
    BlockBounds(sampleRate, channels, Width(e));
    U16(if e.Float32? then 3 else 1)
    + (U16(channels) + (U32(sampleRate) + (U32(sampleRate * block) + (U16(block) + U16(Width(e) * 8)))))
  }

  lemma BlockBounds(sampleRate: int, channels: int, width: nat)
    requires 8000 <= sampleRate <= 192000 && 1 <= channels <= 2 && 1 <= width <= 4
    ensures 1 <= channels * width <= 8 && 0 <= sampleRate * (channels * width) <= 1536000
  {
    assert channels == 1 || channels == 2;
    assert channels * width == width || channels * width == width + width;
    var block := channels * width;
    assert sampleRate * block <= sampleRate * 8 by { assert sampleRate * (8 - block) >= 0; }
  }

  lemma {:induction false} ParsesFormat(e: Encoding, sampleRate: int, channels: int)
    requires 8000 <= sampleRate <= 192000 && 1 <= channels <= 2
    ensures Supported(FormatOf(e, sampleRate, channels))
    ensures ParseFormat(FormatPayload(e, sampleRate, channels)) == Ok(FormatOf(e, sampleRate, channels))
  {
    var p, block, tag := FormatPayload(e, sampleRate, channels), channels * Width(e), if e.Float32? then 3 else 1;
    var bits := Width(e) * 8;
    BlockBounds(sampleRate, channels, Width(e));
    StandsIs(p, 0, p, 3);
    StandsApart(p, 0, U16(tag),
                U16(channels) + (U32(sampleRate) + (U32(sampleRate * block) + (U16(block) + U16(bits)))));
    StandsApart(p, 2, U16(channels), U32(sampleRate) + (U32(sampleRate * block) + (U16(block) + U16(bits))));
    StandsApart(p, 4, U32(sampleRate), U32(sampleRate * block) + (U16(block) + U16(bits)));
    StandsApart(p, 8, U32(sampleRate * block), U16(block) + U16(bits));
    StandsApart(p, 12, U16(block), U16(bits));
    ReadsU16(p, 0, tag);
    ReadsU16(p, 2, channels);
    ReadsU32(p, 4, sampleRate);
    ReadsU32(p, 8, sampleRate * block);
    ReadsU16(p, 12, block);
    ReadsU16(p, 14, bits);
    FormatIsSupported(e, sampleRate, channels);
    assert ReadU16(p, 14) / 8 == Width(e);
  }

  lemma FormatIsSupported(e: Encoding, sampleRate: int, channels: int)
    requires 8000 <= sampleRate <= 192000 && 1 <= channels <= 2
    ensures Supported(FormatOf(e, sampleRate, channels))
    ensures FormatOf(e, sampleRate, channels).bitsPerSample / 8 == Width(e)
    ensures IsPcm(FormatOf(e, sampleRate, channels)) <==> !e.Float32?
  {
    match e case Pcm8 => case Pcm16 => case Pcm24 => case Pcm32 => case Float32 =>
  }

  // ---------------------------------------------------------------- samples

  /** One sample, wherever it stands. */
  lemma {:induction false} SampleComesBack(floats: int -> Option<real>, e: Encoding, f: WavFormat, data: seq<Byte>,
                                           offset: nat, n: int)
    requires IsSample(e, n) && f.tag == (if e.Float32? then 3 else 1) && f.bitsPerSample == Width(e) * 8
    requires StandsAt(data, offset, SampleBytes(e, n))
    ensures offset + BytesPerSample(f) <= |data| && DecodeSample(floats, f, data, offset) == Meaning(floats, e, n)
  {
    var p := Pattern(e, n);
    StandsIs(data, offset, SampleBytes(e, n), 3);
    match e
    case Pcm8 => assert data[offset + 0] == SampleBytes(e, n)[0];
    case Pcm16 => ReadsU16(data, offset, p);
    case Pcm24 =>
      ReadsThree(data, offset, p, SampleBytes(e, n));
    case Pcm32 => ReadsU32(data, offset, p);
    case Float32 => ReadsU32(data, offset, p);
  }

  lemma {:induction false} ReadsThree(data: seq<Byte>, offset: nat, p: int, part: seq<Byte>)
    requires 0 <= p < 0x100_0000 && part == U16(p % 0x10000) + [p / 0x10000] && StandsAt(data, offset, part)
    ensures offset + 3 <= |data| && ReadU16(data, offset) + 0x10000 * (data[offset + 2] as int) == p
  {
    var high: seq<Byte> := [p / 0x10000];
    StandsApart(data, offset, U16(p % 0x10000), high);
    ReadsU16(data, offset, p % 0x10000);
    StandsIs(data, offset, part, 3);
    assert data[offset + 2] == part[2];
  }

  lemma {:induction false} DataSize(e: Encoding, samples: seq<int>)
    requires AllSamples(e, samples)
    ensures |Data(e, samples)| == |samples| * Width(e)
    decreases |samples|
  {
    if samples != [] {
      DataSize(e, samples[..|samples| - 1]);
      OneMore(|samples|, Width(e));
    }
  }

  lemma OneMore(n: nat, width: nat)
    requires n > 0
    ensures (n - 1) * width + width == n * width
  {
  }

  /** Longer data begins with the shorter. */
  lemma {:induction false} DataBegins(e: Encoding, samples: seq<int>, count: nat)
    requires AllSamples(e, samples) && count <= |samples|
    ensures AllSamples(e, samples[..count]) && Data(e, samples[..count]) <= Data(e, samples)
    decreases |samples|
  {
    if count < |samples| {
      assert samples[..|samples| - 1][..count] == samples[..count];
      DataBegins(e, samples[..|samples| - 1], count);
    } else {
      assert samples[..count] == samples;
    }
  }

  lemma {:induction false} LastStands(e: Encoding, samples: seq<int>, i: nat)
    requires AllSamples(e, samples) && i < |samples|
    ensures StandsAt(Data(e, samples), i * Width(e), SampleBytes(e, samples[i]))
  {
    var upTo := samples[..i + 1];
    DataBegins(e, samples, i + 1);
    assert upTo[..|upTo| - 1] == samples[..i] && upTo[|upTo| - 1] == samples[i];
    DataSize(e, samples[..i]);
    var begin, part := i * Width(e), SampleBytes(e, samples[i]);
    var data, earlier := Data(e, samples), Data(e, samples[..i]);
    assert earlier + part <= data;
    StandsIs(data, begin, part, 3);
    forall k | 0 <= k < |part| ensures begin + k < |data| && data[begin + k] == part[k] {
      assert (earlier + part)[begin + k] == part[k];
    }
  }

  /** The bytes of the first samples are there. */
  lemma {:induction false} DataReaches(e: Encoding, samples: seq<int>, count: nat)
    requires AllSamples(e, samples) && count <= |samples|
    ensures count * Width(e) <= |Data(e, samples)|
  {
    DataBegins(e, samples, count);
    DataSize(e, samples[..count]);
  }

  /** The meanings of the first samples, if all are finite. */
  function Meanings(floats: int -> Option<real>, e: Encoding, samples: seq<int>, count: nat): (r: Option<seq<real>>)
    requires count <= |samples|
    ensures r.Some? ==> |r.value| == count
  {
    if count == 0 then Some([])
    else
      var before, last := Meanings(floats, e, samples, count - 1), Meaning(floats, e, samples[count - 1]);
      if before.None? || last.None? then None else Some(before.value + [last.value])
  }

  lemma {:induction false} SamplesComeBack(floats: int -> Option<real>, e: Encoding, f: WavFormat, samples: seq<int>,
                                           count: nat)
    requires AllSamples(e, samples) && count <= |samples|
    requires f.tag == (if e.Float32? then 3 else 1) && f.bitsPerSample == Width(e) * 8
    ensures BytesPerSample(f) == Width(e) && count * BytesPerSample(f) <= |Data(e, samples)|
    ensures var r := Meanings(floats, e, samples, count);
      SamplesOf(floats, f, Data(e, samples), count) == if r.Some? then Ok(r.value) else Err(SampleNonFinite)
    decreases count
  {
    DataReaches(e, samples, count);
    if count > 0 {
      SamplesComeBack(floats, e, f, samples, count - 1);
      SampleOfData(floats, e, f, samples, count - 1);
    }
  }

  lemma {:induction false} SampleOfData(floats: int -> Option<real>, e: Encoding, f: WavFormat, samples: seq<int>,
                                        i: nat)
    requires AllSamples(e, samples) && i < |samples|
    requires f.tag == (if e.Float32? then 3 else 1) && f.bitsPerSample == Width(e) * 8
    ensures BytesPerSample(f) == Width(e) && i * BytesPerSample(f) + BytesPerSample(f) <= |Data(e, samples)|
    ensures DecodeSample(floats, f, Data(e, samples), i * BytesPerSample(f)) == Meaning(floats, e, samples[i])
  {
    LastStands(e, samples, i);
    SampleComesBack(floats, e, f, Data(e, samples), i * Width(e), samples[i]);
  }

  // ---------------------------------------------------------------- whole files

  ghost function FileChunks(e: Encoding, sampleRate: int, channels: int, samples: seq<int>, before: seq<Chunk>,
                            between: seq<Chunk>, after: seq<Chunk>, pad: Byte): seq<Chunk>
    requires 8000 <= sampleRate <= 192000 && 1 <= channels <= 2 && AllSamples(e, samples)
  {
    before + ([Chunk(FMT, FormatPayload(e, sampleRate, channels), pad)]
              + (between + ([Chunk(DATA, Data(e, samples), pad)] + after)))
  }

  lemma {:induction false} FileIsLarger(chunks: seq<Chunk>, i: nat)
    requires ValidChunks(chunks) && i < |chunks|
    ensures |chunks[i].payload| <= |WrittenAll(chunks)|
  {
    if i > 0 { FileIsLarger(chunks[1..], i - 1); }
  }

  lemma {:induction false} TakesOne(found: Found, c: Chunk, next: Found, rest: seq<Chunk>)
    requires TakeChunk(found, c.tag, c.payload) == Ok(next)
    ensures TakeAll(found, [c] + rest) == TakeAll(next, rest)
  {
    assert ([c] + rest)[1..] == rest;
  }

  lemma {:induction false} FindsBoth(e: Encoding, sampleRate: int, channels: int, samples: seq<int>, before: seq<Chunk>,
                                     between: seq<Chunk>, after: seq<Chunk>, pad: Byte)
    requires 8000 <= sampleRate <= 192000 && 1 <= channels <= 2 && AllSamples(e, samples)
    requires Unknown(before) && Unknown(between) && Unknown(after)
    ensures Supported(FormatOf(e, sampleRate, channels))
    ensures TakeAll(NOTHING, FileChunks(e, sampleRate, channels, samples, before, between, after, pad))
         == Ok(Found(Some(FormatOf(e, sampleRate, channels)), Some(Data(e, samples))))
  {
    ParsesFormat(e, sampleRate, channels);
    var format, data := Chunk(FMT, FormatPayload(e, sampleRate, channels), pad), Chunk(DATA, Data(e, samples), pad);
    var one := NOTHING.(format := Some(FormatOf(e, sampleRate, channels)));
    var two := one.(data := Some(Data(e, samples)));
    TakesInTurn(NOTHING, before, [format] + (between + ([data] + after)));
    UnknownChangeNothing(NOTHING, before);
    TakeChunkIs(NOTHING, FMT, format.payload, 3);
    TakesOne(NOTHING, format, one, between + ([data] + after));
    TakesInTurn(one, between, [data] + after);
    UnknownChangeNothing(one, between);
    TakeChunkIs(one, DATA, data.payload, 3);
    TakesOne(one, data, two, after);
    UnknownChangeNothing(two, after);
  }

  /** The clip of the meanings, or the report of a sample that is not finite. */
  function ClipOf(floats: int -> Option<real>, e: Encoding, sampleRate: int, channels: int,
                  samples: seq<int>): Result<Clip, WavError>
    requires channels > 0
  {
    var r := Meanings(floats, e, samples, |samples|);
    if r.Some? then Ok(Clip(sampleRate, channels, |samples| / channels, r.value)) else Err(SampleNonFinite)
  }

  lemma {:induction false} FinishesWritten(floats: int -> Option<real>, e: Encoding, sampleRate: int, channels: int,
                                           samples: seq<int>)
    requires 8000 <= sampleRate <= 192000 && 1 <= channels <= 2 && AllSamples(e, samples)
    requires samples != [] && |samples| % channels == 0 && |samples| <= MAX_DECODED_BYTES / 4
    ensures Supported(FormatOf(e, sampleRate, channels))
    ensures Finish(floats, Found(Some(FormatOf(e, sampleRate, channels)), Some(Data(e, samples))))
         == ClipOf(floats, e, sampleRate, channels, samples)
  {
    FormatIsSupported(e, sampleRate, channels);
    var f: WavFormat := FormatOf(e, sampleRate, channels);
    DataSize(e, samples);
    FramesOfSamples(|samples|, channels, Width(e));
    SamplesComeBack(floats, e, f, samples, |samples|);
  }

  lemma FramesOfSamples(count: nat, channels: int, width: nat)
    requires 1 <= channels <= 2 && count % channels == 0 && 0 < count <= MAX_DECODED_BYTES / 4 && 1 <= width <= 4
    ensures count * width > 0 && channels * width > 0
    ensures count * width % (channels * width) == 0 && count * width / (channels * width) == count / channels
    ensures count / channels * channels == count && count / channels <= MAX_DECODED_BYTES / (channels * 4)
  {
    if channels == 1 { FramesAreWhole(count, count, 1, width); } else { FramesAreWhole(count, count / 2, 2, width); }
  }

  lemma FramesAreWhole(count: nat, frames: nat, channels: int, width: nat)
    requires 1 <= channels <= 2 && count == frames * channels && 0 < count && 1 <= width <= 4
    ensures count * width > 0 && channels * width > 0
    ensures count * width % (channels * width) == 0 && count * width / (channels * width) == frames
  {
    match width {
      case 1 =>
      case 2 =>
      case 3 =>
      case _ => assert width == 4;
    }
  }

  /** The canonical file of samples in any encoding, here with unknown chunks anywhere and trailing bytes, decodes to
      exactly those samples; only a float that is not finite is reported. */
  lemma {:induction false} DecodingInvertsWriting(floats: int -> Option<real>, e: Encoding, sampleRate: int,
                                                  channels: int, samples: seq<int>, before: seq<Chunk>,
                                                  between: seq<Chunk>, after: seq<Chunk>, pad: Byte,
                                                  trailing: seq<Byte>)
    requires 8000 <= sampleRate <= 192000 && 1 <= channels <= 2 && AllSamples(e, samples)
    requires samples != [] && |samples| % channels == 0
    requires Unknown(before) && Unknown(between) && Unknown(after)
    requires var chunks := FileChunks(e, sampleRate, channels, samples, before, between, after, pad);
      ValidChunks(chunks) && |WrittenAll(chunks)| + 4 < 0x1_0000_0000 && |Riff(chunks, trailing)| <= MAX_ENCODED_BYTES
    ensures Decoded(floats, Riff(FileChunks(e, sampleRate, channels, samples, before, between, after, pad), trailing))
         == ClipOf(floats, e, sampleRate, channels, samples)
  {
    var chunks := FileChunks(e, sampleRate, channels, samples, before, between, after, pad);
    FileIsLarger(chunks, |before| + 1 + |between|);
    DataSize(e, samples);
    FewSamples(|samples|, Width(e));
    DecodesChunks(floats, chunks, trailing);
    FindsBoth(e, sampleRate, channels, samples, before, between, after, pad);
    FinishesWritten(floats, e, sampleRate, channels, samples);
  }

  lemma FewSamples(count: nat, width: nat)
    requires 1 <= width <= 4 && count * width <= MAX_ENCODED_BYTES
    ensures count <= MAX_DECODED_BYTES / 4
  {
    assert count <= count * width;
  }

  // ---------------------------------------------------------------- which containers decode

  /** A format payload the decoder supports: 8, 16, 24 or 32 bits of PCM or 32 bits of float, one or two channels, 8
      to 192 kHz, and block and byte rate that follow from these. */
  predicate GoodFormat(p: seq<Byte>) {
    |p| >= 16 &&
    var tag, channels, rate := ReadU16(p, 0), ReadU16(p, 2), ReadU32(p, 4);
    var byteRate, block, bits := ReadU32(p, 8), ReadU16(p, 12), ReadU16(p, 14);
    && (if tag == 1 then bits == 8 || bits == 16 || bits == 24 || bits == 32 else tag == 3 && bits == 32)
    && 1 <= channels <= 2 && 8000 <= rate <= 192000
    && block == channels * (bits / 8) && byteRate == rate * block
  }

  lemma ParsesExactly(p: seq<Byte>)
    requires |p| >= 16
    ensures ParseFormat(p).Ok? <==> GoodFormat(p)
    ensures ParseFormat(p).Ok? ==>
      ParseFormat(p).value == RawFormat(ReadU16(p, 0), ReadU16(p, 2), ReadU32(p, 4), ReadU16(p, 12), ReadU16(p, 14))
    ensures ParseFormat(p).Err? ==> ParseFormat(p).error == FormatUnsupported
  {
  }

  /** How many chunks have this tag. */
  function Tagged(chunks: seq<Chunk>, tag: seq<Byte>): nat {
    if chunks == [] then 0 else (if chunks[0].tag == tag then 1 else 0) + Tagged(chunks[1..], tag)
  }

  predicate GoodFormats(chunks: seq<Chunk>) {
    forall i :: 0 <= i < |chunks| && chunks[i].tag == FMT ==> GoodFormat(chunks[i].payload)
  }

  function Held(found: Found, tag: seq<Byte>): nat {
    if (tag == FMT && found.format.Some?) || (tag == DATA && found.data.Some?) then 1 else 0
  }

  /** What taking the chunks finds: the format and the data of the chunks so tagged. */
  ghost predicate Finds(found: Found, chunks: seq<Chunk>, r: Found) {
    && (r.format.Some? <==> Held(found, FMT) + Tagged(chunks, FMT) == 1)
    && (r.data.Some? <==> Held(found, DATA) + Tagged(chunks, DATA) == 1)
    && (found.format.Some? ==> r.format == found.format) && (found.data.Some? ==> r.data == found.data)
    && forall i :: 0 <= i < |chunks| ==>
      && (chunks[i].tag == FMT ==> |chunks[i].payload| >= 16 && ParseFormat(chunks[i].payload).Ok?
                                   && r.format == Some(ParseFormat(chunks[i].payload).value))
      && (chunks[i].tag == DATA ==> r.data == Some(chunks[i].payload))
  }

  /** Chunks are taken without a report exactly when at most one is a format, a good one, and at most one is data. */
  lemma {:induction false} TakesExactly(found: Found, chunks: seq<Chunk>)
    ensures var r := TakeAll(found, chunks);
      && (r.Ok? <==>
            && Held(found, FMT) + Tagged(chunks, FMT) <= 1 && Held(found, DATA) + Tagged(chunks, DATA) <= 1
            && GoodFormats(chunks))
      && (r.Ok? ==> Finds(found, chunks, r.value))
    decreases |chunks|
  {
    if chunks != [] {
      var c := chunks[0];
      TakesOneExactly(found, c);
      assert GoodFormats(chunks) <==> (c.tag == FMT ==> GoodFormat(c.payload)) && GoodFormats(chunks[1..]) by {
        assert forall i :: 0 <= i < |chunks[1..]| ==> chunks[1..][i] == chunks[i + 1];
      }
      var taken := TakeChunk(found, c.tag, c.payload);
      if taken.Ok? {
        TakesExactly(taken.value, chunks[1..]);
        if TakeAll(found, chunks).Ok? { FindsFirst(found, chunks, taken.value, TakeAll(found, chunks).value); }
      }
    }
  }

  lemma TakesOneExactly(found: Found, c: Chunk)
    ensures var r := TakeChunk(found, c.tag, c.payload);
      && (r.Ok? <==>
            && (c.tag == FMT ==> found.format.None? && GoodFormat(c.payload))
            && (c.tag == DATA ==> found.data.None?))
      && (r.Ok? ==>
            && (if c.tag == FMT then |c.payload| >= 16 && ParseFormat(c.payload).Ok?
                                     && r.value.format == Some(ParseFormat(c.payload).value)
                else r.value.format == found.format)
            && r.value.data == if c.tag == DATA then Some(c.payload) else found.data)
  {
    TakeChunkIs(found, c.tag, c.payload, 3);
    if |c.payload| >= 16 { ParsesExactly(c.payload); }
    assert FMT[0] != DATA[0];
  }

  lemma FindsFirst(found: Found, chunks: seq<Chunk>, next: Found, r: Found)
    requires chunks != [] && TakeChunk(found, chunks[0].tag, chunks[0].payload) == Ok(next)
    requires Finds(next, chunks[1..], r)
    ensures Finds(found, chunks, r)
  {
    var c := chunks[0];
    TakesOneExactly(found, c);
    assert FMT[0] != DATA[0];
    forall i | 0 <= i < |chunks|
      ensures chunks[i].tag == FMT ==> |chunks[i].payload| >= 16 && ParseFormat(chunks[i].payload).Ok?
                                       && r.format == Some(ParseFormat(chunks[i].payload).value)
      ensures chunks[i].tag == DATA ==> r.data == Some(chunks[i].payload)
    {
      if i > 0 { assert chunks[1..][i - 1] == chunks[i]; }
    }
  }

  /** All samples of the data are finite. */
  ghost predicate AllFinite(floats: int -> Option<real>, f: WavFormat, data: seq<Byte>, count: nat)
    requires count * BytesPerSample(f) <= |data|
  {
    f.tag == 3 ==> forall i: nat :: i < count && 4 * i + 4 <= |data| ==> floats(ReadU32(data, 4 * i)).Some?
  }

  lemma {:induction false} SamplesExactly(floats: int -> Option<real>, f: WavFormat, data: seq<Byte>, count: nat)
    requires count * BytesPerSample(f) <= |data|
    ensures SamplesOf(floats, f, data, count).Ok? <==> AllFinite(floats, f, data, count)
    decreases count
  {
    if count > 0 {
      SamplesExactly(floats, f, data, count - 1);
      if f.tag == 3 { assert (count - 1) * BytesPerSample(f) == 4 * (count - 1); }
    }
  }

  /** A container of chunks within the size limit decodes exactly when it has one format chunk, a good one, and one data
      chunk, whose bytes are whole frames, at least one, and whose floats are finite. */
  lemma {:induction false} ContainerDecodesExactly(floats: int -> Option<real>, chunks: seq<Chunk>,
                                                   trailing: seq<Byte>)
    requires ValidChunks(chunks) && |WrittenAll(chunks)| + 4 < 0x1_0000_0000
    requires |Riff(chunks, trailing)| <= 64 * 1024 * 1024
    ensures Decoded(floats, Riff(chunks, trailing)).Ok? <==>
      && Tagged(chunks, FMT) == 1 && Tagged(chunks, DATA) == 1 && GoodFormats(chunks)
      && TakeAll(NOTHING, chunks).Ok?
      && var found := TakeAll(NOTHING, chunks).value;
      && found.format.Some? && found.data.Some? && WholeFrames(floats, found.format.value, found.data.value)
    ensures TakeAll(NOTHING, chunks).Ok? ==> Finds(NOTHING, chunks, TakeAll(NOTHING, chunks).value)
  {
    DecodesChunks(floats, chunks, trailing);
    TakesExactly(NOTHING, chunks);
    if TakeAll(NOTHING, chunks).Ok? {
      var found := TakeAll(NOTHING, chunks).value;
      DataIsSmaller(chunks, trailing);
      if found.format.Some? && found.data.Some? { FinishesExactly(floats, found); }
    }
  }

  ghost predicate WholeFrames(floats: int -> Option<real>, f: WavFormat, data: seq<Byte>) {
    && data != [] && f.blockAlign > 0 && |data| % f.blockAlign == 0
    && (f.tag == 3 ==> forall i: nat :: 4 * i + 4 <= |data| ==> floats(ReadU32(data, 4 * i)).Some?)
  }

  lemma {:induction false} DataIsSmaller(chunks: seq<Chunk>, trailing: seq<Byte>)
    requires ValidChunks(chunks) && |WrittenAll(chunks)| + 4 < 0x1_0000_0000 && TakeAll(NOTHING, chunks).Ok?
    ensures TakeAll(NOTHING, chunks).value.data.Some? ==>
      |TakeAll(NOTHING, chunks).value.data.value| <= |Riff(chunks, trailing)|
  {
    TakesExactly(NOTHING, chunks);
    if Tagged(chunks, DATA) == 1 {
      var i := PlaceOf(chunks, DATA);
      FileIsLarger(chunks, i);
    }
  }

  lemma {:induction false} PlaceOf(chunks: seq<Chunk>, tag: seq<Byte>) returns (i: nat)
    requires Tagged(chunks, tag) > 0
    ensures i < |chunks| && chunks[i].tag == tag
    decreases |chunks|
  {
    if chunks[0].tag == tag {
      i := 0;
    } else {
      var j := PlaceOf(chunks[1..], tag);
      i := j + 1;
    }
  }

  lemma {:induction false} FinishesExactly(floats: int -> Option<real>, found: Found)
    requires found.format.Some? && found.data.Some? && |found.data.value| <= 64 * 1024 * 1024
    ensures Finish(floats, found).Ok? <==> WholeFrames(floats, found.format.value, found.data.value)
  {
    var f, data := found.format.value, found.data.value;
    ClipChecksAreRedundant(floats, found);
    if data != [] && f.blockAlign > 0 && |data| % f.blockAlign == 0 {
      FramesFill(f, |data|);
      var count := |data| / f.blockAlign * f.channels;
      FewFrames(f.channels, BytesPerSample(f), |data| / f.blockAlign, |data|);
      SamplesExactly(floats, f, data, count);
      if f.tag == 3 { assert count * 4 == |data|; }
    }
  }

  lemma FewFrames(channels: int, width: nat, frames: int, length: nat)
    requires 1 <= channels <= 2 && 1 <= width <= 4 && 0 <= frames && length <= 64 * 1024 * 1024
    requires frames * channels * width == length
    ensures frames <= MAX_DECODED_BYTES / (channels * 4)
  {
    assert frames * channels <= frames * channels * width;
  }
}
