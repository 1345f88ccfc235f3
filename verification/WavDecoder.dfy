/**
 The RIFF/WAVE decoder, for arbitrary bytes: the walk over the chunks and the samples it yields.  Samples are exact
 numbers; what the four bytes of an IEEE float denote is not looked into.
 */
module WavDecoder {
  import opened Wrappers
  import opened Placement
  import opened LittleEndian

  const MAX_ENCODED_BYTES := 64 * 1024 * 1024
  const MAX_DECODED_BYTES := 256 * 1024 * 1024

  datatype WavError =
    | EncodedLimit | ContainerInvalid | RiffSizeInvalid | ChunkTruncated | ChunkSizeInvalid | FormatInvalid
    | FormatUnsupported | DataDuplicate | ChunkPaddingInvalid | RequiredChunkMissing | FrameAlignmentInvalid
    | DecodedLimit | SampleNonFinite | ClipRateInvalid | ClipChannelsInvalid | ClipFramesInvalid

  // ---------------------------------------------------------------- chunks

  const RIFF: seq<Byte> := [0x52, 0x49, 0x46, 0x46]
  const WAVE: seq<Byte> := [0x57, 0x41, 0x56, 0x45]
  const FMT: seq<Byte> := [0x66, 0x6D, 0x74, 0x20]
  const DATA: seq<Byte> := [0x64, 0x61, 0x74, 0x61]

  method HasTag(data: seq<Byte>, offset: nat, tag: seq<Byte>) returns (r: bool)
    ensures r <==> offset + |tag| <= |data| && data[offset..offset + |tag|] == tag
  {
    if offset > |data| || |tag| > |data| - offset { return false; }
    for index := 0 to |tag|
      invariant forall i :: 0 <= i < index ==> data[offset + i] == tag[i]
    {
      if data[offset + index] != tag[index] {
        assert data[offset..offset + |tag|][index] != tag[index];
        return false;
      }
    }
    r := true;
  }

  datatype RawFormat = RawFormat(tag: int, channels: int, sampleRate: int, blockAlign: int, bitsPerSample: int)

  predicate IsPcm(f: RawFormat) {
    f.tag == 1 && (f.bitsPerSample == 8 || f.bitsPerSample == 16 || f.bitsPerSample == 24 || f.bitsPerSample == 32)
  }

  predicate Supported(f: RawFormat) {
    && (IsPcm(f) || (f.tag == 3 && f.bitsPerSample == 32))
    && 1 <= f.channels <= 2 && 8000 <= f.sampleRate <= 192000
    && f.blockAlign == f.channels * (f.bitsPerSample / 8)
  }

  type WavFormat = f: RawFormat | Supported(f) witness RawFormat(1, 1, 8000, 1, 8)

  /** A format chunk's payload, if it is one the decoder supports. */
  function ParseFormat(p: seq<Byte>): Result<WavFormat, WavError>
    requires |p| >= 16
  {
    var f := RawFormat(ReadU16(p, 0), ReadU16(p, 2), ReadU32(p, 4), ReadU16(p, 12), ReadU16(p, 14));
    var byteRate := ReadU32(p, 8);
    if (!IsPcm(f) && !(f.tag == 3 && f.bitsPerSample == 32)) || f.channels < 1 || f.channels > 2 || f.sampleRate < 8000
       || f.sampleRate > 192000 || f.bitsPerSample % 8 != 0 || f.blockAlign != f.channels * (f.bitsPerSample / 8)
       || byteRate != f.sampleRate * (f.channels * (f.bitsPerSample / 8))
    then Err(FormatUnsupported) else Ok(f)
  }

  /** What the walk has found so far. */
  datatype Found = Found(format: Option<WavFormat>, data: Option<seq<Byte>>)

  const NOTHING := Found(None, None)

  /** One more chunk.  The layers only keep the cases out of proofs that do not look at them. */
  function TakeChunk(found: Found, tag: seq<Byte>, payload: seq<Byte>, layers: nat := 3): Result<Found, WavError>
    decreases |payload|, layers
  {
    if layers > 0 then TakeChunk(found, tag, payload, layers - 1)
    else if tag == FMT then
      if found.format.Some? || |payload| < 16 then Err(FormatInvalid)
      else match ParseFormat(payload)
           case Err(error) => Err(error)
           case Ok(format) => Ok(found.(format := Some(format)))
    else if tag == DATA then
      if found.data.Some? then Err(DataDuplicate) else Ok(found.(data := Some(payload)))
    else Ok(found)
  }

  lemma {:induction false} TakeChunkIs(found: Found, tag: seq<Byte>, payload: seq<Byte>, layers: nat)
    ensures TakeChunk(found, tag, payload, layers) == TakeChunk(found, tag, payload, 0)
    decreases layers
  {
    if layers > 0 { TakeChunkIs(found, tag, payload, layers - 1); }
  }

  function WalkChunks(encoded: seq<Byte>, end: nat, cursor: nat, found: Found): Result<Found, WavError>
    requires end <= |encoded|
    decreases end - cursor
  {
    if cursor >= end then Ok(found)
    else if end - cursor < 8 then Err(ChunkTruncated)
    else
      var size, payload := ReadU32(encoded, cursor + 4), cursor + 8;
      if size > end - payload then Err(ChunkSizeInvalid)
      else
        match TakeChunk(found, encoded[cursor..cursor + 4], encoded[payload..payload + size])
        case Err(error) => Err(error)
        case Ok(next) =>
          if size + size % 2 > end - payload then Err(ChunkPaddingInvalid)
          else WalkChunks(encoded, end, payload + size + size % 2, next)
  }

  // ---------------------------------------------------------------- written chunks

  /** A chunk, with the byte that pads an odd payload. */
  datatype Chunk = Chunk(tag: seq<Byte>, payload: seq<Byte>, pad: Byte)

  predicate ValidChunk(c: Chunk) { |c.tag| == 4 && |c.payload| < 0x1_0000_0000 }

  function Padding(c: Chunk): seq<Byte> { if |c.payload| % 2 == 1 then [c.pad] else [] }

  function Written(c: Chunk): seq<Byte>
    requires ValidChunk(c)
  {
    c.tag + (U32(|c.payload|) + (c.payload + Padding(c)))
  }

  ghost predicate ValidChunks(chunks: seq<Chunk>) { forall i :: 0 <= i < |chunks| ==> ValidChunk(chunks[i]) }

  ghost function WrittenAll(chunks: seq<Chunk>): seq<Byte>
    requires ValidChunks(chunks)
  {
    if chunks == [] then [] else Written(chunks[0]) + WrittenAll(chunks[1..])
  }

  /** The chunks taken in turn. */
  ghost function TakeAll(found: Found, chunks: seq<Chunk>): Result<Found, WavError>
    decreases |chunks|
  {
    if chunks == [] then Ok(found)
    else match TakeChunk(found, chunks[0].tag, chunks[0].payload)
         case Err(error) => Err(error)
         case Ok(next) => TakeAll(next, chunks[1..])
  }

  /** Walking over one written chunk takes it. */
  lemma {:induction false} WalksOverChunk(encoded: seq<Byte>, end: nat, cursor: nat, found: Found, c: Chunk)
    requires ValidChunk(c) && StandsAt(encoded, cursor, Written(c)) && cursor + |Written(c)| <= end <= |encoded|
    ensures WalkChunks(encoded, end, cursor, found)
         == match TakeChunk(found, c.tag, c.payload)
            case Err(error) => Err(error)
            case Ok(next) => WalkChunks(encoded, end, cursor + |Written(c)|, next)
  {
    StandsApart(encoded, cursor, c.tag, U32(|c.payload|) + (c.payload + Padding(c)));
    StandsApart(encoded, cursor + 4, U32(|c.payload|), c.payload + Padding(c));
    StandsApart(encoded, cursor + 8, c.payload, Padding(c));
    StandsWithin(encoded, cursor, c.tag);
    StandsWithin(encoded, cursor + 8, c.payload);
    ReadsU32(encoded, cursor + 4, |c.payload|);
    assert |Padding(c)| == |c.payload| % 2;
  }

  lemma {:induction false} WalksOverAll(encoded: seq<Byte>, end: nat, cursor: nat, found: Found, chunks: seq<Chunk>)
    requires ValidChunks(chunks) && StandsAt(encoded, cursor, WrittenAll(chunks))
    requires cursor + |WrittenAll(chunks)| == end <= |encoded|
    ensures WalkChunks(encoded, end, cursor, found) == TakeAll(found, chunks)
    decreases |chunks|
  {
    if chunks != [] {
      var first, rest := chunks[0], chunks[1..];
      StandsApart(encoded, cursor, Written(first), WrittenAll(rest));
      WalksOverChunk(encoded, end, cursor, found, first);
      var taken := TakeChunk(found, first.tag, first.payload);
      if taken.Ok? { WalksOverAll(encoded, end, cursor + |Written(first)|, taken.value, rest); }
      TakesFirst(found, chunks);
    }
  }

  lemma TakesFirst(found: Found, chunks: seq<Chunk>)
    requires chunks != []
    ensures TakeAll(found, chunks)
         == match TakeChunk(found, chunks[0].tag, chunks[0].payload)
            case Err(error) => Err(error)
            case Ok(next) => TakeAll(next, chunks[1..])
  {
  }

  /** And whatever the walk accepts is a row of written chunks. */
  lemma {:induction false} WalkedIsWritten(encoded: seq<Byte>, end: nat, cursor: nat, found: Found)
    returns (chunks: seq<Chunk>)
    requires cursor <= end <= |encoded| && WalkChunks(encoded, end, cursor, found).Ok?
    ensures ValidChunks(chunks) && StandsAt(encoded, cursor, WrittenAll(chunks)) && cursor + |WrittenAll(chunks)| == end
    ensures TakeAll(found, chunks) == WalkChunks(encoded, end, cursor, found)
    decreases end - cursor
  {
    if cursor == end {
      chunks := [];
      StandsIs(encoded, cursor, WrittenAll(chunks), 3);
    } else {
      var c := ChunkAt(encoded, end, cursor);
      var next := TakeChunk(found, c.tag, c.payload).value;
      WalksOverChunk(encoded, end, cursor, found, c);
      var rest := WalkedIsWritten(encoded, end, cursor + |Written(c)|, next);
      chunks := [c] + rest;
      assert chunks[1..] == rest;
      StandsTogether(encoded, cursor, Written(c), WrittenAll(rest));
    }
  }

  lemma {:induction false} ChunkAt(encoded: seq<Byte>, end: nat, cursor: nat) returns (c: Chunk)
    requires cursor + 8 <= end <= |encoded|
    requires var size := ReadU32(encoded, cursor + 4); cursor + 8 + size + size % 2 <= end
    ensures ValidChunk(c) && StandsAt(encoded, cursor, Written(c))
    ensures var size := ReadU32(encoded, cursor + 4);
      c.tag == encoded[cursor..cursor + 4] && c.payload == encoded[cursor + 8..cursor + 8 + size]
          && |Written(c)| == 8 + size + size % 2
  {
    var size := ReadU32(encoded, cursor + 4);
    var payload := cursor + 8;
    c := Chunk(encoded[cursor..cursor + 4], encoded[payload..payload + size],
               if size % 2 == 1 then encoded[payload + size] else 0);
    BytesAreU32(encoded, cursor + 4);
    StandsIs(encoded, cursor, c.tag, 3);
    StandsIs(encoded, payload, c.payload, 3);
    StandsIs(encoded, payload + size, Padding(c), 3);
    StandsTogether(encoded, payload, c.payload, Padding(c));
    StandsTogether(encoded, cursor + 4, U32(size), c.payload + Padding(c));
    StandsTogether(encoded, cursor, c.tag, U32(size) + (c.payload + Padding(c)));
  }

  // ---------------------------------------------------------------- samples

  /** Two's complement. */
  function Signed(n: int, half: int): int { if n >= half then n - 2 * half else n }

  function BytesPerSample(f: WavFormat): (n: nat)
    ensures 1 <= n <= 4 && f.blockAlign == f.channels * n
  {
    f.bitsPerSample / 8
  }

  function DecodePcmSample(data: seq<Byte>, offset: nat, bits: int): real
    requires (bits == 8 || bits == 16 || bits == 24 || bits == 32) && offset + bits / 8 <= |data|
  {
    if bits == 8 then (data[offset] as real - 128.0) / 128.0
    else if bits == 16 then Signed(ReadU16(data, offset), 0x8000) as real / 32768.0
    else if bits == 24 then
      Signed(ReadU16(data, offset) + 0x10000 * (data[offset + 2] as int), 0x80_0000) as real / 8388608.0
    else Signed(ReadU32(data, offset), 0x8000_0000) as real / 2147483648.0
  }

  /** One sample; the bytes of an IEEE float may denote no finite number. */
  function DecodeSample(floats: int -> Option<real>, f: WavFormat, data: seq<Byte>, offset: nat): Option<real>
    requires offset + BytesPerSample(f) <= |data|
  {
    if f.tag == 3 then floats(ReadU32(data, offset)) else Some(DecodePcmSample(data, offset, f.bitsPerSample))
  }

  function SamplesOf(floats: int -> Option<real>, f: WavFormat, data: seq<Byte>,
                     count: nat): (r: Result<seq<real>, WavError>)
    requires count * BytesPerSample(f) <= |data|
    ensures r.Ok? ==> |r.value| == count
    ensures r.Err? ==> r.error == SampleNonFinite
  {
    if count == 0 then Ok([]) else
      match SamplesOf(floats, f, data, count - 1)
      case Err(error) => Err(error)
      case Ok(before) =>
        match DecodeSample(floats, f, data, (count - 1) * BytesPerSample(f))
        case None => Err(SampleNonFinite)
        case Some(sample) => Ok(before + [sample])
  }

  /** Whole frames fill the data with whole samples. */
  lemma FramesFill(f: WavFormat, length: nat)
    requires length % f.blockAlign == 0
    ensures f.blockAlign > 0 && length / f.blockAlign * f.channels * BytesPerSample(f) == length
    ensures length > 0 ==> length / f.blockAlign > 0
  {
    var frames, bytes := length / f.blockAlign, BytesPerSample(f);
    assert frames * f.blockAlign == length;
    if f.channels == 1 { assert frames * f.channels == frames; } else { assert frames * f.channels == 2 * frames; }
    FrameBytes(frames, f.channels, bytes, f.blockAlign);
  }

  lemma FrameBytes(frames: int, channels: int, bytes: int, align: int)
    requires align == channels * bytes
    ensures frames * channels * bytes == frames * align
  {
  }

  datatype Clip = Clip(sampleRate: int, channels: int, frameCount: int, samples: seq<real>)

  /** audio::AudioClip::create. */
  function CreateClip(sampleRate: int, channels: int, samples: seq<real>): Result<Clip, WavError> {
    if sampleRate < 8000 || sampleRate > 192000 then Err(ClipRateInvalid)
    else if channels != 1 && channels != 2 then Err(ClipChannelsInvalid)
    else if samples == [] || |samples| % channels != 0 then Err(ClipFramesInvalid)
    else if |samples| > MAX_DECODED_BYTES / 4 then Err(DecodedLimit)
    else Ok(Clip(sampleRate, channels, |samples| / channels, samples))
  }

  /** What is left to check, and the clip, once the chunks are found. */
  function Finish(floats: int -> Option<real>, found: Found): Result<Clip, WavError> {
    if found.format.None? || found.data.None? || found.data.value == [] then Err(RequiredChunkMissing)
    else
      var f, data := found.format.value, found.data.value;
      if |data| % f.blockAlign != 0 then Err(FrameAlignmentInvalid)
      else
        FramesFill(f, |data|);
        var frames := |data| / f.blockAlign;
        if frames > MAX_DECODED_BYTES / (f.channels * 4) then Err(DecodedLimit)
        else
          match SamplesOf(floats, f, data, frames * f.channels)
          case Err(error) => Err(error)
          case Ok(samples) => CreateClip(f.sampleRate, f.channels, samples)
  }

  function Decoded(floats: int -> Option<real>, encoded: seq<Byte>): Result<Clip, WavError> {
    if |encoded| > MAX_ENCODED_BYTES then Err(EncodedLimit)
    else if |encoded| < 12 || encoded[..4] != RIFF || encoded[8..12] != WAVE then Err(ContainerInvalid)
    else
      var riffSize := ReadU32(encoded, 4);
      if riffSize < 4 || riffSize + 8 > |encoded| then Err(RiffSizeInvalid)
      else
        match WalkChunks(encoded, riffSize + 8, 12, NOTHING)
        case Err(error) => Err(error)
        case Ok(found) => Finish(floats, found)
  }

  /** The clip's own checks never fail: the decoder has already made them. */
  lemma {:induction false} ClipChecksAreRedundant(floats: int -> Option<real>, found: Found)
    ensures Finish(floats, found).Err? ==>
      Finish(floats, found).error in {RequiredChunkMissing, FrameAlignmentInvalid, DecodedLimit, SampleNonFinite}
    ensures Finish(floats, found) == Err(DecodedLimit) ==>
      found.format.Some? && found.data.Some?
      && |found.data.value| / found.format.value.blockAlign > MAX_DECODED_BYTES / (found.format.value.channels * 4)
  {
    if found.format.Some? && found.data.Some? && found.data.value != [] {
      var f, data := found.format.value, found.data.value;
      if |data| % f.blockAlign == 0 {
        FramesFill(f, |data|);
        var frames := |data| / f.blockAlign;
        if frames <= MAX_DECODED_BYTES / (f.channels * 4) { SamplesFitClip(f.channels, frames); }
      }
    }
  }

  lemma SamplesFitClip(channels: int, frames: int)
    requires 1 <= channels <= 2 && frames <= MAX_DECODED_BYTES / (channels * 4)
    ensures frames * channels <= MAX_DECODED_BYTES / 4 && (frames * channels) % channels == 0
    ensures frames * channels / channels == frames
  {
    if channels == 1 { assert frames * channels == frames; } else { assert frames * channels == 2 * frames; }
  }

  method Walk(encoded: seq<Byte>, riffEnd: nat) returns (r: Result<Found, WavError>)
    requires 12 <= riffEnd <= |encoded|
    ensures r == WalkChunks(encoded, riffEnd, 12, NOTHING)
  {
    var found := NOTHING;
    var cursor := 12;
    while cursor < riffEnd
      invariant 12 <= cursor <= riffEnd
      invariant WalkChunks(encoded, riffEnd, 12, NOTHING) == WalkChunks(encoded, riffEnd, cursor, found)
    {
      if riffEnd - cursor < 8 { return Err(ChunkTruncated); }
      var chunkSize := ReadU32(encoded, cursor + 4);
      var payload := cursor + 8;
      if chunkSize > riffEnd - payload { return Err(ChunkSizeInvalid); }
      var next := Inspect(encoded, cursor, chunkSize, found);
      if next.Err? { return Err(next.error); }
      var paddedSize := chunkSize + chunkSize % 2;
      if paddedSize > riffEnd - payload { return Err(ChunkPaddingInvalid); }
      found, cursor := next.value, payload + paddedSize;
    }
    r := Ok(found);
  }

  method Inspect(encoded: seq<Byte>, cursor: nat, chunkSize: nat, found: Found) returns (r: Result<Found, WavError>)
    requires cursor + 8 + chunkSize <= |encoded|
    ensures r == TakeChunk(found, encoded[cursor..cursor + 4], encoded[cursor + 8..cursor + 8 + chunkSize])
  {
    var payload := encoded[cursor + 8..cursor + 8 + chunkSize];
    TakeChunkIs(found, encoded[cursor..cursor + 4], payload, 3);
    var isFormat := HasTag(encoded, cursor, FMT);
    if isFormat {
      if found.format.Some? || chunkSize < 16 { return Err(FormatInvalid); }
      var format := ParseFormat(payload);
      if format.Err? { return Err(format.error); }
      return Ok(found.(format := Some(format.value)));
    }
    var isData := HasTag(encoded, cursor, DATA);
    if isData {
      if found.data.Some? { return Err(DataDuplicate); }
      return Ok(found.(data := Some(payload)));
    }
    r := Ok(found);
  }

  method DecodeSamples(floats: int -> Option<real>, f: WavFormat, data: seq<Byte>, sampleCount: nat)
    returns (r: Result<seq<real>, WavError>)
    requires sampleCount * BytesPerSample(f) <= |data|
    ensures r == SamplesOf(floats, f, data, sampleCount)
  {
    var samples: seq<real> := [];
    for index := 0 to sampleCount
      invariant index * BytesPerSample(f) <= |data| && SamplesOf(floats, f, data, index) == Ok(samples)
    {
      OffsetGrows(index, sampleCount, BytesPerSample(f));
      var offset := index * BytesPerSample(f);
      var sample := DecodeSample(floats, f, data, offset);
      if sample == None {
        FailureStays(floats, f, data, index + 1, sampleCount);
        return Err(SampleNonFinite);
      }
      samples := samples + [sample.value];
    }
    r := Ok(samples);
  }

  lemma OffsetGrows(i: nat, n: nat, bytes: nat)
    requires i < n
    ensures i * bytes + bytes == (i + 1) * bytes <= n * bytes
  {
  }

  lemma {:induction false} FailureStays(floats: int -> Option<real>, f: WavFormat, data: seq<Byte>, few: nat, many: nat)
    requires few <= many && few * BytesPerSample(f) <= |data| && many * BytesPerSample(f) <= |data|
    requires SamplesOf(floats, f, data, few).Err?
    ensures SamplesOf(floats, f, data, many) == Err(SampleNonFinite)
    decreases many
  {
    if few < many {
      OffsetGrows(many - 1, many, BytesPerSample(f));
      FailureStays(floats, f, data, few, many - 1);
    }
  }

  /** Decodes arbitrary bytes: every read is in bounds and the walk ends. */
  method Decode(floats: int -> Option<real>, encoded: seq<Byte>) returns (r: Result<Clip, WavError>)
    ensures r == Decoded(floats, encoded)
  {
    if |encoded| > MAX_ENCODED_BYTES { return Err(EncodedLimit); }
    var isRiff := HasTag(encoded, 0, RIFF);
    var isWave := HasTag(encoded, 8, WAVE);
    if |encoded| < 12 || !isRiff || !isWave { return Err(ContainerInvalid); }
    var riffSize := ReadU32(encoded, 4);
    if riffSize < 4 || riffSize + 8 > |encoded| { return Err(RiffSizeInvalid); }
    var found := Walk(encoded, riffSize + 8);
    if found.Err? { return Err(found.error); }
    r := DecodeData(floats, found.value);
  }

  method DecodeData(floats: int -> Option<real>, found: Found) returns (r: Result<Clip, WavError>)
    ensures r == Finish(floats, found)
  {
    if found.format.None? || found.data.None? || found.data.value == [] { return Err(RequiredChunkMissing); }
    var f, data := found.format.value, found.data.value;
    if |data| % f.blockAlign != 0 { return Err(FrameAlignmentInvalid); }
    FramesFill(f, |data|);
    var frameCount := |data| / f.blockAlign;
    if frameCount > MAX_DECODED_BYTES / (f.channels * 4) { return Err(DecodedLimit); }
    var samples := DecodeSamples(floats, f, data, frameCount * f.channels);
    if samples.Err? { return Err(samples.error); }
    r := CreateClip(f.sampleRate, f.channels, samples.value);
  }

  // ---------------------------------------------------------------- decoding inverts writing

  /** A RIFF/WAVE container of these chunks, with whatever follows it. */
  ghost function Riff(chunks: seq<Chunk>, trailing: seq<Byte>): seq<Byte>
    requires ValidChunks(chunks) && |WrittenAll(chunks)| + 4 < 0x1_0000_0000
  {
    RIFF + (U32(|WrittenAll(chunks)| + 4) + (WAVE + (WrittenAll(chunks) + trailing)))
  }

  /** A container's decoding is decided by its chunks in turn. */
  lemma {:induction false} DecodesChunks(floats: int -> Option<real>, chunks: seq<Chunk>, trailing: seq<Byte>)
    requires ValidChunks(chunks) && |WrittenAll(chunks)| + 4 < 0x1_0000_0000
    requires |Riff(chunks, trailing)| <= MAX_ENCODED_BYTES
    ensures Decoded(floats, Riff(chunks, trailing))
         == match TakeAll(NOTHING, chunks) case Err(error) => Err(error) case Ok(found) => Finish(floats, found)
  {
    var encoded, body := Riff(chunks, trailing), WrittenAll(chunks);
    HeaderStands(encoded, body, trailing);
    WalksOverAll(encoded, 12 + |body|, 12, NOTHING, chunks);
  }

  /** A container's header reads back, and its body stands behind it. */
  lemma {:induction false} HeaderStands(encoded: seq<Byte>, body: seq<Byte>, trailing: seq<Byte>)
    requires |body| + 4 < 0x1_0000_0000 && encoded == RIFF + (U32(|body| + 4) + (WAVE + (body + trailing)))
    ensures |encoded| >= 12 + |body| && encoded[..4] == RIFF && encoded[8..12] == WAVE
    ensures ReadU32(encoded, 4) == |body| + 4 && StandsAt(encoded, 12, body)
  {
    StandsIs(encoded, 0, encoded, 3);
    StandsApart(encoded, 0, RIFF, U32(|body| + 4) + (WAVE + (body + trailing)));
    StandsApart(encoded, 4, U32(|body| + 4), WAVE + (body + trailing));
    StandsApart(encoded, 8, WAVE, body + trailing);
    StandsApart(encoded, 12, body, trailing);
    StandsWithin(encoded, 0, RIFF);
    StandsWithin(encoded, 8, WAVE);
    StandsWithin(encoded, 12, body);
    ReadsU32(encoded, 4, |body| + 4);
  }

  /** And only containers are decoded. */
  lemma {:induction false} OnlyRiffIsDecoded(floats: int -> Option<real>, encoded: seq<Byte>)
    returns (chunks: seq<Chunk>, trailing: seq<Byte>)
    requires Decoded(floats, encoded).Ok?
    ensures ValidChunks(chunks) && |WrittenAll(chunks)| + 4 < 0x1_0000_0000 && encoded == Riff(chunks, trailing)
    ensures TakeAll(NOTHING, chunks).Ok? && Finish(floats, TakeAll(NOTHING, chunks).value) == Decoded(floats, encoded)
  {
    var riffSize := ReadU32(encoded, 4);
    chunks := WalkedIsWritten(encoded, riffSize + 8, 12, NOTHING);
    trailing := encoded[riffSize + 8..];
    StandsWithin(encoded, 12, WrittenAll(chunks));
    BytesAreU32(encoded, 4);
    StandsWithin(encoded, 4, U32(riffSize));
    Reassemble(encoded, riffSize + 8);
  }

  lemma Reassemble(encoded: seq<Byte>, end: nat)
    requires 12 <= end <= |encoded|
    ensures encoded == encoded[..4] + (encoded[4..8] + (encoded[8..12] + (encoded[12..end] + encoded[end..])))
  {
  }

  lemma {:induction false} TakesInTurn(found: Found, a: seq<Chunk>, b: seq<Chunk>)
    ensures TakeAll(found, a + b)
        == match TakeAll(found, a) case Err(error) => Err(error) case Ok(next) => TakeAll(next, b)
    decreases |a|
  {
    if a == [] {
      assert a + b == b;
    } else {
      assert (a + b)[1..] == a[1..] + b;
      var taken := TakeChunk(found, a[0].tag, a[0].payload);
      if taken.Ok? { TakesInTurn(taken.value, a[1..], b); }
    }
  }

  ghost predicate Unknown(chunks: seq<Chunk>) {
    forall i :: 0 <= i < |chunks| ==> chunks[i].tag != FMT && chunks[i].tag != DATA
  }

  lemma {:induction false} UnknownChangeNothing(found: Found, chunks: seq<Chunk>)
    requires Unknown(chunks)
    ensures TakeAll(found, chunks) == Ok(found)
    decreases |chunks|
  {
    if chunks != [] {
      TakeChunkIs(found, chunks[0].tag, chunks[0].payload, 3);
      UnknownChangeNothing(found, chunks[1..]);
    }
  }

  /** Unknown chunks, wherever they are inserted, change neither the clip nor the error. */
  lemma {:induction false} UnknownChunksAreIgnored(floats: int -> Option<real>, before: seq<Chunk>,
                                                   unknown: seq<Chunk>, after: seq<Chunk>, trailing: seq<Byte>)
    requires ValidChunks(before + unknown + after) && ValidChunks(before + after) && Unknown(unknown)
    requires |WrittenAll(before + unknown + after)| + 4 < 0x1_0000_0000
    requires |WrittenAll(before + after)| + 4 < 0x1_0000_0000
    requires |Riff(before + unknown + after, trailing)| <= MAX_ENCODED_BYTES
    requires |Riff(before + after, trailing)| <= MAX_ENCODED_BYTES
    ensures Decoded(floats, Riff(before + unknown + after, trailing)) == Decoded(floats, Riff(before + after, trailing))
  {
    DecodesChunks(floats, before + unknown + after, trailing);
    DecodesChunks(floats, before + after, trailing);
    assert before + unknown + after == before + (unknown + after);
    TakesInTurn(NOTHING, before, unknown + after);
    TakesInTurn(NOTHING, before, after);
    if found :| TakeAll(NOTHING, before) == Ok(found) {
      TakesInTurn(found, unknown, after);
      UnknownChangeNothing(found, unknown);
    }
  }
}
