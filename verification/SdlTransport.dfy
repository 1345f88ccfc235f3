/**
 The device transport's accounting: which frames of the clip were handed to the stream, which were presented, and what
 is published about them.  What the device answers, and what its callback has counted at each reading, is an argument of
 every operation; the counts are whatever a racing callback left there.
 */
module SdlTransports {
  import opened Wrappers
  import opened WavDecoder

  const INT_MAX: int := 0x7FFF_FFFF
  const INT64_MAX: int := 0x7FFF_FFFF_FFFF_FFFF
  const ID_MODULUS: nat := 0x1_0000_0000_0000_0000

  datatype State = Empty | Stopped | Playing | Paused | Ended | Error

  datatype TransportError =
    | HandleRefused
    | DeviceRequestInvalid | GainInvalid | TargetQueueInvalid | LowWaterInvalid | NotEmpty
    | PlayInvalid | PauseInvalid | StopInvalid | SeekInvalid | SeekRange
    | ReplacementInvalid | ReplacementPosition | ReplacementMissing | InErrorState
    | OpenFailed | DeviceLost | FormatChanged | QueueQueryFailed | QueueWriteFailed
    | PauseFailed | ClearFailed | ResumeFailed

  // ---------------------------------------------------------------- configuration and frame arithmetic

  /** Only the default playback route is a request a device is opened for. */
  datatype DeviceRequest = DefaultPlayback | OtherDevice

  datatype AudioConfig = AudioConfig(request: DeviceRequest, targetQueueMs: nat, refillLowWaterMs: nat, gain: real)

  datatype Config = Config(targetQueueMs: nat, refillLowWaterMs: nat, gain: real)

  predicate IsConfig(config: Config) {
    10 <= config.refillLowWaterMs < config.targetQueueMs && 40 <= config.targetQueueMs <= 1000
        && 0.0 <= config.gain <= 1.0
  }

  /** Accepts exactly the usable configurations of the default route, and keeps them as they are. */
  function ValidateConfig(config: AudioConfig): (r: Result<Config, TransportError>)
    ensures var kept := Config(config.targetQueueMs, config.refillLowWaterMs, config.gain);
            r == Ok(kept) <==> config.request == DefaultPlayback && IsConfig(kept)
    ensures r.Ok? ==> IsConfig(r.value)
    ensures r == Err(LowWaterInvalid) ==> 40 <= config.targetQueueMs <= 1000
    ensures r == Err(GainInvalid) ==> 10 <= config.refillLowWaterMs < config.targetQueueMs
  {
    if config.request != DefaultPlayback then Err(DeviceRequestInvalid)
    else if config.targetQueueMs < 40 || config.targetQueueMs > 1000 then Err(TargetQueueInvalid)
    else if config.refillLowWaterMs < 10 || config.refillLowWaterMs >= config.targetQueueMs then Err(LowWaterInvalid)
    else if config.gain < 0.0 || config.gain > 1.0 then Err(GainInvalid)
    else Ok(Config(config.targetQueueMs, config.refillLowWaterMs, config.gain))
  }

  /** What AudioClip::create guarantees. */
  predicate IsClip(clip: Clip) {
    && 8000 <= clip.sampleRate <= 192000 && (clip.channels == 1 || clip.channels == 2)
    && 0 < clip.frameCount && |clip.samples| == clip.frameCount * clip.channels
    && |clip.samples| <= MAX_DECODED_BYTES / 4
  }

  lemma CreatedIsClip(sampleRate: int, channels: int, samples: seq<real>)
    ensures CreateClip(sampleRate, channels, samples).Ok? ==> IsClip(CreateClip(sampleRate, channels, samples).value)
  {
    if CreateClip(sampleRate, channels, samples).Ok? {
      assert |samples| == (|samples| / channels) * channels;
    }
  }

  function Larger(a: int, b: int): int { if a < b then b else a }

  function Smaller(a: int, b: int): int { if b < a then b else a }

  function QueueFrames(clip: Clip, ms: nat): int { Larger(1, clip.sampleRate * ms / 1000) }

  /** How many frames one refill queues, from how many are queued. */
  function RefillFrames(clip: Clip, config: Config, submitted: int, queued: int): int {
    Smaller(clip.frameCount - submitted, QueueFrames(clip, config.targetQueueMs) - queued)
  }

  lemma QueueBounds(sampleRate: int, low: nat, target: nat)
    requires 0 < sampleRate <= 192000 && low < target <= 1000
    ensures sampleRate * low / 1000 <= sampleRate * target / 1000 <= 192000
  {
    Product(sampleRate, low, sampleRate, target);
    Product(sampleRate, target, 192000, 1000);
    Division(sampleRate * low, sampleRate * target);
    Division(sampleRate * target, 192000 * 1000);
  }

  lemma Division(a: int, b: int)
    requires 0 <= a <= b
    ensures a / 1000 <= b / 1000
  {
  }

  /** A refill that is due queues at least one frame, all of them frames of the clip, and its byte count is far below
      what an int holds. */
  lemma {:induction false} RefillIsSound(clip: Clip, config: Config, submitted: int, queued: int)
    requires IsClip(clip) && IsConfig(config) && 0 <= submitted < clip.frameCount
    requires 0 <= queued < QueueFrames(clip, config.refillLowWaterMs)
    ensures var frames := RefillFrames(clip, config, submitted, queued);
            && 1 <= frames <= clip.frameCount - submitted
            && 0 < frames * (clip.channels * 4) <= 1536000
            && (submitted + frames) * clip.channels <= |clip.samples|
  {
    QueueBounds(clip.sampleRate, config.refillLowWaterMs, config.targetQueueMs);
    var frames := RefillFrames(clip, config, submitted, queued);
    Product(submitted + frames, clip.channels, clip.frameCount, clip.channels);
    Product(frames, clip.channels * 4, 192000, 8);
    Product(1, 1, frames, clip.channels * 4);
  }

  lemma Product(a: int, b: int, c: int, d: int)
    requires 0 <= a <= c && 0 <= b <= d
    ensures a * b <= c * d
  {
    assert a * b <= a * d && a * d <= c * d;
  }

  /** What one reading of the callback counters gives. */
  datatype Reading = Reading(mixed: nat, rate: nat)

  datatype Format = Format(rate: nat, channels: nat, bufferFrames: nat)

  /** Device frames heard since the segment began: mixed, less the device buffer. */
  function ElapsedDeviceFrames(mixed: nat, baseline: nat, bufferFrames: nat): nat {
    var inSegment := if mixed >= baseline then mixed - baseline else 0;
    if inSegment > bufferFrames then inSegment - bufferFrames else 0
  }

  /** Device frames in frames of the clip.  The layers only keep the product folded where it is not needed; ConvertedIs
      unfolds it. */
  function Converted(elapsed: nat, sampleRate: int, rate: int, layers: nat := 3): int
    requires rate > 0
    decreases elapsed, layers
  {
    if layers == 0 then elapsed * sampleRate / rate else Converted(elapsed, sampleRate, rate, layers - 1)
  }

  lemma {:induction false} ConvertedIs(elapsed: nat, sampleRate: int, rate: int, layers: nat := 3)
    requires rate > 0
    ensures Converted(elapsed, sampleRate, rate, layers) == elapsed * sampleRate / rate
    decreases layers
  {
    if layers > 0 { ConvertedIs(elapsed, sampleRate, rate, layers - 1); }
  }

  /** The presented frame as the clip's own clock has it, kept between what was presented and what was submitted. */
  function PresentedAt(segmentStart: int, elapsed: nat, sampleRate: int, rate: int, presented: int, submitted: int): int
    requires rate > 0
  {
    Smaller(Larger(segmentStart + Converted(elapsed, sampleRate, rate), presented), submitted)
  }

  /** The presented frame as it is computed, with each conversion held to 64 bits. */
  function Candidate(segmentStart: int, elapsed: nat, sampleRate: int, rate: int, presented: int, submitted: int,
                     frameCount: int): int
    requires rate > 0
  {
    var converted := elapsed * sampleRate / rate;
    var advanced := if converted > INT64_MAX then INT64_MAX else converted;
    var upperBound := Larger(0, Smaller(submitted, frameCount));
    var floor := Smaller(Larger(presented, 0), upperBound);
    var raw := if advanced > 0 && segmentStart > INT64_MAX - advanced then INT64_MAX else segmentStart + advanced;
    Smaller(Larger(raw, floor), upperBound)
  }

  /** Saturation never shows: the computed frame is the exact one. */
  lemma CandidateIsExact(segmentStart: int, elapsed: nat, sampleRate: int, rate: int, presented: int, submitted: int,
                         frameCount: int)
    requires rate > 0 && sampleRate > 0
    requires 0 <= segmentStart <= presented <= submitted <= frameCount <= INT64_MAX
    ensures Candidate(segmentStart, elapsed, sampleRate, rate, presented, submitted, frameCount)
      == PresentedAt(segmentStart, elapsed, sampleRate, rate, presented, submitted)
    ensures presented <= PresentedAt(segmentStart, elapsed, sampleRate, rate, presented, submitted) <= submitted
  {
    assert elapsed * sampleRate >= 0;
    ConvertedIs(elapsed, sampleRate, rate);
  }

  // ---------------------------------------------------------------- publications

  /** The unsigned 64-bit identity after that many discontinuities: zero is skipped. */
  function DiscontinuityAfter(advances: nat): nat { if advances == 0 then 0 else 1 + (advances - 1) % (ID_MODULUS - 1) }

  function NextDiscontinuity(id: nat): nat {
    var bumped := (id + 1) % ID_MODULUS;
    if bumped == 0 then 1 else bumped
  }

  lemma {:induction false} NextIsAfter(advances: nat)
    ensures NextDiscontinuity(DiscontinuityAfter(advances)) == DiscontinuityAfter(advances + 1)
  {
    if advances > 0 {
      var n := ID_MODULUS - 1;
      var turn, rest := (advances - 1) / n, (advances - 1) % n;
      assert advances == turn * n + (rest + 1);
      if rest + 1 == n { assert advances == (turn + 1) * n; }
    }
  }

  /** One store into the published clock.  advances counts the discontinuities so far. */
  datatype Publication = Publication(presentedFrame: int, sampleRate: int, advances: nat, state: State)

  /** Within one discontinuity the rate stays and the presented frame does not go back. */
  predicate Follows(earlier: Publication, later: Publication) {
    && earlier.advances <= later.advances
    && (earlier.advances == later.advances ==>
          earlier.presentedFrame <= later.presentedFrame && earlier.sampleRate == later.sampleRate)
  }

  ghost predicate Ordered(history: seq<Publication>) {
    history != [] && forall i, j :: 0 <= i < j < |history| ==> Follows(history[i], history[j])
  }

  lemma Extend(history: seq<Publication>, next: Publication)
    requires Ordered(history) && Follows(history[|history| - 1], next)
    ensures Ordered(history + [next])
  {
    var last := history[|history| - 1];
    forall i | 0 <= i < |history| ensures Follows(history[i], next) {
      if i < |history| - 1 { assert Follows(history[i], last); }
    }
  }

  /** The published position, in whole microseconds. */
  function PositionUs(p: Publication): int {
    if p.sampleRate <= 0 then 0 else (p.presentedFrame as real * 1000000.0 / p.sampleRate as real + 0.5).Floor
  }

  /** Of two publications with one identity, fewer than all identities apart, the later is at no earlier position. */
  lemma {:induction false} PositionsDoNotGoBack(history: seq<Publication>, i: nat, j: nat)
    requires Ordered(history) && i < j < |history|
    requires DiscontinuityAfter(history[i].advances) == DiscontinuityAfter(history[j].advances)
    requires history[j].advances - history[i].advances < 0xFFFF_FFFF_FFFF_FFFF
    ensures history[i].presentedFrame <= history[j].presentedFrame && PositionUs(history[i]) <= PositionUs(history[j])
  {
    assert Follows(history[i], history[j]);
    IdentitiesDiffer(history[i].advances, history[j].advances);
    var rate := history[i].sampleRate;
    if rate > 0 {
      Divided(history[i].presentedFrame as real * 1000000.0, history[j].presentedFrame as real * 1000000.0,
              rate as real);
    }
  }

  lemma Divided(a: real, b: real, c: real)
    requires a <= b && c > 0.0
    ensures a / c <= b / c && (a / c + 0.5).Floor <= (b / c + 0.5).Floor
  {
    Quotient(a, c);
    Quotient(b, c);
    assert a / c * c <= b / c * c;
  }

  lemma {:induction false} IdentitiesDiffer(m: nat, n: nat)
    requires m <= n < m + ID_MODULUS - 1 && DiscontinuityAfter(m) == DiscontinuityAfter(n)
    ensures m == n
  {
    var p := ID_MODULUS - 1;
    assert m > 0 ==> n - m == ((n - 1) / p - (m - 1) / p) * p;
  }

  /** A published position is the presented frame's, to the nearest microsecond. */
  lemma {:induction false} PositionIsNearest(p: Publication)
    requires p.sampleRate > 0
    ensures var twice := 2 * PositionUs(p) * p.sampleRate - 2 * p.presentedFrame * 1000000;
      -p.sampleRate <= twice <= p.sampleRate
  {
    ToNearest(p.presentedFrame as real * 1000000.0, p.sampleRate as real, PositionUs(p) as real);
    InWhole(PositionUs(p), p.sampleRate, p.presentedFrame);
  }

  lemma ToNearest(micros: real, rate: real, rounded: real)
    requires rate > 0.0 && micros / rate - 0.5 <= rounded <= micros / rate + 0.5
    ensures micros - rate / 2.0 <= rounded * rate <= micros + rate / 2.0
  {
    HalfApart(micros, rate / 2.0, rate);
    TimesOver(rounded, rate);
    if rounded * rate > micros + rate / 2.0 { StaysApart(micros + rate / 2.0, rounded * rate, rate); }
    if rounded * rate < micros - rate / 2.0 { StaysApart(rounded * rate, micros - rate / 2.0, rate); }
  }

  lemma StaysApart(a: real, b: real, c: real)
    requires a < b && c > 0.0
    ensures a / c < b / c
  {
  }

  lemma HalfApart(a: real, half: real, c: real)
    requires c > 0.0 && c == 2.0 * half
    ensures (a + half) / c == a / c + 0.5 && (a - half) / c == a / c - 0.5
  {
    TimesOver(0.5, c);
    SumOver(a, half, c);
    SumOver(a - half, half, c);
  }

  lemma SumOver(a: real, b: real, c: real)
    requires c > 0.0
    ensures (a + b) / c == a / c + b / c
  {
  }

  lemma TimesOver(a: real, b: real)
    requires b > 0.0
    ensures a * b / b == a
  {
  }

  lemma InWhole(position: int, rate: int, frame: int)
    requires
      var micros := frame as real * 1000000.0;
      micros - rate as real / 2.0 <= position as real * rate as real <= micros + rate as real / 2.0
    ensures -rate <= 2 * position * rate - 2 * frame * 1000000 <= rate
  {
    assert position as real * rate as real == (position * rate) as real;
  }

  // ---------------------------------------------------------------- the transport

  /** What the device answers one operation, and the callback counters at the operation's readings. */
  datatype Device = Device(opens: Option<Format>, format: Option<Format>, queuedBytes: int, puts: bool, pauses: bool,
                           clears: bool, resumes: bool, atUnderrun: Reading, baseline: nat, atEnd: Reading,
                           atError: Reading)

  function UsableFormat(format: Option<Format>): Option<Format> {
    if format.Some? && format.value.rate > 0 && format.value.channels > 0 && format.value.bufferFrames > 0 then format
    else None
  }

  // Positions are exact numbers of milliseconds.

  function DurationMs(clip: Clip): real
    requires clip.sampleRate > 0
  {
    clip.frameCount as real * 1000.0 / clip.sampleRate as real
  }

  /** The nearest frame to a position, held to the clip. */
  function FrameAt(clip: Clip, positionMs: real): int {
    var requested := (positionMs * clip.sampleRate as real / 1000.0 + 0.5).Floor;
    Smaller(Larger(requested, 0), clip.frameCount)
  }

  /** A position within the clip has a frame of the clip at most half a frame away: holding it to the clip never moves
      it. */
  lemma {:induction false} FrameIsNearest(clip: Clip, positionMs: real)
    requires clip.sampleRate > 0 && clip.frameCount >= 0 && 0.0 <= positionMs <= DurationMs(clip)
    ensures 0 <= FrameAt(clip, positionMs) <= clip.frameCount
    ensures var exact := positionMs * clip.sampleRate as real / 1000.0;
            exact - 0.5 <= FrameAt(clip, positionMs) as real <= exact + 0.5
  {
    var rate, duration := clip.sampleRate as real, clip.frameCount as real * 1000.0;
    assert DurationMs(clip) == duration / rate;
    Quotient(duration, rate);
    Scaled(positionMs, DurationMs(clip), rate);
    Rounded(positionMs * rate, clip.frameCount);
  }

  lemma Rounded(thousands: real, limit: int)
    requires 0.0 <= thousands <= limit as real * 1000.0
    ensures var x := thousands / 1000.0; 0 <= (x + 0.5).Floor <= limit && x - 0.5 <= (x + 0.5).Floor as real <= x + 0.5
  {
  }

  lemma Quotient(a: real, b: real)
    requires b > 0.0
    ensures a / b * b == a
  {
  }

  lemma Scaled(a: real, b: real, c: real)
    requires a <= b && 0.0 <= c
    ensures a * c <= b * c && (0.0 <= a ==> 0.0 <= a * c)
  {
  }

  function WholeFrames(bytes: int, channels: int): (frames: int)
    ensures bytes >= 0 ==> frames >= 0
  {
    var frameBytes := channels * 4;
    if frameBytes <= 0 then 0
    else
      NotNegative(bytes, frameBytes);
      bytes / frameBytes
  }

  /** Of the queued bytes, four for each channel make a frame; a frame that is not whole is not counted. */
  lemma {:induction false} FramesAreWhole(bytes: int, channels: int)
    requires 0 <= bytes && 0 < channels
    ensures WholeFrames(bytes, channels) * (channels * 4) <= bytes < (WholeFrames(bytes, channels) + 1) * (channels * 4)
  {
  }

  lemma NotNegative(a: int, b: int)
    requires b > 0
    ensures a >= 0 ==> a / b >= 0
  {
  }

  /** The books of a stream: the frame and the callback count its segment began at, what was presented and submitted,
      and how often it ran dry. */
  datatype Account = Account(start: int, baseline: nat, presented: int, submitted: int, underruns: nat)

  /** The frame presented by that reading. */
  ghost function HeardBy(clip: Clip, effective: Format, reading: Reading, a: Account): int
    requires effective.rate > 0
  {
    PresentedAt(a.start, ElapsedDeviceFrames(reading.mixed, a.baseline, effective.bufferFrames), clip.sampleRate,
                if reading.rate == 0 then effective.rate else reading.rate, a.presented, a.submitted)
  }

  /** The frame a reading presents: the callbacks since the segment began, less what the device still buffers, in frames
      of the clip and rounded down, unless that is before what was presented or after what was submitted. */
  predicate IsHeard(clip: Clip, effective: Format, reading: Reading, a: Account, heard: int) {
    var rate := if reading.rate == 0 then effective.rate else reading.rate;
    var mixed := reading.mixed - a.baseline - effective.bufferFrames;
    && a.presented <= heard <= a.submitted
    && (heard > a.presented ==> (heard - a.start) * rate <= mixed * clip.sampleRate)
    && (heard < a.submitted ==> mixed * clip.sampleRate < (heard - a.start + 1) * rate)
  }

  lemma {:induction false} HeardExactly(clip: Clip, effective: Format, reading: Reading, a: Account)
    requires effective.rate > 0 && clip.sampleRate > 0 && a.start <= a.presented <= a.submitted
    ensures IsHeard(clip, effective, reading, a, HeardBy(clip, effective, reading, a))
  {
    var rate := if reading.rate == 0 then effective.rate else reading.rate;
    var elapsed := ElapsedDeviceFrames(reading.mixed, a.baseline, effective.bufferFrames);
    ConvertedIs(elapsed, clip.sampleRate, rate);
    RoundsDown(elapsed * clip.sampleRate, rate);
    HeardFrames(elapsed, reading.mixed - a.baseline - effective.bufferFrames, clip.sampleRate, rate, a,
                HeardBy(clip, effective, reading, a));
  }

  lemma RoundsDown(n: int, d: int)
    requires d > 0
    ensures n / d * d <= n < (n / d + 1) * d
  {
  }

  lemma HeardFrames(elapsed: nat, mixed: int, sampleRate: int, rate: int, a: Account, heard: int)
    requires rate > 0 && sampleRate > 0 && a.start <= a.presented <= a.submitted
    requires elapsed == (if mixed > 0 then mixed else 0)
    requires heard == Smaller(Larger(a.start + elapsed * sampleRate / rate, a.presented), a.submitted)
    requires var q := elapsed * sampleRate / rate; q * rate <= elapsed * sampleRate < (q + 1) * rate
    ensures heard > a.presented ==> (heard - a.start) * rate <= mixed * sampleRate
    ensures heard < a.submitted ==> mixed * sampleRate < (heard - a.start + 1) * rate
  {
    var q := elapsed * sampleRate / rate;
    if mixed <= 0 { assert mixed * sampleRate <= 0 == elapsed * sampleRate; }
    if heard > a.presented { Product(heard - a.start, rate, q, rate); }
    if heard < a.submitted { Product(q + 1, rate, heard - a.start + 1, rate); }
  }

  /** The stream ran dry before the clip's end, with frames submitted that were not yet presented. */
  predicate RunsDry(clip: Clip, a: Account, queued: int) { queued == 0 && a.presented < a.submitted < clip.frameCount }

  /** On an underrun what was heard becomes the start of a new segment, counted once. */
  ghost function AfterUnderrun(clip: Clip, effective: Format, device: Device, a: Account, queued: int): Account
    requires effective.rate > 0
  {
    if !RunsDry(clip, a, queued) then a
    else
      var heard := HeardBy(clip, effective, device.atUnderrun, a);
      Account(heard, device.baseline, heard, a.submitted, a.underruns + 1)
  }

  predicate RefillIsDue(clip: Clip, config: Config, submitted: int, queued: int) {
    queued < QueueFrames(clip, config.refillLowWaterMs) && submitted < clip.frameCount
  }

  /** A refill is due exactly while fewer milliseconds of sound than the low water mark are queued and the clip goes on;
      it then fills the queue up to the target, or to the end of the clip. */
  lemma {:induction false} RefillReachesTarget(clip: Clip, config: Config, submitted: int, queued: int)
    requires IsClip(clip) && IsConfig(config) && 0 <= submitted <= clip.frameCount && 0 <= queued
    ensures RefillIsDue(clip, config, submitted, queued) <==>
      submitted < clip.frameCount && (queued + 1) * 1000 <= clip.sampleRate * config.refillLowWaterMs
    ensures RefillIsDue(clip, config, submitted, queued) ==>
      var frames := RefillFrames(clip, config, submitted, queued);
      || submitted + frames == clip.frameCount
      || (queued + frames) * 1000 <= clip.sampleRate * config.targetQueueMs < (queued + frames + 1) * 1000
  {
    Product(8000, 10, clip.sampleRate, config.refillLowWaterMs);
    Product(8000, 40, clip.sampleRate, config.targetQueueMs);
  }

  function AfterRefill(clip: Clip, config: Config, a: Account, queued: int): Account {
    if RefillIsDue(clip, config, a.submitted, queued)
    then a.(submitted := a.submitted + RefillFrames(clip, config, a.submitted, queued)) else a
  }

  /** The books after a service of a playing stream: dry or not, refilled if due, and what has been heard by its end. */
  ghost function AfterService(clip: Clip, config: Config, effective: Format, a: Account, device: Device): Account
    requires effective.rate > 0
  {
    var queued := WholeFrames(device.queuedBytes, clip.channels);
    var fed := AfterRefill(clip, config, AfterUnderrun(clip, effective, device, a, queued), queued);
    fed.(presented := HeardBy(clip, effective, device.atEnd, fed))
  }

  /** What a service does: it counts an underrun exactly when less than a frame is queued of a clip that goes on, with
      frames submitted that were not presented, and then starts a new segment at what was heard; it queues frames
      exactly when a refill is due; and at its end it presents what has been heard. */
  lemma {:induction false} ServiceExactly(clip: Clip, config: Config, effective: Format, a: Account, device: Device)
    requires IsClip(clip) && IsConfig(config) && effective.rate > 0 && device.queuedBytes >= 0
    requires a.start <= a.presented <= a.submitted <= clip.frameCount && 0 <= a.submitted
    ensures var after := AfterService(clip, config, effective, a, device);
      var queued := WholeFrames(device.queuedBytes, clip.channels);
      var dry := device.queuedBytes < 4 * clip.channels && a.presented < a.submitted < clip.frameCount;
      && after.underruns == (if dry then a.underruns + 1 else a.underruns)
      && (if dry then after.baseline == device.baseline && IsHeard(clip, effective, device.atUnderrun, a, after.start)
          else after.baseline == a.baseline && after.start == a.start)
      && after.submitted == (if RefillIsDue(clip, config, a.submitted, queued)
                             then a.submitted + RefillFrames(clip, config, a.submitted, queued) else a.submitted)
      && IsHeard(clip, effective, device.atEnd, after.(presented := if dry then after.start else a.presented),
                 after.presented)
  {
    var queued := WholeFrames(device.queuedBytes, clip.channels);
    NothingWhole(device.queuedBytes, clip.channels);
    var dry := AfterUnderrun(clip, effective, device, a, queued);
    if RunsDry(clip, a, queued) { HeardExactly(clip, effective, device.atUnderrun, a); }
    RefillQueues(clip, config, dry, queued);
    HeardExactly(clip, effective, device.atEnd, AfterRefill(clip, config, dry, queued));
  }

  lemma NothingWhole(bytes: int, channels: int)
    requires 0 <= bytes && 0 < channels
    ensures 0 <= WholeFrames(bytes, channels) && (WholeFrames(bytes, channels) == 0 <==> bytes < 4 * channels)
  {
    FramesAreWhole(bytes, channels);
    var frames := WholeFrames(bytes, channels);
    if frames >= 1 { Product(1, channels * 4, frames, channels * 4); }
  }

  lemma RefillQueues(clip: Clip, config: Config, a: Account, queued: int)
    requires IsClip(clip) && IsConfig(config) && 0 <= queued && 0 <= a.submitted <= clip.frameCount
    ensures AfterRefill(clip, config, a, queued).submitted >= a.submitted
  {
    QueueBounds(clip.sampleRate, config.refillLowWaterMs, config.targetQueueMs);
  }

  /** Whether a playing stream's device is lost or has changed. */
  function DeviceFault(effective: Format, device: Device): (r: Option<TransportError>)
    ensures r.Some? ==> r.value in SERVICE_ERRORS && r.value != InErrorState
  {
    if device.format.None? then Some(DeviceLost)
    else if device.format.value != effective then Some(FormatChanged)
    else if device.queuedBytes < 0 then Some(QueueQueryFailed)
    else None
  }

  /** When a service of a playing stream fails. */
  function ServiceStops(clip: Clip, config: Config, effective: Format, submitted: int,
                        device: Device): Option<TransportError> {
    var fault := DeviceFault(effective, device);
    if fault.Some? then fault
    else if RefillIsDue(clip, config, submitted, WholeFrames(device.queuedBytes, clip.channels)) && !device.puts
    then Some(QueueWriteFailed) else None
  }

  /** When a stream that is to run fails. */
  function ResumeStops(clip: Clip, config: Config, effective: Format, submitted: int,
                       device: Device): Option<TransportError> {
    var service := ServiceStops(clip, config, effective, submitted, device);
    if service.Some? then service else if !device.resumes then Some(ResumeFailed) else None
  }

  /** Every failure of a stream that is to run has its one reason: the device is gone, has changed, does not tell its
      queue, refuses a due refill, or does not resume. */
  lemma RunningFailsExactly(clip: Clip, config: Config, effective: Format, submitted: int, device: Device)
    ensures var stop := ResumeStops(clip, config, effective, submitted, device);
      var told := device.format == Some(effective) && device.queuedBytes >= 0;
      var fed := RefillIsDue(clip, config, submitted, WholeFrames(device.queuedBytes, clip.channels)) ==> device.puts;
      && (stop == Some(DeviceLost) <==> device.format == None)
      && (stop == Some(FormatChanged) <==> device.format.Some? && device.format.value != effective)
      && (stop == Some(QueueQueryFailed) <==> device.format == Some(effective) && device.queuedBytes < 0)
      && (stop == Some(QueueWriteFailed) <==> told && !fed)
      && (stop == Some(ResumeFailed) <==> told && fed && !device.resumes)
      && (stop == None <==> told && fed && device.resumes)
  {
  }

  /** A device opens with a rate, channels and a buffer, or it does not open. */
  lemma OpensExactly(format: Option<Format>)
    ensures UsableFormat(format).Some? <==>
      format.Some? && format.value.rate > 0 && format.value.channels > 0 && format.value.bufferFrames > 0
    ensures UsableFormat(format).Some? ==> UsableFormat(format) == format
  {
  }

  /** A stream set to a frame: it stays paused there, or goes on playing from there and has been serviced once. */
  ghost predicate GoesOn(wasPlaying: bool, clip: Clip, config: Config, effective: Format, frame: int, underruns: nat,
                         device: Device, state: State, books: Account)
  {
    var start := Account(frame, 0, frame, frame, underruns);
    if !wasPlaying then state == Paused && books == start
    else
      && effective.rate > 0 && books == AfterService(clip, config, effective, start, device)
      && state == if books.presented == clip.frameCount then Ended else Playing
  }

  function Answer(stop: Option<TransportError>): Result<(), TransportError> {
    match stop case Some(error) => Err(error) case None => Ok(())
  }

  const SERVICE_ERRORS := {InErrorState, DeviceLost, FormatChanged, QueueQueryFailed, QueueWriteFailed}

  /** What a clip in the store was created from. */
  datatype Source = Source(sampleRate: int, channels: int, samples: seq<real>)

  /** The clip a store leases: one that was created, or none. */
  function Leased(source: Option<Source>): (r: Option<Clip>)
    ensures r.Some? ==> IsClip(r.value)
  {
    if source.None? then None
    else
      CreatedIsClip(source.value.sampleRate, source.value.channels, source.value.samples);
      match CreateClip(source.value.sampleRate, source.value.channels, source.value.samples)
      case Ok(clip) => Some(clip)
      case Err(_) => None
  }

  datatype Operation =
    | DoLoad(source: Option<Source>, device: Device) | DoPlay(device: Device) | DoPause(device: Device)
    | DoStop(device: Device) | DoSeek(positionMs: real, device: Device) | DoService(device: Device) | DoUnload
    | DoPrepare(source: Option<Source>, positionMs: real) | DoActivate(device: Device) | DoCancel
    | DoRecheck(healthy: bool, device: Device)

  class SdlTransport {
    const config: Config
    var clip: Option<Clip>
    var replacement: Option<Clip>
    var replacementFrame: int
    var state: State
    var segmentStartFrame: int
    var submittedFrame: int
    var presentedFrame: int
    var mixedBaseline: nat
    var discontinuityId: nat
    var underrunEpisode: bool
    var underrunCount: nat
    var effective: Format
    /** The discontinuities so far, what was published, and the samples put on the stream since it was last empty,
        from which frame on. */
    ghost var advances: nat
    ghost var history: seq<Publication>
    ghost var base: int
    ghost var fed: seq<real>

    ghost function Now(): Publication
      reads this`presentedFrame, this`clip, this`advances, this`state
    {
      Publication(presentedFrame, if clip.Some? then clip.value.sampleRate else 0, advances, state)
    }

    /** 0 <= presented <= submitted <= frameCount, and the stream was given exactly the clip's frames from base to
        submitted. */
    ghost predicate FramesSound()
      reads this`presentedFrame, this`replacement, this`replacementFrame, this`clip, this`effective, this`base
      reads this`segmentStartFrame, this`submittedFrame, this`fed
    {
      && IsConfig(config) && presentedFrame >= 0
      && (replacement.Some? ==> ReplacementSound())
      && (clip.Some? ==>
            && IsClip(clip.value) && effective.rate > 0
            && 0 <= base <= segmentStartFrame <= presentedFrame <= submittedFrame <= clip.value.frameCount
            && fed == Frames(clip.value, base, submittedFrame))
    }

    /** What was published is in order. */
    ghost predicate LogSound()
      reads this`history, this`advances, this`discontinuityId
    {
      Ordered(history) && discontinuityId == DiscontinuityAfter(advances) && Last().advances <= advances
    }

    /** What there is may follow what was published last. */
    ghost predicate MayFollow()
      reads this`history, this`advances, this`presentedFrame, this`clip, this`state
    {
      Last().advances == advances ==>
        && Last().presentedFrame <= presentedFrame
        && (clip.Some? || state == Empty ==> Last().sampleRate == if clip.Some? then clip.value.sampleRate else 0)
    }

    ghost predicate HistorySound()
      reads this`history, this`advances, this`discontinuityId, this`presentedFrame, this`clip, this`state
    {
      LogSound() && MayFollow()
    }

    ghost function Last(): Publication
      reads this`history
    {
      if history == [] then Publication(0, 0, 0, Empty) else history[|history| - 1]
    }

    ghost predicate StateSound()
      reads this`state, this`clip, this`replacement, this`presentedFrame, this`underrunEpisode
    {
      && (state == Empty ==> clip.None? && replacement.None? && presentedFrame == 0)
      && (clip.None? ==> state == Empty || state == Error)
      && (state == Stopped ==> presentedFrame == 0)
      && (state == Ended ==> clip.Some? && presentedFrame == clip.value.frameCount)
      && (clip.Some? && state != Error ==> !underrunEpisode)
    }

    ghost predicate Sound()
      reads this
    {
      FramesSound() && HistorySound() && StateSound()
    }

    /** Between operations.  What is published is what there is; only a failed replacement of a failed stream closes
        the clip without publishing it. */
    ghost predicate Valid()
      reads this
    {
      Sound() && (clip.Some? || state == Empty ==> Last() == Now())
    }

    /** Publications are only added, and the presented frame goes back only with a new discontinuity. */
    twostate predicate Progresses()
      reads this
    {
      && old(history) <= history && old(advances) <= advances
      && (old(advances) == advances ==> old(presentedFrame) <= presentedFrame)
    }

    constructor (config: Config)
      requires IsConfig(config)
      ensures Valid() && this.config == config && state == Empty && advances == 0 && Books() == Account(0, 0, 0, 0, 0)
    {
      this.config := config;
      clip, replacement, replacementFrame, state := None, None, 0, Empty;
      segmentStartFrame, submittedFrame, presentedFrame, mixedBaseline := 0, 0, 0, 0;
      discontinuityId, underrunEpisode, underrunCount, effective := 0, false, 0, Format(0, 0, 0);
      advances, history, base, fed := 0, [Publication(0, 0, 0, Empty)], 0, [];
    }

    method Publish()
      requires Ordered(history) && Follows(Last(), Now())
      modifies this`history
      ensures Ordered(history) && history == old(history) + [Now()]
    {
      Extend(history, Now());
      history := history + [Now()];
    }

    method AdvanceDiscontinuity()
      requires discontinuityId == DiscontinuityAfter(advances)
      modifies this`discontinuityId, this`advances
      ensures discontinuityId == DiscontinuityAfter(advances) && advances == old(advances) + 1
    {
      NextIsAfter(advances);
      discontinuityId, advances := NextDiscontinuity(discontinuityId), advances + 1;
    }

    ghost function Books(): Account
      reads this`segmentStartFrame, this`mixedBaseline, this`presentedFrame, this`submittedFrame, this`underrunCount
    {
      Account(segmentStartFrame, mixedBaseline, presentedFrame, submittedFrame, underrunCount)
    }

    method UpdatePresentedFrame(reading: Reading)
      requires FramesSound()
      modifies this`presentedFrame, this`state
      ensures FramesSound() && old(presentedFrame) <= presentedFrame
      ensures clip.None? || old(state) != Playing ==> presentedFrame == old(presentedFrame) && state == old(state)
      ensures clip.Some? && old(state) == Playing ==>
        presentedFrame == HeardBy(clip.value, effective, reading, old(Books()))
      ensures clip.Some? && old(state) == Playing ==>
        state == if presentedFrame == clip.value.frameCount then Ended else Playing
    {
      if clip.None? || state != Playing { return; }
      var rate := if reading.rate == 0 then effective.rate else reading.rate;
      var elapsed := ElapsedDeviceFrames(reading.mixed, mixedBaseline, effective.bufferFrames);
      CountFits(clip.value);
      CandidateIsExact(segmentStartFrame, elapsed, clip.value.sampleRate, rate, presentedFrame, submittedFrame,
                       clip.value.frameCount);
      presentedFrame := Candidate(segmentStartFrame, elapsed, clip.value.sampleRate, rate, presentedFrame,
                                  submittedFrame, clip.value.frameCount);
      if presentedFrame >= clip.value.frameCount {
        presentedFrame, state := clip.value.frameCount, Ended;
      }
    }

    /** Publishes what there is, within the current discontinuity. */
    method PublishNow()
      requires Sound() && (clip.Some? || state == Empty)
      modifies this`history
      ensures Valid() && history == old(history) + [Now()]
    {
      Publish();
    }

    /** The first failure publishes the error under a new discontinuity; a later one changes nothing. */
    method EnterError(reading: Reading)
      requires FramesSound() && HistorySound()
      modifies this`presentedFrame, this`state, this`discontinuityId, this`advances, this`history
      ensures FramesSound() && HistorySound() && state == Error && Progresses()
      ensures if old(state) == Error then unchanged(this)
              else advances == old(advances) + 1 && history == old(history) + [Now()]
    {
      if state != Error {
        UpdatePresentedFrame(reading);
        state := Error;
        Announce();
      }
    }

    /** Publishes what there is under a new discontinuity. */
    method Announce()
      requires Ordered(history) && discontinuityId == DiscontinuityAfter(advances) && Last().advances <= advances
      modifies this`discontinuityId, this`advances, this`history
      ensures HistorySound() && advances == old(advances) + 1 && history == old(history) + [Now()]
    {
      AdvanceDiscontinuity();
      Publish();
    }

    /** The stream is empty and its next frame is that one. */
    method StartAt(frame: int)
      requires clip.Some? && IsClip(clip.value) && effective.rate > 0 && 0 <= frame <= clip.value.frameCount
      requires IsConfig(config) && (replacement.Some? ==> ReplacementSound())
      modifies this`segmentStartFrame, this`submittedFrame, this`presentedFrame, this`base, this`fed, this`mixedBaseline
      ensures FramesSound() && base == frame && Books() == Account(frame, 0, frame, frame, underrunCount)
    {
      segmentStartFrame, submittedFrame, presentedFrame, mixedBaseline := frame, frame, frame, 0;
      base, fed := frame, [];
      FramesJoin(clip.value, frame, frame, frame);
    }

    ghost predicate ReplacementSound()
      reads this`replacement, this`replacementFrame
    {
      replacement.Some? && IsClip(replacement.value) && 0 <= replacementFrame <= replacement.value.frameCount
    }

    /** Fails the operation from a state that is not yet an error. */
    method Fail(error: TransportError, reading: Reading) returns (r: Result<(), TransportError>)
      requires FramesSound() && LogSound() && MayFollow() && (clip.Some? || replacement.None?) && state != Error
      modifies this`presentedFrame, this`state, this`discontinuityId, this`advances, this`history
      ensures Valid() && Failed(r, error)
    {
      EnterError(reading);
      r := Err(error);
    }

    /** The operation failed with that error: the transport is in error under a new discontinuity, its clip kept. */
    twostate predicate Failed(new r: Result<(), TransportError>, error: TransportError)
      reads this
    {
      r == Err(error) && state == Error && advances == old(advances) + 1 && Progresses() && clip == old(clip)
    }

    method CloseStream()
      requires FramesSound() && HistorySound() && state != Empty
      modifies this`clip, this`mixedBaseline
      ensures FramesSound() && HistorySound() && clip.None?
    {
      clip, mixedBaseline := None, 0;
    }

    /** On success the new clip is at that frame, and what is published meanwhile is a stopped transport there. */
    method OpenLease(newClip: Clip, startFrame: int, device: Device) returns (ok: bool)
      requires FramesSound() && HistorySound() && IsClip(newClip) && 0 <= startFrame <= newClip.frameCount
      modifies this`clip, this`effective, this`presentedFrame, this`state, this`segmentStartFrame, this`mixedBaseline
      modifies this`underrunEpisode, this`submittedFrame, this`base, this`fed, this`history, this`discontinuityId
      modifies this`advances
      ensures ok <==> UsableFormat(device.opens).Some?
      ensures !ok ==> unchanged(this)
      ensures ok ==> FramesSound() && HistorySound() && clip == Some(newClip) && state == Stopped && !underrunEpisode
      ensures ok ==> base == startFrame && Books() == Account(startFrame, 0, startFrame, startFrame, old(underrunCount))
      ensures ok ==> Some(effective) == device.opens
      ensures ok ==> advances == old(advances) + 1 && history == old(history) + [Now()]
    {
      ok := UsableFormat(device.opens).Some?;
      if ok {
        Install(newClip, startFrame, device.opens.value);
        Announce();
      }
    }

    /** A freshly opened stream, stopped at its start frame. */
    method Install(newClip: Clip, startFrame: int, format: Format)
      requires FramesSound() && IsClip(newClip) && 0 <= startFrame <= newClip.frameCount && format.rate > 0
      modifies this`clip, this`effective, this`presentedFrame, this`state, this`segmentStartFrame, this`mixedBaseline
      modifies this`underrunEpisode, this`submittedFrame, this`base, this`fed
      ensures FramesSound() && clip == Some(newClip) && effective == format && state == Stopped && !underrunEpisode
      ensures base == startFrame && Books() == Account(startFrame, 0, startFrame, startFrame, underrunCount)
    {
      clip, effective := Some(newClip), format;
      StartAt(startFrame);
      underrunEpisode, state := false, Stopped;
    }

    /** Puts the frames a due refill takes on the stream. */
    method Refill(queued: int, device: Device) returns (ok: bool)
      requires FramesSound() && clip.Some?
      requires 0 <= queued < QueueFrames(clip.value, config.refillLowWaterMs) && submittedFrame < clip.value.frameCount
      modifies this`submittedFrame, this`underrunEpisode, this`fed
      ensures FramesSound() && (ok <==> device.puts) && (ok ==> !underrunEpisode)
      ensures !ok ==> unchanged(this)
      ensures ok ==>
        submittedFrame == old(submittedFrame) + RefillFrames(clip.value, config, old(submittedFrame), queued)
      ensures ok ==> old(submittedFrame) < submittedFrame
    {
      RefillIsSound(clip.value, config, submittedFrame, queued);
      var frames := RefillFrames(clip.value, config, submittedFrame, queued);
      var bytes := frames * (clip.value.channels * 4);
      if bytes > INT_MAX || !device.puts { return false; }
      FramesJoin(clip.value, base, submittedFrame, submittedFrame + frames);
      fed := fed + Frames(clip.value, submittedFrame, submittedFrame + frames);
      submittedFrame, underrunEpisode := submittedFrame + frames, false;
      ok := true;
    }

    method CheckUnderrun(queued: int, device: Device)
      requires Sound() && clip.Some? && state == Playing
      modifies this`presentedFrame, this`state, this`segmentStartFrame, this`mixedBaseline, this`underrunCount
      modifies this`underrunEpisode
      ensures FramesSound() && MayFollow() && state == Playing && old(presentedFrame) <= presentedFrame
      ensures Books() == AfterUnderrun(clip.value, effective, device, old(Books()), queued)
      ensures underrunEpisode == RunsDry(clip.value, old(Books()), queued)
    {
      if queued == 0 && submittedFrame < clip.value.frameCount && !underrunEpisode && submittedFrame > presentedFrame {
        UpdatePresentedFrame(device.atUnderrun);
        segmentStartFrame, mixedBaseline := presentedFrame, device.baseline;
        underrunCount, underrunEpisode := underrunCount + 1, true;
      }
    }

    /** Queues frames when fewer than the low water mark are queued.  An underrun is always refilled. */
    method RefillWhenDue(queued: nat, device: Device) returns (ok: bool)
      requires FramesSound() && clip.Some?
      requires (underrunEpisode ==> queued == 0 && submittedFrame < clip.value.frameCount)
      modifies this`submittedFrame, this`underrunEpisode, this`fed
      ensures FramesSound() && (ok ==> !underrunEpisode)
      ensures ok == (RefillIsDue(clip.value, config, old(submittedFrame), queued) ==> device.puts)
      ensures ok ==> Books() == AfterRefill(clip.value, config, old(Books()), queued)
    {
      ok := true;
      if queued < QueueFrames(clip.value, config.refillLowWaterMs) && submittedFrame < clip.value.frameCount {
        ok := Refill(queued, device);
      }
    }

    /** The refill of a service, after what was heard if the stream ran dry. */
    method Feed(queued: nat, device: Device) returns (ok: bool)
      requires Sound() && clip.Some? && state == Playing
      modifies this`presentedFrame, this`state, this`segmentStartFrame, this`mixedBaseline, this`underrunCount
      modifies this`underrunEpisode, this`submittedFrame, this`fed
      ensures FramesSound() && LogSound() && MayFollow() && state == Playing && old(presentedFrame) <= presentedFrame
      ensures ok == (RefillIsDue(clip.value, config, old(submittedFrame), queued) ==> device.puts)
      ensures ok ==> !underrunEpisode
      ensures ok ==>
        Books() == AfterRefill(clip.value, config, AfterUnderrun(clip.value, effective, device, old(Books()), queued),
                               queued)
    {
      CheckUnderrun(queued, device);
      ok := RefillWhenDue(queued, device);
    }

    /** Publishes what a playing stream has been heard of. */
    method PublishHeard(reading: Reading)
      requires FramesSound() && LogSound() && MayFollow() && clip.Some? && state == Playing && !underrunEpisode
      modifies this`presentedFrame, this`state, this`history
      ensures Valid() && history == old(history) + [Now()] && old(presentedFrame) <= presentedFrame
      ensures presentedFrame == HeardBy(clip.value, effective, reading, old(Books()))
      ensures state == if presentedFrame == clip.value.frameCount then Ended else Playing
    {
      UpdatePresentedFrame(reading);
      PublishNow();
    }

    /** A service of a playing stream whose device answers. */
    method ServicePlaying(queued: nat, device: Device) returns (r: Result<(), TransportError>)
      requires Sound() && clip.Some? && state == Playing
      requires queued == WholeFrames(device.queuedBytes, clip.value.channels)
      modifies this`presentedFrame, this`state, this`segmentStartFrame, this`mixedBaseline, this`underrunCount
      modifies this`underrunEpisode, this`submittedFrame, this`fed, this`history, this`discontinuityId, this`advances
      ensures Valid() && Progresses()
      ensures r == if RefillIsDue(clip.value, config, old(submittedFrame), queued) && !device.puts
                   then Err(QueueWriteFailed) else Ok(())
      ensures r.Err? ==> state == Error && advances == old(advances) + 1
      ensures r.Ok? ==> advances == old(advances)
      ensures r.Ok? ==> Books() == AfterService(clip.value, config, effective, old(Books()), device)
      ensures r.Ok? ==> state == if presentedFrame == clip.value.frameCount then Ended else Playing
    {
      var ok := Feed(queued, device);
      if ok {
        PublishHeard(device.atEnd);
        r := Ok(());
      } else {
        r := Fail(QueueWriteFailed, device.atError);
      }
    }

    /** A service fails exactly when the device does, and otherwise leaves the books as they should be. */
    method Service(device: Device) returns (r: Result<(), TransportError>)
      requires Sound()
      modifies this`presentedFrame, this`state, this`segmentStartFrame, this`mixedBaseline, this`underrunCount
      modifies this`underrunEpisode, this`submittedFrame, this`fed, this`history, this`discontinuityId, this`advances
      ensures old(state) == Error ==> r == Err(InErrorState) && unchanged(this)
      ensures old(state) != Error ==> Valid()
      ensures old(state) == Playing ==>
        r == Answer(ServiceStops(clip.value, config, effective, old(submittedFrame), device))
      ensures old(state) !in {Playing, Error} ==> r.Ok? && state == old(state) && Books() == old(Books())
      ensures Progresses() && (r.Err? ==> r.error in SERVICE_ERRORS && state == Error)
      ensures r.Ok? ==> advances == old(advances)
      ensures r.Ok? && old(state) == Playing ==>
        Books() == AfterService(clip.value, config, effective, old(Books()), device)
      ensures r.Ok? && old(state) == Playing ==>
        state == if presentedFrame == clip.value.frameCount then Ended else Playing
    {
      if state == Error { return Err(InErrorState); }
      if state != Playing {
        PublishNow();
        return Ok(());
      }
      var fault := DeviceFault(effective, device);
      if fault.Some? {
        r := Fail(fault.value, device.atError);
      } else {
        r := ServicePlaying(WholeFrames(device.queuedBytes, clip.value.channels), device);
      }
    }

    method Load(lease: Option<Clip>, device: Device) returns (r: Result<(), TransportError>)
      requires Valid() && (lease.Some? ==> IsClip(lease.value))
      modifies this
      ensures Valid() && Progresses()
      ensures r == if old(state) != Empty then Err(NotEmpty) else if lease.None? then Err(HandleRefused)
                   else if UsableFormat(device.opens).None? then Err(OpenFailed) else Ok(())
      ensures r.Ok? ==> clip == lease && state == Stopped && Some(effective) == device.opens && base == 0
      ensures r.Ok? ==> Books() == Account(0, 0, 0, 0, old(underrunCount))
      ensures r == Err(OpenFailed) ==> state == Error && clip.None?
      ensures r.Err? && r != Err(OpenFailed) ==> unchanged(this)
    {
      if state != Empty { return Err(NotEmpty); }
      if lease.None? { return Err(HandleRefused); }
      var ok := OpenLease(lease.value, 0, device);
      if !ok {
        EnterError(device.atError);
        return Err(OpenFailed);
      }
      r := Ok(());
    }

    /** Lets a playing stream run: it is filled first, and published once more when the device has resumed. */
    method Resume(device: Device) returns (r: Result<(), TransportError>)
      requires Sound() && clip.Some? && state == Playing
      modifies this`presentedFrame, this`state, this`segmentStartFrame, this`mixedBaseline, this`underrunCount
      modifies this`underrunEpisode, this`submittedFrame, this`fed, this`history, this`discontinuityId, this`advances
      ensures Valid() && Progresses()
      ensures r == Answer(ResumeStops(clip.value, config, effective, old(submittedFrame), device))
      ensures r.Ok? ==>
        advances == old(advances) && Books() == AfterService(clip.value, config, effective, old(Books()), device)
      ensures r.Ok? ==> state == if presentedFrame == clip.value.frameCount then Ended else Playing
      ensures r.Err? ==> state == Error && r.error in SERVICE_ERRORS + {ResumeFailed}
    {
      r := Service(device);
      if r.Err? { return; }
      if device.resumes {
        PublishNow();
      } else {
        r := Fail(ResumeFailed, device.atError);
      }
    }

    method Play(device: Device) returns (r: Result<(), TransportError>)
      requires Valid()
      modifies this`presentedFrame, this`state, this`segmentStartFrame, this`mixedBaseline, this`underrunCount
      modifies this`underrunEpisode, this`submittedFrame, this`fed, this`history, this`discontinuityId, this`advances
      ensures Valid() && Progresses()
      ensures old(state) == Playing ==> r.Ok? && unchanged(this)
      ensures old(state) in {Empty, Ended, Error} ==> r == Err(PlayInvalid) && unchanged(this)
      ensures old(state) in {Stopped, Paused} ==>
        r == Answer(ResumeStops(clip.value, config, effective, old(submittedFrame), device))
      ensures r.Ok? ==> advances == old(advances)
      ensures r.Ok? && old(state) != Playing ==>
        Books() == AfterService(clip.value, config, effective, old(Books()), device)
      ensures r.Ok? && old(state) != Playing ==>
        state == if presentedFrame == clip.value.frameCount then Ended else Playing
      ensures r.Err? && r != Err(PlayInvalid) ==> state == Error
    {
      if state == Playing { return Ok(()); }
      if state != Stopped && state != Paused { return Err(PlayInvalid); }
      state := Playing;
      r := Resume(device);
    }

    /** A pause that hears the clip's last frame leaves the transport paused there, not ended. */
    method Pause(device: Device) returns (r: Result<(), TransportError>)
      requires Valid()
      modifies this`presentedFrame, this`state, this`history, this`discontinuityId, this`advances
      ensures Valid() && Progresses()
      ensures r == if old(state) == Paused then Ok(()) else if old(state) != Playing then Err(PauseInvalid)
                   else if !device.pauses then Err(PauseFailed) else Ok(())
      ensures old(state) != Playing ==> unchanged(this)
      ensures r.Ok? ==> state == Paused && advances == old(advances)
      ensures r.Ok? && old(state) == Playing ==>
        presentedFrame == HeardBy(clip.value, effective, device.atEnd, old(Books()))
      ensures r == Err(PauseFailed) ==> state == Error
    {
      if state == Paused { return Ok(()); }
      if state != Playing { return Err(PauseInvalid); }
      UpdatePresentedFrame(device.atEnd);
      if device.pauses {
        state := Paused;
        PublishNow();
        r := Ok(());
      } else {
        r := Fail(PauseFailed, device.atError);
      }
    }

    /** The device steps of a stop or a seek. */
    function ClearFault(device: Device): (r: Option<TransportError>)
      ensures r.None? <==> device.pauses && device.clears
      ensures r.Some? ==> r.value in {PauseFailed, ClearFailed}
    {
      if !device.pauses then Some(PauseFailed) else if !device.clears then Some(ClearFailed) else None
    }

    method Stop(device: Device) returns (r: Result<(), TransportError>)
      requires Valid()
      modifies this
      ensures Valid() && Progresses() && clip == old(clip)
      ensures r == if old(state) in {Empty, Error} then Err(StopInvalid) else if old(state) == Stopped then Ok(())
                   else Answer(ClearFault(device))
      ensures old(state) in {Empty, Error, Stopped} ==> unchanged(this)
      ensures r.Ok? ==> state == Stopped && presentedFrame == 0
      ensures r.Ok? && old(state) != Stopped ==> submittedFrame == base == 0
      ensures r.Ok? && old(state) != Stopped ==>
        (advances == old(advances) <==> old(presentedFrame) == 0 && old(submittedFrame) == 0)
      ensures r.Err? && r != Err(StopInvalid) ==> state == Error
    {
      if state == Empty || state == Error { return Err(StopInvalid); }
      if state == Stopped && presentedFrame == 0 { return Ok(()); }
      var fault := ClearFault(device);
      if fault.Some? {
        r := Fail(fault.value, device.atError);
        return;
      }
      var changed := presentedFrame != 0 || submittedFrame != 0;
      StartAt(0);
      state := Stopped;
      if changed { Announce(); } else { PublishNow(); }
      r := Ok(());
    }

    /** The stream is emptied and moved to the nearest frame; the discontinuity is new exactly when the presented frame
        moved. */
    method SeekMs(positionMs: real, device: Device) returns (r: Result<(), TransportError>)
      requires Valid()
      modifies this
      ensures Valid() && Progresses() && clip == old(clip)
      ensures r == if old(state) in {Empty, Error} then Err(SeekInvalid)
                   else if !(0.0 <= positionMs <= DurationMs(clip.value)) then Err(SeekRange)
                   else if ClearFault(device).Some? then Answer(ClearFault(device))
                   else if old(state) != Playing then Ok(())
                   else Answer(ResumeStops(clip.value, config, effective, FrameAt(clip.value, positionMs), device))
      ensures r.Err? && r.error in {SeekInvalid, SeekRange} ==> unchanged(this)
      ensures r.Ok? ==> base == FrameAt(clip.value, positionMs)
      ensures r.Ok? ==> advances == old(advances) + if old(presentedFrame) == base then 0 else 1
      ensures r.Ok? ==>
        GoesOn(old(state) == Playing, clip.value, config, effective, base, old(underrunCount), device, state, Books())
      ensures r.Err? && r.error !in {SeekInvalid, SeekRange} ==> state == Error
    {
      if state == Empty || state == Error { return Err(SeekInvalid); }
      if !(0.0 <= positionMs <= DurationMs(clip.value)) { return Err(SeekRange); }
      FrameIsNearest(clip.value, positionMs);
      var fault := ClearFault(device);
      if fault.Some? {
        r := Fail(fault.value, device.atError);
        return;
      }
      r := Reposition(FrameAt(clip.value, positionMs), device);
    }

    /** The frame changes, and the discontinuity with it. */
    method Move(frame: int, next: State)
      requires Sound() && clip.Some? && state != Error && 0 <= frame <= clip.value.frameCount
      requires next in {Playing, Paused}
      modifies this`segmentStartFrame, this`submittedFrame, this`presentedFrame, this`base, this`fed, this`mixedBaseline
      modifies this`discontinuityId, this`advances, this`state
      ensures Sound() && state == next && base == frame
      ensures Books() == Account(frame, 0, frame, frame, old(underrunCount))
      ensures advances == old(advances) + if old(presentedFrame) == frame then 0 else 1
    {
      var changed := frame != presentedFrame;
      StartAt(frame);
      state := next;
      if changed {
        AdvanceDiscontinuity();
        assert Last().advances < advances;
      }
      assert LogSound() && MayFollow();
    }

    /** The part of a seek after the stream was emptied. */
    method Reposition(frame: int, device: Device) returns (r: Result<(), TransportError>)
      requires Sound() && clip.Some? && state != Error && 0 <= frame <= clip.value.frameCount
      modifies this`presentedFrame, this`state, this`segmentStartFrame, this`mixedBaseline, this`underrunCount
      modifies this`base
      modifies this`underrunEpisode, this`submittedFrame, this`fed, this`history, this`discontinuityId, this`advances
      ensures Valid() && Progresses()
      ensures r == if old(state) != Playing then Ok(())
                   else Answer(ResumeStops(clip.value, config, effective, frame, device))
      ensures r.Ok? ==> base == frame
      ensures r.Ok? ==> advances == old(advances) + if old(presentedFrame) == frame then 0 else 1
      ensures r.Ok? ==>
        GoesOn(old(state) == Playing, clip.value, config, effective, frame, old(underrunCount), device, state, Books())
      ensures r.Err? ==> state == Error && r.error !in {SeekInvalid, SeekRange}
    {
      Move(frame, if state == Playing then Playing else Paused);
      r := GoOn(device);
    }

    method Unload()
      requires Valid()
      modifies this
      ensures Valid() && Progresses() && state == Empty && clip.None? && replacement.None?
      ensures old(state) == Empty ==> unchanged(this)
      ensures old(state) != Empty ==> advances == old(advances) + 1
    {
      if state == Empty { return; }
      CloseStream();
      replacement, state := None, Empty;
      segmentStartFrame, submittedFrame, presentedFrame, effective := 0, 0, 0, Format(0, 0, 0);
      Announce();
    }

    method PrepareReplacement(lease: Option<Clip>, positionMs: real) returns (r: Result<(), TransportError>)
      requires Valid() && (lease.Some? ==> IsClip(lease.value))
      modifies this`replacement, this`replacementFrame
      ensures Valid()
      ensures r == if clip.None? || state in {Empty, Error} then Err(ReplacementInvalid)
                   else if lease.None? then Err(HandleRefused)
                   else if !(0.0 <= positionMs <= DurationMs(lease.value)) then Err(ReplacementPosition) else Ok(())
      ensures r.Ok? ==> lease.Some? && replacement == lease && replacementFrame == FrameAt(lease.value, positionMs)
      ensures r.Err? ==> unchanged(this)
    {
      if clip.None? || state == Empty || state == Error { return Err(ReplacementInvalid); }
      if lease.None? { return Err(HandleRefused); }
      if !(0.0 <= positionMs <= DurationMs(lease.value)) { return Err(ReplacementPosition); }
      FrameIsNearest(lease.value, positionMs);
      replacement, replacementFrame := lease, FrameAt(lease.value, positionMs);
      r := Ok(());
    }

    /** The replacement takes over at its frame.  While it does, a stopped transport is published there, which is no
        position a stopped one may have unless it is zero. */
    method ActivateReplacement(device: Device) returns (r: Result<(), TransportError>)
      requires Valid()
      modifies this
      ensures Valid() && Progresses()
      ensures r == if old(replacement).None? then Err(ReplacementMissing)
                   else if UsableFormat(device.opens).None? then Err(OpenFailed)
                   else if old(state) != Playing then Ok(())
                   else Answer(ResumeStops(old(replacement).value, config, device.opens.value, old(replacementFrame),
                                           device))
      ensures r == Err(ReplacementMissing) ==> unchanged(this)
      ensures r.Ok? ==> clip == old(replacement) && replacement.None? && base == old(replacementFrame)
      ensures r.Ok? ==> advances == old(advances) + 1
      ensures r.Ok? ==> Some(effective) == device.opens
      ensures r.Ok? ==>
        GoesOn(old(state) == Playing, clip.value, config, effective, base, old(underrunCount), device, state, Books())
      ensures r.Ok? ==> old(history) + [Publication(base, clip.value.sampleRate, advances, Stopped)] <= history
      ensures r == Err(OpenFailed) ==> clip.None? && state == Error
      ensures r.Err? && r.error !in {ReplacementMissing, OpenFailed} ==> clip == old(replacement) && state == Error
    {
      if replacement.None? { return Err(ReplacementMissing); }
      var ok := SwapStream(device);
      if !ok { return Err(OpenFailed); }
      r := GoOn(device);
    }

    /** A moved or replaced stream is filled and resumed if it is to play, and published. */
    method GoOn(device: Device) returns (r: Result<(), TransportError>)
      requires Sound() && clip.Some? && state in {Playing, Paused}
      requires Books() == Account(base, 0, base, base, underrunCount)
      modifies this`presentedFrame, this`state, this`segmentStartFrame, this`mixedBaseline, this`underrunCount
      modifies this`underrunEpisode, this`submittedFrame, this`fed, this`history, this`discontinuityId, this`advances
      ensures Valid() && Progresses()
      ensures r == if old(state) != Playing then Ok(())
          else Answer(ResumeStops(clip.value, config, effective, base, device))
      ensures r.Ok? ==> advances == old(advances)
      ensures r.Ok? ==>
        GoesOn(old(state) == Playing, clip.value, config, effective, base, old(underrunCount), device, state, Books())
      ensures r.Err? ==> state == Error && r.error in SERVICE_ERRORS + {ResumeFailed}
    {
      if state == Playing {
        r := Resume(device);
      } else {
        PublishNow();
        r := Ok(());
      }
    }

    /** The old stream is closed before the new one is opened. */
    method SwapStream(device: Device) returns (ok: bool)
      requires Valid() && replacement.Some?
      modifies this
      ensures Sound() && replacement.None? && replacementFrame == old(replacementFrame)
      ensures Progresses() && (!ok ==> Valid() && clip.None? && state == Error)
      ensures ok <==> UsableFormat(device.opens).Some?
      ensures ok ==> clip == old(replacement) && base == replacementFrame && Some(effective) == device.opens
      ensures ok ==> Books() == Account(base, 0, base, base, old(underrunCount))
      ensures ok ==> advances == old(advances) + 1 && state == if old(state) == Playing then Playing else Paused
      ensures ok ==> history == old(history) + [Publication(base, clip.value.sampleRate, advances, Stopped)]
    {
      var wasPlaying, next := state == Playing, replacement.value;
      CloseForReplacement();
      ok := OpenReplacement(next, device);
      if ok { state := if wasPlaying then Playing else Paused; }
    }

    /** A replacement that cannot be opened leaves no stream and an error. */
    method OpenReplacement(next: Clip, device: Device) returns (ok: bool)
      requires FramesSound() && HistorySound() && replacement.None? && clip.None?
      requires IsClip(next) && 0 <= replacementFrame <= next.frameCount
      modifies this`clip, this`effective, this`presentedFrame, this`state, this`segmentStartFrame, this`mixedBaseline
      modifies this`underrunEpisode, this`submittedFrame, this`base, this`fed, this`history, this`discontinuityId
      modifies this`advances
      ensures FramesSound() && HistorySound() && Progresses() && ok == UsableFormat(device.opens).Some?
      ensures !ok ==> clip.None? && state == Error
      ensures ok ==> clip == Some(next) && state == Stopped && !underrunEpisode && base == replacementFrame
      ensures ok ==> Books() == Account(base, 0, base, base, underrunCount) && Some(effective) == device.opens
      ensures ok ==> advances == old(advances) + 1
      ensures ok ==> history == old(history) + [Publication(base, next.sampleRate, advances, Stopped)]
    {
      ok := OpenLease(next, replacementFrame, device);
      if !ok { EnterError(device.atError); }
    }

    /** The replacement is taken out and the stream there was is closed. */
    method CloseForReplacement()
      requires Valid() && replacement.Some?
      modifies this`replacement, this`clip, this`mixedBaseline
      ensures FramesSound() && HistorySound() && replacement.None? && clip.None?
    {
      replacement := None;
      CloseStream();
    }

    /** A device that is no longer what it was is an error in every state. */
    method RecheckDevice(healthy: bool, device: Device) returns (r: Result<(), TransportError>)
      requires Valid()
      modifies this`presentedFrame, this`state, this`discontinuityId, this`advances, this`history
      ensures Valid() && Progresses() && (r.Ok? <==> healthy)
      ensures healthy || old(state) == Error ==> unchanged(this)
      ensures !healthy ==> state == Error
    {
      if healthy { return Ok(()); }
      r := Err(DeviceLost);
      EnterError(device.atError);
    }

    /** Whatever is asked of the transport and whatever its device answers. */
    method Live(operations: seq<Operation>)
      requires Valid()
      modifies this
      ensures Valid() && old(history) <= history
    {
      for i := 0 to |operations|
        invariant Valid() && old(history) <= history
      {
        Perform(operations[i]);
      }
    }

    method Perform(operation: Operation)
      requires Valid()
      modifies this
      ensures Valid() && Progresses()
    {
      var r;
      match operation {
        case DoLoad(source, device) => r := Load(Leased(source), device);
        case DoPlay(device) => r := Play(device);
        case DoPause(device) => r := Pause(device);
        case DoStop(device) => r := Stop(device);
        case DoSeek(positionMs, device) => r := SeekMs(positionMs, device);
        case DoService(device) => r := Service(device);
        case DoUnload => Unload();
        case DoPrepare(source, positionMs) => r := PrepareReplacement(Leased(source), positionMs);
        case DoActivate(device) => r := ActivateReplacement(device);
        case DoCancel => replacement := None;
        case DoRecheck(healthy, device) => r := RecheckDevice(healthy, device);
      }
    }
  }

  /** The samples of the frames from one to another, kept folded; FramesAre unfolds them. */
  ghost function Frames(clip: Clip, from: int, to: int, layers: nat := 3): seq<real>
    requires IsClip(clip) && 0 <= from <= to <= clip.frameCount
    decreases from, layers
  {
    if layers > 0 then Frames(clip, from, to, layers - 1)
    else
      Product(from, clip.channels, to, clip.channels);
      Product(to, clip.channels, clip.frameCount, clip.channels);
      clip.samples[from * clip.channels..to * clip.channels]
  }

  lemma {:induction false} FramesAre(clip: Clip, from: int, to: int, layers: nat := 3)
    requires IsClip(clip) && 0 <= from <= to <= clip.frameCount
    ensures 0 <= from * clip.channels <= to * clip.channels <= |clip.samples|
    ensures Frames(clip, from, to, layers) == clip.samples[from * clip.channels..to * clip.channels]
    decreases layers
  {
    Product(from, clip.channels, to, clip.channels);
    Product(to, clip.channels, clip.frameCount, clip.channels);
    if layers > 0 { FramesAre(clip, from, to, layers - 1); }
  }

  lemma {:induction false} FramesJoin(clip: Clip, from: int, middle: int, to: int)
    requires IsClip(clip) && 0 <= from <= middle <= to <= clip.frameCount
    ensures Frames(clip, from, to) == Frames(clip, from, middle) + Frames(clip, middle, to)
    ensures Frames(clip, from, from) == []
  {
    FramesAre(clip, from, from);
    FramesAre(clip, from, middle);
    FramesAre(clip, middle, to);
    FramesAre(clip, from, to);
  }

  lemma CountFits(clip: Clip)
    requires IsClip(clip)
    ensures clip.frameCount <= |clip.samples| <= INT64_MAX
  {
    Product(clip.frameCount, 1, clip.frameCount, clip.channels);
  }

  // ---------------------------------------------------------------- two runs

  const DEVICE_FORMAT := Format(8000, 1, 1)

  /** A device that answers everything and whose callback has mixed that many frames. */
  function Answering(mixed: nat): Device {
    Device(Some(DEVICE_FORMAT), Some(DEVICE_FORMAT), 0, true, true, true, true, Reading(0, 0), 0, Reading(mixed, 0),
           Reading(0, 0))
  }

  const ONE_FRAME := Clip(8000, 1, 1, [0.0])
  const SHORT_QUEUE := Config(40, 10, 1.0)

  /** A segment from the first frame on, of which that much was submitted and nothing presented. */
  predicate FromTheStart(a: Account, submitted: int) {
    a.start == 0 && a.baseline == 0 && a.presented == 0 && a.submitted == submitted
  }

  /** The first service submits the frame, and nothing has been heard yet. */
  lemma FirstService(clip: Clip, config: Config, format: Format, a: Account, device: Device)
    requires clip == ONE_FRAME && config == SHORT_QUEUE && format == DEVICE_FORMAT && device == Answering(0)
    requires FromTheStart(a, 0)
    ensures ResumeStops(clip, config, format, 0, device) == None
    ensures FromTheStart(AfterService(clip, config, format, a, device), 1)
  {
    ConvertedIs(0, clip.sampleRate, format.rate);
    assert QueueFrames(clip, config.targetQueueMs) == 320 && QueueFrames(clip, config.refillLowWaterMs) == 80;
    assert FromTheStart(AfterRefill(clip, config, a, 0), 1);
  }

  lemma LastFrameIsHeard(clip: Clip, format: Format, a: Account, device: Device)
    requires clip == ONE_FRAME && format == DEVICE_FORMAT && device == Answering(100) && FromTheStart(a, 1)
    ensures HeardBy(clip, format, device.atEnd, a) == 1
  {
    ConvertedIs(99, clip.sampleRate, format.rate);
  }

  /** A clip of one frame is loaded, played and, once the device is through with it, paused: the transport is paused at
      the last frame, not ended. */
  method PausedAtTheEnd() returns (t: SdlTransport)
    ensures t.Valid() && t.clip == Some(ONE_FRAME) && t.state == Paused && t.presentedFrame == ONE_FRAME.frameCount
  {
    t := new SdlTransport(SHORT_QUEUE);
    var loaded := t.Load(Leased(Some(Source(8000, 1, [0.0]))), Answering(0));
    ghost var clip, after := t.clip.value, AfterService(t.clip.value, t.config, t.effective, t.Books(), Answering(0));
    FirstService(clip, t.config, t.effective, t.Books(), Answering(0));
    LastFrameIsHeard(clip, t.effective, after, Answering(100));
    PlayAndPause(t, Answering(0), Answering(100));
  }

  /** Whenever all has been heard by the time of a pause that was not when the stream began to play. */
  method PlayAndPause(t: SdlTransport, play: Device, pause: Device)
    requires t.Valid() && t.state == Stopped && t.clip.Some? && t.effective.rate > 0 && pause.pauses
    requires ResumeStops(t.clip.value, t.config, t.effective, t.submittedFrame, play) == None
    requires var after := AfterService(t.clip.value, t.config, t.effective, t.Books(), play);
      && after.presented != t.clip.value.frameCount
      && HeardBy(t.clip.value, t.effective, pause.atEnd, after) == t.clip.value.frameCount
    modifies t
    ensures t.Valid() && t.clip == old(t.clip) && t.state == Paused && t.presentedFrame == t.clip.value.frameCount
  {
    var played := t.Play(play);
    var paused := t.Pause(pause);
  }

  /** A paused stream is replaced at its second frame: a stopped transport is published there. */
  method StoppedAwayFromZero() returns (t: SdlTransport)
    ensures t.Valid() && exists p :: p in t.history && p.state == Stopped && p.presentedFrame == 1
  {
    t := new SdlTransport(SHORT_QUEUE);
    var clip := Leased(Some(Source(8000, 1, [0.0, 0.0])));
    var loaded := t.Load(clip, Answering(0));
    assert FrameAt(clip.value, 0.125) == 1;
    var prepared := t.PrepareReplacement(clip, 0.125);
    ghost var before := t.history;
    var activated := t.ActivateReplacement(Answering(0));
    assert t.history[|before|].state == Stopped;
  }
}
