/**
 The animation sampler: where a clip instance is in its clip at a chart beat, exactly, and what the clip's
 tracks give there.
 */
module AnimationSampler {
  import opened Wrappers
  import opened RationalBeats
  import opened BehaviorSampling

  datatype ClipError = DurationInvalid | ScaleInvalid | BeatOverflow | SegmentInvalid
    | Interpolation(error: SampleError)

  datatype FillMode = FillNone | Hold

  datatype Iterations = Infinite | Finite(count: nat)

  datatype Instance = Instance(startBeat: RationalBeat, durationScale: RationalBeat, iterations: Iterations,
                               fillMode: FillMode)

  ghost predicate CanonicalInstance(instance: Instance) {
    Canonical(instance.startBeat) && Canonical(instance.durationScale)
  }

  // ---------------------------------------------------------------- looping, over the reals

  /** So many whole durations.  The layers only keep the product out of proofs that do not need it. */
  ghost function Laps(duration: real, laps: int, layers: nat := 3): real
    decreases laps, layers
  {
    if layers == 0 then duration * laps as real else Laps(duration, laps, layers - 1)
  }

  lemma {:induction false} LapsIs(duration: real, laps: int, layers: nat)
    ensures Laps(duration, laps, layers) == duration * laps as real
    decreases layers
  {
    if layers > 0 { LapsIs(duration, laps, layers - 1); }
  }

  /** In the lap of this index, so far into it. */
  ghost predicate InLap(lap: int, local: real, into: real, duration: real) {
    lap >= 0 && 0.0 <= into < duration && local == Laps(duration, lap) + into
  }

  lemma {:induction false} LapsApart(j: int, k: int, duration: real)
    requires duration > 0.0 && j < k
    ensures Laps(duration, j) + duration <= Laps(duration, k)
  {
    LapsIs(duration, j, 3);
    LapsIs(duration, k, 3);
    NonNegativeProduct(duration, (k - j - 1) as real);
    Spread(duration, j as real, k as real, (k - j - 1) as real);
  }

  lemma Spread(d: real, x: real, y: real, gap: real)
    requires y == x + 1.0 + gap
    ensures d * y == d * x + d + d * gap
  {
  }

  lemma NonNegativeProduct(x: real, y: real)
    requires x >= 0.0 && y >= 0.0
    ensures x * y >= 0.0
  {
  }

  lemma {:induction false} LapsCombine(duration: real, j: int, k: int)
    ensures Laps(duration, j) + Laps(duration, k) == Laps(duration, j + k)
  {
    LapsIs(duration, j, 3);
    LapsIs(duration, k, 3);
    LapsIs(duration, j + k, 3);
  }

  /** There is only one way to be in a lap, so the beat inside the clip is determined. */
  lemma {:induction false} LapIsUnique(j: int, k: int, local: real, a: real, b: real, duration: real)
    requires InLap(j, local, a, duration) && InLap(k, local, b, duration)
    ensures j == k && a == b
  {
    if j < k { LapsApart(j, k, duration); }
    if k < j { LapsApart(k, j, duration); }
  }

  /** How far into the clip an instance is: nothing before it starts; while its iterations last, the local time
      modulo the duration; afterwards the clip's end or nothing. */
  ghost predicate Resolves(iterations: Iterations, fillMode: FillMode, duration: RationalBeat, local: real,
                           r: Option<RationalBeat>)
    requires duration.denominator > 0
  {
    if local < 0.0 then r == None
    else if iterations.Infinite? || local < Laps(Value(duration), iterations.count) then
      r.Some? && Canonical(r.value) && exists lap :: InLap(lap, local, Value(r.value), Value(duration))
    else r == if fillMode == Hold then Some(duration) else None
  }

  /** The answer is unique: resolving is a function of the elapsed local time. */
  lemma {:induction false} ResolvesOneWay(iterations: Iterations, fillMode: FillMode, duration: RationalBeat,
                                          local: real, r: Option<RationalBeat>, s: Option<RationalBeat>)
    requires duration.denominator > 0
    requires Resolves(iterations, fillMode, duration, local, r) && Resolves(iterations, fillMode, duration, local, s)
    ensures r == s
  {
    if local >= 0.0 && (iterations.Infinite? || local < Laps(Value(duration), iterations.count)) {
      var j :| InLap(j, local, Value(r.value), Value(duration));
      var k :| InLap(k, local, Value(s.value), Value(duration));
      LapIsUnique(j, k, local, Value(r.value), Value(s.value), Value(duration));
      CanonicalIsUnique(r.value, s.value);
    }
  }

  /** An endless clip repeats: whole durations later it is at the same beat. */
  lemma {:induction false} EndlessClipRepeats(fillMode: FillMode, duration: RationalBeat, local: real, laps: nat,
                                              r: Option<RationalBeat>, later: Option<RationalBeat>)
    requires duration.denominator > 0 && duration.numerator > 0 && local >= 0.0
    requires Resolves(Infinite, fillMode, duration, local, r)
    requires Resolves(Infinite, fillMode, duration, local + Laps(Value(duration), laps), later)
    ensures later == r
  {
    SignOfValue(duration);
    var d := Value(duration);
    LapsIs(d, laps, 3);
    NonNegativeProduct(d, laps as real);
    var j :| InLap(j, local, Value(r.value), d);
    var k :| InLap(k, local + Laps(d, laps), Value(later.value), d);
    LapsCombine(d, j, laps);
    assert InLap(j + laps, local + Laps(d, laps), Value(r.value), d);
    LapIsUnique(j + laps, k, local + Laps(d, laps), Value(r.value), Value(later.value), d);
    CanonicalIsUnique(r.value, later.value);
  }

  /** Whatever is resolved lies within the clip. */
  lemma ResolvedIsInClip(iterations: Iterations, fillMode: FillMode, duration: RationalBeat, local: real,
                         r: Option<RationalBeat>)
    requires duration.denominator > 0 && duration.numerator > 0
    requires Resolves(iterations, fillMode, duration, local, r) && r.Some?
    ensures r.value.denominator > 0 && r.value.numerator >= 0 && Value(r.value) <= Value(duration)
  {
    SignOfValue(duration);
    assert r.value.denominator > 0;
    SignOfValue(r.value);
  }

  // ---------------------------------------------------------------- the iteration's index and remainder

  /** The sampler's test for an instance whose iterations are over. */
  predicate Finished(iterations: Iterations, index: int, remainder: RationalBeat) {
    iterations.Finite?
    && (index > iterations.count
        || (index == iterations.count && ((remainder.numerator == 0 && index > 0) || remainder.numerator != 0)))
  }

  /** It is right, for instances that iterate at least once. */
  lemma {:induction false} FinishedExactly(iterations: Iterations, index: int, local: real, remainder: RationalBeat,
                                           duration: real)
    requires remainder.denominator > 0 && (iterations.Finite? ==> iterations.count >= 1)
    requires InLap(index, local, Value(remainder), duration)
    ensures Finished(iterations, index, remainder) <==>
            !(iterations.Infinite? || local < Laps(duration, iterations.count))
  {
    if iterations.Finite? {
      if index < iterations.count { LapsApart(index, iterations.count, duration); }
      if iterations.count < index { LapsApart(iterations.count, index, duration); }
    }
  }

  lemma {:induction false} LocalIsNonNegative(lap: int, local: real, into: real, duration: real)
    requires InLap(lap, local, into, duration)
    ensures local >= 0.0
  {
    LapsIs(duration, lap, 3);
    NonNegativeProduct(duration, lap as real);
  }

  /** Which lap: the floor of a quotient. */
  method LapIndex(local: RationalBeat, duration: RationalBeat) returns (r: Result<int, ClipError>)
    requires Canonical(local) && Canonical(duration) && local.numerator >= 0 && duration.numerator > 0
    ensures r == Err(BeatOverflow) <==> !HasQuotient(local, duration)
    ensures r.Err? ==> r == Err(BeatOverflow)
    ensures r.Ok? ==>
      InInt64(r.value) && InLap(r.value, Value(local), Value(local) - Laps(Value(duration), r.value), Value(duration))
  {
    SignOfValue(local);
    SignOfValue(duration);
    var quotient := Divide(local, duration);
    if quotient.Err? { return Err(BeatOverflow); }
    var index := Floor(quotient.value).value;
    FloorSplits(Value(local), Value(duration), Value(quotient.value), index);
    r := Ok(index);
  }

  /** The quotient, the lap's start and the remainder are all beats. */
  ghost predicate LoopFits(local: RationalBeat, duration: RationalBeat)
    requires Canonical(local) && duration.denominator > 0
  {
    HasQuotient(local, duration) && exists lap: int, start: RationalBeat :: LapStartsAt(local, duration, lap, start)
  }

  ghost predicate LapStartsAt(local: RationalBeat, duration: RationalBeat, lap: int, start: RationalBeat)
    requires Canonical(local) && duration.denominator > 0
  {
    && Canonical(start) && Value(start) == Laps(Value(duration), lap)
    && InLap(lap, Value(local), Value(local) - Value(start), Value(duration)) && Subtract(local, start).Ok?
  }

  lemma {:induction false} LapStartIsUnique(local: RationalBeat, duration: RationalBeat, lap: int, start: RationalBeat)
    requires Canonical(local) && duration.denominator > 0
    requires InLap(lap, Value(local), Value(local) - Laps(Value(duration), lap), Value(duration))
    requires Canonical(start) && Value(start) == Laps(Value(duration), lap)
    ensures HasQuotient(local, duration) ==> (LoopFits(local, duration) <==> Subtract(local, start).Ok?)
  {
    if LoopFits(local, duration) {
      var other, from :| LapStartsAt(local, duration, other, from);
      LapIsUnique(other, lap, Value(local), Value(local) - Value(from), Value(local) - Value(start), Value(duration));
      CanonicalIsUnique(from, start);
    }
    assert Subtract(local, start).Ok? ==> LapStartsAt(local, duration, lap, start);
  }

  lemma {:induction false} NoLapStart(local: RationalBeat, duration: RationalBeat, lap: int)
    requires Canonical(local) && duration.denominator > 0 && !Representable(Laps(Value(duration), lap))
    requires InLap(lap, Value(local), Value(local) - Laps(Value(duration), lap), Value(duration))
    ensures !LoopFits(local, duration)
  {
    if LoopFits(local, duration) {
      var other, from :| LapStartsAt(local, duration, other, from);
      LapIsUnique(other, lap, Value(local), Value(local) - Value(from), Value(local) - Laps(Value(duration), lap),
                  Value(duration));
    }
  }

  /** The lap and how far into it. */
  method LoopPosition(local: RationalBeat, duration: RationalBeat) returns (r: Result<(int, RationalBeat), ClipError>)
    requires Canonical(local) && Canonical(duration) && local.numerator >= 0 && duration.numerator > 0
    ensures r.Err? ==> r.error == BeatOverflow
    ensures r.Err? <==> !LoopFits(local, duration)
    ensures r.Ok? ==> Canonical(r.value.1) && InLap(r.value.0, Value(local), Value(r.value.1), Value(duration))
  {
    var index := LapIndex(local, duration);
    if index.Err? { return Err(BeatOverflow); }
    var start := LapStart(duration, index.value);
    if start.Err? {
      NoLapStart(local, duration, index.value);
      return Err(BeatOverflow);
    }
    LapStartIsUnique(local, duration, index.value, start.value);
    var remainder := Subtract(local, start.value);
    if remainder.Err? { return Err(BeatOverflow); }
    r := Ok((index.value, remainder.value));
  }

  method LapStart(duration: RationalBeat, index: int) returns (r: Result<RationalBeat, BeatError>)
    requires Canonical(duration) && InInt64(index)
    ensures r.Ok? ==> Canonical(r.value) && Value(r.value) == Laps(Value(duration), index)
    ensures r.Err? <==> !Representable(Laps(Value(duration), index))
  {
    var counted := Create(index, 1);
    r := Multiply(duration, counted.value);
    RatioIs(index, 1, index as real);
    LapsIs(Value(duration), index, 3);
  }

  lemma {:induction false} FloorSplits(local: real, duration: real, quotient: real, index: int)
    requires local >= 0.0 && duration > 0.0 && quotient * duration == local
    requires index as real <= quotient < index as real + 1.0
    ensures index >= 0 && 0.0 <= local - Laps(duration, index) < duration
  {
    LapsIs(duration, index, 3);
    var part := quotient - index as real;
    NonNegativeProduct(part, duration);
    PositiveProduct(1.0 - part, duration);
    assert part * duration == local - duration * index as real;
    if quotient < 0.0 { PositiveProduct(-quotient, duration); }
    assert (index + 1) as real == index as real + 1.0;
    assert 0.0 < (index + 1) as real;
  }

  lemma PositiveProduct(x: real, y: real)
    requires x > 0.0 && y > 0.0
    ensures x * y > 0.0
  {
  }

  /** The answer for a local time that has begun. */
  method Place(local: RationalBeat, duration: RationalBeat, iterations: Iterations, fillMode: FillMode)
    returns (r: Result<Option<RationalBeat>, ClipError>)
    requires Canonical(local) && Canonical(duration) && local.numerator >= 0 && duration.numerator > 0
    requires iterations.Finite? ==> iterations.count >= 1
    ensures r.Err? ==> r.error == BeatOverflow
    ensures r.Err? <==> !LoopFits(local, duration)
    ensures r.Ok? ==> Resolves(iterations, fillMode, duration, Value(local), r.value)
  {
    var loop := LoopPosition(local, duration);
    if loop.Err? { return Err(loop.error); }
    var (index, remainder) := loop.value;
    FinishedExactly(iterations, index, Value(local), remainder, Value(duration));
    LocalIsNonNegative(index, Value(local), Value(remainder), Value(duration));
    var atBoundary := remainder.numerator == 0 && index > 0;
    if iterations.Finite?
        && (index > iterations.count || (index == iterations.count && (atBoundary || remainder.numerator != 0))) {
      return Ok(if fillMode == Hold then Some(duration) else None);
    }
    if atBoundary {
      ZeroIsTheOnlyZero(remainder);
      return Ok(Some(ZERO));
    }
    r := Ok(Some(remainder));
  }

  lemma ZeroIsTheOnlyZero(b: RationalBeat)
    requires Canonical(b) && b.numerator == 0
    ensures b == ZERO
  {
    assert Gcd(0, b.denominator) == Gcd(b.denominator, 0) == b.denominator;
  }

  // ---------------------------------------------------------------- the instance's own time

  /** Beats since the instance started, measured in clip beats. */
  ghost predicate HasLocalTime(instance: Instance, chartBeat: RationalBeat, local: real)
    requires instance.startBeat.denominator > 0 && instance.durationScale.denominator > 0 && chartBeat.denominator > 0
  {
    local * Value(instance.durationScale) == Value(chartBeat) - Value(instance.startBeat)
  }

  /** Some local time exists, and it is negative just before the start. */
  lemma LocalTimeExists(elapsed: real, scale: real) returns (local: real)
    requires scale > 0.0
    ensures local * scale == elapsed && (local < 0.0 <==> elapsed < 0.0)
  {
    local := elapsed / scale;
    assert local * scale == elapsed;
    if local >= 0.0 { NonNegativeProduct(local, scale); } else { PositiveProduct(-local, scale); }
  }

  /** And only one. */
  lemma LocalTimeIsUnique(instance: Instance, chartBeat: RationalBeat, x: real, y: real)
    requires instance.startBeat.denominator > 0 && instance.durationScale.denominator > 0 && chartBeat.denominator > 0
    requires instance.durationScale.numerator > 0
    requires HasLocalTime(instance, chartBeat, x) && HasLocalTime(instance, chartBeat, y)
    ensures x == y
  {
    SignOfValue(instance.durationScale);
    SameQuotient(Value(instance.durationScale), x, y);
  }

  /** The elapsed beats, and once started their quotient by the scale, are beats. */
  ghost predicate ElapsedFits(instance: Instance, chartBeat: RationalBeat)
    requires CanonicalInstance(instance) && Canonical(chartBeat)
  {
    var elapsed := Subtract(chartBeat, instance.startBeat);
    elapsed.Ok? && (elapsed.value.numerator >= 0 ==> HasQuotient(elapsed.value, instance.durationScale))
  }

  method ElapsedLocal(instance: Instance, chartBeat: RationalBeat)
    returns (r: Result<Option<RationalBeat>, ClipError>, ghost local: real)
    requires CanonicalInstance(instance) && Canonical(chartBeat) && instance.durationScale.numerator > 0
    ensures HasLocalTime(instance, chartBeat, local)
    ensures r.Err? ==> r.error == BeatOverflow
    ensures r.Err? <==> !ElapsedFits(instance, chartBeat)
    ensures r.Ok? ==> (local < 0.0 <==> r.value == None)
    ensures r.Ok? && r.value.Some? ==>
      (Canonical(r.value.value) && r.value.value.numerator >= 0 && Value(r.value.value) == local)
  {
    SignOfValue(instance.durationScale);
    local := LocalTimeExists(Value(chartBeat) - Value(instance.startBeat), Value(instance.durationScale));
    var elapsed := Subtract(chartBeat, instance.startBeat);
    if elapsed.Err? { return Err(BeatOverflow), local; }
    SignOfValue(elapsed.value);
    if elapsed.value.numerator < 0 { return Ok(None), local; }
    var localElapsed := DivideScaled(elapsed.value, instance.durationScale, local);
    r := if localElapsed.Err? then Err(BeatOverflow) else Ok(Some(localElapsed.value));
  }

  /** The quotient of elapsed beats by the scale. */
  method DivideScaled(elapsed: RationalBeat, scale: RationalBeat, ghost local: real)
    returns (r: Result<RationalBeat, BeatError>)
    requires Canonical(elapsed) && Canonical(scale) && scale.numerator > 0 && elapsed.numerator >= 0
    requires local * Value(scale) == Value(elapsed) && local >= 0.0
    ensures r.Err? <==> !HasQuotient(elapsed, scale)
    ensures r.Ok? ==> Canonical(r.value) && r.value.numerator >= 0 && Value(r.value) == local
  {
    SignOfValue(scale);
    SignOfValue(elapsed);
    r := Divide(elapsed, scale);
    if r.Ok? {
      SameQuotient(Value(scale), Value(r.value), local);
      SignOfValue(r.value);
    }
  }

  /** Every beat the resolution passes through is representable. */
  ghost predicate ResolutionFits(instance: Instance, duration: RationalBeat, chartBeat: RationalBeat, local: real)
    requires CanonicalInstance(instance) && Canonical(duration) && Canonical(chartBeat)
  {
    ElapsedFits(instance, chartBeat)
    && (local >= 0.0 ==>
          exists beat: RationalBeat :: Canonical(beat) && Value(beat) == local && LoopFits(beat, duration))
  }

  lemma FitsIfLoopFits(instance: Instance, duration: RationalBeat, chartBeat: RationalBeat, local: RationalBeat)
    requires CanonicalInstance(instance) && Canonical(duration) && Canonical(chartBeat)
    requires ElapsedFits(instance, chartBeat)
    requires Canonical(local) && local.numerator >= 0
    ensures ResolutionFits(instance, duration, chartBeat, Value(local)) <==> LoopFits(local, duration)
  {
    SignOfValue(local);
    if ResolutionFits(instance, duration, chartBeat, Value(local)) {
      var beat: RationalBeat :| Canonical(beat) && Value(beat) == Value(local) && LoopFits(beat, duration);
      CanonicalIsUnique(beat, local);
    }
  }

  method ResolveLocalBeat(instance: Instance, duration: RationalBeat, chartBeat: RationalBeat)
    returns (r: Result<Option<RationalBeat>, ClipError>, ghost local: real)
    requires CanonicalInstance(instance) && Canonical(duration) && Canonical(chartBeat)
    requires instance.iterations.Finite? ==> instance.iterations.count >= 1
    ensures duration.numerator <= 0 ==> r == Err(DurationInvalid)
    ensures duration.numerator > 0 && instance.durationScale.numerator <= 0 ==> r == Err(ScaleInvalid)
    ensures duration.numerator > 0 && instance.durationScale.numerator > 0 ==>
      HasLocalTime(instance, chartBeat, local) && (r.Err? <==> !ResolutionFits(instance, duration, chartBeat, local))
    ensures duration.numerator > 0 && instance.durationScale.numerator > 0 && r.Err? ==> r.error == BeatOverflow
    ensures r.Ok? ==> Resolves(instance.iterations, instance.fillMode, duration, local, r.value)
  {
    local := 0.0;
    if duration.numerator <= 0 { return Err(DurationInvalid), local; }
    if instance.durationScale.numerator <= 0 { return Err(ScaleInvalid), local; }
    var localElapsed;
    localElapsed, local := ElapsedLocal(instance, chartBeat);
    if localElapsed.Err? { return Err(localElapsed.error), local; }
    if localElapsed.value == None { return Ok(None), local; }
    FitsIfLoopFits(instance, duration, chartBeat, localElapsed.value.value);
    r := Place(localElapsed.value.value, duration, instance.iterations, instance.fillMode);
  }

  // ---------------------------------------------------------------- segments and tracks

  datatype Segment = Segment(startBeat: RationalBeat, durationBeats: RationalBeat, startValue: BehaviorValue,
                             endValue: BehaviorValue, startSlope: real, endSlope: real)

  ghost predicate CanonicalSegment(segment: Segment) {
    Canonical(segment.startBeat) && Canonical(segment.durationBeats)
  }

  ghost function Start(segment: Segment): real
    requires CanonicalSegment(segment)
  {
    Value(segment.startBeat)
  }

  /** What a started segment gives: its end value from its end on, and on the way there its Hermite curve. */
  ghost function SegmentValue(rot: Rotations, segment: Segment, beat: real): Result<BehaviorValue, SampleError>
    requires CanonicalSegment(segment) && Start(segment) <= beat
  {
    var duration := Value(segment.durationBeats);
    if beat >= Start(segment) + duration then Ok(segment.endValue)
    else Interpolate(rot, segment.startValue, segment.endValue,
                     HermiteProgress((beat - Start(segment)) / duration, segment.startSlope, segment.endSlope))
  }

  ghost predicate SegmentsCanonical(segments: seq<Segment>) {
    forall i :: 0 <= i < |segments| ==> CanonicalSegment(segments[i])
  }

  ghost predicate SegmentsAscend(segments: seq<Segment>)
    requires SegmentsCanonical(segments)
  {
    forall i, j :: 0 <= i < j < |segments| ==> Start(segments[i]) <= Start(segments[j])
  }

  /** How many segments, from the front, have started: a plain scan. */
  ghost function StartedSegments(segments: seq<Segment>, beat: real, from: nat := 0): (n: nat)
    requires SegmentsCanonical(segments) && from <= |segments|
    ensures from <= n <= |segments|
    decreases |segments| - from
  {
    if from == |segments| || beat < Start(segments[from]) then from else StartedSegments(segments, beat, from + 1)
  }

  lemma {:induction false} ScanStopsAt(segments: seq<Segment>, beat: real, from: nat, n: nat)
    requires SegmentsCanonical(segments) && from <= n <= |segments|
    requires forall i :: from <= i < n ==> Start(segments[i]) <= beat
    requires n < |segments| ==> beat < Start(segments[n])
    ensures StartedSegments(segments, beat, from) == n
    decreases n - from
  {
    if from < n { ScanStopsAt(segments, beat, from + 1, n); }
  }

  /** Where std::upper_bound stops, by bisection: the plain scan's answer. */
  method UpperBoundSegment(segments: seq<Segment>, beat: RationalBeat) returns (n: nat)
    requires SegmentsCanonical(segments) && SegmentsAscend(segments) && Canonical(beat)
    ensures n == StartedSegments(segments, Value(beat))
  {
    n := 0;
    var high := |segments|;
    while n < high
      invariant 0 <= n <= high <= |segments|
      invariant forall i :: 0 <= i < n ==> Start(segments[i]) <= Value(beat)
      invariant forall i :: high <= i < |segments| ==> Value(beat) < Start(segments[i])
    {
      var middle := n + (high - n) / 2;
      var order := Compare(beat, segments[middle].startBeat);
      assert Start(segments[middle]) == Value(segments[middle].startBeat);
      if order == Less {
        high := middle;
      } else {
        n := middle + 1;
      }
    }
    ScanStopsAt(segments, Value(beat), 0, n);
  }

  /** The track's value: nothing before its first segment, otherwise what the last started segment gives. */
  ghost function TrackValue(rot: Rotations, segments: seq<Segment>,
                            beat: real): Result<Option<BehaviorValue>, SampleError>
    requires SegmentsCanonical(segments)
  {
    var n := StartedSegments(segments, beat);
    if n == 0 then Ok(None) else
      LastStartedHasStarted(segments, beat, 0);
      match SegmentValue(rot, segments[n - 1], beat)
      case Ok(value) => Ok(Some(value))
      case Err(error) => Err(error)
  }

  lemma {:induction false} LastStartedHasStarted(segments: seq<Segment>, beat: real, from: nat)
    requires SegmentsCanonical(segments) && from <= |segments|
    ensures var n := StartedSegments(segments, beat, from);
            n > from ==> Start(segments[n - 1]) <= beat
    decreases |segments| - from
  {
    if from < |segments| && Start(segments[from]) <= beat { LastStartedHasStarted(segments, beat, from + 1); }
  }

  method SegmentEnd(segment: Segment) returns (r: Result<RationalBeat, ClipError>)
    requires CanonicalSegment(segment)
    ensures r.Err? ==> r.error == BeatOverflow
    ensures r.Err? <==> Add(segment.startBeat, segment.durationBeats).Err?
    ensures r.Ok? ==> Canonical(r.value) && Value(r.value) == Start(segment) + Value(segment.durationBeats)
  {
    var end := Add(segment.startBeat, segment.durationBeats);
    if end.Err? { return Err(BeatOverflow); }
    r := Ok(end.value);
  }

  ghost function Lift<T>(r: Result<T, SampleError>): Result<T, ClipError> {
    match r case Ok(value) => Ok(value) case Err(error) => Err(Interpolation(error))
  }

  /** The elapsed beats, the segment's end or the progress is no beat. */
  ghost predicate SegmentOverflows(segment: Segment, beat: RationalBeat)
    requires CanonicalSegment(segment) && Canonical(beat)
  {
    segment.durationBeats.numerator != 0
    && (var elapsed := Subtract(beat, segment.startBeat);
        || elapsed.Err? || Add(segment.startBeat, segment.durationBeats).Err?
        || (Value(beat) < Start(segment) + Value(segment.durationBeats)
            && !HasQuotient(elapsed.value, segment.durationBeats)))
  }

  method SampleSegment(rot: Rotations, segment: Segment, beat: RationalBeat)
    returns (r: Result<BehaviorValue, ClipError>)
    requires CanonicalSegment(segment) && Canonical(beat)
    ensures Value(beat) < Start(segment) ==> r == Err(SegmentInvalid)
    ensures Value(beat) >= Start(segment) ==> r == if SegmentOverflows(segment, beat) then Err(BeatOverflow)
                                                    else Lift(SegmentValue(rot, segment, Value(beat)))
  {
    var order := Compare(beat, segment.startBeat);
    if order == Less { return Err(SegmentInvalid); }
    SignOfValue(segment.durationBeats);
    if segment.durationBeats.numerator == 0 { return Ok(segment.endValue); }
    var elapsed := Subtract(beat, segment.startBeat);
    if elapsed.Err? { return Err(BeatOverflow); }
    var end := SegmentEnd(segment);
    if end.Err? { return Err(end.error); }
    order := Compare(beat, end.value);
    if order != Less { return Ok(segment.endValue); }
    var normalized := Progress(elapsed.value, segment.durationBeats);
    if normalized.Err? { return Err(BeatOverflow); }
    var progress := HermiteProgress(Value(normalized.value), segment.startSlope, segment.endSlope);
    var value := Interpolate(rot, segment.startValue, segment.endValue, progress);
    r := match value case Ok(v) => Ok(v) case Err(error) => Err(Interpolation(error));
  }

  /** How much of a segment has elapsed, between 0 and 1. */
  method Progress(elapsed: RationalBeat, duration: RationalBeat) returns (r: Result<RationalBeat, BeatError>)
    requires Canonical(elapsed) && Canonical(duration) && duration.numerator > 0
    ensures r.Err? <==> !HasQuotient(elapsed, duration)
    ensures r.Ok? ==> Canonical(r.value) && Value(duration) != 0.0 && Value(r.value) == Value(elapsed) / Value(duration)
  {
    r := Divide(elapsed, duration);
    if r.Ok? { ProgressIsQuotient(Value(r.value), Value(elapsed), Value(duration)); }
  }

  lemma ProgressIsQuotient(progress: real, elapsed: real, duration: real)
    requires duration != 0.0 && progress * duration == elapsed
    ensures progress == elapsed / duration
  {
    SameQuotient(duration, progress, elapsed / duration);
  }

  /** The last started segment's end is no beat, or sampling it overflows. */
  ghost predicate TrackOverflows(segments: seq<Segment>, beat: RationalBeat)
    requires SegmentsCanonical(segments) && Canonical(beat)
  {
    var n := StartedSegments(segments, Value(beat));
    n > 0
    && (|| Add(segments[n - 1].startBeat, segments[n - 1].durationBeats).Err?
        || (Value(beat) < Start(segments[n - 1]) + Value(segments[n - 1].durationBeats)
            && SegmentOverflows(segments[n - 1], beat)))
  }

  method SampleTrack(rot: Rotations, segments: seq<Segment>, beat: RationalBeat)
    returns (r: Result<Option<BehaviorValue>, ClipError>)
    requires SegmentsCanonical(segments) && SegmentsAscend(segments) && Canonical(beat)
    ensures r == if TrackOverflows(segments, beat) then Err(BeatOverflow)
        else Lift(TrackValue(rot, segments, Value(beat)))
  {
    if segments == [] { return Ok(None); }
    var order := Compare(beat, segments[0].startBeat);
    if order == Less { return Ok(None); }
    var next := UpperBoundSegment(segments, beat);
    LastStartedHasStarted(segments, Value(beat), 0);
    var segment := segments[next - 1];
    var end := SegmentEnd(segment);
    if end.Err? { return Err(end.error); }
    order := Compare(beat, end.value);
    if order == Less {
      var value := SampleSegment(rot, segment, beat);
      if value.Err? { return Err(value.error); }
      return Ok(Some(value.value));
    }
    r := Ok(Some(segment.endValue));
  }

  // ---------------------------------------------------------------- whole clips

  datatype Track = Track(property: string, segments: seq<Segment>)

  datatype Step<T> = Step(beat: RationalBeat, value: T)

  datatype StepTrack<T> = StepTrack(property: string, steps: seq<Step<T>>)

  datatype Clip<T> = Clip(durationBeats: RationalBeat, tracks: seq<Track>, stepTracks: seq<StepTrack<T>>)

  datatype TrackSample = TrackSample(property: string, value: BehaviorValue)

  datatype StepSample<T> = StepSample(property: string, value: T)

  datatype ClipSample<T> = ClipSample(localBeat: RationalBeat, tracks: seq<TrackSample>, steps: seq<StepSample<T>>)

  ghost predicate StepsAscend<T>(steps: seq<Step<T>>) {
    && (forall i :: 0 <= i < |steps| ==> Canonical(steps[i].beat))
    && forall i, j :: 0 <= i < j < |steps| ==> Value(steps[i].beat) <= Value(steps[j].beat)
  }

  /** The number of steps at or before the beat, from the front. */
  ghost function StepsReached<T>(steps: seq<Step<T>>, beat: real, from: nat := 0): (n: nat)
    requires StepsAscend(steps) && from <= |steps|
    ensures from <= n <= |steps|
    decreases |steps| - from
  {
    if from == |steps| || beat < Value(steps[from].beat) then from else StepsReached(steps, beat, from + 1)
  }

  lemma {:induction false} ReachedStopsAt<T>(steps: seq<Step<T>>, beat: real, from: nat, n: nat)
    requires StepsAscend(steps) && from <= n <= |steps|
    requires forall i :: from <= i < n ==> Value(steps[i].beat) <= beat
    requires n < |steps| ==> beat < Value(steps[n].beat)
    ensures StepsReached(steps, beat, from) == n
    decreases n - from
  {
    if from < n { ReachedStopsAt(steps, beat, from + 1, n); }
  }

  ghost function StepValue<T>(steps: seq<Step<T>>, beat: real): Option<T>
    requires StepsAscend(steps)
  {
    var n := StepsReached(steps, beat);
    if n == 0 then None else Some(steps[n - 1].value)
  }

  method SampleStepTrack<T>(steps: seq<Step<T>>, beat: RationalBeat) returns (r: Option<T>)
    requires StepsAscend(steps) && Canonical(beat)
    ensures r == StepValue(steps, Value(beat))
  {
    if steps == [] { return None; }
    var order := Compare(beat, steps[0].beat);
    if order == Less { return None; }
    var n, high := 0, |steps|;
    while n < high
      invariant 0 <= n <= high <= |steps|
      invariant forall i :: 0 <= i < n ==> Value(steps[i].beat) <= Value(beat)
      invariant forall i :: high <= i < |steps| ==> Value(beat) < Value(steps[i].beat)
    {
      var middle := n + (high - n) / 2;
      order := Compare(beat, steps[middle].beat);
      if order == Less {
        high := middle;
      } else {
        n := middle + 1;
      }
    }
    ReachedStopsAt(steps, Value(beat), 0, n);
    r := Some(steps[n - 1].value);
  }

  ghost predicate ClipReadable<T>(clip: Clip<T>) {
    && Canonical(clip.durationBeats)
    && (forall i :: 0 <= i < |clip.tracks| ==>
          SegmentsCanonical(clip.tracks[i].segments) && SegmentsAscend(clip.tracks[i].segments))
    && forall i :: 0 <= i < |clip.stepTracks| ==> StepsAscend(clip.stepTracks[i].steps)
  }

  /** The samples of the first so many tracks, the tracks that have not begun left out. */
  ghost function TracksAt<T>(rot: Rotations, clip: Clip<T>, beat: real,
                             count: nat): Result<seq<TrackSample>, SampleError>
    requires ClipReadable(clip) && count <= |clip.tracks|
  {
    if count == 0 then Ok([]) else
      match TracksAt(rot, clip, beat, count - 1)
      case Err(error) => Err(error)
      case Ok(before) =>
        match TrackValue(rot, clip.tracks[count - 1].segments, beat)
        case Err(error) => Err(error)
        case Ok(None) => Ok(before)
        case Ok(Some(value)) => Ok(before + [TrackSample(clip.tracks[count - 1].property, value)])
  }

  ghost function StepsAt<T>(clip: Clip<T>, beat: real, count: nat): seq<StepSample<T>>
    requires ClipReadable(clip) && count <= |clip.stepTracks|
  {
    if count == 0 then [] else
      var before := StepsAt(clip, beat, count - 1);
      match StepValue(clip.stepTracks[count - 1].steps, beat)
      case None => before
      case Some(value) => before + [StepSample(clip.stepTracks[count - 1].property, value)]
  }

  /** The whole sample at a beat of the clip. */
  ghost predicate SamplesAt<T>(rot: Rotations, clip: Clip<T>, beat: RationalBeat, r: Result<ClipSample<T>, ClipError>)
    requires ClipReadable(clip) && Canonical(beat)
  {
    r == match TracksAt(rot, clip, Value(beat), |clip.tracks|)
         case Err(error) => Err(Interpolation(error))
         case Ok(tracks) => Ok(ClipSample(beat, tracks, StepsAt(clip, Value(beat), |clip.stepTracks|)))
  }

  /** A track overflows with no interpolation error before it. */
  ghost predicate OverflowsFirst<T>(rot: Rotations, clip: Clip<T>, beat: RationalBeat)
    requires ClipReadable(clip) && Canonical(beat)
  {
    exists i :: 0 <= i < |clip.tracks| && TrackOverflows(clip.tracks[i].segments, beat)
        && TracksAt(rot, clip, Value(beat), i).Ok?
  }

  /** One more track's sample, if it has begun. */
  method AddTrack<T>(rot: Rotations, clip: Clip<T>, beat: RationalBeat, i: nat, samples: seq<TrackSample>)
    returns (r: Result<seq<TrackSample>, ClipError>)
    requires ClipReadable(clip) && Canonical(beat) && i < |clip.tracks|
    requires TracksAt(rot, clip, Value(beat), i) == Ok(samples)
    ensures r == if TrackOverflows(clip.tracks[i].segments, beat) then Err(BeatOverflow)
                 else Lift(TracksAt(rot, clip, Value(beat), i + 1))
  {
    var value := SampleTrack(rot, clip.tracks[i].segments, beat);
    if value.Err? { return Err(value.error); }
    r := Ok(if value.value.None? then samples else samples + [TrackSample(clip.tracks[i].property, value.value.value)]);
  }

  ghost predicate NoneOverflows<T>(clip: Clip<T>, beat: RationalBeat, count: nat)
    requires ClipReadable(clip) && Canonical(beat) && count <= |clip.tracks|
  {
    forall j :: 0 <= j < count ==> !TrackOverflows(clip.tracks[j].segments, beat)
  }

  /** One more track of a clip whose tracks so far did not fail: a failure is the whole clip's. */
  method NextTrack<T>(rot: Rotations, clip: Clip<T>, beat: RationalBeat, i: nat, samples: seq<TrackSample>)
    returns (r: Result<seq<TrackSample>, ClipError>)
    requires ClipReadable(clip) && Canonical(beat) && i < |clip.tracks|
    requires TracksAt(rot, clip, Value(beat), i) == Ok(samples) && NoneOverflows(clip, beat, i)
    ensures r.Ok? ==> TracksAt(rot, clip, Value(beat), i + 1) == Ok(r.value) && NoneOverflows(clip, beat, i + 1)
    ensures r.Err? ==> (r.error == BeatOverflow <==> OverflowsFirst(rot, clip, beat))
    ensures r.Err? ==> r.error == BeatOverflow || Err(r.error) == Lift(TracksAt(rot, clip, Value(beat), |clip.tracks|))
  {
    r := AddTrack(rot, clip, beat, i, samples);
    if r.Err? { TrackFails(rot, clip, beat, i, r.error); }
  }

  method SampleTracks<T>(rot: Rotations, clip: Clip<T>, beat: RationalBeat)
    returns (r: Result<seq<TrackSample>, ClipError>)
    requires ClipReadable(clip) && Canonical(beat)
    ensures r == Err(BeatOverflow) <==> OverflowsFirst(rot, clip, beat)
    ensures r == Err(BeatOverflow) || r == Lift(TracksAt(rot, clip, Value(beat), |clip.tracks|))
  {
    var samples: seq<TrackSample> := [];
    for i := 0 to |clip.tracks|
      invariant TracksAt(rot, clip, Value(beat), i) == Ok(samples) && NoneOverflows(clip, beat, i)
    {
      r := NextTrack(rot, clip, beat, i, samples);
      if r.Err? { return; }
      samples := r.value;
    }
    NothingOverflowsFirst(rot, clip, beat);
    r := Ok(samples);
  }

  lemma {:induction false} NothingOverflowsFirst<T>(rot: Rotations, clip: Clip<T>, beat: RationalBeat)
    requires ClipReadable(clip) && Canonical(beat) && NoneOverflows(clip, beat, |clip.tracks|)
    ensures !OverflowsFirst(rot, clip, beat)
  {
  }

  /** Where the first failing track leaves the whole clip. */
  lemma {:induction false} TrackFails<T>(rot: Rotations, clip: Clip<T>, beat: RationalBeat, i: nat, error: ClipError)
    requires ClipReadable(clip) && Canonical(beat) && i < |clip.tracks|
    requires TracksAt(rot, clip, Value(beat), i).Ok? && NoneOverflows(clip, beat, i)
    requires TrackOverflows(clip.tracks[i].segments, beat) ==> error == BeatOverflow
    requires !TrackOverflows(clip.tracks[i].segments, beat) ==>
      Lift(TracksAt(rot, clip, Value(beat), i + 1)) == Err(error)
    ensures error == BeatOverflow <==> OverflowsFirst(rot, clip, beat)
    ensures error == BeatOverflow || Err(error) == Lift(TracksAt(rot, clip, Value(beat), |clip.tracks|))
  {
    if !TrackOverflows(clip.tracks[i].segments, beat) { ErrorComesFirst(rot, clip, beat, i); }
  }

  lemma {:induction false} ErrorComesFirst<T>(rot: Rotations, clip: Clip<T>, beat: RationalBeat, i: nat)
    requires ClipReadable(clip) && Canonical(beat) && i < |clip.tracks| && TracksAt(rot, clip, Value(beat), i + 1).Err?
    requires NoneOverflows(clip, beat, i + 1)
    ensures !OverflowsFirst(rot, clip, beat)
    ensures TracksAt(rot, clip, Value(beat), |clip.tracks|) == TracksAt(rot, clip, Value(beat), i + 1)
  {
    forall j: nat | i < j <= |clip.tracks| ensures TracksAt(rot, clip, Value(beat), j).Err? {
      FailureStays(rot, clip, Value(beat), i + 1, j);
    }
    FailureStays(rot, clip, Value(beat), i + 1, |clip.tracks|);
  }

  lemma {:induction false} FailureStays<T>(rot: Rotations, clip: Clip<T>, beat: real, few: nat, many: nat)
    requires ClipReadable(clip) && few <= many <= |clip.tracks| && TracksAt(rot, clip, beat, few).Err?
    ensures TracksAt(rot, clip, beat, many) == TracksAt(rot, clip, beat, few)
    decreases many
  {
    if few < many { FailureStays(rot, clip, beat, few, many - 1); }
  }

  /** Rejects only beats outside the clip; otherwise the sample is the tracks' values, in order. */
  method SampleClip<T>(rot: Rotations, clip: Clip<T>, beat: RationalBeat) returns (r: Result<ClipSample<T>, ClipError>)
    requires ClipReadable(clip) && Canonical(beat)
    ensures r == Err(DurationInvalid) <==> (beat.numerator < 0 || Value(beat) > Value(clip.durationBeats))
    ensures r == Err(BeatOverflow) <==> r != Err(DurationInvalid) && OverflowsFirst(rot, clip, beat)
    ensures r == Err(DurationInvalid) || r == Err(BeatOverflow) || SamplesAt(rot, clip, beat, r)
  {
    if beat.numerator < 0 { return Err(DurationInvalid); }
    var order := Compare(beat, clip.durationBeats);
    if order == Greater { return Err(DurationInvalid); }
    var tracks := SampleTracks(rot, clip, beat);
    if tracks.Err? { return Err(tracks.error); }
    var steps: seq<StepSample<T>> := [];
    for i := 0 to |clip.stepTracks|
      invariant steps == StepsAt(clip, Value(beat), i)
    {
      var value := SampleStepTrack(clip.stepTracks[i].steps, beat);
      if value.Some? {
        steps := steps + [StepSample(clip.stepTracks[i].property, value.value)];
      }
    }
    r := Ok(ClipSample(beat, tracks.value, steps));
  }

  /** Resolving and then sampling: the resolved beat is never rejected. */
  method SampleInstance<T>(rot: Rotations, instance: Instance, clip: Clip<T>, chartBeat: RationalBeat)
    returns (r: Result<Option<ClipSample<T>>, ClipError>, ghost local: real)
    requires CanonicalInstance(instance) && ClipReadable(clip) && Canonical(chartBeat)
    requires instance.iterations.Finite? ==> instance.iterations.count >= 1
    ensures r == Err(DurationInvalid) <==> clip.durationBeats.numerator <= 0
    ensures r.Ok? ==> (instance.durationScale.numerator > 0 && HasLocalTime(instance, chartBeat, local)
                       && exists beat: Option<RationalBeat> ::
                            && Resolves(instance.iterations, instance.fillMode, clip.durationBeats, local, beat)
                            && (beat == None <==> r.value == None)
                            && (beat.Some? ==>
                                 Canonical(beat.value) && SamplesAt(rot, clip, beat.value, Ok(r.value.value))))
  {
    var beat;
    beat, local := ResolveLocalBeat(instance, clip.durationBeats, chartBeat);
    if beat.Err? { return Err(beat.error), local; }
    if beat.value == None { return Ok(None), local; }
    ResolvedIsInClip(instance.iterations, instance.fillMode, clip.durationBeats, local, beat.value);
    var sampled := SampleClip(rot, clip, beat.value.value);
    if sampled.Err? { return Err(sampled.error), local; }
    r := Ok(Some(sampled.value));
  }
}
