/**
 Migration preserves meaning: a keyframe track and the event track it is translated to give the same
 value at every time.
 */
module MigrationMeaning {
  import opened Wrappers
  import opened RationalBeats
  import opened BehaviorSampling
  import opened BehaviorCompiler
  import opened ChartMigration

  // ---------------------------------------------------------------- time and beats

  ghost predicate Scaled(scaled: seq<RuntimeKey>, keys: seq<RuntimeKey>, rate: real) {
    |scaled| == |keys| && forall i :: 0 <= i < |keys| ==> scaled[i] == keys[i].(time := keys[i].time * rate)
  }

  /** The two times lie the same way to every key. */
  ghost predicate SameOrder(scaled: seq<RuntimeKey>, st: real, keys: seq<RuntimeKey>, t: real) {
    |scaled| == |keys| && forall i :: 0 <= i < |keys| ==>
      (scaled[i].time < st <==> keys[i].time < t) && (scaled[i].time == st <==> keys[i].time == t)
      && scaled[i].value == keys[i].value
  }

  lemma ScalingKeepsOrder(scaled: seq<RuntimeKey>, keys: seq<RuntimeKey>, rate: real, t: real)
    requires rate > 0.0 && Scaled(scaled, keys, rate)
    ensures SameOrder(scaled, t * rate, keys, t)
  {
    forall i | 0 <= i < |keys|
      ensures (scaled[i].time < t * rate <==> keys[i].time < t) && (scaled[i].time == t * rate <==> keys[i].time == t)
           && scaled[i].value == keys[i].value
    {
      OrderScales(keys[i].time, t, rate);
    }
  }

  /** The chart's one tempo only rescales time, and a keyframe track does not notice the scale. */
  lemma SampleScales(rot: Rotations, scaled: seq<RuntimeKey>, keys: seq<RuntimeKey>, rate: real, t: real)
    requires rate > 0.0 && Scaled(scaled, keys, rate)
    ensures Sample(rot, scaled, t * rate) == Sample(rot, keys, t)
  {
    ScalingKeepsOrder(scaled, keys, rate, t);
    forall i | 0 < i < |keys|
      ensures SampleBetween(rot, scaled[i - 1], scaled[i], t * rate) == SampleBetween(rot, keys[i - 1], keys[i], t)
    {
      BetweenScales(rot, scaled[i - 1], scaled[i], keys[i - 1], keys[i], rate, t * rate, t);
    }
    SampleBySameOrder(rot, scaled, t * rate, keys, t);
  }

  lemma SampleBySameOrder(rot: Rotations, scaled: seq<RuntimeKey>, st: real, keys: seq<RuntimeKey>, t: real)
    requires SameOrder(scaled, st, keys, t)
    requires forall i :: 0 < i < |keys| ==>
      SampleBetween(rot, scaled[i - 1], scaled[i], st) == SampleBetween(rot, keys[i - 1], keys[i], t)
    ensures Sample(rot, scaled, st) == Sample(rot, keys, t)
  {
    if |keys| > 1 { SameLowerBound(scaled, st, keys, t, 1); }
  }

  lemma {:induction false} SameLowerBound(scaled: seq<RuntimeKey>, st: real, keys: seq<RuntimeKey>, t: real, from: nat)
    requires SameOrder(scaled, st, keys, t) && from <= |keys|
    ensures LowerBound(scaled, st, from) == LowerBound(keys, t, from)
    decreases |keys| - from
  {
    if from < |keys| { SameLowerBound(scaled, st, keys, t, from + 1); }
  }

  lemma BetweenScales(rot: Rotations, sa: RuntimeKey, sb: RuntimeKey, a: RuntimeKey, b: RuntimeKey,
                      rate: real, st: real, t: real)
    requires rate > 0.0 && st == t * rate && sa.time == a.time * rate && sb.time == b.time * rate
    requires sa == a.(time := sa.time) && sb == b.(time := sb.time)
    ensures SampleBetween(rot, sa, sb, st) == SampleBetween(rot, a, b, t)
  {
    OrderScales(t, b.time, rate);
    OrderScales(a.time, b.time, rate);
    if a.time < b.time {
      FractionScales(t, a.time, b.time, rate, st, sa.time, sb.time);
      SameFraction(rot, sa, sb, a, b, st, t);
    }
  }

  lemma SameFraction(rot: Rotations, sa: RuntimeKey, sb: RuntimeKey, a: RuntimeKey, b: RuntimeKey, st: real, t: real)
    requires a.time < b.time && sa.time < sb.time && (st == sb.time <==> t == b.time)
    requires (st - sa.time) / (sb.time - sa.time) == (t - a.time) / (b.time - a.time)
    requires sa == a.(time := sa.time) && sb == b.(time := sb.time)
    ensures SampleBetween(rot, sa, sb, st) == SampleBetween(rot, a, b, t)
  {
  }

  lemma OrderScales(x: real, y: real, rate: real)
    requires rate > 0.0
    ensures x < y <==> x * rate < y * rate
    ensures x == y <==> x * rate == y * rate
  {
    assert y * rate - x * rate == (y - x) * rate;
  }

  lemma FractionScales(t: real, a: real, b: real, rate: real, st: real, sa: real, sb: real)
    requires rate > 0.0 && a < b && st == t * rate && sa == a * rate && sb == b * rate
    ensures sb - sa > 0.0
    ensures (st - sa) / (sb - sa) == (t - a) / (b - a)
  {
    var whole, part := b - a, t - a;
    PositiveProduct(whole, rate);
    assert sb - sa == whole * rate && st - sa == part * rate;
    CancelRate(part, whole, rate);
  }

  lemma PositiveProduct(x: real, y: real)
    requires x > 0.0 && y > 0.0
    ensures x * y > 0.0
  {
  }

  lemma CancelRate(part: real, whole: real, rate: real)
    requires whole > 0.0 && rate > 0.0 && whole * rate > 0.0
    ensures (part * rate) / (whole * rate) == part / whole
  {
    var f := part / whole;
    Regroup(f, whole, rate);
    QuotientIs(part * rate, whole * rate, f);
  }

  lemma Regroup(f: real, whole: real, rate: real)
    ensures f * (whole * rate) == (f * whole) * rate
  {
  }

  lemma QuotientIs(n: real, d: real, f: real)
    requires d > 0.0 && f * d == n
    ensures n / d == f
  {
    SameQuotient(d, n / d, f);
  }

  // ---------------------------------------------------------------- one more key

  ghost predicate TimesAscend(keys: seq<RuntimeKey>) {
    forall i, j :: 0 <= i < j < |keys| ==> keys[i].time < keys[j].time
  }

  /** The keyframe language over a single interval. */
  function SampleInterval(rot: Rotations, left: RuntimeKey, right: RuntimeKey,
                          t: real): Result<BehaviorValue, SampleError>
    requires left.time < right.time
  {
    if t <= left.time then Ok(left.value)
    else if t >= right.time then Ok(right.value)
    else Interpolate(rot, left.value, right.value,
                     ApplyEasing(right.easing, (t - left.time) / (right.time - left.time)))
  }

  lemma LowerBoundIs(keys: seq<RuntimeKey>, t: real, from: nat, r: nat)
    requires from <= r <= |keys| && TimesAscend(keys)
    requires (r > from ==> keys[r - 1].time < t) && (r < |keys| ==> t <= keys[r].time)
    ensures LowerBound(keys, t, from) == r
  {
  }

  /** An additional last key changes nothing before it, and after its predecessor only the new interval counts. */
  lemma SampleExtends(rot: Rotations, keys: seq<RuntimeKey>, k: RuntimeKey, t: real)
    requires keys != [] && TimesAscend(keys + [k])
    ensures keys[|keys| - 1].time < k.time
    ensures t < keys[|keys| - 1].time ==> Sample(rot, keys + [k], t) == Sample(rot, keys, t)
    ensures t >= keys[|keys| - 1].time ==> Sample(rot, keys + [k], t) == SampleInterval(rot, keys[|keys| - 1], k, t)
  {
    var n := |keys|;
    var all := keys + [k];
    assert all[n - 1] == keys[n - 1] && all[n] == k;
    if t > keys[0].time && t < k.time {
      if t < keys[n - 1].time {
        assert TimesAscend(keys) by {
          forall i, j | 0 <= i < j < n ensures keys[i].time < keys[j].time { assert all[i].time < all[j].time; }
        }
        var r := LowerBound(keys, t, 1);
        if r > 1 { assert keys[r - 1].time < t; }
        LowerBoundIs(all, t, 1, r);
      } else if t == keys[n - 1].time {
        assert n > 1;
        assert all[n - 2].time < all[n - 1].time;
        LowerBoundIs(all, t, 1, n - 1);
      } else {
        LowerBoundIs(all, t, 1, n);
      }
    }
  }

  // ---------------------------------------------------------------- one more block of events

  lemma {:induction false} UpperBoundIs(events: seq<RuntimeEvent>, beat: real, from: nat, r: nat)
    requires from <= r <= |events|
    requires forall i :: from <= i < r ==> events[i].startBeat <= beat
    requires r < |events| ==> beat < events[r].startBeat
    ensures UpperBound(events, beat, from) == r
  {
  }

  lemma EarlierEventsCount(rot: Rotations, events: seq<RuntimeEvent>, block: seq<RuntimeEvent>, beat: real,
                           baseline: BehaviorValue)
    requires block != [] && beat < block[0].startBeat
    ensures SampleEvents(rot, events + block, beat, baseline) == SampleEvents(rot, events, beat, baseline)
  {
    if events != [] {
      UpperBoundIs(events + block, beat, 0, UpperBound(events, beat));
    }
  }

  lemma LastBlockCounts(rot: Rotations, events: seq<RuntimeEvent>, block: seq<RuntimeEvent>, beat: real,
                        baseline: BehaviorValue)
    requires block != [] && block[0].startBeat <= beat
    requires forall i :: 0 <= i < |events| ==> events[i].startBeat <= beat
    ensures SampleEvents(rot, events + block, beat, baseline) == SampleEvents(rot, block, beat, baseline)
  {
    UpperBoundIs(events + block, beat, 0, |events| + UpperBound(block, beat));
    assert (events + block)[0].startBeat <= beat;
  }

  // ---------------------------------------------------------------- one block is one interval

  ghost predicate Interpolable(rot: Rotations, left: BehaviorValue, right: BehaviorValue) {
    match (left, right)
    case (Scalar(_), Scalar(_)) => true
    case (Vector(_, _, _), Vector(_, _, _)) => true
    case (Rotation(p), Rotation(q)) => rot.normalized(p) && rot.normalized(q)
    case _ => false
  }

  lemma StartOfInterpolation(rot: Rotations, left: BehaviorValue, right: BehaviorValue)
    requires RotationLaws(rot) && Interpolable(rot, left, right)
    ensures Interpolate(rot, left, right, 0.0) == Ok(left)
  {
  }

  /** One Hermite event over a whole interval is that interval's easing. */
  lemma PlainBlock(rot: Rotations, left: RuntimeKey, right: RuntimeKey, beat: real, baseline: BehaviorValue)
    requires RotationLaws(rot) && Interpolable(rot, left.value, right.value)
    requires left.time < right.time && left.time <= beat && right.easing != InOutCubic
    ensures SampleEvents(rot, Block(rot, left.time, right.time, left.value, right.value, right.easing), beat, baseline)
         == SampleInterval(rot, left, right, beat)
  {
    var block := Block(rot, left.time, right.time, left.value, right.value, right.easing);
    UpperBoundIs(block, beat, 0, 1);
    if beat == left.time {
      StartOfEvent(rot, block[0]);
    } else if beat < right.time {
      HermiteIsEasing((beat - left.time) / (right.time - left.time));
    }
  }

  lemma StartOfEvent(rot: Rotations, event: RuntimeEvent)
    requires RotationLaws(rot) && Interpolable(rot, event.startValue, event.endValue)
    requires !event.instantaneous && event.startBeat < event.endBeat
    ensures SampleOneEvent(rot, event, event.startBeat) == Ok(event.startValue)
  {
    QuotientIs(0.0, event.endBeat - event.startBeat, 0.0);
    HermiteEnds(event.startSlope, event.endSlope);
    StartOfInterpolation(rot, event.startValue, event.endValue);
  }

  /** Interpolating through the midpoint value. */
  lemma HalvesInterpolate(rot: Rotations, left: BehaviorValue, right: BehaviorValue, t: real)
    requires RotationLaws(rot) && Interpolable(rot, left, right) && (left.Rotation? ==> MidpointHalves(rot))
    requires MidpointValue(rot, left, right).Some? && 0.0 <= t <= 1.0
    ensures Interpolate(rot, left, MidpointValue(rot, left, right).value, t) == Interpolate(rot, left, right, t * 0.5)
    ensures Interpolate(rot, MidpointValue(rot, left, right).value, right, t)
        == Interpolate(rot, left, right, 0.5 + t * 0.5)
  {
    match (left, right)
    case (Scalar(a), Scalar(b)) => HalvesLerp(a, b, t);
    case (Vector(x, y, z), Vector(u, v, w)) =>
      HalvesLerp(x, u, t);
      HalvesLerp(y, v, t);
      HalvesLerp(z, w, t);
      assert (x + u) * 0.5 == x + (u - x) * 0.5;
      assert (y + v) * 0.5 == y + (v - y) * 0.5;
      assert (z + w) * 0.5 == z + (w - z) * 0.5;
    case _ =>
  }

  lemma HalvesLerp(a: real, b: real, t: real)
    ensures Lerp(a, a + (b - a) * 0.5, t) == Lerp(a, b, t * 0.5)
    ensures Lerp(a + (b - a) * 0.5, b, t) == Lerp(a, b, 0.5 + t * 0.5)
  {
  }

  /** The two Hermite events of a split interval are in_out_cubic. */
  lemma SplitBlock(rot: Rotations, left: RuntimeKey, right: RuntimeKey, beat: real, baseline: BehaviorValue)
    requires RotationLaws(rot) && Interpolable(rot, left.value, right.value)
    requires left.value.Rotation? ==> MidpointHalves(rot)
    requires left.time < right.time && left.time <= beat && right.easing == InOutCubic
    requires MidpointValue(rot, left.value, right.value).Some?
    ensures SampleEvents(rot, Block(rot, left.time, right.time, left.value, right.value, right.easing), beat, baseline)
         == SampleInterval(rot, left, right, beat)
  {
    var a, b := left.time, right.time;
    var middle := (a + b) * 0.5;
    var block := Block(rot, a, b, left.value, right.value, right.easing);
    UpperBoundIs(block, beat, 0, if beat < middle then 1 else 2);
    if beat < middle {
      FirstHalf(rot, left, right, beat, baseline);
    } else if beat < b {
      SecondHalf(rot, left, right, beat, baseline);
    }
  }

  lemma FirstHalf(rot: Rotations, left: RuntimeKey, right: RuntimeKey, beat: real, baseline: BehaviorValue)
    requires RotationLaws(rot) && Interpolable(rot, left.value, right.value)
    requires left.value.Rotation? ==> MidpointHalves(rot)
    requires left.time <= beat < (left.time + right.time) * 0.5 && right.easing == InOutCubic
    requires MidpointValue(rot, left.value, right.value).Some?
    requires UpperBound(Block(rot, left.time, right.time, left.value, right.value, right.easing), beat) == 1
    ensures SampleEvents(rot, Block(rot, left.time, right.time, left.value, right.value, right.easing), beat, baseline)
         == SampleInterval(rot, left, right, beat)
  {
    var a, b := left.time, right.time;
    var u := (beat - a) / (b - a);
    HalfProgress(a, b, beat, u);
    HermiteHalves(u);
    var h := HermiteProgress(2.0 * u, 0.0, 3.0);
    HermiteStaysInUnit(2.0 * u, 0.0, 3.0);
    HalvesInterpolate(rot, left.value, right.value, h);
    if beat == a {
      QuotientIs(0.0, b - a, 0.0);
      StartOfInterpolation(rot, left.value, right.value);
    }
  }

  lemma SecondHalf(rot: Rotations, left: RuntimeKey, right: RuntimeKey, beat: real, baseline: BehaviorValue)
    requires RotationLaws(rot) && Interpolable(rot, left.value, right.value)
    requires left.value.Rotation? ==> MidpointHalves(rot)
    requires left.time < right.time && (left.time + right.time) * 0.5 <= beat < right.time && right.easing == InOutCubic
    requires MidpointValue(rot, left.value, right.value).Some?
    requires UpperBound(Block(rot, left.time, right.time, left.value, right.value, right.easing), beat) == 2
    ensures SampleEvents(rot, Block(rot, left.time, right.time, left.value, right.value, right.easing), beat, baseline)
         == SampleInterval(rot, left, right, beat)
  {
    var a, b := left.time, right.time;
    var u := (beat - a) / (b - a);
    HalfProgress(a, b, beat, u);
    HermiteHalves(u);
    var h := HermiteProgress(2.0 * u - 1.0, 3.0, 0.0);
    HermiteStaysInUnit(2.0 * u - 1.0, 3.0, 0.0);
    HalvesInterpolate(rot, left.value, right.value, h);
  }

  lemma HalfProgress(a: real, b: real, beat: real, u: real)
    requires a < b && a <= beat < b && u == (beat - a) / (b - a)
    ensures 0.0 <= u <= 1.0 && (u < 0.5 <==> beat < (a + b) * 0.5)
    ensures (beat - a) / ((a + b) * 0.5 - a) == 2.0 * u
    ensures (beat - (a + b) * 0.5) / (b - (a + b) * 0.5) == 2.0 * u - 1.0
  {
    var w, p := b - a, beat - a;
    assert u * w == p;
    ProgressBounds(u, w, p);
    QuotientIs(p, w * 0.5, 2.0 * u);
    QuotientIs(p - w * 0.5, w * 0.5, 2.0 * u - 1.0);
    assert (a + b) * 0.5 - a == w * 0.5 && b - (a + b) * 0.5 == w * 0.5 && beat - (a + b) * 0.5 == p - w * 0.5;
  }

  lemma BelowScaled(u: real, c: real, w: real, p: real, q: real)
    requires w > 0.0 && u * w == p && c * w == q
    ensures u < c <==> p < q
  {
    assert (u - c) * w == p - q;
  }

  lemma ProgressBounds(u: real, w: real, p: real)
    requires w > 0.0 && u * w == p && 0.0 <= p < w
    ensures 0.0 <= u <= 1.0 && (u < 0.5 <==> p < w * 0.5)
  {
    BelowScaled(u, 0.0, w, p, 0.0);
    BelowScaled(u, 1.0, w, p, w);
    BelowScaled(u, 0.5, w, p, w * 0.5);
  }

  // ---------------------------------------------------------------- the whole track

  /** Every interval that must be split has a midpoint value. */
  ghost predicate Splittable(rot: Rotations, keys: seq<BehaviorKey>) {
    forall i :: 0 < i < |keys| && EasingOf(keys[i]) == InOutCubic ==>
      MidpointValue(rot, keys[i - 1].value, keys[i].value).Some?
  }

  lemma {:induction false} MigratedIsSplittable(rot: Rotations, property: BehaviorProperty, keys: seq<BehaviorKey>,
                                                limits: BeatLimits)
    requires KeysCanonical(keys) && MigrateKeys(rot, property, keys, limits).diagnostics == []
    ensures Splittable(rot, keys)
    decreases |keys|
  {
    var n := |keys|;
    if n > 1 {
      TranslationUnfolds(rot, property, keys, limits);
      MigratedIsSplittable(rot, property, keys[..n - 1], limits);
      forall i | 0 < i < n && EasingOf(keys[i]) == InOutCubic
        ensures MidpointValue(rot, keys[i - 1].value, keys[i].value).Some?
      {
        if i < n - 1 { assert keys[..n - 1][i] == keys[i] && keys[..n - 1][i - 1] == keys[i - 1]; }
      }
    }
  }

  lemma {:induction false} BlocksStartEarly(rot: Rotations, keys: seq<BehaviorKey>)
    requires keys != [] && KeysCanonical(keys) && StrictlySorted(keys)
    ensures forall i :: 0 <= i < |Blocks(rot, keys)| ==> Blocks(rot, keys)[i].startBeat <= Value(keys[|keys| - 1].beat)
    decreases |keys|
  {
    var n := |keys|;
    if n > 1 {
      BlocksStartEarly(rot, keys[..n - 1]);
      assert Value(keys[n - 2].beat) < Value(keys[n - 1].beat);
    }
  }

  lemma ValuesInterpolable(rot: Rotations, property: BehaviorProperty, left: BehaviorValue, right: BehaviorValue)
    requires ValueMatchesProperty(rot, property, left) && ValueMatchesProperty(rot, property, right)
    ensures Interpolable(rot, left, right)
  {
  }

  lemma BeatTimesAscend(keys: seq<BehaviorKey>)
    requires KeysCanonical(keys) && StrictlySorted(keys)
    ensures TimesAscend(CompileKeys(keys, 1.0))
  {
  }

  lemma CompileKeysAppends(keys: seq<BehaviorKey>, rate: real)
    requires keys != [] && KeysCanonical(keys)
    ensures CompileKeys(keys, rate)
         == CompileKeys(keys[..|keys| - 1], rate) + [CompileKeys(keys, rate)[|keys| - 1]]
  {
    var all, before := CompileKeys(keys, rate), CompileKeys(keys[..|keys| - 1], rate);
    forall i | 0 <= i < |keys| - 1 ensures all[i] == before[i] { assert keys[..|keys| - 1][i] == keys[i]; }
  }

  lemma TempoRescales(rot: Rotations, keys: seq<BehaviorKey>, msPerBeat: real, beat: real)
    requires KeysCanonical(keys) && msPerBeat > 0.0
    ensures Sample(rot, CompileKeys(keys, msPerBeat), beat * msPerBeat) == Sample(rot, CompileKeys(keys, 1.0), beat)
  {
    SampleScales(rot, CompileKeys(keys, msPerBeat), CompileKeys(keys, 1.0), msPerBeat, beat);
  }

  /** One interval: its block against its two keys. */
  lemma BlockMeansInterval(rot: Rotations, property: BehaviorProperty, a: BehaviorKey, b: BehaviorKey, beat: real,
                           baseline: BehaviorValue)
    requires a.beat.denominator > 0 && b.beat.denominator > 0 && Value(a.beat) < Value(b.beat) && Value(a.beat) <= beat
    requires ValueMatchesProperty(rot, property, a.value) && ValueMatchesProperty(rot, property, b.value)
    requires RotationLaws(rot) && (EasingOf(b) == InOutCubic ==> MidpointValue(rot, a.value, b.value).Some?)
    requires EasingOf(b) == InOutCubic && property == TransformRotation ==> MidpointHalves(rot)
    ensures SampleEvents(rot, Block(rot, Value(a.beat), Value(b.beat), a.value, b.value, EasingOf(b)), beat, baseline)
         == SampleInterval(rot, RuntimeKey(Value(a.beat), a.value, EasingOf(a)),
                           RuntimeKey(Value(b.beat), b.value, EasingOf(b)), beat)
  {
    ValuesInterpolable(rot, property, a.value, b.value);
    var left, right := RuntimeKey(Value(a.beat), a.value, EasingOf(a)), RuntimeKey(Value(b.beat), b.value, EasingOf(b));
    if right.easing == InOutCubic {
      SplitBlock(rot, left, right, beat, baseline);
    } else {
      PlainBlock(rot, left, right, beat, baseline);
    }
  }

  /** What the quaternion operations owe one track: halving only where a rotation is eased by in_out_cubic. */
  ghost predicate RotationsSuffice(rot: Rotations, property: BehaviorProperty, keys: seq<BehaviorKey>) {
    && RotationLaws(rot)
    && (property == TransformRotation && (exists i :: 0 <= i < |keys| && EasingOf(keys[i]) == InOutCubic)
        ==> MidpointHalves(rot))
  }

  /** The step from all but the last key to all keys. */
  lemma LastBlockMeansLastKey(rot: Rotations, property: BehaviorProperty, keys: seq<BehaviorKey>, beat: real)
    requires |keys| > 1 && KeysAccepted(rot, property, keys) && StrictlySorted(keys) && Splittable(rot, keys)
    requires RotationsSuffice(rot, property, keys)
    requires SampleEvents(rot, Blocks(rot, keys[..|keys| - 1]), beat, keys[0].value)
          == Sample(rot, CompileKeys(keys[..|keys| - 1], 1.0), beat)
    ensures SampleEvents(rot, Blocks(rot, keys), beat, keys[0].value) == Sample(rot, CompileKeys(keys, 1.0), beat)
  {
    var before, a, b := keys[..|keys| - 1], keys[|keys| - 2], keys[|keys| - 1];
    LastInterval(rot, property, keys);
    KeysExtend(rot, keys, beat);
    var block := Block(rot, Value(a.beat), Value(b.beat), a.value, b.value, EasingOf(b));
    if beat < Value(a.beat) {
      EarlierEventsCount(rot, Blocks(rot, before), block, beat, keys[0].value);
    } else {
      PrefixAccepted(rot, property, keys, |keys| - 1);
      BlocksStartEarly(rot, before);
      LastBlockCounts(rot, Blocks(rot, before), block, beat, keys[0].value);
      BlockMeansInterval(rot, property, a, b, beat, keys[0].value);
    }
  }

  lemma KeysExtend(rot: Rotations, keys: seq<BehaviorKey>, beat: real)
    requires |keys| > 1 && KeysCanonical(keys) && StrictlySorted(keys)
    ensures var a, b := keys[|keys| - 2], keys[|keys| - 1];
      && (beat < Value(a.beat) ==>
            Sample(rot, CompileKeys(keys, 1.0), beat) == Sample(rot, CompileKeys(keys[..|keys| - 1], 1.0), beat))
      && (beat >= Value(a.beat) ==>
            Value(a.beat) < Value(b.beat) &&
            Sample(rot, CompileKeys(keys, 1.0), beat)
            == SampleInterval(rot, RuntimeKey(Value(a.beat), a.value, EasingOf(a)),
                              RuntimeKey(Value(b.beat), b.value, EasingOf(b)), beat))
  {
    BeatTimesAscend(keys);
    CompileKeysAppends(keys, 1.0);
    SampleExtends(rot, CompileKeys(keys[..|keys| - 1], 1.0), CompileKeys(keys, 1.0)[|keys| - 1], beat);
  }

  lemma {:induction false} BlocksMeanKeys(rot: Rotations, property: BehaviorProperty, keys: seq<BehaviorKey>,
                                          beat: real)
    requires keys != [] && KeysAccepted(rot, property, keys) && StrictlySorted(keys) && Splittable(rot, keys)
    requires RotationsSuffice(rot, property, keys)
    ensures SampleEvents(rot, Blocks(rot, keys), beat, keys[0].value) == Sample(rot, CompileKeys(keys, 1.0), beat)
    decreases |keys|
  {
    if |keys| > 1 {
      var before := keys[..|keys| - 1];
      PrefixAccepted(rot, property, keys, |keys| - 1);
      PrefixSuffices(rot, property, keys);
      BlocksMeanKeys(rot, property, before, beat);
      LastBlockMeansLastKey(rot, property, keys, beat);
    }
  }

  lemma PrefixSuffices(rot: Rotations, property: BehaviorProperty, keys: seq<BehaviorKey>)
    requires keys != [] && Splittable(rot, keys) && RotationsSuffice(rot, property, keys)
    ensures Splittable(rot, keys[..|keys| - 1]) && RotationsSuffice(rot, property, keys[..|keys| - 1])
  {
  }

  /** Migration preserves meaning: whatever the keys (one or many, any easings), if the migrator reports
      nothing then at every beat the compiled events over the first key as baseline give exactly what the
      compiled keys give at the corresponding time, errors included. */
  lemma MigrationPreservesMeaning(rot: Rotations, property: BehaviorProperty, keys: seq<BehaviorKey>,
                                  limits: BeatLimits, msPerBeat: real, beat: real)
    requires keys != [] && KeysAccepted(rot, property, keys) && StrictlySorted(keys)
    requires RotationsSuffice(rot, property, keys) && msPerBeat > 0.0
    requires MigrateKeys(rot, property, keys, limits).diagnostics == []
    ensures var events := MigrateKeys(rot, property, keys, limits).events;
      && EventsCanonical(events) && CompileEvents(rot, property, events).errors == []
      && SampleEvents(rot, CompileEvents(rot, property, events).events, beat, keys[0].value)
         == Sample(rot, CompileKeys(keys, msPerBeat), beat * msPerBeat)
  {
    TranslationCompiles(rot, property, keys, limits);
    MigratedIsSplittable(rot, property, keys, limits);
    BlocksMeanKeys(rot, property, keys, beat);
    TempoRescales(rot, keys, msPerBeat, beat);
  }
}
