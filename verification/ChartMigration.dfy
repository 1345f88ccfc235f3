/**
 The migrator to chart version 3: a translation from eased keyframe tracks to Hermite event tracks whose
 first key becomes the animated object's baseline.  The main results are that the compiler accepts the
 translation and that both languages then give the same value at every time.
 */
module ChartMigration {
  import opened Wrappers
  import opened RationalBeats
  import opened BehaviorSampling
  import opened BehaviorCompiler

  datatype MigrationError =
    | DurationOutOfRange | MidpointOutOfRange | MidpointInvalid | UnboundSingleKey | BaselineTargetInvalid

  datatype BeatLimits = BeatLimits(maxNumerator: nat, maxDenominator: nat)

  predicate WithinBeatLimits(value: RationalBeat, limits: BeatLimits) {
    Magnitude(value.numerator) <= limits.maxNumerator && value.denominator <= limits.maxDenominator
  }

  function MidpointValue(rot: Rotations, left: BehaviorValue, right: BehaviorValue): Option<BehaviorValue> {
    match (left, right)
    case (Scalar(a), Scalar(b)) => Some(Scalar(a + (b - a) * 0.5))
    case (Vector(x, y, z), Vector(u, v, w)) => Some(Vector((x + u) * 0.5, (y + v) * 0.5, (z + w) * 0.5))
    case (Rotation(p), Rotation(q)) =>
      (match rot.midpoint(p, q)
       case Some(m) => Some(Rotation(m))
       case None => None)
    case _ => None
  }

  function EasingOf(key: BehaviorKey): Easing { if key.easing.Some? then key.easing.value else Linear }

  function StartSlope(easing: Easing): real {
    match easing case Linear => 1.0 case InCubic => 0.0 case OutCubic => 3.0 case InOutCubic => 0.0
  }

  function EndSlope(easing: Easing): real {
    match easing case Linear => 1.0 case InCubic => 3.0 case OutCubic => 0.0 case InOutCubic => 0.0
  }

  // ---------------------------------------------------------------- the translation

  /** The events between two neighbouring keys. */
  function Interval(rot: Rotations, property: BehaviorProperty, left: BehaviorKey, right: BehaviorKey,
                    limits: BeatLimits)
    : Result<seq<BehaviorEvent>, MigrationError>
    requires Canonical(left.beat) && Canonical(right.beat)
  {
    var duration := Subtract(right.beat, left.beat);
    if duration.Err? || duration.value.numerator <= 0 || !WithinBeatLimits(duration.value, limits) then
      Err(DurationOutOfRange)
    else if EasingOf(right) != InOutCubic then
      Ok([BehaviorEvent(property, left.beat, duration.value, left.value, right.value,
                        StartSlope(EasingOf(right)), EndSlope(EasingOf(right)))])
    else SplitInterval(rot, property, left, right, limits)
  }

  function SplitInterval(rot: Rotations, property: BehaviorProperty, left: BehaviorKey, right: BehaviorKey,
                         limits: BeatLimits): Result<seq<BehaviorEvent>, MigrationError>
    requires Canonical(left.beat) && Canonical(right.beat)
  {
    var middle := Midpoint(left.beat, right.beat);
    if middle.Err? || !WithinBeatLimits(middle.value, limits) then Err(MigrationError.MidpointOutOfRange)
    else
      var first := Subtract(middle.value, left.beat);
      var second := Subtract(right.beat, middle.value);
      var value := MidpointValue(rot, left.value, right.value);
      if first.Err? || second.Err? || value.None?
         || !WithinBeatLimits(first.value, limits) || !WithinBeatLimits(second.value, limits) then Err(MidpointInvalid)
      else Ok([BehaviorEvent(property, left.beat, first.value, left.value, value.value, 0.0, 3.0),
               BehaviorEvent(property, middle.value, second.value, value.value, right.value, 3.0, 0.0)])
  }

  /** The two lists the migrator appends to. */
  datatype Migrated = Migrated(events: seq<BehaviorEvent>, diagnostics: seq<MigrationError>)

  function Extend(m: Migrated, interval: Result<seq<BehaviorEvent>, MigrationError>): Migrated {
    match interval
    case Ok(events) => m.(events := m.events + events)
    case Err(error) => m.(diagnostics := m.diagnostics + [error])
  }

  /** The translation of sorted keys, one interval after the other. */
  function MigrateKeys(rot: Rotations, property: BehaviorProperty, keys: seq<BehaviorKey>, limits: BeatLimits): Migrated
    requires KeysCanonical(keys)
  {
    var n := |keys|;
    if n <= 1 then Migrated([], [])
    else Extend(MigrateKeys(rot, property, keys[..n - 1], limits),
                Interval(rot, property, keys[n - 2], keys[n - 1], limits))
  }

  // ---------------------------------------------------------------- what the quaternion operations must satisfy

  /** Interpolation starts at its left end, and a midpoint is normalized. */
  ghost predicate RotationLaws(rot: Rotations) {
    && (forall p, q :: rot.normalized(p) && rot.normalized(q) ==> rot.slerp(p, q, 0.0) == Some(p))
    && (forall p, q :: rot.midpoint(p, q).Some? ==> rot.normalized(rot.midpoint(p, q).value))
  }

  /** Interpolation through the midpoint follows the arc between the ends; only rotations eased by
      in_out_cubic depend on it. */
  ghost predicate MidpointHalves(rot: Rotations) {
    forall p, q, m, t: real ::
      rot.normalized(p) && rot.normalized(q) && rot.midpoint(p, q) == Some(m) && 0.0 <= t <= 1.0 ==>
      rot.slerp(p, m, t) == rot.slerp(p, q, t * 0.5) && rot.slerp(m, q, t) == rot.slerp(p, q, 0.5 + t * 0.5)
  }

  ghost predicate KeysAccepted(rot: Rotations, property: BehaviorProperty, keys: seq<BehaviorKey>) {
    && KeysCanonical(keys)
    && (forall i :: 0 <= i < |keys| ==> ValueMatchesProperty(rot, property, keys[i].value))
  }

  ghost predicate DistinctBeats(keys: seq<BehaviorKey>) {
    forall i, j :: 0 <= i < j < |keys| ==> keys[i].beat != keys[j].beat
  }

  ghost predicate StrictlySorted(keys: seq<BehaviorKey>)
    requires KeysCanonical(keys)
  {
    forall i, j :: 0 <= i < j < |keys| ==> Value(keys[i].beat) < Value(keys[j].beat)
  }

  // ---------------------------------------------------------------- the compiler accepts the translation

  /** The runtime events that stand for one interval. */
  function Block(rot: Rotations, a: real, b: real, left: BehaviorValue, right: BehaviorValue,
                 easing: Easing): seq<RuntimeEvent> {
    if easing != InOutCubic then [RuntimeEvent(a, b, left, right, StartSlope(easing), EndSlope(easing), false)]
    else
      var value := MidpointValue(rot, left, right);
      if value.None? then []
      else [RuntimeEvent(a, (a + b) * 0.5, left, value.value, 0.0, 3.0, false),
            RuntimeEvent((a + b) * 0.5, b, value.value, right, 3.0, 0.0, false)]
  }

  /** The compiler has read events without complaint up to exactly this beat. */
  ghost predicate Ready(st: TrackState, beat: RationalBeat) {
    && st.errors == []
    && (st.previousStart.None? ==> st.previousEnd.None?)
    && (st.previousStart.Some? ==> st.previousEnd == Some(beat) && Before(st.previousStart.value, beat))
  }

  lemma EventCompiles(rot: Rotations, property: BehaviorProperty, st: TrackState, e: BehaviorEvent, end: RationalBeat)
    requires Canonical(e.startBeat) && Canonical(e.durationBeats) && Ready(st, e.startBeat)
    requires Add(e.startBeat, e.durationBeats) == Ok(end) && e.durationBeats.numerator > 0
    requires SlopesAllowed(e.startSlope, e.endSlope)
    requires ValueMatchesProperty(rot, property, e.startValue) && ValueMatchesProperty(rot, property, e.endValue)
    ensures Before(e.startBeat, end)
    ensures CompileEvent(rot, property, st, e)
      == TrackState([], st.events + [RuntimeEvent(Value(e.startBeat), Value(end), e.startValue, e.endValue,
                                                  e.startSlope, e.endSlope, false)],
                    Some(e.startBeat), Some(end))
  {
    SignOfValue(e.durationBeats);
    BeforeIsOrder(e.startBeat, end);
    BeforeIsOrder(e.startBeat, e.startBeat);
    assert EventErrors(rot, property, st, e) == [];
  }

  lemma DurationIsPositive(later: RationalBeat, earlier: RationalBeat, d: RationalBeat)
    requires Canonical(later) && Canonical(earlier) && Subtract(later, earlier) == Ok(d)
    requires Value(earlier) < Value(later)
    ensures d.numerator > 0
  {
    SignOfValue(d);
  }

  lemma MidpointMatches(rot: Rotations, property: BehaviorProperty, left: BehaviorValue, right: BehaviorValue)
    requires RotationLaws(rot) && MidpointValue(rot, left, right).Some?
    requires ValueMatchesProperty(rot, property, left) && ValueMatchesProperty(rot, property, right)
    ensures ValueMatchesProperty(rot, property, MidpointValue(rot, left, right).value)
  {
  }

  lemma CompileAppends(rot: Rotations, property: BehaviorProperty, events: seq<BehaviorEvent>, e: BehaviorEvent)
    requires EventsCanonical(events) && Canonical(e.startBeat) && Canonical(e.durationBeats)
    ensures EventsCanonical(events + [e])
    ensures CompileEvents(rot, property, events + [e])
        == CompileEvent(rot, property, CompileEvents(rot, property, events), e)
  {
    AppendCanonical(events, e);
    assert (events + [e])[..|events + [e]| - 1] == events;
  }

  lemma AppendCanonical(events: seq<BehaviorEvent>, e: BehaviorEvent)
    requires EventsCanonical(events) && Canonical(e.startBeat) && Canonical(e.durationBeats)
    ensures EventsCanonical(events + [e])
  {
  }

  /** These events compile without complaint up to exactly the end beat, into this track. */
  ghost predicate CompilesTo(rot: Rotations, property: BehaviorProperty, events: seq<BehaviorEvent>, end: RationalBeat,
                             track: seq<RuntimeEvent>)
  {
    EventsCanonical(events) && ReadyAfter(CompileEvents(rot, property, events), end, track)
  }

  ghost predicate ReadyAfter(st: TrackState, end: RationalBeat, track: seq<RuntimeEvent>) {
    Ready(st, end) && st.events == track
  }

  function ImageOf(e: BehaviorEvent, end: RationalBeat): RuntimeEvent
    requires e.startBeat.denominator > 0 && end.denominator > 0
  {
    RuntimeEvent(Value(e.startBeat), Value(end), e.startValue, e.endValue, e.startSlope, e.endSlope, false)
  }

  ghost predicate EventSpans(rot: Rotations, property: BehaviorProperty, e: BehaviorEvent, end: RationalBeat) {
    && Canonical(e.startBeat) && Canonical(end) && Subtract(end, e.startBeat) == Ok(e.durationBeats)
    && Value(e.startBeat) < Value(end) && SlopesAllowed(e.startSlope, e.endSlope)
    && ValueMatchesProperty(rot, property, e.startValue) && ValueMatchesProperty(rot, property, e.endValue)
  }

  lemma SpanCompiles(rot: Rotations, property: BehaviorProperty, before: seq<BehaviorEvent>, e: BehaviorEvent,
                     end: RationalBeat, track: seq<RuntimeEvent>)
    requires CompilesTo(rot, property, before, e.startBeat, track) && EventSpans(rot, property, e, end)
    ensures CompilesTo(rot, property, before + [e], end, track + [ImageOf(e, end)])
  {
    DurationIsPositive(end, e.startBeat, e.durationBeats);
    AddUndoesSubtract(end, e.startBeat);
    EventCompiles(rot, property, CompileEvents(rot, property, before), e, end);
    CompileAppends(rot, property, before, e);
  }

  /** The two halves of a split interval. */
  lemma TwoSpansCompile(rot: Rotations, property: BehaviorProperty, before: seq<BehaviorEvent>,
                        first: BehaviorEvent, second: BehaviorEvent, end: RationalBeat, track: seq<RuntimeEvent>)
    requires CompilesTo(rot, property, before, first.startBeat, track)
    requires EventSpans(rot, property, first, second.startBeat) && EventSpans(rot, property, second, end)
    ensures CompilesTo(rot, property, before + [first, second], end,
                       track + [ImageOf(first, second.startBeat), ImageOf(second, end)])
  {
    SpanCompiles(rot, property, before, first, second.startBeat, track);
    SpanCompiles(rot, property, before + [first], second, end, track + [ImageOf(first, second.startBeat)]);
    assert before + [first] + [second] == before + [first, second];
    assert track + [ImageOf(first, second.startBeat)] + [ImageOf(second, end)]
        == track + [ImageOf(first, second.startBeat), ImageOf(second, end)];
  }

  /** An unsplit interval is one event over exactly the two keys. */
  lemma PlainSpans(rot: Rotations, property: BehaviorProperty, left: BehaviorKey, right: BehaviorKey,
                   limits: BeatLimits)
    requires Canonical(left.beat) && Canonical(right.beat) && Value(left.beat) < Value(right.beat)
    requires Interval(rot, property, left, right, limits).Ok? && EasingOf(right) != InOutCubic
    requires ValueMatchesProperty(rot, property, left.value) && ValueMatchesProperty(rot, property, right.value)
    ensures var es := Interval(rot, property, left, right, limits).value;
      && |es| == 1 && es[0].startBeat == left.beat && EventSpans(rot, property, es[0], right.beat)
      && Block(rot, Value(left.beat), Value(right.beat), left.value, right.value, EasingOf(right))
         == [ImageOf(es[0], right.beat)]
  {
  }

  /** A split interval is two events that meet at the exact middle. */
  lemma SplitSpans(rot: Rotations, property: BehaviorProperty, left: BehaviorKey, right: BehaviorKey,
                   limits: BeatLimits)
    requires Canonical(left.beat) && Canonical(right.beat) && Value(left.beat) < Value(right.beat)
    requires SplitInterval(rot, property, left, right, limits).Ok? && RotationLaws(rot)
    requires ValueMatchesProperty(rot, property, left.value) && ValueMatchesProperty(rot, property, right.value)
    ensures var es := SplitInterval(rot, property, left, right, limits).value;
      && |es| == 2 && es[0].startBeat == left.beat
      && EventSpans(rot, property, es[0], es[1].startBeat) && EventSpans(rot, property, es[1], right.beat)
      && Block(rot, Value(left.beat), Value(right.beat), left.value, right.value, InOutCubic)
         == [ImageOf(es[0], es[1].startBeat), ImageOf(es[1], right.beat)]
  {
    MidpointMatches(rot, property, left.value, right.value);
  }

  lemma IntervalCompiles(rot: Rotations, property: BehaviorProperty, before: seq<BehaviorEvent>,
                         left: BehaviorKey, right: BehaviorKey, limits: BeatLimits, track: seq<RuntimeEvent>)
    requires Canonical(left.beat) && Canonical(right.beat) && Value(left.beat) < Value(right.beat)
    requires CompilesTo(rot, property, before, left.beat, track)
    requires Interval(rot, property, left, right, limits).Ok? && RotationLaws(rot)
    requires ValueMatchesProperty(rot, property, left.value) && ValueMatchesProperty(rot, property, right.value)
    ensures CompilesTo(rot, property, before + Interval(rot, property, left, right, limits).value, right.beat,
                       track + Block(rot, Value(left.beat), Value(right.beat), left.value, right.value,
                                     EasingOf(right)))
  {
    var es := Interval(rot, property, left, right, limits).value;
    if EasingOf(right) != InOutCubic {
      PlainSpans(rot, property, left, right, limits);
      assert es == [es[0]];
      SpanCompiles(rot, property, before, es[0], right.beat, track);
    } else {
      SplitSpans(rot, property, left, right, limits);
      assert es == [es[0], es[1]];
      TwoSpansCompile(rot, property, before, es[0], es[1], right.beat, track);
    }
  }

  /** The runtime track the translation of these keys becomes. */
  function Blocks(rot: Rotations, keys: seq<BehaviorKey>): seq<RuntimeEvent>
    requires KeysCanonical(keys)
  {
    var n := |keys|;
    if n <= 1 then []
    else
      var last := Block(rot, Value(keys[n - 2].beat), Value(keys[n - 1].beat), keys[n - 2].value, keys[n - 1].value,
                        EasingOf(keys[n - 1]));
      Blocks(rot, keys[..n - 1]) + last
  }

  lemma TranslationUnfolds(rot: Rotations, property: BehaviorProperty, keys: seq<BehaviorKey>, limits: BeatLimits)
    requires |keys| > 1 && KeysCanonical(keys) && MigrateKeys(rot, property, keys, limits).diagnostics == []
    ensures var before := MigrateKeys(rot, property, keys[..|keys| - 1], limits);
      var interval := Interval(rot, property, keys[|keys| - 2], keys[|keys| - 1], limits);
      && before.diagnostics == [] && interval.Ok?
      && MigrateKeys(rot, property, keys, limits) == Migrated(before.events + interval.value, [])
  {
  }

  lemma PrefixAccepted(rot: Rotations, property: BehaviorProperty, keys: seq<BehaviorKey>, n: nat)
    requires n <= |keys| && KeysAccepted(rot, property, keys) && StrictlySorted(keys)
    ensures KeysAccepted(rot, property, keys[..n]) && StrictlySorted(keys[..n])
  {
  }

  lemma LastInterval(rot: Rotations, property: BehaviorProperty, keys: seq<BehaviorKey>)
    requires |keys| > 1 && KeysAccepted(rot, property, keys) && StrictlySorted(keys)
    ensures var left, right := keys[|keys| - 2], keys[|keys| - 1];
      && Canonical(left.beat) && Canonical(right.beat) && Value(left.beat) < Value(right.beat)
      && ValueMatchesProperty(rot, property, left.value) && ValueMatchesProperty(rot, property, right.value)
  {
  }

  lemma TranslationStep(rot: Rotations, property: BehaviorProperty, keys: seq<BehaviorKey>, limits: BeatLimits,
                        before: seq<BehaviorEvent>)
    requires |keys| > 1 && KeysAccepted(rot, property, keys) && StrictlySorted(keys) && RotationLaws(rot)
    requires CompilesTo(rot, property, before, keys[|keys| - 2].beat, Blocks(rot, keys[..|keys| - 1]))
    requires Interval(rot, property, keys[|keys| - 2], keys[|keys| - 1], limits).Ok?
    ensures CompilesTo(rot, property,
                       before + Interval(rot, property, keys[|keys| - 2], keys[|keys| - 1], limits).value,
                       keys[|keys| - 1].beat, Blocks(rot, keys))
  {
    LastInterval(rot, property, keys);
    IntervalCompiles(rot, property, before, keys[|keys| - 2], keys[|keys| - 1], limits,
                     Blocks(rot, keys[..|keys| - 1]));
  }

  /** Without migration errors the compiler finds no error either (no overlap, repeated start, bad slope,
      zero duration, value or beat out of range), and its track is the contiguous blocks. */
  lemma {:induction false} TranslationCompiles(rot: Rotations, property: BehaviorProperty, keys: seq<BehaviorKey>,
                                               limits: BeatLimits)
    requires keys != [] && KeysAccepted(rot, property, keys) && StrictlySorted(keys) && RotationLaws(rot)
    requires MigrateKeys(rot, property, keys, limits).diagnostics == []
    ensures CompilesTo(rot, property, MigrateKeys(rot, property, keys, limits).events, keys[|keys| - 1].beat,
                       Blocks(rot, keys))
    decreases |keys|
  {
    if |keys| > 1 {
      TranslationUnfolds(rot, property, keys, limits);
      PrefixAccepted(rot, property, keys, |keys| - 1);
      TranslationCompiles(rot, property, keys[..|keys| - 1], limits);
      TranslationStep(rot, property, keys, limits, MigrateKeys(rot, property, keys[..|keys| - 1], limits).events);
    }
  }
}
