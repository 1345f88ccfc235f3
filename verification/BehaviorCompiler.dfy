/** The chart compiler's part for behaviours: value ranges, keyframe tracks and event tracks. */
module BehaviorCompiler {
  import opened Wrappers
  import opened RationalBeats
  import opened BehaviorSampling
  import Sorting

  datatype BehaviorProperty =
    | TransformPositionX | TransformPositionY | TransformPositionZ | TransformRotation | TransformScale
    | CameraFovY | MaterialOpacity | MaterialTint

  const PROPERTIES: seq<BehaviorProperty> :=
    [TransformPositionX, TransformPositionY, TransformPositionZ, TransformRotation, TransformScale,
     CameraFovY, MaterialOpacity, MaterialTint]

  const FLOAT_MAX := 340282346638528859811704183484516925440.0

  predicate ValueMatchesProperty(rot: Rotations, property: BehaviorProperty, value: BehaviorValue) {
    match property
    case TransformPositionX => value.Scalar? && -FLOAT_MAX <= value.value <= FLOAT_MAX
    case TransformPositionY => value.Scalar? && -FLOAT_MAX <= value.value <= FLOAT_MAX
    case TransformPositionZ => value.Scalar? && -FLOAT_MAX <= value.value <= FLOAT_MAX
    case TransformRotation => value.Rotation? && rot.normalized(value.quat)
    case TransformScale => value.Vector?
    case CameraFovY => value.Scalar? && 0.0 < value.value < 179.0
    case MaterialOpacity => value.Scalar? && 0.0 <= value.value <= 1.0
    case MaterialTint => value.Vector? && 0.0 <= value.x <= 1.0 && 0.0 <= value.y <= 1.0 && 0.0 <= value.z <= 1.0
  }

  datatype BehaviorKey = BehaviorKey(beat: RationalBeat, value: BehaviorValue, easing: Option<Easing>)

  datatype BehaviorEvent = BehaviorEvent(property: BehaviorProperty, startBeat: RationalBeat,
                                         durationBeats: RationalBeat,
                                         startValue: BehaviorValue, endValue: BehaviorValue,
                                         startSlope: real, endSlope: real)

  predicate KeyBefore(a: BehaviorKey, b: BehaviorKey) { Before(a.beat, b.beat) }

  predicate EventBefore(a: BehaviorEvent, b: BehaviorEvent) { Before(a.startBeat, b.startBeat) }

  /** Beats are canonical by construction. */
  ghost predicate KeysCanonical(keys: seq<BehaviorKey>) {
    forall i :: 0 <= i < |keys| ==> Canonical(keys[i].beat)
  }

  ghost predicate EventsCanonical(events: seq<BehaviorEvent>) {
    forall i :: 0 <= i < |events| ==> Canonical(events[i].startBeat) && Canonical(events[i].durationBeats)
  }

  function SortedKeys(keys: seq<BehaviorKey>): seq<BehaviorKey> { Sorting.Sort(KeyBefore, keys) }

  /** The keyframe track of already sorted keys; msPerBeat is 60000 / bpm, the chart's one tempo. */
  function CompileKeys(keys: seq<BehaviorKey>, msPerBeat: real): (r: seq<RuntimeKey>)
    requires forall i :: 0 <= i < |keys| ==> keys[i].beat.denominator > 0
    ensures |r| == |keys|
    ensures forall i :: 0 <= i < |keys| ==> r[i].time == Value(keys[i].beat) * msPerBeat && r[i].value == keys[i].value
  {
    seq(|keys|, i requires 0 <= i < |keys| =>
      RuntimeKey(Value(keys[i].beat) * msPerBeat, keys[i].value,
                 if keys[i].easing.Some? then keys[i].easing.value else Linear))
  }

  datatype CompileError =
    | BeatOutOfRange | DurationNegative | SlopeInvalid | ValueInvalid | ZeroDurationInvalid
    | EventStartDuplicate | EventOverlap

  /** The compiler's state after some events of one property. */
  datatype TrackState = TrackState(errors: seq<CompileError>, events: seq<RuntimeEvent>,
                                   previousStart: Option<RationalBeat>, previousEnd: Option<RationalBeat>)

  const EMPTY_TRACK := TrackState([], [], None, None)

  function EventErrors(rot: Rotations, property: BehaviorProperty, st: TrackState, e: BehaviorEvent): seq<CompileError>
    requires Canonical(e.startBeat) && Canonical(e.durationBeats)
  {
    (if Add(e.startBeat, e.durationBeats).Err? then [BeatOutOfRange] else [])
    + (if Before(e.durationBeats, ZERO) then [DurationNegative] else [])
    + (if e.startSlope < 0.0 || e.endSlope < 0.0 || e.startSlope + e.endSlope > 3.0 then [SlopeInvalid] else [])
    + (if !ValueMatchesProperty(rot, property, e.startValue) || !ValueMatchesProperty(rot, property, e.endValue)
       then [ValueInvalid] else [])
    + (if e.durationBeats == ZERO && (e.startValue != e.endValue || e.startSlope != 0.0 || e.endSlope != 0.0)
       then [ZeroDurationInvalid] else [])
    + (if st.previousStart == Some(e.startBeat) then [EventStartDuplicate]
       else if st.previousEnd.Some? && Before(e.startBeat, st.previousEnd.value) then [EventOverlap] else [])
  }

  function CompileEvent(rot: Rotations, property: BehaviorProperty, st: TrackState, e: BehaviorEvent): (r: TrackState)
    requires Canonical(e.startBeat) && Canonical(e.durationBeats)
  {
    var errors := EventErrors(rot, property, st, e);
    var end := Add(e.startBeat, e.durationBeats);
    TrackState(
      st.errors + errors,
      if errors == [] && end.Ok? then
        st.events + [RuntimeEvent(Value(e.startBeat), Value(end.value), e.startValue, e.endValue, e.startSlope,
                                  e.endSlope, e.durationBeats == ZERO)]
      else st.events,
      Some(e.startBeat),
      if end.Ok? then Some(end.value) else st.previousEnd)
  }

  /** The state after all the given events, in order. */
  function CompileEvents(rot: Rotations, property: BehaviorProperty, events: seq<BehaviorEvent>): TrackState
    requires EventsCanonical(events)
  {
    if events == [] then EMPTY_TRACK
    else CompileEvent(rot, property, CompileEvents(rot, property, events[..|events| - 1]), events[|events| - 1])
  }

  method CompileEventTrack(rot: Rotations, property: BehaviorProperty, source: seq<BehaviorEvent>)
    returns (st: TrackState)
    requires EventsCanonical(source)
    ensures EventsCanonical(Sorting.Sort(EventBefore, source))
    ensures st == CompileEvents(rot, property, Sorting.Sort(EventBefore, source))
  {
    SortKeepsCanonical(source);
    var sorted := Sorting.Sort(EventBefore, source);
    st := EMPTY_TRACK;
    for i := 0 to |sorted|
      invariant st == CompileEvents(rot, property, sorted[..i])
    {
      assert sorted[..i + 1][..i] == sorted[..i];
      st := CompileEvent(rot, property, st, sorted[i]);
    }
    assert sorted[..|sorted|] == sorted;
  }

  lemma SortKeepsCanonical(source: seq<BehaviorEvent>)
    requires EventsCanonical(source)
    ensures EventsCanonical(Sorting.Sort(EventBefore, source))
  {
    var sorted := Sorting.Sort(EventBefore, source);
    Sorting.SameMultisetSameMembers(sorted, source);
    forall i | 0 <= i < |sorted| ensures Canonical(sorted[i].startBeat) && Canonical(sorted[i].durationBeats) {
      assert sorted[i] in sorted && sorted[i] in source;
    }
  }

  // ---------------------------------------------------------------- what an accepted track guarantees

  /** What every event of a track compiled without errors satisfies. */
  predicate EventAccepted(rot: Rotations, property: BehaviorProperty, e: RuntimeEvent) {
    && SlopesAllowed(e.startSlope, e.endSlope)
    && ValueMatchesProperty(rot, property, e.startValue) && ValueMatchesProperty(rot, property, e.endValue)
    && e.startBeat <= e.endBeat && (e.instantaneous <==> e.startBeat == e.endBeat)
  }

  lemma {:induction false} CompiledEventsAccepted(rot: Rotations, property: BehaviorProperty,
                                                  events: seq<BehaviorEvent>)
    requires EventsCanonical(events) && CompileEvents(rot, property, events).errors == []
    ensures forall e :: e in CompileEvents(rot, property, events).events ==> EventAccepted(rot, property, e)
  {
    if events != [] {
      var n := |events| - 1;
      CompiledEventsAccepted(rot, property, events[..n]);
      var d := events[n].durationBeats;
      assert EventErrors(rot, property, CompileEvents(rot, property, events[..n]), events[n]) == [];
      BeforeIsOrder(d, ZERO);
      SignOfValue(ZERO);
      SignOfValue(d);
      ZeroIsCanonical();
      if Value(d) == 0.0 { CanonicalIsUnique(d, ZERO); }
    }
  }

  lemma ZeroIsCanonical()
    ensures Canonical(ZERO)
  {
    assert Gcd(0, 1) == Gcd(1, 0) == 1;
  }

  /** A scalar or vector that lies between two others, component by component. */
  predicate ValueBetween(v: BehaviorValue, a: BehaviorValue, b: BehaviorValue) {
    match (v, a, b)
    case (Scalar(x), Scalar(p), Scalar(q)) => Between(x, p, q)
    case (Vector(x, y, z), Vector(p, q, r), Vector(s, t, u)) => Between(x, p, s) && Between(y, q, t) && Between(z, r, u)
    case _ => false
  }

  /** Range safety: once the compiler accepted an event track, every sample is in the range the compiler checked.
      Before the first event it is the baseline, and from there on it lies between the endpoints of the event that is
      selected at the beat. */
  lemma SamplesStayInRange(rot: Rotations, property: BehaviorProperty, events: seq<BehaviorEvent>, beat: real,
                           baseline: BehaviorValue)
    requires property != TransformRotation && EventsCanonical(events)
    requires CompileEvents(rot, property, events).errors == []
    requires ValueMatchesProperty(rot, property, baseline)
    ensures var track := CompileEvents(rot, property, events).events;
      var r := SampleEvents(rot, track, beat, baseline);
      && r.Ok? && ValueMatchesProperty(rot, property, r.value)
      && if track == [] || beat < track[0].startBeat then r.value == baseline
         else (var n := UpperBound(track, beat);
               n > 0 && ValueBetween(r.value, track[n - 1].startValue, track[n - 1].endValue))
  {
    var track := CompileEvents(rot, property, events).events;
    CompiledEventsAccepted(rot, property, events);
    if track != [] && track[0].startBeat <= beat {
      var e := track[UpperBound(track, beat) - 1];
      assert EventAccepted(rot, property, e);
      OneSampleInRange(rot, property, e, beat);
    }
  }

  lemma OneSampleInRange(rot: Rotations, property: BehaviorProperty, e: RuntimeEvent, beat: real)
    requires property != TransformRotation && EventAccepted(rot, property, e)
    ensures var r := SampleOneEvent(rot, e, beat);
      r.Ok? && ValueMatchesProperty(rot, property, r.value) && ValueBetween(r.value, e.startValue, e.endValue)
  {
    if !e.instantaneous && beat < e.endBeat {
      var t := HermiteProgress((beat - e.startBeat) / (e.endBeat - e.startBeat), e.startSlope, e.endSlope);
      HermiteStaysInUnit((beat - e.startBeat) / (e.endBeat - e.startBeat), e.startSlope, e.endSlope);
      InterpolationInRange(rot, property, e.startValue, e.endValue, t);
    }
  }

  lemma InterpolationInRange(rot: Rotations, property: BehaviorProperty, a: BehaviorValue, b: BehaviorValue, t: real)
    requires property != TransformRotation && 0.0 <= t <= 1.0
    requires ValueMatchesProperty(rot, property, a) && ValueMatchesProperty(rot, property, b)
    ensures var r := Interpolate(rot, a, b, t);
      r.Ok? && ValueMatchesProperty(rot, property, r.value) && ValueBetween(r.value, a, b)
  {
    if a.Scalar? {
      LerpBetween(a.value, b.value, t);
    } else {
      LerpBetween(a.x, b.x, t);
      LerpBetween(a.y, b.y, t);
      LerpBetween(a.z, b.z, t);
    }
  }
}
