/**
 What the compiler accepts of event tracks, and what it makes of them: without an error exactly for well-formed events
 that follow each other, and then each event as it was written.
 */
module BehaviorAcceptance {
  import opened Wrappers
  import opened RationalBeats
  import opened BeatRanges
  import opened BehaviorSampling
  import opened BehaviorCompiler
  import Sorting

  predicate InUnit(x: real) { 0.0 <= x <= 1.0 }

  /** Positions are any finite floats, a field of view is an angle below 179 degrees, opacity and tint are fractions,
      and a rotation is normalized. */
  predicate InRange(rot: Rotations, property: BehaviorProperty, value: BehaviorValue) {
    match value
    case Scalar(x) =>
      if property == CameraFovY then 0.0 < x && x < 179.0
      else if property == MaterialOpacity then InUnit(x)
      else
        && property in {TransformPositionX, TransformPositionY, TransformPositionZ}
        && -340282346638528859811704183484516925440.0 <= x <= 340282346638528859811704183484516925440.0
    case Vector(x, y, z) => property == TransformScale
        || (property == MaterialTint && InUnit(x) && InUnit(y) && InUnit(z))
    case Rotation(q) => property == TransformRotation && rot.normalized(q)
  }

  lemma MatchesInRange(rot: Rotations, property: BehaviorProperty, value: BehaviorValue)
    ensures ValueMatchesProperty(rot, property, value) <==> InRange(rot, property, value)
  {
  }

  ghost predicate WellFormed(rot: Rotations, property: BehaviorProperty, e: BehaviorEvent)
    requires e.durationBeats.denominator > 0
  {
    && SumInRange(e.startBeat, e.durationBeats) && Value(e.durationBeats) >= 0.0
    && 0.0 <= e.startSlope && 0.0 <= e.endSlope && e.startSlope + e.endSlope <= 3.0
    && InRange(rot, property, e.startValue) && InRange(rot, property, e.endValue)
    && (Value(e.durationBeats) == 0.0 ==> e.startValue == e.endValue && e.startSlope == 0.0 && e.endSlope == 0.0)
  }

  /** The later event starts when the earlier one has ended, and not together with it. */
  predicate Follows(earlier: BehaviorEvent, later: BehaviorEvent)
    requires earlier.startBeat.denominator > 0 && earlier.durationBeats.denominator > 0
    requires later.startBeat.denominator > 0
  {
    && Value(earlier.startBeat) != Value(later.startBeat)
    && Value(earlier.startBeat) + Value(earlier.durationBeats) <= Value(later.startBeat)
  }

  ghost predicate AllWellFormed(rot: Rotations, property: BehaviorProperty, events: seq<BehaviorEvent>)
    requires EventsCanonical(events)
  {
    forall i :: 0 <= i < |events| ==> InPlace(rot, property, events, i)
  }

  ghost predicate InPlace(rot: Rotations, property: BehaviorProperty, events: seq<BehaviorEvent>, i: nat)
    requires EventsCanonical(events) && i < |events|
  {
    WellFormed(rot, property, events[i]) && (i > 0 ==> Follows(events[i - 1], events[i]))
  }

  /** An event as it runs. */
  function Running(e: BehaviorEvent): RuntimeEvent
    requires e.startBeat.denominator > 0 && e.durationBeats.denominator > 0
  {
    RuntimeEvent(Value(e.startBeat), Value(e.startBeat) + Value(e.durationBeats), e.startValue, e.endValue,
                 e.startSlope, e.endSlope, Value(e.durationBeats) == 0.0)
  }

  lemma ZeroDuration(b: RationalBeat)
    requires Canonical(b)
    ensures b == ZERO <==> Value(b) == 0.0
    ensures Before(b, ZERO) <==> Value(b) < 0.0
  {
    ZeroIsCanonical();
    BeforeIsOrder(b, ZERO);
    if Value(b) == Value(ZERO) { CanonicalIsUnique(b, ZERO); }
    SignOfValue(ZERO);
  }

  /** The first event of a track, or one after an error-free one. */
  ghost predicate ReadyFor(st: TrackState, previous: Option<BehaviorEvent>) {
    match previous
    case None => st.previousStart.None? && st.previousEnd.None?
    case Some(p) =>
      && Canonical(p.startBeat) && Canonical(p.durationBeats)
      && st.previousStart == Some(p.startBeat)
      && Add(p.startBeat, p.durationBeats).Ok? && st.previousEnd == Some(Add(p.startBeat, p.durationBeats).value)
  }

  lemma EventReportsExactly(rot: Rotations, property: BehaviorProperty, st: TrackState, previous: Option<BehaviorEvent>,
                            e: BehaviorEvent)
    requires Canonical(e.startBeat) && Canonical(e.durationBeats) && ReadyFor(st, previous)
    ensures EventErrors(rot, property, st, e) == [] <==>
      WellFormed(rot, property, e) && (previous.Some? ==> Follows(previous.value, e))
  {
    AddSucceedsExactly(e.startBeat, e.durationBeats);
    ZeroDuration(e.durationBeats);
    MatchesInRange(rot, property, e.startValue);
    MatchesInRange(rot, property, e.endValue);
    if previous.Some? {
      var p := previous.value;
      BeforeIsOrder(e.startBeat, st.previousEnd.value);
      if Value(p.startBeat) == Value(e.startBeat) { CanonicalIsUnique(p.startBeat, e.startBeat); }
    }
  }

  lemma EventRuns(rot: Rotations, property: BehaviorProperty, st: TrackState, e: BehaviorEvent)
    requires Canonical(e.startBeat) && Canonical(e.durationBeats)
    ensures var r := CompileEvent(rot, property, st, e);
      && r.errors == st.errors + EventErrors(rot, property, st, e)
      && (EventErrors(rot, property, st, e) == [] ==> r.events == st.events + [Running(e)] && ReadyFor(r, Some(e)))
  {
    ZeroDuration(e.durationBeats);
  }

  ghost predicate RunsAs(events: seq<BehaviorEvent>, running: seq<RuntimeEvent>)
    requires EventsCanonical(events)
  {
    |running| == |events| && forall i :: 0 <= i < |events| ==> running[i] == Running(events[i])
  }

  /** A track compiles without an error exactly when all its events are well formed and follow each other; then it runs
      exactly these events, in their order. */
  lemma {:induction false} EventsCompileExactly(rot: Rotations, property: BehaviorProperty, events: seq<BehaviorEvent>)
    requires EventsCanonical(events)
    ensures var r := CompileEvents(rot, property, events);
      && (r.errors == [] <==> AllWellFormed(rot, property, events))
      && (r.errors == [] ==>
            RunsAs(events, r.events) && ReadyFor(r, if events == [] then None else Some(events[|events| - 1])))
    decreases |events|
  {
    if events != [] {
      var n := |events| - 1;
      var before := CompileEvents(rot, property, events[..n]);
      EventsCompileExactly(rot, property, events[..n]);
      PrefixWellFormed(rot, property, events);
      LastEvent(rot, property, before, events);
    }
  }

  lemma LastEvent(rot: Rotations, property: BehaviorProperty, before: TrackState, events: seq<BehaviorEvent>)
    requires events != [] && EventsCanonical(events) && EventsCanonical(events[..|events| - 1])
    requires before.errors == [] ==>
      && RunsAs(events[..|events| - 1], before.events)
      && ReadyFor(before, if |events| == 1 then None else Some(events[|events| - 2]))
    ensures var n := |events| - 1;
      var r := CompileEvent(rot, property, before, events[n]);
      && (r.errors == [] <==> before.errors == [] && InPlace(rot, property, events, n))
      && (r.errors == [] ==> RunsAs(events, r.events) && ReadyFor(r, Some(events[n])))
  {
    var n := |events| - 1;
    EventRuns(rot, property, before, events[n]);
    if before.errors == [] {
      EventReportsExactly(rot, property, before, if n == 0 then None else Some(events[n - 1]), events[n]);
    }
  }

  lemma PrefixWellFormed(rot: Rotations, property: BehaviorProperty, events: seq<BehaviorEvent>)
    requires events != [] && EventsCanonical(events)
    ensures var n := |events| - 1;
      && EventsCanonical(events[..n])
      && (AllWellFormed(rot, property, events) <==>
            AllWellFormed(rot, property, events[..n]) && InPlace(rot, property, events, n))
  {
    var n := |events| - 1;
    var before := events[..n];
    forall i | 0 <= i < n ensures InPlace(rot, property, before, i) <==> InPlace(rot, property, events, i) {
      assert before[i] == events[i] && (i > 0 ==> before[i - 1] == events[i - 1]);
    }
  }
}
