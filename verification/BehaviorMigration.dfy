/**
 The migration of a whole behaviour: its tracks in property order, the baselines of the objects bound to
 it rewritten in place, and all events gathered in one list that the compiler splits by property again.
 */
module BehaviorMigration {
  import opened Wrappers
  import opened RationalBeats
  import opened BehaviorSampling
  import opened BehaviorCompiler
  import opened ChartMigration
  import MigrationMeaning
  import Sorting

  // ---------------------------------------------------------------- baselines

  datatype Vec3 = Vec3(x: real, y: real, z: real)

  datatype Transform = Transform(position: Vec3, rotation: Quat, scale: Vec3)

  datatype Components = Components(transform: Option<Transform>, fovY: Option<real>, renderable: bool)

  /** What the runtime session animates from. */
  function BaselineFor(c: Components, property: BehaviorProperty): Option<BehaviorValue> {
    match property
    case TransformPositionX => if c.transform.Some? then Some(Scalar(c.transform.value.position.x)) else None
    case TransformPositionY => if c.transform.Some? then Some(Scalar(c.transform.value.position.y)) else None
    case TransformPositionZ => if c.transform.Some? then Some(Scalar(c.transform.value.position.z)) else None
    case TransformRotation => if c.transform.Some? then Some(Rotation(c.transform.value.rotation)) else None
    case TransformScale =>
      (match c.transform
       case Some(Transform(_, _, scale)) => Some(Vector(scale.x, scale.y, scale.z))
       case None => None)
    case CameraFovY => if c.fovY.Some? then Some(Scalar(c.fovY.value)) else None
    case MaterialOpacity => if c.renderable then Some(Scalar(1.0)) else None
    case MaterialTint => if c.renderable then Some(Vector(1.0, 1.0, 1.0)) else None
  }

  /** None where the migrator reports the target invalid. */
  function RewriteBaseline(c: Components, property: BehaviorProperty, value: BehaviorValue): Option<Components> {
    match property
    case TransformPositionX =>
      if c.transform.None? || !value.Scalar? then None
      else
        var t := c.transform.value;
        Some(c.(transform := Some(t.(position := t.position.(x := value.value)))))
    case TransformPositionY =>
      if c.transform.None? || !value.Scalar? then None
      else
        var t := c.transform.value;
        Some(c.(transform := Some(t.(position := t.position.(y := value.value)))))
    case TransformPositionZ =>
      if c.transform.None? || !value.Scalar? then None
      else
        var t := c.transform.value;
        Some(c.(transform := Some(t.(position := t.position.(z := value.value)))))
    case TransformRotation =>
      if c.transform.None? || !value.Rotation? then None
      else Some(c.(transform := Some(c.transform.value.(rotation := value.quat))))
    case TransformScale =>
      if c.transform.None? || !value.Vector? then None
      else Some(c.(transform := Some(c.transform.value.(scale := Vec3(value.x, value.y, value.z)))))
    case CameraFovY =>
      if c.fovY.None? || !value.Scalar? then None else Some(c.(fovY := Some(value.value)))
    case MaterialOpacity => None
    case MaterialTint => None
  }

  predicate SameType(a: BehaviorValue, b: BehaviorValue) { (a.Scalar? <==> b.Scalar?) && (a.Vector? <==> b.Vector?) }

  /** Rewriting succeeds exactly where the session finds a baseline of the same type that is stored in the
      object; it then is the new baseline, and no other property's baseline changes. */
  lemma RewriteSetsBaseline(c: Components, property: BehaviorProperty, value: BehaviorValue, other: BehaviorProperty)
    ensures var r := RewriteBaseline(c, property, value);
      && (r.Some? <==> (!property.MaterialOpacity? && !property.MaterialTint? && BaselineFor(c, property).Some?
                        && SameType(value, BaselineFor(c, property).value)))
      && (r.Some? ==> BaselineFor(r.value, property) == Some(value))
      && (r.Some? && other != property ==> BaselineFor(r.value, other) == BaselineFor(c, other))
  {
  }

  function Rewritten(c: Components, property: BehaviorProperty, value: BehaviorValue): Components {
    var r := RewriteBaseline(c, property, value);
    if r.Some? then r.value else c
  }

  // ---------------------------------------------------------------- one behaviour

  datatype BehaviorTrack = BehaviorTrack(property: BehaviorProperty, keys: seq<BehaviorKey>)

  function Rank(property: BehaviorProperty): nat {
    match property
    case TransformPositionX => 0 case TransformPositionY => 1 case TransformPositionZ => 2
    case TransformRotation => 3 case TransformScale => 4 case CameraFovY => 5
    case MaterialOpacity => 6 case MaterialTint => 7
  }

  predicate TrackBefore(a: BehaviorTrack, b: BehaviorTrack) { Rank(a.property) < Rank(b.property) }

  ghost predicate TracksCanonical(tracks: seq<BehaviorTrack>) {
    forall i :: 0 <= i < |tracks| ==> KeysCanonical(tracks[i].keys)
  }

  datatype BehaviorState = BehaviorState(bindings: seq<Components>, events: seq<BehaviorEvent>,
                                         diagnostics: seq<MigrationError>)

  function RewriteAll(bindings: seq<Components>, property: BehaviorProperty, value: BehaviorValue): (r: seq<Components>)
    ensures |r| == |bindings|
  {
    seq(|bindings|, i requires 0 <= i < |bindings| => Rewritten(bindings[i], property, value))
  }

  /** One report for every bound object whose baseline cannot take the value. */
  function RewriteFailures(bindings: seq<Components>, property: BehaviorProperty,
                           value: BehaviorValue): seq<MigrationError> {
    if bindings == [] then []
    else
      var n := |bindings| - 1;
      var before := RewriteFailures(bindings[..n], property, value);
      if RewriteBaseline(bindings[n], property, value).Some? then before else before + [BaselineTargetInvalid]
  }

  lemma SortedKeysCanonical(keys: seq<BehaviorKey>)
    requires KeysCanonical(keys)
    ensures KeysCanonical(SortedKeys(keys))
  {
    Sorting.SameMultisetSameMembers(SortedKeys(keys), keys);
    forall i | 0 <= i < |SortedKeys(keys)| ensures Canonical(SortedKeys(keys)[i].beat) {
      assert SortedKeys(keys)[i] in SortedKeys(keys) && SortedKeys(keys)[i] in keys;
    }
  }

  /** One track on its own: its property, its sorted keys and their translation. */
  datatype Part = Part(property: BehaviorProperty, keys: seq<BehaviorKey>, migrated: Migrated)

  function PartOf(rot: Rotations, track: BehaviorTrack, limits: BeatLimits): Part
    requires KeysCanonical(track.keys)
  {
    SortedKeysCanonical(track.keys);
    Part(track.property, SortedKeys(track.keys), MigrateKeys(rot, track.property, SortedKeys(track.keys), limits))
  }

  function Parts(rot: Rotations, tracks: seq<BehaviorTrack>, limits: BeatLimits): (r: seq<Part>)
    requires TracksCanonical(tracks)
    ensures |r| == |tracks|
  {
    seq(|tracks|, i requires 0 <= i < |tracks| => PartOf(rot, tracks[i], limits))
  }

  /** Folds one track into the behaviour: baselines rewritten, events and reports appended. */
  function FoldPart(st: BehaviorState, part: Part): BehaviorState {
    if part.keys == [] then st
    else BehaviorState(RewriteAll(st.bindings, part.property, part.keys[0].value),
                       st.events + part.migrated.events,
                       st.diagnostics + (if st.bindings == [] && |part.keys| == 1 then [UnboundSingleKey] else [])
                       + RewriteFailures(st.bindings, part.property, part.keys[0].value) + part.migrated.diagnostics)
  }

  /** The state after all tracks, in the given order. */
  function FoldParts(parts: seq<Part>, bindings: seq<Components>): BehaviorState {
    if parts == [] then BehaviorState(bindings, [], [])
    else FoldPart(FoldParts(parts[..|parts| - 1], bindings), parts[|parts| - 1])
  }

  method AppendInterval(rot: Rotations, property: BehaviorProperty, left: BehaviorKey, right: BehaviorKey,
                        limits: BeatLimits, events: seq<BehaviorEvent>, diagnostics: seq<MigrationError>)
    returns (newEvents: seq<BehaviorEvent>, newDiagnostics: seq<MigrationError>)
    requires Canonical(left.beat) && Canonical(right.beat)
    ensures Migrated(newEvents, newDiagnostics)
         == Extend(Migrated(events, diagnostics), Interval(rot, property, left, right, limits))
  {
    newEvents, newDiagnostics := events, diagnostics;
    var duration := Subtract(right.beat, left.beat);
    if duration.Err? || duration.value.numerator <= 0 || !WithinBeatLimits(duration.value, limits) {
      newDiagnostics := diagnostics + [DurationOutOfRange];
      return;
    }
    var easing := if right.easing.Some? then right.easing.value else Linear;
    if easing != InOutCubic {
      var startSlope, endSlope := 1.0, 1.0;
      if easing == InCubic {
        startSlope, endSlope := 0.0, 3.0;
      } else if easing == OutCubic {
        startSlope, endSlope := 3.0, 0.0;
      }
      newEvents := events + [BehaviorEvent(property, left.beat, duration.value, left.value, right.value, startSlope,
                                           endSlope)];
      return;
    }
    var middle := Midpoint(left.beat, right.beat);
    if middle.Err? || !WithinBeatLimits(middle.value, limits) {
      newDiagnostics := diagnostics + [MigrationError.MidpointOutOfRange];
      return;
    }
    var first, second := Subtract(middle.value, left.beat), Subtract(right.beat, middle.value);
    var value := MidpointValue(rot, left.value, right.value);
    if first.Err? || second.Err? || value.None?
       || !WithinBeatLimits(first.value, limits) || !WithinBeatLimits(second.value, limits) {
      newDiagnostics := diagnostics + [MidpointInvalid];
      return;
    }
    newEvents := events + [BehaviorEvent(property, left.beat, first.value, left.value, value.value, 0.0, 3.0)];
    newEvents := newEvents + [BehaviorEvent(property, middle.value, second.value, value.value, right.value, 3.0, 0.0)];
  }

  method AppendIntervals(rot: Rotations, property: BehaviorProperty, keys: seq<BehaviorKey>, limits: BeatLimits,
                         events: seq<BehaviorEvent>, diagnostics: seq<MigrationError>)
    returns (newEvents: seq<BehaviorEvent>, newDiagnostics: seq<MigrationError>)
    requires keys != [] && KeysCanonical(keys)
    ensures newEvents == events + MigrateKeys(rot, property, keys, limits).events
    ensures newDiagnostics == diagnostics + MigrateKeys(rot, property, keys, limits).diagnostics
  {
    newEvents, newDiagnostics := events, diagnostics;
    ghost var start := Migrated(events, diagnostics);
    for k := 1 to |keys|
      invariant Migrated(newEvents, newDiagnostics) == Joined(start, MigrateKeys(rot, property, keys[..k], limits))
    {
      OneMoreKey(rot, property, keys, limits, k);
      JoinedExtends(start, MigrateKeys(rot, property, keys[..k], limits),
                    Interval(rot, property, keys[k - 1], keys[k], limits));
      newEvents, newDiagnostics := AppendInterval(rot, property, keys[k - 1], keys[k], limits, newEvents,
                                                  newDiagnostics);
    }
    assert keys[..|keys|] == keys;
  }

  ghost function Joined(a: Migrated, b: Migrated): Migrated {
    Migrated(a.events + b.events, a.diagnostics + b.diagnostics)
  }

  lemma JoinedExtends(a: Migrated, b: Migrated, interval: Result<seq<BehaviorEvent>, MigrationError>)
    ensures Extend(Joined(a, b), interval) == Joined(a, Extend(b, interval))
  {
  }

  lemma OneMoreKey(rot: Rotations, property: BehaviorProperty, keys: seq<BehaviorKey>, limits: BeatLimits, k: nat)
    requires 0 < k < |keys| && KeysCanonical(keys)
    ensures MigrateKeys(rot, property, keys[..k + 1], limits)
         == Extend(MigrateKeys(rot, property, keys[..k], limits), Interval(rot, property, keys[k - 1], keys[k], limits))
  {
    assert keys[..k + 1][..k] == keys[..k];
  }

  method MigrateTrack(rot: Rotations, track: BehaviorTrack, bindings: array<Components>, limits: BeatLimits,
                      events: seq<BehaviorEvent>, diagnostics: seq<MigrationError>)
    returns (newEvents: seq<BehaviorEvent>, newDiagnostics: seq<MigrationError>)
    requires KeysCanonical(track.keys)
    modifies bindings
    ensures BehaviorState(bindings[..], newEvents, newDiagnostics)
         == FoldPart(BehaviorState(old(bindings[..]), events, diagnostics), PartOf(rot, track, limits))
  {
    SortedKeysCanonical(track.keys);
    newEvents, newDiagnostics :=
      MigrateSortedTrack(rot, track.property, SortedKeys(track.keys), bindings, limits, events, diagnostics);
  }

  method MigrateSortedTrack(rot: Rotations, property: BehaviorProperty, keys: seq<BehaviorKey>,
                            bindings: array<Components>,
                            limits: BeatLimits, events: seq<BehaviorEvent>, diagnostics: seq<MigrationError>)
    returns (newEvents: seq<BehaviorEvent>, newDiagnostics: seq<MigrationError>)
    requires KeysCanonical(keys)
    modifies bindings
    ensures BehaviorState(bindings[..], newEvents, newDiagnostics)
         == FoldPart(BehaviorState(old(bindings[..]), events, diagnostics),
                     Part(property, keys, MigrateKeys(rot, property, keys, limits)))
  {
    newEvents, newDiagnostics := events, diagnostics;
    if keys == [] { return; }
    ghost var was, migrated := bindings[..], MigrateKeys(rot, property, keys, limits);
    if bindings.Length == 0 && |keys| == 1 {
      newDiagnostics := newDiagnostics + [UnboundSingleKey];
    }
    assert newDiagnostics == diagnostics + if was == [] && |keys| == 1 then [UnboundSingleKey] else [];
    newDiagnostics := RewriteBindings(bindings, property, keys[0].value, newDiagnostics);
    newEvents, newDiagnostics := AppendIntervals(rot, property, keys, limits, newEvents, newDiagnostics);
    FoldPartIs(BehaviorState(was, events, diagnostics), Part(property, keys, migrated));
  }

  lemma FoldPartIs(st: BehaviorState, part: Part)
    requires part.keys != []
    ensures FoldPart(st, part).bindings == RewriteAll(st.bindings, part.property, part.keys[0].value)
    ensures FoldPart(st, part).events == st.events + part.migrated.events
    ensures FoldPart(st, part).diagnostics
         == st.diagnostics + (if st.bindings == [] && |part.keys| == 1 then [UnboundSingleKey] else [])
            + RewriteFailures(st.bindings, part.property, part.keys[0].value) + part.migrated.diagnostics
  {
  }

  method RewriteBindings(bindings: array<Components>, property: BehaviorProperty, value: BehaviorValue,
                         diagnostics: seq<MigrationError>)
    returns (newDiagnostics: seq<MigrationError>)
    modifies bindings
    ensures bindings[..] == RewriteAll(old(bindings[..]), property, value)
    ensures newDiagnostics == diagnostics + RewriteFailures(old(bindings[..]), property, value)
  {
    newDiagnostics := diagnostics;
    ghost var was := bindings[..];
    for i := 0 to bindings.Length
      invariant forall k :: 0 <= k < i ==> bindings[k] == Rewritten(was[k], property, value)
      invariant forall k :: i <= k < bindings.Length ==> bindings[k] == was[k]
      invariant newDiagnostics == diagnostics + RewriteFailures(was[..i], property, value)
    {
      assert was[..i + 1][..i] == was[..i] && bindings[i] == was[i];
      var r := RewriteBaseline(bindings[i], property, value);
      if r.None? {
        newDiagnostics := newDiagnostics + [BaselineTargetInvalid];
      } else {
        bindings[i] := r.value;
      }
    }
    assert was[..|was|] == was;
  }

  method MigrateBehavior(rot: Rotations, tracks: seq<BehaviorTrack>, bindings: array<Components>, limits: BeatLimits)
    returns (events: seq<BehaviorEvent>, diagnostics: seq<MigrationError>)
    requires TracksCanonical(tracks)
    modifies bindings
    ensures TracksCanonical(Sorting.Sort(TrackBefore, tracks))
    ensures BehaviorState(bindings[..], events, diagnostics)
         == FoldParts(Parts(rot, Sorting.Sort(TrackBefore, tracks), limits), old(bindings[..]))
  {
    SortKeepsTracks(tracks);
    events, diagnostics := MigrateSortedTracks(rot, Sorting.Sort(TrackBefore, tracks), bindings, limits);
  }

  method MigrateSortedTracks(rot: Rotations, sorted: seq<BehaviorTrack>, bindings: array<Components>,
                             limits: BeatLimits)
    returns (events: seq<BehaviorEvent>, diagnostics: seq<MigrationError>)
    requires TracksCanonical(sorted)
    modifies bindings
    ensures BehaviorState(bindings[..], events, diagnostics) == FoldParts(Parts(rot, sorted, limits), old(bindings[..]))
  {
    ghost var parts := Parts(rot, sorted, limits);
    events, diagnostics := [], [];
    for i := 0 to |sorted|
      invariant BehaviorState(bindings[..], events, diagnostics) == FoldParts(parts[..i], old(bindings[..]))
    {
      assert parts[..i + 1][..i] == parts[..i];
      events, diagnostics := MigrateTrack(rot, sorted[i], bindings, limits, events, diagnostics);
    }
    assert parts[..|parts|] == parts;
  }

  lemma SortKeepsTracks(tracks: seq<BehaviorTrack>)
    requires TracksCanonical(tracks)
    ensures TracksCanonical(Sorting.Sort(TrackBefore, tracks))
  {
    var sorted := Sorting.Sort(TrackBefore, tracks);
    Sorting.SameMultisetSameMembers(sorted, tracks);
    forall i | 0 <= i < |sorted| ensures KeysCanonical(sorted[i].keys) {
      assert sorted[i] in sorted && sorted[i] in tracks;
    }
  }

  // ---------------------------------------------------------------- the compiler splits the events again

  /** The events of one property, in their order; the compiler groups them this way. */
  function OnlyProperty(events: seq<BehaviorEvent>, property: BehaviorProperty): seq<BehaviorEvent> {
    if events == [] then []
    else
      var n := |events| - 1;
      var before := OnlyProperty(events[..n], property);
      if events[n].property == property then before + [events[n]] else before
  }

  lemma {:induction false} OnlyPropertyAppends(a: seq<BehaviorEvent>, b: seq<BehaviorEvent>, property: BehaviorProperty)
    ensures OnlyProperty(a + b, property) == OnlyProperty(a, property) + OnlyProperty(b, property)
    decreases |b|
  {
    if b == [] {
      assert a + b == a;
    } else {
      var n := |b| - 1;
      assert (a + b)[..|a + b| - 1] == a + b[..n];
      OnlyPropertyAppends(a, b[..n], property);
    }
  }

  lemma {:induction false} OnlyPropertyOfOne(events: seq<BehaviorEvent>, property: BehaviorProperty,
                                             wanted: BehaviorProperty)
    requires forall i :: 0 <= i < |events| ==> events[i].property == property
    ensures OnlyProperty(events, wanted) == if property == wanted then events else []
    decreases |events|
  {
    if events != [] {
      OnlyPropertyOfOne(events[..|events| - 1], property, wanted);
      assert events == events[..|events| - 1] + [events[|events| - 1]];
    }
  }

  lemma {:induction false} MigratedProperty(rot: Rotations, property: BehaviorProperty, keys: seq<BehaviorKey>,
                                            limits: BeatLimits)
    requires KeysCanonical(keys)
    ensures forall e :: e in MigrateKeys(rot, property, keys, limits).events ==> e.property == property
    decreases |keys|
  {
    if |keys| > 1 { MigratedProperty(rot, property, keys[..|keys| - 1], limits); }
  }

  ghost predicate DistinctProperties(parts: seq<Part>) {
    forall i, j :: 0 <= i < j < |parts| ==> parts[i].property != parts[j].property
  }

  /** A part without keys has no events, and all events of a part are of its property. */
  ghost predicate PartsCoherent(parts: seq<Part>) {
    forall i :: 0 <= i < |parts| ==>
      (parts[i].keys == [] ==> parts[i].migrated == Migrated([], []))
      && (forall e :: 0 <= e < |parts[i].migrated.events| ==> parts[i].migrated.events[e].property == parts[i].property)
  }

  lemma PartsAreCoherent(rot: Rotations, tracks: seq<BehaviorTrack>, limits: BeatLimits)
    requires TracksCanonical(tracks)
    ensures PartsCoherent(Parts(rot, tracks, limits))
  {
    forall i | 0 <= i < |tracks|
      ensures var part := Parts(rot, tracks, limits)[i];
        && (part.keys == [] ==> part.migrated == Migrated([], []))
        && (forall e :: 0 <= e < |part.migrated.events| ==> part.migrated.events[e].property == part.property)
    {
      SortedKeysCanonical(tracks[i].keys);
      MigratedProperty(rot, tracks[i].property, SortedKeys(tracks[i].keys), limits);
    }
  }

  lemma LastPartEvents(parts: seq<Part>, bindings: seq<Components>, property: BehaviorProperty)
    requires parts != [] && PartsCoherent(parts)
    ensures OnlyProperty(FoldParts(parts, bindings).events, property)
         == OnlyProperty(FoldParts(parts[..|parts| - 1], bindings).events, property)
          + if parts[|parts| - 1].property == property then parts[|parts| - 1].migrated.events else []
  {
    var last := parts[|parts| - 1];
    OnlyPropertyOfOne(last.migrated.events, last.property, property);
    OnlyPropertyAppends(FoldParts(parts[..|parts| - 1], bindings).events, last.migrated.events, property);
  }

  /** A property without a track has no events in the migrated behaviour. */
  lemma {:induction false} NoTrackNoEvents(parts: seq<Part>, bindings: seq<Components>, property: BehaviorProperty)
    requires PartsCoherent(parts) && forall i :: 0 <= i < |parts| ==> parts[i].property != property
    ensures OnlyProperty(FoldParts(parts, bindings).events, property) == []
    decreases |parts|
  {
    if parts != [] {
      NoTrackNoEvents(parts[..|parts| - 1], bindings, property);
      LastPartEvents(parts, bindings, property);
    }
  }

  /** Of the events of a whole behaviour, those of one track's property are exactly that track's translation. */
  lemma {:induction false} TrackEventsSurvive(parts: seq<Part>, bindings: seq<Components>, i: nat)
    requires PartsCoherent(parts) && DistinctProperties(parts) && i < |parts|
    ensures OnlyProperty(FoldParts(parts, bindings).events, parts[i].property) == parts[i].migrated.events
    decreases |parts|
  {
    LastPartEvents(parts, bindings, parts[i].property);
    if i < |parts| - 1 {
      TrackEventsSurvive(parts[..|parts| - 1], bindings, i);
    } else {
      NoTrackNoEvents(parts[..|parts| - 1], bindings, parts[i].property);
    }
  }

  // ---------------------------------------------------------------- no reports anywhere

  lemma {:induction false} NoReportPerTrack(parts: seq<Part>, bindings: seq<Components>, i: nat)
    requires PartsCoherent(parts) && i < |parts| && FoldParts(parts, bindings).diagnostics == []
    ensures parts[i].migrated.diagnostics == []
    decreases |parts|
  {
    if i < |parts| - 1 { NoReportPerTrack(parts[..|parts| - 1], bindings, i); }
  }

  lemma {:induction false} NoFailureMeansRewritten(bindings: seq<Components>, property: BehaviorProperty,
                                                   value: BehaviorValue, b: nat)
    requires b < |bindings| && RewriteFailures(bindings, property, value) == []
    ensures RewriteBaseline(bindings[b], property, value).Some?
    decreases |bindings|
  {
    if b < |bindings| - 1 { NoFailureMeansRewritten(bindings[..|bindings| - 1], property, value, b); }
  }

  lemma {:induction false} BindingsKeepTheirNumber(parts: seq<Part>, bindings: seq<Components>)
    ensures |FoldParts(parts, bindings).bindings| == |bindings|
    decreases |parts|
  {
    if parts != [] { BindingsKeepTheirNumber(parts[..|parts| - 1], bindings); }
  }

  /** Every bound object ends with each track's first key as that property's baseline, and keeps every other. */
  lemma {:induction false} BaselinesAreFirstKeys(parts: seq<Part>, bindings: seq<Components>,
                                                 property: BehaviorProperty, b: nat)
    requires DistinctProperties(parts) && b < |bindings| && FoldParts(parts, bindings).diagnostics == []
    ensures |FoldParts(parts, bindings).bindings| == |bindings|
    ensures var after := FoldParts(parts, bindings).bindings[b];
      && ((forall i :: 0 <= i < |parts| && parts[i].keys != [] ==> parts[i].property != property) ==>
            BaselineFor(after, property) == BaselineFor(bindings[b], property))
      && (forall i :: 0 <= i < |parts| && parts[i].keys != [] && parts[i].property == property ==>
            BaselineFor(after, property) == Some(parts[i].keys[0].value))
    decreases |parts|
  {
    BindingsKeepTheirNumber(parts, bindings);
    if parts != [] {
      var n := |parts| - 1;
      var earlier := parts[..n];
      assert forall i :: 0 <= i < n ==> earlier[i] == parts[i];
      var before := FoldParts(earlier, bindings);
      BaselinesAreFirstKeys(earlier, bindings, property, b);
      if parts[n].keys != [] { LastPartRewrites(before, parts[n], property, b); }
    }
  }

  lemma LastPartRewrites(st: BehaviorState, part: Part, property: BehaviorProperty, b: nat)
    requires part.keys != [] && b < |st.bindings| && FoldPart(st, part).diagnostics == []
    ensures BaselineFor(FoldPart(st, part).bindings[b], property)
         == if property == part.property then Some(part.keys[0].value) else BaselineFor(st.bindings[b], property)
  {
    NoFailureMeansRewritten(st.bindings, part.property, part.keys[0].value, b);
    RewriteSetsBaseline(st.bindings[b], part.property, part.keys[0].value, property);
  }

  // ---------------------------------------------------------------- sorting

  lemma KeysAreOrdered(keys: seq<BehaviorKey>)
    requires KeysCanonical(keys) && DistinctBeats(keys)
    ensures Sorting.TotalOn(KeyBefore, keys) && Sorting.Distinct(keys)
  {
    forall x | x in keys ensures !KeyBefore(x, x) { BeforeIsOrder(x.beat, x.beat); }
    forall x, y | x in keys && y in keys && x != y ensures KeyBefore(x, y) || KeyBefore(y, x) {
      BeforeIsOrder(x.beat, y.beat);
      BeforeIsOrder(y.beat, x.beat);
      if Value(x.beat) == Value(y.beat) { CanonicalIsUnique(x.beat, y.beat); }
    }
    forall x, y, z | x in keys && y in keys && z in keys && KeyBefore(x, y) && KeyBefore(y, z) ensures KeyBefore(x, z) {
      BeforeIsOrder(x.beat, y.beat);
      BeforeIsOrder(y.beat, z.beat);
      BeforeIsOrder(x.beat, z.beat);
    }
  }

  /** Sorting accepted keys gives accepted keys in strict beat order. */
  lemma SortedKeysAccepted(rot: Rotations, property: BehaviorProperty, keys: seq<BehaviorKey>)
    requires KeysAccepted(rot, property, keys) && DistinctBeats(keys)
    ensures var sorted := SortedKeys(keys); KeysAccepted(rot, property, sorted) && StrictlySorted(sorted)
    ensures MigrationMeaning.RotationsSuffice(rot, property, keys) ==>
      MigrationMeaning.RotationsSuffice(rot, property, SortedKeys(keys))
  {
    var sorted := SortedKeys(keys);
    Sorting.SameMultisetSameMembers(sorted, keys);
    SortedKeysCanonical(keys);
    forall i | 0 <= i < |sorted| ensures ValueMatchesProperty(rot, property, sorted[i].value) {
      assert sorted[i] in sorted && sorted[i] in keys;
    }
    KeysAreOrdered(keys);
    Sorting.SortAscends(KeyBefore, keys);
    forall i, j | 0 <= i < j < |sorted| ensures Value(sorted[i].beat) < Value(sorted[j].beat) {
      assert KeyBefore(sorted[i], sorted[j]);
      BeforeIsOrder(sorted[i].beat, sorted[j].beat);
    }
    forall i | 0 <= i < |sorted| && EasingOf(sorted[i]) == InOutCubic
      ensures exists k :: 0 <= k < |keys| && EasingOf(keys[k]) == InOutCubic
    {
      assert sorted[i] in sorted && sorted[i] in keys;
    }
  }

  ghost predicate StartsFrom(events: seq<BehaviorEvent>, low: RationalBeat, high: RationalBeat)
    requires EventsCanonical(events) && low.denominator > 0 && high.denominator > 0
  {
    && (forall i :: 0 <= i < |events| ==> Value(low) <= Value(events[i].startBeat) < Value(high))
    && (forall i, j :: 0 <= i < j < |events| ==> Value(events[i].startBeat) < Value(events[j].startBeat))
  }

  lemma IntervalStarts(rot: Rotations, property: BehaviorProperty, left: BehaviorKey, right: BehaviorKey,
                       limits: BeatLimits)
    requires Canonical(left.beat) && Canonical(right.beat) && Value(left.beat) < Value(right.beat)
    requires Interval(rot, property, left, right, limits).Ok?
    ensures var es := Interval(rot, property, left, right, limits).value;
      EventsCanonical(es) && StartsFrom(es, left.beat, right.beat)
  {
    if EasingOf(right) == InOutCubic { SplitStarts(rot, property, left, right, limits); }
  }

  lemma SplitStarts(rot: Rotations, property: BehaviorProperty, left: BehaviorKey, right: BehaviorKey,
                    limits: BeatLimits)
    requires Canonical(left.beat) && Canonical(right.beat) && Value(left.beat) < Value(right.beat)
    requires SplitInterval(rot, property, left, right, limits).Ok?
    ensures var es := SplitInterval(rot, property, left, right, limits).value;
      EventsCanonical(es) && StartsFrom(es, left.beat, right.beat)
  {
    var middle := Midpoint(left.beat, right.beat).value;
    assert Value(left.beat) < Value(middle) < Value(right.beat);
  }

  lemma {:induction false} TranslationStarts(rot: Rotations, property: BehaviorProperty, keys: seq<BehaviorKey>,
                                             limits: BeatLimits)
    requires keys != [] && KeysCanonical(keys) && StrictlySorted(keys)
    requires MigrateKeys(rot, property, keys, limits).diagnostics == []
    ensures var es := MigrateKeys(rot, property, keys, limits).events;
      EventsCanonical(es) && StartsFrom(es, keys[0].beat, keys[|keys| - 1].beat)
    decreases |keys|
  {
    if |keys| > 1 {
      TranslationUnfolds(rot, property, keys, limits);
      TranslationStarts(rot, property, keys[..|keys| - 1], limits);
      NextStarts(rot, property, keys, limits, MigrateKeys(rot, property, keys[..|keys| - 1], limits).events);
    }
  }

  lemma NextStarts(rot: Rotations, property: BehaviorProperty, keys: seq<BehaviorKey>, limits: BeatLimits,
                   before: seq<BehaviorEvent>)
    requires |keys| > 1 && KeysCanonical(keys) && StrictlySorted(keys)
    requires Interval(rot, property, keys[|keys| - 2], keys[|keys| - 1], limits).Ok?
    requires EventsCanonical(before) && StartsFrom(before, keys[0].beat, keys[|keys| - 2].beat)
    ensures var es := before + Interval(rot, property, keys[|keys| - 2], keys[|keys| - 1], limits).value;
      EventsCanonical(es) && StartsFrom(es, keys[0].beat, keys[|keys| - 1].beat)
  {
    var first, left, right := keys[0], keys[|keys| - 2], keys[|keys| - 1];
    assert Value(left.beat) < Value(right.beat) && Value(first.beat) <= Value(left.beat);
    IntervalStarts(rot, property, left, right, limits);
    JoinStarts(before, Interval(rot, property, left, right, limits).value, first.beat, left.beat, right.beat);
  }

  lemma JoinStarts(a: seq<BehaviorEvent>, b: seq<BehaviorEvent>, low: RationalBeat, mid: RationalBeat,
                   high: RationalBeat)
    requires EventsCanonical(a) && EventsCanonical(b)
    requires low.denominator > 0 && mid.denominator > 0 && high.denominator > 0
    requires Value(low) <= Value(mid) < Value(high)
    requires StartsFrom(a, low, mid) && StartsFrom(b, mid, high)
    ensures EventsCanonical(a + b) && StartsFrom(a + b, low, high)
  {
  }

  /** The compiler's own sort finds the translated events already in order. */
  lemma AlreadySorted(events: seq<BehaviorEvent>, low: RationalBeat, high: RationalBeat)
    requires EventsCanonical(events) && low.denominator > 0 && high.denominator > 0 && StartsFrom(events, low, high)
    ensures Sorting.Sort(EventBefore, events) == events
  {
    forall x | x in events ensures !EventBefore(x, x) { BeforeIsOrder(x.startBeat, x.startBeat); }
    forall i, j | 0 <= i < j < |events| ensures EventBefore(events[i], events[j]) {
      BeforeIsOrder(events[i].startBeat, events[j].startBeat);
    }
    forall x, y, z | x in events && y in events && z in events && EventBefore(x, y) && EventBefore(y, z)
      ensures EventBefore(x, z)
    {
      BeforeIsOrder(x.startBeat, y.startBeat);
      BeforeIsOrder(y.startBeat, z.startBeat);
      BeforeIsOrder(x.startBeat, z.startBeat);
    }
    Sorting.SortKeepsAscending(EventBefore, events);
  }

  // ---------------------------------------------------------------- meaning of a whole behaviour

  /** What the compiler made sure of for every track of the source chart, and what the quaternions owe it. */
  ghost predicate TrackAccepted(rot: Rotations, track: BehaviorTrack) {
    && KeysAccepted(rot, track.property, track.keys) && DistinctBeats(track.keys)
    && MigrationMeaning.RotationsSuffice(rot, track.property, track.keys)
  }

  ghost predicate TracksAccepted(rot: Rotations, tracks: seq<BehaviorTrack>) {
    && (forall i :: 0 <= i < |tracks| ==> TrackAccepted(rot, tracks[i]))
    && (forall i, j :: 0 <= i < j < |tracks| ==> tracks[i].property != tracks[j].property)
  }

  /** One track: its translation compiles cleanly and means what its keys mean. */
  lemma TrackKeepsMeaning(rot: Rotations, track: BehaviorTrack, limits: BeatLimits, msPerBeat: real, beat: real)
    requires TrackAccepted(rot, track) && track.keys != [] && msPerBeat > 0.0
    requires PartOf(rot, track, limits).migrated.diagnostics == []
    ensures SameMeaning(rot, track, PartOf(rot, track, limits).migrated.events, msPerBeat, beat)
  {
    SortedKeysAccepted(rot, track.property, track.keys);
    var keys := SortedKeys(track.keys);
    var events := MigrateKeys(rot, track.property, keys, limits).events;
    TranslationStarts(rot, track.property, keys, limits);
    AlreadySorted(events, keys[0].beat, keys[|keys| - 1].beat);
    MigrationMeaning.MigrationPreservesMeaning(rot, track.property, keys, limits, msPerBeat, beat);
  }

  /** These events of one property, compiled and sampled over the track's first key, give what its keys give. */
  ghost predicate SameMeaning(rot: Rotations, track: BehaviorTrack, events: seq<BehaviorEvent>, msPerBeat: real,
                              beat: real)
    requires KeysCanonical(track.keys) && track.keys != []
  {
    && KeysCanonical(SortedKeys(track.keys))
    && EventsCanonical(Sorting.Sort(EventBefore, events))
    && var compiled := CompileEvents(rot, track.property, Sorting.Sort(EventBefore, events));
    && compiled.errors == []
    && SampleEvents(rot, compiled.events, beat, SortedKeys(track.keys)[0].value)
       == Sample(rot, CompileKeys(SortedKeys(track.keys), msPerBeat), beat * msPerBeat)
  }

  lemma SortedTracksAccepted(rot: Rotations, tracks: seq<BehaviorTrack>)
    requires TracksAccepted(rot, tracks)
    ensures TracksCanonical(tracks) && TracksAccepted(rot, Sorting.Sort(TrackBefore, tracks))
    ensures TracksCanonical(Sorting.Sort(TrackBefore, tracks))
    ensures forall track :: track in tracks ==> track in Sorting.Sort(TrackBefore, tracks)
  {
    var sorted := Sorting.Sort(TrackBefore, tracks);
    Sorting.SameMultisetSameMembers(sorted, tracks);
    forall i | 0 <= i < |sorted| ensures TrackAccepted(rot, sorted[i]) {
      assert sorted[i] in sorted && sorted[i] in tracks;
    }
    Sorting.DistinctFollowsMultiset(tracks, sorted);
    forall i, j | 0 <= i < j < |sorted| ensures sorted[i].property != sorted[j].property {
      assert sorted[i] in sorted && sorted[j] in sorted && sorted[i] in tracks && sorted[j] in tracks;
    }
  }

  lemma DistinctParts(rot: Rotations, tracks: seq<BehaviorTrack>, limits: BeatLimits)
    requires TracksCanonical(tracks) && TracksAccepted(rot, tracks)
    ensures DistinctProperties(Parts(rot, tracks, limits))
  {
  }

  /** The whole behaviour, whatever the order of its tracks and keys: when the migrator reports nothing, the
      events it gathered, split by property, give every track's values at every time over the rewritten
      baseline of every bound object. */
  lemma BehaviorKeepsMeaning(rot: Rotations, tracks: seq<BehaviorTrack>, bindings: seq<Components>, limits: BeatLimits,
                             track: BehaviorTrack, b: nat, msPerBeat: real, beat: real)
    requires TracksAccepted(rot, tracks) && track in tracks && track.keys != [] && b < |bindings| && msPerBeat > 0.0
    requires TracksCanonical(Sorting.Sort(TrackBefore, tracks))
    requires FoldParts(Parts(rot, Sorting.Sort(TrackBefore, tracks), limits), bindings).diagnostics == []
    ensures var st := FoldParts(Parts(rot, Sorting.Sort(TrackBefore, tracks), limits), bindings);
      && |st.bindings| == |bindings|
      && BaselineFor(st.bindings[b], track.property) == Some(SortedKeys(track.keys)[0].value)
      && SameMeaning(rot, track, OnlyProperty(st.events, track.property), msPerBeat, beat)
  {
    SortedTracksAccepted(rot, tracks);
    var sorted := Sorting.Sort(TrackBefore, tracks);
    var i :| 0 <= i < |sorted| && sorted[i] == track;
    var parts := Parts(rot, sorted, limits);
    DistinctParts(rot, sorted, limits);
    PartsAreCoherent(rot, sorted, limits);
    NoReportPerTrack(parts, bindings, i);
    TrackEventsSurvive(parts, bindings, i);
    BaselinesAreFirstKeys(parts, bindings, track.property, b);
    assert parts[i] == PartOf(rot, track, limits);
    TrackKeepsMeaning(rot, track, limits, msPerBeat, beat);
  }

  /** A property no track animates keeps its baseline and gets no events. */
  lemma OtherPropertiesUntouched(rot: Rotations, tracks: seq<BehaviorTrack>, bindings: seq<Components>,
                                 limits: BeatLimits, property: BehaviorProperty, b: nat)
    requires TracksAccepted(rot, tracks) && b < |bindings|
    requires forall i :: 0 <= i < |tracks| ==> tracks[i].property != property
    requires TracksCanonical(Sorting.Sort(TrackBefore, tracks))
    requires FoldParts(Parts(rot, Sorting.Sort(TrackBefore, tracks), limits), bindings).diagnostics == []
    ensures var st := FoldParts(Parts(rot, Sorting.Sort(TrackBefore, tracks), limits), bindings);
      && |st.bindings| == |bindings|
      && BaselineFor(st.bindings[b], property) == BaselineFor(bindings[b], property)
      && OnlyProperty(st.events, property) == []
  {
    SortedTracksAccepted(rot, tracks);
    var sorted := Sorting.Sort(TrackBefore, tracks);
    Sorting.SameMultisetSameMembers(sorted, tracks);
    forall i | 0 <= i < |sorted| ensures sorted[i].property != property {
      assert sorted[i] in sorted && sorted[i] in tracks;
    }
    var parts := Parts(rot, sorted, limits);
    DistinctParts(rot, sorted, limits);
    PartsAreCoherent(rot, sorted, limits);
    NoTrackNoEvents(parts, bindings, property);
    BaselinesAreFirstKeys(parts, bindings, property, b);
  }
}
