/**
 When a behaviour migrates without a report: exactly when every interval of its tracks can be written in beats, every
 bound object can hold the baselines, and no track of a single key is unbound.
 */
module MigrationSuccess {
  import opened Wrappers
  import opened RationalBeats
  import opened BeatRanges
  import opened BehaviorSampling
  import opened BehaviorCompiler
  import opened ChartMigration
  import opened BehaviorMigration
  import Sorting

  // ---------------------------------------------------------------- one interval

  /** Some beat denotes this number within the limits. */
  ghost predicate BeatWithin(x: real, limits: BeatLimits) {
    exists b: RationalBeat :: Canonical(b) && Value(b) == x
      && Magnitude(b.numerator) <= limits.maxNumerator && b.denominator <= limits.maxDenominator
  }

  ghost predicate DurationFits(left: RationalBeat, right: RationalBeat, limits: BeatLimits)
    requires left.denominator > 0 && right.denominator > 0
  {
    DifferenceFits(right, left) && BeatWithin(Value(right) - Value(left), limits)
  }

  ghost predicate MiddleInRange(left: RationalBeat, right: RationalBeat, limits: BeatLimits)
    requires left.denominator > 0 && right.denominator > 0
  {
    MiddleFits(left, right) && BeatWithin((Value(left) + Value(right)) * 0.5, limits)
  }

  /** From the middle both halves are durations in range. */
  ghost predicate HalvesFit(left: RationalBeat, right: RationalBeat, limits: BeatLimits)
    requires left.denominator > 0 && right.denominator > 0
  {
    exists middle: RationalBeat :: Canonical(middle) && 2.0 * Value(middle) == Value(left) + Value(right)
      && DurationFits(left, middle, limits) && DurationFits(middle, right, limits)
  }

  /** Numbers and vectors always have a middle; of rotations the turn must have one. */
  predicate HasMiddleValue(rot: Rotations, left: BehaviorValue, right: BehaviorValue) {
    left.Rotation? && right.Rotation? ==> rot.midpoint(left.quat, right.quat).Some?
  }

  ghost predicate SplitFits(rot: Rotations, left: BehaviorKey, right: BehaviorKey, limits: BeatLimits)
    requires Canonical(left.beat) && Canonical(right.beat)
  {
    && MiddleInRange(left.beat, right.beat, limits) && HalvesFit(left.beat, right.beat, limits)
    && HasMiddleValue(rot, left.value, right.value)
  }

  ghost predicate IntervalFits(rot: Rotations, left: BehaviorKey, right: BehaviorKey, limits: BeatLimits)
    requires Canonical(left.beat) && Canonical(right.beat)
  {
    && DurationFits(left.beat, right.beat, limits)
    && (right.easing == Some(InOutCubic) ==> SplitFits(rot, left, right, limits))
  }

  lemma WithinIsDenoted(b: RationalBeat, limits: BeatLimits)
    requires Canonical(b)
    ensures WithinBeatLimits(b, limits) <==> BeatWithin(Value(b), limits)
  {
    if BeatWithin(Value(b), limits) {
      var c: RationalBeat :| Canonical(c) && Value(c) == Value(b) && WithinBeatLimits(c, limits);
      CanonicalIsUnique(b, c);
    }
  }

  lemma DurationSucceedsExactly(left: RationalBeat, right: RationalBeat, limits: BeatLimits)
    requires Canonical(left) && Canonical(right)
    ensures Subtract(right, left).Ok? && WithinBeatLimits(Subtract(right, left).value, limits) <==>
      DurationFits(left, right, limits)
  {
    SubtractSucceedsExactly(right, left);
    if Subtract(right, left).Ok? { WithinIsDenoted(Subtract(right, left).value, limits); }
  }

  lemma MiddleSucceedsExactly(left: RationalBeat, right: RationalBeat, limits: BeatLimits)
    requires Canonical(left) && Canonical(right)
    ensures Midpoint(left, right).Ok? && WithinBeatLimits(Midpoint(left, right).value, limits) <==>
      MiddleInRange(left, right, limits)
  {
    MidpointSucceedsExactly(left, right);
    if Midpoint(left, right).Ok? { WithinIsDenoted(Midpoint(left, right).value, limits); }
  }

  lemma HalvesSucceedExactly(left: RationalBeat, right: RationalBeat, limits: BeatLimits)
    requires Canonical(left) && Canonical(right) && Midpoint(left, right).Ok?
    ensures var middle := Midpoint(left, right).value;
      DurationFits(left, middle, limits) && DurationFits(middle, right, limits) <==> HalvesFit(left, right, limits)
  {
    if HalvesFit(left, right, limits) {
      var middle: RationalBeat :| Canonical(middle) && 2.0 * Value(middle) == Value(left) + Value(right)
                                  && DurationFits(left, middle, limits) && DurationFits(middle, right, limits);
      CanonicalIsUnique(middle, Midpoint(left, right).value);
    }
  }

  lemma SplitSucceedsExactly(rot: Rotations, property: BehaviorProperty, left: BehaviorKey, right: BehaviorKey,
                             limits: BeatLimits)
    requires Canonical(left.beat) && Canonical(right.beat)
    requires ValueMatchesProperty(rot, property, left.value) && ValueMatchesProperty(rot, property, right.value)
    ensures var r := SplitInterval(rot, property, left, right, limits);
      && (r == Err(MigrationError.MidpointOutOfRange) <==> !MiddleInRange(left.beat, right.beat, limits))
      && (r.Ok? <==> SplitFits(rot, left, right, limits))
      && (r.Err? ==> r.error == MigrationError.MidpointOutOfRange || r.error == MidpointInvalid)
  {
    MiddleSucceedsExactly(left.beat, right.beat, limits);
    var middle := Midpoint(left.beat, right.beat);
    if middle.Ok? {
      DurationSucceedsExactly(left.beat, middle.value, limits);
      DurationSucceedsExactly(middle.value, right.beat, limits);
      HalvesSucceedExactly(left.beat, right.beat, limits);
    }
  }

  /** One interval of accepted keys translates exactly when its duration, and under in_out_cubic its middle and both
      halves, are beats in range, and a turn has a middle; each report has its one reason. */
  lemma IntervalSucceedsExactly(rot: Rotations, property: BehaviorProperty, left: BehaviorKey, right: BehaviorKey,
                                limits: BeatLimits)
    requires Canonical(left.beat) && Canonical(right.beat) && Value(left.beat) < Value(right.beat)
    requires ValueMatchesProperty(rot, property, left.value) && ValueMatchesProperty(rot, property, right.value)
    ensures var r := Interval(rot, property, left, right, limits);
      var fits := DurationFits(left.beat, right.beat, limits);
      var middle := MiddleInRange(left.beat, right.beat, limits);
      && (r.Ok? <==> IntervalFits(rot, left, right, limits))
      && (r == Err(DurationOutOfRange) <==> !fits)
      && (r == Err(MigrationError.MidpointOutOfRange) <==> fits && right.easing == Some(InOutCubic) && !middle)
      && (r == Err(MidpointInvalid) <==>
            fits && right.easing == Some(InOutCubic) && middle && !SplitFits(rot, left, right, limits))
  {
    DurationSucceedsExactly(left.beat, right.beat, limits);
    SplitSucceedsExactly(rot, property, left, right, limits);
    if Subtract(right.beat, left.beat).Ok? {
      DurationIsPositive(right.beat, left.beat, Subtract(right.beat, left.beat).value);
    }
  }

  // ---------------------------------------------------------------- one track

  ghost predicate AllIntervalsFit(rot: Rotations, keys: seq<BehaviorKey>, limits: BeatLimits)
    requires KeysCanonical(keys)
  {
    forall i, j :: 0 <= i && j == i + 1 && j < |keys| ==> IntervalFits(rot, keys[i], keys[j], limits)
  }

  /** Sorted keys translate without a report exactly when every interval does. */
  lemma {:induction false} KeysMigrateExactly(rot: Rotations, property: BehaviorProperty, keys: seq<BehaviorKey>,
                                              limits: BeatLimits)
    requires KeysAccepted(rot, property, keys) && StrictlySorted(keys)
    ensures MigrateKeys(rot, property, keys, limits).diagnostics == [] <==> AllIntervalsFit(rot, keys, limits)
    decreases |keys|
  {
    if |keys| > 1 {
      var n := |keys| - 1;
      PrefixAccepted(rot, property, keys, n);
      KeysMigrateExactly(rot, property, keys[..n], limits);
      LastInterval(rot, property, keys);
      IntervalSucceedsExactly(rot, property, keys[n - 1], keys[n], limits);
      LastFits(rot, keys, limits);
    }
  }

  lemma LastFits(rot: Rotations, keys: seq<BehaviorKey>, limits: BeatLimits)
    requires |keys| > 1 && KeysCanonical(keys) && KeysCanonical(keys[..|keys| - 1])
    ensures AllIntervalsFit(rot, keys, limits) <==>
      AllIntervalsFit(rot, keys[..|keys| - 1], limits) && IntervalFits(rot, keys[|keys| - 2], keys[|keys| - 1], limits)
  {
    var n := |keys| - 1;
    var before := keys[..n];
    if AllIntervalsFit(rot, keys, limits) {
      forall i, j | 0 <= i && j == i + 1 && j < n ensures IntervalFits(rot, before[i], before[j], limits) {
        assert IntervalFits(rot, keys[i], keys[j], limits);
      }
    }
    if AllIntervalsFit(rot, before, limits) && IntervalFits(rot, keys[n - 1], keys[n], limits) {
      forall i, j | 0 <= i && j == i + 1 && j < |keys| ensures IntervalFits(rot, keys[i], keys[j], limits) {
        if j < n { assert IntervalFits(rot, before[i], before[j], limits); }
      }
    }
  }

  // ---------------------------------------------------------------- the whole behaviour

  /** An object stores a baseline for the property; materials store none. */
  predicate CanHold(c: Components, property: BehaviorProperty) {
    match property
    case TransformPositionX => c.transform.Some?
    case TransformPositionY => c.transform.Some?
    case TransformPositionZ => c.transform.Some?
    case TransformRotation => c.transform.Some?
    case TransformScale => c.transform.Some?
    case CameraFovY => c.fovY.Some?
    case MaterialOpacity => false
    case MaterialTint => false
  }

  lemma RewritesWhereHeld(rot: Rotations, c: Components, property: BehaviorProperty, value: BehaviorValue,
                          other: BehaviorProperty)
    requires ValueMatchesProperty(rot, property, value)
    ensures RewriteBaseline(c, property, value).Some? <==> CanHold(c, property)
    ensures CanHold(Rewritten(c, property, value), other) <==> CanHold(c, other)
  {
  }

  ghost predicate AllHold(bindings: seq<Components>, property: BehaviorProperty) {
    forall b :: 0 <= b < |bindings| ==> CanHold(bindings[b], property)
  }

  lemma {:induction false} RewritesAllWhereHeld(rot: Rotations, bindings: seq<Components>, property: BehaviorProperty,
                                                value: BehaviorValue)
    requires ValueMatchesProperty(rot, property, value)
    ensures RewriteFailures(bindings, property, value) == [] <==> AllHold(bindings, property)
    decreases |bindings|
  {
    if bindings != [] {
      var n := |bindings| - 1;
      RewritesAllWhereHeld(rot, bindings[..n], property, value);
      RewritesWhereHeld(rot, bindings[n], property, value, property);
    }
  }

  /** The first keys are of their property's type. */
  ghost predicate FirstKeysMatch(rot: Rotations, parts: seq<Part>) {
    forall i :: 0 <= i < |parts| && parts[i].keys != [] ==>
      ValueMatchesProperty(rot, parts[i].property, parts[i].keys[0].value)
  }

  ghost predicate PartFits(part: Part, bindings: seq<Components>) {
    part.keys != [] ==>
      && part.migrated.diagnostics == [] && !(bindings == [] && |part.keys| == 1) && AllHold(bindings, part.property)
  }

  lemma {:induction false} FoldKeepsHolding(rot: Rotations, parts: seq<Part>, bindings: seq<Components>,
                                            property: BehaviorProperty)
    requires FirstKeysMatch(rot, parts)
    ensures var after := FoldParts(parts, bindings).bindings;
      |after| == |bindings| && (AllHold(after, property) <==> AllHold(bindings, property))
    decreases |parts|
  {
    if parts != [] {
      var n := |parts| - 1;
      var before := FoldParts(parts[..n], bindings).bindings;
      FoldKeepsHolding(rot, parts[..n], bindings, property);
      if parts[n].keys != [] {
        forall b | 0 <= b < |before|
          ensures CanHold(Rewritten(before[b], parts[n].property, parts[n].keys[0].value), property)
              <==> CanHold(before[b], property)
        {
          RewritesWhereHeld(rot, before[b], parts[n].property, parts[n].keys[0].value, property);
        }
        RewrittenHold(before, parts[n].property, parts[n].keys[0].value, property);
      }
    }
  }

  lemma RewrittenHold(bindings: seq<Components>, property: BehaviorProperty, value: BehaviorValue,
                      other: BehaviorProperty)
    requires forall b :: 0 <= b < |bindings| ==>
      (CanHold(Rewritten(bindings[b], property, value), other) <==> CanHold(bindings[b], other))
    ensures AllHold(RewriteAll(bindings, property, value), other) <==> AllHold(bindings, other)
  {
    var after := RewriteAll(bindings, property, value);
    assert forall b :: 0 <= b < |bindings| ==> after[b] == Rewritten(bindings[b], property, value);
  }

  lemma {:induction false} FoldReportsExactly(rot: Rotations, parts: seq<Part>, bindings: seq<Components>)
    requires FirstKeysMatch(rot, parts)
    ensures FoldParts(parts, bindings).diagnostics == [] <==>
      forall i :: 0 <= i < |parts| ==> PartFits(parts[i], bindings)
    decreases |parts|
  {
    if parts != [] {
      var n := |parts| - 1;
      var before, last := FoldParts(parts[..n], bindings), parts[n];
      FoldReportsExactly(rot, parts[..n], bindings);
      FoldKeepsHolding(rot, parts[..n], bindings, last.property);
      if last.keys != [] { RewritesAllWhereHeld(rot, before.bindings, last.property, last.keys[0].value); }
      assert FoldParts(parts, bindings).diagnostics == [] <==> before.diagnostics == [] && PartFits(last, bindings);
      assert forall i :: 0 <= i < n ==> parts[..n][i] == parts[i];
    }
  }

  /** A track can be written as events over the baselines of these objects. */
  ghost predicate TrackFits(rot: Rotations, track: BehaviorTrack, bindings: seq<Components>, limits: BeatLimits)
    requires KeysCanonical(SortedKeys(track.keys))
  {
    track.keys != [] ==>
      && AllIntervalsFit(rot, SortedKeys(track.keys), limits)
      && (bindings == [] ==> |track.keys| > 1)
      && AllHold(bindings, track.property)
  }

  lemma PartOfTrackFits(rot: Rotations, track: BehaviorTrack, bindings: seq<Components>, limits: BeatLimits)
    requires TrackAccepted(rot, track)
    ensures KeysCanonical(SortedKeys(track.keys))
    ensures PartFits(PartOf(rot, track, limits), bindings) <==> TrackFits(rot, track, bindings, limits)
    ensures track.keys != [] ==>
      SortedKeys(track.keys) != [] && ValueMatchesProperty(rot, track.property, SortedKeys(track.keys)[0].value)
  {
    SortedKeysAccepted(rot, track.property, track.keys);
    KeysMigrateExactly(rot, track.property, SortedKeys(track.keys), limits);
  }

  /** A whole behaviour of accepted tracks migrates without a report exactly when every track of it can: all its
      intervals fit, every bound object stores the property, and without bound objects it has more than one key. */
  lemma {:induction false} BehaviorMigratesExactly(rot: Rotations, tracks: seq<BehaviorTrack>,
                                                   bindings: seq<Components>, limits: BeatLimits)
    requires TracksAccepted(rot, tracks)
    ensures TracksCanonical(Sorting.Sort(TrackBefore, tracks))
    ensures forall track :: track in tracks ==> KeysCanonical(SortedKeys(track.keys))
    ensures FoldParts(Parts(rot, Sorting.Sort(TrackBefore, tracks), limits), bindings).diagnostics == [] <==>
      forall track :: track in tracks ==> TrackFits(rot, track, bindings, limits)
  {
    SortedTracksAccepted(rot, tracks);
    var sorted := Sorting.Sort(TrackBefore, tracks);
    var parts := Parts(rot, sorted, limits);
    Sorting.SameMultisetSameMembers(sorted, tracks);
    forall i | 0 <= i < |sorted|
      ensures KeysCanonical(SortedKeys(sorted[i].keys))
      ensures PartFits(parts[i], bindings) <==> TrackFits(rot, sorted[i], bindings, limits)
      ensures parts[i].keys != [] ==> ValueMatchesProperty(rot, parts[i].property, parts[i].keys[0].value)
    {
      PartOfTrackFits(rot, sorted[i], bindings, limits);
    }
    FoldReportsExactly(rot, parts, bindings);
    forall track | track in tracks
      ensures exists i :: 0 <= i < |sorted| && sorted[i] == track
    {
      assert track in sorted;
    }
  }
}
