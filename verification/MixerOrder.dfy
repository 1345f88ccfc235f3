/**
 What order means to the animation mixer: layers, groups and instances may be listed in any order without
 changing what a successful evaluation accepts, but whether a layer fails depends on which of its groups comes
 first.
 */
module MixerOrder {
  import opened Wrappers
  import opened MixValues
  import opened AnimationMixer
  import Sorting

  // ---------------------------------------------------------------- the same but for order

  /** The same group with its instances in another order. */
  ghost predicate GroupReordered(a: Group, b: Group) {
    && b == a.(instances := b.instances) && multiset(a.instances) == multiset(b.instances)
    && DistinctInstances(a.instances) && DistinctInstances(b.instances)
  }

  ghost predicate GroupsReordered(a: seq<Group>, b: seq<Group>) {
    |a| == |b| && forall i :: 0 <= i < |a| ==> GroupReordered(a[i], b[i])
  }

  /** The same layer with its groups, and the instances in them, in another order. */
  ghost predicate LayerReordered(a: Layer, b: Layer) {
    && b == a.(groups := b.groups)
    && exists between: seq<Group> :: GroupsReordered(a.groups, between) && multiset(between) == multiset(b.groups)
  }

  ghost predicate LayersReordered(a: seq<Layer>, b: seq<Layer>) {
    |a| == |b| && forall i :: 0 <= i < |a| ==> LayerReordered(a[i], b[i])
  }

  // ---------------------------------------------------------------- one layer

  /** A reordered group offers as much and mixes to the same. */
  lemma {:induction false} ReorderedGroupMixes(ops: QuatOps, layer: Layer, other: Layer, a: Group, b: Group,
                                               p: Property, input: MixValue)
    requires other == layer.(groups := other.groups) && GroupReordered(a, b)
    ensures GroupOffers(layer, a, p) == [] <==> GroupOffers(other, b, p) == []
    ensures Accepts(layer, a, p) <==> Accepts(other, b, p)
    ensures GroupOffers(layer, a, p) != [] ==>
      GroupMix(ops, layer, a, p, input, GroupOffers(layer, a, p))
          == GroupMix(ops, other, b, p, input, GroupOffers(other, b, p))
  {
    MixIgnoresInstanceOrder(ops, layer, a, b, p, input);
    SameMix(ops, layer, other, b, Some(input), p);
  }

  /** Reordering the instances of a layer's groups leaves its change. */
  lemma {:induction false} ChangeIgnoresInstanceOrder(ops: QuatOps, layer: Layer, other: Layer,
                                                      input: Option<MixValue>, p: Property)
    requires other == layer.(groups := other.groups) && GroupsReordered(layer.groups, other.groups)
    ensures LayerChange(ops, layer, input, p) == LayerChange(ops, other, input, p)
  {
    ChangeIs(ops, layer, input, p);
    ChangeIs(ops, other, input, p);
    ContributorsCorrespondIn(ops, layer, other, p, layer.groups, other.groups, |layer.groups|);
    var x, y := Contributors(layer, p, layer.groups, |layer.groups|),
        Contributors(other, p, other.groups, |other.groups|);
    if |x| == 1 {
      ReorderedGroupMixes(ops, layer, other, x[0], y[0], p, if input.Some? then input.value else Number(0.0));
    }
  }

  /** A layer proposes the same changes in any order of its groups and their instances. */
  lemma {:induction false} ChangeIgnoresOrder(ops: QuatOps, a: Layer, b: Layer, input: Option<MixValue>, p: Property)
    requires LayerReordered(a, b)
    ensures LayerChange(ops, a, input, p) == LayerChange(ops, b, input, p)
  {
    var between: seq<Group> :| GroupsReordered(a.groups, between) && multiset(between) == multiset(b.groups);
    var middle := a.(groups := between);
    ChangeIgnoresInstanceOrder(ops, a, middle, input, p);
    ChangeIgnoresGroupOrder(ops, middle, b, input, p);
  }

  // ---------------------------------------------------------------- the whole object

  lemma {:induction false} ChangingCorrespond(ops: QuatOps, a: seq<Layer>, b: seq<Layer>, input: Option<MixValue>,
                                              p: Property, count: nat)
    requires LayersReordered(a, b) && count <= |a|
    ensures LayersReordered(ChangingLayers(ops, a, input, p, count), ChangingLayers(ops, b, input, p, count))
    decreases count
  {
    if count > 0 {
      ChangingCorrespond(ops, a, b, input, p, count - 1);
      ChangeIgnoresOrder(ops, a[count - 1], b[count - 1], input, p);
    }
  }

  lemma {:induction false} TierIgnoresInnerOrder(ops: QuatOps, a: seq<Layer>, b: seq<Layer>,
                                                 current: map<Property, MixValue>, p: Property)
    requires LayersReordered(a, b)
    ensures TierChange(ops, a, current, p) == TierChange(ops, b, current, p)
  {
    var input := InputOf(current, p);
    ChangingCorrespond(ops, a, b, input, p, |a|);
    var x, y := ChangingLayers(ops, a, input, p, |a|), ChangingLayers(ops, b, input, p, |b|);
    if |x| == 1 { ChangeIgnoresOrder(ops, x[0], y[0], input, p); }
  }

  lemma {:induction false} TierChangesIgnoreInnerOrder(ops: QuatOps, a: seq<Layer>, b: seq<Layer>,
                                                       current: map<Property, MixValue>)
    requires LayersReordered(a, b)
    ensures TierChanges(ops, a, current) == TierChanges(ops, b, current)
  {
    forall p ensures TierChange(ops, a, current, p) == TierChange(ops, b, current, p) {
      TierIgnoresInnerOrder(ops, a, b, current, p);
    }
  }

  lemma {:induction false} SameTierEnd(a: seq<Layer>, b: seq<Layer>, from: nat, end: nat)
    requires LayersReordered(a, b) && from < end <= |a|
    ensures TierEnd(a, from, end) == TierEnd(b, from, end)
    decreases |a| - end
  {
    if end < |a| {
      assert LayerReordered(a[end], b[end]) && LayerReordered(a[from], b[from]);
      SameTierEnd(a, b, from, end + 1);
    }
  }

  /** With the layers in place, the inner orders do not matter to what is accepted. */
  lemma {:induction false} EvaluatedIgnoresInnerOrder(ops: QuatOps, a: seq<Layer>, b: seq<Layer>, from: nat, st: Mixed)
    requires LayersReordered(a, b) && from <= |a|
    requires Evaluated(ops, a, from, st).Some? && Evaluated(ops, b, from, st).Some?
    ensures Evaluated(ops, a, from, st) == Evaluated(ops, b, from, st)
    decreases |a| - from
  {
    if from < |a| {
      SameTierEnd(a, b, from, from + 1);
      var end := TierEnd(a, from, from + 1);
      var changes := TierChanges(ops, a[from..end], st.current);
      TierChangesIgnoreInnerOrder(ops, a[from..end], b[from..end], st.current);
      EvaluatedIgnoresInnerOrder(ops, a, b, end, Mixed(st.current + changes, st.accepted + changes));
    }
  }

  lemma OneMoreCorresponds(x: Layer, y: Layer, a: seq<Layer>, b: seq<Layer>)
    requires LayerReordered(x, y) && LayersReordered(a, b)
    ensures LayersReordered([x] + a, [y] + b)
  {
    var p, q := [x] + a, [y] + b;
    forall i | 0 <= i < |p| ensures LayerReordered(p[i], q[i]) {
      if i > 0 { assert LayerReordered(a[i - 1], b[i - 1]); }
    }
  }

  lemma TailsCorrespond(a: seq<Layer>, b: seq<Layer>)
    requires LayersReordered(a, b) && a != []
    ensures LayerReordered(a[0], b[0]) && LayersReordered(a[1..], b[1..])
  {
    forall i | 0 <= i < |a[1..]|
        ensures LayerReordered(a[1..][i], b[1..][i]) { assert LayerReordered(a[i + 1], b[i + 1]); }
  }

  lemma SameKey(x: Layer, y: Layer)
    requires LayerReordered(x, y)
    ensures x.priority == y.priority && x.identity == y.identity
  {
  }

  lemma {:induction false} InsertCorresponds(x: Layer, y: Layer, a: seq<Layer>, b: seq<Layer>)
    requires LayerReordered(x, y) && LayersReordered(a, b)
    ensures LayersReordered(Sorting.Insert(LayerBefore, x, a), Sorting.Insert(LayerBefore, y, b))
    decreases |a|
  {
    if a == [] {
      OneMoreCorresponds(x, y, a, b);
    } else {
      TailsCorrespond(a, b);
      SameKey(x, y);
      SameKey(a[0], b[0]);
      if LayerBefore(x, a[0]) {
        OneMoreCorresponds(x, y, a, b);
      } else {
        InsertCorresponds(x, y, a[1..], b[1..]);
        OneMoreCorresponds(a[0], b[0], Sorting.Insert(LayerBefore, x, a[1..]), Sorting.Insert(LayerBefore, y, b[1..]));
      }
    }
  }

  lemma {:induction false} SortCorresponds(a: seq<Layer>, b: seq<Layer>)
    requires LayersReordered(a, b)
    ensures LayersReordered(Sorting.Sort(LayerBefore, a), Sorting.Sort(LayerBefore, b))
    decreases |a|
  {
    if a != [] {
      TailsCorrespond(a, b);
      SortCorresponds(a[1..], b[1..]);
      InsertCorresponds(a[0], b[0], Sorting.Sort(LayerBefore, a[1..]), Sorting.Sort(LayerBefore, b[1..]));
    }
  }

  /** An object's layers, the groups in them and the instances in those may be listed in any order: when both
      evaluations succeed they accept the same writes. */
  lemma {:induction false} EvaluationIgnoresOrder(ops: QuatOps, a: seq<Layer>, between: seq<Layer>, b: seq<Layer>,
                                                  st: Mixed)
    requires LayersReordered(a, between) && multiset(between) == multiset(b) && DistinctLayers(a)
    requires Evaluated(ops, Sorting.Sort(LayerBefore, a), 0, st).Some?
    requires Evaluated(ops, Sorting.Sort(LayerBefore, b), 0, st).Some?
    ensures Evaluated(ops, Sorting.Sort(LayerBefore, a), 0, st) == Evaluated(ops, Sorting.Sort(LayerBefore, b), 0, st)
  {
    forall i, j | 0 <= i < j < |between| ensures between[i].identity != between[j].identity {
      assert LayerReordered(a[i], between[i]) && LayerReordered(a[j], between[j]);
    }
    EvaluationIgnoresListing(ops, between, b, st);
    SortCorresponds(a, between);
    EvaluatedIgnoresInnerOrder(ops, Sorting.Sort(LayerBefore, a), Sorting.Sort(LayerBefore, between), 0, st);
  }

  // ---------------------------------------------------------------- when a layer fails

  /** The first group to contribute is supported, but has no value to start from or cannot be mixed into it. */
  ghost predicate FirstFails(ops: QuatOps, layer: Layer, input: Option<MixValue>, p: Property, contributors: seq<Group>)
    requires forall i :: 0 <= i < |contributors| ==> GroupOffers(layer, contributors[i], p) != []
  {
    && contributors != [] && Accepts(layer, contributors[0], p)
    && (input.None? || GroupMix(ops, layer, contributors[0], p, input.value,
                                GroupOffers(layer, contributors[0], p)).None?)
  }

  /** A layer fails on a property exactly when its first contributing group does: override groups come first, and
      once a group has contributed the others are only discarded, never mixed. */
  lemma {:induction false} FailsWithFirst(ops: QuatOps, layer: Layer, input: Option<MixValue>, p: Property)
    ensures LayerSlot(ops, layer, input, p).None? <==>
            FirstFails(ops, layer, input, p, Contributors(layer, p, Ordered(layer), |Ordered(layer)|))
  {
    FailsWithFirstOf(ops, layer, input, p, Ordered(layer), |Ordered(layer)|);
  }

  lemma {:induction false} FailsWithFirstOf(ops: QuatOps, layer: Layer, input: Option<MixValue>, p: Property,
                                            groups: seq<Group>, count: nat)
    requires count <= |groups|
    ensures SlotAfter(ops, layer, input, p, Untouched, groups, count).None? <==>
            FirstFails(ops, layer, input, p, Contributors(layer, p, groups, count))
    decreases count
  {
    if count > 0 {
      FailsWithFirstOf(ops, layer, input, p, groups, count - 1);
      var before, earlier := SlotAfter(ops, layer, input, p, Untouched, groups, count - 1),
          Contributors(layer, p, groups, count - 1);
      if before.Some? {
        SlotCounts(ops, layer, input, p, groups, count - 1);
        if GroupOffers(layer, groups[count - 1], p) != [] {
          StepFails(ops, layer, input, p, before.value, earlier, groups[count - 1]);
        }
      } else if GroupOffers(layer, groups[count - 1], p) != [] {
        assert (earlier + [groups[count - 1]])[0] == earlier[0];
      }
    }
  }

  lemma {:induction false} StepFails(ops: QuatOps, layer: Layer, input: Option<MixValue>, p: Property, slot: Slot,
                                     contributors: seq<Group>, group: Group)
    requires forall i :: 0 <= i < |contributors| ==> GroupOffers(layer, contributors[i], p) != []
    requires SlotFits(ops, layer, input, p, slot, contributors) && GroupOffers(layer, group, p) != []
    requires !FirstFails(ops, layer, input, p, contributors)
    ensures SlotStep(ops, layer, input, p, slot, group).None? <==>
      FirstFails(ops, layer, input, p, contributors + [group])
  {
    assert (contributors + [group])[0] == if contributors == [] then group else contributors[0];
  }

  /** The order of instances never matters, not even to failure. */
  lemma {:induction false} FailureIgnoresInstanceOrder(ops: QuatOps, layer: Layer, other: Layer,
                                                       input: Option<MixValue>, p: Property)
    requires other == layer.(groups := other.groups) && GroupsReordered(layer.groups, other.groups)
    ensures LayerSlot(ops, layer, input, p).None? <==> LayerSlot(ops, other, input, p).None?
  {
    FailsWithFirst(ops, layer, input, p);
    FailsWithFirst(ops, other, input, p);
    PassesCorrespond(layer.groups, other.groups, false, |layer.groups|);
    PassesCorrespond(layer.groups, other.groups, true, |layer.groups|);
    var a, b := Ordered(layer), Ordered(other);
    ContributorsCorrespondIn(ops, layer, other, p, a, b, |a|);
    var x, y := Contributors(layer, p, a, |a|), Contributors(other, p, b, |b|);
    if x != [] {
      ReorderedGroupMixes(ops, layer, other, x[0], y[0], p, if input.Some? then input.value else Number(0.0));
    }
  }

  lemma {:induction false} PassesCorrespond(a: seq<Group>, b: seq<Group>, additive: bool, count: nat)
    requires GroupsReordered(a, b) && count <= |a|
    ensures GroupsReordered(PassOf(a, additive, count), PassOf(b, additive, count))
    decreases count
  {
    if count > 0 { PassesCorrespond(a, b, additive, count - 1); }
  }

  lemma {:induction false} ContributorsCorrespondIn(ops: QuatOps, layer: Layer, other: Layer, p: Property,
                                                    a: seq<Group>, b: seq<Group>, count: nat)
    requires other == layer.(groups := other.groups) && GroupsReordered(a, b) && count <= |a|
    ensures GroupsReordered(Contributors(layer, p, a, count), Contributors(other, p, b, count))
    decreases count
  {
    if count > 0 {
      ContributorsCorrespondIn(ops, layer, other, p, a, b, count - 1);
      ReorderedGroupMixes(ops, layer, other, a[count - 1], b[count - 1], p, Number(0.0));
    }
  }

  // ---------------------------------------------------------------- failure depends on the order of groups

  const SCALES_ONLY: PropertyMask := PropertyMask([NameOf(ScaleOf)], [])
  const NEGATIVE: Group := Group(true, 1.0, [ClipInstance(1, 1.0, SCALES_ONLY, map[ScaleOf := Triple(-1.0, 1.0, 1.0)])])
  const DOUBLING: Group := Group(true, 1.0, [ClipInstance(2, 1.0, SCALES_ONLY, map[ScaleOf := Triple(2.0, 2.0, 2.0)])])
  const UNIT: MixValue := Triple(1.0, 1.0, 1.0)

  function TwoGroups(first: Group, second: Group): Layer { Layer(1, 0, 1.0, SCALES_ONLY, [first, second]) }

  lemma {:induction false} ExampleOffers(layer: Layer, group: Group)
    requires (group == NEGATIVE || group == DOUBLING) && layer.mask == SCALES_ONLY
    ensures |GroupOffers(layer, group, ScaleOf)| == 1 && Accepts(layer, group, ScaleOf)
    ensures GroupOffers(layer, group, ScaleOf)[0].value == group.instances[0].samples[ScaleOf]
    ensures GroupOffers(layer, group, ScaleOf)[0].weight == 1.0
  {
    assert NameOf(ScaleOf) in SCALES_ONLY.properties;
    assert InstanceOffers(layer.mask, group.instances[0], ScaleOf);
    assert |group.instances| == 1 && Offers(layer.mask, group, ScaleOf, 0) == [];
  }

  lemma {:induction false} BothPasses(first: Group, second: Group)
    requires first.additive && second.additive
    ensures Ordered(TwoGroups(first, second)) == [first, second]
  {
    var groups := [first, second];
    assert PassOf(groups, false, 0) == PassOf(groups, false, 1) == PassOf(groups, false, 2) == [];
    assert PassOf(groups, true, 0) == [] && PassOf(groups, true, 1) == [first]
        && PassOf(groups, true, 2) == [first, second];
  }

  lemma {:induction false} NegativeFails(ops: QuatOps, layer: Layer, cs: seq<Contribution>)
    requires |cs| == 1 && AllPositive(cs) && cs[0].value == Triple(-1.0, 1.0, 1.0)
    ensures GroupMix(ops, layer, NEGATIVE, ScaleOf, UNIT, cs) == None
  {
    GroupMixIs(ops, layer, NEGATIVE, ScaleOf, UNIT, cs);
    assert !FactorsPositive(cs[0].value);
  }

  lemma {:induction false} ScaleFactorIs(c: Contribution, share: real, component: nat, layers: nat)
    ensures ScaleFactor(c, share, component, layers) == ScaleFactor(c, share, component, 0)
    decreases layers
  {
    if layers > 0 { ScaleFactorIs(c, share, component, layers - 1); }
  }

  lemma {:induction false} DoublingMixes(ops: QuatOps, layer: Layer, cs: seq<Contribution>)
    requires |cs| == 1 && AllPositive(cs) && cs[0].value == Triple(2.0, 2.0, 2.0) && cs[0].weight == 1.0
    requires layer.weight == 1.0
    ensures GroupMix(ops, layer, DOUBLING, ScaleOf, UNIT, cs).Some?
  {
    GroupMixIs(ops, layer, DOUBLING, ScaleOf, UNIT, cs);
    forall component | 0 <= component <= 2 ensures ScaleFactor(cs[0], 1.0, component) > 0.0 {
      ScaleFactorIs(cs[0], 1.0, component, 3);
    }
  }

  /** Two additive groups scale the same object, one of them by a negative factor.  Coming first it makes the whole
      evaluation fail; coming second it is only discarded along with the first. */
  lemma {:induction false} FailureDependsOnGroupOrder(ops: QuatOps)
    ensures multiset(TwoGroups(NEGATIVE, DOUBLING).groups) == multiset(TwoGroups(DOUBLING, NEGATIVE).groups)
    ensures LayerSlot(ops, TwoGroups(NEGATIVE, DOUBLING), Some(UNIT), ScaleOf) == None
    ensures LayerSlot(ops, TwoGroups(DOUBLING, NEGATIVE), Some(UNIT), ScaleOf) == Some(Discarded)
  {
    var bad, good := TwoGroups(NEGATIVE, DOUBLING), TwoGroups(DOUBLING, NEGATIVE);
    assert bad.groups == [NEGATIVE, DOUBLING] && good.groups == [DOUBLING, NEGATIVE];
    assert multiset(bad.groups) == multiset{NEGATIVE, DOUBLING} == multiset(good.groups);
    BothPasses(NEGATIVE, DOUBLING);
    BothPasses(DOUBLING, NEGATIVE);
    FirstFailsAlone(ops, bad);
    SecondIsDiscarded(ops, good);
  }

  lemma {:induction false} FirstFailsAlone(ops: QuatOps, bad: Layer)
    requires bad == TwoGroups(NEGATIVE, DOUBLING) && Ordered(bad) == [NEGATIVE, DOUBLING]
    ensures LayerSlot(ops, bad, Some(UNIT), ScaleOf) == None
  {
    ExampleOffers(bad, NEGATIVE);
    NegativeFails(ops, bad, GroupOffers(bad, NEGATIVE, ScaleOf));
    assert SlotAfter(ops, bad, Some(UNIT), ScaleOf, Untouched, Ordered(bad), 0) == Some(Untouched);
    assert SlotAfter(ops, bad, Some(UNIT), ScaleOf, Untouched, Ordered(bad), 1) == None;
  }

  lemma {:induction false} SecondIsDiscarded(ops: QuatOps, good: Layer)
    requires good == TwoGroups(DOUBLING, NEGATIVE) && Ordered(good) == [DOUBLING, NEGATIVE]
    ensures LayerSlot(ops, good, Some(UNIT), ScaleOf) == Some(Discarded)
  {
    ExampleOffers(good, DOUBLING);
    ExampleOffers(good, NEGATIVE);
    DoublingMixes(ops, good, GroupOffers(good, DOUBLING, ScaleOf));
    assert SlotAfter(ops, good, Some(UNIT), ScaleOf, Untouched, Ordered(good), 0) == Some(Untouched);
    assert SlotAfter(ops, good, Some(UNIT), ScaleOf, Untouched, Ordered(good), 1).value.Held?;
  }
}
