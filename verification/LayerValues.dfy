/**
 The value a layer makes of its input, said of the instances themselves: how far an override moves the input, what an
 additive group adds, and which of several discrete values is taken.
 */
module LayerValues {
  import opened Wrappers
  import opened BehaviorSampling
  import opened MixValues
  import opened AnimationMixer
  import Sorting

  // ---------------------------------------------------------------- what contributes

  /** An instance takes part where group and instance have weight, it samples the property and both masks allow it. */
  predicate TakesPart(layer: Layer, group: Group, instance: ClipInstance, p: Property) {
    && group.weight > 0.0 && instance.weight > 0.0 && p in instance.samples
    && MaskAllows(layer.mask, p) && MaskAllows(instance.mask, p)
  }

  ghost predicate AnyTakesPart(layer: Layer, group: Group, p: Property) {
    exists instance :: instance in group.instances && TakesPart(layer, group, instance, p)
  }

  /** The weight of the first instances that take part, and the sum of their weighted samples. */
  function PartWeight(layer: Layer, group: Group, p: Property, count: nat): real
    requires count <= |group.instances|
  {
    if count == 0 then 0.0
    else
      var instance := group.instances[count - 1];
      PartWeight(layer, group, p, count - 1) + if TakesPart(layer, group, instance, p) then instance.weight else 0.0
  }

  function PartSum(layer: Layer, group: Group, p: Property, component: nat, count: nat): real
    requires count <= |group.instances|
  {
    if count == 0 then 0.0
    else
      var instance := group.instances[count - 1];
      PartSum(layer, group, p, component, count - 1)
      + if TakesPart(layer, group, instance, p) then Weighted(ContributionOf(instance, p), component) else 0.0
  }

  /** A contribution is made by one of the first instances, with its own weight and sample. */
  ghost predicate MadeBy(layer: Layer, group: Group, p: Property, count: nat, c: Contribution)
    requires count <= |group.instances|
  {
    exists k :: 0 <= k < count && TakesPart(layer, group, group.instances[k], p)
                && c == ContributionOf(group.instances[k], p)
  }

  lemma {:induction false} OffersSum(layer: Layer, group: Group, p: Property, count: nat, component: nat)
    requires count <= |group.instances| && group.weight > 0.0
    ensures var cs := Offers(layer.mask, group, p, count);
      && TotalWeight(cs, |cs|) == PartWeight(layer, group, p, count)
      && WeightedSum(cs, |cs|, component) == PartSum(layer, group, p, component, count)
    decreases count
  {
    if count > 0 {
      var before, instance := Offers(layer.mask, group, p, count - 1), group.instances[count - 1];
      OffersSum(layer, group, p, count - 1, component);
      if InstanceOffers(layer.mask, instance, p) {
        SumsOfPrefix(before + [ContributionOf(instance, p)], before, |before|, component);
      }
    }
  }

  lemma {:induction false} OffersMade(layer: Layer, group: Group, p: Property, count: nat, c: Contribution)
    requires count <= |group.instances| && group.weight > 0.0
    ensures c in Offers(layer.mask, group, p, count) <==> MadeBy(layer, group, p, count, c)
    decreases count
  {
    if count > 0 {
      OffersMade(layer, group, p, count - 1, c);
      var before, instance := Offers(layer.mask, group, p, count - 1), group.instances[count - 1];
      assert MadeBy(layer, group, p, count, c) <==>
        MadeBy(layer, group, p, count - 1, c)
        || (TakesPart(layer, group, instance, p) && c == ContributionOf(instance, p));
    }
  }

  /** The contributions of a group are its instances that take part, each with its own weight and sample. */
  lemma {:induction false} ContributionsAre(layer: Layer, group: Group, p: Property, component: nat)
    ensures var cs, count := GroupOffers(layer, group, p), |group.instances|;
      && (cs != [] <==> AnyTakesPart(layer, group, p))
      && TotalWeight(cs, |cs|) == PartWeight(layer, group, p, count)
      && WeightedSum(cs, |cs|, component) == PartSum(layer, group, p, component, count)
      && (forall c :: c in cs <==> MadeBy(layer, group, p, count, c))
  {
    var cs, count := GroupOffers(layer, group, p), |group.instances|;
    if group.weight > 0.0 {
      OffersSum(layer, group, p, count, component);
      forall c ensures c in cs <==> MadeBy(layer, group, p, count, c) { OffersMade(layer, group, p, count, c); }
    } else {
      NothingTakesPart(layer, group, p, component, count);
    }
    if cs != [] { assert MadeBy(layer, group, p, count, cs[0]); }
    if instance :| instance in group.instances && TakesPart(layer, group, instance, p) {
      var k :| 0 <= k < count && group.instances[k] == instance;
      assert MadeBy(layer, group, p, count, ContributionOf(instance, p));
    }
  }

  lemma {:induction false} NothingTakesPart(layer: Layer, group: Group, p: Property, component: nat, count: nat)
    requires count <= |group.instances| && !(group.weight > 0.0)
    ensures PartWeight(layer, group, p, count) == 0.0 && PartSum(layer, group, p, component, count) == 0.0
    decreases count
  {
    if count > 0 { NothingTakesPart(layer, group, p, component, count - 1); }
  }

  /** The group at that place is the only one of its layer with an instance that takes part. */
  ghost predicate OnlyGroup(layer: Layer, g: nat, p: Property) {
    && g < |layer.groups| && AnyTakesPart(layer, layer.groups[g], p)
    && forall other :: 0 <= other < |layer.groups| && other != g ==> !AnyTakesPart(layer, layer.groups[other], p)
  }

  lemma {:induction false} OneContributor(layer: Layer, g: nat, p: Property, count: nat)
    requires OnlyGroup(layer, g, p) && count <= |layer.groups|
    ensures Contributors(layer, p, layer.groups, count) == if count <= g then [] else [layer.groups[g]]
    decreases count
  {
    if count > 0 {
      OneContributor(layer, g, p, count - 1);
      ContributionsAre(layer, layer.groups[count - 1], p, 0);
    }
  }

  // ---------------------------------------------------------------- how far an input moves

  predicate SameKind(a: MixValue, b: MixValue) { (a.Number? && b.Number?) || (a.Triple? && b.Triple?) }

  ghost predicate SamplesOfKind(layer: Layer, group: Group, p: Property, input: MixValue) {
    forall instance :: instance in group.instances && TakesPart(layer, group, instance, p) ==>
      SameKind(input, instance.samples[p])
  }

  lemma {:induction false} KindOfContributions(layer: Layer, group: Group, p: Property, input: MixValue)
    requires SamplesOfKind(layer, group, p, input) && AnyTakesPart(layer, group, p)
    ensures var cs := GroupOffers(layer, group, p);
      cs != [] && AllPositive(cs) && (if input.Number? then AllNumbers(cs) else input.Triple? && AllTriples(cs))
  {
    ContributionsAre(layer, group, p, 0);
    var cs := GroupOffers(layer, group, p);
    forall i | 0 <= i < |cs| ensures SameKind(input, cs[i].value) {
      assert cs[i] in cs && MadeBy(layer, group, p, |group.instances|, cs[i]);
    }
    assert SameKind(input, cs[0].value);
  }

  /** A value that lies from the input towards sum / total by both weights. */
  predicate Pulled(value: real, input: real, first: real, second: real, total: real, sum: real) {
    (value - input) * total == first * second * (sum - input * total)
  }

  /** Two blends into an input move it by both weights. */
  lemma MovedTwice(input: real, mean: real, first: real, second: real, total: real, sum: real)
    requires mean * total == sum
    ensures Pulled(Lerp(input, Lerp(input, mean, first), second), input, first, second, total, sum)
  {
    var step := (mean - input) * first;
    assert Lerp(input, Lerp(input, mean, first), second) - input == step * second;
    Regrouped(mean - input, first, second, total);
    assert (mean - input) * total == sum - input * total;
  }

  lemma Regrouped(d: real, f: real, s: real, t: real)
    ensures ((d * f) * s) * t == (f * s) * (d * t)
  {
    assert ((d * f) * s) * t == (d * f) * (s * t);
    assert (d * f) * (s * t) == (f * d) * (t * s);
    assert (f * d) * (t * s) == f * (d * (t * s));
    assert d * (t * s) == (d * t) * s;
    assert f * ((d * t) * s) == f * (s * (d * t));
  }

  lemma {:induction false} GroupPulls(ops: QuatOps, layer: Layer, group: Group, p: Property, input: MixValue,
                                      cs: seq<Contribution>, component: nat)
    requires !group.additive && !IsDiscrete(p) && cs != [] && AllPositive(cs)
    requires if input.Number? then AllNumbers(cs) else input.Triple? && AllTriples(cs)
    ensures var mixed := GroupMix(ops, layer, group, p, input, cs);
      && mixed.Some? && SameKind(input, mixed.value)
      && Pulled(Part(mixed.value, component), Part(input, component), group.weight, layer.weight,
                TotalWeight(cs, |cs|), WeightedSum(cs, |cs|, component))
  {
    var mean := TwoBlends(ops, layer, group, p, input, cs, component);
    OverrideIsMean(ops, cs, p, component);
    PulledToMean(Part(GroupMix(ops, layer, group, p, input, cs).value, component), Part(input, component), mean, cs,
                 component, group.weight, layer.weight);
  }

  lemma PulledToMean(value: real, input: real, mean: MixValue, cs: seq<Contribution>, component: nat, first: real,
                     second: real)
    requires IsMeanOf(mean, cs, component)
    requires value == Lerp(input, Lerp(input, Part(mean, component), first), second)
    ensures Pulled(value, input, first, second, TotalWeight(cs, |cs|), WeightedSum(cs, |cs|, component))
  {
    MovedTwice(input, Part(mean, component), first, second, TotalWeight(cs, |cs|), WeightedSum(cs, |cs|, component));
  }

  lemma {:induction false} TwoBlends(ops: QuatOps, layer: Layer, group: Group, p: Property, input: MixValue,
                                     cs: seq<Contribution>, component: nat) returns (mean: MixValue)
    requires !group.additive && !IsDiscrete(p) && cs != [] && AllPositive(cs)
    requires if input.Number? then AllNumbers(cs) else input.Triple? && AllTriples(cs)
    ensures WeightedOverride(ops, cs, p) == Ok(mean)
    ensures var mixed := GroupMix(ops, layer, group, p, input, cs);
      && mixed.Some? && SameKind(input, mixed.value)
      && Part(mixed.value, component)
         == Lerp(Part(input, component), Lerp(Part(input, component), Part(mean, component), group.weight),
                 layer.weight)
  {
    GroupMixIs(ops, layer, group, p, input, cs);
    OverrideKind(ops, cs, p);
    mean := WeightedOverride(ops, cs, p).value;
    LerpMixParts(ops, input, mean, group.weight, component);
    var groupOutput := LerpMix(ops, input, mean, group.weight).value;
    LerpMixParts(ops, input, groupOutput, layer.weight, component);
  }

  /** The change of a layer to which one group contributes is that group's. */
  lemma {:induction false} ChangeOfOne(ops: QuatOps, layer: Layer, g: nat, p: Property, input: MixValue)
    requires layer.weight > 0.0 && OnlyGroup(layer, g, p)
    ensures GroupOffers(layer, layer.groups[g], p) != []
    ensures LayerChange(ops, layer, Some(input), p)
         == if Accepts(layer, layer.groups[g], p) then
              GroupMix(ops, layer, layer.groups[g], p, input, GroupOffers(layer, layer.groups[g], p))
            else None
  {
    OneContributor(layer, g, p, |layer.groups|);
    ChangeIs(ops, layer, Some(input), p);
  }

  /** An override group: the layer's change lies from its input towards the weighted mean of the samples, by group
      weight times layer weight, in every component. */
  lemma {:induction false} OverrideMoves(ops: QuatOps, layer: Layer, g: nat, p: Property, input: MixValue,
                                         component: nat)
    requires layer.weight > 0.0 && OnlyGroup(layer, g, p) && !layer.groups[g].additive && !IsDiscrete(p)
    requires SamplesOfKind(layer, layer.groups[g], p, input)
    ensures var group, change := layer.groups[g], LayerChange(ops, layer, Some(input), p);
      && change.Some? && SameKind(input, change.value)
      && Pulled(Part(change.value, component), Part(input, component), group.weight, layer.weight,
                PartWeight(layer, group, p, |group.instances|), PartSum(layer, group, p, component, |group.instances|))
  {
    var group, cs := layer.groups[g], GroupOffers(layer, layer.groups[g], p);
    ChangeOfOne(ops, layer, g, p, input);
    KindOfContributions(layer, group, p, input);
    GroupPulls(ops, layer, group, p, input, cs, component);
    ContributionsAre(layer, group, p, component);
  }

  lemma {:induction false} OverrideKind(ops: QuatOps, cs: seq<Contribution>, p: Property)
    requires cs != [] && AllPositive(cs) && (AllNumbers(cs) || AllTriples(cs)) && !IsDiscrete(p)
    ensures WeightedOverride(ops, cs, p).Ok? && SameKind(cs[0].value, WeightedOverride(ops, cs, p).value)
  {
    OverrideOfPlain(ops, cs, p);
    var sorted := Sorting.Sort(ByIdentity, cs);
    RunningBlendKind(ops, sorted, |sorted|);
    Sorting.SameMultisetSameMembers(sorted, cs);
    assert sorted[0] in sorted && sorted[0] in cs;
  }

  // ---------------------------------------------------------------- when a layer changes nothing

  lemma {:induction false} ContributesIff(layer: Layer, group: Group, p: Property)
    ensures GroupOffers(layer, group, p) != [] <==> AnyTakesPart(layer, group, p)
  {
    ContributionsAre(layer, group, p, 0);
  }

  lemma {:induction false} NoContributor(layer: Layer, p: Property, count: nat, g: nat)
    requires g < count <= |layer.groups| && Contributors(layer, p, layer.groups, count) == []
    ensures !AnyTakesPart(layer, layer.groups[g], p)
    decreases count
  {
    ContributesIff(layer, layer.groups[count - 1], p);
    if g < count - 1 { NoContributor(layer, p, count - 1, g); }
  }

  lemma {:induction false} SingleContributor(layer: Layer, p: Property, count: nat) returns (g: nat)
    requires count <= |layer.groups| && |Contributors(layer, p, layer.groups, count)| == 1
    ensures g < count && AnyTakesPart(layer, layer.groups[g], p)
    ensures forall other :: 0 <= other < count && other != g ==> !AnyTakesPart(layer, layer.groups[other], p)
    ensures Contributors(layer, p, layer.groups, count) == [layer.groups[g]]
    decreases count
  {
    ContributesIff(layer, layer.groups[count - 1], p);
    if AnyTakesPart(layer, layer.groups[count - 1], p) {
      g := count - 1;
      forall other | 0 <= other < g ensures !AnyTakesPart(layer, layer.groups[other], p) {
        NoContributor(layer, p, g, other);
      }
    } else {
      g := SingleContributor(layer, p, count - 1);
    }
  }

  /** A layer changes a property only where it has weight and a single group of it contributes; a discrete property
      only by an override at full weights, and an additive group only a transform. */
  lemma {:induction false} ChangesByOneGroup(ops: QuatOps, layer: Layer, p: Property, input: Option<MixValue>)
    returns (g: nat)
    requires LayerChange(ops, layer, input, p).Some?
    ensures layer.weight > 0.0 && input.Some? && OnlyGroup(layer, g, p)
    ensures layer.groups[g].additive ==> p in {PositionX, PositionY, PositionZ, RotationOf, ScaleOf}
    ensures p in {Visible, Material} ==>
      !layer.groups[g].additive && layer.weight == 1.0 && layer.groups[g].weight == 1.0
  {
    ChangeNeeds(ops, layer, p, input);
    g := SingleContributor(layer, p, |layer.groups|);
    AcceptsExactly(layer, layer.groups[g], p);
  }

  lemma AcceptsExactly(layer: Layer, group: Group, p: Property)
    ensures Accepts(layer, group, p) <==>
      && (group.additive ==> p in {PositionX, PositionY, PositionZ, RotationOf, ScaleOf})
      && (p in {Visible, Material} ==> !group.additive && layer.weight == 1.0 && group.weight == 1.0)
  {
  }

  lemma {:induction false} ChangeNeeds(ops: QuatOps, layer: Layer, p: Property, input: Option<MixValue>)
    requires LayerChange(ops, layer, input, p).Some?
    ensures var contributors := Contributors(layer, p, layer.groups, |layer.groups|);
      layer.weight > 0.0 && input.Some? && |contributors| == 1 && Accepts(layer, contributors[0], p)
  {
    ChangeIs(ops, layer, input, p);
  }

  // ---------------------------------------------------------------- discrete values

  /** Of discrete values the weightiest is taken, of equally weighty ones that of the least identity. */
  lemma {:induction false} WeightiestIsTaken(ops: QuatOps, layer: Layer, g: nat, p: Property, input: MixValue)
    returns (winner: ClipInstance)
    requires layer.weight == 1.0 && OnlyGroup(layer, g, p) && p in {Visible, Material}
    requires !layer.groups[g].additive && layer.groups[g].weight == 1.0
    ensures winner in layer.groups[g].instances && TakesPart(layer, layer.groups[g], winner, p)
    ensures LayerChange(ops, layer, Some(input), p) == Some(winner.samples[p])
    ensures forall other :: other in layer.groups[g].instances && TakesPart(layer, layer.groups[g], other, p) ==>
      other.weight < winner.weight || (other.weight == winner.weight && winner.identity <= other.identity)
  {
    var group, cs := layer.groups[g], GroupOffers(layer, layer.groups[g], p);
    ChangeOfOne(ops, layer, g, p, input);
    GroupMixIs(ops, layer, group, p, input, cs);
    ContributionsAre(layer, group, p, 0);
    var sorted := Sorting.Sort(ByIdentity, cs);
    var best := Winner(sorted, |sorted|);
    Sorting.SameMultisetSameMembers(sorted, cs);
    assert best in sorted && best in cs;
    var k :| 0 <= k < |group.instances| && TakesPart(layer, group, group.instances[k], p)
             && best == ContributionOf(group.instances[k], p);
    winner := group.instances[k];
    forall other | other in group.instances && TakesPart(layer, group, other, p)
      ensures other.weight < winner.weight || (other.weight == winner.weight && winner.identity <= other.identity)
    {
      var j :| 0 <= j < |group.instances| && group.instances[j] == other;
      assert MadeBy(layer, group, p, |group.instances|, ContributionOf(other, p));
      assert ContributionOf(other, p) in sorted;
      var i :| 0 <= i < |sorted| && sorted[i] == ContributionOf(other, p);
      WinnerWins(sorted, |sorted|, i);
    }
  }

  // ---------------------------------------------------------------- additive groups

  /** An additive group adds its weighted samples, by group weight and layer weight. */
  lemma {:induction false} AdditiveAdds(ops: QuatOps, layer: Layer, g: nat, p: Property, input: MixValue)
    requires layer.weight > 0.0 && OnlyGroup(layer, g, p) && layer.groups[g].additive
    requires p in {PositionX, PositionY, PositionZ} && input.Number? && SamplesOfKind(layer, layer.groups[g], p, input)
    ensures var group, change := layer.groups[g], LayerChange(ops, layer, Some(input), p);
      && change.Some? && change.value.Number?
      && change.value.value
         == input.value + PartSum(layer, group, p, 0, |group.instances|) * (group.weight * layer.weight)
  {
    var group, cs := layer.groups[g], GroupOffers(layer, layer.groups[g], p);
    ChangeOfOne(ops, layer, g, p, input);
    GroupMixIs(ops, layer, group, p, input, cs);
    KindOfContributions(layer, group, p, input);
    ContributionsAre(layer, group, p, 0);
  }

  /** Additive numbers, one contribution more: its value is added by its own weight and the share of the group. */
  lemma {:induction false} AdditiveNumber(ops: QuatOps, base: real, cs: seq<Contribution>, c: Contribution, share: real)
    ensures AdditiveValue(ops, Number(base), [], share) == Some(Number(base))
    ensures var before, after :=
        AdditiveValue(ops, Number(base), cs, share), AdditiveValue(ops, Number(base), cs + [c], share);
      && (after.Some? <==> before.Some? && c.value.Number?)
      && (after.Some? ==> before.value.Number? && after.value.Number?
                          && after.value.value == before.value.value + c.value.value * (c.weight * share))
  {
    var more := cs + [c];
    SumsOfPrefix(more, cs, |cs|, 0);
    assert AllNumbers(more) <==> AllNumbers(cs) && c.value.Number? by {
      if AllNumbers(more) {
        forall i | 0 <= i < |cs| ensures cs[i].value.Number? { assert more[i] == cs[i]; }
        assert more[|cs|] == c;
      }
    }
    if AllNumbers(more) {
      Distribute(WeightedSum(cs, |cs|, 0), Weighted(c, 0), share);
      Reordered(c.weight, c.value.value, share);
    }
  }

  lemma Reordered(w: real, v: real, s: real)
    ensures (w * v) * s == v * (w * s)
  {
  }

  /** Additive scales, one contribution more: every component is multiplied by its factor, drawn from one towards it by
      weight and share; factors that are not positive, or not so once drawn, fail. */
  lemma {:induction false} AdditiveScale(ops: QuatOps, base: MixValue, cs: seq<Contribution>, c: Contribution,
                                         share: real)
    requires base.Triple?
    ensures AdditiveValue(ops, base, [], share) == Some(base)
    ensures var before, after := AdditiveValue(ops, base, cs, share), AdditiveValue(ops, base, cs + [c], share);
      && (after.Some? <==> before.Some? && Scales(c, share))
      && (after.Some? ==>
            && before.value.Triple? && after.value.Triple?
            && after.value.x == before.value.x * Drawn(c, share, 0)
            && after.value.y == before.value.y * Drawn(c, share, 1)
            && after.value.z == before.value.z * Drawn(c, share, 2))
  {
    ScaledAllowed(cs, c, share);
    OneMoreScaled(base.x, cs, c, share, 0);
    OneMoreScaled(base.y, cs, c, share, 1);
    OneMoreScaled(base.z, cs, c, share, 2);
  }

  predicate Scales(c: Contribution, share: real) {
    && c.value.Triple? && c.value.x > 0.0 && c.value.y > 0.0 && c.value.z > 0.0
    && Drawn(c, share, 0) > 0.0 && Drawn(c, share, 1) > 0.0 && Drawn(c, share, 2) > 0.0
  }

  /** The factor, drawn from one towards the sample by weight and share. */
  function Drawn(c: Contribution, share: real, component: nat): real {
    1.0 + (Part(c.value, component) - 1.0) * (c.weight * share)
  }

  lemma {:induction false} OneMoreScaled(base: real, cs: seq<Contribution>, c: Contribution, share: real,
                                         component: nat)
    ensures Scaled(base, cs + [c], |cs| + 1, share, component)
         == Scaled(base, cs, |cs|, share, component) * Drawn(c, share, component)
  {
    ScaledOfPrefix(base, cs + [c], cs, |cs|, share, component);
    FactorIs(c, share, component);
  }

  lemma {:induction false} FactorIs(c: Contribution, share: real, component: nat, layers: nat := 3)
    ensures ScaleFactor(c, share, component, layers) == Drawn(c, share, component)
    decreases layers
  {
    if layers > 0 { FactorIs(c, share, component, layers - 1); }
  }

  lemma ScaledAllowed(cs: seq<Contribution>, c: Contribution, share: real)
    ensures ScalesAllowed(cs + [c], share) <==> ScalesAllowed(cs, share) && Scales(c, share)
  {
    var more := cs + [c];
    FactorIs(c, share, 0);
    FactorIs(c, share, 1);
    FactorIs(c, share, 2);
    assert more[|cs|] == c;
    assert forall i :: 0 <= i < |cs| ==> more[i] == cs[i];
  }

  // ---------------------------------------------------------------- rotations

  function QuatPart(q: Quat, component: nat): real {
    if component == 0 then q.x else if component == 1 then q.y else if component == 2 then q.z else q.w
  }

  lemma {:induction false} AccumulateIs(reference: Quat, sum: Quat, q: Quat, weight: real, layers: nat := 3)
    ensures var side := if Dot(reference, q) < 0.0 then -1.0 else 1.0;
      forall k: nat :: QuatPart(Accumulate(reference, sum, q, weight, layers), k)
                       == QuatPart(sum, k) + side * QuatPart(q, k) * weight
    decreases layers
  {
    if layers > 0 { AccumulateIs(reference, sum, q, weight, layers - 1); }
  }

  /** The sum of rotations, one contribution more: each component is added by its share of the total weight, on the side
      of the reference. */
  lemma {:induction false} AlignedSumAdds(reference: Quat, cs: seq<Contribution>, c: Contribution, total: real)
    requires total > 0.0
    ensures AlignedSum(reference, [], 0, total) == Some(Quat(0.0, 0.0, 0.0, 0.0))
    ensures var before, after := AlignedSum(reference, cs, |cs|, total),
        AlignedSum(reference, cs + [c], |cs| + 1, total);
      && (after.Some? <==> before.Some? && c.value.Turn?)
      && (after.Some? ==>
            var q := c.value.quat;
            var dot := q.x * reference.x + q.y * reference.y + q.z * reference.z + q.w * reference.w;
            var side := if dot < 0.0 then -1.0 else 1.0;
            forall k: nat :: QuatPart(after.value, k)
                             == QuatPart(before.value, k) + side * QuatPart(c.value.quat, k) * (c.weight / total))
  {
    AlignedOfPrefix(reference, cs + [c], cs, |cs|, total);
    var before := AlignedSum(reference, cs, |cs|, total);
    if before.Some? && c.value.Turn? { AccumulateIs(reference, before.value, c.value.quat, c.weight / total); }
  }

  lemma {:induction false} AlignedOfPrefix(reference: Quat, a: seq<Contribution>, b: seq<Contribution>, count: nat,
                                           total: real)
    requires count <= |a| && count <= |b| && total > 0.0 && forall i :: 0 <= i < count ==> a[i] == b[i]
    ensures AlignedSum(reference, a, count, total) == AlignedSum(reference, b, count, total)
    decreases count
  {
    if count > 0 { AlignedOfPrefix(reference, a, b, count - 1, total); }
  }

  /** An override of rotations turns the input towards the normalized sum, first by the group's weight and then by the
      layer's. */
  lemma {:induction false} OverrideTurns(ops: QuatOps, layer: Layer, g: nat, p: Property, q: Quat)
    requires layer.weight > 0.0 && OnlyGroup(layer, g, p) && !layer.groups[g].additive && !IsDiscrete(p)
    requires GroupOffers(layer, layer.groups[g], p) != []
    requires Sorting.Sort(ByIdentity, GroupOffers(layer, layer.groups[g], p))[0].value.Turn?
    ensures
      var sorted, change :=
        Sorting.Sort(ByIdentity, GroupOffers(layer, layer.groups[g], p)), LayerChange(ops, layer, Some(Turn(q)), p);
      var total := TotalWeight(sorted, |sorted|);
      && total > 0.0
      && var sum := AlignedSum(sorted[0].value.quat, sorted, |sorted|, total);
      && var mean := if sum.Some? then ops.normalize(sum.value) else None;
      && var grouped := if mean.Some? then ops.slerp(q, mean.value, layer.groups[g].weight) else None;
      && var layered := if grouped.Some? then ops.slerp(q, grouped.value, layer.weight) else None;
      change == if layered.Some? then Some(Turn(layered.value)) else None
  {
    var group, cs := layer.groups[g], GroupOffers(layer, layer.groups[g], p);
    var sorted := Sorting.Sort(ByIdentity, cs);
    ChangeOfOne(ops, layer, g, p, Turn(q));
    GroupMixIs(ops, layer, group, p, Turn(q), cs);
    SortedPositive(cs);
    WeightsArePositive(sorted, |sorted|);
    var value := WeightedOverride(ops, cs, p);
    if value.Ok? {
      LerpMixIs(ops, Turn(q), value.value, group.weight);
      var groupOutput := LerpMix(ops, Turn(q), value.value, group.weight);
      if groupOutput.Ok? { LerpMixIs(ops, Turn(q), groupOutput.value, layer.weight); }
    }
  }

  /** An additive turn: the logarithms add up by weight and share, and the input is multiplied by the exponential of
      their sum from the right. */
  lemma {:induction false} AdditiveTurns(ops: QuatOps, q: Quat, cs: seq<Contribution>, c: Contribution, share: real)
    ensures TangentsOf(ops, [], 0, share) == (0.0, 0.0, 0.0)
    ensures TurnsAllowed(ops, cs + [c]) <==> TurnsAllowed(ops, cs) && c.value.Turn? && ops.log(c.value.quat).Some?
    ensures TurnsAllowed(ops, cs + [c]) ==>
      var before, after := TangentsOf(ops, cs, |cs|, share), TangentsOf(ops, cs + [c], |cs| + 1, share);
      var log, weight := ops.log(c.value.quat).value, c.weight * share;
      && after.0 == before.0 + log.0 * weight && after.1 == before.1 + log.1 * weight
      && after.2 == before.2 + log.2 * weight
    ensures
      var t := TangentsOf(ops, cs, |cs|, share);
      var delta := ops.exp(t.0, t.1, t.2);
      var turned := if delta.Some? then ops.normalize(MultiplyQuat(q, delta.value)) else None;
      AdditiveValue(ops, Turn(q), cs, share)
      == if TurnsAllowed(ops, cs) && turned.Some? then Some(Turn(turned.value)) else None
  {
    var more := cs + [c];
    forall k: nat ensures TangentSum(ops, more, |cs|, share, k) == TangentSum(ops, cs, |cs|, share, k) {
      TangentsOfPrefix(ops, more, cs, |cs|, share, k);
    }
    assert more[|cs|] == c && forall i :: 0 <= i < |cs| ==> more[i] == cs[i];
  }

  function Sum(p: Quat, q: Quat): Quat { Quat(p.x + q.x, p.y + q.y, p.z + q.z, p.w + q.w) }

  /** The product of rotations is Hamilton's: one, i, j and k from the right act as they should (i times j is k, j times
      k is i, k times i is j, and each squared is minus one). */
  lemma HamiltonProduct(p: Quat)
    ensures MultiplyQuat(p, Quat(0.0, 0.0, 0.0, 1.0)) == p
    ensures MultiplyQuat(p, Quat(1.0, 0.0, 0.0, 0.0)) == Quat(p.w, p.z, -p.y, -p.x)
    ensures MultiplyQuat(p, Quat(0.0, 1.0, 0.0, 0.0)) == Quat(-p.z, p.w, p.x, -p.y)
    ensures MultiplyQuat(p, Quat(0.0, 0.0, 1.0, 0.0)) == Quat(p.y, -p.x, p.w, -p.z)
  {
  }

  /** And it is linear in both factors. */
  lemma ProductIsLinear(p: Quat, q: Quat, r: Quat)
    ensures MultiplyQuat(p, Sum(q, r)) == Sum(MultiplyQuat(p, q), MultiplyQuat(p, r))
  {
  }

  lemma ProductIsLinearOnTheLeft(p: Quat, q: Quat, r: Quat)
    ensures MultiplyQuat(Sum(q, r), p) == Sum(MultiplyQuat(q, p), MultiplyQuat(r, p))
  {
  }
}
