/**
 The animation mixer over one object: layers in ascending priority, blend groups within a layer, clip
 instances within a group.  A property changes in a tier of equal priority exactly where one layer, through
 one supported group, contributes it.
 */
module AnimationMixer {
  import opened Wrappers
  import opened MixValues
  import Sorting

  // ---------------------------------------------------------------- property masks

  const PROPERTIES: seq<Property> :=
    [PositionX, PositionY, PositionZ, RotationOf, ScaleOf, FovY, Visible, Material, Opacity, Tint]

  lemma EveryProperty(p: Property)
    ensures p in PROPERTIES
  {
    match p
    case PositionX => assert PROPERTIES[0] == p;
    case PositionY => assert PROPERTIES[1] == p;
    case PositionZ => assert PROPERTIES[2] == p;
    case RotationOf => assert PROPERTIES[3] == p;
    case ScaleOf => assert PROPERTIES[4] == p;
    case FovY => assert PROPERTIES[5] == p;
    case Visible => assert PROPERTIES[6] == p;
    case Material => assert PROPERTIES[7] == p;
    case Opacity => assert PROPERTIES[8] == p;
    case Tint => assert PROPERTIES[9] == p;
  }

  /** The layers only keep the verifier from unfolding the names; NameIs is how it is used. */
  function NameOf(p: Property, layers: nat := 3): string
    decreases p, layers
  {
    if layers > 0 then NameOf(p, layers - 1) else PlainName(p)
  }

  function PlainName(p: Property): string {
    match p
    case PositionX => "transform.position.x"
    case PositionY => "transform.position.y"
    case PositionZ => "transform.position.z"
    case RotationOf => "transform.rotation"
    case ScaleOf => "transform.scale"
    case FovY => "camera.fovY"
    case Visible => "render.visible"
    case Material => "render.material"
    case Opacity => "material.opacity"
    case Tint => "material.tint"
  }

  lemma {:induction false} NameIs(p: Property, layers: nat := 3)
    ensures NameOf(p, layers) == PlainName(p)
    decreases layers
  {
    if layers > 0 { NameIs(p, layers - 1); }
  }

  datatype PropertyMask = PropertyMask(properties: seq<string>, prefixes: seq<string>)

  predicate MaskAllows(mask: PropertyMask, p: Property) {
    NameOf(p) in mask.properties || exists i :: 0 <= i < |mask.prefixes| && mask.prefixes[i] <= NameOf(p)
  }

  /** The names the chart reader knows; a mask can only be written in terms of them. */
  const KNOWN_NAMES: seq<string> :=
    ["material.opacity", "material.tint", "render.material", "render.visible", "transform.position.x",
     "transform.position.y", "transform.position.z", "transform.rotation", "transform.scale"]

  function MaskProperties(mask: PropertyMask): set<string> {
    (set i | 0 <= i < |mask.properties| :: mask.properties[i])
    + (set i, k | 0 <= i < |mask.prefixes| && 0 <= k < |KNOWN_NAMES|
       && mask.prefixes[i] <= KNOWN_NAMES[k] :: KNOWN_NAMES[k])
  }

  predicate MasksOverlap(left: PropertyMask, right: PropertyMask) {
    MaskProperties(left) * MaskProperties(right) != {}
  }

  lemma KnownName(p: Property)
    requires p != FovY
    ensures exists k :: 0 <= k < |KNOWN_NAMES| && KNOWN_NAMES[k] == NameOf(p)
  {
    NameIs(p);
    match p
    case PositionX => assert KNOWN_NAMES[4] == NameOf(p);
    case PositionY => assert KNOWN_NAMES[5] == NameOf(p);
    case PositionZ => assert KNOWN_NAMES[6] == NameOf(p);
    case RotationOf => assert KNOWN_NAMES[7] == NameOf(p);
    case ScaleOf => assert KNOWN_NAMES[8] == NameOf(p);
    case Visible => assert KNOWN_NAMES[3] == NameOf(p);
    case Material => assert KNOWN_NAMES[2] == NameOf(p);
    case Opacity => assert KNOWN_NAMES[0] == NameOf(p);
    case Tint => assert KNOWN_NAMES[1] == NameOf(p);
  }

  /** Two masks that both allow an animated property are found to overlap by the reader. */
  lemma SharedPropertyOverlaps(left: PropertyMask, right: PropertyMask, p: Property)
    requires p != FovY && MaskAllows(left, p) && MaskAllows(right, p)
    ensures MasksOverlap(left, right)
  {
    AllowedIsListed(left, p);
    AllowedIsListed(right, p);
    assert NameOf(p) in MaskProperties(left) * MaskProperties(right);
  }

  lemma AllowedIsListed(mask: PropertyMask, p: Property)
    requires p != FovY && MaskAllows(mask, p)
    ensures NameOf(p) in MaskProperties(mask)
  {
    KnownName(p);
  }

  // ---------------------------------------------------------------- what contributes

  datatype ClipInstance = ClipInstance(identity: nat, weight: real, mask: PropertyMask,
                                       samples: map<Property, MixValue>)

  datatype Group = Group(additive: bool, weight: real, instances: seq<ClipInstance>)

  datatype Layer = Layer(identity: nat, priority: int, weight: real, mask: PropertyMask, groups: seq<Group>)

  predicate InstanceOffers(mask: PropertyMask, instance: ClipInstance, p: Property) {
    instance.weight > 0.0 && p in instance.samples && MaskAllows(mask, p) && MaskAllows(instance.mask, p)
  }

  /** The contributions of a group's first instances to a property. */
  function Offers(mask: PropertyMask, group: Group, p: Property, count: nat): (r: seq<Contribution>)
    requires count <= |group.instances|
    ensures AllPositive(r)
  {
    if count == 0 then []
    else
      var before := Offers(mask, group, p, count - 1);
      var instance := group.instances[count - 1];
      if InstanceOffers(mask, instance, p)
      then before + [Contribution(instance.identity, instance.weight, instance.samples[p])] else before
  }

  function GroupOffers(layer: Layer, group: Group, p: Property): (r: seq<Contribution>)
    ensures AllPositive(r)
  {
    if group.weight > 0.0 then Offers(layer.mask, group, p, |group.instances|) else []
  }

  /** Whether a group may change a property at all. */
  predicate Accepts(layer: Layer, group: Group, p: Property) {
    && (group.additive ==> IsAdditiveSupported(p))
    && (IsDiscrete(p) ==> !group.additive && layer.weight == 1.0 && group.weight == 1.0)
  }

  /** The value a group makes of a layer's input; nothing where mixing fails.  The layers only keep the
      verifier from unfolding it wherever it is mentioned; GroupMixIs is how it is used. */
  function GroupMix(ops: QuatOps, layer: Layer, group: Group, p: Property, input: MixValue, cs: seq<Contribution>,
                    layers: nat := 3)
    : Option<MixValue>
    requires cs != [] && AllPositive(cs)
    decreases group, layers
  {
    if layers > 0 then GroupMix(ops, layer, group, p, input, cs, layers - 1)
    else PlainGroupMix(ops, layer, group, p, input, cs)
  }

  lemma {:induction false} GroupMixIs(ops: QuatOps, layer: Layer, group: Group, p: Property, input: MixValue,
                                      cs: seq<Contribution>, layers: nat := 3)
    requires cs != [] && AllPositive(cs)
    ensures GroupMix(ops, layer, group, p, input, cs, layers) == PlainGroupMix(ops, layer, group, p, input, cs)
    decreases layers
  {
    if layers > 0 { GroupMixIs(ops, layer, group, p, input, cs, layers - 1); }
  }

  function PlainGroupMix(ops: QuatOps, layer: Layer, group: Group, p: Property, input: MixValue,
                         cs: seq<Contribution>): Option<MixValue>
    requires cs != [] && AllPositive(cs)
  {
    if group.additive then AdditiveValue(ops, input, cs, Times(group.weight, layer.weight))
    else
      var value := WeightedOverride(ops, cs, p);
      if value.Err? then None
      else if IsDiscrete(p) then Some(value.value)
      else
        var groupOutput := LerpMix(ops, input, value.value, group.weight);
        if groupOutput.Err? then None
        else
          var layerOutput := LerpMix(ops, input, groupOutput.value, layer.weight);
          if layerOutput.Err? then None else Some(layerOutput.value)
  }

  // ---------------------------------------------------------------- one layer, group by group

  /** What a layer holds for a property after some groups. */
  datatype Slot = Untouched | Held(value: MixValue) | Discarded

  /** One more group; nothing where the whole evaluation fails. */
  function SlotStep(ops: QuatOps, layer: Layer, input: Option<MixValue>, p: Property, slot: Slot,
                    group: Group): Option<Slot> {
    var cs := GroupOffers(layer, group, p);
    if cs == [] || slot.Discarded? then Some(slot)
    else if slot.Held? || !Accepts(layer, group, p) then Some(Discarded)
    else if input.None? then None
    else
      var value := GroupMix(ops, layer, group, p, input.value, cs);
      if value.None? then None else Some(Held(value.value))
  }

  function SlotAfter(ops: QuatOps, layer: Layer, input: Option<MixValue>, p: Property, start: Slot,
                     groups: seq<Group>, count: nat)
    : Option<Slot>
    requires count <= |groups|
  {
    if count == 0 then Some(start)
    else
      var before := SlotAfter(ops, layer, input, p, start, groups, count - 1);
      if before.None? then None else SlotStep(ops, layer, input, p, before.value, groups[count - 1])
  }

  /** The groups of one mode, in order. */
  function PassOf(groups: seq<Group>, additive: bool, count: nat): seq<Group>
    requires count <= |groups|
  {
    if count == 0 then []
    else
      var before := PassOf(groups, additive, count - 1);
      if groups[count - 1].additive == additive then before + [groups[count - 1]] else before
  }

  /** First all override groups, then all additive ones. */
  function Ordered(layer: Layer): seq<Group> {
    PassOf(layer.groups, false, |layer.groups|) + PassOf(layer.groups, true, |layer.groups|)
  }

  function LayerSlot(ops: QuatOps, layer: Layer, input: Option<MixValue>, p: Property): Option<Slot> {
    SlotAfter(ops, layer, input, p, Untouched, Ordered(layer), |Ordered(layer)|)
  }

  /** The groups that contribute to a property. */
  function Contributors(layer: Layer, p: Property, groups: seq<Group>, count: nat): (r: seq<Group>)
    requires count <= |groups|
    ensures forall i :: 0 <= i < |r| ==> GroupOffers(layer, r[i], p) != []
  {
    if count == 0 then []
    else
      var before := Contributors(layer, p, groups, count - 1);
      if GroupOffers(layer, groups[count - 1], p) != [] then before + [groups[count - 1]] else before
  }

  /** The change a layer proposes for a property, said without any order: there is one exactly when a single
      group contributes, it is supported, and mixing it into the input works. */
  function PlainChange(ops: QuatOps, layer: Layer, input: Option<MixValue>, p: Property): Option<MixValue> {
    var contributors := Contributors(layer, p, layer.groups, |layer.groups|);
    if !(layer.weight > 0.0) || |contributors| != 1 || !Accepts(layer, contributors[0], p) || input.None? then None
    else GroupMix(ops, layer, contributors[0], p, input.value, GroupOffers(layer, contributors[0], p))
  }

  /** The same.  The layers only keep the verifier from unfolding it wherever it is mentioned; ChangeIs is how
      it is used. */
  function LayerChange(ops: QuatOps, layer: Layer, input: Option<MixValue>, p: Property,
                       layers: nat := 3): Option<MixValue>
    decreases layer, layers
  {
    if layers > 0 then LayerChange(ops, layer, input, p, layers - 1) else PlainChange(ops, layer, input, p)
  }

  lemma {:induction false} ChangeIs(ops: QuatOps, layer: Layer, input: Option<MixValue>, p: Property, layers: nat := 3)
    ensures LayerChange(ops, layer, input, p, layers) == PlainChange(ops, layer, input, p)
    decreases layers
  {
    if layers > 0 { ChangeIs(ops, layer, input, p, layers - 1); }
  }

  /** A slot is untouched, held or discarded as none, one supported, or any other choice of groups has
      contributed. */
  ghost predicate SlotFits(ops: QuatOps, layer: Layer, input: Option<MixValue>, p: Property, slot: Slot,
                           contributors: seq<Group>)
    requires forall i :: 0 <= i < |contributors| ==> GroupOffers(layer, contributors[i], p) != []
  {
    if |contributors| == 0 then slot == Untouched
    else if |contributors| == 1 && Accepts(layer, contributors[0], p) then
      input.Some? && slot.Held?
      && GroupMix(ops, layer, contributors[0], p, input.value, GroupOffers(layer, contributors[0], p))
          == Some(slot.value)
    else slot == Discarded
  }

  lemma StepFits(ops: QuatOps, layer: Layer, input: Option<MixValue>, p: Property, slot: Slot,
                 contributors: seq<Group>, group: Group)
    requires forall i :: 0 <= i < |contributors| ==> GroupOffers(layer, contributors[i], p) != []
    requires SlotFits(ops, layer, input, p, slot, contributors) && GroupOffers(layer, group, p) != []
    requires SlotStep(ops, layer, input, p, slot, group).Some?
    ensures SlotFits(ops, layer, input, p, SlotStep(ops, layer, input, p, slot, group).value, contributors + [group])
  {
  }

  lemma {:induction false} SlotCounts(ops: QuatOps, layer: Layer, input: Option<MixValue>, p: Property,
                                      groups: seq<Group>, count: nat)
    requires count <= |groups| && SlotAfter(ops, layer, input, p, Untouched, groups, count).Some?
    ensures SlotFits(ops, layer, input, p, SlotAfter(ops, layer, input, p, Untouched, groups, count).value,
                     Contributors(layer, p, groups, count))
    decreases count
  {
    if count > 0 {
      SlotCounts(ops, layer, input, p, groups, count - 1);
      var before := SlotAfter(ops, layer, input, p, Untouched, groups, count - 1).value;
      if GroupOffers(layer, groups[count - 1], p) != [] {
        StepFits(ops, layer, input, p, before, Contributors(layer, p, groups, count - 1), groups[count - 1]);
      }
    }
  }

  // ---------------------------------------------------------------- the order of groups and instances

  lemma {:induction false} ContributorCount(layer: Layer, p: Property, groups: seq<Group>, count: nat, g: Group)
    requires count <= |groups|
    ensures var contributors := Contributors(layer, p, groups, count);
      Sorting.Occurrences(contributors, |contributors|, g)
      == if GroupOffers(layer, g, p) != [] then Sorting.Occurrences(groups, count, g) else 0
    decreases count
  {
    if count > 0 {
      var before, last := Contributors(layer, p, groups, count - 1), groups[count - 1];
      ContributorCount(layer, p, groups, count - 1, g);
      if GroupOffers(layer, last, p) != [] {
        assert Contributors(layer, p, groups, count) == before + [last];
        Sorting.OccurrencesAppend(before, last, g);
      } else {
        assert Contributors(layer, p, groups, count) == before;
      }
    }
  }

  lemma CountOfContributors(layer: Layer, p: Property, groups: seq<Group>, g: Group)
    ensures multiset(Contributors(layer, p, groups, |groups|))[g]
         == if GroupOffers(layer, g, p) != [] then multiset(groups)[g] else 0
  {
    ContributorCount(layer, p, groups, |groups|, g);
    Sorting.OccurrencesIsCount(groups, g);
    Sorting.OccurrencesIsCount(Contributors(layer, p, groups, |groups|), g);
  }

  lemma {:induction false} ContributorsFollowMultiset(layer: Layer, p: Property, a: seq<Group>, b: seq<Group>)
    requires multiset(a) == multiset(b)
    ensures multiset(Contributors(layer, p, a, |a|)) == multiset(Contributors(layer, p, b, |b|))
  {
    var x, y := Contributors(layer, p, a, |a|), Contributors(layer, p, b, |b|);
    forall g ensures multiset(x)[g] == multiset(y)[g] { SameCountOfContributors(layer, p, a, b, g); }
  }

  lemma SameCountOfContributors(layer: Layer, p: Property, a: seq<Group>, b: seq<Group>, g: Group)
    requires multiset(a) == multiset(b)
    ensures multiset(Contributors(layer, p, a, |a|))[g] == multiset(Contributors(layer, p, b, |b|))[g]
  {
    CountOfContributors(layer, p, a, g);
    CountOfContributors(layer, p, b, g);
  }

  lemma {:induction false} PassCount(groups: seq<Group>, additive: bool, count: nat, g: Group)
    requires count <= |groups|
    ensures var pass := PassOf(groups, additive, count);
      Sorting.Occurrences(pass, |pass|, g) == if g.additive == additive then Sorting.Occurrences(groups, count, g)
          else 0
    decreases count
  {
    if count > 0 {
      PassCount(groups, additive, count - 1, g);
      Sorting.OccurrencesAppend(PassOf(groups, additive, count - 1), groups[count - 1], g);
    }
  }

  /** The two passes together visit every group once. */
  lemma PassesCover(layer: Layer)
    ensures multiset(Ordered(layer)) == multiset(layer.groups)
  {
    var groups := layer.groups;
    var first, second := PassOf(groups, false, |groups|), PassOf(groups, true, |groups|);
    forall g ensures multiset(first + second)[g] == multiset(groups)[g] {
      PassCount(groups, false, |groups|, g);
      PassCount(groups, true, |groups|, g);
      Sorting.OccurrencesJoin(first, second, g);
      Sorting.OccurrencesIsCount(groups, g);
      Sorting.OccurrencesIsCount(first + second, g);
    }
  }

  /** The pass over override groups and then additive ones holds exactly the layer's change. */
  lemma {:induction false} SlotIsChange(ops: QuatOps, layer: Layer, input: Option<MixValue>, p: Property)
    requires layer.weight > 0.0 && LayerSlot(ops, layer, input, p).Some?
    ensures var slot := LayerSlot(ops, layer, input, p).value;
      LayerChange(ops, layer, input, p) == if slot.Held? then Some(slot.value) else None
  {
    var ordered := Ordered(layer);
    ChangeIs(ops, layer, input, p);
    SlotCounts(ops, layer, input, p, ordered, |ordered|);
    PassesCover(layer);
    ContributorsFollowMultiset(layer, p, layer.groups, ordered);
    Sorting.SameSingle(Contributors(layer, p, layer.groups, |layer.groups|),
                       Contributors(layer, p, ordered, |ordered|));
  }

  /** The order of a layer's groups does not matter to the change it proposes. */
  lemma {:induction false} ChangeIgnoresGroupOrder(ops: QuatOps, layer: Layer, other: Layer, input: Option<MixValue>,
                                                   p: Property)
    requires other == layer.(groups := other.groups) && multiset(layer.groups) == multiset(other.groups)
    ensures LayerChange(ops, layer, input, p) == LayerChange(ops, other, input, p)
  {
    var x, y := Contributors(layer, p, layer.groups, |layer.groups|),
        Contributors(other, p, other.groups, |other.groups|);
    ChangeIs(ops, layer, input, p);
    ChangeIs(ops, other, input, p);
    assert multiset(x) == multiset(y) by {
      ContributorsFollowMultiset(layer, p, layer.groups, other.groups);
      SameContributors(layer, other, p, other.groups, |other.groups|);
    }
    Sorting.SameSingle(x, y);
    if |x| == 1 { SameMix(ops, layer, other, x[0], input, p); }
  }

  lemma SameMix(ops: QuatOps, layer: Layer, other: Layer, group: Group, input: Option<MixValue>, p: Property)
    requires other == layer.(groups := other.groups)
    ensures GroupOffers(layer, group, p) == GroupOffers(other, group, p)
    ensures (Accepts(layer, group, p) <==> Accepts(other, group, p))
    ensures GroupOffers(layer, group, p) != [] && input.Some? ==>
      GroupMix(ops, layer, group, p, input.value, GroupOffers(layer, group, p))
      == GroupMix(ops, other, group, p, input.value, GroupOffers(other, group, p))
  {
    if GroupOffers(layer, group, p) != [] && input.Some? {
      GroupMixIs(ops, layer, group, p, input.value, GroupOffers(layer, group, p));
      GroupMixIs(ops, other, group, p, input.value, GroupOffers(other, group, p));
    }
  }

  lemma {:induction false} SameContributors(layer: Layer, other: Layer, p: Property, groups: seq<Group>, count: nat)
    requires other == layer.(groups := other.groups) && count <= |groups|
    ensures Contributors(layer, p, groups, count) == Contributors(other, p, groups, count)
    decreases count
  {
    if count > 0 { SameContributors(layer, other, p, groups, count - 1); }
  }

  /** What one instance offers, as a contribution. */
  function ContributionOf(instance: ClipInstance, p: Property): Contribution
    requires p in instance.samples
  {
    Contribution(instance.identity, instance.weight, instance.samples[p])
  }

  ghost predicate DistinctInstances(instances: seq<ClipInstance>) {
    forall i, j :: 0 <= i < j < |instances| ==> instances[i].identity != instances[j].identity
  }

  lemma {:induction false} OffersAreDistinct(mask: PropertyMask, group: Group, p: Property, count: nat)
    requires count <= |group.instances| && DistinctInstances(group.instances)
    ensures DistinctIdentities(Offers(mask, group, p, count))
    ensures forall c :: c in Offers(mask, group, p, count) <==>
      exists k :: 0 <= k < count && InstanceOffers(mask, group.instances[k], p)
          && c == ContributionOf(group.instances[k], p)
    decreases count
  {
    if count > 0 {
      OffersAreDistinct(mask, group, p, count - 1);
      var before, instance := Offers(mask, group, p, count - 1), group.instances[count - 1];
      if InstanceOffers(mask, instance, p) {
        forall i | 0 <= i < |before| ensures before[i].identity != instance.identity { assert before[i] in before; }
      }
    }
  }

  lemma AllOffersDistinct(mask: PropertyMask, group: Group, p: Property)
    requires DistinctInstances(group.instances)
    ensures DistinctIdentities(Offers(mask, group, p, |group.instances|))
    ensures Sorting.Distinct(Offers(mask, group, p, |group.instances|))
  {
    OffersAreDistinct(mask, group, p, |group.instances|);
  }

  /** The same contributions whatever the order of the instances. */
  lemma {:induction false} OffersFollowInstances(mask: PropertyMask, a: Group, b: Group, p: Property)
    requires b == a.(instances := b.instances) && multiset(a.instances) == multiset(b.instances)
    requires DistinctInstances(a.instances) && DistinctInstances(b.instances)
    ensures multiset(Offers(mask, a, p, |a.instances|)) == multiset(Offers(mask, b, p, |b.instances|))
  {
    AllOffersDistinct(mask, a, p);
    AllOffersDistinct(mask, b, p);
    OffersWithin(mask, a, b, p);
    OffersWithin(mask, b, a, p);
    Sorting.DistinctSameMembers(Offers(mask, a, p, |a.instances|), Offers(mask, b, p, |b.instances|));
  }

  lemma {:induction false} OffersWithin(mask: PropertyMask, a: Group, b: Group, p: Property)
    requires multiset(a.instances) == multiset(b.instances)
    requires DistinctInstances(a.instances) && DistinctInstances(b.instances)
    ensures forall c :: c in Offers(mask, a, p, |a.instances|) ==> c in Offers(mask, b, p, |b.instances|)
  {
    Sorting.SameMultisetSameMembers(a.instances, b.instances);
    forall c | c in Offers(mask, a, p, |a.instances|) ensures c in Offers(mask, b, p, |b.instances|) {
      OfferMoves(mask, a, b, p, c);
    }
  }

  lemma OfferMoves(mask: PropertyMask, a: Group, b: Group, p: Property, c: Contribution)
    requires (forall i :: i in a.instances ==> i in b.instances) && DistinctInstances(a.instances)
    requires DistinctInstances(b.instances)
    requires c in Offers(mask, a, p, |a.instances|)
    ensures c in Offers(mask, b, p, |b.instances|)
  {
    OffersAreDistinct(mask, a, p, |a.instances|);
    OffersAreDistinct(mask, b, p, |b.instances|);
    var k :| 0 <= k < |a.instances| && InstanceOffers(mask, a.instances[k], p)
        && c == ContributionOf(a.instances[k], p);
    assert a.instances[k] in b.instances;
    var m :| 0 <= m < |b.instances| && b.instances[m] == a.instances[k];
  }

  /** The order of a group's instances does not matter to what it makes of its input. */
  lemma {:induction false} MixIgnoresInstanceOrder(ops: QuatOps, layer: Layer, a: Group, b: Group, p: Property,
                                                   input: MixValue)
    requires b == a.(instances := b.instances) && multiset(a.instances) == multiset(b.instances)
    requires DistinctInstances(a.instances) && DistinctInstances(b.instances)
    ensures (GroupOffers(layer, a, p) == []) == (GroupOffers(layer, b, p) == [])
    ensures GroupOffers(layer, a, p) != [] ==>
      GroupMix(ops, layer, a, p, input, GroupOffers(layer, a, p))
          == GroupMix(ops, layer, b, p, input, GroupOffers(layer, b, p))
  {
    if a.weight > 0.0 {
      var x, y := Offers(layer.mask, a, p, |a.instances|), Offers(layer.mask, b, p, |b.instances|);
      OffersFollowInstances(layer.mask, a, b, p);
      assert |x| == |multiset(x)| == |multiset(y)| == |y|;
      AllOffersDistinct(layer.mask, a, p);
      if x != [] { MixIgnoresOrder(ops, layer, a, b, p, input, x, y); }
    }
  }

  lemma MixIgnoresOrder(ops: QuatOps, layer: Layer, a: Group, b: Group, p: Property, input: MixValue,
                        x: seq<Contribution>, y: seq<Contribution>)
    requires a.additive == b.additive && a.weight == b.weight && x != [] && y != []
    requires multiset(x) == multiset(y) && AllPositive(x) && AllPositive(y) && DistinctIdentities(x)
    ensures GroupMix(ops, layer, a, p, input, x) == GroupMix(ops, layer, b, p, input, y)
  {
    GroupMixIs(ops, layer, a, p, input, x);
    GroupMixIs(ops, layer, b, p, input, y);
    if a.additive {
      AdditiveIgnoresOrder(ops, input, x, y, Times(a.weight, layer.weight));
    } else {
      OverrideIgnoresOrder(ops, x, y, p);
    }
  }

  // ---------------------------------------------------------------- tiers of equal priority

  function InputOf(current: map<Property, MixValue>, p: Property): Option<MixValue> {
    if p in current then Some(current[p]) else None
  }

  /** The layers of a tier that propose a change of a property. */
  function ChangingLayers(ops: QuatOps, tier: seq<Layer>, input: Option<MixValue>, p: Property,
                          count: nat): (r: seq<Layer>)
    requires count <= |tier|
    ensures forall i :: 0 <= i < |r| ==> LayerChange(ops, r[i], input, p).Some?
  {
    if count == 0 then []
    else
      var before := ChangingLayers(ops, tier, input, p, count - 1);
      if LayerChange(ops, tier[count - 1], input, p).Some? then before + [tier[count - 1]] else before
  }

  /** A tier changes a property exactly where one of its layers proposes a change. */
  function TierChange(ops: QuatOps, tier: seq<Layer>, current: map<Property, MixValue>, p: Property): Option<MixValue> {
    var input := InputOf(current, p);
    var changing := ChangingLayers(ops, tier, input, p, |tier|);
    if |changing| == 1 then LayerChange(ops, changing[0], input, p) else None
  }

  /** Who has claimed a property within a tier. */
  datatype Claim = Unclaimed | Claimed(owner: nat, value: MixValue) | Conflicted(owner: nat)

  function ClaimStep(claim: Claim, layer: Layer, change: Option<MixValue>): Claim {
    if change.None? then claim
    else if !claim.Unclaimed? && claim.owner != layer.identity then Conflicted(claim.owner)
    else if claim.Conflicted? then claim
    else Claimed(layer.identity, change.value)
  }

  function ClaimAfter(ops: QuatOps, tier: seq<Layer>, input: Option<MixValue>, p: Property, count: nat): Claim
    requires count <= |tier|
  {
    if count == 0 then Unclaimed
    else ClaimStep(ClaimAfter(ops, tier, input, p, count - 1), tier[count - 1],
                   LayerChange(ops, tier[count - 1], input, p))
  }

  ghost predicate DistinctLayers(layers: seq<Layer>) {
    forall i, j :: 0 <= i < j < |layers| ==> layers[i].identity != layers[j].identity
  }

  /** With distinct identities a property is claimed, or in conflict, as one or several layers change it. */
  ghost predicate ClaimFits(ops: QuatOps, input: Option<MixValue>, p: Property, claim: Claim, changing: seq<Layer>)
    requires forall i :: 0 <= i < |changing| ==> LayerChange(ops, changing[i], input, p).Some?
  {
    if |changing| == 0 then claim == Unclaimed
    else if |changing| == 1 then claim == Claimed(changing[0].identity, LayerChange(ops, changing[0], input, p).value)
    else claim == Conflicted(changing[0].identity)
  }

  lemma {:induction false} ClaimCounts(ops: QuatOps, tier: seq<Layer>, input: Option<MixValue>, p: Property, count: nat)
    requires count <= |tier| && DistinctLayers(tier)
    ensures ClaimFits(ops, input, p, ClaimAfter(ops, tier, input, p, count), ChangingLayers(ops, tier, input, p, count))
    ensures forall i :: 0 <= i < |ChangingLayers(ops, tier, input, p, count)| ==>
      exists k :: 0 <= k < count && tier[k] == ChangingLayers(ops, tier, input, p, count)[i]
    decreases count
  {
    if count > 0 { ClaimCounts(ops, tier, input, p, count - 1); }
  }

  /** The claims of a tier come down to its change. */
  lemma {:induction false} ClaimIsChange(ops: QuatOps, tier: seq<Layer>, current: map<Property, MixValue>, p: Property)
    requires DistinctLayers(tier)
    ensures var claim := ClaimAfter(ops, tier, InputOf(current, p), p, |tier|);
      TierChange(ops, tier, current, p) == if claim.Claimed? then Some(claim.value) else None
  {
    ClaimCounts(ops, tier, InputOf(current, p), p, |tier|);
  }

  lemma {:induction false} ChangingCount(ops: QuatOps, tier: seq<Layer>, input: Option<MixValue>, p: Property,
                                         count: nat, layer: Layer)
    requires count <= |tier|
    ensures var changing := ChangingLayers(ops, tier, input, p, count);
      Sorting.Occurrences(changing, |changing|, layer)
      == if LayerChange(ops, layer, input, p).Some? then Sorting.Occurrences(tier, count, layer) else 0
    decreases count
  {
    if count > 0 {
      ChangingCount(ops, tier, input, p, count - 1, layer);
      var before, last := ChangingLayers(ops, tier, input, p, count - 1), tier[count - 1];
      if LayerChange(ops, last, input, p).Some? {
        assert ChangingLayers(ops, tier, input, p, count) == before + [last];
        Sorting.OccurrencesAppend(before, last, layer);
      }
    }
  }

  /** The order of the layers in a tier does not matter. */
  lemma {:induction false} TierIgnoresOrder(ops: QuatOps, a: seq<Layer>, b: seq<Layer>,
                                            current: map<Property, MixValue>, p: Property)
    requires multiset(a) == multiset(b)
    ensures TierChange(ops, a, current, p) == TierChange(ops, b, current, p)
  {
    var input := InputOf(current, p);
    var x, y := ChangingLayers(ops, a, input, p, |a|), ChangingLayers(ops, b, input, p, |b|);
    forall layer ensures multiset(x)[layer] == multiset(y)[layer] { SameCountOfChanging(ops, a, b, input, p, layer); }
    Sorting.SameSingle(x, y);
  }

  lemma {:induction false} SameCountOfChanging(ops: QuatOps, a: seq<Layer>, b: seq<Layer>, input: Option<MixValue>,
                                               p: Property, layer: Layer)
    requires multiset(a) == multiset(b)
    ensures multiset(ChangingLayers(ops, a, input, p, |a|))[layer]
        == multiset(ChangingLayers(ops, b, input, p, |b|))[layer]
  {
    ChangingCount(ops, a, input, p, |a|, layer);
    ChangingCount(ops, b, input, p, |b|, layer);
    Sorting.OccurrencesIsCount(a, layer);
    Sorting.OccurrencesIsCount(b, layer);
    Sorting.OccurrencesIsCount(ChangingLayers(ops, a, input, p, |a|), layer);
    Sorting.OccurrencesIsCount(ChangingLayers(ops, b, input, p, |b|), layer);
  }

  // ---------------------------------------------------------------- layers the chart reader let through

  /** Clips never sample the camera's field of view. */
  ghost predicate SamplesAnimated(layer: Layer) {
    forall g, k :: 0 <= g < |layer.groups| && 0 <= k < |layer.groups[g].instances| ==>
      FovY !in layer.groups[g].instances[k].samples
  }

  lemma {:induction false} OffersAreAllowed(mask: PropertyMask, group: Group, p: Property, count: nat)
    requires count <= |group.instances| && Offers(mask, group, p, count) != []
    ensures MaskAllows(mask, p) && exists k :: 0 <= k < count && p in group.instances[k].samples
    decreases count
  {
    if !InstanceOffers(mask, group.instances[count - 1], p) { OffersAreAllowed(mask, group, p, count - 1); }
  }

  lemma {:induction false} ContributorsAreGroups(layer: Layer, p: Property, groups: seq<Group>, count: nat)
    requires count <= |groups|
    ensures forall g :: g in Contributors(layer, p, groups, count) ==> g in groups
    decreases count
  {
    if count > 0 { ContributorsAreGroups(layer, p, groups, count - 1); }
  }

  /** A layer only changes properties its mask allows. */
  lemma {:induction false} ChangeIsMasked(ops: QuatOps, layer: Layer, input: Option<MixValue>, p: Property)
    requires LayerChange(ops, layer, input, p).Some? && SamplesAnimated(layer)
    ensures MaskAllows(layer.mask, p) && p != FovY
  {
    ChangeIs(ops, layer, input, p);
    ContributorsAreGroups(layer, p, layer.groups, |layer.groups|);
    var g := Contributors(layer, p, layer.groups, |layer.groups|)[0];
    assert g in layer.groups;
    OffersAreAllowed(layer.mask, g, p, |g.instances|);
  }

  /** Layers whose masks the reader found not to overlap never come into conflict: the tier changes whatever
      any of them changes. */
  lemma {:induction false} DisjointMasksNeverConflict(ops: QuatOps, tier: seq<Layer>,
                                                      current: map<Property, MixValue>, p: Property)
    requires DistinctLayers(tier) && forall i :: 0 <= i < |tier| ==> SamplesAnimated(tier[i])
    requires forall i, j :: 0 <= i < j < |tier| ==> !MasksOverlap(tier[i].mask, tier[j].mask)
    ensures !ClaimAfter(ops, tier, InputOf(current, p), p, |tier|).Conflicted?
    ensures forall i :: 0 <= i < |tier| && LayerChange(ops, tier[i], InputOf(current, p), p).Some? ==>
      TierChange(ops, tier, current, p) == LayerChange(ops, tier[i], InputOf(current, p), p)
  {
    var input := InputOf(current, p);
    ClaimCounts(ops, tier, input, p, |tier|);
    AtMostOneChanges(ops, tier, input, p, |tier|);
    forall i | 0 <= i < |tier| && LayerChange(ops, tier[i], input, p).Some?
      ensures TierChange(ops, tier, current, p) == LayerChange(ops, tier[i], input, p)
    {
      ChangesAreListed(ops, tier, input, p, |tier|, i);
    }
  }

  lemma {:induction false} ChangesAreListed(ops: QuatOps, tier: seq<Layer>, input: Option<MixValue>, p: Property,
                                            count: nat, i: nat)
    requires i < count <= |tier| && LayerChange(ops, tier[i], input, p).Some?
    ensures tier[i] in ChangingLayers(ops, tier, input, p, count)
    decreases count
  {
    if i < count - 1 { ChangesAreListed(ops, tier, input, p, count - 1, i); }
  }

  lemma {:induction false} AtMostOneChanges(ops: QuatOps, tier: seq<Layer>, input: Option<MixValue>, p: Property,
                                            count: nat)
    requires count <= |tier| && forall i :: 0 <= i < |tier| ==> SamplesAnimated(tier[i])
    requires forall i, j :: 0 <= i < j < |tier| ==> !MasksOverlap(tier[i].mask, tier[j].mask)
    ensures |ChangingLayers(ops, tier, input, p, count)| <= 1
    ensures forall i :: 0 <= i < |ChangingLayers(ops, tier, input, p, count)| ==>
      exists k :: 0 <= k < count && tier[k] == ChangingLayers(ops, tier, input, p, count)[i]
    decreases count
  {
    if count > 0 {
      AtMostOneChanges(ops, tier, input, p, count - 1);
      var before, last := ChangingLayers(ops, tier, input, p, count - 1), tier[count - 1];
      if LayerChange(ops, last, input, p).Some? && before != [] {
        var k :| 0 <= k < count - 1 && tier[k] == before[0];
        ChangeIsMasked(ops, last, input, p);
        ChangeIsMasked(ops, tier[k], input, p);
        SharedPropertyOverlaps(tier[k].mask, last.mask, p);
      }
    }
  }

  // ---------------------------------------------------------------- the whole object

  function TierChanges(ops: QuatOps, tier: seq<Layer>, current: map<Property, MixValue>): map<Property, MixValue> {
    map p | p in PROPERTIES && TierChange(ops, tier, current, p).Some? :: TierChange(ops, tier, current, p).value
  }

  predicate LayerBefore(a: Layer, b: Layer) {
    a.priority < b.priority || (a.priority == b.priority && a.identity < b.identity)
  }

  /** The end of the tier that starts here. */
  function TierEnd(layers: seq<Layer>, from: nat, end: nat): (r: nat)
    requires from < end <= |layers|
    ensures end <= r <= |layers|
    decreases |layers| - end
  {
    if end == |layers| || layers[end].priority != layers[from].priority then end else TierEnd(layers, from, end + 1)
  }

  datatype Mixed = Mixed(current: map<Property, MixValue>, accepted: map<Property, MixValue>)

  /** Evaluation fails where mixing fails in some layer of positive weight. */
  ghost predicate TierFails(ops: QuatOps, tier: seq<Layer>, current: map<Property, MixValue>) {
    exists k, p :: 0 <= k < |tier| && tier[k].weight > 0.0 && LayerSlot(ops, tier[k], InputOf(current, p), p).None?
  }

  /** The fold over ascending tiers: each applies its changes to the values the next one starts from. */
  ghost function Evaluated(ops: QuatOps, layers: seq<Layer>, from: nat, st: Mixed): Option<Mixed>
    requires from <= |layers|
    decreases |layers| - from
  {
    if from == |layers| then Some(st)
    else
      var end := TierEnd(layers, from, from + 1);
      var tier := layers[from..end];
      if TierFails(ops, tier, st.current) then None
      else
        var changes := TierChanges(ops, tier, st.current);
        Evaluated(ops, layers, end, Mixed(st.current + changes, st.accepted + changes))
  }

  /** The order in which an object lists its layers does not matter. */
  lemma {:induction false} EvaluationIgnoresListing(ops: QuatOps, a: seq<Layer>, b: seq<Layer>, st: Mixed)
    requires multiset(a) == multiset(b) && DistinctLayers(a)
    ensures Sorting.Sort(LayerBefore, a) == Sorting.Sort(LayerBefore, b)
    ensures Evaluated(ops, Sorting.Sort(LayerBefore, a), 0, st) == Evaluated(ops, Sorting.Sort(LayerBefore, b), 0, st)
  {
    assert Sorting.TotalOn(LayerBefore, a) by {
      forall x, y | x in a && y in a && x != y ensures LayerBefore(x, y) || LayerBefore(y, x) { }
    }
    Sorting.DistinctFollowsMultiset(a, b);
    Sorting.SameMultisetSameMembers(a, b);
    Sorting.SortIgnoresOrder(LayerBefore, a, b);
  }

  // ---------------------------------------------------------------- the evaluation as it runs

  method MixGroup(ops: QuatOps, layer: Layer, group: Group, p: Property, input: MixValue, cs: seq<Contribution>)
    returns (r: Result<MixValue, MixError>)
    requires cs != [] && AllPositive(cs)
    ensures r.Ok? <==> GroupMix(ops, layer, group, p, input, cs).Some?
    ensures r.Ok? ==> GroupMix(ops, layer, group, p, input, cs) == Some(r.value)
  {
    GroupMixIs(ops, layer, group, p, input, cs);
    if group.additive {
      r := ApplyAdditive(ops, input, cs, Times(group.weight, layer.weight));
    } else {
      r := MixOverride(ops, cs, p);
      if r.Err? || IsDiscrete(p) { return; }
      r := LerpMix(ops, input, r.value, group.weight);
      if r.Err? { return; }
      r := LerpMix(ops, input, r.value, layer.weight);
    }
  }

  /** What the two books of a layer say of a property. */
  function SlotOf(values: map<Property, MixValue>, discarded: set<Property>, p: Property): Slot {
    if p in discarded then Discarded else if p in values then Held(values[p]) else Untouched
  }

  ghost function Step(ops: QuatOps, layer: Layer, group: Group, current: map<Property, MixValue>,
                      values: map<Property, MixValue>, discarded: set<Property>, p: Property): Option<Slot>
  {
    SlotStep(ops, layer, InputOf(current, p), p, SlotOf(values, discarded, p), group)
  }

  method StepProperty(ops: QuatOps, layer: Layer, group: Group, current: map<Property, MixValue>, p: Property,
                      values: map<Property, MixValue>, discarded: set<Property>)
    returns (r: Result<(map<Property, MixValue>, set<Property>), MixError>)
    ensures r.Ok? <==> Step(ops, layer, group, current, values, discarded, p).Some?
    ensures r.Ok? ==> Some(SlotOf(r.value.0, r.value.1, p)) == Step(ops, layer, group, current, values, discarded, p)
    ensures r.Ok? ==> forall q :: q != p ==> SlotOf(r.value.0, r.value.1, q) == SlotOf(values, discarded, q)
  {
    var cs := GroupOffers(layer, group, p);
    if cs == [] || p in discarded { return Ok((values, discarded)); }
    if p in values { return Ok((values - {p}, discarded + {p})); }
    if group.additive && !IsAdditiveSupported(p) { return Ok((values, discarded + {p})); }
    if IsDiscrete(p) && (group.additive || layer.weight != 1.0 || group.weight != 1.0)
      { return Ok((values, discarded + {p})); }
    if p !in current { return Err(BaselineMissing); }
    var mixed := MixGroup(ops, layer, group, p, current[p], cs);
    if mixed.Err? { return Err(mixed.error); }
    r := Ok((values[p := mixed.value], discarded));
  }

  method CollectGroup(ops: QuatOps, layer: Layer, group: Group, current: map<Property, MixValue>,
                      values: map<Property, MixValue>, discarded: set<Property>)
    returns (r: Result<(map<Property, MixValue>, set<Property>), MixError>)
    ensures r.Ok? <==> forall p :: Step(ops, layer, group, current, values, discarded, p).Some?
    ensures r.Ok? ==>
      forall p :: Some(SlotOf(r.value.0, r.value.1, p)) == Step(ops, layer, group, current, values, discarded, p)
  {
    var v, d := values, discarded;
    for i := 0 to |PROPERTIES|
      invariant forall j :: 0 <= j < i ==>
        Some(SlotOf(v, d, PROPERTIES[j])) == Step(ops, layer, group, current, values, discarded, PROPERTIES[j])
      invariant forall j :: i <= j < |PROPERTIES| ==>
        SlotOf(v, d, PROPERTIES[j]) == SlotOf(values, discarded, PROPERTIES[j])
    {
      var p := PROPERTIES[i];
      var stepped := StepProperty(ops, layer, group, current, p, v, d);
      if stepped.Err? {
        assert Step(ops, layer, group, current, values, discarded, p).None?;
        return stepped;
      }
      DistinctProperties(i);
      v, d := stepped.value.0, stepped.value.1;
    }
    forall p ensures Some(SlotOf(v, d, p))
        == Step(ops, layer, group, current, values, discarded, p) { EveryProperty(p); }
    r := Ok((v, d));
  }

  lemma DistinctProperties(i: nat)
    requires i < |PROPERTIES|
    ensures forall j :: 0 <= j < |PROPERTIES| && j != i ==> PROPERTIES[j] != PROPERTIES[i]
  {
  }

  /** A slot after several groups, starting from any slot. */
  lemma {:induction false} SlotExtends(ops: QuatOps, layer: Layer, input: Option<MixValue>, p: Property, start: Slot,
                                       groups: seq<Group>, more: seq<Group>, count: nat)
    requires count <= |more|
    ensures var first := SlotAfter(ops, layer, input, p, start, groups, |groups|);
      SlotAfter(ops, layer, input, p, start, groups + more, |groups| + count)
      == if first.None? then None else SlotAfter(ops, layer, input, p, first.value, more, count)
    decreases count
  {
    if count == 0 {
      SlotOfPrefix(ops, layer, input, p, start, groups + more, groups, |groups|);
    } else {
      SlotExtends(ops, layer, input, p, start, groups, more, count - 1);
      assert (groups + more)[|groups| + count - 1] == more[count - 1];
    }
  }

  lemma {:induction false} SlotOfPrefix(ops: QuatOps, layer: Layer, input: Option<MixValue>, p: Property, start: Slot,
                                        a: seq<Group>, b: seq<Group>, count: nat)
    requires count <= |a| && count <= |b| && forall i :: 0 <= i < count ==> a[i] == b[i]
    ensures SlotAfter(ops, layer, input, p, start, a, count) == SlotAfter(ops, layer, input, p, start, b, count)
    decreases count
  {
    if count > 0 { SlotOfPrefix(ops, layer, input, p, start, a, b, count - 1); }
  }

  /** The slot a pass over the groups of one mode leaves. */
  ghost function PassSlot(ops: QuatOps, layer: Layer, current: map<Property, MixValue>, p: Property, start: Slot,
                          additive: bool, count: nat)
    : Option<Slot>
    requires count <= |layer.groups|
  {
    var pass := PassOf(layer.groups, additive, count);
    SlotAfter(ops, layer, InputOf(current, p), p, start, pass, |pass|)
  }

  lemma {:induction false} PassStep(ops: QuatOps, layer: Layer, current: map<Property, MixValue>, p: Property,
                                    start: Slot, additive: bool, count: nat)
    requires count < |layer.groups|
    ensures var before := PassSlot(ops, layer, current, p, start, additive, count);
      PassSlot(ops, layer, current, p, start, additive, count + 1)
      == if before.None? || layer.groups[count].additive != additive then before
         else SlotStep(ops, layer, InputOf(current, p), p, before.value, layer.groups[count])
  {
    var pass, group := PassOf(layer.groups, additive, count), layer.groups[count];
    if group.additive == additive {
      SlotExtends(ops, layer, InputOf(current, p), p, start, pass, [group], 1);
      assert PassOf(layer.groups, additive, count + 1) == pass + [group];
      if SlotAfter(ops, layer, InputOf(current, p), p, start, pass, |pass|).Some? {
        assert SlotAfter(ops, layer, InputOf(current, p), p,
                         SlotAfter(ops, layer, InputOf(current, p), p, start, pass, |pass|).value, [group], 0).Some?;
      }
    }
  }

  lemma {:induction false} FailureStays(ops: QuatOps, layer: Layer, current: map<Property, MixValue>, p: Property,
                                        start: Slot, additive: bool, first: nat, count: nat)
    requires first <= count <= |layer.groups| && PassSlot(ops, layer, current, p, start, additive, first).None?
    ensures PassSlot(ops, layer, current, p, start, additive, count).None?
    decreases count
  {
    if first < count {
      FailureStays(ops, layer, current, p, start, additive, first, count - 1);
      PassStep(ops, layer, current, p, start, additive, count - 1);
    }
  }

  method MixPass(ops: QuatOps, layer: Layer, additive: bool, current: map<Property, MixValue>,
                 values: map<Property, MixValue>, discarded: set<Property>)
    returns (r: Result<(map<Property, MixValue>, set<Property>), MixError>)
    ensures r.Ok? <==> forall p ::
      PassSlot(ops, layer, current, p, SlotOf(values, discarded, p), additive, |layer.groups|).Some?
    ensures r.Ok? ==> forall p ::
      PassSlot(ops, layer, current, p, SlotOf(values, discarded, p), additive, |layer.groups|)
      == Some(SlotOf(r.value.0, r.value.1, p))
  {
    var v, d := values, discarded;
    for k := 0 to |layer.groups|
      invariant forall p ::
        PassSlot(ops, layer, current, p, SlotOf(values, discarded, p), additive, k) == Some(SlotOf(v, d, p))
    {
      var group := layer.groups[k];
      forall p { PassStep(ops, layer, current, p, SlotOf(values, discarded, p), additive, k); }
      if group.additive == additive {
        var collected := CollectGroup(ops, layer, group, current, v, d);
        if collected.Err? {
          PassFailed(ops, layer, current, values, discarded, additive, k, v, d);
          return collected;
        }
        v, d := collected.value.0, collected.value.1;
      }
    }
    r := Ok((v, d));
  }

  lemma PassFailed(ops: QuatOps, layer: Layer, current: map<Property, MixValue>, values: map<Property, MixValue>,
                   discarded: set<Property>, additive: bool, k: nat, v: map<Property, MixValue>, d: set<Property>)
    requires k < |layer.groups| && layer.groups[k].additive == additive
    requires forall p ::
      PassSlot(ops, layer, current, p, SlotOf(values, discarded, p), additive, k) == Some(SlotOf(v, d, p))
    requires !(forall p :: Step(ops, layer, layer.groups[k], current, v, d, p).Some?)
    ensures !(forall p :: PassSlot(ops, layer, current, p, SlotOf(values, discarded, p), additive,
                                   |layer.groups|).Some?)
  {
    var p :| Step(ops, layer, layer.groups[k], current, v, d, p).None?;
    PassStep(ops, layer, current, p, SlotOf(values, discarded, p), additive, k);
    FailureStays(ops, layer, current, p, SlotOf(values, discarded, p), additive, k + 1, |layer.groups|);
  }

  lemma {:induction false} PassesJoin(ops: QuatOps, layer: Layer, current: map<Property, MixValue>, p: Property)
    ensures var first := PassSlot(ops, layer, current, p, Untouched, false, |layer.groups|);
      LayerSlot(ops, layer, InputOf(current, p), p)
      == if first.None? then None else PassSlot(ops, layer, current, p, first.value, true, |layer.groups|)
  {
    var a, b := PassOf(layer.groups, false, |layer.groups|), PassOf(layer.groups, true, |layer.groups|);
    SlotExtends(ops, layer, InputOf(current, p), p, Untouched, a, b, |b|);
  }

  /** One layer of positive weight: its books after both passes are exactly its changes. */
  method MixLayer(ops: QuatOps, layer: Layer, current: map<Property, MixValue>)
    returns (r: Result<map<Property, MixValue>, MixError>)
    requires layer.weight > 0.0
    ensures r.Ok? <==> forall p :: LayerSlot(ops, layer, InputOf(current, p), p).Some?
    ensures r.Ok? ==> forall p :: InputOf(r.value, p) == LayerChange(ops, layer, InputOf(current, p), p)
  {
    forall p { PassesJoin(ops, layer, current, p); }
    var first := MixPass(ops, layer, false, current, map[], {});
    if first.Err? { return Err(first.error); }
    var second := MixPass(ops, layer, true, current, first.value.0, first.value.1);
    if second.Err? { return Err(second.error); }
    forall p ensures LayerSlot(ops, layer, InputOf(current, p), p)
        == Some(SlotOf(second.value.0, second.value.1, p)) { }
    forall p { SlotIsChange(ops, layer, InputOf(current, p), p); }
    r := Ok(map p | p in second.value.0 && p !in second.value.1 :: second.value.0[p]);
  }

  /** What the books of a tier say of a property. */
  function ClaimOf(owners: map<Property, nat>, conflicts: set<Property>, proposed: map<Property, MixValue>,
                   p: Property): Claim {
    if p !in owners then Unclaimed
    else if p in conflicts || p !in proposed then Conflicted(owners[p])
    else Claimed(owners[p], proposed[p])
  }

  method ClaimLayer(layer: Layer, changes: map<Property, MixValue>, owners: map<Property, nat>,
                    conflicts: set<Property>, proposed: map<Property, MixValue>)
    returns (o: map<Property, nat>, c: set<Property>, v: map<Property, MixValue>)
    requires forall p :: p in proposed ==> p in owners && p !in conflicts
    requires forall p :: p in owners <==> p in proposed || p in conflicts
    ensures forall p ::
      ClaimOf(o, c, v, p) == ClaimStep(ClaimOf(owners, conflicts, proposed, p), layer, InputOf(changes, p))
    ensures forall p :: p in v ==> p in o && p !in c
    ensures forall p :: p in o <==> p in v || p in c
  {
    o, c, v := owners, conflicts, proposed;
    for i := 0 to |PROPERTIES|
      invariant forall j :: 0 <= j < i ==>
        ClaimOf(o, c, v, PROPERTIES[j])
        == ClaimStep(ClaimOf(owners, conflicts, proposed, PROPERTIES[j]), layer, InputOf(changes, PROPERTIES[j]))
      invariant forall j :: i <= j < |PROPERTIES| ==>
        ClaimOf(o, c, v, PROPERTIES[j]) == ClaimOf(owners, conflicts, proposed, PROPERTIES[j])
      invariant forall p :: p in v ==> p in o && p !in c
      invariant forall p :: p in o <==> p in v || p in c
    {
      DistinctProperties(i);
      var p := PROPERTIES[i];
      if p in changes {
        if p in o && o[p] != layer.identity {
          c, v := c + {p}, v - {p};
        } else {
          o := o[p := layer.identity];
          if p !in c { v := v[p := changes[p]]; }
        }
      }
    }
    forall p ensures ClaimOf(o, c, v, p)
        == ClaimStep(ClaimOf(owners, conflicts, proposed, p), layer, InputOf(changes, p)) {
      EveryProperty(p);
    }
  }

  /** One tier: what it proposes in the end are exactly its changes. */
  method MixTier(ops: QuatOps, tier: seq<Layer>, current: map<Property, MixValue>)
    returns (r: Result<map<Property, MixValue>, MixError>)
    requires DistinctLayers(tier)
    ensures r.Err? <==> TierFails(ops, tier, current)
    ensures r.Ok? ==> r.value == TierChanges(ops, tier, current)
  {
    var owners: map<Property, nat>, conflicts: set<Property>, proposed: map<Property, MixValue> := map[], {}, map[];
    for k := 0 to |tier|
      invariant forall p :: p in proposed ==> p in owners && p !in conflicts
      invariant forall p :: p in owners <==> p in proposed || p in conflicts
      invariant forall p :: ClaimOf(owners, conflicts, proposed, p) == ClaimAfter(ops, tier, InputOf(current, p), p, k)
      invariant forall j, p :: 0 <= j < k && tier[j].weight > 0.0 ==>
        LayerSlot(ops, tier[j], InputOf(current, p), p).Some?
    {
      if tier[k].weight > 0.0 {
        var changes := MixLayer(ops, tier[k], current);
        if changes.Err? { return Err(changes.error); }
        owners, conflicts, proposed := ClaimLayer(tier[k], changes.value, owners, conflicts, proposed);
      } else {
        forall p { NoWeightNoChange(ops, tier[k], InputOf(current, p), p); }
      }
    }
    forall p { ClaimIsChange(ops, tier, current, p); }
    forall p ensures p in PROPERTIES { EveryProperty(p); }
    r := Ok(proposed);
    forall p ensures InputOf(proposed, p) == TierChange(ops, tier, current, p) {
      assert ClaimOf(owners, conflicts, proposed, p).Claimed? <==> p in proposed;
    }
    assert proposed == TierChanges(ops, tier, current);
  }

  lemma {:induction false} NoWeightNoChange(ops: QuatOps, layer: Layer, input: Option<MixValue>, p: Property)
    requires !(layer.weight > 0.0)
    ensures LayerChange(ops, layer, input, p).None?
  {
    ChangeIs(ops, layer, input, p);
  }

  lemma {:induction false} SortedLayersDistinct(layers: seq<Layer>)
    requires DistinctLayers(layers)
    ensures DistinctLayers(Sorting.Sort(LayerBefore, layers))
  {
    var sorted := Sorting.Sort(LayerBefore, layers);
    Sorting.SameMultisetSameMembers(sorted, layers);
    Sorting.DistinctFollowsMultiset(layers, sorted);
    forall i, j | 0 <= i < j < |sorted| ensures sorted[i].identity != sorted[j].identity {
      assert sorted[i] in layers && sorted[j] in layers by { assert sorted[i] in sorted && sorted[j] in sorted; }
    }
  }

  /** The whole object: layers sorted by priority and identity, tier after tier. */
  method EvaluateObject(ops: QuatOps, layers: seq<Layer>, baseline: map<Property, MixValue>)
    returns (r: Result<Mixed, MixError>)
    requires DistinctLayers(layers)
    ensures r.Ok? <==> Evaluated(ops, Sorting.Sort(LayerBefore, layers), 0, Mixed(baseline, map[])).Some?
    ensures r.Ok? ==> Evaluated(ops, Sorting.Sort(LayerBefore, layers), 0, Mixed(baseline, map[])) == Some(r.value)
  {
    var sorted := Sorting.Sort(LayerBefore, layers);
    SortedLayersDistinct(layers);
    var st, cursor := Mixed(baseline, map[]), 0;
    while cursor < |sorted|
      invariant cursor <= |sorted|
      invariant Evaluated(ops, sorted, cursor, st) == Evaluated(ops, sorted, 0, Mixed(baseline, map[]))
    {
      var end := FindTierEnd(sorted, cursor);
      var tier := sorted[cursor..end];
      var changes := MixTier(ops, tier, st.current);
      OneTier(ops, sorted, cursor, st);
      if changes.Err? { return Err(changes.error); }
      st := Mixed(st.current + changes.value, st.accepted + changes.value);
      cursor := end;
    }
    r := Ok(st);
  }

  method FindTierEnd(layers: seq<Layer>, from: nat) returns (end: nat)
    requires from < |layers|
    ensures from < end <= |layers| && end == TierEnd(layers, from, from + 1)
  {
    end := from + 1;
    while end < |layers| && layers[end].priority == layers[from].priority
      invariant from < end <= |layers| && TierEnd(layers, from, end) == TierEnd(layers, from, from + 1)
    {
      end := end + 1;
    }
  }

  lemma {:induction false} OneTier(ops: QuatOps, layers: seq<Layer>, from: nat, st: Mixed)
    requires from < |layers|
    ensures var end := TierEnd(layers, from, from + 1);
      var tier := layers[from..end];
      var changes := TierChanges(ops, tier, st.current);
      Evaluated(ops, layers, from, st)
      == if TierFails(ops, tier, st.current) then None
         else Evaluated(ops, layers, end, Mixed(st.current + changes, st.accepted + changes))
  {
  }
}
