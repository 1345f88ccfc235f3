/**
 What the evaluation of an object comes to, said by priorities alone: the tiers apply their changes in ascending
 priority, and the greatest priority that changes a property decides it.
 */
module PriorityOrder {
  import opened Wrappers
  import opened MixValues
  import opened AnimationMixer
  import Sorting

  ghost function Greatest(ps: set<int>): (r: int)
    requires ps != {}
    ensures r in ps && forall q :: q in ps ==> q <= r
    decreases |ps|
  {
    assert (forall q :: q !in ps) ==> ps == {};
    var one :| one in ps;
    var above := set q | q in ps && q > one;
    assert forall q :: q in ps ==> q <= one || q in above;
    if above == {} then one
    else
      Smaller(above, ps, one);
      Greatest(above)
  }

  lemma Smaller(a: set<int>, b: set<int>, x: int)
    requires a <= b && x in b && x !in a
    ensures |a| < |b|
  {
    assert b == a + (b - a) && x in b - a;
  }

  ghost function PrioritiesOf(layers: seq<Layer>): set<int> { set layer | layer in layers :: layer.priority }

  ghost function Below(ps: set<int>, priority: int): set<int> { set q | q in ps && q < priority }

  /** The layers of one priority, as the object lists them. */
  ghost function Tier(layers: seq<Layer>, priority: int): seq<Layer> {
    if layers == [] then []
    else
      var before := Tier(layers[..|layers| - 1], priority);
      if layers[|layers| - 1].priority == priority then before + [layers[|layers| - 1]] else before
  }

  /** The values the tiers of these priorities leave, the greatest priority last. */
  ghost function Left(ops: QuatOps, layers: seq<Layer>, ps: set<int>, baseline: map<Property, MixValue>)
    : map<Property, MixValue>
    decreases ps
  {
    if ps == {} then baseline
    else
      var top := Greatest(ps);
      var before := Left(ops, layers, ps - {top}, baseline);
      before + TierChanges(ops, Tier(layers, top), before)
  }

  /** What is accepted for a property: the change of the greatest priority that makes one, on the values the lower
      priorities left. */
  ghost function Decided(ops: QuatOps, layers: seq<Layer>, ps: set<int>, baseline: map<Property, MixValue>,
                         p: Property): Option<MixValue>
    decreases ps
  {
    if ps == {} then None
    else
      var top := Greatest(ps);
      var change := TierChange(ops, Tier(layers, top), Left(ops, layers, ps - {top}, baseline), p);
      if change.Some? then change else Decided(ops, layers, ps - {top}, baseline, p)
  }

  /** Mixing fails in the tier of that priority, on what the lower ones leave. */
  ghost predicate FailsAt(ops: QuatOps, layers: seq<Layer>, baseline: map<Property, MixValue>, priority: int) {
    TierFails(ops, Tier(layers, priority), Left(ops, layers, Below(PrioritiesOf(layers), priority), baseline))
  }

  // ---------------------------------------------------------------- tiers of the sorted layers

  ghost predicate Climbing(sorted: seq<Layer>) {
    forall i, j :: 0 <= i < j < |sorted| ==> sorted[i].priority <= sorted[j].priority
  }

  lemma {:induction false} SortedClimbs(layers: seq<Layer>)
    requires DistinctLayers(layers)
    ensures Climbing(Sorting.Sort(LayerBefore, layers))
  {
    forall i, j | 0 <= i < j < |layers|
        ensures layers[i] != layers[j] { assert layers[i].identity != layers[j].identity; }
    assert Sorting.TotalOn(LayerBefore, layers) by {
      forall x, y | x in layers && y in layers && x != y ensures LayerBefore(x, y) || LayerBefore(y, x) {
        var i :| 0 <= i < |layers| && layers[i] == x;
        var j :| 0 <= j < |layers| && layers[j] == y;
        assert if i < j then x.identity != y.identity else y.identity != x.identity;
      }
    }
    Sorting.SortAscends(LayerBefore, layers);
  }

  lemma {:induction false} TierCounts(layers: seq<Layer>, priority: int, x: Layer)
    ensures multiset(Tier(layers, priority))[x] == if x.priority == priority then multiset(layers)[x] else 0
    decreases |layers|
  {
    if layers != [] {
      var n := |layers| - 1;
      TierCounts(layers[..n], priority, x);
      assert layers == layers[..n] + [layers[n]];
    }
  }

  lemma {:induction false} TierEndIs(sorted: seq<Layer>, from: nat, end: nat)
    requires from < end <= |sorted|
    requires forall k :: from <= k < end ==> sorted[k].priority == sorted[from].priority
    ensures var r := TierEnd(sorted, from, end);
      && (forall k :: from <= k < r ==> sorted[k].priority == sorted[from].priority)
      && (r < |sorted| ==> sorted[r].priority != sorted[from].priority)
    decreases |sorted| - end
  {
    if end < |sorted| && sorted[end].priority == sorted[from].priority { TierEndIs(sorted, from, end + 1); }
  }

  /** A run of one priority in the sorted layers is the tier of that priority. */
  lemma {:induction false} RunIsTier(layers: seq<Layer>, sorted: seq<Layer>, from: nat, end: nat)
    requires multiset(sorted) == multiset(layers) && from < end <= |sorted|
    requires forall k :: 0 <= k < |sorted| ==> (sorted[k].priority == sorted[from].priority <==> from <= k < end)
    ensures multiset(sorted[from..end]) == multiset(Tier(layers, sorted[from].priority))
  {
    var priority := sorted[from].priority;
    var lower, run, upper := sorted[..from], sorted[from..end], sorted[end..];
    assert sorted == lower + run + upper;
    forall x ensures multiset(run)[x] == multiset(Tier(layers, priority))[x] {
      TierCounts(layers, priority, x);
      assert multiset(sorted)[x] == multiset(lower)[x] + multiset(run)[x] + multiset(upper)[x];
      NoneElsewhere(sorted, from, end, x);
    }
  }

  lemma {:induction false} NoneElsewhere(sorted: seq<Layer>, from: nat, end: nat, x: Layer)
    requires from < end <= |sorted|
    requires forall k :: 0 <= k < |sorted| ==> (sorted[k].priority == sorted[from].priority <==> from <= k < end)
    ensures x.priority == sorted[from].priority ==> multiset(sorted[..from])[x] == 0 && multiset(sorted[end..])[x] == 0
    ensures x.priority != sorted[from].priority ==> multiset(sorted[from..end])[x] == 0
  {
    if x in multiset(sorted[..from]) {
      var k :| 0 <= k < from && sorted[..from][k] == x;
      assert sorted[k] == x;
    }
    if x in multiset(sorted[end..]) {
      var k :| 0 <= k < |sorted| - end && sorted[end..][k] == x;
      assert sorted[end + k] == x;
    }
    if x in multiset(sorted[from..end]) {
      var k :| 0 <= k < end - from && sorted[from..end][k] == x;
      assert sorted[from + k] == x;
    }
  }

  lemma {:induction false} SameTierSameChanges(ops: QuatOps, a: seq<Layer>, b: seq<Layer>,
                                               current: map<Property, MixValue>)
    requires multiset(a) == multiset(b)
    ensures TierFails(ops, a, current) <==> TierFails(ops, b, current)
    ensures TierChanges(ops, a, current) == TierChanges(ops, b, current)
    ensures forall p :: TierChange(ops, a, current, p) == TierChange(ops, b, current, p)
  {
    forall p ensures TierChange(ops, a, current, p) == TierChange(ops, b, current, p) {
      TierIgnoresOrder(ops, a, b, current, p);
    }
    if TierFails(ops, a, current) { FailsToo(ops, a, b, current); }
    if TierFails(ops, b, current) { FailsToo(ops, b, a, current); }
  }

  lemma {:induction false} FailsToo(ops: QuatOps, a: seq<Layer>, b: seq<Layer>, current: map<Property, MixValue>)
    requires multiset(a) == multiset(b) && TierFails(ops, a, current)
    ensures TierFails(ops, b, current)
  {
    var k, p :| 0 <= k < |a| && a[k].weight > 0.0 && LayerSlot(ops, a[k], InputOf(current, p), p).None?;
    Sorting.SameMultisetSameMembers(a, b);
    assert a[k] in b;
    var j :| 0 <= j < |b| && b[j] == a[k];
  }

  // ---------------------------------------------------------------- the evaluation

  /** Where the fold over the sorted layers stands before the tier that starts there. */
  ghost predicate Reached(ops: QuatOps, layers: seq<Layer>, baseline: map<Property, MixValue>, sorted: seq<Layer>,
                          from: nat, st: Mixed)
  {
    && from <= |sorted| && multiset(sorted) == multiset(layers) && Climbing(sorted)
    && (0 < from < |sorted| ==> sorted[from - 1].priority < sorted[from].priority)
    && st.current == Left(ops, layers, PrioritiesOf(sorted[..from]), baseline)
    && (forall p :: InputOf(st.accepted, p) == Decided(ops, layers, PrioritiesOf(sorted[..from]), baseline, p))
    && (forall q :: q in PrioritiesOf(sorted[..from]) ==> !FailsAt(ops, layers, baseline, q))
  }

  /** The next tier: its priority is above those passed, and its layers are those of that priority. */
  lemma {:induction false} NextTier(layers: seq<Layer>, sorted: seq<Layer>, from: nat)
    requires multiset(sorted) == multiset(layers) && Climbing(sorted) && from < |sorted|
    requires 0 < from ==> sorted[from - 1].priority < sorted[from].priority
    ensures var end, priority := TierEnd(sorted, from, from + 1), sorted[from].priority;
      && multiset(sorted[from..end]) == multiset(Tier(layers, priority))
      && PrioritiesOf(sorted[..end]) == PrioritiesOf(sorted[..from]) + {priority}
      && (forall q :: q in PrioritiesOf(sorted[..from]) ==> q < priority)
      && Below(PrioritiesOf(layers), priority) == PrioritiesOf(sorted[..from])
      && (end < |sorted| ==> sorted[end - 1].priority < sorted[end].priority)
  {
    var end, priority := TierEnd(sorted, from, from + 1), sorted[from].priority;
    TierEndIs(sorted, from, from + 1);
    forall k | 0 <= k < |sorted| ensures sorted[k].priority == priority <==> from <= k < end {
      if k < from { assert sorted[k].priority <= sorted[from - 1].priority; }
      if k >= end { assert sorted[end].priority <= sorted[k].priority && priority <= sorted[end].priority; }
    }
    RunIsTier(layers, sorted, from, end);
    Passed(layers, sorted, from, end);
  }

  lemma {:induction false} Passed(layers: seq<Layer>, sorted: seq<Layer>, from: nat, end: nat)
    requires multiset(sorted) == multiset(layers) && Climbing(sorted) && from < end <= |sorted|
    requires forall k :: 0 <= k < |sorted| ==> (sorted[k].priority == sorted[from].priority <==> from <= k < end)
    ensures var priority := sorted[from].priority;
      && PrioritiesOf(sorted[..end]) == PrioritiesOf(sorted[..from]) + {priority}
      && (forall q :: q in PrioritiesOf(sorted[..from]) ==> q < priority)
      && Below(PrioritiesOf(layers), priority) == PrioritiesOf(sorted[..from])
  {
    var priority := sorted[from].priority;
    Sorting.SameMultisetSameMembers(sorted, layers);
    forall k | 0 <= k < |sorted| ensures sorted[k].priority < priority <==> k < from { }
    assert forall layer :: layer in sorted[..end] <==> layer in sorted[..from] || layer in sorted[from..end] by {
      assert sorted[..end] == sorted[..from] + sorted[from..end];
    }
    assert sorted[from] in sorted[from..end];
    forall q ensures q in Below(PrioritiesOf(layers), priority) <==> q in PrioritiesOf(sorted[..from]) {
      if q in Below(PrioritiesOf(layers), priority) {
        var layer :| layer in layers && layer.priority == q;
        assert layer in sorted;
        var k :| 0 <= k < |sorted| && sorted[k] == layer;
        assert sorted[..from][k] == layer;
      }
    }
  }

  lemma {:induction false} GreatestOf(ps: set<int>, priority: int)
    requires forall q :: q in ps ==> q < priority
    ensures Greatest(ps + {priority}) == priority && (ps + {priority}) - {priority} == ps
  {
  }

  lemma {:induction false} Climbs(ops: QuatOps, layers: seq<Layer>, baseline: map<Property, MixValue>,
                                  sorted: seq<Layer>, from: nat, st: Mixed)
    requires Reached(ops, layers, baseline, sorted, from, st)
    ensures var r, ps := Evaluated(ops, sorted, from, st), PrioritiesOf(layers);
      && (r.None? <==> exists q :: q in ps && FailsAt(ops, layers, baseline, q))
      && (r.Some? ==>
            && r.value.current == Left(ops, layers, ps, baseline)
            && forall p :: InputOf(r.value.accepted, p) == Decided(ops, layers, ps, baseline, p))
    decreases |sorted| - from
  {
    Sorting.SameMultisetSameMembers(sorted, layers);
    if from == |sorted| {
      assert sorted[..from] == sorted;
      assert PrioritiesOf(sorted) == PrioritiesOf(layers);
    } else {
      var end, priority := TierEnd(sorted, from, from + 1), sorted[from].priority;
      var tier, changes := sorted[from..end], TierChanges(ops, sorted[from..end], st.current);
      NextReached(ops, layers, baseline, sorted, from, st);
      if !TierFails(ops, tier, st.current) {
        Climbs(ops, layers, baseline, sorted, end, Mixed(st.current + changes, st.accepted + changes));
      }
    }
  }

  lemma {:induction false} NextReached(ops: QuatOps, layers: seq<Layer>, baseline: map<Property, MixValue>,
                                       sorted: seq<Layer>, from: nat, st: Mixed)
    requires Reached(ops, layers, baseline, sorted, from, st) && from < |sorted|
    ensures var end := TierEnd(sorted, from, from + 1);
      var tier := sorted[from..end];
      var changes := TierChanges(ops, tier, st.current);
      && sorted[from].priority in PrioritiesOf(layers)
      && (TierFails(ops, tier, st.current) <==> FailsAt(ops, layers, baseline, sorted[from].priority))
      && (!TierFails(ops, tier, st.current) ==>
            Reached(ops, layers, baseline, sorted, end, Mixed(st.current + changes, st.accepted + changes)))
  {
    var end, priority := TierEnd(sorted, from, from + 1), sorted[from].priority;
    NextTier(layers, sorted, from);
    SameTierSameChanges(ops, sorted[from..end], Tier(layers, priority), st.current);
    OneTierUp(ops, layers, baseline, PrioritiesOf(sorted[..from]), priority, st);
    Sorting.SameMultisetSameMembers(sorted, layers);
    assert sorted[from] in layers;
  }

  lemma {:induction false} OneTierUp(ops: QuatOps, layers: seq<Layer>, baseline: map<Property, MixValue>, ps: set<int>,
                                     priority: int, st: Mixed)
    requires st.current == Left(ops, layers, ps, baseline) && forall q :: q in ps ==> q < priority
    requires forall p :: InputOf(st.accepted, p) == Decided(ops, layers, ps, baseline, p)
    ensures var changes := TierChanges(ops, Tier(layers, priority), st.current);
      && st.current + changes == Left(ops, layers, ps + {priority}, baseline)
      && forall p :: InputOf(st.accepted + changes, p) == Decided(ops, layers, ps + {priority}, baseline, p)
  {
    GreatestOf(ps, priority);
    forall p
      ensures InputOf(st.accepted + TierChanges(ops, Tier(layers, priority), st.current), p)
           == Decided(ops, layers, ps + {priority}, baseline, p)
    {
      EveryProperty(p);
    }
  }

  /** However an object lists its layers, its evaluation fails exactly where mixing fails in the tier of some priority
      on what the lower priorities leave; otherwise it leaves what the tiers leave in ascending priority, and accepts
      for every property the change of the greatest priority that makes one. */
  lemma {:induction false} EvaluatedByPriority(ops: QuatOps, layers: seq<Layer>, baseline: map<Property, MixValue>)
    requires DistinctLayers(layers)
    ensures
      var r := Evaluated(ops, Sorting.Sort(LayerBefore, layers), 0, Mixed(baseline, map[]));
      var ps := PrioritiesOf(layers);
      && (r.None? <==> exists q :: q in ps && FailsAt(ops, layers, baseline, q))
      && (r.Some? ==>
            && r.value.current == Left(ops, layers, ps, baseline)
            && forall p :: InputOf(r.value.accepted, p) == Decided(ops, layers, ps, baseline, p))
  {
    var sorted := Sorting.Sort(LayerBefore, layers);
    SortedClimbs(layers);
    assert PrioritiesOf(sorted[..0]) == {};
    Climbs(ops, layers, baseline, sorted, 0, Mixed(baseline, map[]));
  }
}
