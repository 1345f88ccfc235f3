/**
 Several holders of one resource manager's leases: whatever the others do, a scope stays in good order, with a
 correspondingly changed account of what lies outside it.
 */
module SharedScopes {
  import opened Wrappers
  import opened AssetDatabases
  import opened ResourceManagers
  import Pools = ResourcePools
  import S = ResourceScopes

  type Leases = map<AssetType, multiset<Pools.Key>>

  /** The live leases changed exactly as the account of the others' leases did. */
  ghost predicate OthersActed(outside: Leases, later: Leases, w: S.World, r: S.World)
    requires S.WorldGood(w) && S.WorldGood(r)
  {
    forall t: AssetType :: t in outside && t in later && r.ledgers[t].live + outside[t] == w.ledgers[t].live + later[t]
  }

  lemma Cancel(live: multiset<Pools.Key>, outside: multiset<Pools.Key>, held: multiset<Pools.Key>,
               after: multiset<Pools.Key>, later: multiset<Pools.Key>)
    requires live == outside + held && after + outside == live + later
    ensures after == later + held
  {
    forall k ensures after[k] == (later + held)[k] { assert (after + outside)[k] == (live + later)[k]; }
  }

  /** A scope survives whatever the others do with their own leases. */
  lemma {:induction false} OthersKeep(cfg: S.Config, outside: Leases, later: Leases, st: S.State, r: S.World)
    requires S.StateGood(cfg, outside, st) && S.WorldGood(r) && OthersActed(outside, later, st.world, r)
    ensures S.StateGood(cfg, later, S.State(r, st.scope))
  {
    var entries := st.scope.entries;
    S.BalancedMeans(outside, st.world, entries, |entries|);
    S.BalancedMeans(later, r, entries, |entries|);
    forall t: AssetType ensures t in later && r.ledgers[t].live == later[t] + S.LeasesOf(entries, |entries|, t) {
      Cancel(st.world.ledgers[t].live, outside[t], S.LeasesOf(entries, |entries|, t), r.ledgers[t].live, later[t]);
    }
  }

  // ---------------------------------------------------------------- single operations of the others

  lemma {:induction false} AccountIsTotal(cfg: S.Config, outside: Leases, st: S.State)
    requires S.StateGood(cfg, outside, st)
    ensures forall t: AssetType :: t in outside && outside[t] <= st.world.ledgers[t].live
  {
    S.BalancedMeans(outside, st.world, st.scope.entries, |st.scope.entries|);
  }

  /** One lease more lies outside. */
  lemma {:induction false} OthersGain(cfg: S.Config, outside: Leases, st: S.State, r: S.World, assetType: AssetType,
                                      key: Pools.Key)
    requires S.StateGood(cfg, outside, st) && S.WorldGood(r) && S.Leased(st.world, r, assetType, key)
    ensures assetType in outside
    ensures S.StateGood(cfg, outside[assetType := outside[assetType] + multiset{key}], S.State(r, st.scope))
  {
    AccountIsTotal(cfg, outside, st);
    OthersKeep(cfg, outside, outside[assetType := outside[assetType] + multiset{key}], st, r);
  }

  /** One lease less does. */
  lemma {:induction false} OthersLose(cfg: S.Config, outside: Leases, st: S.State, r: S.World, assetType: AssetType,
                                      key: Pools.Key)
    requires S.StateGood(cfg, outside, st) && S.WorldGood(r) && S.Leased(r, st.world, assetType, key)
    requires assetType in outside && key in outside[assetType]
    ensures S.StateGood(cfg, outside[assetType := outside[assetType] - multiset{key}], S.State(r, st.scope))
  {
    AccountIsTotal(cfg, outside, st);
    LosesOne(st.world.ledgers[assetType].live, r.ledgers[assetType].live, outside[assetType], key);
    var later := outside[assetType := outside[assetType] - multiset{key}];
    assert OthersActed(outside, later, st.world, r);
    OthersKeep(cfg, outside, later, st, r);
  }

  lemma LosesOne(w: multiset<Pools.Key>, r: multiset<Pools.Key>, outside: multiset<Pools.Key>, key: Pools.Key)
    requires w == r + multiset{key} && key in outside
    ensures r + outside == w + (outside - multiset{key})
  {
    assert outside - multiset{key} + multiset{key} == outside;
  }

  lemma {:induction false} OthersDoNothing(cfg: S.Config, outside: Leases, st: S.State, r: S.World)
    requires S.StateGood(cfg, outside, st) && S.WorldGood(r) && S.SameLeases(st.world, r)
    ensures S.StateGood(cfg, outside, S.State(r, st.scope))
  {
    AccountIsTotal(cfg, outside, st);
    OthersKeep(cfg, outside, outside, st, r);
  }

  /** Another holder loads: one lease more lies outside, or none. */
  lemma {:induction false} OtherLoads(cfg: S.Config, provider: nat -> Option<Pools.Blob>, outside: Leases, st: S.State,
                                      assetType: AssetType, id: string)
    requires S.StateGood(cfg, outside, st)
    ensures assetType in outside
    ensures var (r, key) := S.Load(cfg, provider, st.world, assetType, id);
      S.StateGood(cfg, if key.Ok? then outside[assetType := outside[assetType] + multiset{key.value}] else outside,
                  S.State(r, st.scope))
  {
    AccountIsTotal(cfg, outside, st);
    S.LoadLeases(cfg, provider, st.world, assetType, id);
    var (r, key) := S.Load(cfg, provider, st.world, assetType, id);
    if key.Ok? { OthersGain(cfg, outside, st, r, assetType, key.value); } else { OthersDoNothing(cfg, outside, st, r); }
  }

  lemma {:induction false} OtherTakesFallback(cfg: S.Config, outside: Leases, st: S.State, assetType: AssetType)
    requires S.StateGood(cfg, outside, st)
    ensures assetType in outside
    ensures var (r, key) := S.TakeFallback(st.world, assetType);
      S.StateGood(cfg, outside[assetType := outside[assetType] + multiset{key}], S.State(r, st.scope))
  {
    S.FallbackLeases(st.world, assetType);
    var (r, key) := S.TakeFallback(st.world, assetType);
    OthersGain(cfg, outside, st, r, assetType, key);
  }

  lemma {:induction false} OtherDrops(cfg: S.Config, outside: Leases, st: S.State, assetType: AssetType, key: Pools.Key)
    requires S.StateGood(cfg, outside, st) && assetType in outside && key in outside[assetType]
    ensures key in st.world.ledgers[assetType].live
    ensures S.StateGood(cfg, outside[assetType := outside[assetType] - multiset{key}],
                        S.State(S.DropLease(st.world, assetType, key), st.scope))
  {
    AccountIsTotal(cfg, outside, st);
    S.DropLeases(st.world, assetType, key);
    OthersLose(cfg, outside, st, S.DropLease(st.world, assetType, key), assetType, key);
  }

  /** An operation on one pool that leaves its leases alone. */
  lemma {:induction false} OtherTouches(cfg: S.Config, outside: Leases, st: S.State, assetType: AssetType,
                                        op: Pools.Operation)
    requires S.StateGood(cfg, outside, st) && Pools.Owned(st.world.ledgers[assetType], op)
    requires Pools.Do(st.world.ledgers[assetType], op).live == st.world.ledgers[assetType].live
    ensures var after := st.world.ledgers[assetType := Pools.Do(st.world.ledgers[assetType], op)];
      S.StateGood(cfg, outside, S.State(st.world.(ledgers := after), st.scope))
  {
    OthersDoNothing(cfg, outside, st,
                    st.world.(ledgers := st.world.ledgers[assetType := Pools.Do(st.world.ledgers[assetType], op)]));
  }

  lemma {:induction false} OtherUnloads(cfg: S.Config, outside: Leases, st: S.State, assetType: AssetType,
                                        key: Pools.Key)
    requires S.StateGood(cfg, outside, st)
    ensures var op := Pools.Other(Pools.UnloadHandle(key));
      var after := st.world.ledgers[assetType := Pools.Do(st.world.ledgers[assetType], op)];
      S.StateGood(cfg, outside, S.State(st.world.(ledgers := after), st.scope))
  {
    Pools.UnloadIs(st.world.ledgers[assetType], key);
    OtherTouches(cfg, outside, st, assetType, Pools.Other(Pools.UnloadHandle(key)));
  }

  lemma {:induction false} OtherSweeps(cfg: S.Config, outside: Leases, st: S.State, assetType: AssetType)
    requires S.StateGood(cfg, outside, st)
    ensures var op := Pools.Other(Pools.Sweep);
      var after := st.world.ledgers[assetType := Pools.Do(st.world.ledgers[assetType], op)];
      S.StateGood(cfg, outside, S.State(st.world.(ledgers := after), st.scope))
  {
    Pools.SweepIs(st.world.ledgers[assetType]);
    OtherTouches(cfg, outside, st, assetType, Pools.Other(Pools.Sweep));
  }

  // ---------------------------------------------------------------- two scopes on one manager

  /** The leases of these entries are among the account. */
  ghost predicate Among(entries: seq<S.Entry>, outside: Leases) {
    forall t: AssetType :: t in outside && S.LeasesOf(entries, |entries|, t) <= outside[t]
  }

  /** The account after the entries changed. */
  ghost function Recounted(outside: Leases, before: seq<S.Entry>, after: seq<S.Entry>): Leases {
    map t | t in outside :: outside[t] - S.LeasesOf(before, |before|, t) + S.LeasesOf(after, |after|, t)
  }

  lemma RecountedActs(w: multiset<Pools.Key>, r: multiset<Pools.Key>, own: multiset<Pools.Key>,
                      before: multiset<Pools.Key>, after: multiset<Pools.Key>, outside: multiset<Pools.Key>)
    requires w == own + before && r == own + after && before <= outside
    ensures r + outside == w + (outside - before + after)
  {
    forall k ensures (r + outside)[k] == (w + (outside - before + after))[k] { assert before[k] <= outside[k]; }
  }

  /** A change of one scope's leases leaves the other scope in good order. */
  lemma {:induction false} OtherScopeChanges(cfg: S.Config, own: Leases, before: S.State, after: S.State,
                                             outside: Leases, scope: S.Scope)
    requires S.StateGood(cfg, own, before) && S.StateGood(cfg, own, after)
    requires S.StateGood(cfg, outside, S.State(before.world, scope)) && Among(before.scope.entries, outside)
    ensures var later := Recounted(outside, before.scope.entries, after.scope.entries);
      S.StateGood(cfg, later, S.State(after.world, scope)) && Among(after.scope.entries, later)
  {
    var a, b := before.scope.entries, after.scope.entries;
    var later := Recounted(outside, a, b);
    S.BalancedMeans(own, before.world, a, |a|);
    S.BalancedMeans(own, after.world, b, |b|);
    AccountIsTotal(cfg, outside, S.State(before.world, scope));
    forall t: AssetType
      ensures t in outside && t in later
      ensures after.world.ledgers[t].live + outside[t] == before.world.ledgers[t].live + later[t]
    {
      RecountedActs(before.world.ledgers[t].live, after.world.ledgers[t].live, own[t], S.LeasesOf(a, |a|, t),
                    S.LeasesOf(b, |b|, t), outside[t]);
    }
    OthersKeep(cfg, outside, later, S.State(before.world, scope), after.world);
  }

  ghost predicate Apart(first: ResourceScope, second: ResourceScope)
    reads first, second, first.manager, second.manager
  {
    && first != second && first.manager == second.manager && first.Valid() && second.Valid()
    && Among(first.entries, second.outside) && Among(second.entries, first.outside)
  }

  /** A request on one scope keeps the other one usable, and the two apart. */
  method RequestBeside(first: ResourceScope, second: ResourceScope, n: S.Name, policy: S.Policy)
    returns (key: Option<Pools.Key>, outcome: S.Outcome)
    requires Apart(first, second)
    modifies first`entries, first`index, first.manager, second`outside
    ensures Apart(first, second) && second.entries == old(second.entries)
    ensures S.RequestResult(old(first.State()), n, policy, old(first.Acquisition(n)), first.State(), key, outcome)
  {
    ghost var before := first.State();
    key, outcome := first.Request(n, policy);
    OtherScopeChanges(first.manager.cfg, first.outside, before, first.State(), second.outside,
                      S.Scope(second.entries, second.index));
    second.Rebase(Recounted(second.outside, before.scope.entries, first.entries));
  }

  /** So does giving one scope up. */
  method ClearBeside(first: ResourceScope, second: ResourceScope)
    requires Apart(first, second)
    modifies first`entries, first`index, first.manager, second`outside
    ensures Apart(first, second) && second.entries == old(second.entries) && first.entries == []
  {
    ghost var before := first.State();
    first.Clear();
    OtherScopeChanges(first.manager.cfg, first.outside, before, first.State(), second.outside,
                      S.Scope(second.entries, second.index));
    second.Rebase(Recounted(second.outside, before.scope.entries, first.entries));
  }

  /** A second scope on a manager starts apart from the first. */
  method OpenBeside(first: ResourceScope) returns (second: ResourceScope)
    requires first.Valid()
    ensures fresh(second) && Apart(first, second) && second.entries == []
  {
    second := new ResourceScope(first.manager);
    StartsApart(first.manager.World(), first.outside, first.entries, second.outside);
  }

  lemma {:induction false} StartsApart(w: S.World, outside: Leases, entries: seq<S.Entry>, everything: Leases)
    requires S.WorldGood(w) && S.Balanced(outside, w, entries, |entries|) && S.Balanced(everything, w, [], 0)
    ensures Among(entries, everything) && Among([], outside)
  {
    S.BalancedMeans(outside, w, entries, |entries|);
    S.BalancedMeans(everything, w, [], 0);
    forall t: AssetType ensures t in everything && S.LeasesOf(entries, |entries|, t) <= everything[t] {
      assert everything[t] == outside[t] + S.LeasesOf(entries, |entries|, t);
    }
  }
}
