/**
 Why a request fails, and what one that succeeds has entered: every failure has a reason on a path of dependencies from
 the asset that was asked for, so that a request without such a reason is granted.
 */
module ResourceReasons {
  import opened Wrappers
  import opened AssetDatabases
  import opened ResourceScopes
  import Pools = ResourcePools
  import Contents = ResourceContents

  predicate Known(db: Database, n: Name) { Find(db, n.id).Some? && Find(db, n.id).value.assetType == n.assetType }

  predicate DependsOn(db: Database, n: Name, m: Name) {
    Known(db, n) && m.id in Find(db, n.id).value.dependencies && Known(db, m)
  }

  /** Each name on the way depends on the next. */
  ghost predicate Path(db: Database, path: seq<Name>, from: Name) {
    && path != [] && path[0] == from
    && forall i, j :: 0 <= i && j == i + 1 && j < |path| ==> DependsOn(db, path[i], path[j])
  }

  ghost predicate Reaches(db: Database, from: Name, to: Name) {
    exists path :: Path(db, path, from) && path[|path| - 1] == to
  }

  lemma PathGrows(db: Database, from: Name, path: seq<Name>)
    requires path != [] && Path(db, path, path[0]) && DependsOn(db, from, path[0])
    ensures Path(db, [from] + path, from)
  {
  }

  /** The error that was raised first, and through how many dependencies it came. */
  function Root(e: Error): Error { if e.DependencyFailed? then Root(e.cause) else e }

  function Distance(e: Error): nat { if e.DependencyFailed? then Distance(e.cause) + 1 else 0 }

  predicate HeldAsFallback(s: Scope, n: Name) {
    n in s.index && s.index[n] < |s.entries| && s.entries[s.index[n]].resolution == FallbackUsed
  }

  /** The reason for an error at the end of a path: what is wrong with that asset, with the provider or with its pool.
      */
  ghost predicate Reason(cfg: Config, provider: nat -> Option<Pools.Blob>, st: State, r: State, depth: nat,
                         visiting: seq<Name>, path: seq<Name>, root: Error)
    requires path != []
  {
    var last := path[|path| - 1];
    match root
    case AssetNotFound => Find(cfg.db, last.id).None?
    case TypeMismatch => Find(cfg.db, last.id).Some? && Find(cfg.db, last.id).value.assetType != last.assetType
    case DepthExceeded => depth + |path| == cfg.maxDependencyDepth + 2
    case CycleFound => last in visiting || last in path[..|path| - 1]
    case DependencyNotInDatabase =>
      Known(cfg.db, last) && exists d :: d in Find(cfg.db, last.id).value.dependencies && Find(cfg.db, d).None?
    case CachedFallbackNotRequired => HeldAsFallback(st.scope, last)
    case SlotLimitReached =>
      last.assetType in r.world.ledgers && |r.world.ledgers[last.assetType].pool.slots| >= 0xFFFF_FFFF
    case ProviderMissing => !cfg.hasProvider
    case LoadFailed => st.world.answered < r.world.answered && Refuses(cfg, provider, r.world.answered - 1)
    case _ => false
  }

  /** The provider's answer to that read is nothing, or too much. */
  predicate Refuses(cfg: Config, provider: nat -> Option<Pools.Blob>, read: nat) {
    cfg.hasProvider && (provider(read).None? || |provider(read).value| > cfg.maxBlobBytes)
  }

  /** A failed acquisition has a reason at the end of a path, as far away as its error says. */
  ghost predicate Explained(cfg: Config, provider: nat -> Option<Pools.Blob>, st: State, r: State, n: Name, depth: nat,
                            visiting: seq<Name>, e: Error)
  {
    exists path :: Path(cfg.db, path, n) && |path| == Distance(e) + 1
                   && Reason(cfg, provider, st, r, depth, visiting, path, Root(e))
  }

  lemma {:induction false} AcquireExplained(cfg: Config, provider: nat -> Option<Pools.Blob>,
                                            outside: map<AssetType, multiset<Pools.Key>>, st: State, n: Name,
                                            depth: nat, visiting: seq<Name>)
    requires StateGood(cfg, outside, st) && depth <= cfg.maxDependencyDepth + 1
    ensures var (r, key) := Acquire(cfg, provider, st, n, depth, visiting);
      && st.world.answered <= r.world.answered
      && (key.Err? ==> Explained(cfg, provider, st, r, n, depth, visiting, key.error))
    decreases cfg.maxDependencyDepth + 1 - depth, 1, 0
  {
    var (r, key) := Acquire(cfg, provider, st, n, depth, visiting);
    if Descends(cfg, st.scope, n, depth, visiting) {
      var dependencies := Find(cfg.db, n.id).value.dependencies;
      AcquireDescends(cfg, provider, st, n, depth, visiting);
      AcquireAllExplained(cfg, provider, outside, st, n, dependencies, 0, depth, visiting);
      AcquireAllKeeps(cfg, provider, outside, st, dependencies, 0, depth, visiting + [n]);
      var (ready, failure) := AcquireAll(cfg, provider, st, dependencies, 0, depth, visiting + [n]);
      if failure.None? {
        assert n in visiting + [n];
        LoadExplained(cfg, provider, outside, st, ready, n, depth, visiting);
      }
    } else if key.Err? {
      assert Path(cfg.db, [n], n) && Reason(cfg, provider, st, r, depth, visiting, [n], Root(key.error));
    }
  }

  lemma LoadExplained(cfg: Config, provider: nat -> Option<Pools.Blob>, outside: map<AssetType, multiset<Pools.Key>>,
                      st: State, ready: State, n: Name, depth: nat, visiting: seq<Name>)
    requires StateGood(cfg, outside, ready) && n !in ready.scope.index && Known(cfg.db, n)
    requires st.world.answered <= ready.world.answered
    requires DependenciesHeld(cfg.db, ready.scope, Find(cfg.db, n.id).value.dependencies, 0)
    ensures var (r, key) := LoadAndAdd(cfg, provider, ready, n);
      && st.world.answered <= r.world.answered
      && (key.Err? ==> Explained(cfg, provider, st, r, n, depth, visiting, key.error))
  {
    var (r, key) := LoadAndAdd(cfg, provider, ready, n);
    LoadAndAddIs(cfg, provider, ready, n);
    LoadAndAddKeeps(cfg, provider, outside, ready, n);
    LoadAnswers(cfg, provider, ready.world, n.assetType, n.id);
    if key.Err? { assert Path(cfg.db, [n], n) && Reason(cfg, provider, st, r, depth, visiting, [n], Root(key.error)); }
  }

  lemma {:induction false} AcquireAllExplained(cfg: Config, provider: nat -> Option<Pools.Blob>,
                                               outside: map<AssetType, multiset<Pools.Key>>, st: State, n: Name,
                                               dependencies: seq<string>, from: nat, depth: nat, visiting: seq<Name>)
    requires StateGood(cfg, outside, st) && depth <= cfg.maxDependencyDepth && from <= |dependencies|
    requires Known(cfg.db, n) && Find(cfg.db, n.id).value.dependencies == dependencies
    ensures var (r, failure) := AcquireAll(cfg, provider, st, dependencies, from, depth, visiting + [n]);
      && st.world.answered <= r.world.answered
      && (failure.Some? ==> Explained(cfg, provider, st, r, n, depth, visiting, failure.value))
    decreases cfg.maxDependencyDepth + 1 - depth, 0, |dependencies| - from
  {
    if from < |dependencies| {
      var d, more := dependencies[from], visiting + [n];
      var (r, failure) := AcquireAll(cfg, provider, st, dependencies, from, depth, more);
      if Find(cfg.db, d).None? {
        assert Path(cfg.db, [n], n) && Reason(cfg, provider, st, r, depth, visiting, [n], Root(failure.value));
      } else {
        var m := Name(Find(cfg.db, d).value.assetType, d);
        AcquireExplained(cfg, provider, outside, st, m, depth + 1, more);
        AcquireKeeps(cfg, provider, outside, st, m, depth + 1, more);
        var (next, key) := Acquire(cfg, provider, st, m, depth + 1, more);
        if key.Err? {
          StepBack(cfg, provider, st, next, n, m, depth, visiting, key.error);
        } else {
          AcquireAllExplained(cfg, provider, outside, next, n, dependencies, from + 1, depth, visiting);
          if failure.Some? { EarlierScope(cfg, provider, st, next, r, n, depth, visiting, failure.value); }
        }
      }
    }
  }

  /** What explains a dependency's failure explains that of what depends on it. */
  lemma StepBack(cfg: Config, provider: nat -> Option<Pools.Blob>, st: State, r: State, n: Name, m: Name, depth: nat,
                 visiting: seq<Name>, e: Error)
    requires DependsOn(cfg.db, n, m) && Explained(cfg, provider, st, r, m, depth + 1, visiting + [n], e)
    ensures Explained(cfg, provider, st, r, n, depth, visiting, DependencyFailed(e))
  {
    var path :| Path(cfg.db, path, m) && |path| == Distance(e) + 1
                && Reason(cfg, provider, st, r, depth + 1, visiting + [n], path, Root(e));
    PathGrows(cfg.db, n, path);
    var longer := [n] + path;
    assert longer[..|longer| - 1] == [n] + path[..|path| - 1];
    assert Reason(cfg, provider, st, r, depth, visiting, longer, Root(DependencyFailed(e)));
  }

  /** What acquisitions add is loaded, so that what is held as a fallback was so before. */
  lemma EarlierScope(cfg: Config, provider: nat -> Option<Pools.Blob>, st: State, next: State, r: State, n: Name,
                     depth: nat, visiting: seq<Name>, e: Error)
    requires IndexExact(st.scope) && IndexExact(next.scope) && Extends(st.scope, next.scope)
    requires st.world.answered <= next.world.answered
    requires Explained(cfg, provider, next, r, n, depth, visiting, e)
    ensures Explained(cfg, provider, st, r, n, depth, visiting, e)
  {
    var path :| Path(cfg.db, path, n) && |path| == Distance(e) + 1
                && Reason(cfg, provider, next, r, depth, visiting, path, Root(e));
    var last := path[|path| - 1];
    if Root(e) == CachedFallbackNotRequired {
      assert next.scope.index[last] < |st.scope.entries|;
      assert st.scope.entries[next.scope.index[last]] == next.scope.entries[next.scope.index[last]];
    }
    assert Reason(cfg, provider, st, r, depth, visiting, path, Root(e));
  }

  // ---------------------------------------------------------------- what is entered

  /** Nothing is entered that what was asked for does not depend on. */
  ghost predicate OnlyReached(db: Database, s: Scope, r: Scope, n: Name) {
    forall m :: m in r.index && m !in s.index ==> Reaches(db, n, m)
  }

  lemma {:induction false} AcquireEnters(cfg: Config, provider: nat -> Option<Pools.Blob>,
                                         outside: map<AssetType, multiset<Pools.Key>>, st: State, n: Name,
                                         depth: nat, visiting: seq<Name>)
    requires StateGood(cfg, outside, st) && depth <= cfg.maxDependencyDepth + 1
    ensures OnlyReached(cfg.db, st.scope, Acquire(cfg, provider, st, n, depth, visiting).0.scope, n)
    decreases cfg.maxDependencyDepth + 1 - depth, 1, 0
  {
    if Descends(cfg, st.scope, n, depth, visiting) {
      var dependencies := Find(cfg.db, n.id).value.dependencies;
      AcquireDescends(cfg, provider, st, n, depth, visiting);
      AcquireAllEnters(cfg, provider, outside, st, n, dependencies, 0, depth, visiting + [n]);
      AcquireAllKeeps(cfg, provider, outside, st, dependencies, 0, depth, visiting + [n]);
      var (ready, failure) := AcquireAll(cfg, provider, st, dependencies, 0, depth, visiting + [n]);
      assert Path(cfg.db, [n], n);
      if failure.None? {
        assert n in visiting + [n];
        LoadAndAddKeeps(cfg, provider, outside, ready, n);
      }
    }
  }

  lemma {:induction false} AcquireAllEnters(cfg: Config, provider: nat -> Option<Pools.Blob>,
                                            outside: map<AssetType, multiset<Pools.Key>>, st: State, n: Name,
                                            dependencies: seq<string>, from: nat, depth: nat, visiting: seq<Name>)
    requires StateGood(cfg, outside, st) && depth <= cfg.maxDependencyDepth && from <= |dependencies|
    requires Known(cfg.db, n) && Find(cfg.db, n.id).value.dependencies == dependencies
    ensures OnlyReached(cfg.db, st.scope, AcquireAll(cfg, provider, st, dependencies, from, depth, visiting).0.scope, n)
    decreases cfg.maxDependencyDepth + 1 - depth, 0, |dependencies| - from
  {
    if from < |dependencies| && Find(cfg.db, dependencies[from]).Some? {
      var m := Name(Find(cfg.db, dependencies[from]).value.assetType, dependencies[from]);
      AcquireEnters(cfg, provider, outside, st, m, depth + 1, visiting);
      AcquireKeeps(cfg, provider, outside, st, m, depth + 1, visiting);
      var (next, key) := Acquire(cfg, provider, st, m, depth + 1, visiting);
      ReachedThrough(cfg.db, st.scope, next.scope, n, m);
      if key.Ok? { AcquireAllEnters(cfg, provider, outside, next, n, dependencies, from + 1, depth, visiting); }
    }
  }

  lemma ReachedThrough(db: Database, s: Scope, r: Scope, n: Name, m: Name)
    requires DependsOn(db, n, m) && OnlyReached(db, s, r, m)
    ensures OnlyReached(db, s, r, n)
  {
    forall other | other in r.index && other !in s.index ensures Reaches(db, n, other) {
      var path :| Path(db, path, m) && path[|path| - 1] == other;
      PathGrows(db, n, path);
    }
  }

  // ---------------------------------------------------------------- requests

  /** A request for an asset that is not held is refused only for a reason, and enters only what was asked for and what
      that depends on. */
  lemma RefusedForAReason(cfg: Config, provider: nat -> Option<Pools.Blob>,
                          outside: map<AssetType, multiset<Pools.Key>>, st: State, n: Name, policy: Policy)
    requires StateGood(cfg, outside, st) && n !in st.scope.index
    ensures var (r, key, outcome) := Request(cfg, provider, outside, st, n, policy);
      && OnlyReached(cfg.db, st.scope, r.scope, n)
      && (!outcome.Granted? ==>
            Explained(cfg, provider, st, Acquire(cfg, provider, st, n, 1, []).0, n, 1, [], outcome.cause))
  {
    RequestAllOrNothing(cfg, provider, outside, st, n, policy);
    AcquireExplained(cfg, provider, outside, st, n, 1, []);
    AcquireEnters(cfg, provider, outside, st, n, 1, []);
    assert Path(cfg.db, [n], n);
  }

  /** Whatever the policy, a request is granted when every path of dependencies ends within the depth limit, all on it
      is in the database and nothing of it held as a fallback, the provider refuses nothing and no pool is full. */
  lemma GoodRequestIsGranted(cfg: Config, provider: nat -> Option<Pools.Blob>, rank: map<string, nat>,
                             outside: map<AssetType, multiset<Pools.Key>>, st: State, n: Name, policy: Policy)
    requires StateGood(cfg, outside, st) && n !in st.scope.index && Known(cfg.db, n)
    requires DatabaseSound(cfg.db) && ClosedAcyclic(cfg.db, rank)
    requires forall path :: Path(cfg.db, path, n) ==> |path| <= cfg.maxDependencyDepth
    requires forall m :: Reaches(cfg.db, n, m) ==> !HeldAsFallback(st.scope, m)
    requires cfg.hasProvider && forall read :: !Refuses(cfg, provider, read)
    requires forall t: AssetType :: t in Acquire(cfg, provider, st, n, 1, []).0.world.ledgers ==>
      |Acquire(cfg, provider, st, n, 1, []).0.world.ledgers[t].pool.slots| < 0xFFFF_FFFF
    ensures Request(cfg, provider, outside, st, n, policy).2.Granted?
  {
    RequestAllOrNothing(cfg, provider, outside, st, n, policy);
    RefusedForAReason(cfg, provider, outside, st, n, policy);
    AcquireNeverStructural(cfg, provider, outside, rank, st, n, 1, []);
    var (r, acquired) := Acquire(cfg, provider, st, n, 1, []);
    if acquired.Err? {
      var e := acquired.error;
      var path :| Path(cfg.db, path, n) && |path| == Distance(e) + 1
                  && Reason(cfg, provider, st, r, 1, [], path, Root(e));
      var last := path[|path| - 1];
      assert Known(cfg.db, last) by { if |path| > 1 { assert DependsOn(cfg.db, path[|path| - 2], last); } }
      assert Reaches(cfg.db, n, last);
      StructuralRoot(e);
      assert false;
    }
  }

  lemma {:induction false} StructuralRoot(e: Error)
    ensures Structural(e) <==> Root(e) in {CycleFound, DependencyNotInDatabase, ScopeIndexConflict}
  {
    if e.DependencyFailed? { StructuralRoot(e.cause); }
  }
}
