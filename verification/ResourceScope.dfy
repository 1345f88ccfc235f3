/**
 Transactional acquisition of dependency closures: what the resource manager and a resource scope compute,
 as functions on their joint state, and what every request keeps.
 */
module ResourceScopes {
  import opened Wrappers
  import opened AssetDatabases
  import Pools = ResourcePools
  import Contents = ResourceContents

  datatype Config = Config(db: Database, hasProvider: bool, maxBlobBytes: nat, maxDependencyDepth: nat)

  datatype Error =
    | AssetNotFound | TypeMismatch | SlotLimitReached | ProviderMissing | LoadFailed
    | DepthExceeded | CycleFound | DependencyNotInDatabase | DependencyFailed(cause: Error)
    | CachedFallbackNotRequired | CachedFallback | ScopeIndexConflict

  /** One typed pool per asset type, and how many reads the provider has answered. */
  datatype World = World(ledgers: map<AssetType, Pools.Ledger>, answered: nat)

  predicate WorldGood(w: World) {
    forall t: AssetType :: t in w.ledgers && Pools.Good(w.ledgers[t])
  }

  // ---------------------------------------------------------------- the manager

  /** The content of the provider's next answer, as far as the manager accepts it. */
  function NextContent(cfg: Config, provider: nat -> Option<Pools.Blob>, w: World): Option<Pools.Blob> {
    if !cfg.hasProvider then None
    else
      var answer := provider(w.answered);
      if answer.Some? && |answer.value| <= cfg.maxBlobBytes then answer else None
  }

  function Load(cfg: Config, provider: nat -> Option<Pools.Blob>, w: World, assetType: AssetType, id: string)
    : (World, Result<Pools.Key, Error>)
    requires WorldGood(w)
  {
    var record := Find(cfg.db, id);
    if record.None? then (w, Err(AssetNotFound))
    else if record.value.assetType != assetType then (w, Err(TypeMismatch))
    else
      var l := w.ledgers[assetType];
      var content := NextContent(cfg, provider, w);
      var key := Pools.LoadOutcome(l, id, content);
      var begun := Pools.LoadBegins(l, id);
      var after := World(w.ledgers[assetType := Pools.Do(l, Pools.Load(id, content))],
                         w.answered + if begun.Pending? && cfg.hasProvider then 1 else 0);
      (after,
       if key.Some? then Ok(key.value)
       else if begun.SlotLimit? then Err(SlotLimitReached)
       else if !cfg.hasProvider then Err(ProviderMissing)
       else Err(LoadFailed))
  }

  /** What a load answers and does: it reads exactly when nothing is ready under that name and there is room; the key it
      hands out gives what was ready, or else what the provider answered; and each failure has its one reason. */
  lemma LoadAnswers(cfg: Config, provider: nat -> Option<Pools.Blob>, w: World, assetType: AssetType, id: string)
    requires WorldGood(w)
    ensures LoadResult(cfg, provider, w, assetType, id, Load(cfg, provider, w, assetType, id).0,
                       Load(cfg, provider, w, assetType, id).1)
  {
    Contents.LoadGives(w.ledgers[assetType], id, NextContent(cfg, provider, w));
  }

  ghost predicate LoadResult(cfg: Config, provider: nat -> Option<Pools.Blob>, w: World, assetType: AssetType,
                             id: string, r: World, key: Result<Pools.Key, Error>)
    requires WorldGood(w)
  {
    var found, before := Find(cfg.db, id), w.ledgers[assetType].pool;
    var known := found.Some? && found.value.assetType == assetType;
    var ready, room := Contents.ReadyUnder(before, id), Contents.HasRoom(before, id);
    var asks := known && ready.None? && room && cfg.hasProvider;
    var refused := provider(w.answered).None? || |provider(w.answered).value| > cfg.maxBlobBytes;
    && r.answered == w.answered + (if asks then 1 else 0)
    && r.ledgers.Keys == w.ledgers.Keys
    && (forall t: AssetType :: t in w.ledgers && (t != assetType || !known) ==> r.ledgers[t] == w.ledgers[t])
    && (key == Err(AssetNotFound) <==> found.None?)
    && (key == Err(TypeMismatch) <==> found.Some? && found.value.assetType != assetType)
    && (key == Err(SlotLimitReached) <==> known && ready.None? && !room)
    && (key == Err(SlotLimitReached) && assetType in r.ledgers ==> r.ledgers[assetType].pool == before)
    && (key == Err(ProviderMissing) <==> known && ready.None? && room && !cfg.hasProvider)
    && (key == Err(LoadFailed) <==> asks && refused)
    && (key.Ok? <==> known && (ready.Some? || (asks && !refused)))
    && (key.Ok? && assetType in r.ledgers ==>
          && Contents.Gives(r.ledgers[assetType].pool, key.value)
              == (if ready.Some? then ready else provider(w.answered))
          && key.value.index < |r.ledgers[assetType].pool.slots|
          && r.ledgers[assetType].pool.slots[key.value.index].id == id)
  }

  function TakeFallback(w: World, assetType: AssetType): (World, Pools.Key)
    requires WorldGood(w)
  {
    var after := Pools.Do(w.ledgers[assetType], Pools.Other(Pools.Fallback));
    (w.(ledgers := w.ledgers[assetType := after]), Pools.Key(0, 1))
  }

  function DropLease(w: World, assetType: AssetType, key: Pools.Key): World
    requires WorldGood(w) && key in w.ledgers[assetType].live
  {
    w.(ledgers := w.ledgers[assetType := Pools.Do(w.ledgers[assetType], Pools.Other(Pools.Drop(key)))])
  }

  /** What a step on one pool did to the leases: one more of this key, or none. */
  ghost predicate Leased(w: World, r: World, assetType: AssetType, key: Pools.Key)
    requires WorldGood(w) && WorldGood(r)
  {
    forall t: AssetType :: r.ledgers[t].live == w.ledgers[t].live + if t == assetType then multiset{key} else multiset{}
  }

  ghost predicate SameLeases(w: World, r: World)
    requires WorldGood(w) && WorldGood(r)
  {
    forall t: AssetType :: r.ledgers[t].live == w.ledgers[t].live
  }

  /** The failures of a single load. */
  predicate PlainFailure(e: Error) {
    e == AssetNotFound || e == TypeMismatch || e == SlotLimitReached || e == ProviderMissing || e == LoadFailed
  }

  lemma LoadLeases(cfg: Config, provider: nat -> Option<Pools.Blob>, w: World, assetType: AssetType, id: string)
    requires WorldGood(w)
    ensures var (r, result) := Load(cfg, provider, w, assetType, id);
      && WorldGood(r)
      && (result.Ok? ==> Leased(w, r, assetType, result.value))
      && (result.Err? ==> SameLeases(w, r))
      && (result.Ok? ==> Find(cfg.db, id).Some? && Find(cfg.db, id).value.assetType == assetType)
      && (result.Err? ==> PlainFailure(result.error))
  {
    Pools.LoadLive(w.ledgers[assetType], id, NextContent(cfg, provider, w));
  }

  lemma FallbackLeases(w: World, assetType: AssetType)
    requires WorldGood(w)
    ensures var (r, key) := TakeFallback(w, assetType); WorldGood(r) && Leased(w, r, assetType, key)
  {
    Pools.FallbackLive(w.ledgers[assetType]);
  }

  lemma DropLeases(w: World, assetType: AssetType, key: Pools.Key)
    requires WorldGood(w) && key in w.ledgers[assetType].live
    ensures WorldGood(DropLease(w, assetType, key)) && Leased(DropLease(w, assetType, key), w, assetType, key)
  {
    Pools.DropLive(w.ledgers[assetType], key);
  }

  // ---------------------------------------------------------------- the scope

  datatype Policy = Required | Fallback | Optional

  datatype Resolution = Loaded | FallbackUsed

  datatype Entry = Entry(assetType: AssetType, id: string, resolution: Resolution, cause: Option<Error>, key: Pools.Key)

  datatype Name = Name(assetType: AssetType, id: string)

  datatype Scope = Scope(entries: seq<Entry>, index: map<Name, nat>)

  datatype State = State(world: World, scope: Scope)

  function NameOf(entry: Entry): Name { Name(entry.assetType, entry.id) }

  /** The index names exactly the entries, each at its place. */
  ghost predicate IndexExact(s: Scope) {
    && (forall n :: n in s.index ==> (s.index[n] < |s.entries| && NameOf(s.entries[s.index[n]]) == n))
    && (forall i :: 0 <= i < |s.entries| ==> (NameOf(s.entries[i]) in s.index && s.index[NameOf(s.entries[i])] == i))
  }

  predicate HoldsLoaded(s: Scope, n: Name, below: nat) {
    n in s.index && s.index[n] < below && s.index[n] < |s.entries| && s.entries[s.index[n]].resolution == Loaded
  }

  /** Everything a loaded entry depends on is loaded at a smaller place. */
  ghost predicate EntryClosed(db: Database, s: Scope, i: nat)
    requires i < |s.entries|
  {
    s.entries[i].resolution == Loaded ==>
      (Find(db, s.entries[i].id).Some? && Find(db, s.entries[i].id).value.assetType == s.entries[i].assetType
       && forall d :: d in Find(db, s.entries[i].id).value.dependencies ==>
            Find(db, d).Some? && HoldsLoaded(s, Name(Find(db, d).value.assetType, d), i))
  }

  ghost predicate ScopeClosed(db: Database, s: Scope) {
    forall i :: 0 <= i < |s.entries| ==> EntryClosed(db, s, i)
  }

  /** The leases of the first entries, on one type's pool. */
  ghost function LeasesOf(entries: seq<Entry>, count: nat, t: AssetType): multiset<Pools.Key>
    requires count <= |entries|
  {
    if count == 0 then multiset{}
    else LeasesOf(entries, count - 1, t) + if entries[count - 1].assetType == t then multiset{entries[count - 1].key}
        else multiset{}
  }

  /** The live leases are the ones held outside the scope and one for each entry.  The layers only keep the
      verifier from unfolding it wherever it is mentioned; BalancedMeans is how it is used. */
  ghost predicate Balanced(outside: map<AssetType, multiset<Pools.Key>>, w: World, entries: seq<Entry>, count: nat,
                           layers: nat := 3)
    requires WorldGood(w) && count <= |entries|
    decreases w, layers
  {
    if layers > 0 then Balanced(outside, w, entries, count, layers - 1)
    else forall t: AssetType :: t in outside && w.ledgers[t].live == outside[t] + LeasesOf(entries, count, t)
  }

  lemma {:induction false} BalancedMeans(outside: map<AssetType, multiset<Pools.Key>>, w: World, entries: seq<Entry>,
                                         count: nat, layers: nat := 3)
    requires WorldGood(w) && count <= |entries|
    ensures Balanced(outside, w, entries, count, layers) <==>
      forall t: AssetType :: t in outside && w.ledgers[t].live == outside[t] + LeasesOf(entries, count, t)
    decreases layers
  {
    if layers > 0 { BalancedMeans(outside, w, entries, count, layers - 1); }
  }

  ghost predicate StateGood(cfg: Config, outside: map<AssetType, multiset<Pools.Key>>, st: State) {
    && WorldGood(st.world) && IndexExact(st.scope) && ScopeClosed(cfg.db, st.scope)
    && Balanced(outside, st.world, st.scope.entries, |st.scope.entries|)
  }

  /** Refuses a name the index already has. */
  function AddEntry(s: Scope, entry: Entry): Option<Scope> {
    if NameOf(entry) in s.index then None
    else Some(Scope(s.entries + [entry], s.index[NameOf(entry) := |s.entries|]))
  }

  function Acquire(cfg: Config, provider: nat -> Option<Pools.Blob>, st: State, n: Name, depth: nat,
                   visiting: seq<Name>)
    : (r: (State, Result<Pools.Key, Error>))
    requires WorldGood(st.world) && depth <= cfg.maxDependencyDepth + 1
    ensures WorldGood(r.0.world)
    decreases cfg.maxDependencyDepth + 1 - depth, 1, 0
  {
    if n in st.scope.index && st.scope.index[n] < |st.scope.entries| then
      var entry := st.scope.entries[st.scope.index[n]];
      (st, if entry.resolution == Loaded then Ok(entry.key) else Err(CachedFallbackNotRequired))
    else if depth > cfg.maxDependencyDepth then (st, Err(DepthExceeded))
    else if n in visiting then (st, Err(CycleFound))
    else
      var record := Find(cfg.db, n.id);
      if record.None? then (st, Err(AssetNotFound))
      else if record.value.assetType != n.assetType then (st, Err(TypeMismatch))
      else
        var (ready, failure) := AcquireAll(cfg, provider, st, record.value.dependencies, 0, depth, visiting + [n]);
        if failure.Some? then (ready, Err(failure.value)) else LoadAndAdd(cfg, provider, ready, n)
  }

  function AcquireAll(cfg: Config, provider: nat -> Option<Pools.Blob>, st: State, dependencies: seq<string>, from: nat,
                      depth: nat, visiting: seq<Name>): (r: (State, Option<Error>))
    requires WorldGood(st.world) && depth <= cfg.maxDependencyDepth && from <= |dependencies|
    ensures WorldGood(r.0.world)
    decreases cfg.maxDependencyDepth + 1 - depth, 0, |dependencies| - from
  {
    if from == |dependencies| then (st, None)
    else
      var record := Find(cfg.db, dependencies[from]);
      if record.None? then (st, Some(DependencyNotInDatabase))
      else
        var (next, key) := Acquire(cfg, provider, st, Name(record.value.assetType, dependencies[from]), depth + 1,
                                   visiting);
        if key.Err? then (next, Some(DependencyFailed(key.error)))
        else AcquireAll(cfg, provider, next, dependencies, from + 1, depth, visiting)
  }

  /** Loads one asset and enters its lease.  The layers only keep the verifier from unfolding a load wherever
      an acquisition is mentioned; LoadAndAddIs is how it is used. */
  function LoadAndAdd(cfg: Config, provider: nat -> Option<Pools.Blob>, st: State, n: Name, layers: nat := 3)
    : (r: (State, Result<Pools.Key, Error>))
    requires WorldGood(st.world)
    ensures WorldGood(r.0.world)
    decreases st, layers
  {
    if layers > 0 then LoadAndAdd(cfg, provider, st, n, layers - 1)
    else
      LoadLeases(cfg, provider, st.world, n.assetType, n.id);
      var (w, key) := Load(cfg, provider, st.world, n.assetType, n.id);
      assert key.Ok? ==> key.value in w.ledgers[n.assetType].live;
      Enter(w, st.scope, n, key)
  }

  lemma {:induction false} LoadAndAddIs(cfg: Config, provider: nat -> Option<Pools.Blob>, st: State, n: Name,
                                        layers: nat := 3)
    requires WorldGood(st.world)
    ensures var (w, key) := Load(cfg, provider, st.world, n.assetType, n.id);
      && WorldGood(w) && (key.Ok? ==> key.value in w.ledgers[n.assetType].live)
      && LoadAndAdd(cfg, provider, st, n, layers) == Enter(w, st.scope, n, key)
    decreases layers
  {
    LoadLeases(cfg, provider, st.world, n.assetType, n.id);
    if layers > 0 { LoadAndAddIs(cfg, provider, st, n, layers - 1); }
  }

  /** Enters the lease a load handed out; a lease that finds no place is dropped again. */
  function Enter(w: World, s: Scope, n: Name, key: Result<Pools.Key, Error>): (r: (State, Result<Pools.Key, Error>))
    requires WorldGood(w) && (key.Ok? ==> key.value in w.ledgers[n.assetType].live)
    ensures WorldGood(r.0.world)
  {
    if key.Err? then (State(w, s), key)
    else
      var added := AddEntry(s, Entry(n.assetType, n.id, Loaded, None, key.value));
      if added.None? then
        DropLeases(w, n.assetType, key.value);
        (State(DropLease(w, n.assetType, key.value), s), Err(ScopeIndexConflict))
      else (State(w, added.value), key)
  }

  // ---------------------------------------------------------------- what acquisition keeps

  ghost predicate Extends(s: Scope, r: Scope) {
    && |s.entries| <= |r.entries|
    && (forall i :: 0 <= i < |s.entries| ==> r.entries[i] == s.entries[i])
    && (forall i :: |s.entries| <= i < |r.entries| ==> r.entries[i].resolution == Loaded)
    && (forall n :: n in s.index ==> n in r.index)
  }

  /** Nothing that is being visited was entered meanwhile. */
  ghost predicate VisitingKept(visiting: seq<Name>, s: Scope, r: Scope) {
    forall v :: v in visiting && v !in s.index ==> v !in r.index
  }

  /** The error was raised by a cycle, a missing dependency or an index conflict, here or further down. */
  predicate Structural(e: Error) {
    match e
    case CycleFound => true
    case DependencyNotInDatabase => true
    case ScopeIndexConflict => true
    case DependencyFailed(cause) => Structural(cause)
    case _ => false
  }

  predicate Conflicting(e: Error) {
    match e
    case ScopeIndexConflict => true
    case DependencyFailed(cause) => Conflicting(cause)
    case _ => false
  }

  lemma {:induction false} SameLeasesOf(a: seq<Entry>, b: seq<Entry>, count: nat, t: AssetType)
    requires count <= |a| && count <= |b| && forall i :: 0 <= i < count ==> a[i] == b[i]
    ensures LeasesOf(a, count, t) == LeasesOf(b, count, t)
    decreases count
  {
    if count > 0 { SameLeasesOf(a, b, count - 1, t); }
  }

  lemma AddedBalanced(outside: map<AssetType, multiset<Pools.Key>>, w: World, r: World, entries: seq<Entry>, e: Entry)
    requires WorldGood(w) && WorldGood(r) && Balanced(outside, w, entries, |entries|)
    requires Leased(w, r, e.assetType, e.key)
    ensures Balanced(outside, r, entries + [e], |entries| + 1)
  {
    BalancedMeans(outside, w, entries, |entries|);
    BalancedMeans(outside, r, entries + [e], |entries| + 1);
    forall t: AssetType
      ensures t in outside && r.ledgers[t].live == outside[t] + LeasesOf(entries + [e], |entries| + 1, t)
    {
      AddedLease(entries, e, t);
      assert w.ledgers[t].live == outside[t] + LeasesOf(entries, |entries|, t);
    }
  }

  lemma AddedLease(entries: seq<Entry>, e: Entry, t: AssetType)
    ensures LeasesOf(entries + [e], |entries| + 1, t)
         == LeasesOf(entries, |entries|, t) + if e.assetType == t then multiset{e.key} else multiset{}
  {
    SameLeasesOf(entries, entries + [e], |entries|, t);
  }

  lemma AddedIndexed(s: Scope, e: Entry)
    requires IndexExact(s) && NameOf(e) !in s.index
    ensures AddEntry(s, e).Some? && IndexExact(AddEntry(s, e).value)
    ensures var r := AddEntry(s, e).value;
      && r.entries == s.entries + [e] && r.index[NameOf(e)] == |s.entries|
      && (forall n, below: nat :: HoldsLoaded(s, n, below) ==> HoldsLoaded(r, n, below))
      && (forall n :: n in r.index <==> n in s.index || n == NameOf(e))
  {
  }

  lemma AddedExtends(s: Scope, e: Entry)
    requires IndexExact(s) && NameOf(e) !in s.index && e.resolution == Loaded
    ensures AddEntry(s, e).Some?
    ensures var r := AddEntry(s, e).value;
      && Extends(s, r) && HoldsLoaded(r, NameOf(e), |r.entries|) && r.entries[r.index[NameOf(e)]].key == e.key
      && (forall m :: m in r.index && m !in s.index ==> m == NameOf(e))
  {
  }

  ghost predicate DependenciesHeld(db: Database, s: Scope, dependencies: seq<string>, from: nat) {
    forall j :: from <= j < |dependencies| ==>
      Find(db, dependencies[j]).Some?
      && HoldsLoaded(s, Name(Find(db, dependencies[j]).value.assetType, dependencies[j]), |s.entries|)
  }

  lemma AddedClosed(db: Database, s: Scope, e: Entry)
    requires IndexExact(s) && ScopeClosed(db, s) && NameOf(e) !in s.index
    requires e.resolution == Loaded ==>
      Find(db, e.id).Some? && Find(db, e.id).value.assetType == e.assetType
      && DependenciesHeld(db, s, Find(db, e.id).value.dependencies, 0)
    ensures AddEntry(s, e).Some? && ScopeClosed(db, AddEntry(s, e).value)
  {
    AddedIndexed(s, e);
    var r := AddEntry(s, e).value;
    forall i | 0 <= i < |r.entries| ensures EntryClosed(db, r, i) {
      if i < |s.entries| {
        assert r.entries[i] == s.entries[i] && EntryClosed(db, s, i);
      } else if e.resolution == Loaded {
        var dependencies := Find(db, e.id).value.dependencies;
        forall d | d in dependencies
          ensures Find(db, d).Some? && HoldsLoaded(r, Name(Find(db, d).value.assetType, d), i)
        {
          var j :| 0 <= j < |dependencies| && dependencies[j] == d;
        }
      }
    }
  }

  lemma LoadAndAddKeeps(cfg: Config, provider: nat -> Option<Pools.Blob>, outside: map<AssetType, multiset<Pools.Key>>,
                        st: State, n: Name)
    requires StateGood(cfg, outside, st) && n !in st.scope.index
    requires Find(cfg.db, n.id).Some? && Find(cfg.db, n.id).value.assetType == n.assetType
    requires DependenciesHeld(cfg.db, st.scope, Find(cfg.db, n.id).value.dependencies, 0)
    ensures var (r, key) := LoadAndAdd(cfg, provider, st, n);
      && StateGood(cfg, outside, r) && Extends(st.scope, r.scope)
      && (forall m :: m in r.scope.index && m !in st.scope.index ==> m == n)
      && Acquired(r.scope, n, key)
      && (key.Err? ==> PlainFailure(key.error))
  {
    LoadLeases(cfg, provider, st.world, n.assetType, n.id);
    LoadAndAddIs(cfg, provider, st, n);
    var (w, key) := Load(cfg, provider, st.world, n.assetType, n.id);
    EnterKeeps(cfg, outside, st, w, n, key);
  }

  lemma EnterKeeps(cfg: Config, outside: map<AssetType, multiset<Pools.Key>>, st: State, w: World, n: Name,
                   loaded: Result<Pools.Key, Error>)
    requires StateGood(cfg, outside, st) && n !in st.scope.index && WorldGood(w)
    requires Find(cfg.db, n.id).Some? && Find(cfg.db, n.id).value.assetType == n.assetType
    requires DependenciesHeld(cfg.db, st.scope, Find(cfg.db, n.id).value.dependencies, 0)
    requires loaded.Ok? ==> Leased(st.world, w, n.assetType, loaded.value)
    requires loaded.Err? ==> SameLeases(st.world, w) && PlainFailure(loaded.error)
    ensures loaded.Ok? ==> loaded.value in w.ledgers[n.assetType].live
    ensures var (r, key) := Enter(w, st.scope, n, loaded);
      && StateGood(cfg, outside, r) && Extends(st.scope, r.scope)
      && (forall m :: m in r.scope.index && m !in st.scope.index ==> m == n)
      && Acquired(r.scope, n, key)
      && (key.Err? ==> PlainFailure(key.error))
  {
    if loaded.Ok? {
      var e := Entry(n.assetType, n.id, Loaded, None, loaded.value);
      AddLoaded(cfg, outside, st, w, e);
      AddedExtends(st.scope, e);
      assert Enter(w, st.scope, n, loaded) == (State(w, AddEntry(st.scope, e).value), loaded);
    } else {
      SameBalanced(outside, st.world, w, st.scope.entries);
    }
  }

  lemma SameBalanced(outside: map<AssetType, multiset<Pools.Key>>, w: World, r: World, entries: seq<Entry>)
    requires WorldGood(w) && WorldGood(r) && Balanced(outside, w, entries, |entries|) && SameLeases(w, r)
    ensures Balanced(outside, r, entries, |entries|)
  {
    BalancedMeans(outside, w, entries, |entries|);
    BalancedMeans(outside, r, entries, |entries|);
  }

  /** Entering a lease just made. */
  lemma AddLoaded(cfg: Config, outside: map<AssetType, multiset<Pools.Key>>, st: State, w: World, e: Entry)
    requires StateGood(cfg, outside, st) && NameOf(e) !in st.scope.index && WorldGood(w)
    requires Leased(st.world, w, e.assetType, e.key)
    requires e.resolution == Loaded ==>
      Find(cfg.db, e.id).Some? && Find(cfg.db, e.id).value.assetType == e.assetType
      && DependenciesHeld(cfg.db, st.scope, Find(cfg.db, e.id).value.dependencies, 0)
    ensures AddEntry(st.scope, e).Some?
    ensures var r := AddEntry(st.scope, e).value;
      && StateGood(cfg, outside, State(w, r))
      && r.entries == st.scope.entries + [e] && r.index == st.scope.index[NameOf(e) := |st.scope.entries|]
  {
    AddedIndexed(st.scope, e);
    AddedClosed(cfg.db, st.scope, e);
    AddedBalanced(outside, st.world, w, st.scope.entries, e);
  }

  lemma HeldStays(s: Scope, r: Scope, n: Name)
    requires IndexExact(s) && IndexExact(r) && Extends(s, r) && HoldsLoaded(s, n, |s.entries|)
    ensures HoldsLoaded(r, n, |r.entries|)
  {
    assert r.entries[s.index[n]] == s.entries[s.index[n]];
  }

  /** Everything one acquisition keeps, whether it succeeds or not. */
  ghost predicate Kept(cfg: Config, outside: map<AssetType, multiset<Pools.Key>>, st: State, r: State,
                       visiting: seq<Name>) {
    StateGood(cfg, outside, r) && Extends(st.scope, r.scope) && VisitingKept(visiting, st.scope, r.scope)
  }

  /** Whether an acquisition goes on to the dependencies. */
  predicate Descends(cfg: Config, s: Scope, n: Name, depth: nat, visiting: seq<Name>) {
    && !(n in s.index && s.index[n] < |s.entries|) && depth <= cfg.maxDependencyDepth && n !in visiting
    && Find(cfg.db, n.id).Some? && Find(cfg.db, n.id).value.assetType == n.assetType
  }

  /** The key, if any, is that of a loaded entry of this name. */
  predicate Acquired(s: Scope, n: Name, key: Result<Pools.Key, Error>) {
    key.Ok? ==> HoldsLoaded(s, n, |s.entries|) && s.entries[s.index[n]].key == key.value
  }

  lemma AcquireStays(cfg: Config, provider: nat -> Option<Pools.Blob>, st: State, n: Name, depth: nat,
                     visiting: seq<Name>)
    requires WorldGood(st.world) && depth <= cfg.maxDependencyDepth + 1 && !Descends(cfg, st.scope, n, depth, visiting)
    ensures var (r, key) := Acquire(cfg, provider, st, n, depth, visiting);
      r == st && Acquired(st.scope, n, key) && (key.Err? ==> !Conflicting(key.error))
  {
  }

  lemma AcquireDescends(cfg: Config, provider: nat -> Option<Pools.Blob>, st: State, n: Name, depth: nat,
                        visiting: seq<Name>)
    requires WorldGood(st.world) && depth <= cfg.maxDependencyDepth && Descends(cfg, st.scope, n, depth, visiting)
    ensures var (ready, failure) :=
        AcquireAll(cfg, provider, st, Find(cfg.db, n.id).value.dependencies, 0, depth, visiting + [n]);
      Acquire(cfg, provider, st, n, depth, visiting)
      == if failure.Some? then (ready, Err(failure.value)) else LoadAndAdd(cfg, provider, ready, n)
  {
  }

  lemma KeptAtOnce(cfg: Config, outside: map<AssetType, multiset<Pools.Key>>, st: State, visiting: seq<Name>)
    requires StateGood(cfg, outside, st)
    ensures Kept(cfg, outside, st, st, visiting)
  {
  }

  lemma {:induction false} AcquireKeeps(cfg: Config, provider: nat -> Option<Pools.Blob>,
                                        outside: map<AssetType, multiset<Pools.Key>>, st: State, n: Name, depth: nat,
                                        visiting: seq<Name>)
    requires StateGood(cfg, outside, st) && depth <= cfg.maxDependencyDepth + 1
    ensures var (r, key) := Acquire(cfg, provider, st, n, depth, visiting);
      Kept(cfg, outside, st, r, visiting) && Acquired(r.scope, n, key) && (key.Err? ==> !Conflicting(key.error))
    decreases cfg.maxDependencyDepth + 1 - depth, 1, 0
  {
    if Descends(cfg, st.scope, n, depth, visiting) {
      var dependencies := Find(cfg.db, n.id).value.dependencies;
      AcquireDescends(cfg, provider, st, n, depth, visiting);
      AcquireAllKeeps(cfg, provider, outside, st, dependencies, 0, depth, visiting + [n]);
      var (ready, failure) := AcquireAll(cfg, provider, st, dependencies, 0, depth, visiting + [n]);
      DescentKeeps(cfg, provider, outside, st, ready, failure, n, visiting);
    } else {
      AcquireStays(cfg, provider, st, n, depth, visiting);
      KeptAtOnce(cfg, outside, st, visiting);
    }
  }

  lemma DescentKeeps(cfg: Config, provider: nat -> Option<Pools.Blob>, outside: map<AssetType, multiset<Pools.Key>>,
                     st: State, ready: State, failure: Option<Error>, n: Name, visiting: seq<Name>)
    requires Kept(cfg, outside, st, ready, visiting + [n]) && n !in visiting && n !in st.scope.index
    requires Find(cfg.db, n.id).Some? && Find(cfg.db, n.id).value.assetType == n.assetType
    requires failure.None? ==> DependenciesHeld(cfg.db, ready.scope, Find(cfg.db, n.id).value.dependencies, 0)
    requires failure.Some? ==> !Conflicting(failure.value)
    ensures var (r, key) := if failure.Some? then (ready, Err(failure.value)) else LoadAndAdd(cfg, provider, ready, n);
      Kept(cfg, outside, st, r, visiting) && Acquired(r.scope, n, key) && (key.Err? ==> !Conflicting(key.error))
  {
    assert n in visiting + [n];
    if failure.None? {
      LoadAndAddKeeps(cfg, provider, outside, ready, n);
      KeptJoins(cfg, outside, st, ready, LoadAndAdd(cfg, provider, ready, n).0, n, visiting);
    } else {
      KeptJoins(cfg, outside, st, ready, ready, n, visiting);
    }
  }

  lemma KeptJoins(cfg: Config, outside: map<AssetType, multiset<Pools.Key>>, st: State, ready: State, r: State, n: Name,
                  visiting: seq<Name>)
    requires Kept(cfg, outside, st, ready, visiting + [n]) && StateGood(cfg, outside, r)
    requires Extends(ready.scope, r.scope) && n !in visiting
    requires forall m :: m in r.scope.index && m !in ready.scope.index ==> m == n
    ensures Kept(cfg, outside, st, r, visiting)
  {
    forall v | v in visiting && v !in st.scope.index ensures v !in r.scope.index { assert v in visiting + [n]; }
  }

  lemma {:induction false} AcquireAllKeeps(cfg: Config, provider: nat -> Option<Pools.Blob>,
                                           outside: map<AssetType, multiset<Pools.Key>>, st: State,
                                           dependencies: seq<string>, from: nat, depth: nat, visiting: seq<Name>)
    requires StateGood(cfg, outside, st) && depth <= cfg.maxDependencyDepth && from <= |dependencies|
    ensures var (r, failure) := AcquireAll(cfg, provider, st, dependencies, from, depth, visiting);
      && Kept(cfg, outside, st, r, visiting)
      && (failure.None? ==> DependenciesHeld(cfg.db, r.scope, dependencies, from))
      && (failure.Some? ==> !Conflicting(failure.value))
    decreases cfg.maxDependencyDepth + 1 - depth, 0, |dependencies| - from
  {
    if from < |dependencies| {
      var record := Find(cfg.db, dependencies[from]);
      if record.Some? {
        var n := Name(record.value.assetType, dependencies[from]);
        AcquireKeeps(cfg, provider, outside, st, n, depth + 1, visiting);
        var (next, key) := Acquire(cfg, provider, st, n, depth + 1, visiting);
        if key.Ok? {
          AcquireAllKeeps(cfg, provider, outside, next, dependencies, from + 1, depth, visiting);
          var (r, failure) := AcquireAll(cfg, provider, next, dependencies, from + 1, depth, visiting);
          HeldStays(next.scope, r.scope, n);
        }
      }
    }
  }

  // ---------------------------------------------------------------- rollback

  lemma LastLeaseIsLive(outside: map<AssetType, multiset<Pools.Key>>, w: World, entries: seq<Entry>, count: nat)
    requires 0 < count <= |entries| && WorldGood(w) && Balanced(outside, w, entries, count)
    ensures entries[count - 1].key in w.ledgers[entries[count - 1].assetType].live
  {
    var e := entries[count - 1];
    BalancedMeans(outside, w, entries, count);
    assert LeasesOf(entries, count, e.assetType) == LeasesOf(entries, count - 1, e.assetType) + multiset{e.key};
    assert w.ledgers[e.assetType].live == outside[e.assetType] + LeasesOf(entries, count, e.assetType);
  }

  lemma DroppedBalanced(outside: map<AssetType, multiset<Pools.Key>>, w: World, r: World, entries: seq<Entry>,
                        count: nat)
    requires 0 < count <= |entries| && WorldGood(w) && WorldGood(r) && Balanced(outside, w, entries, count)
    requires Leased(r, w, entries[count - 1].assetType, entries[count - 1].key)
    ensures Balanced(outside, r, entries, count - 1)
  {
    var e := entries[count - 1];
    BalancedMeans(outside, w, entries, count);
    BalancedMeans(outside, r, entries, count - 1);
    forall t: AssetType ensures t in outside && r.ledgers[t].live == outside[t] + LeasesOf(entries, count - 1, t) {
      DroppedFor(outside[t], r.ledgers[t].live, w.ledgers[t].live, entries, count, t);
    }
  }

  lemma DroppedFor(outside: multiset<Pools.Key>, after: multiset<Pools.Key>, before: multiset<Pools.Key>,
                   entries: seq<Entry>, count: nat, t: AssetType)
    requires 0 < count <= |entries| && before == outside + LeasesOf(entries, count, t)
    requires before == after + if t == entries[count - 1].assetType then multiset{entries[count - 1].key}
        else multiset{}
    ensures after == outside + LeasesOf(entries, count - 1, t)
  {
    CancelLease(after, outside, LeasesOf(entries, count - 1, t), before,
                if t == entries[count - 1].assetType then multiset{entries[count - 1].key} else multiset{});
  }

  lemma CancelLease(after: multiset<Pools.Key>, outside: multiset<Pools.Key>, leases: multiset<Pools.Key>,
                    before: multiset<Pools.Key>, one: multiset<Pools.Key>)
    requires before == after + one && before == outside + (leases + one)
    ensures after == outside + leases
  {
    forall k ensures after[k] == (outside + leases)[k] {
      assert before[k] == after[k] + one[k] && before[k] == outside[k] + leases[k] + one[k];
    }
  }

  lemma OneUnwound(outside: map<AssetType, multiset<Pools.Key>>, w: World, entries: seq<Entry>, count: nat)
    requires 0 < count <= |entries| && WorldGood(w) && Balanced(outside, w, entries, count)
    ensures entries[count - 1].key in w.ledgers[entries[count - 1].assetType].live
    ensures var r := DropLease(w, entries[count - 1].assetType, entries[count - 1].key);
      WorldGood(r) && Balanced(outside, r, entries, count - 1)
  {
    var e := entries[count - 1];
    LastLeaseIsLive(outside, w, entries, count);
    DropLeases(w, e.assetType, e.key);
    DroppedBalanced(outside, w, DropLease(w, e.assetType, e.key), entries, count);
  }

  /** The world after the leases of the entries from this size on are dropped. */
  function Unwound(ghost outside: map<AssetType, multiset<Pools.Key>>, w: World, entries: seq<Entry>, size: nat,
                   count: nat)
    : (r: World)
    requires WorldGood(w) && size <= count <= |entries| && Balanced(outside, w, entries, count)
    ensures WorldGood(r)
    decreases count
  {
    if count == size then w
    else
      OneUnwound(outside, w, entries, count);
      var dropped := DropLease(w, entries[count - 1].assetType, entries[count - 1].key);
      assert WorldGood(dropped) && Balanced(outside, dropped, entries, count - 1);
      Unwound(outside, dropped, entries, size, count - 1)
  }

  lemma {:induction false} UnwoundBalanced(outside: map<AssetType, multiset<Pools.Key>>, w: World, entries: seq<Entry>,
                                           size: nat, count: nat)
    requires WorldGood(w) && size <= count <= |entries| && Balanced(outside, w, entries, count)
    ensures Balanced(outside, Unwound(outside, w, entries, size, count), entries, size)
    decreases count
  {
    if count > size {
      OneUnwound(outside, w, entries, count);
      var r := DropLease(w, entries[count - 1].assetType, entries[count - 1].key);
      assert WorldGood(r) && Balanced(outside, r, entries, count - 1);
      UnwoundBalanced(outside, r, entries, size, count - 1);
    }
  }

  /** With no entries left, exactly the leases of others are alive. */
  lemma EmptyBalanced(outside: map<AssetType, multiset<Pools.Key>>, w: World, entries: seq<Entry>)
    requires WorldGood(w) && Balanced(outside, w, entries, 0)
    ensures Balanced(outside, w, [], 0)
    ensures forall t: AssetType :: t in outside && w.ledgers[t].live == outside[t]
  {
    BalancedMeans(outside, w, entries, 0);
    BalancedMeans(outside, w, [], 0);
  }

  /** The place is one of those given up, and holds this name. */
  predicate NamesFrom(entries: seq<Entry>, size: nat, upTo: nat, n: Name, place: nat) {
    size <= place < upTo && place < |entries| && NameOf(entries[place]) == n
  }

  /** The index without the names of the entries from this size on. */
  function Unindexed(entries: seq<Entry>, index: map<Name, nat>, size: nat, upTo: nat): map<Name, nat> {
    map n | n in index && !NamesFrom(entries, size, upTo, n, index[n]) :: index[n]
  }

  function RollbackTo(ghost outside: map<AssetType, multiset<Pools.Key>>, st: State, size: nat): (r: State)
    requires WorldGood(st.world) && Balanced(outside, st.world, st.scope.entries, |st.scope.entries|)
    ensures WorldGood(r.world)
  {
    var entries := st.scope.entries;
    if size >= |entries| then st
    else State(Unwound(outside, st.world, entries, size, |entries|),
               Scope(entries[..size], Unindexed(entries, st.scope.index, size, |entries|)))
  }

  lemma SameBalanceSameLeases(outside: map<AssetType, multiset<Pools.Key>>, w: World, r: World, a: seq<Entry>,
                              b: seq<Entry>, count: nat)
    requires WorldGood(w) && WorldGood(r) && count <= |a| && count <= |b| && forall i :: 0 <= i < count ==> a[i] == b[i]
    requires Balanced(outside, w, a, count) && Balanced(outside, r, b, count)
    ensures SameLeases(w, r)
  {
    BalancedMeans(outside, w, a, count);
    BalancedMeans(outside, r, b, count);
    forall t: AssetType ensures r.ledgers[t].live == w.ledgers[t].live { SameLeasesOf(a, b, count, t); }
  }

  /** Rolling back to where a scope was restores it exactly, and all leases with it. */
  lemma RollbackRestores(cfg: Config, outside: map<AssetType, multiset<Pools.Key>>, st: State, r: State)
    requires StateGood(cfg, outside, st) && StateGood(cfg, outside, r) && Extends(st.scope, r.scope)
    ensures var back := RollbackTo(outside, r, |st.scope.entries|);
      back.scope == st.scope && SameLeases(st.world, back.world) && StateGood(cfg, outside, back)
  {
    var size := |st.scope.entries|;
    var back := RollbackTo(outside, r, size);
    ScopeRestored(outside, st.scope, r);
    UnwoundBalanced(outside, r.world, r.scope.entries, size, |r.scope.entries|);
    SameBalanceSameLeases(outside, st.world, back.world, st.scope.entries, r.scope.entries, size);
    SameBalanced(outside, st.world, back.world, st.scope.entries);
  }

  lemma ScopeRestored(outside: map<AssetType, multiset<Pools.Key>>, s: Scope, r: State)
    requires WorldGood(r.world) && Balanced(outside, r.world, r.scope.entries, |r.scope.entries|)
    requires IndexExact(s) && IndexExact(r.scope) && Extends(s, r.scope)
    ensures RollbackTo(outside, r, |s.entries|).scope == s
  {
    assert r.scope.entries[..|s.entries|] == s.entries;
    IndexRestored(s, r.scope);
    if |s.entries| == |r.scope.entries| {
      forall n ensures n in s.index <==> n in r.scope.index { }
    }
  }

  lemma IndexRestored(s: Scope, r: Scope)
    requires IndexExact(s) && IndexExact(r) && Extends(s, r)
    ensures s.index == Unindexed(r.entries, r.index, |s.entries|, |r.entries|)
  {
    forall n ensures n in s.index <==> n in r.index && !NamesFrom(r.entries, |s.entries|, |r.entries|, n, r.index[n]) {
      if n in s.index { assert NameOf(r.entries[s.index[n]]) == n; }
      if n in r.index && !NamesFrom(r.entries, |s.entries|, |r.entries|, n, r.index[n]) {
        assert r.index[n] < |s.entries| && NameOf(s.entries[r.index[n]]) == n;
      }
    }
    forall n | n in s.index ensures r.index[n] == s.index[n] { assert NameOf(r.entries[s.index[n]]) == n; }
  }

  // ---------------------------------------------------------------- requests

  datatype Outcome =
    | Granted | RequiredFailed(cause: Error) | WithFallback(cause: Error) | OptionalSkipped(cause: Error)
    | FallbackConflict(cause: Error)

  /** A name the scope already holds. */
  function RequestHeld(entry: Entry, policy: Policy): (Option<Pools.Key>, Outcome) {
    if entry.resolution == Loaded then (Some(entry.key), Granted)
    else
      var cause := if entry.cause.Some? then entry.cause.value else CachedFallback;
      match policy
      case Required => (None, RequiredFailed(cause))
      case Fallback => (Some(entry.key), WithFallback(cause))
      case Optional => (None, OptionalSkipped(cause))
  }

  function EnterFallback(w: World, s: Scope, n: Name, cause: Error): (r: (State, Option<Pools.Key>, Outcome))
    requires WorldGood(w)
    ensures WorldGood(r.0.world)
  {
    FallbackLeases(w, n.assetType);
    var (taken, key) := TakeFallback(w, n.assetType);
    var added := AddEntry(s, Entry(n.assetType, n.id, FallbackUsed, Some(cause), key));
    if added.None? then
      assert key in taken.ledgers[n.assetType].live;
      DropLeases(taken, n.assetType, key);
      (State(DropLease(taken, n.assetType, key), s), None, FallbackConflict(cause))
    else (State(taken, added.value), Some(key), WithFallback(cause))
  }

  function Request(cfg: Config, provider: nat -> Option<Pools.Blob>, ghost outside: map<AssetType, multiset<Pools.Key>>,
                   st: State, n: Name, policy: Policy): (r: (State, Option<Pools.Key>, Outcome))
    requires StateGood(cfg, outside, st)
  {
    if n in st.scope.index then
      var (key, outcome) := RequestHeld(st.scope.entries[st.scope.index[n]], policy);
      (st, key, outcome)
    else
      AcquireKeeps(cfg, provider, outside, st, n, 1, []);
      var (r, key) := Acquire(cfg, provider, st, n, 1, []);
      if key.Ok? then (r, Some(key.value), Granted)
      else
        RollbackRestores(cfg, outside, st, r);
        var back := RollbackTo(outside, r, |st.scope.entries|);
        match policy
        case Required => (back, None, RequiredFailed(key.error))
        case Optional => (back, None, OptionalSkipped(key.error))
        case Fallback => EnterFallback(back.world, back.scope, n, key.error)
  }

  /** A request that is refused for a cause: under Required and Optional it answers so and hands out nothing, and only
      under Fallback it hands out the fallback. */
  predicate Settles(policy: Policy, cause: Error, fallback: Pools.Key, key: Option<Pools.Key>, outcome: Outcome) {
    && (policy == Required ==> outcome == RequiredFailed(cause) && key == None)
    && (policy == Optional ==> outcome == OptionalSkipped(cause) && key == None)
    && (policy == Fallback ==> outcome == WithFallback(cause) && key == Some(fallback))
  }

  /** What a request leaves and answers in each case; acquired is what the acquisition of a name that is not held comes
      to. */
  ghost predicate RequestResult(st: State, n: Name, policy: Policy, acquired: Result<Pools.Key, Error>, r: State,
                                key: Option<Pools.Key>, outcome: Outcome)
    requires WorldGood(st.world) && WorldGood(r.world)
  {
    && (n in st.scope.index ==>
          && r == st && st.scope.index[n] < |st.scope.entries|
          && var held := st.scope.entries[st.scope.index[n]];
          if held.resolution == Loaded then key == Some(held.key) && outcome == Granted
          else Settles(policy, if held.cause.Some? then held.cause.value else CachedFallback, held.key, key, outcome))
    && (n !in st.scope.index && acquired.Ok? ==>
          && key == Some(acquired.value) && outcome == Granted
          && Extends(st.scope, r.scope) && Acquired(r.scope, n, acquired))
    && (n !in st.scope.index && acquired.Err? ==>
          && Settles(policy, acquired.error, Pools.Key(0, 1), key, outcome)
          && if policy == Fallback then
               && Leased(st.world, r.world, n.assetType, Pools.Key(0, 1))
               && r.scope == Scope(st.scope.entries + [Entry(n.assetType, n.id, FallbackUsed, Some(acquired.error),
                                                             Pools.Key(0, 1))],
                                   st.scope.index[n := |st.scope.entries|])
             else r.scope == st.scope && SameLeases(st.world, r.world))
  }

  lemma FallbackEntered(cfg: Config, outside: map<AssetType, multiset<Pools.Key>>, st: State, w: World, n: Name,
                        cause: Error)
    requires StateGood(cfg, outside, st) && n !in st.scope.index
    requires WorldGood(w) && SameLeases(st.world, w)
    ensures var (r, key, outcome) := EnterFallback(w, st.scope, n, cause);
      && StateGood(cfg, outside, r) && outcome == WithFallback(cause) && key == Some(Pools.Key(0, 1))
      && Leased(st.world, r.world, n.assetType, Pools.Key(0, 1))
      && r.scope == Scope(st.scope.entries + [Entry(n.assetType, n.id, FallbackUsed, Some(cause), Pools.Key(0, 1))],
                          st.scope.index[n := |st.scope.entries|])
  {
    FallbackLeases(w, n.assetType);
    var taken := TakeFallback(w, n.assetType).0;
    AddLoaded(cfg, outside, st, taken, Entry(n.assetType, n.id, FallbackUsed, Some(cause), Pools.Key(0, 1)));
  }

  /** Requests are all-or-nothing: success extends the scope, a fallback adds exactly one entry, and any
      other failure leaves entries, index and every lease as they were; in each case the index stays the
      exact inverse of the entries and loaded entries keep their dependencies loaded before them. */
  lemma RequestAllOrNothing(cfg: Config, provider: nat -> Option<Pools.Blob>,
                            outside: map<AssetType, multiset<Pools.Key>>, st: State, n: Name, policy: Policy)
    requires StateGood(cfg, outside, st)
    ensures var (r, key, outcome) := Request(cfg, provider, outside, st, n, policy);
      && StateGood(cfg, outside, r)
      && RequestResult(st, n, policy, Acquire(cfg, provider, st, n, 1, []).1, r, key, outcome)
  {
    if n !in st.scope.index {
      AcquireKeeps(cfg, provider, outside, st, n, 1, []);
      var (r, key) := Acquire(cfg, provider, st, n, 1, []);
      if key.Err? {
        RollbackRestores(cfg, outside, st, r);
        var back := RollbackTo(outside, r, |st.scope.entries|);
        if policy == Fallback { FallbackEntered(cfg, outside, st, back.world, n, key.error); }
      }
    }
  }

  /** Whatever a failed request touched, every slot's reference count is as it was, and zero on new slots. */
  lemma FailureRestoresCounts(cfg: Config, provider: nat -> Option<Pools.Blob>,
                              outside: map<AssetType, multiset<Pools.Key>>,
                              st: State, n: Name, policy: Policy, t: AssetType, slot: nat)
    requires StateGood(cfg, outside, st) && Request(cfg, provider, outside, st, n, policy).1.None?
    requires slot < |Request(cfg, provider, outside, st, n, policy).0.world.ledgers[t].pool.slots|
    ensures var before, after := st.world.ledgers[t].pool.slots,
        Request(cfg, provider, outside, st, n, policy).0.world.ledgers[t].pool.slots;
      after[slot].strongReferences == if slot < |before| then before[slot].strongReferences else 0
  {
    RequestAllOrNothing(cfg, provider, outside, st, n, policy);
    Pools.SameLeasesSameCounts(st.world.ledgers[t], Request(cfg, provider, outside, st, n, policy).0.world.ledgers[t],
                               slot);
  }

  /** The handle of every entry is accepted by the manager as long as the scope holds the entry. */
  lemma EntriesAreAccepted(cfg: Config, outside: map<AssetType, multiset<Pools.Key>>, st: State, i: nat)
    requires StateGood(cfg, outside, st) && i < |st.scope.entries|
    ensures var e := st.scope.entries[i]; Pools.GetAccepts(st.world.ledgers[e.assetType].pool, e.key)
  {
    var e := st.scope.entries[i];
    BalancedMeans(outside, st.world, st.scope.entries, |st.scope.entries|);
    LeaseAmong(st.scope.entries, |st.scope.entries|, i);
    assert st.world.ledgers[e.assetType].live
        == outside[e.assetType] + LeasesOf(st.scope.entries, |st.scope.entries|, e.assetType);
    Pools.LiveIsAccepted(st.world.ledgers[e.assetType], e.key);
  }

  lemma {:induction false} LeaseAmong(entries: seq<Entry>, count: nat, i: nat)
    requires i < count <= |entries|
    ensures entries[i].key in LeasesOf(entries, count, entries[i].assetType)
    decreases count
  {
    if i < count - 1 { LeaseAmong(entries, count - 1, i); }
  }

  // ---------------------------------------------------------------- acquisition over a built database

  /** What is being visited ranks above what is acquired. */
  ghost predicate VisitingAbove(db: Database, rank: map<string, nat>, visiting: seq<Name>, id: string) {
    forall v :: v in visiting ==>
      Find(db, v.id).Some? && v.id in rank && (Find(db, id).Some? && id in rank ==> rank[id] < rank[v.id])
  }

  /** The identifiers of a database are those of its records. */
  lemma FoundRecord(db: Database, id: string)
    requires DatabaseSound(db) && Find(db, id).Some?
    ensures Find(db, id).value in db.records && Find(db, id).value.id == id
  {
  }

  /** In a built database every dependency is found, and ranks below what depends on it. */
  lemma DependencyFound(db: Database, rank: map<string, nat>, id: string, d: string)
    requires DatabaseSound(db) && ClosedAcyclic(db, rank) && Find(db, id).Some?
    requires d in Find(db, id).value.dependencies
    ensures Find(db, d).Some? && d in rank && id in rank && rank[d] < rank[id]
  {
    FoundRecord(db, id);
  }

  lemma VisitingBelow(db: Database, rank: map<string, nat>, visiting: seq<Name>, n: Name, d: string)
    requires DatabaseSound(db) && ClosedAcyclic(db, rank) && Find(db, n.id).Some?
    requires VisitingAbove(db, rank, visiting, n.id) && d in Find(db, n.id).value.dependencies
    ensures VisitingAbove(db, rank, visiting + [n], d)
  {
    DependencyFound(db, rank, n.id, d);
  }

  lemma {:induction false} AcquireNeverStructural(cfg: Config, provider: nat -> Option<Pools.Blob>,
                                                  outside: map<AssetType, multiset<Pools.Key>>, rank: map<string, nat>,
                                                  st: State, n: Name, depth: nat, visiting: seq<Name>)
    requires StateGood(cfg, outside, st) && depth <= cfg.maxDependencyDepth + 1
    requires DatabaseSound(cfg.db) && ClosedAcyclic(cfg.db, rank) && VisitingAbove(cfg.db, rank, visiting, n.id)
    ensures var key := Acquire(cfg, provider, st, n, depth, visiting).1; key.Err? ==> !Structural(key.error)
    decreases cfg.maxDependencyDepth + 1 - depth, 1, 0
  {
    if Descends(cfg, st.scope, n, depth, visiting) {
      var dependencies := Find(cfg.db, n.id).value.dependencies;
      AcquireDescends(cfg, provider, st, n, depth, visiting);
      AcquireAllNeverStructural(cfg, provider, outside, rank, st, n, dependencies, 0, depth, visiting);
      AcquireAllKeeps(cfg, provider, outside, st, dependencies, 0, depth, visiting + [n]);
      var (ready, failure) := AcquireAll(cfg, provider, st, dependencies, 0, depth, visiting + [n]);
      if failure.None? {
        assert n in visiting + [n];
        LoadAndAddKeeps(cfg, provider, outside, ready, n);
      }
    }
  }

  lemma {:induction false} AcquireAllNeverStructural(cfg: Config, provider: nat -> Option<Pools.Blob>,
                                                     outside: map<AssetType, multiset<Pools.Key>>,
                                                     rank: map<string, nat>,
                                                     st: State, n: Name, dependencies: seq<string>, from: nat,
                                                     depth: nat, visiting: seq<Name>)
    requires StateGood(cfg, outside, st) && depth <= cfg.maxDependencyDepth && from <= |dependencies|
    requires DatabaseSound(cfg.db) && ClosedAcyclic(cfg.db, rank) && VisitingAbove(cfg.db, rank, visiting, n.id)
    requires Find(cfg.db, n.id).Some? && dependencies == Find(cfg.db, n.id).value.dependencies
    ensures var failure := AcquireAll(cfg, provider, st, dependencies, from, depth, visiting + [n]).1;
      failure.Some? ==> !Structural(failure.value)
    decreases cfg.maxDependencyDepth + 1 - depth, 0, |dependencies| - from
  {
    if from < |dependencies| {
      var d := dependencies[from];
      DependencyFound(cfg.db, rank, n.id, d);
      VisitingBelow(cfg.db, rank, visiting, n, d);
      var m := Name(Find(cfg.db, d).value.assetType, d);
      AcquireNeverStructural(cfg, provider, outside, rank, st, m, depth + 1, visiting + [n]);
      AcquireKeeps(cfg, provider, outside, st, m, depth + 1, visiting + [n]);
      var (next, key) := Acquire(cfg, provider, st, m, depth + 1, visiting + [n]);
      if key.Ok? {
        AcquireAllNeverStructural(cfg, provider, outside, rank, next, n, dependencies, from + 1, depth, visiting);
      }
    }
  }

  /** Over a database that was built, no request ever meets a dependency cycle, a missing dependency or an
      index conflict: those branches cannot be reached. */
  lemma BuiltDatabaseNeverStructural(malformed: AssetRecord -> bool, limits: Limits, input: seq<AssetRecord>,
                                     cfg: Config,
                                     provider: nat -> Option<Pools.Blob>, outside: map<AssetType, multiset<Pools.Key>>,
                                     st: State, n: Name, policy: Policy)
    requires Build(malformed, limits, input) == Some(cfg.db) && StateGood(cfg, outside, st) && n !in st.scope.index
    ensures var outcome := Request(cfg, provider, outside, st, n, policy).2;
      !outcome.FallbackConflict? && (!outcome.Granted? ==> !Structural(outcome.cause))
  {
    var records, rank := BuildAccepts(malformed, limits, input);
    AcquireNeverStructural(cfg, provider, outside, rank, st, n, 1, []);
    RequestAllOrNothing(cfg, provider, outside, st, n, policy);
    AcquireKeeps(cfg, provider, outside, st, n, 1, []);
    var (r, key) := Acquire(cfg, provider, st, n, 1, []);
    if key.Err? && policy == Fallback {
      RollbackRestores(cfg, outside, st, r);
      FallbackEntered(cfg, outside, st, RollbackTo(outside, r, |st.scope.entries|).world, n, key.error);
    }
  }
}
