/**
 The resource manager and its scopes as objects: pools, entries and index updated in place, each method
 proved against the functions of ResourcePools and ResourceScopes.
 */
module ResourceManagers {
  import opened Wrappers
  import opened AssetDatabases
  import Pools = ResourcePools
  import S = ResourceScopes
  import Contents = ResourceContents

  /** The public form of a key. */
  datatype Handle = Handle(index: nat, generation: nat, token: nat)

  datatype HandleError =
    InvalidHandle | ManagerMismatch | InvalidIndex | StaleHandle | NotReady | FallbackPinned | InUse

  function PerType<T>(f: AssetType -> T): map<AssetType, T> {
    map[Mesh := f(Mesh), Material := f(Material), Texture := f(Texture), Audio := f(Audio), Shader := f(Shader)]
  }

  lemma PerTypeAt<T>(f: AssetType -> T, t: AssetType)
    ensures t in PerType(f) && PerType(f)[t] == f(t)
  {
    match t case Mesh => case Material => case Texture => case Audio => case Shader =>
  }

  /** Changing the value of each type in turn changes every value once. */
  lemma OneAfterAnother<T>(m: map<AssetType, T>, f: T -> T)
    requires forall t: AssetType :: t in m
    ensures var mesh := m[Mesh := f(m[Mesh])];
      var material := mesh[Material := f(mesh[Material])];
      var texture := material[Texture := f(material[Texture])];
      var audio := texture[Audio := f(texture[Audio])];
      var all := audio[Shader := f(audio[Shader])];
      forall t: AssetType :: t in all && all[t] == f(m[t])
  {
    forall t: AssetType
      ensures m[Mesh := f(m[Mesh])][Material := f(m[Material])][Texture := f(m[Texture])][Audio := f(m[Audio])]
               [Shader := f(m[Shader])][t] == f(m[t])
    {
      match t case Mesh => case Material => case Texture => case Audio => case Shader =>
    }
  }

  class ResourceManager {
    const cfg: S.Config
    const token: nat
    /** What the content provider answers to each read in turn. */
    const provider: nat -> Option<Pools.Blob>
    var pools: map<AssetType, Pools.Pool>
    var answered: nat
    /** The pools with an observer's books: leases alive and ever issued. */
    ghost var ledgers: map<AssetType, Pools.Ledger>

    ghost function World(): S.World
      reads this
    {
      S.World(ledgers, answered)
    }

    ghost predicate Valid()
      reads this
    {
      S.WorldGood(World()) && forall t: AssetType :: t in pools && pools[t] == ledgers[t].pool
    }

    constructor (cfg: S.Config, token: nat, provider: nat -> Option<Pools.Blob>, fallbackId: AssetType -> string,
                 payload: AssetType -> Pools.Blob)
      ensures Valid() && this.cfg == cfg && this.token == token && this.provider == provider
      ensures forall t: AssetType :: ledgers[t] == Pools.InitialLedger(fallbackId(t), payload(t))
    {
      this.cfg, this.token, this.provider, answered := cfg, token, provider, 0;
      pools := PerType(t => Pools.InitialPool(fallbackId(t), payload(t)));
      ledgers := PerType(t => Pools.InitialLedger(fallbackId(t), payload(t)));
      new;
      forall t: AssetType
        ensures t in ledgers && ledgers[t] == Pools.InitialLedger(fallbackId(t), payload(t)) && Pools.Good(ledgers[t])
        ensures t in pools && pools[t] == ledgers[t].pool
      {
        PerTypeAt(u => Pools.InitialPool(fallbackId(u), payload(u)), t);
        PerTypeAt(u => Pools.InitialLedger(fallbackId(u), payload(u)), t);
        Pools.InitiallyGood(fallbackId(t), payload(t));
      }
    }

    /** The first locked part of a load. */
    method BeginLoad(assetType: AssetType, id: string) returns (outcome: Pools.BeginOutcome)
      requires assetType in pools
      requires id in pools[assetType].byId ==> pools[assetType].byId[id] < |pools[assetType].slots|
      modifies this`pools
      ensures (pools, outcome)
          == var (pool, o) := old(Pools.BeginLoad(pools[assetType], id)); (old(pools)[assetType := pool], o)
    {
      var pool := pools[assetType];
      if id in pool.byId {
        var index := pool.byId[id];
        var slot := pool.slots[index];
        if slot.state == Pools.Ready && slot.resource.Some? {
          slot := slot.(strongReferences := slot.strongReferences + 1);
          pools := pools[assetType := pool.(slots := pool.slots[index := slot])];
          return Pools.Leased(index);
        }
        slot := slot.(state := Pools.Loading);
        pools := pools[assetType := pool.(slots := pool.slots[index := slot])];
        return Pools.Pending(index);
      }
      if |pool.slots| >= Pools.INVALID_INDEX {
        assert pools == pools[assetType := pool];
        return Pools.SlotLimit;
      }
      var slot := Pools.Slot(id, Pools.Loading, 1, 0, 0, None, false, false);
      pools := pools[assetType := pool.(slots := pool.slots + [slot], byId := pool.byId[id := |pool.slots|])];
      outcome := Pools.Pending(|pool.slots|);
    }

    /** The second locked part. */
    method FinishLoad(assetType: AssetType, index: nat, content: Option<Pools.Blob>)
      requires assetType in pools && index < |pools[assetType].slots|
      modifies this`pools
      ensures pools == old(pools[assetType := Pools.FinishLoad(pools[assetType], index, content)])
    {
      var pool := pools[assetType];
      var slot := pool.slots[index];
      if content.None? {
        slot := slot.(state := Pools.Failed, resource := None);
      } else {
        slot := slot.(resource := content, state := Pools.Ready);
        slot := slot.(contentRevision := (slot.contentRevision + 1) % Pools.REVISION_LIMIT);
        if slot.contentRevision == 0 { slot := slot.(contentRevision := 1); }
        ghost var filled := slot;
        slot := slot.(strongReferences := slot.strongReferences + 1);
        assert pool.slots[index := filled][index := slot] == pool.slots[index := slot];
      }
      pools := pools[assetType := pool.(slots := pool.slots[index := slot])];
    }

    /** Asks the provider, without holding the lock, and finishes the load with its answer. */
    method ReadAndFinish(assetType: AssetType, index: nat) returns (r: Result<Pools.Key, S.Error>)
      requires assetType in pools && index < |pools[assetType].slots|
      modifies this`pools, this`answered
      ensures var content := S.NextContent(cfg, provider, S.World(map[], old(answered)));
        && answered == old(answered) + (if cfg.hasProvider then 1 else 0)
        && pools == old(pools)[assetType := Pools.FinishLoad(old(pools)[assetType], index, content)]
        && r == if content.Some? then Ok(Pools.KeyAt(old(pools)[assetType], index))
                else if !cfg.hasProvider then Err(S.ProviderMissing) else Err(S.LoadFailed)
    {
      if !cfg.hasProvider {
        FinishLoad(assetType, index, None);
        return Err(S.ProviderMissing);
      }
      var answer := provider(answered);
      answered := answered + 1;
      if answer.None? || |answer.value| > cfg.maxBlobBytes {
        FinishLoad(assetType, index, None);
        return Err(S.LoadFailed);
      }
      FinishLoad(assetType, index, answer);
      r := Ok(Pools.KeyAt(pools[assetType], index));
    }

    method Load(assetType: AssetType, id: string) returns (r: Result<Pools.Key, S.Error>)
      requires Valid()
      modifies this
      ensures Valid() && (World(), r) == old(S.Load(cfg, provider, World(), assetType, id))
      ensures S.LoadResult(cfg, provider, old(World()), assetType, id, World(), r)
    {
      S.LoadAnswers(cfg, provider, World(), assetType, id);
      var record := Find(cfg.db, id);
      if record.None? { return Err(S.AssetNotFound); }
      if record.value.assetType != assetType { return Err(S.TypeMismatch); }
      r := LoadKnown(assetType, id);
    }

    /** The load of a record that is there, of the right type. */
    method LoadKnown(assetType: AssetType, id: string) returns (r: Result<Pools.Key, S.Error>)
      requires Valid() && Find(cfg.db, id).Some? && Find(cfg.db, id).value.assetType == assetType
      modifies this
      ensures Valid() && (World(), r) == old(S.Load(cfg, provider, World(), assetType, id))
    {
      ghost var l, content := ledgers[assetType], S.NextContent(cfg, provider, World());
      LoadBooks(l, id, content);
      var outcome := BeginLoad(assetType, id);
      ledgers := ledgers[assetType := Pools.Do(l, Pools.Load(id, content))];
      match outcome
      case SlotLimit => r := Err(S.SlotLimitReached);
      case Leased(index) => r := Ok(Pools.KeyAt(pools[assetType], index));
      case Pending(index) => r := ReadAndFinish(assetType, index);
    }

    method TakeFallback(assetType: AssetType) returns (key: Pools.Key)
      requires Valid()
      modifies this
      ensures Valid() && (World(), key) == old(S.TakeFallback(World(), assetType))
    {
      ghost var l := ledgers[assetType];
      Pools.FallbackIs(l);
      var pool := pools[assetType];
      var slot := pool.slots[pool.fallbackIndex];
      slot := slot.(strongReferences := slot.strongReferences + 1);
      pools := pools[assetType := pool.(slots := pool.slots[pool.fallbackIndex := slot])];
      ledgers := ledgers[assetType := Pools.Do(l, Pools.Other(Pools.Fallback))];
      key := Pools.Key(pool.fallbackIndex, slot.generation);
    }

    /** What the destructor of a lease does. */
    method ReleaseLease(assetType: AssetType, key: Pools.Key)
      requires Valid() && key in ledgers[assetType].live
      modifies this
      ensures Valid() && World() == old(S.DropLease(World(), assetType, key))
    {
      ghost var l := ledgers[assetType];
      Pools.DropIs(l, key);
      ledgers := ledgers[assetType := Pools.Do(l, Pools.Other(Pools.Drop(key)))];
      var pool := DropReference(pools[assetType], key);
      pools := pools[assetType := pool];
    }

    /** One reference less, if the key is the slot's current one; with the last one the slot is given up. */
    static method DropReference(pool: Pools.Pool, key: Pools.Key) returns (r: Pools.Pool)
      ensures r == Pools.ReleaseLease(pool, key)
    {
      if key.index >= |pool.slots| { return pool; }
      var slot := pool.slots[key.index];
      if slot.generation != key.generation || slot.strongReferences == 0 { return pool; }
      slot := slot.(strongReferences := slot.strongReferences - 1);
      r := pool.(slots := pool.slots[key.index := slot]);
      if slot.strongReferences == 0 && !slot.pinned { r := ReleaseSlot(r, key.index); }
    }

    /** The slot moves on to its next generation; in its last one it retires and gives up its identifier. */
    static method ReleaseSlot(pool: Pools.Pool, index: nat) returns (r: Pools.Pool)
      requires index < |pool.slots|
      ensures r == Pools.ReleaseSlot(pool, index)
    {
      var slot := pool.slots[index].(resource := None, state := Pools.ResourceState.Unloaded);
      if slot.generation == Pools.MAX_GENERATION {
        return pool.(slots := pool.slots[index := slot.(retired := true)], byId := pool.byId - {slot.id});
      }
      r := pool.(slots := pool.slots[index := slot.(generation := slot.generation + 1)]);
    }

    /** The handle check shared by the accessors. */
    method CheckedSlot(assetType: AssetType, h: Handle) returns (r: Result<Pools.Slot, HandleError>)
      requires Valid()
      ensures r.Ok? <==>
        h.token == token && token != 0 && Pools.Checked(pools[assetType], Pools.Key(h.index, h.generation))
      ensures r.Ok? ==> h.index < |pools[assetType].slots| && r.value == pools[assetType].slots[h.index]
    {
      if h.index == Pools.INVALID_INDEX || h.generation == 0 { return Err(InvalidHandle); }
      if h.token == 0 || h.token != token { return Err(ManagerMismatch); }
      var slots := pools[assetType].slots;
      if h.index >= |slots| { return Err(InvalidIndex); }
      var slot := slots[h.index];
      if slot.retired || h.generation != slot.generation { return Err(StaleHandle); }
      r := Ok(slot);
    }

    /** A handle of this manager that was issued for a lease is accepted exactly while a lease of its own
        lifetime is alive. */
    method Get(assetType: AssetType, h: Handle) returns (r: Result<Pools.Blob, HandleError>)
      requires Valid()
      ensures r.Ok? <==>
        h.token == token && token != 0 && Pools.GetAccepts(pools[assetType], Pools.Key(h.index, h.generation))
      ensures r.Ok? ==> Contents.Gives(pools[assetType], Pools.Key(h.index, h.generation)) == Some(r.value)
      ensures
        && h.token == token && token != 0 && h.index != 0
        && Pools.Key(h.index, h.generation) in ledgers[assetType].issued ==>
        (r.Ok? <==> Pools.Key(h.index, h.generation) in ledgers[assetType].live)
    {
      Pools.GoodMeans(ledgers[assetType]);
      var slot := CheckedSlot(assetType, h);
      if slot.Err? { return Err(slot.error); }
      if slot.value.state != Pools.Ready || slot.value.resource.None? { return Err(NotReady); }
      r := Ok(slot.value.resource.value);
    }

    /** Unloading never frees a slot by a handle that was issued: while its lease lives the slot is in use, and
        afterwards the handle is stale. */
    method Unload(assetType: AssetType, h: Handle) returns (r: Result<(), HandleError>)
      requires Valid()
      modifies this
      ensures Valid() && ledgers.Keys == old(ledgers.Keys)
      ensures forall t: AssetType :: t != assetType ==> ledgers[t] == old(ledgers[t])
      ensures answered == old(answered) && ledgers[assetType].live == old(ledgers[assetType].live)
      ensures r.Ok? ==> h.index < |old(pools[assetType]).slots|
                        && pools[assetType] == Pools.ReleaseSlot(old(pools[assetType]), h.index)
      ensures r.Err? ==> World() == old(World())
      ensures Pools.Key(h.index, h.generation) in old(ledgers[assetType].issued) ==> r.Err?
    {
      ghost var l, key := ledgers[assetType], Pools.Key(h.index, h.generation);
      Pools.UnloadIs(l, key);
      var slot := CheckedSlot(assetType, h);
      if slot.Err? { return Err(slot.error); }
      if slot.value.pinned { return Err(FallbackPinned); }
      if slot.value.strongReferences != 0 { return Err(InUse); }
      var pool := ReleaseSlot(pools[assetType], h.index);
      pools := pools[assetType := pool];
      ledgers := ledgers[assetType := Pools.Do(l, Pools.Other(Pools.UnloadHandle(key)))];
      r := Ok(());
    }

    static method Sweep(pool: Pools.Pool) returns (r: Pools.Pool)
      ensures r == Pools.UnloadUnused(pool, |pool.slots|)
    {
      r := pool;
      for i := 0 to |pool.slots|
        invariant r == Pools.UnloadUnused(pool, i)
      {
        if Pools.IsUnused(r.slots[i]) { r := ReleaseSlot(r, i); }
      }
    }

    static ghost function SweptPool(pool: Pools.Pool): Pools.Pool { Pools.UnloadUnused(pool, |pool.slots|) }

    method UnloadUnusedOf(assetType: AssetType)
      requires Valid()
      modifies this
      ensures Valid() && answered == old(answered)
      ensures ledgers == old(ledgers[assetType := Pools.Do(ledgers[assetType], Pools.Other(Pools.Sweep))])
      ensures S.SameLeases(old(World()), World())
      ensures assetType in old(pools) && pools == old(pools)[assetType := SweptPool(old(pools)[assetType])]
    {
      ghost var l := ledgers[assetType];
      Pools.SweepIs(l);
      var pool := Sweep(pools[assetType]);
      pools := pools[assetType := pool];
      ledgers := ledgers[assetType := Pools.Do(l, Pools.Other(Pools.Sweep))];
    }

    /** In every pool exactly the unused slots are given up; no lease anywhere is affected. */
    method UnloadUnused()
      requires Valid()
      modifies this
      ensures Valid() && S.SameLeases(old(World()), World())
      ensures forall t: AssetType :: t in old(pools) && Pools.Swept(old(pools)[t], pools[t], |pools[t].slots|)
    {
      ghost var was := pools;
      UnloadUnusedOf(Mesh);
      UnloadUnusedOf(Material);
      UnloadUnusedOf(Texture);
      UnloadUnusedOf(Audio);
      UnloadUnusedOf(Shader);
      OneAfterAnother(was, p => SweptPool(p));
      forall t: AssetType ensures Pools.Swept(was[t], pools[t], |pools[t].slots|) {
        Pools.SweepExactly(was[t], |was[t].slots|);
      }
    }
  }

  /** What a whole load does to pool and lease, in terms of its two parts. */
  lemma LoadBooks(l: Pools.Ledger, id: string, content: Option<Pools.Blob>)
    requires Pools.Good(l)
    ensures id in l.pool.byId ==> l.pool.byId[id] < |l.pool.slots|
    ensures Pools.Good(Pools.Do(l, Pools.Load(id, content)))
    ensures var (pool, outcome) := Pools.BeginLoad(l.pool, id);
      var after := Pools.Do(l, Pools.Load(id, content));
      && outcome == Pools.LoadBegins(l, id)
      && (outcome.Pending? ==>
           outcome.index < |pool.slots| && after.pool == Pools.FinishLoad(pool, outcome.index, content))
      && (!outcome.Pending? ==> after.pool == pool)
      && (outcome.Leased? ==> outcome.index < |pool.slots|)
      && Pools.LoadOutcome(l, id, content)
         == if outcome.SlotLimit? || (outcome.Pending? && content.None?) then None
            else Some(Pools.KeyAt(after.pool, outcome.index))
  {
    LoadEffect(l, id, content);
    LoadHandsOut(l, id, content);
  }

  /** The pool after a load, by how it began. */
  lemma LoadEffect(l: Pools.Ledger, id: string, content: Option<Pools.Blob>)
    requires Pools.Good(l)
    ensures id in l.pool.byId ==> l.pool.byId[id] < |l.pool.slots|
    ensures Pools.Good(Pools.Do(l, Pools.Load(id, content)))
    ensures var (pool, outcome) := Pools.BeginLoad(l.pool, id);
      var after := Pools.Do(l, Pools.Load(id, content));
      && outcome == Pools.LoadBegins(l, id)
      && (outcome.Pending? ==>
           outcome.index < |pool.slots| && after.pool == Pools.FinishLoad(pool, outcome.index, content))
      && (!outcome.Pending? ==> after.pool == pool)
      && (outcome.Leased? ==> outcome.index < |pool.slots|)
  {
    Pools.GoodMeans(l);
    Pools.DoIs(l, Pools.Load(id, content));
  }

  /** The handle a load hands out is its slot's current one. */
  lemma LoadHandsOut(l: Pools.Ledger, id: string, content: Option<Pools.Blob>)
    requires Pools.Good(l)
    ensures id in l.pool.byId ==> l.pool.byId[id] < |l.pool.slots|
    ensures var (pool, outcome) := Pools.BeginLoad(l.pool, id);
      var after := Pools.Do(l, Pools.Load(id, content));
      && (!outcome.SlotLimit? ==> outcome.index < |after.pool.slots|)
      && Pools.LoadOutcome(l, id, content)
         == if outcome.SlotLimit? || (outcome.Pending? && content.None?) then None
            else Some(Pools.KeyAt(after.pool, outcome.index))
  {
    LoadEffect(l, id, content);
    Pools.GoodMeans(l);
  }

  /** Leases held together: entries, index and the manager's pools change in place, and a request that fails
      puts all of them back. */
  class ResourceScope {
    const manager: ResourceManager
    var entries: seq<S.Entry>
    var index: map<S.Name, nat>
    /** The leases held by others. */
    ghost var outside: map<AssetType, multiset<Pools.Key>>

    ghost function State(): S.State
      reads this, manager
    {
      S.State(manager.World(), S.Scope(entries, index))
    }

    ghost predicate Valid()
      reads this, manager
    {
      manager.Valid() && S.StateGood(manager.cfg, outside, State())
    }

    /** What acquiring an asset and all it depends on comes to. */
    ghost function Acquisition(n: S.Name): Result<Pools.Key, S.Error>
      requires Valid()
      reads this, manager
    {
      S.Acquire(manager.cfg, manager.provider, State(), n, 1, []).1
    }

    constructor (manager: ResourceManager)
      requires manager.Valid()
      ensures Valid() && this.manager == manager && entries == []
    {
      this.manager, entries, index := manager, [], map[];
      outside := map t | t in manager.ledgers :: manager.ledgers[t].live;
      new;
      S.BalancedMeans(outside, manager.World(), [], 0);
    }

    /** Takes note of what other holders of the manager's leases have done. */
    ghost method Rebase(later: map<AssetType, multiset<Pools.Key>>)
      requires manager.Valid() && S.StateGood(manager.cfg, later, State())
      modifies this`outside
      ensures Valid() && outside == later
    {
      outside := later;
    }

    /** Refuses a name the index already has. */
    method AddEntry(entry: S.Entry) returns (ok: bool)
      modifies this`entries, this`index
      ensures ok <==> S.AddEntry(old(S.Scope(entries, index)), entry).Some?
      ensures S.Scope(entries, index)
           == if ok then S.AddEntry(old(S.Scope(entries, index)), entry).value else old(S.Scope(entries, index))
    {
      if S.NameOf(entry) in index { return false; }
      var place := |entries|;
      entries := entries + [entry];
      index := index[S.NameOf(entry) := place];
      ok := true;
    }

    method LoadAndAdd(n: S.Name) returns (r: Result<Pools.Key, S.Error>)
      requires manager.Valid()
      modifies this`entries, this`index, manager
      ensures manager.Valid()
      ensures (State(), r) == old(S.LoadAndAdd(manager.cfg, manager.provider, State(), n))
    {
      S.LoadAndAddIs(manager.cfg, manager.provider, State(), n);
      r := manager.Load(n.assetType, n.id);
      if r.Err? { return; }
      var added := AddEntry(S.Entry(n.assetType, n.id, S.Loaded, None, r.value));
      if !added {
        S.DropLeases(manager.World(), n.assetType, r.value);
        manager.ReleaseLease(n.assetType, r.value);
        return Err(S.ScopeIndexConflict);
      }
    }

    method Acquire(n: S.Name, depth: nat, visiting: seq<S.Name>) returns (r: Result<Pools.Key, S.Error>)
      requires Valid() && depth <= manager.cfg.maxDependencyDepth + 1
      modifies this`entries, this`index, manager
      ensures Valid()
      ensures (State(), r) == old(S.Acquire(manager.cfg, manager.provider, State(), n, depth, visiting))
      decreases manager.cfg.maxDependencyDepth + 1 - depth
    {
      S.AcquireKeeps(manager.cfg, manager.provider, outside, State(), n, depth, visiting);
      if n in index {
        var entry := entries[index[n]];
        return if entry.resolution == S.Loaded then Ok(entry.key) else Err(S.CachedFallbackNotRequired);
      }
      if depth > manager.cfg.maxDependencyDepth { return Err(S.DepthExceeded); }
      if n in visiting { return Err(S.CycleFound); }
      var record := Find(manager.cfg.db, n.id);
      if record.None? { return Err(S.AssetNotFound); }
      if record.value.assetType != n.assetType { return Err(S.TypeMismatch); }
      S.AcquireDescends(manager.cfg, manager.provider, State(), n, depth, visiting);
      var failure := AcquireAll(record.value.dependencies, depth, visiting + [n]);
      if failure.Some? { return Err(failure.value); }
      r := LoadAndAdd(n);
    }

    method AcquireAll(dependencies: seq<string>, depth: nat, visiting: seq<S.Name>) returns (failure: Option<S.Error>)
      requires Valid() && depth <= manager.cfg.maxDependencyDepth
      modifies this`entries, this`index, manager
      ensures Valid()
      ensures (State(), failure)
          == old(S.AcquireAll(manager.cfg, manager.provider, State(), dependencies, 0, depth, visiting))
      decreases manager.cfg.maxDependencyDepth + 1 - depth, 0
    {
      ghost var start := State();
      for k := 0 to |dependencies|
        invariant Valid()
        invariant S.AcquireAll(manager.cfg, manager.provider, State(), dependencies, k, depth, visiting)
               == S.AcquireAll(manager.cfg, manager.provider, start, dependencies, 0, depth, visiting)
      {
        var record := Find(manager.cfg.db, dependencies[k]);
        if record.None? { return Some(S.DependencyNotInDatabase); }
        var key := Acquire(S.Name(record.value.assetType, dependencies[k]), depth + 1, visiting);
        if key.Err? { return Some(S.DependencyFailed(key.error)); }
      }
      failure := None;
    }

    /** Gives up the entries from this size on, their names and their leases. */
    method RollbackTo(size: nat)
      requires manager.Valid() && S.Balanced(outside, manager.World(), entries, |entries|)
      modifies this`entries, this`index, manager
      ensures manager.Valid()
      ensures State() == old(S.RollbackTo(outside, State(), size))
    {
      if size >= |entries| { return; }
      EraseNames(size);
      DropFrom(size);
    }

    method EraseNames(size: nat)
      requires size <= |entries|
      modifies this`index
      ensures index == old(S.Unindexed(entries, index, size, |entries|))
    {
      ghost var was := index;
      for i := size to |entries|
        invariant index == S.Unindexed(entries, was, size, i)
      {
        var n := S.NameOf(entries[i]);
        if n in index && index[n] == i { index := index - {n}; }
      }
    }

    method DropFrom(size: nat)
      requires manager.Valid() && size <= |entries| && S.Balanced(outside, manager.World(), entries, |entries|)
      modifies this`entries, manager
      ensures manager.Valid() && entries == old(entries[..size])
      ensures manager.World() == old(S.Unwound(outside, manager.World(), entries, size, |entries|))
    {
      ghost var all, w := entries, manager.World();
      while |entries| > size
        invariant size <= |entries| <= |all| && entries == all[..|entries|]
        invariant manager.Valid() && S.Balanced(outside, manager.World(), all, |entries|)
        invariant S.Unwound(outside, manager.World(), all, size, |entries|) == S.Unwound(outside, w, all, size, |all|)
      {
        S.OneUnwound(outside, manager.World(), all, |entries|);
        var last := entries[|entries| - 1];
        manager.ReleaseLease(last.assetType, last.key);
        entries := entries[..|entries| - 1];
      }
    }

    /** All or nothing, in each case of the policy. */
    method Request(n: S.Name, policy: S.Policy) returns (key: Option<Pools.Key>, outcome: S.Outcome)
      requires Valid()
      modifies this`entries, this`index, manager
      ensures Valid()
      ensures (State(), key, outcome) == old(S.Request(manager.cfg, manager.provider, outside, State(), n, policy))
      ensures S.RequestResult(old(State()), n, policy, old(Acquisition(n)), State(), key, outcome)
    {
      S.RequestAllOrNothing(manager.cfg, manager.provider, outside, State(), n, policy);
      if n in index {
        var held := S.RequestHeld(entries[index[n]], policy);
        return held.0, held.1;
      }
      var originalSize := |entries|;
      ghost var st := State();
      var acquired := Acquire(n, 1, []);
      if acquired.Ok? { return Some(acquired.value), S.Granted; }
      S.AcquireKeeps(manager.cfg, manager.provider, outside, st, n, 1, []);
      S.RollbackRestores(manager.cfg, outside, st, State());
      RollbackTo(originalSize);
      match policy
      case Required => return None, S.RequiredFailed(acquired.error);
      case Optional => return None, S.OptionalSkipped(acquired.error);
      case Fallback => key, outcome := EnterFallback(n, acquired.error);
    }

    method EnterFallback(n: S.Name, cause: S.Error) returns (key: Option<Pools.Key>, outcome: S.Outcome)
      requires manager.Valid()
      modifies this`entries, this`index, manager
      ensures manager.Valid()
      ensures (State(), key, outcome) == old(S.EnterFallback(manager.World(), S.Scope(entries, index), n, cause))
    {
      S.FallbackLeases(manager.World(), n.assetType);
      var taken := manager.TakeFallback(n.assetType);
      var added := AddEntry(S.Entry(n.assetType, n.id, S.FallbackUsed, Some(cause), taken));
      if !added {
        S.DropLeases(manager.World(), n.assetType, taken);
        manager.ReleaseLease(n.assetType, taken);
        return None, S.FallbackConflict(cause);
      }
      return Some(taken), S.WithFallback(cause);
    }

    /** Gives up everything; only the leases of others remain. */
    method Clear()
      requires Valid()
      modifies this`entries, this`index, manager
      ensures Valid() && entries == []
      ensures forall t: AssetType :: t in manager.ledgers && t in outside && manager.ledgers[t].live == outside[t]
    {
      index := map[];
      S.UnwoundBalanced(outside, manager.World(), entries, 0, |entries|);
      DropFrom(0);
      S.EmptyBalanced(outside, manager.World(), old(entries));
    }
  }
}
