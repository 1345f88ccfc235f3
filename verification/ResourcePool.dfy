/**
 One typed pool of the resource manager: generation-tagged slots, counted leases and slot retirement.

 Every operation that runs under the manager's lock is one step.  A load is two steps, because the lock is
 given up while the content provider reads: steps of other threads, and of a provider that calls back into
 the manager, may come between.
 */
module ResourcePools {
  import opened Wrappers

  const MAX_GENERATION: nat := 0xFFFF_FFFF
  const INVALID_INDEX: nat := 0xFFFF_FFFF
  const REVISION_LIMIT: nat := 0x1_0000_0000_0000_0000

  type Blob = seq<bv8>

  datatype ResourceState = Unloaded | Loading | Ready | Failed | Reloading

  datatype Slot = Slot(id: string, state: ResourceState, generation: nat, contentRevision: nat, strongReferences: nat,
                       resource: Option<Blob>, pinned: bool, retired: bool)

  datatype Pool = Pool(slots: seq<Slot>, byId: map<string, nat>, fallbackIndex: nat)

  /** A handle within its pool, and the identity of a lease. */
  datatype Key = Key(index: nat, generation: nat)

  function InitialPool(fallbackId: string, fallbackPayload: Blob): Pool {
    Pool([Slot(fallbackId, Ready, 1, 1, 0, Some(fallbackPayload), true, false)], map[fallbackId := 0], 0)
  }

  predicate IsReady(slot: Slot) { slot.state == Ready && slot.resource.Some? }

  /** The handle check of every accessor. */
  predicate Checked(pool: Pool, key: Key) {
    && key.index != INVALID_INDEX && key.generation != 0 && key.index < |pool.slots|
    && !pool.slots[key.index].retired && key.generation == pool.slots[key.index].generation
  }

  predicate GetAccepts(pool: Pool, key: Key) { Checked(pool, key) && IsReady(pool.slots[key.index]) }

  // ---------------------------------------------------------------- the pool operations

  function AddReference(pool: Pool, index: nat): Pool
    requires index < |pool.slots|
  {
    var slot := pool.slots[index];
    pool.(slots := pool.slots[index := slot.(strongReferences := slot.strongReferences + 1)])
  }

  datatype BeginOutcome = Leased(index: nat) | Pending(index: nat) | SlotLimit

  /** The first locked part of a load. */
  function BeginLoad(pool: Pool, id: string): (Pool, BeginOutcome)
    requires id in pool.byId ==> pool.byId[id] < |pool.slots|
  {
    if id in pool.byId then
      var index := pool.byId[id];
      if IsReady(pool.slots[index]) then (AddReference(pool, index), Leased(index))
      else (pool.(slots := pool.slots[index := pool.slots[index].(state := Loading)]), Pending(index))
    else if |pool.slots| >= INVALID_INDEX then (pool, SlotLimit)
    else
      var index := |pool.slots|;
      (pool.(slots := pool.slots + [Slot(id, Loading, 1, 0, 0, None, false, false)], byId := pool.byId[id := index]),
       Pending(index))
  }

  /** The second locked part: the provider's content arrived, or did not. */
  function FinishLoad(pool: Pool, index: nat, content: Option<Blob>): Pool
    requires index < |pool.slots|
  {
    var slot := pool.slots[index];
    match content
    case None => pool.(slots := pool.slots[index := slot.(state := Failed, resource := None)])
    case Some(blob) =>
      var revision := (slot.contentRevision + 1) % REVISION_LIMIT;
      var filled := slot.(resource := Some(blob), state := Ready,
                          contentRevision := if revision == 0 then 1 else revision);
      AddReference(pool.(slots := pool.slots[index := filled]), index)
  }

  function ReleaseSlot(pool: Pool, index: nat): Pool
    requires index < |pool.slots|
  {
    var slot := pool.slots[index].(resource := None, state := ResourceState.Unloaded);
    if slot.generation == MAX_GENERATION then
      pool.(slots := pool.slots[index := slot.(retired := true)], byId := pool.byId - {slot.id})
    else pool.(slots := pool.slots[index := slot.(generation := slot.generation + 1)])
  }

  /** What a lease's destructor does. */
  function ReleaseLease(pool: Pool, key: Key): Pool {
    if key.index >= |pool.slots| then pool
    else
      var slot := pool.slots[key.index];
      if slot.generation != key.generation || slot.strongReferences == 0 then pool
      else
        var dropped := slot.(strongReferences := slot.strongReferences - 1);
        var lowered := pool.(slots := pool.slots[key.index := dropped]);
        if dropped.strongReferences == 0 && !dropped.pinned then ReleaseSlot(lowered, key.index) else lowered
  }

  datatype UnloadOutcome = Unloaded | Stale | FallbackPinned | InUse

  function Unload(pool: Pool, key: Key): (Pool, UnloadOutcome) {
    if !Checked(pool, key) then (pool, Stale)
    else
      var slot := pool.slots[key.index];
      if slot.pinned then (pool, FallbackPinned)
      else if slot.strongReferences != 0 then (pool, InUse)
      else (ReleaseSlot(pool, key.index), UnloadOutcome.Unloaded)
  }

  /** One pass over the slots, as far as the given count. */
  function UnloadUnused(pool: Pool, count: nat): (r: Pool)
    requires count <= |pool.slots|
    ensures |r.slots| == |pool.slots|
  {
    if count == 0 then pool
    else
      var before := UnloadUnused(pool, count - 1);
      if IsUnused(before.slots[count - 1]) then ReleaseSlot(before, count - 1) else before
  }

  predicate IsUnused(slot: Slot) {
    !slot.pinned && !slot.retired && slot.strongReferences == 0 && slot.state != ResourceState.Unloaded
  }

  /** A slot given up: in its next generation, or retired after its last. */
  function Released(slot: Slot): Slot {
    var empty := slot.(resource := None, state := ResourceState.Unloaded);
    if slot.generation == MAX_GENERATION then empty.(retired := true) else empty.(generation := slot.generation + 1)
  }

  /** What a sweep over the first slots does: exactly the unused ones are given up, and the retired ones lose their
      names. */
  ghost predicate Swept(before: Pool, after: Pool, count: nat) {
    && count <= |before.slots| == |after.slots| && after.fallbackIndex == before.fallbackIndex
    && (forall i :: 0 <= i < |before.slots| ==>
          after.slots[i] == if i < count && IsUnused(before.slots[i]) then Released(before.slots[i])
              else before.slots[i])
    && forall id :: id in after.byId <==> id in before.byId && !Retires(before, id, count)
  }

  /** One of the slots is given up for good and has that name. */
  ghost predicate Retires(pool: Pool, id: string, count: nat) {
    exists i :: 0 <= i < count && i < |pool.slots| && IsUnused(pool.slots[i])
      && pool.slots[i].generation == MAX_GENERATION && pool.slots[i].id == id
  }

  lemma {:induction false} SweepExactly(pool: Pool, count: nat)
    requires count <= |pool.slots|
    ensures Swept(pool, UnloadUnused(pool, count), count)
  {
    if count > 0 {
      SweepExactly(pool, count - 1);
      var last := pool.slots[count - 1];
      forall id ensures Retires(pool, id, count) <==>
        (Retires(pool, id, count - 1) || (IsUnused(last) && last.generation == MAX_GENERATION && last.id == id))
      {
      }
    }
  }

  // ---------------------------------------------------------------- runs

  /** A pool with the books an observer keeps beside it: the leases now alive, every lease ever issued, and
      the loads that wait for their provider. */
  datatype Ledger = Ledger(pool: Pool, live: multiset<Key>, issued: set<Key>, pending: multiset<nat>)

  datatype Action =
    | Begin(id: string)
    | Finish(index: nat, content: Option<Blob>)
    | Fallback
    | Drop(key: Key)
    | UnloadHandle(key: Key)
    | Sweep

  /** A load can only finish once begun, and only a lease that is alive can be dropped. */
  predicate Enabled(l: Ledger, a: Action) {
    match a
    case Begin(id) => id in l.pool.byId ==> l.pool.byId[id] < |l.pool.slots|
    case Finish(index, _) => index in l.pending && index < |l.pool.slots|
    case Fallback => l.pool.fallbackIndex < |l.pool.slots|
    case Drop(key) => key in l.live
    case UnloadHandle(_) => true
    case Sweep => true
  }

  function KeyAt(pool: Pool, index: nat): Key
    requires index < |pool.slots|
  {
    Key(index, pool.slots[index].generation)
  }

  /** Enters a lease just made on this slot. */
  function Issue(l: Ledger, pool: Pool, index: nat): Ledger
    requires index < |pool.slots|
  {
    l.(pool := pool, live := l.live + multiset{KeyAt(pool, index)}, issued := l.issued + {KeyAt(pool, index)})
  }

  function Step(l: Ledger, a: Action): Ledger
    requires Enabled(l, a)
  {
    match a
    case Begin(id) =>
      var (pool, outcome) := BeginLoad(l.pool, id);
      (match outcome
       case Leased(index) => Issue(l, pool, index)
       case Pending(index) => l.(pool := pool, pending := l.pending + multiset{index})
       case SlotLimit => l)
    case Finish(index, content) =>
      var pool := FinishLoad(l.pool, index, content);
      var rest := l.(pending := l.pending - multiset{index});
      if content.Some? then Issue(rest, pool, index) else rest.(pool := pool)
    case Fallback => Issue(l, AddReference(l.pool, l.pool.fallbackIndex), l.pool.fallbackIndex)
    case Drop(key) => l.(pool := ReleaseLease(l.pool, key), live := l.live - multiset{key})
    case UnloadHandle(key) => l.(pool := Unload(l.pool, key).0)
    case Sweep => l.(pool := UnloadUnused(l.pool, |l.pool.slots|))
  }

  function InitialLedger(fallbackId: string, fallbackPayload: Blob): Ledger {
    Ledger(InitialPool(fallbackId, fallbackPayload), multiset{}, {}, multiset{})
  }

  /** The ledger after the actions, or nothing if one of them was not possible. */
  function Run(start: Ledger, actions: seq<Action>): Option<Ledger> {
    if actions == [] then Some(start)
    else
      var before := Run(start, actions[..|actions| - 1]);
      if before.Some? && Enabled(before.value, actions[|actions| - 1])
      then Some(Step(before.value, actions[|actions| - 1])) else None
  }

  // ---------------------------------------------------------------- what every run keeps

  predicate SlotSound(slot: Slot, index: nat) {
    && 1 <= slot.generation <= MAX_GENERATION
    && (slot.pinned <==> index == 0)
    && (index == 0 ==> slot.generation == 1 && !slot.retired && IsReady(slot))
    && (slot.retired ==> slot.generation == MAX_GENERATION)
  }

  /** Reference counts are exactly the live leases of the slot's current generation. */
  predicate CountsAreLeases(l: Ledger) {
    forall i :: 0 <= i < |l.pool.slots| ==> l.pool.slots[i].strongReferences == l.live[KeyAt(l.pool, i)]
  }

  /** Leases of earlier generations are all gone. */
  predicate LeasesAreCurrent(l: Ledger) {
    forall key :: key in l.live ==>
      (key in l.issued && key.index < |l.pool.slots| && key.generation == l.pool.slots[key.index].generation)
  }

  /** The generation an issued key names is not ahead of its slot, and a key without a live lease is never
      current again: its generation has passed, or its slot is retired. */
  predicate SpentKeysStaySpent(l: Ledger) {
    forall key :: key in l.issued ==>
      (key.index < |l.pool.slots| && key.generation <= l.pool.slots[key.index].generation
       && (key.index == 0 || key in l.live || key.generation < l.pool.slots[key.index].generation
           || l.pool.slots[key.index].retired))
  }

  predicate Indexed(pool: Pool) {
    forall id :: id in pool.byId ==>
      (pool.byId[id] < |pool.slots| && pool.slots[pool.byId[id]].id == id && !pool.slots[pool.byId[id]].retired)
  }

  predicate Sound(l: Ledger) {
    && 0 < |l.pool.slots| <= INVALID_INDEX && l.pool.fallbackIndex == 0
    && (forall i :: 0 <= i < |l.pool.slots| ==> SlotSound(l.pool.slots[i], i))
    && Indexed(l.pool) && CountsAreLeases(l) && LeasesAreCurrent(l) && SpentKeysStaySpent(l)
    && (forall index :: index in l.pending ==> 0 < index < |l.pool.slots|)
  }

  lemma InitiallySound(fallbackId: string, fallbackPayload: Blob)
    ensures Sound(InitialLedger(fallbackId, fallbackPayload))
  {
  }

  /** One lease is issued on a slot that is ready; nothing else of the pool changes. */
  predicate OneMoreLease(l: Ledger, pool: Pool, index: nat) {
    && index < |l.pool.slots| == |pool.slots| && pool.fallbackIndex == 0 && pool.byId == l.pool.byId
    && (forall i :: 0 <= i < |pool.slots| && i != index ==> pool.slots[i] == l.pool.slots[i])
    && var was, now := l.pool.slots[index], pool.slots[index];
    && now.id == was.id && now.generation == was.generation && now.retired == was.retired && now.pinned == was.pinned
    && now.strongReferences == was.strongReferences + 1 && IsReady(now)
  }

  lemma IssueSound(l: Ledger, pool: Pool, index: nat)
    requires Sound(l) && OneMoreLease(l, pool, index)
    ensures Sound(Issue(l, pool, index))
  {
    IssueKeepsSlots(l, pool, index);
    IssueKeepsCounts(l, pool, index);
    IssueKeepsSpent(l, pool, index);
  }

  lemma IssueKeepsSlots(l: Ledger, pool: Pool, index: nat)
    requires Sound(l) && OneMoreLease(l, pool, index)
    ensures var m := Issue(l, pool, index);
      && |m.pool.slots| == |l.pool.slots| && m.pool.fallbackIndex == 0 && m.pending == l.pending && Indexed(m.pool)
      && forall i :: 0 <= i < |m.pool.slots| ==> SlotSound(m.pool.slots[i], i)
  {
  }

  lemma IssueKeepsCounts(l: Ledger, pool: Pool, index: nat)
    requires Sound(l) && OneMoreLease(l, pool, index)
    ensures CountsAreLeases(Issue(l, pool, index)) && LeasesAreCurrent(Issue(l, pool, index))
  {
  }

  lemma IssueKeepsSpent(l: Ledger, pool: Pool, index: nat)
    requires Sound(l) && OneMoreLease(l, pool, index)
    ensures SpentKeysStaySpent(Issue(l, pool, index))
  {
  }

  lemma BeginSound(l: Ledger, id: string)
    requires Sound(l) && Enabled(l, Begin(id))
    ensures Sound(Step(l, Begin(id)))
  {
    if id !in l.pool.byId {
      NewSlotSound(l, id);
    } else if IsReady(l.pool.slots[l.pool.byId[id]]) {
      IssueSound(l, AddReference(l.pool, l.pool.byId[id]), l.pool.byId[id]);
    } else {
      RetrySound(l, id);
    }
  }

  lemma NewSlotSound(l: Ledger, id: string)
    requires Sound(l) && id !in l.pool.byId
    ensures Sound(Step(l, Begin(id)))
  {
    NewSlotKeepsSlots(l, id);
    NewSlotKeepsLeases(l, id);
  }

  lemma NewSlotKeepsSlots(l: Ledger, id: string)
    requires Sound(l) && id !in l.pool.byId
    ensures var m := Step(l, Begin(id));
      && 0 < |m.pool.slots| <= INVALID_INDEX && m.pool.fallbackIndex == 0 && Indexed(m.pool)
      && (forall i :: 0 <= i < |m.pool.slots| ==> SlotSound(m.pool.slots[i], i))
      && (forall index :: index in m.pending ==> 0 < index < |m.pool.slots|)
  {
  }

  lemma NewSlotKeepsLeases(l: Ledger, id: string)
    requires Sound(l) && id !in l.pool.byId
    ensures var m := Step(l, Begin(id)); CountsAreLeases(m) && LeasesAreCurrent(m) && SpentKeysStaySpent(m)
  {
    assert Key(|l.pool.slots|, 1) !in l.live;
  }

  lemma RetrySound(l: Ledger, id: string)
    requires Sound(l) && id in l.pool.byId && !IsReady(l.pool.slots[l.pool.byId[id]])
    ensures Sound(Step(l, Begin(id)))
  {
  }

  lemma FinishSound(l: Ledger, index: nat, content: Option<Blob>)
    requires Sound(l) && Enabled(l, Finish(index, content))
    ensures Sound(Step(l, Finish(index, content)))
  {
    var rest := l.(pending := l.pending - multiset{index});
    if content.Some? {
      IssueSound(rest, FinishLoad(l.pool, index, content), index);
    } else {
      FailedLoadSound(l, index);
    }
  }

  lemma FailedLoadSound(l: Ledger, index: nat)
    requires Sound(l) && Enabled(l, Finish(index, None))
    ensures Sound(Step(l, Finish(index, None)))
  {
  }

  lemma ReleaseSound(l: Ledger, index: nat)
    requires Sound(l) && 0 < index < |l.pool.slots| && l.pool.slots[index].strongReferences == 0
    ensures Sound(l.(pool := ReleaseSlot(l.pool, index)))
  {
    ReleaseKeepsSlots(l, index);
    ReleaseKeepsLeases(l, index);
    ReleaseKeepsSpent(l, index);
  }

  lemma ReleaseKeepsSlots(l: Ledger, index: nat)
    requires Sound(l) && 0 < index < |l.pool.slots| && l.pool.slots[index].strongReferences == 0
    ensures var pool := ReleaseSlot(l.pool, index);
      && |pool.slots| == |l.pool.slots| && pool.fallbackIndex == 0 && Indexed(pool)
      && forall i :: 0 <= i < |pool.slots| ==> SlotSound(pool.slots[i], i)
  {
  }

  /** No lease names the released slot's generation, nor the one it moves on to. */
  lemma ReleaseKeepsLeases(l: Ledger, index: nat)
    requires Sound(l) && 0 < index < |l.pool.slots| && l.pool.slots[index].strongReferences == 0
    ensures CountsAreLeases(l.(pool := ReleaseSlot(l.pool, index)))
    ensures LeasesAreCurrent(l.(pool := ReleaseSlot(l.pool, index)))
  {
    var key := KeyAt(l.pool, index);
    assert key !in l.live && Key(index, key.generation + 1) !in l.live;
  }

  lemma ReleaseKeepsSpent(l: Ledger, index: nat)
    requires Sound(l) && 0 < index < |l.pool.slots| && l.pool.slots[index].strongReferences == 0
    ensures SpentKeysStaySpent(l.(pool := ReleaseSlot(l.pool, index)))
  {
    assert KeyAt(l.pool, index) !in l.live;
  }

  /** Dropping the last lease of an ordinary slot moves the slot on to its next generation, or retires it. */
  lemma DropSound(l: Ledger, key: Key)
    requires Sound(l) && key in l.live
    ensures Sound(Step(l, Drop(key)))
  {
    DropKeepsSlots(l, key);
    DropKeepsCounts(l, key);
    DropKeepsCurrent(l, key);
    DropKeepsSpent(l, key);
  }

  lemma DropKeepsSlots(l: Ledger, key: Key)
    requires Sound(l) && key in l.live
    ensures var m := Step(l, Drop(key));
      && |m.pool.slots| == |l.pool.slots| && m.pool.fallbackIndex == 0 && m.pending == l.pending && Indexed(m.pool)
      && (forall i :: 0 <= i < |m.pool.slots| ==> SlotSound(m.pool.slots[i], i))
  {
  }

  lemma DropKeepsCounts(l: Ledger, key: Key)
    requires Sound(l) && key in l.live
    ensures CountsAreLeases(Step(l, Drop(key)))
  {
    var slot := l.pool.slots[key.index];
    assert KeyAt(l.pool, key.index) == key;
    var m := Step(l, Drop(key));
    assert m.live[key] == slot.strongReferences - 1;
    assert forall other :: other != key ==> m.live[other] == l.live[other];
    if slot.strongReferences == 1 && !slot.pinned && slot.generation != MAX_GENERATION {
      var next := Key(key.index, key.generation + 1);
      assert KeyAt(m.pool, key.index) == next;
      assert next !in l.live;
    }
  }

  lemma DropKeepsCurrent(l: Ledger, key: Key)
    requires Sound(l) && key in l.live
    ensures LeasesAreCurrent(Step(l, Drop(key)))
  {
    var m := Step(l, Drop(key));
    assert KeyAt(l.pool, key.index) == key;
    assert m.live[key] == l.pool.slots[key.index].strongReferences - 1;
    assert forall other :: other in m.live ==> other in l.live;
  }

  lemma DropKeepsSpent(l: Ledger, key: Key)
    requires Sound(l) && key in l.live
    ensures SpentKeysStaySpent(Step(l, Drop(key)))
  {
    var m := Step(l, Drop(key));
    assert KeyAt(l.pool, key.index) == key;
    forall other | other in m.issued
      ensures other.index < |m.pool.slots| && other.generation <= m.pool.slots[other.index].generation
      ensures other.index == 0 || other in m.live || other.generation < m.pool.slots[other.index].generation
           || m.pool.slots[other.index].retired
    {
      assert other != key ==> m.live[other] == l.live[other];
    }
  }

  lemma {:induction false} SweepSound(l: Ledger, count: nat)
    requires Sound(l) && count <= |l.pool.slots|
    ensures Sound(l.(pool := UnloadUnused(l.pool, count)))
    decreases count
  {
    if count > 0 {
      SweepSound(l, count - 1);
      var before := l.(pool := UnloadUnused(l.pool, count - 1));
      var slot := before.pool.slots[count - 1];
      if !slot.pinned && !slot.retired && slot.strongReferences == 0 && slot.state != ResourceState.Unloaded {
        ReleaseSound(before, count - 1);
      }
    }
  }

  lemma StepSound(l: Ledger, a: Action)
    requires Sound(l) && Enabled(l, a)
    ensures Sound(Step(l, a))
  {
    match a
    case Begin(id) => BeginSound(l, id);
    case Finish(index, content) => FinishSound(l, index, content);
    case Fallback => IssueSound(l, AddReference(l.pool, 0), 0);
    case Drop(key) => DropSound(l, key);
    case UnloadHandle(key) =>
      if Unload(l.pool, key).1 == UnloadOutcome.Unloaded { ReleaseSound(l, key.index); }
    case Sweep => SweepSound(l, |l.pool.slots|);
  }

  /** The books balance after every run, whatever the interleaving. */
  lemma {:induction false} RunSound(start: Ledger, actions: seq<Action>)
    requires Sound(start) && Run(start, actions).Some?
    ensures Sound(Run(start, actions).value)
    decreases |actions|
  {
    if actions != [] {
      RunSound(start, actions[..|actions| - 1]);
      StepSound(Run(start, actions[..|actions| - 1]).value, actions[|actions| - 1]);
    }
  }

  /** No ABA: in every run, whatever the interleaving, a handle that was issued is only ever accepted while
      a lease of its own lifetime is alive, and it never lets anyone unload the slot. */
  lemma AcceptedHandlesAreLive(fallbackId: string, fallbackPayload: Blob, actions: seq<Action>, key: Key)
    requires Run(InitialLedger(fallbackId, fallbackPayload), actions).Some?
    requires key in Run(InitialLedger(fallbackId, fallbackPayload), actions).value.issued && key.index != 0
    ensures var l := Run(InitialLedger(fallbackId, fallbackPayload), actions).value;
      && (GetAccepts(l.pool, key) ==> key in l.live)
      && Unload(l.pool, key).1 in {Stale, InUse}
  {
    InitiallySound(fallbackId, fallbackPayload);
    RunSound(InitialLedger(fallbackId, fallbackPayload), actions);
  }

  // ---------------------------------------------------------------- when live leases are accepted

  /** A handle is accepted exactly while a lease of its lifetime is alive. */
  predicate Faithful(l: Ledger) {
    forall key :: key in l.issued && key.index != 0 ==> (GetAccepts(l.pool, key) <==> key in l.live)
  }

  predicate LeasedSlotsReady(l: Ledger) {
    forall i :: 0 <= i < |l.pool.slots| && l.pool.slots[i].strongReferences > 0 ==>
      IsReady(l.pool.slots[i]) && !l.pool.slots[i].retired
  }

  lemma FaithfulMeansReady(l: Ledger)
    requires Sound(l)
    ensures Faithful(l) <==> LeasedSlotsReady(l)
  {
    if Faithful(l) {
      forall i | 0 <= i < |l.pool.slots| && l.pool.slots[i].strongReferences > 0
        ensures IsReady(l.pool.slots[i]) && !l.pool.slots[i].retired
      {
        assert KeyAt(l.pool, i) in l.live;
        assert KeyAt(l.pool, i) in l.issued;
      }
    }
    if LeasedSlotsReady(l) {
      forall key | key in l.issued && key.index != 0 ensures GetAccepts(l.pool, key) <==> key in l.live {
        if key in l.live { assert KeyAt(l.pool, key.index) == key; }
      }
    }
  }

  /** The provider's answer finds the slot as the load left it, as far as it matters: content does not
      arrive at a retired slot, and failure not at a slot that meanwhile has leases. */
  predicate Undisturbed(l: Ledger, a: Action) {
    a.Finish? && a.index < |l.pool.slots| ==>
      if a.content.Some? then !l.pool.slots[a.index].retired else l.pool.slots[a.index].strongReferences == 0
  }

  /** A disturbed load is the only way the correspondence is lost, and it always loses it. */
  lemma FaithfulUntilDisturbed(l: Ledger, a: Action)
    requires Sound(l) && Enabled(l, a) && Faithful(l)
    ensures Faithful(Step(l, a)) <==> Undisturbed(l, a)
  {
    StepSound(l, a);
    FaithfulMeansReady(l);
    FaithfulMeansReady(Step(l, a));
    ReadyUntilDisturbed(l, a);
  }

  lemma ReadyUntilDisturbed(l: Ledger, a: Action)
    requires Sound(l) && Enabled(l, a) && LeasedSlotsReady(l)
    ensures LeasedSlotsReady(Step(l, a)) <==> Undisturbed(l, a)
  {
    match a
    case Begin(id) => BeginReady(l, id);
    case Finish(index, content) => FinishReady(l, index, content);
    case Fallback =>
    case Drop(key) => DropReady(l, key);
    case UnloadHandle(key) =>
    case Sweep => SweepReady(l, |l.pool.slots|);
  }

  lemma BeginReady(l: Ledger, id: string)
    requires Sound(l) && LeasedSlotsReady(l)
    ensures LeasedSlotsReady(Step(l, Begin(id)))
  {
  }

  lemma FinishReady(l: Ledger, index: nat, content: Option<Blob>)
    requires Sound(l) && Enabled(l, Finish(index, content)) && LeasedSlotsReady(l)
    ensures LeasedSlotsReady(Step(l, Finish(index, content))) <==> Undisturbed(l, Finish(index, content))
  {
    var m := Step(l, Finish(index, content));
    assert m.pool.slots[index].strongReferences > 0 <==> content.Some? || l.pool.slots[index].strongReferences > 0;
  }

  lemma DropReady(l: Ledger, key: Key)
    requires Sound(l) && key in l.live && LeasedSlotsReady(l)
    ensures LeasedSlotsReady(Step(l, Drop(key)))
  {
  }

  lemma {:induction false} SweepReady(l: Ledger, count: nat)
    requires LeasedSlotsReady(l) && count <= |l.pool.slots|
    ensures LeasedSlotsReady(l.(pool := UnloadUnused(l.pool, count)))
    decreases count
  {
    if count > 0 { SweepReady(l, count - 1); }
  }

  ghost predicate AllUndisturbed(start: Ledger, actions: seq<Action>) {
    forall k :: 0 <= k < |actions| ==>
      Run(start, actions[..k]).Some? ==> Undisturbed(Run(start, actions[..k]).value, actions[k])
  }

  /** Over whole runs: as long as no load was disturbed, a handle is accepted exactly while a lease of its
      own lifetime is alive, even across generation exhaustion and slot retirement. */
  lemma {:induction false} UndisturbedRunsAreFaithful(start: Ledger, actions: seq<Action>)
    requires Sound(start) && Faithful(start) && Run(start, actions).Some? && AllUndisturbed(start, actions)
    ensures Faithful(Run(start, actions).value)
    decreases |actions|
  {
    if actions != [] {
      var n := |actions| - 1;
      forall k | 0 <= k < n && Run(start, actions[..n][..k]).Some?
        ensures Undisturbed(Run(start, actions[..n][..k]).value, actions[..n][k])
      {
        assert actions[..n][..k] == actions[..k];
      }
      UndisturbedRunsAreFaithful(start, actions[..n]);
      RunSound(start, actions[..n]);
      FaithfulUntilDisturbed(Run(start, actions[..n]).value, actions[n]);
    }
  }

  // ---------------------------------------------------------------- loads that nothing comes between

  /** What the owner does when no other thread sweeps and the provider does not call back. */
  datatype Operation = Load(id: string, content: Option<Blob>) | Other(action: Action)

  predicate Possible(l: Ledger, op: Operation) {
    match op
    case Load(id, _) => Enabled(l, Begin(id))
    case Other(a) => !a.Begin? && !a.Finish? && Enabled(l, a)
  }

  /** A whole load: both locked parts, back to back. */
  function Perform(l: Ledger, op: Operation): Ledger
    requires Sound(l) && Possible(l, op)
  {
    match op
    case Load(id, content) =>
      var outcome := BeginLoad(l.pool, id).1;
      BeginSound(l, id);
      var begun := Step(l, Begin(id));
      if outcome.Pending? then Step(begun, Finish(outcome.index, content)) else begun
    case Other(a) => Step(l, a)
  }

  /** Every slot in use is found under its own identifier. */
  predicate HomeSlots(pool: Pool) {
    forall i :: 0 <= i < |pool.slots| && !pool.slots[i].retired ==>
      (pool.slots[i].id in pool.byId && pool.byId[pool.slots[i].id] == i)
  }

  lemma {:induction false} SweepKeepsHomes(l: Ledger, count: nat)
    requires Sound(l) && HomeSlots(l.pool) && count <= |l.pool.slots|
    ensures HomeSlots(UnloadUnused(l.pool, count))
    decreases count
  {
    if count > 0 {
      SweepKeepsHomes(l, count - 1);
      SweepSound(l, count - 1);
      ReleaseKeepsHomes(UnloadUnused(l.pool, count - 1), count - 1);
    }
  }

  lemma ReleaseKeepsHomes(pool: Pool, index: nat)
    requires index < |pool.slots| && HomeSlots(pool)
    ensures !pool.slots[index].retired ==> HomeSlots(ReleaseSlot(pool, index))
  {
  }

  lemma DropKeepsHomes(l: Ledger, key: Key)
    requires Sound(l) && LeasedSlotsReady(l) && HomeSlots(l.pool) && key in l.live
    ensures HomeSlots(Step(l, Drop(key)).pool)
  {
  }

  /** Without disturbance no asset ever has two slots in use. */
  lemma OneSlotPerAsset(l: Ledger, a: Action)
    requires Sound(l) && Enabled(l, a) && LeasedSlotsReady(l) && HomeSlots(l.pool)
    ensures HomeSlots(Step(l, a).pool)
  {
    match a
    case Begin(id) => BeginKeepsHomes(l, id);
    case Finish(index, content) => FinishKeepsHomes(l, index, content);
    case Fallback =>
    case Drop(key) => DropKeepsHomes(l, key);
    case UnloadHandle(key) =>
      if Unload(l.pool, key).1 == UnloadOutcome.Unloaded { ReleaseKeepsHomes(l.pool, key.index); }
    case Sweep => SweepKeepsHomes(l, |l.pool.slots|);
  }

  lemma BeginKeepsHomes(l: Ledger, id: string)
    requires Sound(l) && HomeSlots(l.pool)
    ensures HomeSlots(Step(l, Begin(id)).pool)
  {
  }

  lemma FinishKeepsHomes(l: Ledger, index: nat, content: Option<Blob>)
    requires HomeSlots(l.pool) && Enabled(l, Finish(index, content))
    ensures HomeSlots(Step(l, Finish(index, content)).pool)
  {
  }

  /** Whole operations are never disturbed, so they keep everything. */
  lemma PerformKeepsAll(l: Ledger, op: Operation)
    requires Sound(l) && Faithful(l) && HomeSlots(l.pool) && Possible(l, op)
    ensures Sound(Perform(l, op)) && Faithful(Perform(l, op)) && HomeSlots(Perform(l, op).pool)
  {
    var first := if op.Load? then Begin(op.id) else op.action;
    FaithfulMeansReady(l);
    StepSound(l, first);
    FaithfulUntilDisturbed(l, first);
    OneSlotPerAsset(l, first);
    if op.Load? && BeginLoad(l.pool, op.id).1.Pending? {
      var begun, second := Step(l, first), Finish(BeginLoad(l.pool, op.id).1.index, op.content);
      assert Undisturbed(begun, second);
      StepSound(begun, second);
      FaithfulUntilDisturbed(begun, second);
      FaithfulMeansReady(begun);
      OneSlotPerAsset(begun, second);
    }
  }

  /** What an owner's operation finds and leaves.  The layers only keep the verifier from unfolding it for
      every pool at once; GoodMeans is how it is used. */
  predicate Good(l: Ledger, layers: nat := 3)
    decreases l, layers
  {
    if layers > 0 then Good(l, layers - 1) else Sound(l) && Faithful(l) && HomeSlots(l.pool)
  }

  lemma {:induction false} GoodMeans(l: Ledger, layers: nat := 3)
    ensures Good(l, layers) <==> Sound(l) && Faithful(l) && HomeSlots(l.pool)
    decreases layers
  {
    if layers > 0 { GoodMeans(l, layers - 1); }
  }

  lemma InitiallyGood(fallbackId: string, fallbackPayload: Blob)
    ensures Good(InitialLedger(fallbackId, fallbackPayload))
  {
    GoodMeans(InitialLedger(fallbackId, fallbackPayload));
  }

  function LoadBegins(l: Ledger, id: string): BeginOutcome
    requires Good(l)
  {
    GoodMeans(l);
    BeginLoad(l.pool, id).1
  }

  /** Which lease a load hands out, if any. */
  function LoadOutcome(l: Ledger, id: string, content: Option<Blob>): Option<Key>
    requires Good(l)
  {
    GoodMeans(l);
    OutcomeOf(l, id, content)
  }

  function OutcomeOf(l: Ledger, id: string, content: Option<Blob>): Option<Key>
    requires Sound(l)
  {
    match BeginLoad(l.pool, id).1
    case SlotLimit => None
    case Leased(index) => Some(KeyAt(l.pool, index))
    case Pending(index) => if content.None? then None else Some(KeyAt(BeginLoad(l.pool, id).0, index))
  }

  /** What its owner may do to a pool: anything but the halves of a load, and drop only live leases. */
  predicate Owned(l: Ledger, op: Operation) {
    op.Other? ==> !op.action.Begin? && !op.action.Finish? && (op.action.Drop? ==> op.action.key in l.live)
  }

  /** A whole operation on a pool in good order.  The layers only keep the verifier from unfolding it wherever
      it is mentioned; DoIs is how it is used. */
  function Do(l: Ledger, op: Operation, layers: nat := 3): (r: Ledger)
    requires Good(l) && Owned(l, op)
    ensures Good(r)
    decreases l, layers
  {
    if layers > 0 then Do(l, op, layers - 1)
    else
      GoodMeans(l);
      PerformKeepsAll(l, op);
      GoodMeans(Perform(l, op));
      Perform(l, op)
  }

  lemma {:induction false} DoIs(l: Ledger, op: Operation, layers: nat := 3)
    requires Good(l) && Owned(l, op)
    ensures Sound(l) && Possible(l, op) && Do(l, op, layers) == Perform(l, op)
    decreases layers
  {
    GoodMeans(l);
    if layers > 0 { DoIs(l, op, layers - 1); }
  }

  lemma BeginLive(l: Ledger, id: string)
    requires Sound(l)
    ensures var outcome := BeginLoad(l.pool, id).1;
      Step(l, Begin(id)).live
          == l.live + (if outcome.Leased? then multiset{KeyAt(l.pool, outcome.index)} else multiset{})
  {
  }

  lemma FinishLive(l: Ledger, index: nat, content: Option<Blob>)
    requires Enabled(l, Finish(index, content))
    ensures Step(l, Finish(index, content)).live
         == l.live + (if content.Some? then multiset{KeyAt(l.pool, index)} else multiset{})
  {
  }

  /** A load hands out one lease or none. */
  lemma LoadLive(l: Ledger, id: string, content: Option<Blob>)
    requires Good(l)
    ensures var key := LoadOutcome(l, id, content);
      Do(l, Load(id, content)).live == l.live + (if key.Some? then multiset{key.value} else multiset{})
  {
    DoIs(l, Load(id, content));
    HalvesLive(l, id, content);
  }

  lemma HalvesLive(l: Ledger, id: string, content: Option<Blob>)
    requires Sound(l)
    ensures var key := OutcomeOf(l, id, content);
      Perform(l, Load(id, content)).live == l.live + (if key.Some? then multiset{key.value} else multiset{})
  {
    BeginLive(l, id);
    var outcome := BeginLoad(l.pool, id).1;
    if outcome.Pending? { FinishLive(Step(l, Begin(id)), outcome.index, content); }
  }

  lemma FallbackLive(l: Ledger)
    requires Good(l)
    ensures Do(l, Other(Fallback)).live == l.live + multiset{Key(0, 1)}
  {
    DoIs(l, Other(Fallback));
  }

  lemma DropLive(l: Ledger, key: Key)
    requires Good(l) && key in l.live
    ensures Do(l, Other(Drop(key))).live == l.live - multiset{key}
  {
    DoIs(l, Other(Drop(key)));
  }

  lemma SweepIs(l: Ledger)
    requires Good(l)
    ensures Do(l, Other(Sweep)) == l.(pool := UnloadUnused(l.pool, |l.pool.slots|))
  {
    DoIs(l, Other(Sweep));
  }

  /** A handle that was issued never unloads its slot. */
  lemma UnloadIs(l: Ledger, key: Key)
    requires Good(l)
    ensures Do(l, Other(UnloadHandle(key))) == l.(pool := Unload(l.pool, key).0)
    ensures key in l.issued ==> Unload(l.pool, key).1 != UnloadOutcome.Unloaded
  {
    DoIs(l, Other(UnloadHandle(key)));
  }

  lemma DropIs(l: Ledger, key: Key)
    requires Good(l) && key in l.live
    ensures Do(l, Other(Drop(key))).pool == ReleaseLease(l.pool, key)
  {
    DoIs(l, Other(Drop(key)));
  }

  lemma FallbackIs(l: Ledger)
    requires Good(l)
    ensures 0 == l.pool.fallbackIndex < |l.pool.slots| && l.pool.slots[0].generation == 1
    ensures Do(l, Other(Fallback)).pool == AddReference(l.pool, 0)
  {
    DoIs(l, Other(Fallback));
  }

  /** A live lease's handle is accepted. */
  lemma LiveIsAccepted(l: Ledger, key: Key)
    requires Good(l) && key in l.live
    ensures GetAccepts(l.pool, key)
  {
    GoodMeans(l);
    assert KeyAt(l.pool, key.index) == key;
  }

  /** Two pools with the same live leases have the same reference counts: equal on the slots both have, and
      zero on the others. */
  lemma SameLeasesSameCounts(l: Ledger, m: Ledger, i: nat)
    requires Good(l) && Good(m) && l.live == m.live && i < |m.pool.slots|
    ensures m.pool.slots[i].strongReferences == if i < |l.pool.slots| then l.pool.slots[i].strongReferences else 0
  {
    GoodMeans(l);
    GoodMeans(m);
    var key := KeyAt(m.pool, i);
    if key in m.live { assert key in l.live; }
    if i < |l.pool.slots| {
      var was := KeyAt(l.pool, i);
      if was in l.live { assert was in m.live; }
    }
  }

  // ---------------------------------------------------------------- two ways a load can be disturbed

  lemma RunAppends(start: Ledger, actions: seq<Action>, a: Action)
    requires Run(start, actions).Some? && Enabled(Run(start, actions).value, a)
    ensures Run(start, actions + [a]) == Some(Step(Run(start, actions).value, a))
  {
    assert (actions + [a])[..|actions + [a]| - 1] == actions;
  }

  /** A provider that loads the same asset itself before it fails: the lease from the inner load is alive,
      and its handle is refused. */
  lemma ReentrantProviderLosesLease(fallbackId: string, payload: Blob, id: string, content: Blob)
    requires id != fallbackId
    ensures var start := InitialLedger(fallbackId, payload);
      var actions := [Begin(id)] + [Begin(id)] + [Finish(1, Some(content))] + [Finish(1, None)];
      && Run(start, actions).Some?
      && Key(1, 1) in Run(start, actions).value.live
      && !GetAccepts(Run(start, actions).value.pool, Key(1, 1))
  {
    var start := InitialLedger(fallbackId, payload);
    var a0, a1 := [Begin(id)], [Begin(id)] + [Begin(id)];
    var a2 := a1 + [Finish(1, Some(content))];
    FirstLoad(start, fallbackId, id);
    assert [] + [Begin(id)] == a0;
    RunAppends(start, [], Begin(id));
    RunAppends(start, a0, Begin(id));
    var l := Run(start, a1).value;
    RunAppends(start, a1, Finish(1, Some(content)));
    var m := Run(start, a2).value;
    RunAppends(start, a2, Finish(1, None));
  }

  lemma FirstLoad(start: Ledger, fallbackId: string, id: string)
    requires start.pool.byId == map[fallbackId := 0] && |start.pool.slots| == 1 && id != fallbackId
    ensures var l := Step(start, Begin(id));
      && |l.pool.slots| == 2 && l.pool.byId == map[fallbackId := 0, id := 1]
          && l.pool.fallbackIndex == start.pool.fallbackIndex
      && l.pool.slots[0] == start.pool.slots[0] && l.live == start.live && l.pending == start.pending + multiset{1}
      && l.pool.slots[1] == Slot(id, Loading, 1, 0, 0, None, false, false)
  {
  }

  /** Loading and dropping an asset so many times. */
  function Cycles(id: string, content: Blob, n: nat): seq<Action> {
    if n == 0 then [] else Cycles(id, content, n - 1) + [Begin(id)] + [Finish(1, Some(content))] + [Drop(Key(1, n))]
  }

  /** Two slots, the second idle at this generation. */
  predicate AtGeneration(l: Ledger, fallbackId: string, id: string, generation: nat) {
    && |l.pool.slots| == 2 && l.pool.byId == map[fallbackId := 0, id := 1]
    && l.live == multiset{} && l.pending == multiset{} && l.pool.slots[0].pinned
    && var slot := l.pool.slots[1];
    && slot.id == id && slot.state == ResourceState.Unloaded && slot.resource == None && slot.strongReferences == 0
    && slot.generation == generation && !slot.pinned && !slot.retired
  }

  /** The same with a load begun. */
  predicate LoadingAt(l: Ledger, fallbackId: string, id: string, generation: nat) {
    && |l.pool.slots| == 2 && l.pool.byId == map[fallbackId := 0, id := 1]
    && l.live == multiset{} && l.pending == multiset{1} && l.pool.slots[0].pinned
    && var slot := l.pool.slots[1];
    && slot.id == id && slot.state == Loading && slot.strongReferences == 0
    && slot.generation == generation && !slot.pinned && !slot.retired
  }

  lemma BeginAtGeneration(l: Ledger, fallbackId: string, id: string, generation: nat)
    requires id != fallbackId && AtGeneration(l, fallbackId, id, generation)
    ensures Enabled(l, Begin(id)) && LoadingAt(Step(l, Begin(id)), fallbackId, id, generation)
  {
  }

  lemma FinishAndDrop(l: Ledger, fallbackId: string, id: string, generation: nat, content: Blob)
    requires id != fallbackId && LoadingAt(l, fallbackId, id, generation) && generation < MAX_GENERATION
    ensures Enabled(l, Finish(1, Some(content)))
    ensures Enabled(Step(l, Finish(1, Some(content))), Drop(Key(1, generation)))
    ensures AtGeneration(Step(Step(l, Finish(1, Some(content))), Drop(Key(1, generation))), fallbackId, id,
                         generation + 1)
  {
    var held := Step(l, Finish(1, Some(content)));
    assert held.live == multiset{Key(1, generation)} && held.pool.slots[1].strongReferences == 1;
  }

  lemma {:induction false} CyclesAdvance(fallbackId: string, payload: Blob, id: string, content: Blob, n: nat)
    requires id != fallbackId && n < MAX_GENERATION
    ensures var r := Run(InitialLedger(fallbackId, payload), Cycles(id, content, n));
      && r.Some?
      && if n == 0 then r.value == InitialLedger(fallbackId, payload)
         else AtGeneration(r.value, fallbackId, id, n + 1)
    decreases n
  {
    if n > 0 {
      var start := InitialLedger(fallbackId, payload);
      var before := Cycles(id, content, n - 1);
      CyclesAdvance(fallbackId, payload, id, content, n - 1);
      if n == 1 {
        FirstLoad(start, fallbackId, id);
      } else {
        BeginAtGeneration(Run(start, before).value, fallbackId, id, n);
      }
      OneCycle(start, before, fallbackId, id, content, n);
    }
  }

  /** One load and drop more moves the slot on by one generation. */
  lemma {:induction false} OneCycle(start: Ledger, before: seq<Action>, fallbackId: string, id: string, content: Blob,
                                    n: nat)
    requires id != fallbackId && 0 < n < MAX_GENERATION && Run(start, before).Some?
    requires Enabled(Run(start, before).value, Begin(id))
    requires LoadingAt(Step(Run(start, before).value, Begin(id)), fallbackId, id, n)
    ensures var r := Run(start, before + [Begin(id)] + [Finish(1, Some(content))] + [Drop(Key(1, n))]);
      r.Some? && AtGeneration(r.value, fallbackId, id, n + 1)
  {
    RunAppends(start, before, Begin(id));
    FinishAndDrop(Run(start, before + [Begin(id)]).value, fallbackId, id, n, content);
    RunAppends(start, before + [Begin(id)], Finish(1, Some(content)));
    RunAppends(start, before + [Begin(id)] + [Finish(1, Some(content))], Drop(Key(1, n)));
  }

  /** A sweep by another thread while the provider reads, on a slot in its last generation: the load hands
      out a lease on a retired slot, whose handle is refused for as long as it lives. */
  lemma SweepDuringLoadLosesLease(fallbackId: string, payload: Blob, id: string, content: Blob)
    requires id != fallbackId
    ensures var start := InitialLedger(fallbackId, payload);
      var actions := Cycles(id, content, MAX_GENERATION - 1) + [Begin(id)] + [Sweep] + [Finish(1, Some(content))];
      && Run(start, actions).Some?
      && Key(1, MAX_GENERATION) in Run(start, actions).value.live
      && !GetAccepts(Run(start, actions).value.pool, Key(1, MAX_GENERATION))
  {
    var start, worn := InitialLedger(fallbackId, payload), Cycles(id, content, MAX_GENERATION - 1);
    CyclesAdvance(fallbackId, payload, id, content, MAX_GENERATION - 1);
    BeginAtGeneration(Run(start, worn).value, fallbackId, id, MAX_GENERATION);
    RunAppends(start, worn, Begin(id));
    RunAppends(start, worn + [Begin(id)], Sweep);
    SweepThenFinish(Run(start, worn + [Begin(id)]).value, fallbackId, id, content);
    RunAppends(start, worn + [Begin(id)] + [Sweep], Finish(1, Some(content)));
  }

  lemma SweepThenFinish(l: Ledger, fallbackId: string, id: string, content: Blob)
    requires LoadingAt(l, fallbackId, id, MAX_GENERATION)
    ensures var swept := Step(l, Sweep);
      && Enabled(swept, Finish(1, Some(content)))
      && var m := Step(swept, Finish(1, Some(content)));
      && Key(1, MAX_GENERATION) in m.live && !GetAccepts(m.pool, Key(1, MAX_GENERATION))
  {
    assert UnloadUnused(l.pool, 1) == UnloadUnused(l.pool, 0) == l.pool;
    assert Step(l, Sweep).pool.slots[1].retired;
  }
}
