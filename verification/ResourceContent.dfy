/**
 What a lease gives to read: over every run the content that last arrived at its slot, and after a load what the
 provider answered or what was ready under that name.
 */
module ResourceContents {
  import opened Wrappers
  import opened ResourcePools

  /** What a key gives to read, if it is accepted. */
  function Gives(pool: Pool, key: Key): Option<Blob> {
    if GetAccepts(pool, key) then pool.slots[key.index].resource else None
  }

  /** The content that last arrived at a slot; the fallback has its payload from the start. */
  function LastContent(payload: Blob, actions: seq<Action>, index: nat): Option<Blob> {
    if actions == [] then if index == 0 then Some(payload) else None
    else
      var last := actions[|actions| - 1];
      if last.Finish? && last.index == index then last.content
      else LastContent(payload, actions[..|actions| - 1], index)
  }

  /** How often content has arrived at a slot. */
  function Fills(actions: seq<Action>, index: nat): nat {
    if actions == [] then if index == 0 then 1 else 0
    else
      var last := actions[|actions| - 1];
      Fills(actions[..|actions| - 1], index) + if last.Finish? && last.index == index && last.content.Some? then 1
          else 0
  }

  /** The revision after one more filling. */
  function Raised(revision: nat): nat {
    var next := (revision + 1) % REVISION_LIMIT;
    if next == 0 then 1 else next
  }

  /** What a step may do to a slot: content that arrives is put there; otherwise the slot keeps what it has, or is
      emptied when nobody has a lease on it. */
  predicate SlotChange(was: Slot, now: Slot, arrival: Option<Option<Blob>>) {
    && now.id == was.id
    && match arrival
       case Some(content) =>
         && now.resource == content
         && now.contentRevision == if content.Some? then Raised(was.contentRevision) else was.contentRevision
       case None =>
         && now.contentRevision == was.contentRevision
         && (now.resource == was.resource || (now.resource.None? && now.strongReferences == 0))
  }

  function ArrivesAt(a: Action, index: nat): Option<Option<Blob>> {
    if a.Finish? && a.index == index then Some(a.content) else None
  }

  predicate PoolChange(before: Pool, after: Pool, a: Action) {
    && |before.slots| <= |after.slots|
    && (forall i :: 0 <= i < |before.slots| ==> SlotChange(before.slots[i], after.slots[i], ArrivesAt(a, i)))
    && (forall i :: |before.slots| <= i < |after.slots| ==>
          after.slots[i].resource == None && after.slots[i].contentRevision == 0)
  }

  lemma StepChanges(l: Ledger, a: Action)
    requires Sound(l) && Enabled(l, a)
    ensures PoolChange(l.pool, Step(l, a).pool, a)
  {
    match a
    case Begin(id) => BeginChanges(l.pool, id);
    case Finish(index, content) => FinishChanges(l.pool, index, content);
    case Fallback =>
    case Drop(key) => DropChanges(l.pool, key);
    case UnloadHandle(key) => UnloadChanges(l.pool, key);
    case Sweep => SweepChanges(l.pool, |l.pool.slots|);
  }

  lemma BeginChanges(pool: Pool, id: string)
    requires id in pool.byId ==> pool.byId[id] < |pool.slots|
    ensures PoolChange(pool, BeginLoad(pool, id).0, Begin(id))
  {
  }

  lemma FinishChanges(pool: Pool, index: nat, content: Option<Blob>)
    requires index < |pool.slots|
    ensures PoolChange(pool, FinishLoad(pool, index, content), Finish(index, content))
  {
  }

  lemma DropChanges(pool: Pool, key: Key)
    ensures PoolChange(pool, ReleaseLease(pool, key), Drop(key))
  {
  }

  lemma UnloadChanges(pool: Pool, key: Key)
    ensures PoolChange(pool, Unload(pool, key).0, UnloadHandle(key))
  {
  }

  lemma {:induction false} SweepChanges(pool: Pool, count: nat)
    requires count <= |pool.slots|
    ensures PoolChange(pool, UnloadUnused(pool, count), Sweep)
    decreases count
  {
    if count > 0 {
      SweepChanges(pool, count - 1);
      var before := UnloadUnused(pool, count - 1);
      if IsUnused(before.slots[count - 1]) { ReleaseChanges(before, count - 1); }
    }
  }

  lemma ReleaseChanges(pool: Pool, index: nat)
    requires index < |pool.slots| && pool.slots[index].strongReferences == 0
    ensures PoolChange(pool, ReleaseSlot(pool, index), Sweep)
  {
  }

  /** While a lease lives, only content that arrives at its own slot changes what the slot holds. */
  lemma ContentStays(l: Ledger, a: Action, key: Key)
    requires Sound(l) && Enabled(l, a) && key in l.live && key in Step(l, a).live
    ensures key.index < |l.pool.slots| && key.index < |Step(l, a).pool.slots|
    ensures Step(l, a).pool.slots[key.index].resource
         == if a.Finish? && a.index == key.index then a.content else l.pool.slots[key.index].resource
  {
    StepSound(l, a);
    StepChanges(l, a);
    LiveIsCounted(l, key);
    LiveIsCounted(Step(l, a), key);
  }

  lemma LiveIsCounted(l: Ledger, key: Key)
    requires Sound(l) && key in l.live
    ensures key.index < |l.pool.slots| && l.pool.slots[key.index].strongReferences > 0
  {
    assert KeyAt(l.pool, key.index) == key;
  }

  /** A slot holds nothing or the content that last arrived. */
  ghost predicate HoldsLast(l: Ledger, payload: Blob, actions: seq<Action>) {
    && PoolHolds(l.pool, payload, actions)
    && (forall key :: key in l.live ==>
          key.index < |l.pool.slots| && l.pool.slots[key.index].resource == LastContent(payload, actions, key.index))
  }

  lemma StepHoldsLast(l: Ledger, payload: Blob, actions: seq<Action>, a: Action)
    requires Sound(l) && Enabled(l, a) && HoldsLast(l, payload, actions)
    ensures HoldsLast(Step(l, a), payload, actions + [a])
  {
    StepChanges(l, a);
    LastAfter(payload, actions, a);
    SlotsHoldLast(l.pool, Step(l, a).pool, payload, actions, a);
    forall key | key in Step(l, a).live
      ensures key.index < |Step(l, a).pool.slots|
      ensures Step(l, a).pool.slots[key.index].resource == LastContent(payload, actions + [a], key.index)
    {
      LeaseHoldsLast(l, payload, actions, a, key);
    }
  }

  /** Slots hold nothing or the content that last arrived. */
  predicate PoolHolds(pool: Pool, payload: Blob, actions: seq<Action>) {
    forall i :: 0 <= i < |pool.slots| && pool.slots[i].resource.Some? ==>
      pool.slots[i].resource == LastContent(payload, actions, i)
  }

  lemma SlotsHoldLast(before: Pool, after: Pool, payload: Blob, actions: seq<Action>, a: Action)
    requires PoolChange(before, after, a) && PoolHolds(before, payload, actions)
    ensures PoolHolds(after, payload, actions + [a])
  {
    LastAfter(payload, actions, a);
  }

  lemma LeaseHoldsLast(l: Ledger, payload: Blob, actions: seq<Action>, a: Action, key: Key)
    requires Sound(l) && Enabled(l, a) && HoldsLast(l, payload, actions) && key in Step(l, a).live
    requires PoolHolds(Step(l, a).pool, payload, actions + [a])
    ensures key.index < |Step(l, a).pool.slots|
    ensures Step(l, a).pool.slots[key.index].resource == LastContent(payload, actions + [a], key.index)
  {
    LastAfter(payload, actions, a);
    if key in l.live { ContentStays(l, a, key); } else { NewLeaseHolds(l, a, key); }
  }

  lemma LastAfter(payload: Blob, actions: seq<Action>, a: Action)
    ensures forall i: nat ::
      LastContent(payload, actions + [a], i) == if a.Finish? && a.index == i then a.content
          else LastContent(payload, actions, i)
  {
    assert (actions + [a])[..|actions|] == actions;
  }

  /** A new lease is on a slot that holds something. */
  lemma NewLeaseHolds(l: Ledger, a: Action, key: Key)
    requires Sound(l) && Enabled(l, a) && key in Step(l, a).live && key !in l.live
    ensures key.index < |Step(l, a).pool.slots| && Step(l, a).pool.slots[key.index].resource.Some?
  {
    match a
    case Begin(id) => BegunLeaseHolds(l, id, key);
    case Finish(index, content) =>
      FinishLive(l, index, content);
      FinishChanges(l.pool, index, content);
    case _ =>
  }

  lemma BegunLeaseHolds(l: Ledger, id: string, key: Key)
    requires Sound(l) && key in Step(l, Begin(id)).live && key !in l.live
    ensures key.index < |Step(l, Begin(id)).pool.slots|
    ensures Step(l, Begin(id)).pool.slots[key.index].resource.Some?
  {
    BeginLive(l, id);
  }

  lemma {:induction false} RunHoldsLast(start: Ledger, payload: Blob, actions: seq<Action>)
    requires Sound(start) && HoldsLast(start, payload, []) && Run(start, actions).Some?
    ensures HoldsLast(Run(start, actions).value, payload, actions)
    decreases |actions|
  {
    if actions != [] {
      var n := |actions| - 1;
      var before := LastStep(start, actions);
      RunHoldsLast(start, payload, actions[..n]);
      RunSound(start, actions[..n]);
      StepHoldsLast(before, payload, actions[..n], actions[n]);
      assert actions[..n] + [actions[n]] == actions;
    }
  }

  /** The ledger before the last action of a run. */
  lemma LastStep(start: Ledger, actions: seq<Action>) returns (before: Ledger)
    requires actions != [] && Run(start, actions).Some?
    ensures var n := |actions| - 1;
      && Run(start, actions[..n]) == Some(before) && Enabled(before, actions[n])
      && Run(start, actions) == Some(Step(before, actions[n]))
  {
    before := Run(start, actions[..|actions| - 1]).value;
  }

  lemma InitiallyHolds(fallbackId: string, payload: Blob)
    ensures HoldsLast(InitialLedger(fallbackId, payload), payload, [])
  {
  }

  /** Over every run, whatever the interleaving: what a live lease's slot holds is the content that last arrived there,
      so that an accepted handle gives exactly that. */
  lemma {:induction false} LeasesGiveLastContent(fallbackId: string, payload: Blob, actions: seq<Action>, key: Key)
    requires Run(InitialLedger(fallbackId, payload), actions).Some?
    ensures var l := Run(InitialLedger(fallbackId, payload), actions).value;
      && (GetAccepts(l.pool, key) ==> Gives(l.pool, key) == LastContent(payload, actions, key.index))
      && (key in l.live ==> key.index < |l.pool.slots|
                            && l.pool.slots[key.index].resource == LastContent(payload, actions, key.index))
  {
    InitiallySound(fallbackId, payload);
    InitiallyHolds(fallbackId, payload);
    RunHoldsLast(InitialLedger(fallbackId, payload), payload, actions);
  }

  /** The revision of a slot that was filled so often: it counts up, and after the greatest 64-bit number starts again
      from one. */
  function RevisionAfter(fills: nat): nat {
    if fills == 0 then 0 else (fills - 1) % 0xFFFF_FFFF_FFFF_FFFF + 1
  }

  lemma NextRevision(fills: nat)
    ensures RevisionAfter(fills + 1) == Raised(RevisionAfter(fills))
  {
  }

  /** The revisions of a pool count its fillings. */
  ghost predicate Counted(pool: Pool, actions: seq<Action>) {
    && (forall i :: 0 <= i < |pool.slots| ==> pool.slots[i].contentRevision == RevisionAfter(Fills(actions, i)))
    && (forall i: nat :: i >= |pool.slots| ==> Fills(actions, i) == 0)
  }

  lemma ChangeCounts(before: Pool, after: Pool, actions: seq<Action>, a: Action)
    requires PoolChange(before, after, a) && Counted(before, actions) && (a.Finish? ==> a.index < |before.slots|)
    ensures Counted(after, actions + [a])
  {
    assert (actions + [a])[..|actions|] == actions;
    if a.Finish? { NextRevision(Fills(actions, a.index)); }
  }

  /** Over every run the revision of a slot counts how often it was filled. */
  lemma {:induction false} RevisionCountsFills(fallbackId: string, payload: Blob, actions: seq<Action>)
    requires Run(InitialLedger(fallbackId, payload), actions).Some?
    ensures Counted(Run(InitialLedger(fallbackId, payload), actions).value.pool, actions)
    decreases |actions|
  {
    if actions != [] {
      var n, start := |actions| - 1, InitialLedger(fallbackId, payload);
      var before := LastStep(start, actions);
      RevisionCountsFills(fallbackId, payload, actions[..n]);
      InitiallySound(fallbackId, payload);
      RunSound(start, actions[..n]);
      assert actions[..n] + [actions[n]] == actions;
      StepChanges(before, actions[n]);
      ChangeCounts(before.pool, Step(before, actions[n]).pool, actions[..n], actions[n]);
    }
  }

  // ---------------------------------------------------------------- generations

  /** A slot stays in its generation, moves on to the next, or retires in the last of 2^32 - 1. */
  predicate GenerationChange(was: Slot, now: Slot) {
    if now.generation == was.generation then now.retired == was.retired
        || (now.retired && was.generation == 0xFFFF_FFFF)
    else now.generation == was.generation + 1 <= 0xFFFF_FFFF && now.retired == was.retired
  }

  predicate GenerationsChange(before: Pool, after: Pool) {
    && |before.slots| <= |after.slots|
    && (forall i :: 0 <= i < |before.slots| ==> GenerationChange(before.slots[i], after.slots[i]))
    && (forall i :: |before.slots| <= i < |after.slots| ==> after.slots[i].generation == 1 && !after.slots[i].retired)
  }

  lemma StepGenerations(l: Ledger, a: Action)
    requires Sound(l) && Enabled(l, a)
    ensures GenerationsChange(l.pool, Step(l, a).pool)
  {
    match a
    case Begin(id) => BeginGenerations(l, id);
    case Finish(index, content) => FinishGenerations(l.pool, index, content);
    case Fallback =>
    case Drop(key) => DropGenerations(l, key);
    case UnloadHandle(key) => UnloadGenerations(l, key);
    case Sweep => SweepGenerations(l, |l.pool.slots|);
  }

  lemma BeginGenerations(l: Ledger, id: string)
    requires Sound(l)
    ensures GenerationsChange(l.pool, BeginLoad(l.pool, id).0)
  {
  }

  lemma FinishGenerations(pool: Pool, index: nat, content: Option<Blob>)
    requires index < |pool.slots|
    ensures GenerationsChange(pool, FinishLoad(pool, index, content))
  {
  }

  lemma UnloadGenerations(l: Ledger, key: Key)
    requires Sound(l)
    ensures GenerationsChange(l.pool, Unload(l.pool, key).0)
  {
  }

  lemma DropGenerations(l: Ledger, key: Key)
    requires Sound(l)
    ensures GenerationsChange(l.pool, ReleaseLease(l.pool, key))
  {
  }

  lemma {:induction false} SweepGenerations(l: Ledger, count: nat)
    requires Sound(l) && count <= |l.pool.slots|
    ensures GenerationsChange(l.pool, UnloadUnused(l.pool, count))
    ensures forall i :: count <= i < |l.pool.slots| ==> UnloadUnused(l.pool, count).slots[i] == l.pool.slots[i]
    decreases count
  {
    if count > 0 { SweepGenerations(l, count - 1); }
  }

  // ---------------------------------------------------------------- whole loads

  /** What is ready to read under a name. */
  function ReadyUnder(pool: Pool, id: string): Option<Blob> {
    if id in pool.byId && pool.byId[id] < |pool.slots| && pool.slots[pool.byId[id]].state == Ready
    then pool.slots[pool.byId[id]].resource else None
  }

  /** A name has a slot, or there is room for one more. */
  predicate HasRoom(pool: Pool, id: string) { id in pool.byId || |pool.slots| < 0xFFFF_FFFF }

  /** What a load hands out: a key of the slot of that name, which gives what was ready, or else the content that
      arrived; and it hands out nothing exactly when there is nothing to give or no room. */
  lemma LoadGives(l: Ledger, id: string, content: Option<Blob>)
    requires Good(l)
    ensures var pool, key := Do(l, Load(id, content)).pool, LoadOutcome(l, id, content);
      var ready := ReadyUnder(l.pool, id);
      && (LoadBegins(l, id).SlotLimit? <==> ready.None? && !HasRoom(l.pool, id))
      && (LoadBegins(l, id).SlotLimit? ==> pool == l.pool)
      && (LoadBegins(l, id).Pending? <==> ready.None? && HasRoom(l.pool, id))
      && (key.Some? <==> ready.Some? || (HasRoom(l.pool, id) && content.Some?))
      && (key.Some? ==> Gives(pool, key.value) == if ready.Some? then ready else content)
      && (key.Some? ==> key.value.index < |pool.slots| && pool.slots[key.value.index].id == id)
  {
    GoodMeans(l);
    DoIs(l, Load(id, content));
    LoadLive(l, id, content);
    if LoadOutcome(l, id, content).Some? {
      var key := LoadOutcome(l, id, content).value;
      assert key in Do(l, Load(id, content)).live;
      LiveIsAccepted(Do(l, Load(id, content)), key);
    }
  }

  /** Whatever its owner does to a pool, what a lease gives stays the same for as long as it lives. */
  lemma HeldContentStays(l: Ledger, op: Operation, key: Key)
    requires Good(l) && Owned(l, op) && key in l.live && key in Do(l, op).live
    ensures Gives(l.pool, key).Some? && Gives(Do(l, op).pool, key) == Gives(l.pool, key)
  {
    LiveIsAccepted(l, key);
    LiveIsAccepted(Do(l, op), key);
    GoodMeans(l);
    DoIs(l, op);
    if op.Load? {
      LoadKeepsContent(l, op.id, op.content, key);
    } else {
      ContentStays(l, op.action, key);
    }
  }

  lemma LoadKeepsContent(l: Ledger, id: string, content: Option<Blob>, key: Key)
    requires Sound(l) && key in l.live && GetAccepts(l.pool, key)
    ensures key in Perform(l, Load(id, content)).live && key.index < |Perform(l, Load(id, content)).pool.slots|
    ensures Perform(l, Load(id, content)).pool.slots[key.index].resource == l.pool.slots[key.index].resource
  {
    BeginKeepsContent(l, id, key);
    var outcome := BeginLoad(l.pool, id).1;
    if outcome.Pending? {
      StepSound(l, Begin(id));
      FinishLive(Step(l, Begin(id)), outcome.index, content);
      ContentStays(Step(l, Begin(id)), Finish(outcome.index, content), key);
    }
  }

  /** What is read is not a slot that has content already. */
  lemma BeginKeepsContent(l: Ledger, id: string, key: Key)
    requires Sound(l) && key in l.live && GetAccepts(l.pool, key)
    ensures var m := Step(l, Begin(id));
      && key in m.live && key.index < |m.pool.slots|
      && m.pool.slots[key.index].resource == l.pool.slots[key.index].resource
    ensures BeginLoad(l.pool, id).1.Pending? ==> BeginLoad(l.pool, id).1.index != key.index
  {
    BeginLive(l, id);
    ContentStays(l, Begin(id), key);
  }
}
