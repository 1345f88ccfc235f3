/**
 The object hierarchy of a chart: which objects survive compilation, and at which index their parents end up.
 */
module ChartHierarchy {
  import opened Wrappers
  import opened Sorting
  import opened ParentChains

  datatype ChartObject<C> = ChartObject(id: string, parent: Option<string>, components: C)

  datatype RuntimeObject<C> = RuntimeObject(id: string, parentIndex: Option<nat>, components: C)

  datatype HierarchyState = Visiting | Valid | Skipped | Cyclic

  ghost function ParentsOf<C>(objects: map<string, ChartObject<C>>): map<string, Option<string>> {
    map id | id in objects :: objects[id].parent
  }

  /** Valid: the chain of parents ends at a root.  Skipped: it ends at a missing parent.  Cyclic: it never ends. */
  ghost function StateFor(fate: Fate<string>): HierarchyState {
    match fate case Rooted(_) => Valid case Dangling(_) => Skipped case Endless => Cyclic
  }

  /** The whole chain has this state. */
  ghost predicate Settled(parents: map<string, Option<string>>, chain: seq<string>, state: HierarchyState)
    requires Walk(parents, chain)
  {
    forall i :: 0 <= i < |chain| ==> StateFor(FateOf(parents, chain[i])) == state
  }

  lemma {:induction false} LastSettlesChain(parents: map<string, Option<string>>, chain: seq<string>,
                                            state: HierarchyState)
    requires Walk(parents, chain) && (chain != [] ==> StateFor(FateOf(parents, chain[|chain| - 1])) == state)
    ensures Settled(parents, chain, state)
  {
    forall i | 0 <= i < |chain| ensures StateFor(FateOf(parents, chain[i])) == state {
      WalkSharesFate(parents, chain, i, |chain| - 1);
    }
  }

  /** A chain that leads to a settled object settles like it. */
  lemma {:induction false} NextSettlesChain(parents: map<string, Option<string>>, chain: seq<string>, next: string)
    requires Walk(parents, chain) && next in parents
    requires chain != [] ==> parents[chain[|chain| - 1]] == Some(next)
    ensures Settled(parents, chain, StateFor(FateOf(parents, next)))
  {
    if chain != [] { FateOfOne(parents, chain[|chain| - 1]); }
    LastSettlesChain(parents, chain, StateFor(FateOf(parents, next)));
  }

  lemma {:induction false} ReturnSettlesChain(parents: map<string, Option<string>>, chain: seq<string>, next: string)
    requires Walk(parents, chain) && next in chain && parents[chain[|chain| - 1]] == Some(next)
    ensures Settled(parents, chain, Cyclic)
  {
    var back :| 0 <= back < |chain| && chain[back] == next;
    LoopIsEndless(parents, chain, back);
  }

  class HierarchyValidator<C> {
    const objects: map<string, ChartObject<C>>
    var states: map<string, HierarchyState>
    /** Whether a cycle was reported. */
    var cycles: bool
    /** The objects whose own parent was reported missing. */
    var orphans: set<string>

    constructor (objects: map<string, ChartObject<C>>)
      ensures this.objects == objects && Sound() && states == map[]
    {
      this.objects := objects;
      states, cycles, orphans := map[], false, {};
    }

    ghost function Parents(): map<string, Option<string>> { ParentsOf(objects) }

    ghost predicate StatesRight()
      reads this
    {
      forall id :: id in states ==> id in objects && states[id] == StateFor(FateOf(Parents(), id))
    }

    /** Every state given out so far is right, and so is every report. */
    ghost predicate Sound()
      reads this
    {
      && StatesRight()
      && (cycles <==> exists id :: id in states && states[id] == Cyclic)
      && (forall id :: id in orphans <==> id in states && LacksParent(Parents(), id))
    }

    /** The objects climbed so far are being visited; the others stand as they did. */
    ghost predicate Marked(was: map<string, HierarchyState>, chain: seq<string>)
      reads this`states
    {
      && (forall k :: k in chain ==> k !in was)
      && (forall k :: k in states <==> k in was || k in chain)
      && (forall k :: k in states ==> states[k] == if k in chain then Visiting else was[k])
    }

    /** Those of the objects climbed whose parent is missing are reported. */
    ghost predicate Reported(was: set<string>, chain: seq<string>)
      reads this`orphans
    {
      forall k :: k in orphans <==> k in was || (k in chain && k in Parents() && LacksParent(Parents(), k))
    }

    /** Climbs from an object that is not settled until the fate of the climb is known. */
    method Climb(id: string) returns (chain: seq<string>, resolved: HierarchyState)
      requires StatesRight() && id in objects && id !in states
      requires forall k :: k in states && states[k] == Cyclic ==> cycles
      modifies this
      ensures Walk(Parents(), chain) && id in chain && Settled(Parents(), chain, resolved)
      ensures Marked(old(states), chain) && Reported(old(orphans), chain)
      ensures cycles <==> old(cycles) || resolved == Cyclic
    {
      chain := [];
      var current := id;
      ghost var parents, unseen := Parents(), objects.Keys;
      assert forall k :: k in parents <==> k in objects;
      while true
        invariant current in objects && Walk(parents, chain)
        invariant current == id || id in chain
        invariant chain != [] ==> parents[chain[|chain| - 1]] == Some(current)
        invariant Marked(old(states), chain) && Reported(old(orphans), chain)
        invariant forall k :: k in chain ==> k !in unseen
        invariant forall k :: k in objects ==> k in unseen || k in chain
        invariant cycles == old(cycles)
        decreases |unseen|
      {
        if current in states && states[current] != Visiting {
          NextSettlesChain(parents, chain, current);
          resolved := states[current];
          break;
        }
        if current in states {
          ReturnSettlesChain(parents, chain, current);
          cycles := true;
          resolved := Cyclic;
          break;
        }
        var next, settled := Mark(current, chain, old(states), old(orphans));
        chain, unseen := chain + [current], unseen - {current};
        if settled.Some? {
          resolved := settled.value;
          break;
        }
        current := next;
      }
    }

    /** One object of the climb: what it settles to, or the parent to go on to. */
    method Mark(current: string, chain: seq<string>, ghost was: map<string, HierarchyState>,
                ghost reported: set<string>)
      returns (next: string, settled: Option<HierarchyState>)
      requires current in objects && current !in states && Walk(Parents(), chain) && Marked(was, chain)
      requires Reported(reported, chain)
      requires chain != [] ==> Parents()[chain[|chain| - 1]] == Some(current)
      modifies this
      ensures Walk(Parents(), chain + [current]) && Marked(was, chain + [current])
      ensures settled.Some? ==> Settled(Parents(), chain + [current], settled.value)
      ensures settled.None? ==> next in objects && Parents()[current] == Some(next)
      ensures cycles == (old(cycles) || settled == Some(Cyclic))
      ensures Reported(reported, chain + [current])
    {
      ghost var parents := Parents();
      WalkGrows(parents, chain, current);
      states := states[current := Visiting];
      FateOfOne(parents, current);
      var item := objects[current];
      next, settled := current, None;
      if item.parent == None {
        settled := Some(Valid);
        LastSettlesChain(parents, chain + [current], Valid);
      } else if item.parent.value == current {
        ReturnSettlesChain(parents, chain + [current], current);
        cycles, settled := true, Some(Cyclic);
      } else if item.parent.value !in objects {
        orphans, settled := orphans + {current}, Some(Skipped);
        LastSettlesChain(parents, chain + [current], Skipped);
      } else {
        next := item.parent.value;
      }
    }

    /** Settles the object and everything above it, and forgets nothing. */
    method Visit(id: string) returns (state: HierarchyState)
      requires Sound() && id in objects
      modifies this
      ensures Sound() && id in states && state == states[id]
      ensures forall k :: k in old(states) ==> k in states
    {
      if id in states {
        state := states[id];
        return;
      }
      var chain, resolved := Climb(id);
      Settle(chain, resolved, old(states));
      state := states[id];
    }

    /** The whole chain gets its state. */
    method Settle(chain: seq<string>, resolved: HierarchyState, ghost was: map<string, HierarchyState>)
      requires Marked(was, chain)
      modifies this`states
      ensures forall k :: k in states <==> k in was || k in chain
      ensures forall k :: k in states ==> states[k] == if k in chain then resolved else was[k]
    {
      ghost var climbed := states;
      for i := |chain| downto 0
        invariant states.Keys == climbed.Keys
        invariant forall k :: k in climbed && k !in chain[i..] ==> states[k] == climbed[k]
        invariant forall k :: k in chain[i..] ==> k in states && states[k] == resolved
      {
        states := states[chain[i] := resolved];
      }
      assert chain[0..] == chain;
    }
  }

  // ---------------------------------------------------------------- compiling the objects

  datatype ChartError = ObjectIdEmpty | ObjectIdDuplicate | HierarchyCycle | InternalParentMissing

  /** The first object of every non-empty ID. */
  ghost function FirstById<C>(objects: seq<ChartObject<C>>, count: nat): map<string, ChartObject<C>>
    requires count <= |objects|
  {
    if count == 0 then map[] else
      var before := FirstById(objects, count - 1);
      var item := objects[count - 1];
      if item.id == "" || item.id in before then before else before[item.id := item]
  }

  lemma {:induction false} FirstByIdIsFirst<C>(objects: seq<ChartObject<C>>, count: nat)
    requires count <= |objects|
    ensures forall id :: id in FirstById(objects, count) <==>
      id != "" && exists i :: 0 <= i < count && objects[i].id == id
    ensures forall id :: id in FirstById(objects, count) ==> FirstById(objects, count)[id].id == id
    ensures forall id :: id in FirstById(objects, count) ==> FirstById(objects, count)[id] in objects
  {
    if count > 0 { FirstByIdIsFirst(objects, count - 1); }
  }

  ghost predicate HasEmptyId<C>(objects: seq<ChartObject<C>>) { exists i :: 0 <= i < |objects| && objects[i].id == "" }

  ghost predicate RepeatsId<C>(objects: seq<ChartObject<C>>) {
    exists i, j :: 0 <= i < j < |objects| && objects[i].id == objects[j].id != ""
  }

  ghost predicate HasCycle<C>(objects: seq<ChartObject<C>>) {
    var parents := ParentsOf(FirstById(objects, |objects|));
    exists id :: id in parents && FateOf(parents, id) == Endless
  }

  /** What a successful compilation yields: the objects whose chain of parents ends at a root, strictly by ID, each
      with its components and the index of its parent. */
  ghost predicate IsCompiled<C>(objects: map<string, ChartObject<C>>, compiled: seq<RuntimeObject<C>>) {
    && (forall i, j :: 0 <= i < j < |compiled| ==> StringLess(compiled[i].id, compiled[j].id))
    && (forall i :: 0 <= i < |compiled| ==>
         compiled[i].id in objects && IsCompiledObject(objects[compiled[i].id], compiled[i], compiled))
    && (forall id :: id in objects ==>
          ((exists i :: 0 <= i < |compiled| && compiled[i].id == id) <==> FateOf(ParentsOf(objects), id).Rooted?))
  }

  ghost predicate IsCompiledObject<C>(item: ChartObject<C>, linked: RuntimeObject<C>, compiled: seq<RuntimeObject<C>>) {
    && linked.components == item.components
    && match item.parent
       case None => linked.parentIndex == None
       case Some(parent) => linked.parentIndex.Some? && linked.parentIndex.value < |compiled|
                            && compiled[linked.parentIndex.value].id == parent
  }

  /** There is only one way to compile. */
  lemma {:induction false} CompiledIsUnique<C>(objects: map<string, ChartObject<C>>, a: seq<RuntimeObject<C>>,
                                               b: seq<RuntimeObject<C>>)
    requires IsCompiled(objects, a) && IsCompiled(objects, b)
    ensures a == b
  {
    var x, y := IdsOf(a), IdsOf(b);
    SameIds(objects, a, b);
    SameIds(objects, b, a);
    StringLessIsTotal(x);
    AscendingIsUnique(StringLess, x, y);
    AscendingIsDistinct(StringLess, x);
    forall i | 0 <= i < |a| ensures a[i] == b[i] {
      assert x[i] == y[i] && a[i].id == b[i].id;
      SameRecord(objects[a[i].id], a[i], b[i], a, b, x);
    }
  }

  lemma SameRecord<C>(item: ChartObject<C>, p: RuntimeObject<C>, q: RuntimeObject<C>, a: seq<RuntimeObject<C>>,
                      b: seq<RuntimeObject<C>>, ids: seq<string>)
    requires IdsOf(a) == ids == IdsOf(b) && Distinct(ids) && p.id == q.id
    requires IsCompiledObject(item, p, a) && IsCompiledObject(item, q, b)
    ensures p == q
  {
    if item.parent.Some? { assert ids[p.parentIndex.value] == ids[q.parentIndex.value]; }
  }

  ghost function IdsOf<C>(compiled: seq<RuntimeObject<C>>): (ids: seq<string>)
    ensures |ids| == |compiled| && forall i :: 0 <= i < |ids| ==> ids[i] == compiled[i].id
  {
    seq(|compiled|, i requires 0 <= i < |compiled| => compiled[i].id)
  }

  lemma SameIds<C>(objects: map<string, ChartObject<C>>, a: seq<RuntimeObject<C>>, b: seq<RuntimeObject<C>>)
    requires IsCompiled(objects, a) && IsCompiled(objects, b)
    ensures forall id :: id in IdsOf(a) ==> id in IdsOf(b)
  {
    forall id | id in IdsOf(a) ensures id in IdsOf(b) {
      var i :| 0 <= i < |a| && IdsOf(a)[i] == id;
      assert a[i].id == id;
      var j :| 0 <= j < |b| && b[j].id == id;
      assert IdsOf(b)[j] == id;
    }
  }

  /** With unique IDs the order of the document's objects is immaterial: their index is the same map. */
  lemma {:induction false} IndexIgnoresOrder<C(!new)>(a: seq<ChartObject<C>>, b: seq<ChartObject<C>>)
    requires multiset(a) == multiset(b) && !RepeatsId(a) && !RepeatsId(b)
    ensures FirstById(a, |a|) == FirstById(b, |b|)
  {
    SameMultisetSameMembers(a, b);
    OnlyOneOfEachId(a);
    OnlyOneOfEachId(b);
  }

  lemma {:induction false} OnlyOneOfEachId<C>(objects: seq<ChartObject<C>>)
    requires !RepeatsId(objects)
    ensures forall x :: x in objects && x.id != "" ==>
      x.id in FirstById(objects, |objects|) && FirstById(objects, |objects|)[x.id] == x
    ensures forall id :: id in FirstById(objects, |objects|) ==>
      FirstById(objects, |objects|)[id] in objects && FirstById(objects, |objects|)[id].id == id != ""
  {
    FirstByIdIsFirst(objects, |objects|);
    var index := FirstById(objects, |objects|);
    forall x | x in objects && x.id != "" ensures x.id in index && index[x.id] == x {
      var i :| 0 <= i < |objects| && objects[i] == x;
      assert x.id in index;
      var j :| 0 <= j < |objects| && objects[j] == index[x.id];
      assert i == j;
    }
  }

  /** std::map of the objects by ID, and its keys in order. */
  method IndexObjects<C>(objects: seq<ChartObject<C>>)
    returns (byId: map<string, ChartObject<C>>, ids: seq<string>, errors: set<ChartError>)
    ensures byId == FirstById(objects, |objects|)
    ensures Ascending(StringLess, ids) && forall id :: id in ids <==> id in byId
    ensures errors <= {ObjectIdEmpty, ObjectIdDuplicate}
    ensures ObjectIdEmpty in errors <==> HasEmptyId(objects)
    ensures ObjectIdDuplicate in errors <==> RepeatsId(objects)
  {
    byId, ids, errors := map[], [], {};
    for i := 0 to |objects|
      invariant byId == FirstById(objects, i)
      invariant Distinct(ids) && forall id :: id in ids <==> id in byId
      invariant errors <= {ObjectIdEmpty, ObjectIdDuplicate}
      invariant ObjectIdEmpty in errors <==> exists j :: 0 <= j < i && objects[j].id == ""
      invariant ObjectIdDuplicate in errors <==> exists j, k :: 0 <= j < k < i && objects[j].id == objects[k].id != ""
    {
      var item := objects[i];
      FirstByIdIsFirst(objects, i);
      if item.id == "" {
        errors := errors + {ObjectIdEmpty};
        continue;
      }
      if item.id in byId {
        errors := errors + {ObjectIdDuplicate};
      } else {
        byId, ids := byId[item.id := item], ids + [item.id];
      }
    }
    StringLessIsTotal(ids);
    SortAscends(StringLess, ids);
    SameMultisetSameMembers(Sort(StringLess, ids), ids);
    ids := Sort(StringLess, ids);
  }

  /** Settles every object. */
  method SettleAll<C>(objects: map<string, ChartObject<C>>, ids: seq<string>)
    returns (states: map<string, HierarchyState>, cycles: bool)
    requires forall id :: id in ids <==> id in objects
    ensures states.Keys == objects.Keys
    ensures forall id :: id in objects ==> states[id] == StateFor(FateOf(ParentsOf(objects), id))
    ensures cycles <==> exists id :: id in objects && FateOf(ParentsOf(objects), id) == Endless
  {
    var validator := new HierarchyValidator(objects);
    for i := 0 to |ids|
      invariant validator.Sound() && forall k :: 0 <= k < i ==> ids[k] in validator.states
    {
      var _ := validator.Visit(ids[i]);
    }
    states, cycles := validator.states, validator.cycles;
  }

  /** The objects to include, in order. */
  method Include(ids: seq<string>, states: map<string, HierarchyState>) returns (included: seq<string>)
    requires Ascending(StringLess, ids) && forall id :: id in ids ==> id in states
    ensures Ascending(StringLess, included) && forall id :: id in included <==> id in ids && states[id] == Valid
  {
    included := [];
    for i := 0 to |ids|
      invariant Ascending(StringLess, included)
      invariant forall id :: id in included ==> id in ids[..i] && states[id] == Valid
      invariant forall k :: 0 <= k < i && states[ids[k]] == Valid ==> ids[k] in included
    {
      if states[ids[i]] == Valid {
        assert forall id :: id in included ==> StringLess(id, ids[i]);
        included := included + [ids[i]];
      }
    }
  }

  /** Where each included object will be. */
  method IndexIds(included: seq<string>) returns (indices: map<string, nat>)
    requires Distinct(included)
    ensures forall id :: id in indices <==> id in included
    ensures forall id :: id in indices ==> indices[id] < |included| && included[indices[id]] == id
  {
    indices := map[];
    for i := 0 to |included|
      invariant forall k :: 0 <= k < i ==> included[k] in indices
      invariant forall id :: id in indices ==> indices[id] < i && included[indices[id]] == id
    {
      indices := indices[included[i] := i];
    }
  }

  /** Each included object's record, with its parent's index. */
  ghost predicate Links<C>(objects: map<string, ChartObject<C>>, indices: map<string, nat>, id: string,
                           linked: RuntimeObject<C>)
    requires id in objects
  {
    && linked.id == id && linked.components == objects[id].components
    && match objects[id].parent
       case None => linked.parentIndex == None
       case Some(parent) => parent in indices && linked.parentIndex == Some(indices[parent])
  }

  ghost predicate ParentIncluded<C>(objects: map<string, ChartObject<C>>, indices: map<string, nat>, id: string)
    requires id in objects
  {
    objects[id].parent.Some? ==> objects[id].parent.value in indices
  }

  /** An object that is included without its parent is reported as an internal error. */
  method Link<C>(objects: map<string, ChartObject<C>>, included: seq<string>, indices: map<string, nat>)
    returns (compiled: seq<RuntimeObject<C>>, errors: set<ChartError>)
    requires forall id :: id in included ==> id in objects
    ensures errors <= {InternalParentMissing}
    ensures errors == {} <==> forall i :: 0 <= i < |included| ==> ParentIncluded(objects, indices, included[i])
    ensures errors == {} ==> |compiled| == |included|
    ensures errors == {} ==> forall i :: 0 <= i < |included| ==> Links(objects, indices, included[i], compiled[i])
  {
    compiled, errors := [], {};
    for i := 0 to |included|
      invariant errors <= {InternalParentMissing}
      invariant errors == {} <==> forall k :: 0 <= k < i ==> ParentIncluded(objects, indices, included[k])
      invariant errors == {} ==> |compiled| == i
      invariant errors == {} ==> forall k :: 0 <= k < i ==> Links(objects, indices, included[k], compiled[k])
    {
      var item := objects[included[i]];
      var parentIndex: Option<nat> := None;
      if item.parent.Some? {
        if item.parent.value !in indices {
          assert !ParentIncluded(objects, indices, included[i]);
          errors := errors + {InternalParentMissing};
          continue;
        }
        parentIndex := Some(indices[item.parent.value]);
      }
      compiled := compiled + [RuntimeObject(included[i], parentIndex, item.components)];
    }
  }

  ghost predicate IncludesRooted<C>(objects: map<string, ChartObject<C>>, included: seq<string>,
                                    indices: map<string, nat>) {
    && Ascending(StringLess, included)
    && (forall id :: id in included <==> id in objects && FateOf(ParentsOf(objects), id).Rooted?)
    && (forall id :: id in indices <==> id in included)
    && forall id :: id in indices ==> indices[id] < |included| && included[indices[id]] == id
  }

  /** An object whose chain ends at a root has a parent whose chain does too. */
  lemma {:induction false} ParentsAreIncluded<C>(objects: map<string, ChartObject<C>>, included: seq<string>,
                                                 indices: map<string, nat>)
    requires IncludesRooted(objects, included, indices)
    ensures forall i :: 0 <= i < |included| ==> ParentIncluded(objects, indices, included[i])
  {
    forall i | 0 <= i < |included| ensures ParentIncluded(objects, indices, included[i]) {
      FateOfOne(ParentsOf(objects), included[i]);
    }
  }

  lemma {:induction false} LinkedIsCompiled<C>(objects: map<string, ChartObject<C>>, included: seq<string>,
                                               indices: map<string, nat>, compiled: seq<RuntimeObject<C>>)
    requires IncludesRooted(objects, included, indices) && |compiled| == |included|
    requires forall i :: 0 <= i < |included| ==> Links(objects, indices, included[i], compiled[i])
    ensures IsCompiled(objects, compiled)
  {
    forall i | 0 <= i < |compiled|
      ensures compiled[i].id in objects && IsCompiledObject(objects[compiled[i].id], compiled[i], compiled)
    {
      assert Links(objects, indices, included[i], compiled[i]);
    }
    forall id | id in objects
      ensures (exists i :: 0 <= i < |compiled| && compiled[i].id == id) <==> FateOf(ParentsOf(objects), id).Rooted?
    {
      assert id in included ==> compiled[indices[id]].id == id;
    }
  }

  /** Compiles the objects. */
  method Compile<C>(objects: seq<ChartObject<C>>) returns (r: Result<seq<RuntimeObject<C>>, set<ChartError>>)
    ensures r.Err? <==> HasEmptyId(objects) || RepeatsId(objects) || HasCycle(objects)
    ensures r.Err? ==> (ObjectIdEmpty in r.error <==> HasEmptyId(objects))
    ensures r.Err? ==> (ObjectIdDuplicate in r.error <==> RepeatsId(objects))
    ensures r.Err? ==> (HierarchyCycle in r.error <==> HasCycle(objects))
    ensures r.Err? ==> InternalParentMissing !in r.error
    ensures r.Ok? ==> IsCompiled(FirstById(objects, |objects|), r.value)
  {
    var byId, ids, errors := IndexObjects(objects);
    var states, cycles := SettleAll(byId, ids);
    assert cycles <==> HasCycle(objects);
    if cycles { errors := errors + {HierarchyCycle}; }
    if errors != {} { return Err(errors); }
    assert !HasEmptyId(objects) && !RepeatsId(objects) && !HasCycle(objects);
    var included := Include(ids, states);
    StringLessIsTotal(included);
    AscendingIsDistinct(StringLess, included);
    var indices := IndexIds(included);
    assert IncludesRooted(byId, included, indices);
    ParentsAreIncluded(byId, included, indices);
    var compiled, internal := Link(byId, included, indices);
    if internal != {} { return Err(internal); }
    LinkedIsCompiled(byId, included, indices, compiled);
    r := Ok(compiled);
  }

  /** So the compiled objects do not depend on the order of the document. */
  lemma {:induction false} CompilationIgnoresOrder<C(!new)>(a: seq<ChartObject<C>>, b: seq<ChartObject<C>>,
                                                            x: seq<RuntimeObject<C>>, y: seq<RuntimeObject<C>>)
    requires multiset(a) == multiset(b) && !RepeatsId(a) && !RepeatsId(b)
    requires IsCompiled(FirstById(a, |a|), x) && IsCompiled(FirstById(b, |b|), y)
    ensures x == y && (HasCycle(a) <==> HasCycle(b))
  {
    IndexIgnoresOrder(a, b);
    CompiledIsUnique(FirstById(a, |a|), x, y);
  }
}
