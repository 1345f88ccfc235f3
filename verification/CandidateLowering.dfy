/**
 Lowering a candidate chart to runtime objects: entities are put in canonical order, named, linked to their
 parents, checked for cycles and rearranged by execution ID.
 */
module CandidateLowering {
  import opened Wrappers
  import opened Sorting
  import opened ParentChains

  // ---------------------------------------------------------------- the cycle check

  /** Parents by index, as a map. */
  ghost function ByIndex(parents: seq<Option<nat>>): map<nat, Option<nat>> {
    map i: nat | i < |parents| :: parents[i]
  }

  /** Following parents from every index ends at a root. */
  ghost predicate AllRooted(parents: seq<Option<nat>>) {
    forall i: nat :: i < |parents| ==> FateOf<nat>(ByIndex(parents), i).Rooted?
  }

  /** The end of a climb decides for the whole climb. */
  lemma {:induction false} EndDecides(graph: map<nat, Option<nat>>, chain: seq<nat>)
    requires Walk(graph, chain) && chain != [] && FateOf<nat>(graph, chain[|chain| - 1]).Rooted?
    ensures forall i :: i in chain ==> i in graph && FateOf<nat>(graph, i).Rooted?
  {
    forall i | i in chain ensures i in graph && FateOf<nat>(graph, i).Rooted? {
      var j :| 0 <= j < |chain| && chain[j] == i;
      WalkSharesFate(graph, chain, j, |chain| - 1);
    }
  }

  /** Meeting itself, its own marks or an index out of range, a climb never reaches a root. */
  lemma {:induction false} BadEnd(graph: map<nat, Option<nat>>, chain: seq<nat>, next: nat)
    requires Walk(graph, chain) && chain != [] && graph[chain[|chain| - 1]] == Some(next)
    requires next in chain || next !in graph
    ensures !FateOf<nat>(graph, chain[0]).Rooted?
  {
    if next in chain {
      var back :| 0 <= back < |chain| && chain[back] == next;
      LoopIsEndless(graph, chain, back);
    } else {
      FateOfOne<nat>(graph, chain[|chain| - 1]);
      WalkSharesFate(graph, chain, 0, |chain| - 1);
    }
  }

  /** One climb of the cycle check: marks what it passes, until a root or something already cleared, or until it meets
      its own marks, itself or an index out of range. */
  method Climb(parents: seq<Option<nat>>, visitState: array<int>, start: nat) returns (cycle: bool, chain: seq<nat>)
    requires visitState.Length == |parents| && start < |parents| && visitState[start] == 0
    requires forall i :: 0 <= i < |parents| ==> visitState[i] == 0 || visitState[i] == 2
    requires forall i: nat :: i < |parents| && visitState[i] == 2 ==> FateOf<nat>(ByIndex(parents), i).Rooted?
    modifies visitState
    ensures start in chain && forall k :: 0 <= k < |chain| ==> chain[k] < |parents|
    ensures cycle ==> !AllRooted(parents)
    ensures !cycle ==> forall i: nat :: i in chain ==> FateOf<nat>(ByIndex(parents), i).Rooted?
    ensures forall i :: 0 <= i < |parents| ==> visitState[i] == if i in chain then 1 else old(visitState[i])
  {
    ghost var graph := ByIndex(parents);
    chain, cycle := [], false;
    var current: nat := start;
    ghost var unseen := graph.Keys;
    while visitState[current] == 0
      invariant current < |parents| && Walk(graph, chain) && !cycle
      invariant chain != [] ==> graph[chain[|chain| - 1]] == Some(current)
      invariant visitState[current] == 0 && (current == start || start in chain)
      invariant forall i: nat :: i < |parents| ==> (i in unseen <==> i !in chain)
      invariant forall i :: 0 <= i < |parents| ==> visitState[i] == if i in chain then 1 else old(visitState[i])
      decreases |unseen|
    {
      WalkGrows(graph, chain, current);
      FateOfOne<nat>(graph, current);
      visitState[current] := 1;
      chain, unseen := chain + [current], unseen - {current};
      var parent := parents[current];
      if parent == None {
        EndDecides(graph, chain);
        break;
      }
      if parent.value >= |parents| || parent.value == current || visitState[parent.value] == 1 {
        BadEnd(graph, chain, parent.value);
        cycle := true;
        break;
      }
      if visitState[parent.value] == 2 {
        EndDecides(graph, chain);
        break;
      }
      current := parent.value;
    }
  }

  /** Reports a cycle exactly when some index does not lead up to a root. */
  method HasParentCycle(parents: seq<Option<nat>>) returns (cycle: bool)
    ensures cycle <==> !AllRooted(parents)
  {
    var visitState := new int[|parents|](i => 0);
    for start := 0 to |parents|
      invariant forall i :: 0 <= i < |parents| ==> visitState[i] == 0 || visitState[i] == 2
      invariant forall i: nat :: i < |parents| && visitState[i] == 2 ==> FateOf<nat>(ByIndex(parents), i).Rooted?
      invariant forall i :: 0 <= i < start ==> visitState[i] == 2
    {
      if visitState[start] != 0 {
        continue;
      }
      label climbing:
      var found, chain := Climb(parents, visitState, start);
      if found {
        return true;
      }
      for k := 0 to |chain|
        invariant forall i :: 0 <= i < |parents| ==>
          visitState[i] == if i in chain[..k] then 2 else if i in chain then 1 else old@climbing(visitState[i])
      {
        visitState[chain[k]] := 2;
      }
      assert chain[..|chain|] == chain;
    }
    cycle := false;
  }

  // ---------------------------------------------------------------- entities

  datatype Identity<G> = Explicit(objectId: string) | Generated(identity: G)

  /** The canonical bytes of an identity, which may not exist, and the name hashed from bytes; neither is looked into.
      Byte strings are strings whose characters are bytes. */
  datatype Codec<!G> = Codec(encode: Identity<G> -> Option<string>, hashedName: string -> string)

  datatype ComponentKind = Transform | Renderable | Camera

  datatype Component<P> = Component(kind: ComponentKind, payload: P)

  datatype Entity<G, P> = Entity(identity: Identity<G>, parent: Option<Identity<G>>, components: seq<Component<P>>,
                                 requirements: P)

  datatype Ordered<G, P> = Ordered(bytes: string, entity: Entity<G, P>)

  datatype RuntimeObject<P> = RuntimeObject(id: string, parentIndex: Option<nat>, components: map<ComponentKind, P>)

  datatype Metadata<G, P> = Metadata(runtimeIndex: nat, identity: Identity<G>, parent: Option<Identity<G>>,
                                     executionId: string, requirements: P)

  datatype Artifact<G, P> = Artifact(objects: seq<RuntimeObject<P>>, metadata: seq<Metadata<G, P>>)

  datatype LoweringError =
    | IdentityInvalid | IdentityDuplicate | ExecutionIdCollision
    | ParentInvalid | ParentMissing | ComponentDuplicate | ParentCycle

  function ExecutionId<G, P>(codec: Codec<G>, item: Ordered<G, P>): string {
    match item.entity.identity
    case Explicit(objectId) => objectId
    case Generated(_) => codec.hashedName(item.bytes)
  }

  predicate BytesBefore<G, P>(left: Ordered<G, P>, right: Ordered<G, P>) { StringLess(left.bytes, right.bytes) }

  ghost predicate Encodes<G, P>(codec: Codec<G>, entities: seq<Entity<G, P>>) {
    forall i :: 0 <= i < |entities| ==> codec.encode(entities[i].identity).Some?
  }

  ghost predicate RepeatsIdentity<G, P>(codec: Codec<G>, entities: seq<Entity<G, P>>) {
    exists i, j :: 0 <= i < j < |entities| && SameIdentity(codec, entities[i], entities[j])
  }

  ghost predicate SameIdentity<G, P>(codec: Codec<G>, left: Entity<G, P>, right: Entity<G, P>) {
    codec.encode(left.identity).Some? && codec.encode(left.identity) == codec.encode(right.identity)
  }

  ghost function Encoded<G, P>(codec: Codec<G>, entities: seq<Entity<G, P>>): (r: seq<Ordered<G, P>>)
    requires Encodes(codec, entities)
    ensures |r| == |entities|
    ensures forall i :: 0 <= i < |r| ==> r[i] == Ordered(codec.encode(entities[i].identity).value, entities[i])
  {
    seq(|entities|, i requires 0 <= i < |entities| => Ordered(codec.encode(entities[i].identity).value, entities[i]))
  }

  /** The entities by their identity bytes. */
  ghost function CanonicalOrder<G, P>(codec: Codec<G>, entities: seq<Entity<G, P>>): seq<Ordered<G, P>>
    requires Encodes(codec, entities)
  {
    Sort(BytesBefore, Encoded(codec, entities))
  }

  ghost predicate DistinctBytes<G, P>(ordered: seq<Ordered<G, P>>) {
    forall i, j :: 0 <= i < j < |ordered| ==> ordered[i].bytes != ordered[j].bytes
  }

  ghost predicate Collides<G, P>(codec: Codec<G>, ordered: seq<Ordered<G, P>>) {
    exists i, j :: 0 <= i < j < |ordered| && ExecutionId(codec, ordered[i]) == ExecutionId(codec, ordered[j])
  }

  /** The entity with these bytes. */
  ghost function Find<G, P>(ordered: seq<Ordered<G, P>>, bytes: string, from: nat := 0): (r: Option<nat>)
    requires from <= |ordered|
    ensures r.Some? ==> from <= r.value < |ordered| && ordered[r.value].bytes == bytes
    ensures r.None? ==> forall i :: from <= i < |ordered| ==> ordered[i].bytes != bytes
    decreases |ordered| - from
  {
    if from == |ordered| then None else if ordered[from].bytes == bytes then Some(from)
    else Find(ordered, bytes, from + 1)
  }

  ghost predicate ParentUnreadable<G, P>(codec: Codec<G>, item: Ordered<G, P>) {
    item.entity.parent.Some? && codec.encode(item.entity.parent.value) == None
  }

  ghost predicate ParentAbsent<G, P>(codec: Codec<G>, ordered: seq<Ordered<G, P>>, item: Ordered<G, P>) {
    item.entity.parent.Some? && codec.encode(item.entity.parent.value).Some?
    && Find(ordered, codec.encode(item.entity.parent.value).value) == None
  }

  ghost predicate RepeatsComponent<G, P>(item: Ordered<G, P>) {
    exists i, j :: 0 <= i < j < |item.entity.components|
        && item.entity.components[i].kind == item.entity.components[j].kind
  }

  /** The index of an entity's declared parent. */
  ghost function ParentOf<G, P>(codec: Codec<G>, ordered: seq<Ordered<G, P>>, item: Ordered<G, P>): (r: Option<nat>)
    ensures r.Some? ==> r.value < |ordered|
  {
    match item.entity.parent
    case None => None
    case Some(parent) => match codec.encode(parent) case None => None case Some(bytes) => Find(ordered, bytes)
  }

  ghost function Parents<G, P>(codec: Codec<G>, ordered: seq<Ordered<G, P>>): (r: seq<Option<nat>>)
    ensures |r| == |ordered| && forall i :: 0 <= i < |r| ==> r[i] == ParentOf(codec, ordered, ordered[i])
  {
    seq(|ordered|, i requires 0 <= i < |ordered| => ParentOf(codec, ordered, ordered[i]))
  }

  /** Exactly what is reported: identities first, then names, then links and components, then cycles. */
  ghost function Faults<G, P>(codec: Codec<G>, entities: seq<Entity<G, P>>): set<LoweringError> {
    var identity := IdentityFaults(codec, entities);
    if identity != {} then identity else CanonicalFaults(codec, CanonicalOrder(codec, entities))
  }

  ghost function IdentityFaults<G, P>(codec: Codec<G>, entities: seq<Entity<G, P>>): (r: set<LoweringError>)
    ensures r == {} <==> Encodes(codec, entities) && !RepeatsIdentity(codec, entities)
  {
    FaultsOfFirst(codec, entities, |entities|)
  }

  ghost function FaultsOfFirst<G, P>(codec: Codec<G>, entities: seq<Entity<G, P>>, count: nat): set<LoweringError>
    requires count <= |entities|
  {
    (if exists i :: 0 <= i < count && codec.encode(entities[i].identity).None? then {IdentityInvalid} else {})
    + if exists i, j :: 0 <= i < j < count && SameIdentity(codec, entities[i], entities[j]) then {IdentityDuplicate}
        else {}
  }

  /** Whether an earlier entity has the same identity. */
  ghost predicate SeenBefore<G, P>(codec: Codec<G>, entities: seq<Entity<G, P>>, i: nat)
    requires i < |entities|
  {
    exists j :: 0 <= j < i && SameIdentity(codec, entities[j], entities[i])
  }

  lemma {:induction false} OneMoreEntity<G, P>(codec: Codec<G>, entities: seq<Entity<G, P>>, i: nat)
    requires i < |entities|
    ensures FaultsOfFirst(codec, entities, i + 1)
         == FaultsOfFirst(codec, entities, i) + (if codec.encode(entities[i].identity).None? then {IdentityInvalid}
                                                 else if SeenBefore(codec, entities, i) then {IdentityDuplicate}
                                                     else {})
  {
  }

  ghost function LinkFaults<G, P>(codec: Codec<G>, ordered: seq<Ordered<G, P>>, count: nat): set<LoweringError>
    requires count <= |ordered|
  {
    (if exists i :: 0 <= i < count && ParentUnreadable(codec, ordered[i]) then {ParentInvalid} else {})
    + (if exists i :: 0 <= i < count && ParentAbsent(codec, ordered, ordered[i]) then {ParentMissing} else {})
    + if exists i :: 0 <= i < count && Linkable(codec, ordered, ordered[i]) && RepeatsComponent(ordered[i])
        then {ComponentDuplicate} else {}
  }

  /** Components are only looked at once the parent is found. */
  ghost predicate Linkable<G, P>(codec: Codec<G>, ordered: seq<Ordered<G, P>>, item: Ordered<G, P>) {
    !ParentUnreadable(codec, item) && !ParentAbsent(codec, ordered, item)
  }

  ghost function CanonicalFaults<G, P>(codec: Codec<G>, ordered: seq<Ordered<G, P>>): set<LoweringError> {
    if Collides(codec, ordered) then {ExecutionIdCollision}
    else if LinkFaults(codec, ordered, |ordered|) != {} then LinkFaults(codec, ordered, |ordered|)
    else if !AllRooted(Parents(codec, ordered)) then {ParentCycle} else {}
  }

  // ---------------------------------------------------------------- what a lowered chart is

  /** The k-th object is the entity at this place of the canonical order, under its execution ID, with its components,
      and its parent index is where the declared parent went. */
  ghost predicate Lowers<G, P>(codec: Codec<G>, ordered: seq<Ordered<G, P>>, order: seq<nat>,
                               artifact: Artifact<G, P>, k: nat)
    requires k < |order| == |artifact.objects| == |artifact.metadata| && order[k] < |ordered|
  {
    var item := ordered[order[k]];
    && artifact.objects[k].id == ExecutionId(codec, item)
    && artifact.objects[k].components == ComponentMap(item.entity.components, |item.entity.components|)
    && artifact.metadata[k]
        == Metadata(k, item.entity.identity, item.entity.parent, ExecutionId(codec, item), item.entity.requirements)
    && match ParentOf(codec, ordered, item)
       case None => artifact.objects[k].parentIndex == None
       case Some(parent) => artifact.objects[k].parentIndex.Some? && artifact.objects[k].parentIndex.value < |order|
                            && order[artifact.objects[k].parentIndex.value] == parent
  }

  /** The first so many components, one per kind. */
  ghost function ComponentMap<P>(components: seq<Component<P>>, count: nat): map<ComponentKind, P>
    requires count <= |components|
  {
    if count == 0 then map[]
    else ComponentMap(components, count - 1)[components[count - 1].kind := components[count - 1].payload]
  }

  ghost predicate Permutes(order: seq<nat>, n: nat) {
    && |order| == n && Distinct(order)
    && (forall k :: 0 <= k < n ==> order[k] < n)
    && forall i: nat :: i < n ==> i in order
  }

  ghost predicate Arranges<G, P>(codec: Codec<G>, ordered: seq<Ordered<G, P>>, artifact: Artifact<G, P>,
                                 order: seq<nat>) {
    && Permutes(order, |ordered|)
    && |artifact.objects| == |artifact.metadata| == |order|
    && (forall i, j :: 0 <= i < j < |order| ==> StringLess(artifact.objects[i].id, artifact.objects[j].id))
    && forall k :: 0 <= k < |order| ==> Lowers(codec, ordered, order, artifact, k)
  }

  /** Every entity becomes one object, and the objects ascend strictly by execution ID. */
  ghost predicate IsLowered<G, P>(codec: Codec<G>, ordered: seq<Ordered<G, P>>, artifact: Artifact<G, P>) {
    exists order :: Arranges(codec, ordered, artifact, order)
  }

  // ---------------------------------------------------------------- there is one way to lower a chart

  ghost function NamesOf<G, P>(codec: Codec<G>, ordered: seq<Ordered<G, P>>, order: seq<nat>): (names: seq<string>)
    requires forall k :: 0 <= k < |order| ==> order[k] < |ordered|
    ensures |names| == |order| && forall k :: 0 <= k < |names| ==> names[k] == ExecutionId(codec, ordered[order[k]])
  {
    seq(|order|, k requires 0 <= k < |order| => ExecutionId(codec, ordered[order[k]]))
  }

  lemma SameNames<G, P>(codec: Codec<G>, ordered: seq<Ordered<G, P>>, x: seq<nat>, y: seq<nat>)
    requires Permutes(x, |ordered|) && Permutes(y, |ordered|)
    ensures forall name :: name in NamesOf(codec, ordered, x) ==> name in NamesOf(codec, ordered, y)
  {
    forall name | name in NamesOf(codec, ordered, x) ensures name in NamesOf(codec, ordered, y) {
      var k :| 0 <= k < |x| && NamesOf(codec, ordered, x)[k] == name;
      assert x[k] in y;
      var j :| 0 <= j < |y| && y[j] == x[k];
      assert NamesOf(codec, ordered, y)[j] == name;
    }
  }

  /** Ascending names leave one arrangement. */
  lemma {:induction false} ArrangementIsUnique<G, P>(codec: Codec<G>, ordered: seq<Ordered<G, P>>, x: seq<nat>,
                                                     y: seq<nat>)
    requires !Collides(codec, ordered) && Permutes(x, |ordered|) && Permutes(y, |ordered|)
    requires Ascending(StringLess, NamesOf(codec, ordered, x)) && Ascending(StringLess, NamesOf(codec, ordered, y))
    ensures x == y
  {
    var p, q := NamesOf(codec, ordered, x), NamesOf(codec, ordered, y);
    SameNames(codec, ordered, x, y);
    SameNames(codec, ordered, y, x);
    StringLessIsTotal(p);
    AscendingIsUnique(StringLess, p, q);
    forall k | 0 <= k < |x| ensures x[k] == y[k] {
      assert p[k] == q[k];
      assert ExecutionId(codec, ordered[x[k]]) == ExecutionId(codec, ordered[y[k]]);
    }
  }

  lemma {:induction false} LoweredIsUnique<G, P>(codec: Codec<G>, ordered: seq<Ordered<G, P>>, a: Artifact<G, P>,
                                                 b: Artifact<G, P>)
    requires !Collides(codec, ordered) && IsLowered(codec, ordered, a) && IsLowered(codec, ordered, b)
    ensures a == b
  {
    var x :| Arranges(codec, ordered, a, x);
    var y :| Arranges(codec, ordered, b, y);
    NamesAscend(codec, ordered, a, x);
    NamesAscend(codec, ordered, b, y);
    ArrangementIsUnique(codec, ordered, x, y);
    forall k | 0 <= k < |x| ensures a.objects[k] == b.objects[k] && a.metadata[k] == b.metadata[k] {
      SameObject(codec, ordered, x, a, b, k);
    }
  }

  lemma NamesAscend<G, P>(codec: Codec<G>, ordered: seq<Ordered<G, P>>, artifact: Artifact<G, P>, order: seq<nat>)
    requires Arranges(codec, ordered, artifact, order)
    ensures Ascending(StringLess, NamesOf(codec, ordered, order))
  {
    var names := NamesOf(codec, ordered, order);
    forall i, j | 0 <= i < j < |names| ensures StringLess(names[i], names[j]) {
      assert Lowers(codec, ordered, order, artifact, i) && Lowers(codec, ordered, order, artifact, j);
    }
  }

  lemma SameObject<G, P>(codec: Codec<G>, ordered: seq<Ordered<G, P>>, order: seq<nat>, a: Artifact<G, P>,
                         b: Artifact<G, P>, k: nat)
    requires Arranges(codec, ordered, a, order) && Arranges(codec, ordered, b, order) && k < |order|
    ensures a.objects[k] == b.objects[k] && a.metadata[k] == b.metadata[k]
  {
    assert Lowers(codec, ordered, order, a, k) && Lowers(codec, ordered, order, b, k);
  }

  // ---------------------------------------------------------------- nothing depends on the order of the entities

  lemma TwicePresent<T(!new)>(s: seq<T>, x: T)
    requires multiset(s)[x] >= 2
    ensures exists i, j :: 0 <= i < j < |s| && s[i] == x == s[j]
  {
    assert x in multiset(s);
    var i :| 0 <= i < |s| && s[i] == x;
    assert s == s[..i] + [x] + s[i + 1..];
    assert x in multiset(s[..i]) || x in multiset(s[i + 1..]);
    if x in s[..i] {
      var j :| 0 <= j < i && s[..i][j] == x;
      assert s[j] == x;
    } else {
      assert x in s[i + 1..];
      var j :| 0 <= j < |s| - i - 1 && s[i + 1..][j] == x;
      assert s[i + 1 + j] == x;
    }
  }

  lemma {:induction false} RepeatsInAnyOrder<G(!new), P(!new)>(codec: Codec<G>, a: seq<Entity<G, P>>,
                                                               b: seq<Entity<G, P>>)
    requires multiset(a) == multiset(b) && RepeatsIdentity(codec, a)
    ensures RepeatsIdentity(codec, b)
  {
    SameMultisetSameMembers(a, b);
    var i, j :| 0 <= i < j < |a| && SameIdentity(codec, a[i], a[j]);
    if a[i] == a[j] {
      TwiceInMultiset(a, i, j);
      TwicePresent(b, a[i]);
    } else {
      assert a[i] in a && a[j] in a;
      var k :| 0 <= k < |b| && b[k] == a[i];
      var l :| 0 <= l < |b| && b[l] == a[j];
      assert if k < l then SameIdentity(codec, b[k], b[l]) else SameIdentity(codec, b[l], b[k]);
    }
  }

  lemma {:induction false} CanonicalOrderIgnoresOrder<G(!new), P(!new)>(codec: Codec<G>, a: seq<Entity<G, P>>,
                                                                        b: seq<Entity<G, P>>)
    requires multiset(a) == multiset(b) && Encodes(codec, a) && Encodes(codec, b) && !RepeatsIdentity(codec, a)
    requires !RepeatsIdentity(codec, b)
    ensures CanonicalOrder(codec, a) == CanonicalOrder(codec, b)
  {
    SameMultisetSameMembers(a, b);
    EncodedIsTotal(codec, a);
    EncodedIsTotal(codec, b);
    SameEncoded(codec, a, b);
    SameEncoded(codec, b, a);
    SortIgnoresOrder(BytesBefore, Encoded(codec, a), Encoded(codec, b));
  }

  lemma SameEncoded<G, P>(codec: Codec<G>, a: seq<Entity<G, P>>, b: seq<Entity<G, P>>)
    requires Encodes(codec, a) && Encodes(codec, b) && forall x :: x in a ==> x in b
    ensures forall x :: x in Encoded(codec, a) ==> x in Encoded(codec, b)
  {
    forall x | x in Encoded(codec, a) ensures x in Encoded(codec, b) {
      var i :| 0 <= i < |a| && Encoded(codec, a)[i] == x;
      assert a[i] in a;
      var j :| 0 <= j < |b| && b[j] == a[i];
      assert Encoded(codec, b)[j] == x;
    }
  }

  lemma {:induction false} EncodedIsTotal<G(!new), P(!new)>(codec: Codec<G>, entities: seq<Entity<G, P>>)
    requires Encodes(codec, entities) && !RepeatsIdentity(codec, entities)
    ensures DistinctBytes(Encoded(codec, entities)) && Distinct(Encoded(codec, entities))
    ensures TotalOn(BytesBefore, Encoded(codec, entities))
  {
    BytesAreTotal(Encoded(codec, entities));
  }

  lemma BytesAreTotal<G(!new), P(!new)>(ordered: seq<Ordered<G, P>>)
    requires DistinctBytes(ordered)
    ensures Distinct(ordered) && TotalOn(BytesBefore, ordered)
  {
    forall x | x in ordered ensures !BytesBefore(x, x) { StringLessIrreflexive(x.bytes); }
    forall x, y | x in ordered && y in ordered && x != y ensures BytesBefore(x, y) || BytesBefore(y, x) {
      StringLessConnected(x.bytes, y.bytes);
    }
    forall x, y, z | x in ordered && y in ordered && z in ordered && BytesBefore(x, y) && BytesBefore(y, z)
        ensures BytesBefore(x, z) {
      StringLessTransitive(x.bytes, y.bytes, z.bytes);
    }
  }

  lemma EncodesInAnyOrder<G, P>(codec: Codec<G>, a: seq<Entity<G, P>>, b: seq<Entity<G, P>>)
    requires Encodes(codec, a) && forall x :: x in b ==> x in a
    ensures Encodes(codec, b)
  {
    forall i | 0 <= i < |b| ensures codec.encode(b[i].identity).Some? {
      assert b[i] in a;
      var j :| 0 <= j < |a| && a[j] == b[i];
    }
  }

  /** The same faults, whatever the order of the entities. */
  lemma {:induction false} FaultsIgnoreOrder<G(!new), P(!new)>(codec: Codec<G>, a: seq<Entity<G, P>>,
                                                               b: seq<Entity<G, P>>)
    requires multiset(a) == multiset(b)
    ensures IdentityFaults(codec, a) == IdentityFaults(codec, b) && Faults(codec, a) == Faults(codec, b)
  {
    SameMultisetSameMembers(a, b);
    if RepeatsIdentity(codec, a) { RepeatsInAnyOrder(codec, a, b); }
    if RepeatsIdentity(codec, b) { RepeatsInAnyOrder(codec, b, a); }
    if Encodes(codec, a) { EncodesInAnyOrder(codec, a, b); }
    if Encodes(codec, b) { EncodesInAnyOrder(codec, b, a); }
    if IdentityFaults(codec, a) == {} { CanonicalOrderIgnoresOrder(codec, a, b); }
  }

  /** And without faults the same lowered chart. */
  lemma {:induction false} LoweringIgnoresOrder<G(!new), P(!new)>(codec: Codec<G>, a: seq<Entity<G, P>>,
                                                                  b: seq<Entity<G, P>>,
                                                                  x: Artifact<G, P>, y: Artifact<G, P>)
    requires multiset(a) == multiset(b) && Faults(codec, a) == {} && Faults(codec, b) == {}
    requires IsLowered(codec, CanonicalOrder(codec, a), x) && IsLowered(codec, CanonicalOrder(codec, b), y)
    ensures x == y
  {
    CanonicalOrderIgnoresOrder(codec, a, b);
    LoweredIsUnique(codec, CanonicalOrder(codec, a), x, y);
  }

  // ---------------------------------------------------------------- lowering

  method EncodeAll<G, P>(codec: Codec<G>, entities: seq<Entity<G, P>>)
    returns (encoded: seq<Ordered<G, P>>, errors: set<LoweringError>)
    ensures errors == IdentityFaults(codec, entities)
    ensures errors == {} ==> encoded == Encoded(codec, entities)
  {
    encoded, errors := [], {};
    var seen: set<string> := {};
    for i := 0 to |entities|
      invariant errors == FaultsOfFirst(codec, entities, i)
      invariant forall b :: b in seen <==> exists j :: 0 <= j < i && codec.encode(entities[j].identity) == Some(b)
      invariant errors == {} ==> |encoded| == i
      invariant errors == {} ==> forall j :: 0 <= j < i ==>
        codec.encode(entities[j].identity).Some?
            && encoded[j] == Ordered(codec.encode(entities[j].identity).value, entities[j])
    {
      var bytes := codec.encode(entities[i].identity);
      OneMoreEntity(codec, entities, i);
      if bytes == None {
        errors := errors + {IdentityInvalid};
        continue;
      }
      assert SeenBefore(codec, entities, i) <==> bytes.value in seen;
      if bytes.value in seen {
        errors := errors + {IdentityDuplicate};
        continue;
      }
      seen, encoded := seen + {bytes.value}, encoded + [Ordered(bytes.value, entities[i])];
    }
  }

  /** Where each identity is. */
  method IndexAll<G, P>(ordered: seq<Ordered<G, P>>) returns (indices: map<string, nat>)
    requires DistinctBytes(ordered)
    ensures forall b :: Find(ordered, b) == if b in indices then Some(indices[b]) else None
  {
    indices := map[];
    for i := 0 to |ordered|
      invariant forall j :: 0 <= j < i ==> ordered[j].bytes in indices && indices[ordered[j].bytes] == j
      invariant forall b :: b in indices ==> indices[b] < i && ordered[indices[b]].bytes == b
    {
      indices := indices[ordered[i].bytes := i];
    }
  }

  /** Names the entities. */
  method NameAll<G, P>(codec: Codec<G>, ordered: seq<Ordered<G, P>>)
    returns (names: seq<string>, errors: set<LoweringError>)
    ensures errors == if Collides(codec, ordered) then {ExecutionIdCollision} else {}
    ensures |names| == |ordered| && forall i :: 0 <= i < |names| ==> names[i] == ExecutionId(codec, ordered[i])
  {
    names, errors := [], {};
    var taken: set<string> := {};
    for i := 0 to |ordered|
      invariant |names| == i && forall j :: 0 <= j < i ==> names[j] == ExecutionId(codec, ordered[j])
      invariant forall name :: name in taken <==> name in names
      invariant errors <= {ExecutionIdCollision}
      invariant errors != {} <==>
        exists j, k :: 0 <= j < k < i && ExecutionId(codec, ordered[j]) == ExecutionId(codec, ordered[k])
    {
      var name := ExecutionId(codec, ordered[i]);
      if name in taken { errors := errors + {ExecutionIdCollision}; }
      taken, names := taken + {name}, names + [name];
    }
  }

  method ToRuntimeComponents<P>(components: seq<Component<P>>) returns (r: map<ComponentKind, P>, duplicate: bool)
    ensures duplicate <==> exists i, j :: 0 <= i < j < |components| && components[i].kind == components[j].kind
    ensures !duplicate ==> r == ComponentMap(components, |components|)
  {
    r, duplicate := map[], false;
    for i := 0 to |components|
      invariant duplicate <==> exists j, k :: 0 <= j < k < i && components[j].kind == components[k].kind
      invariant !duplicate ==> r == ComponentMap(components, i)
      invariant forall kind :: kind in r <==> exists j :: 0 <= j < i && components[j].kind == kind
    {
      if components[i].kind in r {
        duplicate := true;
        continue;
      }
      r := r[components[i].kind := components[i].payload];
    }
  }

  /** The entity as an object at its place in the canonical order. */
  ghost predicate Links<G, P>(codec: Codec<G>, ordered: seq<Ordered<G, P>>, i: nat, linked: RuntimeObject<P>,
                              metadata: Metadata<G, P>)
    requires i < |ordered|
  {
    var item := ordered[i];
    && linked == RuntimeObject(ExecutionId(codec, item), ParentOf(codec, ordered, item),
                               ComponentMap(item.entity.components, |item.entity.components|))
    && metadata == Metadata(i, item.entity.identity, item.entity.parent, ExecutionId(codec, item),
                            item.entity.requirements)
  }

  /** One entity's faults on its own. */
  ghost function ItemFaults<G, P>(codec: Codec<G>, ordered: seq<Ordered<G, P>>,
                                  item: Ordered<G, P>): set<LoweringError> {
    if ParentUnreadable(codec, item) then {ParentInvalid}
    else if ParentAbsent(codec, ordered, item) then {ParentMissing}
    else if RepeatsComponent(item) then {ComponentDuplicate} else {}
  }

  lemma {:induction false} OneMoreItem<G, P>(codec: Codec<G>, ordered: seq<Ordered<G, P>>, i: nat)
    requires i < |ordered|
    ensures LinkFaults(codec, ordered, i + 1) == LinkFaults(codec, ordered, i) + ItemFaults(codec, ordered, ordered[i])
  {
  }

  method LinkOne<G, P>(codec: Codec<G>, ghost ordered: seq<Ordered<G, P>>, indices: map<string, nat>, i: nat,
                       item: Ordered<G, P>)
    returns (linked: RuntimeObject<P>, metadata: Metadata<G, P>, errors: set<LoweringError>)
    requires i < |ordered| && ordered[i] == item
    requires forall b :: Find(ordered, b) == if b in indices then Some(indices[b]) else None
    ensures errors == ItemFaults(codec, ordered, item)
    ensures errors == {} ==> Links(codec, ordered, i, linked, metadata)
  {
    var id := ExecutionId(codec, item);
    linked, errors := RuntimeObject(id, None, map[]), {};
    metadata := Metadata(i, item.entity.identity, item.entity.parent, id, item.entity.requirements);
    var parentIndex: Option<nat> := None;
    if item.entity.parent.Some? {
      var bytes := codec.encode(item.entity.parent.value);
      if bytes == None {
        errors := {ParentInvalid};
        return;
      }
      if bytes.value !in indices {
        errors := {ParentMissing};
        return;
      }
      parentIndex := Some(indices[bytes.value]);
    }
    var components, duplicate := ToRuntimeComponents(item.entity.components);
    if duplicate { errors := {ComponentDuplicate}; }
    linked := RuntimeObject(id, parentIndex, components);
  }

  method LinkAll<G, P>(codec: Codec<G>, ordered: seq<Ordered<G, P>>, indices: map<string, nat>)
    returns (objects: seq<RuntimeObject<P>>, metadata: seq<Metadata<G, P>>, errors: set<LoweringError>)
    requires forall b :: Find(ordered, b) == if b in indices then Some(indices[b]) else None
    ensures errors == LinkFaults(codec, ordered, |ordered|)
    ensures errors == {} ==> |objects| == |metadata| == |ordered|
    ensures errors == {} ==> forall i :: 0 <= i < |ordered| ==> Links(codec, ordered, i, objects[i], metadata[i])
  {
    objects, metadata, errors := [], [], {};
    for i := 0 to |ordered|
      invariant errors == LinkFaults(codec, ordered, i)
      invariant errors == {} ==> |objects| == |metadata| == i
      invariant errors == {} ==> forall j :: 0 <= j < i ==> Links(codec, ordered, j, objects[j], metadata[j])
    {
      OneMoreItem(codec, ordered, i);
      var linked, data, faults := LinkOne(codec, ordered, indices, i, ordered[i]);
      errors, objects, metadata := errors + faults, objects + [linked], metadata + [data];
    }
  }

  // ---------------------------------------------------------------- rearranging by execution ID

  function IdBefore<P>(objects: seq<RuntimeObject<P>>): (nat, nat) -> bool {
    (i: nat, j: nat) => i < |objects| && j < |objects| && StringLess(objects[i].id, objects[j].id)
  }

  ghost predicate DistinctIds<P>(objects: seq<RuntimeObject<P>>) {
    forall i, j :: 0 <= i < j < |objects| ==> objects[i].id != objects[j].id
  }

  function Places(n: nat): (r: seq<nat>)
    ensures |r| == n && forall i :: 0 <= i < n ==> r[i] == i
  {
    seq(n, i => i)
  }

  /** Sorting the places by the IDs of their objects. */
  lemma {:induction false} OrderPermutes<P>(objects: seq<RuntimeObject<P>>)
    requires DistinctIds(objects)
    ensures var order := Sort(IdBefore(objects), Places(|objects|));
            && Permutes(order, |objects|)
            && forall i, j :: 0 <= i < j < |order| ==> StringLess(objects[order[i]].id, objects[order[j]].id)
  {
    var less, places := IdBefore(objects), Places(|objects|);
    var order := Sort(less, places);
    PlacesAreTotal(objects);
    SortAscends(less, places);
    SameMultisetSameMembers(order, places);
    DistinctFollowsMultiset(places, order);
    forall k | 0 <= k < |order| ensures order[k] < |objects| { assert order[k] in places; }
    forall i: nat | i < |objects| ensures i in order { assert places[i] == i; }
    forall i, j | 0 <= i < j < |order| ensures StringLess(objects[order[i]].id, objects[order[j]].id) {
      assert less(order[i], order[j]);
    }
  }

  lemma PlacesAreTotal<P>(objects: seq<RuntimeObject<P>>)
    requires DistinctIds(objects)
    ensures TotalOn(IdBefore(objects), Places(|objects|))
  {
    var less, places := IdBefore(objects), Places(|objects|);
    forall x | x in places ensures !less(x, x) { StringLessIrreflexive(objects[x].id); }
    forall x, y | x in places && y in places && x != y ensures less(x, y) || less(y, x) {
      StringLessConnected(objects[x].id, objects[y].id);
    }
    forall x, y, z | x in places && y in places && z in places && less(x, y) && less(y, z) ensures less(x, z) {
      StringLessTransitive(objects[x].id, objects[y].id, objects[z].id);
    }
  }

  /** The inverse of an arrangement. */
  method Invert(order: seq<nat>) returns (remapped: array<nat>)
    requires Permutes(order, |order|)
    ensures fresh(remapped) && remapped.Length == |order|
    ensures forall k :: 0 <= k < |order| ==> remapped[order[k]] == k
    ensures Inverts(remapped, order)
  {
    remapped := new nat[|order|](i => 0);
    for k := 0 to |order|
      invariant forall j :: 0 <= j < k ==> remapped[order[j]] == j
    {
      remapped[order[k]] := k;
    }
    forall i: nat | i < |order| ensures remapped[i] < |order| && order[remapped[i]] == i {
      assert i in order;
      var k :| 0 <= k < |order| && order[k] == i;
      assert remapped[order[k]] == k;
    }
  }

  ghost predicate Inverts(remapped: array<nat>, order: seq<nat>)
    reads remapped
  {
    remapped.Length == |order| && forall i :: 0 <= i < |order| ==> remapped[i] < |order| && order[remapped[i]] == i
  }

  /** Moves the objects to their final places, and their parent indices with them. */
  method Rearrange<G, P>(objects: seq<RuntimeObject<P>>, metadata: seq<Metadata<G, P>>)
    returns (artifact: Artifact<G, P>, ghost order: seq<nat>)
    requires |metadata| == |objects| && DistinctIds(objects)
    requires forall i :: 0 <= i < |objects| && objects[i].parentIndex.Some? ==> objects[i].parentIndex.value < |objects|
    ensures Permutes(order, |objects|) && |artifact.objects| == |artifact.metadata| == |objects|
    ensures forall i, j :: 0 <= i < j < |order| ==> StringLess(artifact.objects[i].id, artifact.objects[j].id)
    ensures forall k :: 0 <= k < |order| ==>
      Moved(objects, metadata, order, k, artifact.objects[k], artifact.metadata[k])
  {
    var places := Sort(IdBefore(objects), Places(|objects|));
    OrderPermutes(objects);
    order := places;
    var remapped := Invert(places);
    var sortedObjects: seq<RuntimeObject<P>>, sortedMetadata: seq<Metadata<G, P>> := [], [];
    for k := 0 to |places|
      invariant |sortedObjects| == |sortedMetadata| == k && Inverts(remapped, places)
      invariant forall j :: 0 <= j < k ==> Moved(objects, metadata, order, j, sortedObjects[j], sortedMetadata[j])
    {
      RedirectedIsMoved(objects, metadata, places, remapped, k);
      sortedObjects := sortedObjects + [Redirected(objects[places[k]], remapped)];
      sortedMetadata := sortedMetadata + [metadata[places[k]].(runtimeIndex := k)];
    }
    artifact := Artifact(sortedObjects, sortedMetadata);
  }

  /** The object with its parent index sent through the remapping. */
  function Redirected<P>(object_: RuntimeObject<P>, remapped: array<nat>): RuntimeObject<P>
    requires object_.parentIndex.Some? ==> object_.parentIndex.value < remapped.Length
    reads remapped
  {
    if object_.parentIndex.None? then object_ else object_.(parentIndex := Some(remapped[object_.parentIndex.value]))
  }

  lemma RedirectedIsMoved<G, P>(objects: seq<RuntimeObject<P>>, metadata: seq<Metadata<G, P>>, places: seq<nat>,
                                remapped: array<nat>, k: nat)
    requires |metadata| == |objects| == |places| && k < |places| && places[k] < |objects| && Inverts(remapped, places)
    requires objects[places[k]].parentIndex.Some? ==> objects[places[k]].parentIndex.value < |objects|
    ensures Moved(objects, metadata, places, k, Redirected(objects[places[k]], remapped),
                  metadata[places[k]].(runtimeIndex := k))
  {
  }

  ghost predicate Moved<G, P>(objects: seq<RuntimeObject<P>>, metadata: seq<Metadata<G, P>>, order: seq<nat>, k: nat,
                              moved: RuntimeObject<P>, data: Metadata<G, P>)
    requires k < |order| && order[k] < |objects| == |metadata|
  {
    var from := objects[order[k]];
    && moved.id == from.id && moved.components == from.components && data == metadata[order[k]].(runtimeIndex := k)
    && match from.parentIndex
       case None => moved.parentIndex == None
       case Some(parent) =>
         && moved.parentIndex.Some? && moved.parentIndex.value < |order|
         && order[moved.parentIndex.value] == parent
  }

  // ---------------------------------------------------------------- the whole lowering

  function ParentIndices<P>(objects: seq<RuntimeObject<P>>): (r: seq<Option<nat>>)
    ensures |r| == |objects| && forall i :: 0 <= i < |r| ==> r[i] == objects[i].parentIndex
  {
    seq(|objects|, i requires 0 <= i < |objects| => objects[i].parentIndex)
  }

  ghost function Position(order: seq<nat>, i: nat): (k: nat)
    requires i in order
    ensures k < |order| && order[k] == i
  {
    var k :| 0 <= k < |order| && order[k] == i;
    k
  }

  ghost predicate MovesParents(parents: seq<Option<nat>>, moved: seq<Option<nat>>, order: seq<nat>) {
    && |moved| == |parents| && Permutes(order, |parents|)
    && (forall i :: 0 <= i < |parents| && parents[i].Some? ==> parents[i].value < |parents|)
    && forall k :: 0 <= k < |order| ==> MovesParent(parents, moved, order, k)
  }

  ghost predicate MovesParent(parents: seq<Option<nat>>, moved: seq<Option<nat>>, order: seq<nat>, k: nat)
    requires k < |order| == |moved| && order[k] < |parents|
  {
    match parents[order[k]]
    case None => moved[k] == None
    case Some(parent) => moved[k].Some? && moved[k].value < |order| && order[moved[k].value] == parent
  }

  ghost function Positions(order: seq<nat>): map<nat, nat> { map i: nat | i in order :: Position(order, i) }

  lemma PositionInverts(order: seq<nat>, k: nat)
    requires Distinct(order) && k < |order|
    ensures order[k] in Positions(order) && Positions(order)[order[k]] == k
  {
    assert order[k] in order;
    var j := Positions(order)[order[k]];
    assert order[j] == order[k];
  }

  lemma {:induction false} MovesAreRenaming(parents: seq<Option<nat>>, moved: seq<Option<nat>>, order: seq<nat>)
    requires MovesParents(parents, moved, order)
    ensures Renames<nat, nat>(ByIndex(parents), ByIndex(moved), Positions(order))
  {
    var name := Positions(order);
    forall i: nat | i < |parents|
      ensures i in name && name[i] < |moved|
      ensures parents[i] == None ==> moved[name[i]] == None
      ensures parents[i].Some? ==> parents[i].value in name && moved[name[i]] == Some(name[parents[i].value])
    {
      assert i in order;
      var k := name[i];
      assert MovesParent(parents, moved, order, k);
      if parents[i].Some? {
        assert parents[i].value in order;
        assert order[name[parents[i].value]] == order[moved[k].value];
      }
    }
  }

  lemma {:induction false} MovedIsRooted(parents: seq<Option<nat>>, moved: seq<Option<nat>>, order: seq<nat>, k: nat)
    requires MovesParents(parents, moved, order) && k < |moved| && FateOf<nat>(ByIndex(parents), order[k]).Rooted?
    ensures FateOf<nat>(ByIndex(moved), k).Rooted?
  {
    MovesAreRenaming(parents, moved, order);
    PositionInverts(order, k);
    RenamingKeepsFate<nat, nat>(ByIndex(parents), ByIndex(moved), Positions(order), order[k]);
  }

  /** Moving the objects does not change who leads up to a root. */
  lemma {:induction false} MovingKeepsRoots(parents: seq<Option<nat>>, moved: seq<Option<nat>>, order: seq<nat>)
    requires AllRooted(parents) && MovesParents(parents, moved, order)
    ensures AllRooted(moved)
  {
    forall k: nat | k < |moved| ensures FateOf<nat>(ByIndex(moved), k).Rooted? {
      assert order[k] < |parents|;
      MovedIsRooted(parents, moved, order, k);
    }
  }

  lemma CanonicalIsDistinct<G(!new), P(!new)>(codec: Codec<G>, entities: seq<Entity<G, P>>)
    requires Encodes(codec, entities) && !RepeatsIdentity(codec, entities)
    ensures DistinctBytes(CanonicalOrder(codec, entities))
  {
    var ordered := CanonicalOrder(codec, entities);
    EncodedIsTotal(codec, entities);
    SortAscends(BytesBefore, Encoded(codec, entities));
    forall i, j | 0 <= i < j < |ordered| ensures ordered[i].bytes != ordered[j].bytes {
      assert BytesBefore(ordered[i], ordered[j]);
      StringLessIrreflexive(ordered[i].bytes);
    }
  }

  lemma {:induction false} LinkedAndMoved<G, P>(codec: Codec<G>, ordered: seq<Ordered<G, P>>,
                                                objects: seq<RuntimeObject<P>>,
                                                metadata: seq<Metadata<G, P>>, artifact: Artifact<G, P>,
                                                order: seq<nat>)
    requires |objects| == |metadata| == |ordered| && Permutes(order, |ordered|)
    requires forall i :: 0 <= i < |ordered| ==> Links(codec, ordered, i, objects[i], metadata[i])
    requires |artifact.objects| == |artifact.metadata| == |objects|
    requires forall i, j :: 0 <= i < j < |order| ==> StringLess(artifact.objects[i].id, artifact.objects[j].id)
    requires forall k :: 0 <= k < |order| ==>
      Moved(objects, metadata, order, k, artifact.objects[k], artifact.metadata[k])
    ensures IsLowered(codec, ordered, artifact)
  {
    forall k | 0 <= k < |order| ensures Lowers(codec, ordered, order, artifact, k) {
      assert Moved(objects, metadata, order, k, artifact.objects[k], artifact.metadata[k]);
      assert Links(codec, ordered, order[k], objects[order[k]], metadata[order[k]]);
    }
    assert Arranges(codec, ordered, artifact, order);
  }

  /** From canonical entities to the artifact. */
  method LowerCanonical<G, P>(codec: Codec<G>, ordered: seq<Ordered<G, P>>)
    returns (r: Result<Artifact<G, P>, set<LoweringError>>)
    requires DistinctBytes(ordered)
    ensures r.Err? ==> r.error == CanonicalFaults(codec, ordered) != {}
    ensures r.Ok? ==> CanonicalFaults(codec, ordered) == {} && IsLowered(codec, ordered, r.value)
                      && AllRooted(ParentIndices(r.value.objects))
  {
    var indices := IndexAll(ordered);
    var names, errors := NameAll(codec, ordered);
    if errors != {} { return Err(errors); }
    var objects, metadata;
    objects, metadata, errors := LinkAll(codec, ordered, indices);
    if errors != {} { return Err(errors); }
    LinksGiveParents(codec, ordered, objects, metadata);
    var cycle := HasParentCycle(ParentIndices(objects));
    if cycle { return Err({ParentCycle}); }
    var artifact, order := Rearrange(objects, metadata);
    LinkedAndMoved(codec, ordered, objects, metadata, artifact, order);
    MovedParents(objects, metadata, artifact, order);
    r := Ok(artifact);
  }

  lemma LinksGiveParents<G, P>(codec: Codec<G>, ordered: seq<Ordered<G, P>>, objects: seq<RuntimeObject<P>>,
                               metadata: seq<Metadata<G, P>>)
    requires !Collides(codec, ordered) && |objects| == |metadata| == |ordered|
    requires forall i :: 0 <= i < |ordered| ==> Links(codec, ordered, i, objects[i], metadata[i])
    ensures DistinctIds(objects) && ParentIndices(objects) == Parents(codec, ordered)
    ensures forall i :: 0 <= i < |objects| && objects[i].parentIndex.Some? ==> objects[i].parentIndex.value < |objects|
  {
    forall i, j | 0 <= i < j < |objects| ensures objects[i].id != objects[j].id {
      assert Links(codec, ordered, i, objects[i], metadata[i]) && Links(codec, ordered, j, objects[j], metadata[j]);
    }
    forall i | 0 <= i < |objects| ensures objects[i].parentIndex == ParentOf(codec, ordered, ordered[i]) {
      assert Links(codec, ordered, i, objects[i], metadata[i]);
    }
  }

  lemma MovedParents<G, P>(objects: seq<RuntimeObject<P>>, metadata: seq<Metadata<G, P>>, artifact: Artifact<G, P>,
                           order: seq<nat>)
    requires |metadata| == |objects| == |artifact.objects| == |artifact.metadata| && Permutes(order, |objects|)
    requires forall i :: 0 <= i < |objects| && objects[i].parentIndex.Some? ==> objects[i].parentIndex.value < |objects|
    requires forall k :: 0 <= k < |order| ==>
      Moved(objects, metadata, order, k, artifact.objects[k], artifact.metadata[k])
    requires AllRooted(ParentIndices(objects))
    ensures AllRooted(ParentIndices(artifact.objects))
  {
    forall k | 0 <= k < |order|
      ensures MovesParent(ParentIndices(objects), ParentIndices(artifact.objects), order, k)
    {
      assert Moved(objects, metadata, order, k, artifact.objects[k], artifact.metadata[k]);
    }
    MovingKeepsRoots(ParentIndices(objects), ParentIndices(artifact.objects), order);
  }

  /** Lowers a candidate chart: exactly its faults are reported, and without faults every entity becomes one object, in
      strict order of execution ID, whose chain of parents ends at a root. */
  method Lower<G(!new), P(!new)>(codec: Codec<G>, entities: seq<Entity<G, P>>)
    returns (r: Result<Artifact<G, P>, set<LoweringError>>)
    ensures r.Err? ==> r.error == Faults(codec, entities) != {}
    ensures r.Ok? ==> Faults(codec, entities) == {} && IsLowered(codec, CanonicalOrder(codec, entities), r.value)
                      && AllRooted(ParentIndices(r.value.objects))
  {
    var encoded, errors := EncodeAll(codec, entities);
    if errors != {} { return Err(errors); }
    CanonicalIsDistinct(codec, entities);
    r := LowerCanonical(codec, Sort(BytesBefore, encoded));
  }

  /** The parent index names the object of the declared parent, and only roots have none. */
  lemma {:induction false} ParentIsDeclared<G, P>(codec: Codec<G>, entities: seq<Entity<G, P>>,
                                                  artifact: Artifact<G, P>, k: nat)
    requires Faults(codec, entities) == {} && IsLowered(codec, CanonicalOrder(codec, entities), artifact)
    requires k < |artifact.objects|
    requires |artifact.metadata| == |artifact.objects|
    ensures artifact.objects[k].parentIndex == None <==> artifact.metadata[k].parent == None
    ensures artifact.objects[k].parentIndex.Some? ==>
      (var q := artifact.objects[k].parentIndex.value;
       q < |artifact.objects|
           && codec.encode(artifact.metadata[q].identity) == codec.encode(artifact.metadata[k].parent.value))
  {
    var ordered := CanonicalOrder(codec, entities);
    var order :| Arranges(codec, ordered, artifact, order);
    assert Lowers(codec, ordered, order, artifact, k);
    var item := ordered[order[k]];
    assert Linkable(codec, ordered, item) by { NoLinkFault(codec, ordered, order[k]); }
    if item.entity.parent.Some? {
      var q := artifact.objects[k].parentIndex.value;
      assert Lowers(codec, ordered, order, artifact, q);
      BytesAreEncoded(codec, entities, order[q]);
    }
  }

  /** Every object bears its entity's own identifier, or the hashed name of a generated identity's bytes, and the
      payload of every component, under its kind. */
  lemma {:induction false} ObjectsAreDeclared<G, P>(codec: Codec<G>, entities: seq<Entity<G, P>>,
                                                    artifact: Artifact<G, P>, k: nat) returns (e: Entity<G, P>)
    requires Faults(codec, entities) == {} && IsLowered(codec, CanonicalOrder(codec, entities), artifact)
    requires k < |artifact.objects|
    ensures e in entities && codec.encode(e.identity).Some?
    ensures artifact.objects[k].id
         == match e.identity
            case Explicit(objectId) => objectId
            case Generated(_) => codec.hashedName(codec.encode(e.identity).value)
    ensures forall i :: 0 <= i < |e.components| ==>
      && e.components[i].kind in artifact.objects[k].components
      && artifact.objects[k].components[e.components[i].kind] == e.components[i].payload
    ensures forall kind :: kind in artifact.objects[k].components ==>
      exists i :: 0 <= i < |e.components| && e.components[i].kind == kind
  {
    var ordered := CanonicalOrder(codec, entities);
    var order :| Arranges(codec, ordered, artifact, order);
    assert Lowers(codec, ordered, order, artifact, k);
    var item := ordered[order[k]];
    e := item.entity;
    BytesAreEncoded(codec, entities, order[k]);
    ItemIsEntity(codec, entities, order[k]);
    NoRepeatedComponent(codec, ordered, order[k]);
    ComponentsMapped(e.components, |e.components|);
  }

  lemma {:induction false} ItemIsEntity<G, P>(codec: Codec<G>, entities: seq<Entity<G, P>>, i: nat)
    requires Encodes(codec, entities) && i < |CanonicalOrder(codec, entities)|
    ensures CanonicalOrder(codec, entities)[i].entity in entities
  {
    var ordered, encoded := CanonicalOrder(codec, entities), Encoded(codec, entities);
    assert ordered[i] in multiset(ordered) && ordered[i] in multiset(encoded);
    var j :| 0 <= j < |encoded| && encoded[j] == ordered[i];
  }

  lemma {:induction false} NoRepeatedComponent<G, P>(codec: Codec<G>, ordered: seq<Ordered<G, P>>, i: nat)
    requires i < |ordered| && LinkFaults(codec, ordered, |ordered|) == {}
    ensures !RepeatsComponent(ordered[i])
  {
    NoLinkFault(codec, ordered, i);
  }

  lemma {:induction false} ComponentsMapped<P>(components: seq<Component<P>>, count: nat)
    requires count <= |components|
    requires forall i, j :: 0 <= i < j < |components| ==> components[i].kind != components[j].kind
    ensures forall i :: 0 <= i < count ==>
      && components[i].kind in ComponentMap(components, count)
      && ComponentMap(components, count)[components[i].kind] == components[i].payload
    ensures forall kind :: kind in ComponentMap(components, count) ==>
      exists i :: 0 <= i < count && components[i].kind == kind
    decreases count
  {
    if count > 0 { ComponentsMapped(components, count - 1); }
  }

  lemma {:induction false} NoLinkFault<G, P>(codec: Codec<G>, ordered: seq<Ordered<G, P>>, i: nat)
    requires i < |ordered| && LinkFaults(codec, ordered, |ordered|) == {}
    ensures Linkable(codec, ordered, ordered[i])
  {
  }

  lemma BytesAreEncoded<G, P>(codec: Codec<G>, entities: seq<Entity<G, P>>, i: nat)
    requires Encodes(codec, entities) && i < |CanonicalOrder(codec, entities)|
    ensures codec.encode(CanonicalOrder(codec, entities)[i].entity.identity)
        == Some(CanonicalOrder(codec, entities)[i].bytes)
  {
    var encoded, ordered := Encoded(codec, entities), CanonicalOrder(codec, entities);
    assert ordered[i] in multiset(ordered);
    assert ordered[i] in encoded;
  }
}
