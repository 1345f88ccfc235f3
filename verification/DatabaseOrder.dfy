/**
 When the asset database accepts its records in every order: exactly when the dependency search started from each
 record alone reports nothing.
 */
module DatabaseOrder {
  import opened Wrappers
  import opened AssetDatabases
  import Sorting

  // ---------------------------------------------------------------- the same records in another order

  ghost predicate HasAll(g: Graph, h: Graph) {
    forall i :: 0 <= i < |g.records| ==>
      g.records[i].id in h.byId && h.byId[g.records[i].id] < |h.records|
          && h.records[h.byId[g.records[i].id]] == g.records[i]
  }

  ghost predicate SameGraph(g: Graph, h: Graph) { GraphSound(g) && GraphSound(h) && HasAll(g, h) && HasAll(h, g) }

  /** Where a record of one graph is in the other. */
  ghost function Place(g: Graph, h: Graph, i: nat): (k: nat)
    requires SameGraph(g, h) && i < |g.records|
    ensures k < |h.records| && h.records[k] == g.records[i]
  {
    h.byId[g.records[i].id]
  }

  lemma PlaceBack(g: Graph, h: Graph, i: nat)
    requires SameGraph(g, h) && i < |g.records|
    ensures Place(h, g, Place(g, h, i)) == i
  {
  }

  lemma SameDependency(g: Graph, h: Graph, d: string)
    requires SameGraph(g, h)
    ensures d in g.byId <==> d in h.byId
    ensures d in g.byId ==> g.byId[d] < |g.records| && Place(g, h, g.byId[d]) == h.byId[d]
  {
    if d in g.byId { assert g.records[g.byId[d]].id == d; }
    if d in h.byId { assert h.records[h.byId[d]].id == d; }
  }

  // ---------------------------------------------------------------- a search within a closed set

  /** What the members depend on are members. */
  ghost predicate Closed(g: Graph, members: set<nat>) {
    forall k, to: nat :: k in members && to < |g.records| && Edge(g, k, to) ==> to in members
  }

  ghost predicate OnlyWithin(members: set<nat>, before: seq<Color>, after: seq<Color>) {
    |before| == |after| && forall j :: 0 <= j < |before| && after[j] != before[j] ==> j in members
  }

  /** A visit only touches what its start depends on. */
  lemma {:induction false} VisitStaysWithin(g: Graph, maxDepth: nat, s: Search, i: nat, members: set<nat>)
    requires GraphSound(g) && |s.colors| == |g.records| && i < |g.records| && s.colors[i] != Gray
    requires Closed(g, members) && i in members
    ensures OnlyWithin(members, s.colors, Visit(g, maxDepth, s, i).colors)
    ensures DiagnosticsSound(s.diagnostics) ==> DiagnosticsSound(Visit(g, maxDepth, s, i).diagnostics)
    decreases Whites(s.colors), 0
  {
    if s.colors[i] == White && !s.diagnostics.reached {
      LeavingWhite(s.colors, i, Gray);
      var entered := s.(colors := s.colors[i := Gray], stack := s.stack + [i]);
      if |entered.stack| <= maxDepth { AllStaysWithin(g, maxDepth, entered, i, 0, members); }
    }
  }

  lemma {:induction false} AllStaysWithin(g: Graph, maxDepth: nat, s: Search, i: nat, from: nat, members: set<nat>)
    requires GraphSound(g) && |s.colors| == |g.records| && i < |g.records| && from <= |g.records[i].dependencies|
    requires Closed(g, members) && i in members
    ensures OnlyWithin(members, s.colors, VisitAll(g, maxDepth, s, g.records[i].dependencies, from).colors)
    ensures DiagnosticsSound(s.diagnostics) ==>
      DiagnosticsSound(VisitAll(g, maxDepth, s, g.records[i].dependencies, from).diagnostics)
    decreases Whites(s.colors), 1 + |g.records[i].dependencies| - from
  {
    var dependencies := g.records[i].dependencies;
    if from < |dependencies| {
      var d := dependencies[from];
      var next := VisitDependency(g, maxDepth, s, d, |dependencies| - from);
      WhitesShrink(s.colors, next.colors);
      if d in g.byId && s.colors[g.byId[d]] != Gray {
        assert Edge(g, i, g.byId[d]);
        VisitStaysWithin(g, maxDepth, s, g.byId[d], members);
      }
      AllStaysWithin(g, maxDepth, next, i, from + 1, members);
    }
  }

  // ---------------------------------------------------------------- more black never adds a report

  ghost function BlackSet(g: Graph, h: Graph, colors: seq<Color>): set<nat>
    requires SameGraph(g, h) && |colors| == |h.records|
  {
    set i: nat | i < |g.records| && colors[Place(g, h, i)] == Black
  }

  ghost predicate BlackClosed(h: Graph, colors: seq<Color>)
    requires |colors| == |h.records|
  {
    forall k: nat, to: nat :: k < |colors| && to < |colors| && colors[k] == Black && Edge(h, k, to)
        ==> colors[to] == Black
  }

  ghost predicate Quiet(s: Search) { DiagnosticsSound(s.diagnostics) && s.diagnostics.items == [] }

  /** The colours of a record in both searches: gray in both or neither, and black in the second where black in the
      first. */
  predicate Ahead(c: Color, e: Color) { (c == Gray <==> e == Gray) && (c == Black ==> e == Black) }

  /** The second search is ahead of the first: as deep, and at least as black, closed under dependencies. */
  ghost predicate IsAhead(g: Graph, h: Graph, s: Search, t: Search)
    requires SameGraph(g, h)
  {
    && |s.colors| == |g.records| && |t.colors| == |h.records| && |s.stack| == |t.stack| && Quiet(s) && Quiet(t)
    && (forall i :: 0 <= i < |s.colors| ==> Ahead(s.colors[i], t.colors[Place(g, h, i)]))
    && BlackClosed(h, t.colors)
  }

  lemma BlackSetClosed(g: Graph, h: Graph, colors: seq<Color>)
    requires SameGraph(g, h) && |colors| == |h.records| && BlackClosed(h, colors)
    ensures Closed(g, BlackSet(g, h, colors))
  {
    forall k, to: nat | k in BlackSet(g, h, colors) && to < |g.records| && Edge(g, k, to)
        ensures to in BlackSet(g, h, colors) {
      var d :| d in g.records[k].dependencies && d in g.byId && g.byId[d] == to;
      SameDependency(g, h, d);
      assert Edge(h, Place(g, h, k), Place(g, h, to));
    }
  }

  /** Where the second search has already been, the first only catches up. */
  lemma {:induction false} CatchesUp(g: Graph, h: Graph, maxDepth: nat, s: Search, t: Search, i: nat)
    requires SameGraph(g, h) && IsAhead(g, h, s, t) && i < |g.records| && s.colors[i] != Gray
    requires t.colors[Place(g, h, i)] == Black && Visit(g, maxDepth, s, i).diagnostics.items == []
    ensures IsAhead(g, h, Visit(g, maxDepth, s, i), t)
  {
    var members, r := BlackSet(g, h, t.colors), Visit(g, maxDepth, s, i);
    BlackSetClosed(g, h, t.colors);
    VisitStaysWithin(g, maxDepth, s, i, members);
    forall j | 0 <= j < |s.colors| ensures Ahead(r.colors[j], t.colors[Place(g, h, j)]) {
      assert r.colors[j] == s.colors[j] || j in members;
      assert Ahead(s.colors[j], t.colors[Place(g, h, j)]);
    }
  }

  lemma EnterAhead(g: Graph, h: Graph, s: Search, t: Search, i: nat)
    requires SameGraph(g, h) && IsAhead(g, h, s, t) && i < |g.records|
    requires s.colors[i] == White && t.colors[Place(g, h, i)] == White
    ensures IsAhead(g, h, s.(colors := s.colors[i := Gray], stack := s.stack + [i]),
                    t.(colors := t.colors[Place(g, h, i) := Gray], stack := t.stack + [Place(g, h, i)]))
  {
    var k := Place(g, h, i);
    forall j | 0 <= j < |s.colors| ensures Ahead(s.colors[i := Gray][j], t.colors[k := Gray][Place(g, h, j)]) {
      PlaceBack(g, h, j);
      PlaceBack(g, h, i);
      assert Ahead(s.colors[j], t.colors[Place(g, h, j)]);
    }
  }

  lemma LeaveAhead(g: Graph, h: Graph, s: Search, t: Search, i: nat, e: Search, f: Search)
    requires SameGraph(g, h) && IsAhead(g, h, e, f) && i < |g.records|
    requires |s.stack| == |t.stack|
    requires forall d :: d in g.records[i].dependencies ==> Blackened(h, f.colors, d)
    ensures IsAhead(g, h, e.(stack := s.stack, colors := e.colors[i := Black], finished := e.finished + [i]),
                    f.(stack := t.stack, colors := f.colors[Place(g, h, i) := Black],
                       finished := f.finished + [Place(g, h, i)]))
  {
    var k := Place(g, h, i);
    forall j | 0 <= j < |e.colors| ensures Ahead(e.colors[i := Black][j], f.colors[k := Black][Place(g, h, j)]) {
      PlaceBack(g, h, j);
      PlaceBack(g, h, i);
      assert Ahead(e.colors[j], f.colors[Place(g, h, j)]);
    }
  }

  /** A visit that reports nothing reports nothing in a search that is ahead either, and stays behind it. */
  lemma {:induction false} VisitStaysAhead(g: Graph, h: Graph, maxDepth: nat, s: Search, t: Search, i: nat)
    requires SameGraph(g, h) && IsAhead(g, h, s, t) && i < |g.records| && s.colors[i] != Gray
    requires Visit(g, maxDepth, s, i).diagnostics.items == []
    ensures t.colors[Place(g, h, i)] != Gray
    ensures IsAhead(g, h, Visit(g, maxDepth, s, i), Visit(h, maxDepth, t, Place(g, h, i)))
    ensures Visit(h, maxDepth, t, Place(g, h, i)).colors[Place(g, h, i)] == Black
    decreases Whites(s.colors), 0
  {
    assert Ahead(s.colors[i], t.colors[Place(g, h, i)]);
    if t.colors[Place(g, h, i)] == Black {
      CatchesUp(g, h, maxDepth, s, t, i);
    } else {
      LeavingWhite(s.colors, i, Gray);
      BothEnter(g, h, maxDepth, s, t, i);
    }
  }

  lemma {:induction false} BothEnter(g: Graph, h: Graph, maxDepth: nat, s: Search, t: Search, i: nat)
    requires SameGraph(g, h) && IsAhead(g, h, s, t) && i < |g.records|
    requires s.colors[i] == White && t.colors[Place(g, h, i)] == White
    requires Visit(g, maxDepth, s, i).diagnostics.items == []
    requires Whites(s.colors[i := Gray]) < Whites(s.colors)
    ensures IsAhead(g, h, Visit(g, maxDepth, s, i), Visit(h, maxDepth, t, Place(g, h, i)))
    ensures Visit(h, maxDepth, t, Place(g, h, i)).colors[Place(g, h, i)] == Black
    decreases Whites(s.colors[i := Gray]), 4 + |g.records[i].dependencies|
  {
    var k := Place(g, h, i);
    var e, f := s.(colors := s.colors[i := Gray], stack := s.stack + [i]),
        t.(colors := t.colors[k := Gray], stack := t.stack + [k]);
    EnterAhead(g, h, s, t, i);
    AllStaysAhead(g, h, maxDepth, e, f, i, 0);
    LeaveAhead(g, h, s, t, i, VisitAll(g, maxDepth, e, g.records[i].dependencies, 0),
               VisitAll(h, maxDepth, f, g.records[i].dependencies, 0));
  }

  lemma {:induction false} AllStaysAhead(g: Graph, h: Graph, maxDepth: nat, s: Search, t: Search, i: nat, from: nat)
    requires SameGraph(g, h) && IsAhead(g, h, s, t) && i < |g.records| && from <= |g.records[i].dependencies|
    requires VisitAll(g, maxDepth, s, g.records[i].dependencies, from).diagnostics.items == []
    ensures IsAhead(g, h, VisitAll(g, maxDepth, s, g.records[i].dependencies, from),
                    VisitAll(h, maxDepth, t, g.records[i].dependencies, from))
    ensures forall j :: from <= j < |g.records[i].dependencies| ==>
      Blackened(h, VisitAll(h, maxDepth, t, g.records[i].dependencies, from).colors, g.records[i].dependencies[j])
    decreases Whites(s.colors), 3 + |g.records[i].dependencies| - from
  {
    var dependencies := g.records[i].dependencies;
    if from < |dependencies| {
      var d, left := dependencies[from], |dependencies| - from;
      var next, after := VisitDependency(g, maxDepth, s, d, left), VisitDependency(h, maxDepth, t, d, left);
      FirstStaysAhead(g, h, maxDepth, s, t, i, from, next, after);
      AllStaysAhead(g, h, maxDepth, next, after, i, from + 1);
      var done := VisitAll(h, maxDepth, after, dependencies, from + 1);
      BlackStays(h, after.colors, done.colors, d);
      OneMoreBlackened(h, done.colors, dependencies, from);
    }
  }

  lemma OneMoreBlackened(h: Graph, colors: seq<Color>, dependencies: seq<string>, from: nat)
    requires from < |dependencies| && Blackened(h, colors, dependencies[from])
    requires forall j :: from + 1 <= j < |dependencies| ==> Blackened(h, colors, dependencies[j])
    ensures forall j :: from <= j < |dependencies| ==> Blackened(h, colors, dependencies[j])
  {
  }

  lemma {:induction false} FirstStaysAhead(g: Graph, h: Graph, maxDepth: nat, s: Search, t: Search, i: nat, from: nat,
                                           next: Search, after: Search)
    requires SameGraph(g, h) && IsAhead(g, h, s, t) && i < |g.records| && from < |g.records[i].dependencies|
    requires VisitAll(g, maxDepth, s, g.records[i].dependencies, from).diagnostics.items == []
    requires var d, left := g.records[i].dependencies[from], |g.records[i].dependencies| - from;
      next == VisitDependency(g, maxDepth, s, d, left) && after == VisitDependency(h, maxDepth, t, d, left)
    ensures IsAhead(g, h, next, after) && Whites(next.colors) <= Whites(s.colors)
    ensures VisitAll(g, maxDepth, s, g.records[i].dependencies, from)
         == VisitAll(g, maxDepth, next, g.records[i].dependencies, from + 1)
    ensures VisitAll(h, maxDepth, t, g.records[i].dependencies, from)
         == VisitAll(h, maxDepth, after, g.records[i].dependencies, from + 1)
    ensures Blackened(h, after.colors, g.records[i].dependencies[from])
    decreases Whites(s.colors), 2
  {
    var d, left := g.records[i].dependencies[from], |g.records[i].dependencies| - from;
    assert VisitAll(g, maxDepth, s, g.records[i].dependencies, from)
        == VisitAll(g, maxDepth, next, g.records[i].dependencies, from + 1);
    assert next.diagnostics.items == [];
    WhitesShrink(s.colors, next.colors);
    OneStaysAhead(g, h, maxDepth, s, t, d, left);
  }

  lemma {:induction false} OneStaysAhead(g: Graph, h: Graph, maxDepth: nat, s: Search, t: Search, d: string, left: nat)
    requires SameGraph(g, h) && IsAhead(g, h, s, t) && left > 0
    requires VisitDependency(g, maxDepth, s, d, left).diagnostics.items == []
    ensures IsAhead(g, h, VisitDependency(g, maxDepth, s, d, left), VisitDependency(h, maxDepth, t, d, left))
    ensures Blackened(h, VisitDependency(h, maxDepth, t, d, left).colors, d)
    decreases Whites(s.colors), 1
  {
    SameDependency(g, h, d);
    if d in g.byId { VisitStaysAhead(g, h, maxDepth, s, t, g.byId[d]); }
  }

  // ---------------------------------------------------------------- one record alone

  /** The search started from one record alone, over fresh colours, reports nothing. */
  ghost predicate QuietAlone(limits: Limits, g: Graph, i: nat)
    requires GraphSound(g) && i < |g.records|
  {
    Visit(g, limits.maxDependencyDepth, InitialSearch(g, NoDiagnostics(limits)), i).diagnostics.items == []
  }

  ghost predicate NoGray(colors: seq<Color>) { forall i :: 0 <= i < |colors| ==> colors[i] != Gray }

  lemma InitialIsBehind(limits: Limits, g: Graph, h: Graph, t: Search)
    requires SameGraph(g, h) && |t.colors| == |h.records| && t.stack == [] && Quiet(t) && NoGray(t.colors)
    requires BlackClosed(h, t.colors)
    ensures IsAhead(g, h, InitialSearch(g, NoDiagnostics(limits)), t)
  {
  }

  /** In whatever order the records come. */
  lemma {:induction false} AloneInAnyOrder(limits: Limits, g: Graph, h: Graph, i: nat)
    requires SameGraph(g, h) && i < |g.records| && QuietAlone(limits, g, i)
    ensures QuietAlone(limits, h, Place(g, h, i))
  {
    InitialIsBehind(limits, g, h, InitialSearch(h, NoDiagnostics(limits)));
    VisitStaysAhead(g, h, limits.maxDependencyDepth, InitialSearch(g, NoDiagnostics(limits)),
                    InitialSearch(h, NoDiagnostics(limits)), i);
  }

  /** When every record is quiet alone, the outer loop is quiet in any order. */
  lemma {:induction false} LoopIsQuiet(limits: Limits, g: Graph, h: Graph, count: nat)
    requires SameGraph(g, h) && count <= |h.records| && forall i :: 0 <= i < |g.records| ==> QuietAlone(limits, g, i)
    ensures var t := VisitFirst(h, limits.maxDependencyDepth, InitialSearch(h, NoDiagnostics(limits)), count);
      Quiet(t) && NoGray(t.colors) && BlackClosed(h, t.colors)
    decreases count
  {
    if count > 0 {
      LoopIsQuiet(limits, g, h, count - 1);
      var t := VisitFirst(h, limits.maxDependencyDepth, InitialSearch(h, NoDiagnostics(limits)), count - 1);
      RootIsQuiet(limits, g, h, t, count - 1);
    }
  }

  lemma {:induction false} RootIsQuiet(limits: Limits, g: Graph, h: Graph, t: Search, k: nat)
    requires SameGraph(g, h) && k < |h.records| && QuietAlone(limits, g, Place(h, g, k))
    requires |t.colors| == |h.records| && t.stack == [] && Quiet(t) && NoGray(t.colors) && BlackClosed(h, t.colors)
    ensures var u := VisitRoot(h, limits.maxDependencyDepth, t, k, 3);
      |u.colors| == |h.records| && Quiet(u) && NoGray(u.colors) && BlackClosed(h, u.colors)
  {
    RootIsVisit(h, limits.maxDependencyDepth, t, k, 3);
    if t.colors[k] == White {
      var i := Place(h, g, k);
      PlaceBack(h, g, k);
      InitialIsBehind(limits, g, h, t);
      VisitStaysAhead(g, h, limits.maxDependencyDepth, InitialSearch(g, NoDiagnostics(limits)), t, i);
      NoNewGray(t.colors, Visit(h, limits.maxDependencyDepth, t, k).colors);
    }
  }

  lemma NoNewGray(before: seq<Color>, after: seq<Color>)
    requires NoGray(before) && Progressed(before, after)
    ensures NoGray(after)
  {
  }

  // ---------------------------------------------------------------- every order of the input

  lemma CleanInAnyOrder(malformed: AssetRecord -> bool, limits: Limits, a: seq<AssetRecord>, b: seq<AssetRecord>)
    requires multiset(a) == multiset(b) && InputClean(malformed, limits, a)
    ensures InputClean(malformed, limits, b)
  {
    Sorting.SameMultisetSameMembers(a, b);
    Sorting.DistinctFollowsMultiset(a, b);
    forall i | 0 <= i < |b| ensures RecordClean(malformed, limits, b[i]) { assert b[i] in b && b[i] in a; }
    forall i, j | 0 <= i < j < |b|
        ensures b[i].id != b[j].id && (b[i].rootId, b[i].source) != (b[j].rootId, b[j].source) {
      assert b[i] in b && b[i] in a && b[j] in b && b[j] in a && b[i] != b[j];
    }
  }

  lemma HasAllOf(g: Graph, h: Graph, input: seq<AssetRecord>, other: seq<AssetRecord>)
    requires GraphSound(h) && SameRecords(g.records, input) && SameRecords(h.records, other)
    requires forall x :: x in input ==> x in other
    ensures HasAll(g, h)
  {
    forall i | 0 <= i < |g.records|
      ensures g.records[i].id in h.byId && h.byId[g.records[i].id] < |h.records|
      ensures h.records[h.byId[g.records[i].id]] == g.records[i]
    {
      assert input[i] in input && input[i] in other;
      var k :| 0 <= k < |other| && other[k] == input[i];
      assert h.records[k] == g.records[i];
    }
  }

  lemma RulesInAnyOrder(g: Graph, h: Graph)
    requires SameGraph(g, h) && RulesObeyed(g)
    ensures RulesObeyed(h)
  {
    forall k | 0 <= k < |h.records| ensures RecordObeys(h, h.records[k]) {
      var record := h.records[k];
      assert RecordObeys(g, g.records[Place(h, g, k)]);
      forall d | d in record.dependencies ensures EdgeAllowed(h, record, d) {
        assert EdgeAllowed(g, record, d);
        SameDependency(g, h, d);
      }
    }
  }

  /** Another order of a clean, rule-abiding input leaves the search over the reordered graph to decide. */
  lemma {:induction false} Reordered(malformed: AssetRecord -> bool, limits: Limits, input: seq<AssetRecord>,
                                     g: Graph, other: seq<AssetRecord>)
    returns (h: Graph)
    requires InputClean(malformed, limits, input) && SameRecords(g.records, input) && g.byId == IndexOf(g.records)
    requires RulesObeyed(g) && multiset(input) == multiset(other)
    ensures SameGraph(g, h) && SameRecords(h.records, other)
    ensures Build(malformed, limits, other).Some? <==>
      VisitFirst(h, limits.maxDependencyDepth, InitialSearch(h, NoDiagnostics(limits)), |h.records|).diagnostics.items
          == []
  {
    CollectedAs(malformed, limits, input, g);
    CleanInAnyOrder(malformed, limits, input, other);
    CollectExactly(malformed, limits, other);
    var c := CollectAll(malformed, limits, other);
    h := Graph(c.records, c.byId);
    Sorting.SameMultisetSameMembers(input, other);
    HasAllOf(g, h, input, other);
    HasAllOf(h, g, other, input);
    RulesInAnyOrder(g, h);
    QuietCollect(malformed, limits, other);
    SearchDecides(malformed, limits, other);
  }

  function MovedToFront(input: seq<AssetRecord>, i: nat): (r: seq<AssetRecord>)
    requires i < |input|
    ensures |r| == |input| && r[0] == input[i] && multiset(r) == multiset(input)
  {
    assert input == input[..i] + [input[i]] + input[i + 1..];
    [input[i]] + input[..i] + input[i + 1..]
  }

  /** A record that comes first and is not quiet alone has the whole input refused. */
  lemma {:induction false} FirstDecides(limits: Limits, h: Graph)
    requires GraphSound(h) && |h.records| > 0 && !QuietAlone(limits, h, 0)
    ensures VisitFirst(h, limits.maxDependencyDepth, InitialSearch(h, NoDiagnostics(limits)),
                       |h.records|).diagnostics.items != []
  {
    var s := InitialSearch(h, NoDiagnostics(limits));
    RootIsVisit(h, limits.maxDependencyDepth, s, 0, 3);
    assert VisitFirst(h, limits.maxDependencyDepth, s, 0) == s;
    assert VisitFirst(h, limits.maxDependencyDepth, s, 1) == VisitRoot(h, limits.maxDependencyDepth, s, 0, 3);
    ReportsStay(h, limits.maxDependencyDepth, s, 1, |h.records|);
  }

  /** A clean input that obeys the rules is accepted in every order exactly when each of its records is quiet alone. */
  lemma {:induction false} AcceptedInEveryOrder(malformed: AssetRecord -> bool, limits: Limits,
                                                input: seq<AssetRecord>, g: Graph)
    requires InputClean(malformed, limits, input) && SameRecords(g.records, input) && g.byId == IndexOf(g.records)
    requires RulesObeyed(g)
    ensures GraphSound(g)
    ensures (forall other: seq<AssetRecord> :: multiset(other) == multiset(input) ==>
      Build(malformed, limits, other).Some?) <==>
            (forall i :: 0 <= i < |g.records| ==> QuietAlone(limits, g, i))
  {
    CollectedAs(malformed, limits, input, g);
    if forall i :: 0 <= i < |g.records| ==> QuietAlone(limits, g, i) {
      forall other: seq<AssetRecord> | multiset(other) == multiset(input)
          ensures Build(malformed, limits, other).Some? {
        var h := Reordered(malformed, limits, input, g, other);
        LoopIsQuiet(limits, g, h, |h.records|);
      }
    } else {
      var i :| 0 <= i < |g.records| && !QuietAlone(limits, g, i);
      var other := MovedToFront(input, i);
      var h := Reordered(malformed, limits, input, g, other);
      assert h.records[0] == g.records[i] && h.byId[h.records[0].id] == 0;
      if QuietAlone(limits, h, 0) { AloneInAnyOrder(limits, h, g, 0); }
      FirstDecides(limits, h);
      assert Build(malformed, limits, other).None?;
    }
  }

  /** Paths no longer than the limit suffice for that, in a graph without cycles. */
  lemma {:induction false} BoundedPathsSuffice(limits: Limits, g: Graph, rank: seq<nat>, i: nat)
    requires GraphSound(g) && Ranked(g, rank) && PathsBounded(g, limits.maxDependencyDepth) && i < |g.records|
    ensures QuietAlone(limits, g, i)
  {
    VisitQuiet(g, limits.maxDependencyDepth, rank, InitialSearch(g, NoDiagnostics(limits)), i);
  }
}
