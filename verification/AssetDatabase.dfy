/**
 The asset database: records collected from the asset indexes, rules on their dependencies, and a
 three-colour depth-first search that refuses cycles.
 */
module AssetDatabases {
  import opened Wrappers
  import Sorting

  datatype AssetType = Mesh | Material | Texture | Audio | Shader

  datatype AssetRecord = AssetRecord(id: string, assetType: AssetType, rootId: string, source: string,
                                     dependencies: seq<string>)

  datatype Limits = Limits(maxDependenciesPerAsset: nat, maxDependencyDepth: nat, maxDiagnostics: nat)

  datatype Code =
    | RecordMalformed | IdDuplicate | DependencyLimit | DependencyDuplicate | SourceDuplicate
    | AudioDependenciesNotEmpty | ShaderDependenciesNotEmpty | DependencyMissing
    | AudioDependencyForbidden | ShaderDependencyForbidden | DependencyDepth | DependencyCycle
    | DiagnosticLimit

  // ---------------------------------------------------------------- the bounded collector

  datatype Diagnostics = Diagnostics(items: seq<Code>, limit: nat, reached: bool)

  /** Past the limit the last entry gives way to one note that the limit was reached. */
  function Report(d: Diagnostics, code: Code): (r: Diagnostics)
    ensures DiagnosticsSound(d) ==> DiagnosticsSound(r) && r.items != []
  {
    if d.reached then d
    else if |d.items| >= d.limit && d.items != [] then
      d.(items := d.items[|d.items| - 1 := DiagnosticLimit], reached := true)
    else d.(items := d.items + [code])
  }

  /** A collector that has refused an entry holds some. */
  predicate DiagnosticsSound(d: Diagnostics) { d.limit > 0 && (d.reached ==> d.items != []) }

  function NoDiagnostics(limits: Limits): Diagnostics {
    Diagnostics([], if limits.maxDiagnostics == 0 then 1 else limits.maxDiagnostics, false)
  }

  // ---------------------------------------------------------------- collecting the records

  datatype Collected = Collected(records: seq<AssetRecord>, byId: map<string, nat>, sources: set<(string, string)>,
                                 diagnostics: Diagnostics)

  function SortedDependencies(record: AssetRecord): seq<string> {
    Sorting.Sort(Sorting.StringLess, record.dependencies)
  }

  predicate AdjacentDuplicate(ids: seq<string>) {
    exists j, k :: 0 <= j < |ids| && 0 <= k < |ids| && k == j + 1 && ids[j] == ids[k]
  }

  /** The errors of one record on its own and against the records before it, in the order they are found. */
  function RecordErrors(malformed: AssetRecord -> bool, limits: Limits, c: Collected, record: AssetRecord): seq<Code> {
    (if malformed(record) then [RecordMalformed] else [])
    + (if record.id in c.byId then [IdDuplicate] else [])
    + (if |record.dependencies| > limits.maxDependenciesPerAsset then [DependencyLimit] else [])
    + (if AdjacentDuplicate(SortedDependencies(record)) then [DependencyDuplicate] else [])
  }

  function ReportAll(d: Diagnostics, codes: seq<Code>): Diagnostics {
    if codes == [] then d else Report(ReportAll(d, codes[..|codes| - 1]), codes[|codes| - 1])
  }

  function Collect(malformed: AssetRecord -> bool, limits: Limits, c: Collected, record: AssetRecord): Collected {
    var errors := RecordErrors(malformed, limits, c, record);
    if errors != [] then c.(diagnostics := ReportAll(c.diagnostics, errors))
    else if (record.rootId, record.source) in c.sources then c.(diagnostics := Report(c.diagnostics, SourceDuplicate))
    else c.(records := c.records + [record.(dependencies := SortedDependencies(record))],
            byId := c.byId[record.id := |c.records|],
            sources := c.sources + {(record.rootId, record.source)})
  }

  function CollectAll(malformed: AssetRecord -> bool, limits: Limits, input: seq<AssetRecord>): Collected {
    if input == [] then Collected([], map[], {}, NoDiagnostics(limits))
    else Collect(malformed, limits, CollectAll(malformed, limits, input[..|input| - 1]), input[|input| - 1])
  }

  // ---------------------------------------------------------------- rules on dependencies

  datatype Graph = Graph(records: seq<AssetRecord>, byId: map<string, nat>)

  ghost predicate GraphSound(g: Graph) {
    && (forall id :: id in g.byId ==> (g.byId[id] < |g.records| && g.records[g.byId[id]].id == id))
    && (forall i :: 0 <= i < |g.records| ==> (g.records[i].id in g.byId && g.byId[g.records[i].id] == i))
  }

  function EdgeErrors(g: Graph, record: AssetRecord, dependency: string): seq<Code>
    requires dependency in g.byId ==> g.byId[dependency] < |g.records|
  {
    if dependency !in g.byId then [DependencyMissing]
    else
      var target := g.records[g.byId[dependency]].assetType;
      if record.assetType != Audio && target == Audio then [AudioDependencyForbidden]
      else if record.assetType != Material && target == Shader then [ShaderDependencyForbidden]
      else []
  }

  function EdgesErrors(g: Graph, record: AssetRecord, dependencies: seq<string>): seq<Code>
    requires forall id :: id in g.byId ==> g.byId[id] < |g.records|
  {
    if dependencies == [] then []
    else
      var before := EdgesErrors(g, record, dependencies[..|dependencies| - 1]);
      before + EdgeErrors(g, record, dependencies[|dependencies| - 1])
  }

  function RuleErrors(g: Graph, record: AssetRecord): seq<Code>
    requires forall id :: id in g.byId ==> g.byId[id] < |g.records|
  {
    (if record.assetType == Audio && record.dependencies != [] then [AudioDependenciesNotEmpty] else [])
    + (if record.assetType == Shader && record.dependencies != [] then [ShaderDependenciesNotEmpty] else [])
    + EdgesErrors(g, record, record.dependencies)
  }

  function CheckRules(g: Graph, count: nat, d: Diagnostics): Diagnostics
    requires count <= |g.records| && forall id :: id in g.byId ==> g.byId[id] < |g.records|
  {
    if count == 0 then d
    else ReportAll(CheckRules(g, count - 1, d), RuleErrors(g, g.records[count - 1]))
  }

  // ---------------------------------------------------------------- the search

  datatype Color = White | Gray | Black

  /** The search's colours, stack and reports; finished lists the black records in the order they turned
      black, for the observer only. */
  datatype Search = Search(colors: seq<Color>, stack: seq<nat>, diagnostics: Diagnostics, finished: seq<nat>)

  function Whites(colors: seq<Color>): nat {
    if colors == [] then 0 else Whites(colors[..|colors| - 1]) + if colors[|colors| - 1] == White then 1 else 0
  }

  /** Some white records turned black, and nothing else changed. */
  ghost predicate Progressed(before: seq<Color>, after: seq<Color>) {
    |before| == |after| && forall j :: 0 <= j < |before| ==>
      after[j] == before[j] || (before[j] == White && after[j] == Black)
  }

  lemma {:induction false} WhitesShrink(before: seq<Color>, after: seq<Color>)
    requires Progressed(before, after)
    ensures Whites(after) <= Whites(before)
    decreases |before|
  {
    if before != [] { WhitesShrink(before[..|before| - 1], after[..|after| - 1]); }
  }

  lemma {:induction false} LeavingWhite(colors: seq<Color>, i: nat, color: Color)
    requires i < |colors| && colors[i] == White && color != White
    ensures Whites(colors[i := color]) < Whites(colors)
    decreases |colors|
  {
    var n := |colors| - 1;
    if i < n {
      assert colors[i := color][..n] == colors[..n][i := color];
      LeavingWhite(colors[..n], i, color);
    } else {
      assert colors[i := color][..n] == colors[..n];
    }
  }

  predicate StillReported(s: Search, r: Search) { s.diagnostics.items != [] ==> r.diagnostics.items != [] }

  function Visit(g: Graph, maxDepth: nat, s: Search, i: nat): (r: Search)
    requires forall id :: id in g.byId ==> g.byId[id] < |g.records|
    requires |s.colors| == |g.records| && i < |g.records| && s.colors[i] != Gray
    ensures Progressed(s.colors, r.colors) && r.stack == s.stack && StillReported(s, r)
    decreases Whites(s.colors), 0
  {
    if s.colors[i] == Black || s.diagnostics.reached then s
    else
      LeavingWhite(s.colors, i, Gray);
      var entered := s.(colors := s.colors[i := Gray], stack := s.stack + [i]);
      var explored :=
        if |entered.stack| > maxDepth then entered.(diagnostics := Report(entered.diagnostics, DependencyDepth))
        else VisitAll(g, maxDepth, entered, g.records[i].dependencies, 0);
      explored.(stack := s.stack, colors := explored.colors[i := Black], finished := explored.finished + [i])
  }

  function VisitAll(g: Graph, maxDepth: nat, s: Search, dependencies: seq<string>, from: nat): (r: Search)
    requires forall id :: id in g.byId ==> g.byId[id] < |g.records|
    requires |s.colors| == |g.records| && from <= |dependencies|
    ensures Progressed(s.colors, r.colors) && r.stack == s.stack && StillReported(s, r)
    decreases Whites(s.colors), 1 + |dependencies| - from
  {
    if from == |dependencies| then s
    else
      var next := VisitDependency(g, maxDepth, s, dependencies[from], |dependencies| - from);
      WhitesShrink(s.colors, next.colors);
      VisitAll(g, maxDepth, next, dependencies, from + 1)
  }

  function VisitDependency(g: Graph, maxDepth: nat, s: Search, dependency: string, ghost left: nat): (r: Search)
    requires forall id :: id in g.byId ==> g.byId[id] < |g.records|
    requires |s.colors| == |g.records| && left > 0
    ensures Progressed(s.colors, r.colors) && r.stack == s.stack && StillReported(s, r)
    decreases Whites(s.colors), left
  {
    if dependency !in g.byId then s
    else if s.colors[g.byId[dependency]] == Gray then s.(diagnostics := Report(s.diagnostics, DependencyCycle))
    else Visit(g, maxDepth, s, g.byId[dependency])
  }

  function InitialSearch(g: Graph, d: Diagnostics): Search {
    Search(seq(|g.records|, _ => White), [], d, [])
  }

  /** Nothing visited yet. */
  ghost predicate Fresh(g: Graph, s: Search) {
    && |s.colors| == |g.records| && s.stack == [] && s.finished == []
    && (forall j :: 0 <= j < |s.colors| ==> s.colors[j] == White)
  }

  /** One turn of the outer loop.  The layers only keep the verifier from unfolding the search wherever a
      turn is mentioned; RootIsVisit is how it is used. */
  function VisitRoot(g: Graph, maxDepth: nat, s: Search, i: nat, layers: nat): (r: Search)
    requires forall id :: id in g.byId ==> g.byId[id] < |g.records|
    requires |s.colors| == |g.records| && i < |g.records| && s.stack == []
    ensures |r.colors| == |s.colors| && r.stack == [] && StillReported(s, r)
    decreases s, layers
  {
    if layers > 0 then VisitRoot(g, maxDepth, s, i, layers - 1)
    else if s.colors[i] == White then Visit(g, maxDepth, s, i) else s
  }

  lemma {:induction false} RootIsVisit(g: Graph, maxDepth: nat, s: Search, i: nat, layers: nat)
    requires forall id :: id in g.byId ==> g.byId[id] < |g.records|
    requires |s.colors| == |g.records| && i < |g.records| && s.stack == []
    ensures VisitRoot(g, maxDepth, s, i, layers) == if s.colors[i] == White then Visit(g, maxDepth, s, i) else s
    decreases layers
  {
    if layers > 0 { RootIsVisit(g, maxDepth, s, i, layers - 1); }
  }

  /** The outer loop, over the first records. */
  function VisitFirst(g: Graph, maxDepth: nat, s: Search, count: nat): (r: Search)
    requires forall id :: id in g.byId ==> g.byId[id] < |g.records|
    requires Fresh(g, s) && count <= |g.records|
    ensures |r.colors| == |s.colors| && r.stack == []
  {
    if count == 0 then s
    else
      VisitRoot(g, maxDepth, VisitFirst(g, maxDepth, s, count - 1), count - 1, 3)
  }

  // ---------------------------------------------------------------- what the search finds

  predicate Edge(g: Graph, from: nat, to: nat) {
    from < |g.records| && exists d :: d in g.records[from].dependencies && d in g.byId && g.byId[d] == to
  }

  ghost predicate IsPath(g: Graph, path: seq<nat>) {
    && (forall k :: 0 <= k < |path| ==> path[k] < |g.records|)
    && (forall j, k :: 0 <= j < k < |path| && k == j + 1 ==> Edge(g, path[j], path[k]))
  }

  predicate Earlier(finished: seq<nat>, p: nat, x: nat) { exists k :: 0 <= k < p && k < |finished| && finished[k] == x }

  /** The records finished so far come after everything they depend on. */
  ghost predicate DependenciesFirst(g: Graph, finished: seq<nat>) {
    forall p: nat, to: nat :: p < |finished| && Edge(g, finished[p], to) ==> Earlier(finished, p, to)
  }

  ghost predicate SearchSound(g: Graph, s: Search) {
    && |s.colors| == |g.records| && DiagnosticsSound(s.diagnostics)
    && (forall j :: 0 <= j < |s.colors| ==> (s.colors[j] == Gray ==> j in s.stack))
    && (forall j :: 0 <= j < |s.colors| ==> (s.colors[j] == Black ==> j in s.finished))
    && IsPath(g, s.stack)
    && (s.diagnostics.items == [] ==> DependenciesFirst(g, s.finished))
  }

  lemma {:induction false} VisitSound(g: Graph, maxDepth: nat, s: Search, i: nat)
    requires GraphSound(g) && SearchSound(g, s) && i < |g.records| && s.colors[i] != Gray
    requires s.stack != [] ==> Edge(g, s.stack[|s.stack| - 1], i)
    ensures var r := Visit(g, maxDepth, s, i);
      SearchSound(g, r) && (r.diagnostics.items == [] ==> r.colors[i] == Black)
    decreases Whites(s.colors), 0
  {
    if s.colors[i] == White && !s.diagnostics.reached {
      LeavingWhite(s.colors, i, Gray);
      var entered := s.(colors := s.colors[i := Gray], stack := s.stack + [i]);
      EnterSound(g, s, i);
      if |entered.stack| > maxDepth {
        LeaveSound(g, s, entered.(diagnostics := Report(entered.diagnostics, DependencyDepth)), i);
      } else {
        VisitAllSound(g, maxDepth, entered, g.records[i].dependencies, 0);
        ExploredFrom(g, VisitAll(g, maxDepth, entered, g.records[i].dependencies, 0), i);
        LeaveSound(g, s, VisitAll(g, maxDepth, entered, g.records[i].dependencies, 0), i);
      }
    }
  }

  lemma EnterSound(g: Graph, s: Search, i: nat)
    requires SearchSound(g, s) && i < |g.records| && s.colors[i] == White
    requires s.stack != [] ==> Edge(g, s.stack[|s.stack| - 1], i)
    ensures SearchSound(g, s.(colors := s.colors[i := Gray], stack := s.stack + [i]))
  {
  }

  /** All that the last record on the stack depends on is black, or something was reported. */
  ghost predicate Explored(g: Graph, e: Search, i: nat)
    requires |e.colors| == |g.records|
  {
    e.diagnostics.items == [] ==> forall to: nat :: Edge(g, i, to) && to < |e.colors| ==> e.colors[to] == Black
  }

  lemma ExploredFrom(g: Graph, e: Search, i: nat)
    requires i < |g.records| && |e.colors| == |g.records|
    requires e.diagnostics.items == [] ==>
      forall j :: 0 <= j < |g.records[i].dependencies| ==> Blackened(g, e.colors, g.records[i].dependencies[j])
    ensures Explored(g, e, i)
  {
  }

  lemma LeaveSound(g: Graph, s: Search, e: Search, i: nat)
    requires GraphSound(g) && SearchSound(g, e) && Explored(g, e, i)
    requires i < |g.records| && |s.colors| == |g.records| && e.stack == s.stack + [i] && e.colors[i] == Gray
    ensures SearchSound(g, e.(stack := s.stack, colors := e.colors[i := Black], finished := e.finished + [i]))
  {
    forall k | 0 <= k < |s.stack| ensures s.stack[k] == e.stack[k] { }
    if e.diagnostics.items == [] {
      forall p: nat, to: nat | p <= |e.finished| && Edge(g, (e.finished + [i])[p], to)
        ensures Earlier(e.finished + [i], p, to)
      {
        if p < |e.finished| {
          assert Earlier(e.finished, p, to);
          var k :| 0 <= k < p && e.finished[k] == to;
          assert (e.finished + [i])[k] == to;
        } else {
          assert to in e.finished;
          var k :| 0 <= k < |e.finished| && e.finished[k] == to;
          assert (e.finished + [i])[k] == to;
        }
      }
    }
  }

  lemma {:induction false} VisitAllSound(g: Graph, maxDepth: nat, s: Search, dependencies: seq<string>, from: nat)
    requires GraphSound(g) && SearchSound(g, s) && s.stack != [] && from <= |dependencies|
    requires dependencies == g.records[s.stack[|s.stack| - 1]].dependencies
    ensures var r := VisitAll(g, maxDepth, s, dependencies, from);
      && SearchSound(g, r)
      && (r.diagnostics.items == [] ==> forall j :: from <= j < |dependencies| ==>
           Blackened(g, r.colors, dependencies[j]))
    decreases Whites(s.colors), 1 + |dependencies| - from
  {
    if from < |dependencies| {
      VisitDependencySound(g, maxDepth, s, dependencies[from], |dependencies| - from);
      var next := VisitDependency(g, maxDepth, s, dependencies[from], |dependencies| - from);
      WhitesShrink(s.colors, next.colors);
      VisitAllSound(g, maxDepth, next, dependencies, from + 1);
      var r := VisitAll(g, maxDepth, next, dependencies, from + 1);
      if r.diagnostics.items == [] { BlackStays(g, next.colors, r.colors, dependencies[from]); }
    }
  }

  predicate Blackened(g: Graph, colors: seq<Color>, d: string) {
    d in g.byId && g.byId[d] < |colors| ==> colors[g.byId[d]] == Black
  }

  lemma BlackStays(g: Graph, before: seq<Color>, after: seq<Color>, d: string)
    requires Progressed(before, after) && Blackened(g, before, d)
    ensures Blackened(g, after, d)
  {
  }

  lemma {:induction false} VisitDependencySound(g: Graph, maxDepth: nat, s: Search, d: string, left: nat)
    requires GraphSound(g) && SearchSound(g, s) && s.stack != [] && left > 0
    requires d in g.records[s.stack[|s.stack| - 1]].dependencies
    ensures var r := VisitDependency(g, maxDepth, s, d, left);
      && SearchSound(g, r) && (r.diagnostics.items == [] ==> Blackened(g, r.colors, d))
    decreases Whites(s.colors), left
  {
    if d in g.byId && s.colors[g.byId[d]] != Gray {
      assert Edge(g, s.stack[|s.stack| - 1], g.byId[d]);
      VisitSound(g, maxDepth, s, g.byId[d]);
    }
  }

  /** Ranks along which every dependency points downwards. */
  ghost predicate Ranked(g: Graph, rank: seq<nat>) {
    |rank| == |g.records| &&
    forall i, to: nat :: 0 <= i < |rank| && to < |rank| && Edge(g, i, to) ==> rank[to] < rank[i]
  }

  function PositionIn(s: seq<nat>, x: nat): (p: nat)
    ensures x in s ==> p < |s| && s[p] == x
    ensures forall k :: 0 <= k < |s| && s[k] == x ==> p <= k
  {
    if s == [] || s[0] == x then 0 else PositionIn(s[1..], x) + 1
  }

  /** The finishing order of a complete search without reports is such a ranking. */
  lemma FinishOrderRanks(g: Graph, finished: seq<nat>)
    requires DependenciesFirst(g, finished) && forall i :: 0 <= i < |g.records| ==> i in finished
    ensures Ranked(g, seq(|g.records|, i requires 0 <= i < |g.records| => PositionIn(finished, i)))
  {
    forall i: nat, to: nat | i < |g.records| && to < |g.records| && Edge(g, i, to)
      ensures PositionIn(finished, to) < PositionIn(finished, i)
    {
      var p := PositionIn(finished, i);
      assert Earlier(finished, p, to);
      var k :| 0 <= k < p && finished[k] == to;
    }
  }

  lemma RootSound(g: Graph, maxDepth: nat, s: Search, i: nat)
    requires GraphSound(g) && SearchSound(g, s) && s.stack == [] && i < |g.records|
    ensures var r := VisitRoot(g, maxDepth, s, i, 3);
      && SearchSound(g, r) && (r.diagnostics.items == [] ==> r.colors[i] == Black)
      && Progressed(s.colors, r.colors)
  {
    RootIsVisit(g, maxDepth, s, i, 3);
    if s.colors[i] == White { VisitSound(g, maxDepth, s, i); }
  }

  lemma {:induction false} VisitFirstSound(g: Graph, maxDepth: nat, s: Search, count: nat)
    requires GraphSound(g) && Fresh(g, s) && DiagnosticsSound(s.diagnostics) && count <= |g.records|
    ensures SearchSound(g, VisitFirst(g, maxDepth, s, count))
    decreases count
  {
    if count > 0 {
      VisitFirstSound(g, maxDepth, s, count - 1);
      RootSound(g, maxDepth, VisitFirst(g, maxDepth, s, count - 1), count - 1);
    }
  }

  /** A report made on the way is still there at the end. */
  lemma {:induction false} ReportsStay(g: Graph, maxDepth: nat, s: Search, first: nat, count: nat)
    requires GraphSound(g) && Fresh(g, s) && first <= count <= |g.records|
    ensures StillReported(VisitFirst(g, maxDepth, s, first), VisitFirst(g, maxDepth, s, count))
    decreases count
  {
    if first < count { ReportsStay(g, maxDepth, s, first, count - 1); }
  }

  /** A search that reports nothing has blackened everything it started from. */
  lemma {:induction false} VisitFirstBlackens(g: Graph, maxDepth: nat, s: Search, count: nat, j: nat)
    requires GraphSound(g) && Fresh(g, s) && DiagnosticsSound(s.diagnostics) && j < count <= |g.records|
    requires VisitFirst(g, maxDepth, s, count).diagnostics.items == []
    ensures VisitFirst(g, maxDepth, s, count).colors[j] == Black
    decreases count
  {
    VisitFirstSound(g, maxDepth, s, count - 1);
    RootSound(g, maxDepth, VisitFirst(g, maxDepth, s, count - 1), count - 1);
    if j < count - 1 { VisitFirstBlackens(g, maxDepth, s, count - 1, j); }
  }

  /** Soundness of the search: without reports the dependencies are acyclic. */
  lemma QuietSearchMeansAcyclic(g: Graph, maxDepth: nat, s: Search) returns (rank: seq<nat>)
    requires GraphSound(g) && Fresh(g, s) && DiagnosticsSound(s.diagnostics)
    requires VisitFirst(g, maxDepth, s, |g.records|).diagnostics.items == []
    ensures Ranked(g, rank)
  {
    var r := VisitFirst(g, maxDepth, s, |g.records|);
    VisitFirstSound(g, maxDepth, s, |g.records|);
    forall j | 0 <= j < |g.records| ensures j in r.finished { VisitFirstBlackens(g, maxDepth, s, |g.records|, j); }
    FinishOrderRanks(g, r.finished);
    rank := seq(|g.records|, i requires 0 <= i < |g.records| => PositionIn(r.finished, i));
  }

  // ---------------------------------------------------------------- what the search does not report

  lemma {:induction false} RankFallsAlongPath(g: Graph, rank: seq<nat>, path: seq<nat>, i: nat)
    requires Ranked(g, rank) && IsPath(g, path) && i < |path|
    ensures path[i] < |rank| && path[|path| - 1] < |rank|
    ensures rank[path[|path| - 1]] <= rank[path[i]]
    ensures i < |path| - 1 ==> rank[path[|path| - 1]] < rank[path[i]]
    decreases |path|
  {
    if i < |path| - 1 {
      var before := path[..|path| - 1];
      assert forall k :: 0 <= k < |before| ==> before[k] == path[k];
      RankFallsAlongPath(g, rank, before, i);
      assert Edge(g, path[|path| - 2], path[|path| - 1]);
    }
  }

  ghost predicate PathsBounded(g: Graph, maxDepth: nat) {
    forall path :: IsPath(g, path) ==> |path| <= maxDepth
  }

  /** Completeness: an acyclic graph without long paths is searched without a report. */
  lemma {:induction false} VisitQuiet(g: Graph, maxDepth: nat, rank: seq<nat>, s: Search, i: nat)
    requires GraphSound(g) && SearchSound(g, s) && i < |g.records| && s.colors[i] != Gray
    requires s.stack != [] ==> Edge(g, s.stack[|s.stack| - 1], i)
    requires Ranked(g, rank) && PathsBounded(g, maxDepth)
    ensures Visit(g, maxDepth, s, i).diagnostics == s.diagnostics
    decreases Whites(s.colors), 0
  {
    if s.colors[i] == White && !s.diagnostics.reached {
      LeavingWhite(s.colors, i, Gray);
      var entered := s.(colors := s.colors[i := Gray], stack := s.stack + [i]);
      EnterSound(g, s, i);
      assert IsPath(g, entered.stack);
      VisitAllQuiet(g, maxDepth, rank, entered, g.records[i].dependencies, 0);
    }
  }

  lemma {:induction false} VisitAllQuiet(g: Graph, maxDepth: nat, rank: seq<nat>, s: Search,
                                         dependencies: seq<string>, from: nat)
    requires GraphSound(g) && SearchSound(g, s) && s.stack != [] && from <= |dependencies|
    requires dependencies == g.records[s.stack[|s.stack| - 1]].dependencies
    requires Ranked(g, rank) && PathsBounded(g, maxDepth)
    ensures VisitAll(g, maxDepth, s, dependencies, from).diagnostics == s.diagnostics
    decreases Whites(s.colors), 1 + |dependencies| - from
  {
    if from < |dependencies| {
      var d := dependencies[from];
      VisitDependencySound(g, maxDepth, s, d, |dependencies| - from);
      var next := VisitDependency(g, maxDepth, s, d, |dependencies| - from);
      WhitesShrink(s.colors, next.colors);
      if d in g.byId {
        assert Edge(g, s.stack[|s.stack| - 1], g.byId[d]);
        NoGrayDependency(g, rank, s, g.byId[d]);
        VisitQuiet(g, maxDepth, rank, s, g.byId[d]);
      }
      VisitAllQuiet(g, maxDepth, rank, next, dependencies, from + 1);
    }
  }

  /** In an acyclic graph nothing the stack's last record depends on is on the stack. */
  lemma NoGrayDependency(g: Graph, rank: seq<nat>, s: Search, to: nat)
    requires SearchSound(g, s) && Ranked(g, rank) && s.stack != [] && to < |g.records|
    requires Edge(g, s.stack[|s.stack| - 1], to)
    ensures s.colors[to] != Gray
  {
    if s.colors[to] == Gray {
      var k :| 0 <= k < |s.stack| && s.stack[k] == to;
      RankFallsAlongPath(g, rank, s.stack, k);
    }
  }

  lemma {:induction false} VisitFirstQuiet(g: Graph, maxDepth: nat, rank: seq<nat>, s: Search, count: nat)
    requires GraphSound(g) && Fresh(g, s) && DiagnosticsSound(s.diagnostics) && count <= |g.records|
    requires Ranked(g, rank) && PathsBounded(g, maxDepth)
    ensures VisitFirst(g, maxDepth, s, count).diagnostics == s.diagnostics
    decreases count
  {
    if count > 0 {
      var before := VisitFirst(g, maxDepth, s, count - 1);
      assert VisitRoot(g, maxDepth, before, count - 1, 3).diagnostics == before.diagnostics by {
        VisitFirstSound(g, maxDepth, s, count - 1);
        RootQuiet(g, maxDepth, rank, before, count - 1);
      }
      VisitFirstQuiet(g, maxDepth, rank, s, count - 1);
    }
  }

  lemma RootQuiet(g: Graph, maxDepth: nat, rank: seq<nat>, s: Search, i: nat)
    requires GraphSound(g) && SearchSound(g, s) && s.stack == [] && i < |g.records|
    requires Ranked(g, rank) && PathsBounded(g, maxDepth)
    ensures VisitRoot(g, maxDepth, s, i, 3).diagnostics == s.diagnostics
  {
    RootIsVisit(g, maxDepth, s, i, 3);
    if s.colors[i] == White { VisitQuiet(g, maxDepth, rank, s, i); }
  }

  // ---------------------------------------------------------------- what collecting and the rules accept

  lemma {:induction false} ReportAllQuiet(d: Diagnostics, codes: seq<Code>)
    requires DiagnosticsSound(d)
    ensures DiagnosticsSound(ReportAll(d, codes))
    ensures ReportAll(d, codes).items == [] <==> d.items == [] && codes == []
    ensures codes == [] ==> ReportAll(d, codes) == d
    decreases |codes|
  {
    if codes != [] { ReportAllQuiet(d, codes[..|codes| - 1]); }
  }

  /** Sorting brings equal identifiers together. */
  lemma AdjacentAfterSorting(ids: seq<string>)
    ensures AdjacentDuplicate(Sorting.Sort(Sorting.StringLess, ids)) <==> !Sorting.Distinct(ids)
  {
    var sorted := Sorting.Sort(Sorting.StringLess, ids);
    Sorting.StringLessIsTotal(ids);
    Sorting.SortIsAscendingWeakly(Sorting.StringLess, ids);
    if Sorting.Distinct(ids) {
      Sorting.DistinctFollowsMultiset(ids, sorted);
    } else {
      if Sorting.Distinct(sorted) { Sorting.DistinctFollowsMultiset(sorted, ids); }
      var i, j :| 0 <= i < j < |sorted| && sorted[i] == sorted[j];
      Sorting.StringLessIsTotal(sorted);
      assert !Sorting.StringLess(sorted[i + 1], sorted[i])
          && (i + 1 == j || !Sorting.StringLess(sorted[j], sorted[i + 1]));
      assert sorted[i] in sorted && sorted[i + 1] in sorted;
    }
  }

  ghost predicate RecordClean(malformed: AssetRecord -> bool, limits: Limits, record: AssetRecord) {
    && !malformed(record) && |record.dependencies| <= limits.maxDependenciesPerAsset
    && Sorting.Distinct(record.dependencies)
  }

  /** No record is faulty, and no two share their identifier or their source. */
  ghost predicate InputClean(malformed: AssetRecord -> bool, limits: Limits, input: seq<AssetRecord>) {
    && (forall i :: 0 <= i < |input| ==> RecordClean(malformed, limits, input[i]))
    && (forall i, j :: 0 <= i < j < |input| ==>
          input[i].id != input[j].id && (input[i].rootId, input[i].source) != (input[j].rootId, input[j].source))
  }

  ghost predicate SourceIn(records: seq<AssetRecord>, source: (string, string)) {
    exists i :: 0 <= i < |records| && (records[i].rootId, records[i].source) == source
  }

  lemma SourceInAppended(records: seq<AssetRecord>, record: AssetRecord, source: (string, string))
    ensures SourceIn(records + [record], source) <==>
      SourceIn(records, source) || (record.rootId, record.source) == source
  {
    var all := records + [record];
    assert (all[|records|].rootId, all[|records|].source) == (record.rootId, record.source);
    if SourceIn(records, source) {
      var i :| 0 <= i < |records| && (records[i].rootId, records[i].source) == source;
      assert (all[i].rootId, all[i].source) == source;
    }
  }

  ghost predicate CollectedSound(c: Collected) {
    && DiagnosticsSound(c.diagnostics) && GraphSound(Graph(c.records, c.byId))
    && (forall source :: source in c.sources <==> SourceIn(c.records, source))
  }

  /** The collected records are those of the input, each with its dependencies sorted. */
  ghost predicate SameRecords(records: seq<AssetRecord>, input: seq<AssetRecord>) {
    |records| == |input| &&
    forall i :: 0 <= i < |input| ==> records[i] == input[i].(dependencies := SortedDependencies(input[i]))
  }

  lemma CollectKeepsSound(malformed: AssetRecord -> bool, limits: Limits, c: Collected, record: AssetRecord)
    requires CollectedSound(c)
    ensures CollectedSound(Collect(malformed, limits, c, record))
  {
    ReportAllQuiet(c.diagnostics, RecordErrors(malformed, limits, c, record));
    var r := Collect(malformed, limits, c, record);
    if r.records != c.records {
      SourcesStayIndexed(c.records, r.records[|c.records|], c.sources, r.sources);
    }
  }

  lemma SourcesStayIndexed(records: seq<AssetRecord>, record: AssetRecord, before: set<(string, string)>,
                           after: set<(string, string)>)
    requires forall source :: source in before <==> SourceIn(records, source)
    requires after == before + {(record.rootId, record.source)}
    ensures forall source :: source in after <==> SourceIn(records + [record], source)
  {
    forall source ensures source in after <==> SourceIn(records + [record], source) {
      SourceInAppended(records, record, source);
    }
  }

  /** Collecting reports nothing exactly when the input is clean, and then keeps every record. */
  lemma {:induction false} CollectExactly(malformed: AssetRecord -> bool, limits: Limits, input: seq<AssetRecord>)
    ensures var c := CollectAll(malformed, limits, input);
      && CollectedSound(c)
      && (c.diagnostics.items == [] <==> InputClean(malformed, limits, input))
      && (c.diagnostics.items == [] ==> SameRecords(c.records, input))
    decreases |input|
  {
    if input != [] {
      var n := |input| - 1;
      CollectExactly(malformed, limits, input[..n]);
      var c := CollectAll(malformed, limits, input[..n]);
      CollectKeepsSound(malformed, limits, c, input[n]);
      CollectOne(malformed, limits, c, input[n]);
      OneMoreRecord(malformed, limits, c, input, Collect(malformed, limits, c, input[n]));
    }
  }

  ghost predicate IdTaken(input: seq<AssetRecord>, record: AssetRecord) {
    exists i :: 0 <= i < |input| && input[i].id == record.id
  }

  lemma TakenId(c: Collected, input: seq<AssetRecord>, record: AssetRecord)
    requires GraphSound(Graph(c.records, c.byId)) && SameRecords(c.records, input)
    ensures record.id in c.byId <==> IdTaken(input, record)
  {
    if record.id in c.byId { assert input[c.byId[record.id]].id == record.id; }
    if IdTaken(input, record) {
      var i :| 0 <= i < |input| && input[i].id == record.id;
      assert c.records[i].id == record.id;
    }
  }

  lemma TakenSource(records: seq<AssetRecord>, input: seq<AssetRecord>, source: (string, string))
    requires SameRecords(records, input)
    ensures SourceIn(records, source) <==> SourceIn(input, source)
  {
    if SourceIn(records, source) {
      var i :| 0 <= i < |records| && (records[i].rootId, records[i].source) == source;
      assert (input[i].rootId, input[i].source) == source;
    }
    if SourceIn(input, source) {
      var i :| 0 <= i < |input| && (input[i].rootId, input[i].source) == source;
      assert (records[i].rootId, records[i].source) == source;
    }
  }

  lemma CollectOne(malformed: AssetRecord -> bool, limits: Limits, c: Collected, record: AssetRecord)
    requires CollectedSound(c)
    ensures var r := Collect(malformed, limits, c, record);
      && (r.diagnostics.items == [] <==> (c.diagnostics.items == [] && RecordClean(malformed, limits, record)
                                          && record.id !in c.byId && (record.rootId, record.source) !in c.sources))
      && (r.diagnostics.items == [] ==>
            r.records == c.records + [record.(dependencies := SortedDependencies(record))])
  {
    ReportAllQuiet(c.diagnostics, RecordErrors(malformed, limits, c, record));
    AdjacentAfterSorting(record.dependencies);
  }

  lemma OneMoreRecord(malformed: AssetRecord -> bool, limits: Limits, c: Collected, input: seq<AssetRecord>,
                      r: Collected)
    requires input != [] && CollectedSound(c)
    requires c.diagnostics.items == [] <==> InputClean(malformed, limits, input[..|input| - 1])
    requires c.diagnostics.items == [] ==> SameRecords(c.records, input[..|input| - 1])
    requires var record := input[|input| - 1];
      && (r.diagnostics.items == [] <==> (c.diagnostics.items == [] && RecordClean(malformed, limits, record)
                                          && record.id !in c.byId && (record.rootId, record.source) !in c.sources))
      && (r.diagnostics.items == [] ==> r.records == c.records + [record.(dependencies := SortedDependencies(record))])
    ensures r.diagnostics.items == [] <==> InputClean(malformed, limits, input)
    ensures r.diagnostics.items == [] ==> SameRecords(r.records, input)
  {
    CleanExtends(malformed, limits, input);
    var before, record := input[..|input| - 1], input[|input| - 1];
    if c.diagnostics.items == [] {
      TakenId(c, before, record);
      TakenSource(c.records, before, (record.rootId, record.source));
    }
    if r.diagnostics.items == [] { AppendedRecords(c.records, before, record); assert before + [record] == input; }
  }

  lemma AppendedRecords(records: seq<AssetRecord>, input: seq<AssetRecord>, record: AssetRecord)
    requires SameRecords(records, input)
    ensures SameRecords(records + [record.(dependencies := SortedDependencies(record))], input + [record])
  {
  }

  lemma CleanExtends(malformed: AssetRecord -> bool, limits: Limits, input: seq<AssetRecord>)
    requires input != []
    ensures var before, record := input[..|input| - 1], input[|input| - 1];
      InputClean(malformed, limits, input) <==>
        (InputClean(malformed, limits, before) && RecordClean(malformed, limits, record)
         && !IdTaken(before, record) && !SourceIn(before, (record.rootId, record.source)))
  {
    var before, record := input[..|input| - 1], input[|input| - 1];
    assert forall i :: 0 <= i < |before| ==> before[i] == input[i];
    if InputClean(malformed, limits, input) {
      assert !SourceIn(before, (record.rootId, record.source));
    }
    if InputClean(malformed, limits, before) && RecordClean(malformed, limits, record)
       && !IdTaken(before, record) && !SourceIn(before, (record.rootId, record.source))
    {
      forall i, j | 0 <= i < j < |input|
        ensures input[i].id != input[j].id && (input[i].rootId, input[i].source) != (input[j].rootId, input[j].source)
      {
        assert before[i] == input[i];
      }
    }
  }

  // ---------------------------------------------------------------- rules

  ghost predicate EdgeAllowed(g: Graph, record: AssetRecord, dependency: string) {
    && dependency in g.byId && g.byId[dependency] < |g.records|
    && var target := g.records[g.byId[dependency]].assetType;
    && (target == Audio ==> record.assetType == Audio) && (target == Shader ==> record.assetType == Material)
  }

  /** Audio and shader assets depend on nothing, only materials on shaders, nothing on audio, and all
      dependencies exist. */
  ghost predicate RecordObeys(g: Graph, record: AssetRecord) {
    && (record.assetType == Audio || record.assetType == Shader ==> record.dependencies == [])
    && (forall d :: d in record.dependencies ==> EdgeAllowed(g, record, d))
  }

  lemma {:induction false} EdgesErrorsExactly(g: Graph, record: AssetRecord, dependencies: seq<string>)
    requires GraphSound(g)
    ensures EdgesErrors(g, record, dependencies) == [] <==> forall d :: d in dependencies ==> EdgeAllowed(g, record, d)
    decreases |dependencies|
  {
    if dependencies != [] {
      var n := |dependencies| - 1;
      EdgesErrorsExactly(g, record, dependencies[..n]);
      assert dependencies == dependencies[..n] + [dependencies[n]];
      assert EdgeErrors(g, record, dependencies[n]) == [] <==> EdgeAllowed(g, record, dependencies[n]);
      assert EdgesErrors(g, record, dependencies) == [] <==>
        EdgesErrors(g, record, dependencies[..n]) == [] && EdgeErrors(g, record, dependencies[n]) == [];
    }
  }

  lemma RuleErrorsExactly(g: Graph, record: AssetRecord)
    requires GraphSound(g)
    ensures RuleErrors(g, record) == [] <==> RecordObeys(g, record)
  {
    EdgesErrorsExactly(g, record, record.dependencies);
  }

  ghost predicate RulesObeyed(g: Graph, count: nat := |g.records|)
    requires count <= |g.records|
  {
    forall i :: 0 <= i < count ==> RecordObeys(g, g.records[i])
  }

  lemma NextObeys(g: Graph, count: nat)
    requires 0 < count <= |g.records|
    ensures RulesObeyed(g, count) <==> RulesObeyed(g, count - 1) && RecordObeys(g, g.records[count - 1])
  {
  }

  lemma {:induction false} CheckRulesExactly(g: Graph, count: nat, d: Diagnostics)
    requires GraphSound(g) && DiagnosticsSound(d) && count <= |g.records|
    ensures var r := CheckRules(g, count, d);
      && DiagnosticsSound(r)
      && (r.items == [] <==> d.items == [] && RulesObeyed(g, count))
      && (r.items == [] ==> r == d)
    decreases count
  {
    if count > 0 {
      CheckRulesExactly(g, count - 1, d);
      NextObeys(g, count);
      RuleErrorsExactly(g, g.records[count - 1]);
      ReportAllQuiet(CheckRules(g, count - 1, d), RuleErrors(g, g.records[count - 1]));
    }
  }

  // ---------------------------------------------------------------- the database

  datatype Database = Database(records: seq<AssetRecord>, byId: map<string, nat>)

  predicate RecordBefore(a: AssetRecord, b: AssetRecord) { Sorting.StringLess(a.id, b.id) }

  function IndexOf(records: seq<AssetRecord>): map<string, nat> {
    if records == [] then map[]
    else
      var n := |records| - 1;
      var before := IndexOf(records[..n]);
      if records[n].id in before then before else before[records[n].id := n]
  }

  function Published(records: seq<AssetRecord>): Database {
    var sorted := Sorting.Sort(RecordBefore, records);
    Database(sorted, IndexOf(sorted))
  }

  function Find(db: Database, id: string): Option<AssetRecord> {
    if id in db.byId && db.byId[id] < |db.records| then Some(db.records[db.byId[id]]) else None
  }

  function Build(malformed: AssetRecord -> bool, limits: Limits, input: seq<AssetRecord>): Option<Database> {
    var c := CollectAll(malformed, limits, input);
    var g := Graph(c.records, c.byId);
    CollectExactly(malformed, limits, input);
    var checked := CheckRules(g, |g.records|, c.diagnostics);
    var searched := VisitFirst(g, limits.maxDependencyDepth, InitialSearch(g, checked), |g.records|);
    if searched.diagnostics.items != [] then None else Some(Published(c.records))
  }

  /** Looking up an identifier finds its record and nothing else, and records stand in identifier order. */
  ghost predicate DatabaseSound(db: Database) {
    GraphSound(Graph(db.records, db.byId)) && Sorting.Ascending(RecordBefore, db.records)
  }

  /** Every dependency exists and has a lower rank, so no chain of dependencies comes back to its start. */
  ghost predicate ClosedAcyclic(db: Database, rank: map<string, nat>) {
    forall r, d :: r in db.records && d in r.dependencies ==>
      (d in db.byId && d in rank && r.id in rank && rank[d] < rank[r.id])
  }

  lemma {:induction false} IndexOfExactly(records: seq<AssetRecord>)
    requires forall i, j :: 0 <= i < j < |records| ==> records[i].id != records[j].id
    ensures GraphSound(Graph(records, IndexOf(records)))
    decreases |records|
  {
    if records != [] {
      var n := |records| - 1;
      IndexOfExactly(records[..n]);
      assert forall i :: 0 <= i < n ==> records[..n][i] == records[i];
    }
  }

  lemma RecordsAreOrdered(records: seq<AssetRecord>)
    requires forall i, j :: 0 <= i < j < |records| ==> records[i].id != records[j].id
    ensures Sorting.TotalOn(RecordBefore, records) && Sorting.Distinct(records)
  {
    forall x | x in records ensures !RecordBefore(x, x) { Sorting.StringLessIrreflexive(x.id); }
    forall x, y | x in records && y in records && x != y ensures RecordBefore(x, y) || RecordBefore(y, x) {
      Sorting.StringLessConnected(x.id, y.id);
    }
    forall x, y, z | x in records && y in records && z in records && RecordBefore(x, y) && RecordBefore(y, z)
      ensures RecordBefore(x, z)
    {
      Sorting.StringLessTransitive(x.id, y.id, z.id);
    }
  }

  lemma PublishedSound(records: seq<AssetRecord>)
    requires forall i, j :: 0 <= i < j < |records| ==> records[i].id != records[j].id
    ensures DatabaseSound(Published(records))
    ensures forall r :: r in Published(records).records <==> r in records
  {
    var sorted := Sorting.Sort(RecordBefore, records);
    RecordsAreOrdered(records);
    Sorting.SortAscends(RecordBefore, records);
    Sorting.SameMultisetSameMembers(sorted, records);
    forall i, j | 0 <= i < j < |sorted| ensures sorted[i].id != sorted[j].id {
      assert RecordBefore(sorted[i], sorted[j]);
      Sorting.StringLessIrreflexive(sorted[i].id);
    }
    IndexOfExactly(sorted);
  }

  lemma BuiltFrom(malformed: AssetRecord -> bool, limits: Limits, input: seq<AssetRecord>)
    returns (g: Graph, ranks: seq<nat>)
    requires Build(malformed, limits, input).Some?
    ensures InputClean(malformed, limits, input) && SameRecords(g.records, input)
    ensures GraphSound(g) && RulesObeyed(g) && Ranked(g, ranks)
    ensures Build(malformed, limits, input) == Some(Published(g.records))
  {
    CollectExactly(malformed, limits, input);
    var c := CollectAll(malformed, limits, input);
    g := Graph(c.records, c.byId);
    var checked := CheckRules(g, |g.records|, c.diagnostics);
    CheckRulesExactly(g, |g.records|, c.diagnostics);
    ReportsStay(g, limits.maxDependencyDepth, InitialSearch(g, checked), 0, |g.records|);
    ranks := QuietSearchMeansAcyclic(g, limits.maxDependencyDepth, InitialSearch(g, checked));
  }

  /** What a built database guarantees: a clean input, every record in it once with its dependencies sorted,
      exact lookup, the rules for audio and shader assets, and dependencies that are closed and acyclic. */
  lemma BuildAccepts(malformed: AssetRecord -> bool, limits: Limits, input: seq<AssetRecord>)
    returns (records: seq<AssetRecord>, rank: map<string, nat>)
    requires Build(malformed, limits, input).Some?
    ensures InputClean(malformed, limits, input) && SameRecords(records, input)
    ensures RulesObeyed(Graph(records, IndexOf(records)))
    ensures var db := Build(malformed, limits, input).value;
      DatabaseSound(db) && ClosedAcyclic(db, rank) && (forall r :: r in db.records <==> r in records)
  {
    var g, ranks := BuiltFrom(malformed, limits, input);
    records := g.records;
    rank := PublishedAcyclic(g, ranks);
  }

  lemma PublishedAcyclic(g: Graph, ranks: seq<nat>) returns (rank: map<string, nat>)
    requires GraphSound(g) && Ranked(g, ranks) && RulesObeyed(g)
    ensures g.byId == IndexOf(g.records)
    ensures var db := Published(g.records);
      DatabaseSound(db) && ClosedAcyclic(db, rank) && (forall r :: r in db.records <==> r in g.records)
  {
    SameIds(g.records, g.byId);
    PublishedSound(g.records);
    rank := map id | id in g.byId :: ranks[g.byId[id]];
    RankById(g, ranks, Published(g.records), rank);
  }

  lemma SameIds(records: seq<AssetRecord>, byId: map<string, nat>)
    requires GraphSound(Graph(records, byId))
    ensures forall i, j :: 0 <= i < j < |records| ==> records[i].id != records[j].id
    ensures byId == IndexOf(records)
  {
    forall i, j | 0 <= i < j < |records| ensures records[i].id != records[j].id {
      assert byId[records[i].id] == i && byId[records[j].id] == j;
    }
    IndexOfExactly(records);
  }

  lemma RankById(g: Graph, ranks: seq<nat>, db: Database, rank: map<string, nat>)
    requires GraphSound(g) && Ranked(g, ranks) && RulesObeyed(g) && DatabaseSound(db)
    requires forall r :: r in db.records <==> r in g.records
    requires rank.Keys == g.byId.Keys && forall id :: id in rank ==> rank[id] == ranks[g.byId[id]]
    ensures ClosedAcyclic(db, rank)
  {
    forall r, d | r in db.records && d in r.dependencies
      ensures d in db.byId && d in rank && r.id in rank && rank[d] < rank[r.id]
    {
      var i :| 0 <= i < |g.records| && g.records[i] == r;
      assert RecordObeys(g, g.records[i]);
      var to := g.byId[d];
      assert Edge(g, i, to);
      assert g.records[to] in db.records;
      var k :| 0 <= k < |db.records| && db.records[k] == g.records[to];
      assert db.records[k].id in db.byId;
    }
  }

  /** A clean input that obeys the rules, has no cycle and no long chain of dependencies is never refused. */
  lemma BuildRefusesOnlyFaults(malformed: AssetRecord -> bool, limits: Limits, input: seq<AssetRecord>, g: Graph,
                               rank: seq<nat>)
    requires InputClean(malformed, limits, input)
    requires SameRecords(g.records, input) && g.byId == IndexOf(g.records)
    requires RulesObeyed(g) && Ranked(g, rank) && PathsBounded(g, limits.maxDependencyDepth)
    ensures Build(malformed, limits, input).Some?
  {
    CollectedAs(malformed, limits, input, g);
    SearchDecides(malformed, limits, input);
    VisitFirstQuiet(g, limits.maxDependencyDepth, rank, InitialSearch(g, NoDiagnostics(limits)), |g.records|);
  }

  lemma CollectedAs(malformed: AssetRecord -> bool, limits: Limits, input: seq<AssetRecord>, g: Graph)
    requires InputClean(malformed, limits, input) && SameRecords(g.records, input) && g.byId == IndexOf(g.records)
    ensures GraphSound(g)
    ensures var c := CollectAll(malformed, limits, input);
      CollectedSound(c) && Graph(c.records, c.byId) == g && c.diagnostics == NoDiagnostics(limits)
  {
    CollectExactly(malformed, limits, input);
    QuietCollect(malformed, limits, input);
    var c := CollectAll(malformed, limits, input);
    assert c.records == g.records;
    SameIds(c.records, c.byId);
  }

  /** Two databases built from the same records, in whatever order, are the same. */
  lemma BuildIgnoresOrder(malformed: AssetRecord -> bool, limits: Limits, input: seq<AssetRecord>,
                          other: seq<AssetRecord>)
    requires multiset(input) == multiset(other)
    requires Build(malformed, limits, input).Some? && Build(malformed, limits, other).Some?
    ensures Build(malformed, limits, input) == Build(malformed, limits, other)
  {
    var r0, rank0 := BuildAccepts(malformed, limits, input);
    var r1, rank1 := BuildAccepts(malformed, limits, other);
    var a, b := Build(malformed, limits, input).value, Build(malformed, limits, other).value;
    SameMembers(input, other, r0, r1);
    forall x ensures x in a.records <==> x in b.records { }
    AscendingIds(a);
    AscendingIds(b);
    RecordsAreOrdered(a.records);
    Sorting.AscendingIsUnique(RecordBefore, a.records, b.records);
    SameIds(a.records, a.byId);
    SameIds(b.records, b.byId);
  }

  lemma AscendingIds(db: Database)
    requires DatabaseSound(db)
    ensures forall i, j :: 0 <= i < j < |db.records| ==> db.records[i].id != db.records[j].id
  {
    SameIds(db.records, db.byId);
  }

  lemma SameMembers(input: seq<AssetRecord>, other: seq<AssetRecord>, r0: seq<AssetRecord>, r1: seq<AssetRecord>)
    requires multiset(input) == multiset(other) && SameRecords(r0, input) && SameRecords(r1, other)
    ensures forall x :: x in r0 <==> x in r1
  {
    Sorting.SameMultisetSameMembers(input, other);
    forall x ensures x in r0 <==> x in r1 {
      if x in r0 { OneWay(input, other, r0, r1, x); }
      if x in r1 { OneWay(other, input, r1, r0, x); }
    }
  }

  lemma OneWay(input: seq<AssetRecord>, other: seq<AssetRecord>, r0: seq<AssetRecord>, r1: seq<AssetRecord>,
               x: AssetRecord)
    requires (forall y :: y in input <==> y in other) && SameRecords(r0, input) && SameRecords(r1, other) && x in r0
    ensures x in r1
  {
    var i :| 0 <= i < |r0| && r0[i] == x;
    assert input[i] in input && input[i] in other;
    var j :| 0 <= j < |other| && other[j] == input[i];
    assert r1[j] == x;
  }

  // ---------------------------------------------------------------- depth depends on the order of records

  function Plain(id: string, dependencies: seq<string>): AssetRecord { AssetRecord(id, Mesh, "root", id, dependencies) }

  const CHAIN_TOP := Plain("a", ["b"])
  const CHAIN_MIDDLE := Plain("b", ["c"])
  const CHAIN_END := Plain("c", [])

  /** The three records, in some order. */
  predicate IsChain(input: seq<AssetRecord>) {
    || input == [CHAIN_TOP, CHAIN_MIDDLE, CHAIN_END]
    || input == [CHAIN_END, CHAIN_MIDDLE, CHAIN_TOP]
  }

  lemma ChainIsClean(malformed: AssetRecord -> bool, limits: Limits, input: seq<AssetRecord>)
    requires IsChain(input) && limits.maxDependenciesPerAsset >= 1 && forall r :: !malformed(r)
    ensures InputClean(malformed, limits, input)
    ensures forall i :: 0 <= i < |input| ==> |input[i].dependencies| <= 1
  {
  }

  lemma ChainObeys(g: Graph)
    requires GraphSound(g) && IsChain(g.records)
    ensures RulesObeyed(g)
  {
    assert g.records[1].id == "b" && (g.records[0].id == "c" || g.records[2].id == "c");
    forall i | 0 <= i < |g.records| ensures RecordObeys(g, g.records[i]) {
      forall d | d in g.records[i].dependencies ensures EdgeAllowed(g, g.records[i], d) {
        assert d == "b" || d == "c";
      }
    }
  }

  /** Collecting clean records with single dependencies is quiet and keeps them as they are. */
  lemma CollectedQuietly(malformed: AssetRecord -> bool, limits: Limits, input: seq<AssetRecord>)
    requires InputClean(malformed, limits, input)
    requires forall i :: 0 <= i < |input| ==> |input[i].dependencies| <= 1
    ensures var c := CollectAll(malformed, limits, input);
      CollectedSound(c) && c.records == input && c.diagnostics == NoDiagnostics(limits)
  {
    CollectExactly(malformed, limits, input);
    QuietCollect(malformed, limits, input);
    ChainIsKept(CollectAll(malformed, limits, input).records, input);
  }

  /** Collecting and checking the chain in either order leaves the search to decide. */
  lemma CollectedChain(malformed: AssetRecord -> bool, limits: Limits, input: seq<AssetRecord>) returns (g: Graph)
    requires IsChain(input) && limits.maxDependenciesPerAsset >= 1 && forall r :: !malformed(r)
    ensures GraphSound(g) && g.records == input
    ensures Build(malformed, limits, input).Some? <==>
      VisitFirst(g, limits.maxDependencyDepth, InitialSearch(g, NoDiagnostics(limits)), 3).diagnostics.items == []
  {
    ChainIsClean(malformed, limits, input);
    CollectedQuietly(malformed, limits, input);
    g := Graph(input, CollectAll(malformed, limits, input).byId);
    ChainObeys(g);
    SearchDecides(malformed, limits, input);
  }

  lemma ChainIsKept(records: seq<AssetRecord>, input: seq<AssetRecord>)
    requires SameRecords(records, input) && forall i :: 0 <= i < |input| ==> |input[i].dependencies| <= 1
    ensures records == input
  {
    forall i | 0 <= i < |input| ensures records[i] == input[i] { SingleStaysSorted(input[i].dependencies); }
  }

  /** Where collecting and the rules find nothing, the search decides. */
  lemma SearchDecides(malformed: AssetRecord -> bool, limits: Limits, input: seq<AssetRecord>)
    requires CollectAll(malformed, limits, input).diagnostics == NoDiagnostics(limits)
    requires var c := CollectAll(malformed, limits, input);
      CollectedSound(c) && RulesObeyed(Graph(c.records, c.byId))
    ensures var c := CollectAll(malformed, limits, input);
      var g := Graph(c.records, c.byId);
      Build(malformed, limits, input).Some? <==>
        VisitFirst(g, limits.maxDependencyDepth, InitialSearch(g, NoDiagnostics(limits)),
                   |g.records|).diagnostics.items == []
  {
    var c := CollectAll(malformed, limits, input);
    CheckRulesExactly(Graph(c.records, c.byId), |c.records|, c.diagnostics);
  }

  lemma SingleStaysSorted(ids: seq<string>)
    requires |ids| <= 1
    ensures Sorting.Sort(Sorting.StringLess, ids) == ids
  {
  }

  lemma {:induction false} QuietCollect(malformed: AssetRecord -> bool, limits: Limits, input: seq<AssetRecord>)
    requires CollectAll(malformed, limits, input).diagnostics.items == []
    ensures CollectAll(malformed, limits, input).diagnostics == NoDiagnostics(limits)
    decreases |input|
  {
    if input != [] {
      var n := |input| - 1;
      CollectExactly(malformed, limits, input[..n]);
      var c := CollectAll(malformed, limits, input[..n]);
      CollectOne(malformed, limits, c, input[n]);
      ReportAllQuiet(c.diagnostics, RecordErrors(malformed, limits, c, input[n]));
      QuietCollect(malformed, limits, input[..n]);
    }
  }

  /** The search measures its own stack, not the chain: with at most two levels allowed, a chain of three
      assets is refused when its top comes first and accepted when its end comes first. */
  lemma DepthDependsOnOrder(malformed: AssetRecord -> bool, limits: Limits)
    requires limits.maxDependencyDepth == 2 && limits.maxDependenciesPerAsset >= 1 && limits.maxDiagnostics >= 1
    requires forall r :: !malformed(r)
    ensures Build(malformed, limits, [CHAIN_TOP, CHAIN_MIDDLE, CHAIN_END]).None?
    ensures Build(malformed, limits, [CHAIN_END, CHAIN_MIDDLE, CHAIN_TOP]).Some?
  {
    var down := CollectedChain(malformed, limits, [CHAIN_TOP, CHAIN_MIDDLE, CHAIN_END]);
    ChainFromTop(down, InitialSearch(down, NoDiagnostics(limits)));
    var up := CollectedChain(malformed, limits, [CHAIN_END, CHAIN_MIDDLE, CHAIN_TOP]);
    ChainFromEnd(up, InitialSearch(up, NoDiagnostics(limits)));
  }

  lemma VisitLeaf(g: Graph, maxDepth: nat, s: Search, i: nat)
    requires GraphSound(g) && |s.colors| == |g.records| && i < |g.records| && s.colors[i] == White
    requires !s.diagnostics.reached
    requires |s.stack| < maxDepth && g.records[i].dependencies == []
    ensures Visit(g, maxDepth, s, i) == s.(colors := s.colors[i := Black], finished := s.finished + [i])
  {
    assert s.colors[i := Gray][i := Black] == s.colors[i := Black];
  }

  lemma VisitTooDeep(g: Graph, maxDepth: nat, s: Search, i: nat)
    requires GraphSound(g) && |s.colors| == |g.records| && i < |g.records| && s.colors[i] == White
    requires !s.diagnostics.reached
    requires |s.stack| >= maxDepth
    ensures Visit(g, maxDepth, s, i).diagnostics == Report(s.diagnostics, DependencyDepth)
  {
  }

  /** A record with one dependency, which is not on the stack. */
  lemma VisitLink(g: Graph, maxDepth: nat, s: Search, i: nat, to: nat)
    requires GraphSound(g) && |s.colors| == |g.records| && i < |g.records| && s.colors[i] == White
    requires !s.diagnostics.reached
    requires |s.stack| < maxDepth && |g.records[i].dependencies| == 1 && to < |g.records| && to != i
    requires g.records[i].dependencies[0] in g.byId && g.byId[g.records[i].dependencies[0]] == to
    requires s.colors[to] != Gray
    ensures var r := Visit(g, maxDepth, s.(colors := s.colors[i := Gray], stack := s.stack + [i]), to);
      var v := Visit(g, maxDepth, s, i);
      v.diagnostics == r.diagnostics && v.colors == r.colors[i := Black] && v.stack == s.stack
  {
    var d := g.records[i].dependencies;
    var entered := s.(colors := s.colors[i := Gray], stack := s.stack + [i]);
    var next := VisitDependency(g, maxDepth, entered, d[0], 1);
    assert VisitAll(g, maxDepth, next, d, 1) == next;
    assert VisitAll(g, maxDepth, entered, d, 0) == next;
  }

  lemma ChainFromTop(g: Graph, s: Search)
    requires GraphSound(g) && g.records == [CHAIN_TOP, CHAIN_MIDDLE, CHAIN_END]
    requires Fresh(g, s) && DiagnosticsSound(s.diagnostics) && !s.diagnostics.reached
    ensures VisitFirst(g, 2, s, 3).diagnostics.items != []
  {
    assert g.byId["b"] == 1 by { assert g.records[1].id == "b"; }
    assert g.byId["c"] == 2 by { assert g.records[2].id == "c"; }
    var top := s.(colors := s.colors[0 := Gray], stack := s.stack + [0]);
    var middle := top.(colors := top.colors[1 := Gray], stack := top.stack + [1]);
    VisitTooDeep(g, 2, middle, 2);
    VisitLink(g, 2, top, 1, 2);
    VisitLink(g, 2, s, 0, 1);
    RootIsVisit(g, 2, s, 0, 3);
    assert VisitFirst(g, 2, s, 0) == s && VisitFirst(g, 2, s, 1) == Visit(g, 2, s, 0);
    ReportsStay(g, 2, s, 1, 3);
  }

  lemma ChainFromEnd(g: Graph, s: Search)
    requires GraphSound(g) && g.records == [CHAIN_END, CHAIN_MIDDLE, CHAIN_TOP]
    requires Fresh(g, s) && !s.diagnostics.reached
    ensures VisitFirst(g, 2, s, 3).diagnostics == s.diagnostics
  {
    assert g.byId["c"] == 0 by { assert g.records[0].id == "c"; }
    assert g.byId["b"] == 1 by { assert g.records[1].id == "b"; }
    VisitLeaf(g, 2, s, 0);
    var afterEnd := Visit(g, 2, s, 0);
    RootIsVisit(g, 2, s, 0, 3);
    assert VisitFirst(g, 2, s, 0) == s && VisitFirst(g, 2, s, 1) == afterEnd;
    RootIsVisit(g, 2, afterEnd, 1, 3);
    VisitLink(g, 2, afterEnd, 1, 0);
    var afterMiddle := Visit(g, 2, afterEnd, 1);
    assert VisitFirst(g, 2, s, 2) == afterMiddle && afterMiddle.diagnostics == s.diagnostics;
    RootIsVisit(g, 2, afterMiddle, 2, 3);
    VisitLink(g, 2, afterMiddle, 2, 1);
    assert VisitFirst(g, 2, s, 3) == Visit(g, 2, afterMiddle, 2);
  }

  // ---------------------------------------------------------------- the builder

  /** The search as it runs: colours and stack updated in place. */
  class DependencySearch {
    const g: Graph
    const maxDepth: nat
    const colors: array<Color>
    var stack: seq<nat>
    var diagnostics: Diagnostics
    ghost var finished: seq<nat>

    ghost predicate Valid()
      reads this, colors
    {
      colors.Length == |g.records| && forall id :: id in g.byId ==> g.byId[id] < |g.records|
    }

    ghost function State(): Search
      reads this, colors
    {
      Search(colors[..], stack, diagnostics, finished)
    }

    constructor (g: Graph, maxDepth: nat, diagnostics: Diagnostics)
      requires forall id :: id in g.byId ==> g.byId[id] < |g.records|
      ensures Valid() && this.g == g && this.maxDepth == maxDepth && fresh(colors)
      ensures State() == InitialSearch(g, diagnostics)
    {
      this.g, this.maxDepth, this.diagnostics := g, maxDepth, diagnostics;
      colors := new Color[|g.records|](_ => White);
      stack, finished := [], [];
      new;
      assert colors[..] == InitialSearch(g, diagnostics).colors;
    }

    method Explore(i: nat)
      requires Valid() && i < |g.records| && colors[i] != Gray
      modifies this, colors
      ensures Valid() && State() == old(Visit(g, maxDepth, State(), i))
      decreases Whites(colors[..]), 0
    {
      if colors[i] == Black || diagnostics.reached { return; }
      LeavingWhite(colors[..], i, Gray);
      ghost var white, below := Whites(colors[..]), stack;
      colors[i] := Gray;
      stack := stack + [i];
      if |stack| > maxDepth {
        diagnostics := Report(diagnostics, DependencyDepth);
      } else {
        var dependencies := g.records[i].dependencies;
        ghost var entered := State();
        for k := 0 to |dependencies|
          invariant Valid() && stack == below + [i] && Whites(colors[..]) < white
          invariant VisitAll(g, maxDepth, State(), dependencies, k) == VisitAll(g, maxDepth, entered, dependencies, 0)
        {
          ghost var before := State();
          if dependencies[k] in g.byId {
            var to := g.byId[dependencies[k]];
            if colors[to] == Gray {
              diagnostics := Report(diagnostics, DependencyCycle);
            } else {
              Explore(to);
            }
          }
          assert State() == VisitDependency(g, maxDepth, before, dependencies[k], |dependencies| - k);
          WhitesShrink(before.colors, colors[..]);
        }
      }
      stack := stack[..|stack| - 1];
      colors[i] := Black;
      finished := finished + [i];
    }
  }

  /** Builds the database, or refuses. */
  method BuildDatabase(malformed: AssetRecord -> bool, limits: Limits, input: seq<AssetRecord>)
    returns (db: Option<Database>)
    ensures db == Build(malformed, limits, input)
  {
    var c := Collected([], map[], {}, NoDiagnostics(limits));
    for i := 0 to |input|
      invariant c == CollectAll(malformed, limits, input[..i])
    {
      assert input[..i + 1][..i] == input[..i];
      c := Collect(malformed, limits, c, input[i]);
    }
    assert input[..|input|] == input;
    CollectExactly(malformed, limits, input);
    var g := Graph(c.records, c.byId);
    var diagnostics := c.diagnostics;
    for i := 0 to |g.records|
      invariant diagnostics == CheckRules(g, i, c.diagnostics)
    {
      diagnostics := ReportAll(diagnostics, RuleErrors(g, g.records[i]));
    }
    diagnostics := SearchFrom(g, limits.maxDependencyDepth, diagnostics);
    if diagnostics.items != [] { return None; }
    db := Some(Published(c.records));
  }

  method SearchFrom(g: Graph, maxDepth: nat, diagnostics: Diagnostics) returns (r: Diagnostics)
    requires forall id :: id in g.byId ==> g.byId[id] < |g.records|
    ensures r == VisitFirst(g, maxDepth, InitialSearch(g, diagnostics), |g.records|).diagnostics
  {
    var search := new DependencySearch(g, maxDepth, diagnostics);
    for i := 0 to |g.records|
      invariant search.Valid() && search.g == g && search.maxDepth == maxDepth
      invariant search.State() == VisitFirst(g, maxDepth, InitialSearch(g, diagnostics), i)
    {
      RootIsVisit(g, maxDepth, search.State(), i, 3);
      if search.colors[i] == White { search.Explore(i); }
    }
    r := search.diagnostics;
  }
}
