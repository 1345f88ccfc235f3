/** What the asset database reports: each code for its one reason, and never more than the limit. */
module AssetReports {
  import opened AssetDatabases
  import Sorting

  /** A bounded collector keeps the first reports; where there are more than it may hold, its last one says so. */
  lemma {:induction false} LimitKeepsFirst(limit: nat, codes: seq<Code>)
    requires limit > 0
    ensures var d := ReportAll(Diagnostics([], limit, false), codes);
      && d.limit == limit && (d.reached <==> |codes| > limit)
      && d.items == if |codes| <= limit then codes else codes[..limit - 1] + [DiagnosticLimit]
    decreases |codes|
  {
    if codes != [] {
      var n := |codes| - 1;
      LimitKeepsFirst(limit, codes[..n]);
      assert codes == codes[..n] + [codes[n]];
      if n >= limit { assert codes[..n][..limit - 1] == codes[..limit - 1]; }
    }
  }

  lemma InEither<T>(x: T, a: seq<T>, b: seq<T>)
    ensures x in a + b <==> x in a || x in b
  {
  }

  /** Why a record is reported with that code. */
  ghost predicate RecordReason(malformed: AssetRecord -> bool, limits: Limits, c: Collected, record: AssetRecord,
                               code: Code)
  {
    match code
    case RecordMalformed => malformed(record)
    case IdDuplicate => record.id in c.byId
    case DependencyLimit => |record.dependencies| > limits.maxDependenciesPerAsset
    case DependencyDuplicate => !Sorting.Distinct(record.dependencies)
    case _ => false
  }

  /** A record is reported for exactly its reasons. */
  lemma RecordCodesExactly(malformed: AssetRecord -> bool, limits: Limits, c: Collected, record: AssetRecord,
                           code: Code)
    ensures code in RecordErrors(malformed, limits, c, record) <==> RecordReason(malformed, limits, c, record, code)
  {
    AdjacentAfterSorting(record.dependencies);
    FourReports(malformed(record), record.id in c.byId,
                |record.dependencies| > limits.maxDependenciesPerAsset,
                AdjacentDuplicate(SortedDependencies(record)), code);
  }

  lemma FourReports(a: bool, b: bool, c: bool, d: bool, code: Code)
    ensures code in (if a then [RecordMalformed] else []) + (if b then [IdDuplicate] else [])
                    + (if c then [DependencyLimit] else []) + (if d then [DependencyDuplicate] else [])
       <==> (a && code == RecordMalformed) || (b && code == IdDuplicate) || (c && code == DependencyLimit)
            || (d && code == DependencyDuplicate)
  {
    InFour(code, if a then [RecordMalformed] else [], if b then [IdDuplicate] else [],
           if c then [DependencyLimit] else [], if d then [DependencyDuplicate] else []);
  }

  lemma InFour<T>(x: T, a: seq<T>, b: seq<T>, c: seq<T>, d: seq<T>)
    ensures x in a + b + c + d <==> x in a || x in b || x in c || x in d
  {
    InEither(x, a + b + c, d);
    InEither(x, a + b, c);
    InEither(x, a, b);
  }

  /** A record that depends on something of that kind. */
  ghost predicate DependsOnKind(g: Graph, record: AssetRecord, kind: AssetType) {
    exists d :: d in record.dependencies && IsKind(g, d, kind)
  }

  predicate IsKind(g: Graph, id: string, kind: AssetType) {
    id in g.byId && g.byId[id] < |g.records| && g.records[g.byId[id]].assetType == kind
  }

  /** Why a record's dependencies are reported with that code: one is missing, or is audio for something that is not,
      or is a shader for something that is no material; audio and shaders themselves depend on nothing. */
  ghost predicate RuleReason(g: Graph, record: AssetRecord, code: Code) {
    match code
    case AudioDependenciesNotEmpty => record.assetType == Audio && record.dependencies != []
    case ShaderDependenciesNotEmpty => record.assetType == Shader && record.dependencies != []
    case DependencyMissing => exists d :: d in record.dependencies && d !in g.byId
    case AudioDependencyForbidden => record.assetType != Audio && DependsOnKind(g, record, Audio)
    case ShaderDependencyForbidden => record.assetType != Material && DependsOnKind(g, record, Shader)
    case _ => false
  }

  lemma RuleCodesExactly(g: Graph, record: AssetRecord, code: Code)
    requires GraphSound(g)
    ensures code in RuleErrors(g, record) <==> RuleReason(g, record, code)
  {
    var audio := if record.assetType == Audio && record.dependencies != [] then [AudioDependenciesNotEmpty] else [];
    var shader := if record.assetType == Shader && record.dependencies != [] then [ShaderDependenciesNotEmpty] else [];
    InEither(code, audio + shader, EdgesErrors(g, record, record.dependencies));
    InEither(code, audio, shader);
    EdgesReported(g, record, code);
  }

  lemma EdgesReported(g: Graph, record: AssetRecord, code: Code)
    requires GraphSound(g)
    ensures code in EdgesErrors(g, record, record.dependencies) <==>
      exists d :: d in record.dependencies && EdgeReason(g, record, d, code)
  {
    EdgeCodes(g, record, record.dependencies, code);
    forall d | d in record.dependencies ensures code in EdgeErrors(g, record, d) <==> EdgeReason(g, record, d, code) {
      EdgeReported(g, record, d, code);
    }
  }

  lemma EdgeReported(g: Graph, record: AssetRecord, d: string, code: Code)
    requires GraphSound(g)
    ensures code in EdgeErrors(g, record, d) <==> EdgeReason(g, record, d, code)
  {
  }

  ghost predicate EdgeReason(g: Graph, record: AssetRecord, d: string, code: Code) {
    match code
    case DependencyMissing => d !in g.byId
    case AudioDependencyForbidden => record.assetType != Audio && IsKind(g, d, Audio)
    case ShaderDependencyForbidden => record.assetType != Material && IsKind(g, d, Shader)
    case _ => false
  }

  lemma {:induction false} EdgeCodes(g: Graph, record: AssetRecord, dependencies: seq<string>, code: Code)
    requires GraphSound(g)
    ensures code in EdgesErrors(g, record, dependencies) <==>
      exists d :: d in dependencies && code in EdgeErrors(g, record, d)
    decreases |dependencies|
  {
    if dependencies != [] {
      var n := |dependencies| - 1;
      EdgeCodes(g, record, dependencies[..n], code);
      assert dependencies == dependencies[..n] + [dependencies[n]];
      assert code in EdgesErrors(g, record, dependencies) <==>
        code in EdgesErrors(g, record, dependencies[..n]) || code in EdgeErrors(g, record, dependencies[n]);
    }
  }
}
