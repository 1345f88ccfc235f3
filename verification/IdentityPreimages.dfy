/**
 The bytes that are hashed into content identities: of a set of resolved parameters and of prepared resources.  They do
 not depend on the order of the input, and different sets never give the same bytes.  The hash itself is not looked
 into.
 */
module IdentityPreimages {
  import opened Wrappers
  import opened LittleEndian
  import Sorting

  // ---------------------------------------------------------------- entries

  const ID_LIMIT := 0x1_0000_0000
  const WORD_LIMIT := 0x1_0000_0000_0000_0000

  /** A floating-point number is its 64-bit pattern; finite numbers are equal exactly when their patterns are, once
      negative zero is replaced by zero. */
  datatype Body = Number(bits: int) | Rational(numerator: int, denominator: int) | Weight(bits: int)
      | Digest(sha256: seq<Byte>)

  /** An identifier, byte by byte, and what is recorded for it. */
  datatype Entry = Entry(id: string, body: Body)

  const NEGATIVE_ZERO := 0x8000_0000_0000_0000

  function Normalized(bits: int): int { if bits == NEGATIVE_ZERO then 0 else bits }

  predicate IsInt64(n: int) { -NEGATIVE_ZERO <= n < NEGATIVE_ZERO }

  predicate ValidBody(body: Body) {
    match body
    case Number(bits) => 0 <= bits < WORD_LIMIT
    case Weight(bits) => 0 <= bits < WORD_LIMIT
    case Rational(n, d) => IsInt64(n) && IsInt64(d)
    case Digest(sha) => |sha| == 32
  }

  predicate ValidEntry(e: Entry) {
    |e.id| < ID_LIMIT && (forall i :: 0 <= i < |e.id| ==> e.id[i] as int < 0x100) && ValidBody(e.body)
  }

  predicate AllValid(entries: seq<Entry>) { forall i :: 0 <= i < |entries| ==> ValidEntry(entries[i]) }

  function NormalizedEntry(e: Entry): (r: Entry)
    ensures ValidEntry(e) ==> ValidEntry(r)
  {
    match e.body
    case Number(bits) => e.(body := Number(Normalized(bits)))
    case Weight(bits) => e.(body := Weight(Normalized(bits)))
    case _ => e
  }

  function Pattern(n: int): (r: int)
    requires IsInt64(n)
    ensures 0 <= r < WORD_LIMIT
  {
    if n < 0 then n + WORD_LIMIT else n
  }

  function Bytes(text: string): (r: seq<Byte>)
    requires forall i :: 0 <= i < |text| ==> text[i] as int < 0x100
    ensures |r| == |text| && forall i :: 0 <= i < |r| ==> r[i] == text[i] as int
  {
    seq(|text|, i requires 0 <= i < |text| => text[i] as int)
  }

  function BodyBytes(body: Body): seq<Byte>
    requires ValidBody(body)
  {
    match body
    case Number(bits) => [1] + U64(Normalized(bits))
    case Rational(n, d) => [2] + (U64(Pattern(n)) + U64(Pattern(d)))
    case Weight(bits) => [3] + U64(Normalized(bits))
    case Digest(sha) => sha
  }

  function EntryBytes(e: Entry): seq<Byte>
    requires ValidEntry(e)
  {
    U32(|e.id|) + (Bytes(e.id) + BodyBytes(e.body))
  }

  /** The entries from a place on, one after another. */
  function Tail(entries: seq<Entry>, from: nat): seq<Byte>
    requires AllValid(entries) && from <= |entries|
    decreases |entries| - from
  {
    if from == |entries| then [] else EntryBytes(entries[from]) + Tail(entries, from + 1)
  }

  // ---------------------------------------------------------------- the bytes decide the entries

  lemma CancelPrefix<T>(a: seq<T>, x: seq<T>, b: seq<T>, y: seq<T>)
    requires |a| == |b| && a + x == b + y
    ensures a == b && x == y
  {
    assert a == (a + x)[..|a|] && b == (b + y)[..|b|];
    assert x == (a + x)[|a|..] && y == (b + y)[|b|..];
  }

  lemma Regroup<T>(a: seq<T>, b: seq<T>, c: seq<T>)
    ensures (a + b) + c == a + (b + c)
  {
  }

  lemma {:induction false} U32Injective(m: int, n: int)
    requires 0 <= m < 0x1_0000_0000 && 0 <= n < 0x1_0000_0000 && U32(m) == U32(n)
    ensures m == n
  {
    BytesOfU32(m);
    BytesOfU32(n);
    assert forall i :: 0 <= i < 4 ==> U32(m)[i] == U32(n)[i];
  }

  lemma {:induction false} U64Injective(m: int, n: int)
    requires 0 <= m < WORD_LIMIT && 0 <= n < WORD_LIMIT && U64(m) == U64(n)
    ensures m == n
  {
    CancelPrefix(U32(m % 0x1_0000_0000), U32(m / 0x1_0000_0000), U32(n % 0x1_0000_0000), U32(n / 0x1_0000_0000));
    U32Injective(m % 0x1_0000_0000, n % 0x1_0000_0000);
    U32Injective(m / 0x1_0000_0000, n / 0x1_0000_0000);
  }

  /** Entries of one list: parameters, or resources. */
  predicate Kin(a: Entry, b: Entry) { a.body.Digest? <==> b.body.Digest? }

  /** An entry's bytes tell where they end and which entry it is, up to the sign of zero. */
  lemma {:induction false} EntryIsReadBack(a: Entry, x: seq<Byte>, b: Entry, y: seq<Byte>)
    requires ValidEntry(a) && ValidEntry(b) && Kin(a, b) && EntryBytes(a) + x == EntryBytes(b) + y
    ensures NormalizedEntry(a) == NormalizedEntry(b) && x == y
  {
    var p, q := Bytes(a.id) + BodyBytes(a.body), Bytes(b.id) + BodyBytes(b.body);
    Regroup(U32(|a.id|), p, x);
    Regroup(U32(|b.id|), q, y);
    CancelPrefix(U32(|a.id|), p + x, U32(|b.id|), q + y);
    U32Injective(|a.id|, |b.id|);
    Regroup(Bytes(a.id), BodyBytes(a.body), x);
    Regroup(Bytes(b.id), BodyBytes(b.body), y);
    CancelPrefix(Bytes(a.id), BodyBytes(a.body) + x, Bytes(b.id), BodyBytes(b.body) + y);
    SameText(a.id, b.id);
    BodyIsReadBack(a.body, x, b.body, y);
  }

  lemma SameText(a: string, b: string)
    requires |a| == |b| && (forall i :: 0 <= i < |a| ==> a[i] as int < 0x100)
    requires (forall i :: 0 <= i < |b| ==> b[i] as int < 0x100)
    requires Bytes(a) == Bytes(b)
    ensures a == b
  {
    forall i | 0 <= i < |a| ensures a[i] == b[i] { assert Bytes(a)[i] == Bytes(b)[i]; }
  }

  function Tag(body: Body): Byte
    requires !body.Digest?
  {
    match body case Number(_) => 1 case Rational(_, _) => 2 case Weight(_) => 3
  }

  function Payload(body: Body): seq<Byte>
    requires ValidBody(body) && !body.Digest?
  {
    match body
    case Number(bits) => U64(Normalized(bits))
    case Rational(n, d) => U64(Pattern(n)) + U64(Pattern(d))
    case Weight(bits) => U64(Normalized(bits))
  }

  lemma {:induction false} BodyIsReadBack(a: Body, x: seq<Byte>, b: Body, y: seq<Byte>)
    requires ValidBody(a) && ValidBody(b) && (a.Digest? <==> b.Digest?) && BodyBytes(a) + x == BodyBytes(b) + y
    ensures NormalizedEntry(Entry("", a)) == NormalizedEntry(Entry("", b)) && x == y
  {
    if a.Digest? {
      CancelPrefix(a.sha256, x, b.sha256, y);
    } else {
      Regroup([Tag(a)], Payload(a), x);
      Regroup([Tag(b)], Payload(b), y);
      CancelPrefix([Tag(a)], Payload(a) + x, [Tag(b)], Payload(b) + y);
      assert [Tag(a)][0] == [Tag(b)][0];
      CancelPrefix(Payload(a), x, Payload(b), y);
      PayloadIsReadBack(a, b);
    }
  }

  lemma {:induction false} PayloadIsReadBack(a: Body, b: Body)
    requires ValidBody(a) && ValidBody(b) && !a.Digest? && !b.Digest? && Tag(a) == Tag(b) && Payload(a) == Payload(b)
    ensures NormalizedEntry(Entry("", a)) == NormalizedEntry(Entry("", b))
  {
    if a.Rational? {
      CancelPrefix(U64(Pattern(a.numerator)), U64(Pattern(a.denominator)), U64(Pattern(b.numerator)),
                   U64(Pattern(b.denominator)));
      U64Injective(Pattern(a.numerator), Pattern(b.numerator));
      U64Injective(Pattern(a.denominator), Pattern(b.denominator));
    } else {
      U64Injective(Normalized(a.bits), Normalized(b.bits));
    }
  }

  ghost predicate AllKin(a: seq<Entry>, b: seq<Entry>) {
    forall i, j :: 0 <= i < |a| && 0 <= j < |b| ==> Kin(a[i], b[j])
  }

  ghost function NormalizedAll(entries: seq<Entry>): (r: seq<Entry>)
    ensures |r| == |entries| && forall i :: 0 <= i < |r| ==> r[i] == NormalizedEntry(entries[i])
  {
    seq(|entries|, i requires 0 <= i < |entries| => NormalizedEntry(entries[i]))
  }

  /** The lists go on alike from a place: their bytes from there are the same. */
  ghost predicate AgreeFrom(a: seq<Entry>, b: seq<Entry>, from: nat, layers: nat := 3)
    requires AllValid(a) && AllValid(b) && from <= |a| && from <= |b|
    decreases from, layers
  {
    if layers == 0 then Tail(a, from) == Tail(b, from) else AgreeFrom(a, b, from, layers - 1)
  }

  lemma {:induction false} AgreeFromIs(a: seq<Entry>, b: seq<Entry>, from: nat, layers: nat := 3)
    requires AllValid(a) && AllValid(b) && from <= |a| && from <= |b|
    ensures AgreeFrom(a, b, from, layers) <==> Tail(a, from) == Tail(b, from)
    decreases layers
  {
    if layers > 0 { AgreeFromIs(a, b, from, layers - 1); }
  }

  lemma {:induction false} AgreementStep(a: seq<Entry>, b: seq<Entry>, from: nat)
    requires AllValid(a) && AllValid(b) && AllKin(a, b) && from <= |a| && from <= |b| && AgreeFrom(a, b, from)
    ensures from == |a| <==> from == |b|
    ensures from < |a| && from < |b| ==>
      NormalizedEntry(a[from]) == NormalizedEntry(b[from]) && AgreeFrom(a, b, from + 1)
  {
    AgreeFromIs(a, b, from);
    TailIsLonger(a, from);
    TailIsLonger(b, from);
    if from < |a| && from < |b| {
      EntryIsReadBack(a[from], Tail(a, from + 1), b[from], Tail(b, from + 1));
      AgreeFromIs(a, b, from + 1);
    }
  }

  /** Two lists give the same bytes only when they are the same list, up to the sign of zero. */
  lemma {:induction false} ListIsReadBack(a: seq<Entry>, b: seq<Entry>, from: nat)
    requires AllValid(a) && AllValid(b) && AllKin(a, b) && from <= |a| && from <= |b| && AgreeFrom(a, b, from)
    ensures |a| == |b| && forall k :: from <= k < |a| ==> NormalizedEntry(a[k]) == NormalizedEntry(b[k])
    decreases |a| - from
  {
    AgreementStep(a, b, from);
    if from < |a| { ListIsReadBack(a, b, from + 1); }
  }

  lemma TailIsLonger(entries: seq<Entry>, from: nat)
    requires AllValid(entries) && from <= |entries|
    ensures Tail(entries, from) == [] <==> from == |entries|
  {
  }

  lemma {:induction false} SameWhenNormalized(a: seq<Entry>, b: seq<Entry>)
    requires AllValid(a) && AllValid(b) && AllKin(a, b) && Tail(a, 0) == Tail(b, 0)
    ensures NormalizedAll(a) == NormalizedAll(b)
  {
    AgreeFromIs(a, b, 0);
    ListIsReadBack(a, b, 0);
  }

  // ---------------------------------------------------------------- the order of the input

  predicate IdBefore(a: Entry, b: Entry) { Sorting.StringLess(a.id, b.id) }

  ghost predicate DistinctIds(entries: seq<Entry>) {
    forall i, j :: 0 <= i < j < |entries| ==> entries[i].id != entries[j].id
  }

  lemma IdsAreTotal(entries: seq<Entry>)
    requires DistinctIds(entries)
    ensures Sorting.Distinct(entries) && Sorting.TotalOn(IdBefore, entries)
  {
    forall x | x in entries ensures !IdBefore(x, x) { Sorting.StringLessIrreflexive(x.id); }
    forall x, y | x in entries && y in entries && x != y ensures IdBefore(x, y) || IdBefore(y, x) {
      Sorting.StringLessConnected(x.id, y.id);
    }
    forall x, y, z | x in entries && y in entries && z in entries && IdBefore(x, y) && IdBefore(y, z)
        ensures IdBefore(x, z) {
      Sorting.StringLessTransitive(x.id, y.id, z.id);
    }
  }

  lemma SortedValid(entries: seq<Entry>)
    requires AllValid(entries)
    ensures AllValid(Sorting.Sort(IdBefore, entries))
    ensures forall e :: e in Sorting.Sort(IdBefore, entries) <==> e in entries
  {
    var sorted := Sorting.Sort(IdBefore, entries);
    Sorting.SameMultisetSameMembers(sorted, entries);
    forall i | 0 <= i < |sorted| ensures ValidEntry(sorted[i]) { assert sorted[i] in sorted; }
  }

  /** The bytes of a set of entries that are already normalized, as resolved parameters and resources are. */
  function SetBytes(entries: seq<Entry>): seq<Byte>
    requires AllValid(entries)
  {
    SortedValid(entries);
    Tail(Sorting.Sort(IdBefore, entries), 0)
  }

  ghost predicate AreNormalized(entries: seq<Entry>) {
    forall i :: 0 <= i < |entries| ==> NormalizedEntry(entries[i]) == entries[i]
  }

  /** Two sets give the same bytes exactly when they are the same set, whatever order they come in. */
  lemma {:induction false} BytesDecideSet(a: seq<Entry>, b: seq<Entry>)
    requires AllValid(a) && AllValid(b) && AllKin(a, b) && DistinctIds(a) && DistinctIds(b) && AreNormalized(a)
    requires AreNormalized(b)
    ensures SetBytes(a) == SetBytes(b) <==> (forall e :: e in a <==> e in b)
  {
    var p, q := Sorting.Sort(IdBefore, a), Sorting.Sort(IdBefore, b);
    SortedValid(a);
    SortedValid(b);
    if forall e :: e in a <==> e in b {
      IdsAreTotal(a);
      IdsAreTotal(b);
      Sorting.SortIgnoresOrder(IdBefore, a, b);
    }
    if SetBytes(a) == SetBytes(b) {
      SortedKin(a, b);
      SameWhenNormalized(p, q);
      SortedNormalized(a);
      SortedNormalized(b);
      assert p == NormalizedAll(p) && q == NormalizedAll(q);
    }
  }

  lemma SortedKin(a: seq<Entry>, b: seq<Entry>)
    requires AllKin(a, b)
    ensures AllKin(Sorting.Sort(IdBefore, a), Sorting.Sort(IdBefore, b))
  {
    var p, q := Sorting.Sort(IdBefore, a), Sorting.Sort(IdBefore, b);
    Sorting.SameMultisetSameMembers(p, a);
    Sorting.SameMultisetSameMembers(q, b);
    forall i, j | 0 <= i < |p| && 0 <= j < |q| ensures Kin(p[i], q[j]) {
      assert p[i] in p && p[i] in a && q[j] in q && q[j] in b;
    }
  }

  lemma SortedNormalized(entries: seq<Entry>)
    requires AreNormalized(entries)
    ensures AreNormalized(Sorting.Sort(IdBefore, entries))
  {
    var sorted := Sorting.Sort(IdBefore, entries);
    Sorting.SameMultisetSameMembers(sorted, entries);
    forall i | 0 <= i < |sorted|
        ensures NormalizedEntry(sorted[i]) == sorted[i] { assert sorted[i] in sorted && sorted[i] in entries; }
  }

  // ---------------------------------------------------------------- parameter sets

  const PARAMETER_DOMAIN := "cuexis.parameter-set.v1"

  function Ascii(text: string): (r: seq<Byte>)
    ensures |r| == |text|
  {
    seq(|text|, i requires 0 <= i < |text| => text[i] as int % 0x100)
  }

  /** What parameterIdentity feeds the hash: the domain with its final zero, then every parameter. */
  function ParameterPreimage(values: seq<Entry>): seq<Byte>
    requires AllValid(values)
  {
    Ascii(PARAMETER_DOMAIN) + ([0] + Tail(values, 0))
  }

  method ParameterIdentity(values: seq<Entry>) returns (fed: seq<Byte>)
    requires AllValid(values)
    ensures fed == ParameterPreimage(values)
  {
    fed := Ascii(PARAMETER_DOMAIN) + [0];
    Regroup(Ascii(PARAMETER_DOMAIN), [0], Tail(values, 0));
    ghost var all := ParameterPreimage(values);
    for i := 0 to |values|
      invariant fed + Tail(values, i) == all
    {
      var e := values[i];
      FedEntry(fed, e, Tail(values, i + 1));
      fed := fed + U32(|e.id|) + Bytes(e.id) + BodyBytes(e.body);
    }
    assert fed + [] == fed;
  }

  lemma FedEntry(before: seq<Byte>, e: Entry, rest: seq<Byte>)
    requires ValidEntry(e)
    ensures before + (EntryBytes(e) + rest) == before + U32(|e.id|) + Bytes(e.id) + BodyBytes(e.body) + rest
  {
  }

  /** Resolving normalizes and sorts: the identity's preimage is the same exactly for the same set of parameters. */
  lemma {:induction false} ParameterSetsDecide(a: seq<Entry>, b: seq<Entry>)
    requires AllValid(a) && AllValid(b) && AllKin(a, b) && DistinctIds(a) && DistinctIds(b) && AreNormalized(a)
    requires AreNormalized(b)
    ensures AllValid(Sorting.Sort(IdBefore, a)) && AllValid(Sorting.Sort(IdBefore, b))
    ensures ParameterPreimage(Sorting.Sort(IdBefore, a)) == ParameterPreimage(Sorting.Sort(IdBefore, b)) <==>
      (forall e :: e in a <==> e in b)
  {
    SortedValid(a);
    SortedValid(b);
    BytesDecideSet(a, b);
    var domain := Ascii(PARAMETER_DOMAIN);
    if ParameterPreimage(Sorting.Sort(IdBefore, a)) == ParameterPreimage(Sorting.Sort(IdBefore, b)) {
      CancelPrefix(domain, [0] + SetBytes(a), domain, [0] + SetBytes(b));
      CancelPrefix([0], SetBytes(a), [0], SetBytes(b));
    }
  }

  // ---------------------------------------------------------------- prepared resources

  datatype IdentityError = ResourceCount | ResourceInvalid | ResourceDuplicate

  const PREPARED_DOMAIN := "cuexis.prepared-semantic.v5.candidate.1"

  predicate IsResource(e: Entry) {
    e.body.Digest? && |e.body.sha256| == 32 && forall i :: 0 <= i < |e.id| ==> e.id[i] as int < 0x100
  }

  predicate AllResources(entries: seq<Entry>) { forall i :: 0 <= i < |entries| ==> IsResource(entries[i]) }

  /** The domain, a version, the identity of the semantics, and the counted resources. */
  function PreparedPreimage(semantic: seq<Byte>, sorted: seq<Entry>): seq<Byte>
    requires AllValid(sorted) && |sorted| < ID_LIMIT
  {
    Ascii(PREPARED_DOMAIN) + ([0] + (U32(1) + (semantic + (U32(|sorted|) + Tail(sorted, 0)))))
  }

  ghost predicate Assembles(resources: seq<Entry>) {
    |resources| < 0x1_0000_0000 && DistinctIds(resources) && forall i :: 0 <= i < |resources| ==>
      0 < |resources[i].id| < 0x1_0000_0000
  }

  lemma SortedResources(resources: seq<Entry>)
    requires AllResources(resources)
    ensures AllResources(Sorting.Sort(IdBefore, resources))
    ensures Sorting.AscendingWeakly(IdBefore, Sorting.Sort(IdBefore, resources))
    ensures forall e :: e in Sorting.Sort(IdBefore, resources) <==> e in resources
  {
    var sorted := Sorting.Sort(IdBefore, resources);
    Sorting.SameMultisetSameMembers(sorted, resources);
    forall i | 0 <= i < |sorted| ensures IsResource(sorted[i]) { assert sorted[i] in sorted; }
    forall x | x in resources ensures !IdBefore(x, x) { Sorting.StringLessIrreflexive(x.id); }
    forall x, y, z | x in resources && y in resources && z in resources && IdBefore(x, y) && IdBefore(y, z)
        ensures IdBefore(x, z) {
      Sorting.StringLessTransitive(x.id, y.id, z.id);
    }
    Sorting.SortIsAscendingWeakly(IdBefore, resources);
  }

  ghost predicate NeighboursDiffer(sorted: seq<Entry>, count: nat)
    requires count <= |sorted|
  {
    forall j, k :: 0 <= j < count && 0 <= k < count && k == j + 1 ==> sorted[j].id != sorted[k].id
  }

  /** In ascending order, different neighbours mean that all differ. */
  lemma NeighboursDecide(sorted: seq<Entry>)
    requires Sorting.AscendingWeakly(IdBefore, sorted) && NeighboursDiffer(sorted, |sorted|)
    ensures DistinctIds(sorted)
  {
    forall i, j | 0 <= i < j < |sorted| ensures sorted[i].id != sorted[j].id {
      var next := i + 1;
      assert sorted[i].id != sorted[next].id && !IdBefore(sorted[next], sorted[i]);
      Sorting.StringLessConnected(sorted[i].id, sorted[next].id);
      assert next < j ==> !IdBefore(sorted[j], sorted[next]);
    }
  }

  /** Rearranging keeps identifiers distinct. */
  lemma DistinctInAnyOrder(a: seq<Entry>, b: seq<Entry>)
    requires multiset(a) == multiset(b) && DistinctIds(a)
    ensures DistinctIds(b)
  {
    IdsAreTotal(a);
    Sorting.DistinctFollowsMultiset(a, b);
    Sorting.SameMultisetSameMembers(a, b);
    forall i, j | 0 <= i < j < |b| ensures b[i].id != b[j].id {
      assert b[i] in b && b[i] in a && b[j] in b && b[j] in a && b[i] != b[j];
    }
  }

  lemma UsableInAnyOrder(resources: seq<Entry>, sorted: seq<Entry>)
    requires forall e :: e in sorted <==> e in resources
    ensures (forall i :: 0 <= i < |sorted| ==> 0 < |sorted[i].id| < ID_LIMIT) <==>
            (forall i :: 0 <= i < |resources| ==> 0 < |resources[i].id| < ID_LIMIT)
  {
    assert forall i :: 0 <= i < |sorted| ==> sorted[i] in resources;
    assert forall i :: 0 <= i < |resources| ==> resources[i] in sorted;
  }

  /** Sorts the resources, refuses unusable and repeated identifiers, and feeds the hash. */
  method AssemblePrepared(semantic: seq<Byte>, resources: seq<Entry>) returns (r: Result<seq<Byte>, IdentityError>)
    requires AllResources(resources)
    ensures r.Ok? <==> Assembles(resources)
    ensures r == Err(ResourceCount) <==> |resources| >= 0x1_0000_0000
    ensures r == Err(ResourceInvalid) <==>
      |resources| < ID_LIMIT && HasFault(Sorting.Sort(IdBefore, resources), ResourceInvalid)
    ensures r == Err(ResourceDuplicate) <==>
      |resources| < ID_LIMIT && HasFault(Sorting.Sort(IdBefore, resources), ResourceDuplicate)
    ensures r.Ok? ==>
      && AllValid(Sorting.Sort(IdBefore, resources))
      && r.value == PreparedPreimage(semantic, Sorting.Sort(IdBefore, resources))
    ensures r == Err(ResourceDuplicate) ==> !DistinctIds(resources)
    ensures r == Err(ResourceInvalid) ==> !(forall i :: 0 <= i < |resources| ==> Usable(resources[i]))
  {
    var sorted := Sorting.Sort(IdBefore, resources);
    SortedResources(resources);
    if |sorted| >= ID_LIMIT { return Err(ResourceCount); }
    UsableInAnyOrder(resources, sorted);
    var fault := FaultOf(sorted);
    DistinctBothWays(resources, sorted);
    r := if fault.Some? then Err(fault.value) else Ok(PreparedPreimage(semantic, sorted));
  }

  predicate Usable(e: Entry) { 0 < |e.id| < ID_LIMIT }

  /** In ascending order, the first identifier that is unusable or repeats the one before. */
  ghost predicate FirstFault(sorted: seq<Entry>, i: nat, fault: IdentityError) {
    && i < |sorted| && NeighboursDiffer(sorted, i) && (forall j :: 0 <= j < i ==> Usable(sorted[j]))
    && if !Usable(sorted[i]) then fault == ResourceInvalid
       else fault == ResourceDuplicate && i > 0 && sorted[i].id == sorted[i - 1].id
  }

  lemma NoneBeforeTheFirst(sorted: seq<Entry>, i: nat, e: IdentityError, j: nat, f: IdentityError)
    requires FirstFault(sorted, i, e) && FirstFault(sorted, j, f)
    ensures j <= i
  {
  }

  lemma FirstDecides(sorted: seq<Entry>, i: nat, e: IdentityError)
    requires FirstFault(sorted, i, e)
    ensures forall f :: HasFault(sorted, f) <==> f == e
  {
    forall f | HasFault(sorted, f) ensures f == e {
      var j :| FirstFault(sorted, j, f);
      NoneBeforeTheFirst(sorted, i, e, j, f);
      NoneBeforeTheFirst(sorted, j, f, i, e);
    }
  }

  /** The fault there is, if any. */
  ghost predicate HasFault(sorted: seq<Entry>, fault: IdentityError) { exists i :: FirstFault(sorted, i, fault) }

  /** The first unusable identifier, or the first that repeats its neighbour. */
  method FaultOf(sorted: seq<Entry>) returns (fault: Option<IdentityError>)
    requires Sorting.AscendingWeakly(IdBefore, sorted)
    ensures forall e :: fault == Some(e) <==> HasFault(sorted, e)
    ensures fault.None? <==> DistinctIds(sorted) && forall i :: 0 <= i < |sorted| ==> Usable(sorted[i])
    ensures fault == Some(ResourceDuplicate) ==> !DistinctIds(sorted)
    ensures fault == Some(ResourceInvalid) ==> !(forall i :: 0 <= i < |sorted| ==> Usable(sorted[i]))
    ensures fault.Some? ==> fault.value in {ResourceDuplicate, ResourceInvalid}
  {
    for i := 0 to |sorted|
      invariant forall j :: 0 <= j < i ==> Usable(sorted[j])
      invariant NeighboursDiffer(sorted, i)
    {
      if |sorted[i].id| == 0 || |sorted[i].id| >= ID_LIMIT {
        FirstDecides(sorted, i, ResourceInvalid);
        return Some(ResourceInvalid);
      }
      if i > 0 && sorted[i].id == sorted[i - 1].id {
        FirstDecides(sorted, i, ResourceDuplicate);
        return Some(ResourceDuplicate);
      }
    }
    NeighboursDecide(sorted);
    fault := None;
  }

  lemma DistinctBothWays(a: seq<Entry>, b: seq<Entry>)
    requires multiset(a) == multiset(b)
    ensures DistinctIds(a) <==> DistinctIds(b)
  {
    if DistinctIds(a) { DistinctInAnyOrder(a, b); }
    if DistinctIds(b) { DistinctInAnyOrder(b, a); }
  }

  /** Assembled identities have the same preimage exactly for the same semantics and the same set of resources. */
  lemma {:induction false} PreparedSetsDecide(s: seq<Byte>, a: seq<Entry>, t: seq<Byte>, b: seq<Entry>)
    requires |s| == |t| == 32 && AllResources(a) && AllResources(b) && Assembles(a) && Assembles(b)
    ensures AllValid(Sorting.Sort(IdBefore, a)) && AllValid(Sorting.Sort(IdBefore, b))
    ensures PreparedPreimage(s, Sorting.Sort(IdBefore, a)) == PreparedPreimage(t, Sorting.Sort(IdBefore, b)) <==>
            s == t && (forall e :: e in a <==> e in b)
  {
    SortedValid(a);
    SortedValid(b);
    BytesDecideSet(a, b);
    if PreparedPreimage(s, Sorting.Sort(IdBefore, a)) == PreparedPreimage(t, Sorting.Sort(IdBefore, b)) {
      PreparedIsReadBack(s, Sorting.Sort(IdBefore, a), t, Sorting.Sort(IdBefore, b));
    }
    if forall e :: e in a <==> e in b {
      IdsAreTotal(a);
      Sorting.DistinctSameMembers(a, b);
      IdsAreTotal(b);
    }
  }

  lemma PreparedIsReadBack(s: seq<Byte>, p: seq<Entry>, t: seq<Byte>, q: seq<Entry>)
    requires |s| == |t| && AllValid(p) && AllValid(q) && |p| < ID_LIMIT && |q| < ID_LIMIT
    requires PreparedPreimage(s, p) == PreparedPreimage(t, q)
    ensures s == t && Tail(p, 0) == Tail(q, 0)
  {
    var domain := Ascii(PREPARED_DOMAIN);
    var x, y := U32(|p|) + Tail(p, 0), U32(|q|) + Tail(q, 0);
    CancelPrefix(domain, [0] + (U32(1) + (s + x)), domain, [0] + (U32(1) + (t + y)));
    CancelPrefix([0], U32(1) + (s + x), [0], U32(1) + (t + y));
    CancelPrefix(U32(1), s + x, U32(1), t + y);
    CancelPrefix(s, x, t, y);
    CancelPrefix(U32(|p|), Tail(p, 0), U32(|q|), Tail(q, 0));
  }

  // ---------------------------------------------------------------- two preimages, byte by byte

  /** A number, a fraction and a negative zero: lengths, identifiers, tags and values, each the least significant byte
      first. */
  lemma ParameterExample()
    ensures var values := [Entry("a", Number(5)), Entry("bc", Rational(-1, 2)),
                           Entry("d", Weight(0x8000_0000_0000_0000))];
      && AllValid(values)
      && ParameterPreimage(values)
         == Ascii("cuexis.parameter-set.v1") + [0]
            + ([1, 0, 0, 0, 97, 1, 5, 0, 0, 0, 0, 0, 0, 0]
               + ([2, 0, 0, 0, 98, 99, 2, 255, 255, 255, 255, 255, 255, 255, 255, 2, 0, 0, 0, 0, 0, 0, 0]
                  + [1, 0, 0, 0, 100, 3, 0, 0, 0, 0, 0, 0, 0, 0]))
  {
    var a, b, c := Entry("a", Number(5)), Entry("bc", Rational(-1, 2)), Entry("d", Weight(0x8000_0000_0000_0000));
    NumberExample();
    FractionExample();
    ZeroExample();
    TailOfThree(a, b, c);
  }

  lemma NumberExample()
    ensures EntryBytes(Entry("a", Number(5))) == [1, 0, 0, 0, 97, 1, 5, 0, 0, 0, 0, 0, 0, 0]
  {
  }

  lemma ZeroExample()
    ensures EntryBytes(Entry("d", Weight(0x8000_0000_0000_0000))) == [1, 0, 0, 0, 100, 3, 0, 0, 0, 0, 0, 0, 0, 0]
  {
  }

  lemma FractionExample()
    ensures EntryBytes(Entry("bc", Rational(-1, 2)))
         == [2, 0, 0, 0, 98, 99, 2, 255, 255, 255, 255, 255, 255, 255, 255, 2, 0, 0, 0, 0, 0, 0, 0]
  {
  }

  lemma TailOfThree(a: Entry, b: Entry, c: Entry)
    requires ValidEntry(a) && ValidEntry(b) && ValidEntry(c)
    ensures Tail([a, b, c], 0) == EntryBytes(a) + (EntryBytes(b) + EntryBytes(c))
  {
    var values := [a, b, c];
    assert Tail(values, 3) == [];
    assert Tail(values, 2) == EntryBytes(c) + [];
    assert Tail(values, 1) == EntryBytes(b) + Tail(values, 2);
    assert Tail(values, 0) == EntryBytes(a) + Tail(values, 1);
  }

  /** One resource behind a semantic identity: version one, the identity, the count, the identifier and its digest. */
  lemma PreparedExample(semantic: seq<Byte>, sha: seq<Byte>)
    requires |sha| == 32
    ensures AllValid([Entry("x", Digest(sha))])
    ensures PreparedPreimage(semantic, [Entry("x", Digest(sha))])
         == Ascii("cuexis.prepared-semantic.v5.candidate.1") + [0]
            + ([1, 0, 0, 0] + (semantic + ([1, 0, 0, 0] + ([1, 0, 0, 0, 120] + sha))))
  {
    var x := Entry("x", Digest(sha));
    assert EntryBytes(x) == [1, 0, 0, 0, 120] + sha;
    assert Tail([x], 1) == [];
    assert Tail([x], 0) == EntryBytes(x) + [];
  }
}
