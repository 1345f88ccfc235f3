/**
 The sorting the engine relies on.  std::sort is modelled by a sort function; where the keys are
 distinct its result is the only ascending arrangement, so nothing depends on the algorithm.
 */
module Sorting {

  /** less is a strict total order on these elements. */
  ghost predicate TotalOn<T(!new)>(less: (T, T) -> bool, s: seq<T>) {
    && (forall x :: x in s ==> !less(x, x))
    && (forall x, y :: x in s && y in s && x != y ==> less(x, y) || less(y, x))
    && (forall x, y, z :: x in s && y in s && z in s && less(x, y) && less(y, z) ==> less(x, z))
  }

  /** less is a strict order on these elements; different ones may be equally placed. */
  ghost predicate OrderOn<T(!new)>(less: (T, T) -> bool, s: seq<T>) {
    && (forall x :: x in s ==> !less(x, x))
    && (forall x, y, z :: x in s && y in s && z in s && less(x, y) && less(y, z) ==> less(x, z))
  }

  ghost predicate Distinct<T(!new)>(s: seq<T>) {
    forall i, j :: 0 <= i < j < |s| ==> s[i] != s[j]
  }

  ghost predicate Ascending<T(!new)>(less: (T, T) -> bool, s: seq<T>) {
    forall i, j :: 0 <= i < j < |s| ==> less(s[i], s[j])
  }

  function Insert<T>(less: (T, T) -> bool, x: T, s: seq<T>): (r: seq<T>)
    ensures multiset(r) == multiset(s) + multiset{x}
    ensures |r| == |s| + 1
  {
    if s == [] then [x]
    else if less(x, s[0]) then [x] + s
    else
      assert s == [s[0]] + s[1..];
      [s[0]] + Insert(less, x, s[1..])
  }

  /** Rearranges: the result has the same elements, as often. */
  function Sort<T>(less: (T, T) -> bool, s: seq<T>): (r: seq<T>)
    ensures multiset(r) == multiset(s) && |r| == |s|
  {
    if s == [] then []
    else
      assert s == [s[0]] + s[1..];
      Insert(less, s[0], Sort(less, s[1..]))
  }

  lemma SameMultisetSameMembers<T(!new)>(s: seq<T>, t: seq<T>)
    requires multiset(s) == multiset(t)
    ensures forall x :: x in s <==> x in t
  {
    forall x ensures x in s <==> x in t { assert x in s <==> x in multiset(s); assert x in t <==> x in multiset(t); }
  }

  lemma {:induction false} InsertAscends<T(!new)>(less: (T, T) -> bool, x: T, s: seq<T>)
    requires Ascending(less, s) && TotalOn(less, [x] + s) && x !in s
    ensures Ascending(less, Insert(less, x, s))
    decreases |s|
  {
    if s == [] {
    } else if less(x, s[0]) {
      forall j | 0 <= j < |s| ensures less(x, s[j]) {
        assert s[0] in [x] + s && s[j] in [x] + s && x in [x] + s;
      }
    } else {
      assert x in [x] + s && s[0] in [x] + s;
      assert less(s[0], x);
      forall y | y in [x] + s[1..] ensures y in [x] + s { }
      InsertAscends(less, x, s[1..]);
      var rest := Insert(less, x, s[1..]);
      SameMultisetSameMembers(rest, s[1..] + [x]);
      forall j | 0 <= j < |rest| ensures less(s[0], rest[j]) {
        assert rest[j] in rest;
        assert rest[j] in s[1..] + [x];
        if rest[j] != x {
          var k :| 0 <= k < |s[1..]| && s[1..][k] == rest[j];
          assert less(s[0], s[k + 1]);
        }
      }
    }
  }

  /** Distinct elements come out strictly ascending. */
  lemma {:induction false} SortAscends<T(!new)>(less: (T, T) -> bool, s: seq<T>)
    requires TotalOn(less, s) && Distinct(s)
    ensures Ascending(less, Sort(less, s))
    decreases |s|
  {
    if s != [] {
      forall y | y in s[1..] ensures y in s { }
      SortAscends(less, s[1..]);
      var rest := Sort(less, s[1..]);
      SameMultisetSameMembers(rest, s[1..]);
      forall y | y in [s[0]] + rest ensures y in s {
        if y != s[0] { assert y in rest; assert y in s[1..]; }
      }
      InsertAscends(less, s[0], rest);
    }
  }

  /** No element is before an earlier one. */
  ghost predicate AscendingWeakly<T(!new)>(less: (T, T) -> bool, s: seq<T>) {
    forall i, j :: 0 <= i < j < |s| ==> !less(s[j], s[i])
  }

  lemma {:induction false} InsertAscendsWeakly<T(!new)>(less: (T, T) -> bool, x: T, s: seq<T>)
    requires AscendingWeakly(less, s) && OrderOn(less, [x] + s)
    ensures AscendingWeakly(less, Insert(less, x, s))
    decreases |s|
  {
    if s == [] {
    } else if less(x, s[0]) {
      forall j | 0 <= j < |s| ensures !less(s[j], x) {
        assert s[0] in [x] + s && s[j] in [x] + s && x in [x] + s;
      }
    } else {
      forall y | y in [x] + s[1..] ensures y in [x] + s { }
      InsertAscendsWeakly(less, x, s[1..]);
      var rest := Insert(less, x, s[1..]);
      SameMultisetSameMembers(rest, s[1..] + [x]);
      forall j | 0 <= j < |rest| ensures !less(rest[j], s[0]) {
        assert rest[j] in rest && rest[j] in s[1..] + [x];
        if rest[j] != x {
          var k :| 0 <= k < |s[1..]| && s[1..][k] == rest[j];
          assert !less(s[k + 1], s[0]);
        }
      }
    }
  }

  lemma {:induction false} SortIsAscendingWeakly<T(!new)>(less: (T, T) -> bool, s: seq<T>)
    requires OrderOn(less, s)
    ensures AscendingWeakly(less, Sort(less, s))
    decreases |s|
  {
    if s != [] {
      forall y | y in s[1..] ensures y in s { }
      SortIsAscendingWeakly(less, s[1..]);
      var rest := Sort(less, s[1..]);
      SameMultisetSameMembers(rest, s[1..]);
      forall y | y in [s[0]] + rest ensures y in s {
        if y != s[0] { assert y in rest; assert y in s[1..]; }
      }
      InsertAscendsWeakly(less, s[0], rest);
    }
  }

  /** There is only one ascending arrangement of a collection. */
  lemma {:induction false} AscendingIsUnique<T(!new)>(less: (T, T) -> bool, s: seq<T>, t: seq<T>)
    requires Ascending(less, s) && Ascending(less, t) && TotalOn(less, s)
    requires forall x :: x in s <==> x in t
    ensures s == t
    decreases |s|
  {
    if s == [] {
      if t != [] { EmptyHasNoMember(t, s); }
    } else {
      assert s[0] in s && s[0] in t;
      SharedHead(less, s, t);
      forall x ensures x in s[1..] <==> x in t[1..] {
        MemberOfTail(less, s, x);
        assert TotalOn(less, t);
        MemberOfTail(less, t, x);
      }
      AscendingIsUnique(less, s[1..], t[1..]);
      assert s == [s[0]] + s[1..] && t == [t[0]] + t[1..];
    }
  }

  lemma EmptyHasNoMember<T(!new)>(t: seq<T>, s: seq<T>)
    requires t != [] && forall x :: x in t ==> x in s
    ensures s != []
  {
    assert t[0] in t;
  }

  lemma SharedHead<T(!new)>(less: (T, T) -> bool, s: seq<T>, t: seq<T>)
    requires s != [] && Ascending(less, s) && Ascending(less, t) && TotalOn(less, s)
    requires forall x :: x in s <==> x in t
    ensures t != [] && s[0] == t[0]
  {
    assert s[0] in s;
    assert t[0] in t;
    var i :| 0 <= i < |s| && s[i] == t[0];
    var j :| 0 <= j < |t| && t[j] == s[0];
  }

  lemma MemberOfTail<T(!new)>(less: (T, T) -> bool, s: seq<T>, x: T)
    requires s != [] && Ascending(less, s) && TotalOn(less, s)
    ensures x in s[1..] <==> x in s && x != s[0]
  {
    assert s == [s[0]] + s[1..];
    if x in s[1..] {
      var i :| 0 <= i < |s[1..]| && s[1..][i] == x;
      assert less(s[0], s[i + 1]);
    }
  }

  lemma TotalOnMembers<T(!new)>(less: (T, T) -> bool, s: seq<T>, t: seq<T>)
    requires TotalOn(less, s) && forall x :: x in t ==> x in s
    ensures TotalOn(less, t)
  {
  }

  /** Sorting forgets the order its input came in. */
  lemma SortIgnoresOrder<T(!new)>(less: (T, T) -> bool, s: seq<T>, t: seq<T>)
    requires TotalOn(less, s) && Distinct(s) && Distinct(t)
    requires forall x :: x in s <==> x in t
    ensures Sort(less, s) == Sort(less, t)
  {
    SortAscends(less, s);
    TotalOnMembers(less, s, t);
    SortAscends(less, t);
    SameMultisetSameMembers(Sort(less, s), s);
    SameMultisetSameMembers(Sort(less, t), t);
    TotalOnMembers(less, s, Sort(less, s));
    AscendingIsUnique(less, Sort(less, s), Sort(less, t));
  }

  lemma AscendingIsDistinct<T(!new)>(less: (T, T) -> bool, s: seq<T>)
    requires Ascending(less, s) && TotalOn(less, s)
    ensures Distinct(s)
  {
    forall i, j | 0 <= i < j < |s| ensures s[i] != s[j] { assert less(s[i], s[j]); }
  }

  lemma SortKeepsAscending<T(!new)>(less: (T, T) -> bool, s: seq<T>)
    requires Ascending(less, s) && TotalOn(less, s)
    ensures Sort(less, s) == s
  {
    AscendingIsDistinct(less, s);
    SortAscends(less, s);
    SameMultisetSameMembers(Sort(less, s), s);
    AscendingIsUnique(less, s, Sort(less, s));
  }

  lemma DistinctFollowsMultiset<T(!new)>(s: seq<T>, t: seq<T>)
    requires Distinct(s) && multiset(s) == multiset(t)
    ensures Distinct(t)
  {
    forall i, j | 0 <= i < j < |t| ensures t[i] != t[j] {
      if t[i] == t[j] {
        TwiceInMultiset(t, i, j);
        OnceInMultiset(s, t[i]);
      }
    }
  }

  lemma DistinctSameMembers<T(!new)>(s: seq<T>, t: seq<T>)
    requires Distinct(s) && Distinct(t) && forall x :: x in s <==> x in t
    ensures multiset(s) == multiset(t)
  {
    forall x ensures multiset(s)[x] == multiset(t)[x] {
      OnceInMultiset(s, x);
      OnceInMultiset(t, x);
      assert x in multiset(s) <==> x in s;
      assert x in multiset(t) <==> x in t;
    }
  }

  lemma TwiceInMultiset<T(!new)>(t: seq<T>, i: nat, j: nat)
    requires i < j < |t| && t[i] == t[j]
    ensures multiset(t)[t[i]] >= 2
  {
    assert t == t[..i] + [t[i]] + t[i + 1..j] + [t[j]] + t[j + 1..];
  }

  lemma {:induction false} OnceInMultiset<T(!new)>(s: seq<T>, x: T)
    requires Distinct(s)
    ensures multiset(s)[x] <= 1
    decreases |s|
  {
    if s != [] {
      assert s == [s[0]] + s[1..];
      OnceInMultiset(s[1..], x);
      assert forall i :: 0 <= i < |s[1..]| ==> s[1..][i] == s[i + 1];
    }
  }

  // ---------------------------------------------------------------- counting

  lemma SameSingle<T>(a: seq<T>, b: seq<T>)
    requires multiset(a) == multiset(b)
    ensures |a| == |b| && (|a| == 1 ==> a == b)
  {
    assert |a| == |multiset(a)| == |multiset(b)| == |b|;
    if |a| == 1 {
      assert a == [a[0]] && b == [b[0]];
      assert a[0] in multiset(b);
    }
  }

  function Occurrences<T(==)>(s: seq<T>, count: nat, x: T): nat
    requires count <= |s|
  {
    if count == 0 then 0 else Occurrences(s, count - 1, x) + if s[count - 1] == x then 1 else 0
  }

  lemma {:induction false} OccurrencesOfPrefix<T>(s: seq<T>, t: seq<T>, count: nat, x: T)
    requires count <= |s| && count <= |t| && forall i :: 0 <= i < count ==> s[i] == t[i]
    ensures Occurrences(s, count, x) == Occurrences(t, count, x)
    decreases count
  {
    if count > 0 { OccurrencesOfPrefix(s, t, count - 1, x); }
  }

  lemma OccurrencesAppend<T>(s: seq<T>, y: T, x: T)
    ensures Occurrences(s + [y], |s| + 1, x) == Occurrences(s, |s|, x) + if y == x then 1 else 0
  {
    OccurrencesOfPrefix(s + [y], s, |s|, x);
  }

  /** Counting agrees with the multiset. */
  lemma {:induction false} OccurrencesIsCount<T>(s: seq<T>, x: T)
    ensures Occurrences(s, |s|, x) == multiset(s)[x]
    decreases |s|
  {
    if s != [] {
      var n := |s| - 1;
      assert s == s[..n] + [s[n]];
      OccurrencesIsCount(s[..n], x);
      OccurrencesOfPrefix(s, s[..n], n, x);
    }
  }

  lemma {:induction false} OccurrencesJoin<T>(s: seq<T>, t: seq<T>, x: T)
    ensures Occurrences(s + t, |s| + |t|, x) == Occurrences(s, |s|, x) + Occurrences(t, |t|, x)
  {
    OccurrencesIsCount(s + t, x);
    OccurrencesIsCount(s, x);
    OccurrencesIsCount(t, x);
  }

  // ---------------------------------------------------------------- the order of identifiers

  /** The byte-wise lexicographic order of std::string. */
  predicate StringLess(a: string, b: string)
    decreases |a|
  {
    b != [] && (a == [] || a[0] < b[0] || (a[0] == b[0] && StringLess(a[1..], b[1..])))
  }

  lemma {:induction false} StringLessIrreflexive(a: string)
    ensures !StringLess(a, a)
    decreases |a|
  {
    if a != [] { StringLessIrreflexive(a[1..]); }
  }

  lemma {:induction false} StringLessConnected(a: string, b: string)
    requires a != b
    ensures StringLess(a, b) || StringLess(b, a)
    decreases |a|
  {
    if a != [] && b != [] && a[0] == b[0] {
      assert a == [a[0]] + a[1..] && b == [b[0]] + b[1..];
      StringLessConnected(a[1..], b[1..]);
    }
  }

  lemma {:induction false} StringLessTransitive(a: string, b: string, c: string)
    requires StringLess(a, b) && StringLess(b, c)
    ensures StringLess(a, c)
    decreases |a|
  {
    if a != [] && a[0] == b[0] && b[0] == c[0] { StringLessTransitive(a[1..], b[1..], c[1..]); }
  }

  lemma StringLessIsTotal(s: seq<string>)
    ensures TotalOn(StringLess, s)
  {
    forall x | x in s ensures !StringLess(x, x) { StringLessIrreflexive(x); }
    forall x, y | x in s && y in s && x != y ensures StringLess(x, y) || StringLess(y, x) { StringLessConnected(x, y); }
    forall x, y, z | x in s && y in s && z in s && StringLess(x, y) && StringLess(y, z) ensures StringLess(x, z) {
      StringLessTransitive(x, y, z);
    }
  }
}
