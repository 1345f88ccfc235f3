/**
 Chains of parents: what happens when one follows parents upwards in a map that gives every key its parent,
 if it has one.  Object hierarchies, template inheritance and entity parents are all such maps.
 */
module ParentChains {
  import opened Wrappers

  /** Following parents ends at a key without parent, ends at a key whose parent is missing, or never ends. */
  datatype Fate<K> = Rooted(root: K) | Dangling(last: K) | Endless

  ghost function EndWithin<K>(parents: map<K, Option<K>>, key: K, steps: nat): Option<Fate<K>>
    requires key in parents
  {
    match parents[key]
    case None => Some(Rooted(key))
    case Some(parent) =>
      if parent !in parents then Some(Dangling(key))
      else if steps == 0 then None else EndWithin(parents, parent, steps - 1)
  }

  ghost function FateOf<K(!new)>(parents: map<K, Option<K>>, key: K): Fate<K>
    requires key in parents
  {
    if n: nat :| EndWithin(parents, key, n).Some? then EndWithin(parents, key, n).value else Endless
  }

  lemma {:induction false} MoreSteps<K>(parents: map<K, Option<K>>, key: K, few: nat, many: nat)
    requires key in parents && few <= many && EndWithin(parents, key, few).Some?
    ensures EndWithin(parents, key, many) == EndWithin(parents, key, few)
    decreases few
  {
    if parents[key].Some? && parents[key].value in parents
      { MoreSteps(parents, parents[key].value, few - 1, many - 1); }
  }

  lemma {:induction false} FateIs<K(!new)>(parents: map<K, Option<K>>, key: K, steps: nat)
    requires key in parents && EndWithin(parents, key, steps).Some?
    ensures FateOf(parents, key) == EndWithin(parents, key, steps).value
  {
    forall n: nat | EndWithin(parents, key, n).Some?
      ensures EndWithin(parents, key, n) == EndWithin(parents, key, steps)
    {
      if n <= steps { MoreSteps(parents, key, n, steps); } else { MoreSteps(parents, key, steps, n); }
    }
  }

  /** The first step up decides: a root is its own end, a missing parent ends the chain here, and otherwise a key
      shares its parent's fate. */
  lemma {:induction false} FateOfOne<K(!new)>(parents: map<K, Option<K>>, key: K)
    requires key in parents
    ensures parents[key] == None ==> FateOf(parents, key) == Rooted(key)
    ensures parents[key].Some? && parents[key].value !in parents ==> FateOf(parents, key) == Dangling(key)
    ensures parents[key].Some? && parents[key].value in parents ==>
      FateOf(parents, key) == FateOf(parents, parents[key].value)
  {
    if parents[key].Some? && parents[key].value in parents {
      var parent := parents[key].value;
      if n: nat :| EndWithin(parents, parent, n).Some? {
        assert EndWithin(parents, key, n + 1) == EndWithin(parents, parent, n);
        FateIs(parents, parent, n);
        FateIs(parents, key, n + 1);
      } else if m: nat :| EndWithin(parents, key, m).Some? {
        assert EndWithin(parents, parent, m - 1).Some?;
      }
    } else {
      FateIs(parents, key, 0);
    }
  }

  /** A walk upwards: each key's parent comes next. */
  ghost predicate Walk<K>(parents: map<K, Option<K>>, chain: seq<K>) {
    && (forall i :: 0 <= i < |chain| ==> chain[i] in parents)
    && forall i, j :: 0 <= i && j == i + 1 && j < |chain| ==> parents[chain[i]] == Some(chain[j])
  }

  lemma WalkGrows<K>(parents: map<K, Option<K>>, chain: seq<K>, next: K)
    requires Walk(parents, chain) && next in parents && (chain != [] ==> parents[chain[|chain| - 1]] == Some(next))
    ensures Walk(parents, chain + [next])
  {
  }

  /** Everything on a walk shares the fate of where it leads. */
  lemma {:induction false} WalkSharesFate<K(!new)>(parents: map<K, Option<K>>, chain: seq<K>, i: nat, j: nat)
    requires Walk(parents, chain) && i <= j < |chain|
    ensures FateOf(parents, chain[i]) == FateOf(parents, chain[j])
    decreases j - i
  {
    if i < j {
      assert parents[chain[i]] == Some(chain[i + 1]);
      FateOfOne(parents, chain[i]);
      WalkSharesFate(parents, chain, i + 1, j);
    }
  }

  /** The key so many steps up, or the last one if the chain ends before. */
  ghost function Above<K>(parents: map<K, Option<K>>, key: K, steps: nat): (r: K)
    requires key in parents
    ensures r in parents
  {
    if steps == 0 || parents[key].None? || parents[key].value !in parents then key
    else Above(parents, parents[key].value, steps - 1)
  }

  lemma {:induction false} AboveShares<K(!new)>(parents: map<K, Option<K>>, key: K, steps: nat)
    requires key in parents
    ensures FateOf(parents, Above(parents, key, steps)) == FateOf(parents, key)
    decreases steps
  {
    FateOfOne(parents, key);
    if steps > 0 && parents[key].Some? && parents[key].value in parents {
      AboveShares(parents, parents[key].value, steps - 1);
    }
  }

  /** Keys that have all their parents among them are not left upwards. */
  ghost predicate UpwardClosed<K>(parents: map<K, Option<K>>, keys: set<K>) {
    forall k :: k in keys ==>
      && k in parents
      && (parents[k].Some? && parents[k].value in parents ==> parents[k].value in keys)
  }

  lemma {:induction false} AboveStays<K>(parents: map<K, Option<K>>, keys: set<K>, key: K, steps: nat)
    requires UpwardClosed(parents, keys) && key in keys
    ensures Above(parents, key, steps) in keys
    decreases steps
  {
    if steps > 0 && parents[key].Some? && parents[key].value in parents {
      AboveStays(parents, keys, parents[key].value, steps - 1);
    }
  }

  /** Whoever is on a walk climbs to what comes after its end, and to everything above that. */
  lemma {:induction false} WalkClimbs<K>(parents: map<K, Option<K>>, chain: seq<K>, i: nat, next: K, steps: nat)
    requires Walk(parents, chain) && i < |chain| && next in parents && parents[chain[|chain| - 1]] == Some(next)
    ensures Above(parents, chain[i], |chain| - i + steps) == Above(parents, next, steps)
    decreases |chain| - i
  {
    if i + 1 < |chain| {
      assert parents[chain[i]] == Some(chain[i + 1]);
      WalkClimbs(parents, chain, i + 1, next, steps);
    }
  }

  /** Going up one comes to one of these. */
  ghost predicate RunsInto<K>(parents: map<K, Option<K>>, key: K, some: set<K>)
    requires key in parents
  {
    exists n: nat :: Above(parents, key, n) in some
  }

  /** A key that names a parent there is not. */
  ghost predicate LacksParent<K>(parents: map<K, Option<K>>, key: K)
    requires key in parents
  {
    parents[key].Some? && parents[key].value !in parents
  }

  /** A walk that comes back to one of its own keys never ends. */
  lemma {:induction false} LoopIsEndless<K(!new)>(parents: map<K, Option<K>>, chain: seq<K>, back: nat)
    requires Walk(parents, chain) && back < |chain| && parents[chain[|chain| - 1]] == Some(chain[back])
    ensures forall i :: 0 <= i < |chain| ==> FateOf(parents, chain[i]) == Endless
  {
    if n: nat :| EndWithin(parents, chain[back], n).Some? { LoopNeverEnds(parents, chain, back, back, n); }
    forall i | 0 <= i < |chain| ensures FateOf(parents, chain[i]) == Endless {
      if i <= back { WalkSharesFate(parents, chain, i, back); } else { WalkSharesFate(parents, chain, back, i); }
    }
  }

  lemma {:induction false} LoopNeverEnds<K(!new)>(parents: map<K, Option<K>>, chain: seq<K>, back: nat, i: nat,
                                                  steps: nat)
    requires Walk(parents, chain) && back <= i < |chain| && parents[chain[|chain| - 1]] == Some(chain[back])
    ensures EndWithin(parents, chain[i], steps) == None
    decreases steps
  {
    var next := if i + 1 < |chain| then i + 1 else back;
    assert parents[chain[i]] == Some(chain[next]);
    if steps > 0 { LoopNeverEnds(parents, chain, back, next, steps - 1); }
  }

  /** And a walk that never ends comes back to one of its own keys: there are only finitely many. */
  lemma {:induction false} EndlessReturns<K(!new)>(parents: map<K, Option<K>>, key: K)
    returns (chain: seq<K>, back: nat)
    requires key in parents && FateOf(parents, key) == Endless
    ensures Walk(parents, chain) && back < |chain| && chain[0] == key
    ensures parents[chain[|chain| - 1]] == Some(chain[back])
  {
    chain, back := [key], 0;
    ghost var unseen := parents.Keys - {key};
    while true
      invariant Walk(parents, chain) && chain != [] && chain[0] == key
      invariant forall k :: k in parents <==> k in unseen || k in chain
      invariant FateOf(parents, chain[|chain| - 1]) == Endless
      decreases |unseen|
    {
      FateOfOne(parents, chain[|chain| - 1]);
      var next := parents[chain[|chain| - 1]].value;
      if next in chain {
        back :| 0 <= back < |chain| && chain[back] == next;
        return;
      }
      chain, unseen := chain + [next], unseen - {next};
    }
  }

  /** A walk from a key that comes back to itself. */
  ghost predicate Returns<K>(parents: map<K, Option<K>>, key: K, chain: seq<K>) {
    && Walk(parents, chain) && chain != [] && chain[0] == key
    && exists back :: 0 <= back < |chain| && parents[chain[|chain| - 1]] == Some(chain[back])
  }

  /** A key's chain is endless exactly when it runs into a cycle. */
  lemma {:induction false} EndlessMeansCycle<K(!new)>(parents: map<K, Option<K>>, key: K)
    requires key in parents
    ensures FateOf(parents, key) == Endless <==> exists chain :: Returns(parents, key, chain)
  {
    if FateOf(parents, key) == Endless {
      var chain, back := EndlessReturns(parents, key);
      assert Returns(parents, key, chain);
    }
    if chain :| Returns(parents, key, chain) {
      var back :| 0 <= back < |chain| && parents[chain[|chain| - 1]] == Some(chain[back]);
      LoopIsEndless(parents, chain, back);
    }
  }

  /** The keys of one map renamed into another, parents along with them. */
  ghost predicate Renames<K, L>(from: map<K, Option<K>>, to: map<L, Option<L>>, name: map<K, L>) {
    forall k :: k in from ==>
      k in name && name[k] in to
      && match from[k]
         case None => to[name[k]] == None
         case Some(parent) => if parent in from then parent in name && to[name[k]] == Some(name[parent])
                              else to[name[k]].Some? && to[name[k]].value !in to
  }

  /** Renaming changes nobody's fate. */
  lemma {:induction false} RenamingKeepsFate<K(!new), L(!new)>(from: map<K, Option<K>>, to: map<L, Option<L>>,
                                                               name: map<K, L>, key: K)
    requires Renames(from, to, name) && key in from
    ensures FateOf(from, key).Rooted? <==> FateOf(to, name[key]).Rooted?
    ensures FateOf(from, key).Endless? <==> FateOf(to, name[key]).Endless?
  {
    if n: nat :| EndWithin(from, key, n).Some? {
      RenamedEnd(from, to, name, key, n);
      FateIs(from, key, n);
      FateIs(to, name[key], n);
    } else if n: nat :| EndWithin(to, name[key], n).Some? {
      RenamedEnd(from, to, name, key, n);
    }
  }

  lemma {:induction false} RenamedEnd<K, L>(from: map<K, Option<K>>, to: map<L, Option<L>>, name: map<K, L>, key: K,
                                            steps: nat)
    requires Renames(from, to, name) && key in from
    ensures EndWithin(from, key, steps).None? <==> EndWithin(to, name[key], steps).None?
    ensures EndWithin(from, key, steps).Some? ==>
      (EndWithin(from, key, steps).value.Rooted? <==> EndWithin(to, name[key], steps).value.Rooted?)
    ensures EndWithin(from, key, steps).Some? ==>
      (EndWithin(from, key, steps).value.Endless? <==> EndWithin(to, name[key], steps).value.Endless?)
    decreases steps
  {
    if steps > 0 && from[key].Some? && from[key].value in from
      { RenamedEnd(from, to, name, from[key].value, steps - 1); }
  }
}
