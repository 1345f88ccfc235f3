/** What stands where in a longer sequence: the vocabulary of the parsers. */
module Placement {

  /** The part stands at this place of the whole.  The layers only keep the elements out of proofs that do not look at
      them. */
  ghost predicate StandsAt<T>(whole: seq<T>, begin: nat, part: seq<T>, layers: nat := 3)
    decreases |part|, layers
  {
    if layers == 0 then begin + |part| <= |whole| && forall i :: 0 <= i < |part| ==> whole[begin + i] == part[i]
    else StandsAt(whole, begin, part, layers - 1)
  }

  lemma {:induction false} StandsIs<T>(whole: seq<T>, begin: nat, part: seq<T>, layers: nat)
    ensures StandsAt(whole, begin, part, layers) <==>
            (begin + |part| <= |whole| && forall i :: 0 <= i < |part| ==> whole[begin + i] == part[i])
    decreases layers
  {
    if layers > 0 { StandsIs(whole, begin, part, layers - 1); }
  }

  lemma {:induction false} StandsWithin<T>(whole: seq<T>, begin: nat, part: seq<T>)
    requires StandsAt(whole, begin, part)
    ensures begin + |part| <= |whole| && whole[begin..begin + |part|] == part
  {
    StandsIs(whole, begin, part, 3);
  }

  lemma {:induction false} StandsApart<T>(whole: seq<T>, begin: nat, left: seq<T>, right: seq<T>)
    requires StandsAt(whole, begin, left + right)
    ensures StandsAt(whole, begin, left) && StandsAt(whole, begin + |left|, right)
  {
    StandsIs(whole, begin, left + right, 3);
    StandsIs(whole, begin, left, 3);
    StandsIs(whole, begin + |left|, right, 3);
    forall i | 0 <= i < |left| ensures whole[begin + i] == left[i] { assert (left + right)[i] == left[i]; }
    forall i | 0 <= i < |right| ensures whole[begin + |left| + i] == right[i] {
      assert (left + right)[|left| + i] == right[i];
      assert whole[begin + (|left| + i)] == right[i];
    }
  }

  lemma {:induction false} StandsTogether<T>(whole: seq<T>, begin: nat, left: seq<T>, right: seq<T>)
    requires StandsAt(whole, begin, left) && StandsAt(whole, begin + |left|, right)
    ensures StandsAt(whole, begin, left + right)
  {
    StandsIs(whole, begin, left, 3);
    StandsIs(whole, begin + |left|, right, 3);
    forall i | 0 <= i < |left + right| ensures whole[begin + i] == (left + right)[i] {
      if i >= |left| { assert whole[begin + |left| + (i - |left|)] == right[i - |left|]; }
    }
    StandsIs(whole, begin, left + right, 3);
  }
}
