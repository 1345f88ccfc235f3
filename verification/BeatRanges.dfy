/**
 When sums, differences and midpoints of beats succeed: in terms of the two fractions over their least common
 denominator, and of what a beat can denote.
 */
module BeatRanges {
  import opened Wrappers
  import opened RationalBeats

  /** Over their least common denominator both numerators, the denominator and the sum fit. */
  ghost predicate SumInRange(left: RationalBeat, right: RationalBeat) {
    exists leftFactor: nat, rightFactor: nat :: FitsOver(left, right, leftFactor, rightFactor)
  }

  ghost predicate FitsOver(left: RationalBeat, right: RationalBeat, leftFactor: nat, rightFactor: nat) {
    && leftFactor > 0 && rightFactor > 0 && Gcd(rightFactor, leftFactor) == 1
    && left.denominator * leftFactor == right.denominator * rightFactor
    && InInt64(left.numerator * leftFactor) && InInt64(right.numerator * rightFactor)
    && InInt64(left.denominator * leftFactor)
    && InInt64(left.numerator * leftFactor + right.numerator * rightFactor)
  }

  lemma GcdIsSymmetric(a: nat, b: nat)
    requires Gcd(a, b) == 1
    ensures Gcd(b, a) == 1
  {
    var x, y, _, _ := GcdCombines(a, b);
    CoprimeByCombination(b, a, y, x);
  }

  lemma AddSucceedsExactly(left: RationalBeat, right: RationalBeat)
    requires Canonical(left) && Canonical(right)
    ensures Add(left, right).Ok? <==> SumInRange(left, right)
  {
    if leftFactor: nat, rightFactor: nat :| FitsOver(left, right, leftFactor, rightFactor) {
      GcdIsSymmetric(rightFactor, leftFactor);
      AddRefusesExactly(left, right, leftFactor, rightFactor);
    }
    var g := Gcd(left.denominator, right.denominator);
    ReducedIsCoprime(left.denominator, right.denominator);
    var leftFactor, rightFactor := Cofactor(right.denominator, g), Cofactor(left.denominator, g);
    FactorsArePositive(g, leftFactor, right.denominator);
    FactorsArePositive(g, rightFactor, left.denominator);
    SameMultiple(g, leftFactor, rightFactor, left.denominator, right.denominator);
    if Add(left, right).Ok? {
      GcdIsSymmetric(rightFactor, leftFactor);
      AddRefusesExactly(left, right, leftFactor, rightFactor);
      assert FitsOver(left, right, leftFactor, rightFactor);
    }
  }

  lemma SameMultiple(g: int, leftFactor: int, rightFactor: int, left: int, right: int)
    requires left == g * rightFactor && right == g * leftFactor
    ensures left * leftFactor == right * rightFactor
  {
    assert (g * rightFactor) * leftFactor == (g * leftFactor) * rightFactor;
  }

  function Opposite(b: RationalBeat): RationalBeat { RationalBeat(-b.numerator, b.denominator) }

  /** A difference is the sum with the opposite, which the least 64-bit numerator does not have. */
  ghost predicate DifferenceFits(left: RationalBeat, right: RationalBeat) {
    right.numerator != -0x8000_0000_0000_0000 && SumInRange(left, Opposite(right))
  }

  lemma SubtractSucceedsExactly(left: RationalBeat, right: RationalBeat)
    requires Canonical(left) && Canonical(right)
    ensures Subtract(left, right).Ok? <==> DifferenceFits(left, right)
  {
    var negated := Negate(right);
    if negated.Ok? {
      NegatedRatio(right.numerator, right.denominator);
      CanonicalIsUnique(negated.value, Opposite(right));
      AddSucceedsExactly(left, Opposite(right));
    }
  }

  /** The sum fits, and half of it is a beat. */
  ghost predicate MiddleFits(left: RationalBeat, right: RationalBeat)
    requires left.denominator > 0 && right.denominator > 0
  {
    SumInRange(left, right) && Representable((Value(left) + Value(right)) * 0.5)
  }

  lemma MidpointSucceedsExactly(left: RationalBeat, right: RationalBeat)
    requires Canonical(left) && Canonical(right)
    ensures Midpoint(left, right).Ok? <==> MiddleFits(left, right)
  {
    AddSucceedsExactly(left, right);
    var sum, half := Add(left, right), (Value(left) + Value(right)) * 0.5;
    if Midpoint(left, right).Ok? {
      assert Value(Midpoint(left, right).value) == half;
    } else if sum.Ok? {
      var n, d := sum.value.numerator, sum.value.denominator;
      OddStaysReduced(Magnitude(n), d);
      HalfRatio(n, d);
      OnlyFits(n, d * 2, half);
    }
  }

  lemma OddStaysReduced(n: nat, d: nat)
    requires n % 2 == 1 && d > 0 && Gcd(n, d) == 1
    ensures Gcd(n, d * 2) == 1
  {
    var x, y, _, _ := GcdCombines(n, d);
    var half := n / 2;
    CombinationsMultiply(n, x, d, y, 1, 2, -half);
    CoprimeByCombination(n, d * 2, x * (n * 1 + 2 * -half) + d * y * 1, y * -half);
  }
}
