/**
 Exact beats: reduced fractions of signed 64-bit integers, with every overflow an error.
 Each operation is proved to give exactly the rational it is named after, or an error.
 */
module RationalBeats {
  import opened Wrappers

  const INT64_MAX: int := 0x7FFF_FFFF_FFFF_FFFF
  const INT64_MIN: int := -INT64_MAX - 1

  predicate InInt64(x: int) { INT64_MIN <= x <= INT64_MAX }

  datatype BeatError = OutOfRange | InvalidDenominator | MidpointOutOfRange

  datatype RationalBeat = RationalBeat(numerator: int, denominator: int)

  const ZERO := RationalBeat(0, 1)

  /** What RationalBeat::create establishes and nothing later can change: both parts in range, positive
      denominator, lowest terms. */
  ghost predicate Canonical(b: RationalBeat) {
    && InInt64(b.numerator) && 0 < b.denominator <= INT64_MAX
    && Gcd(Magnitude(b.numerator), b.denominator) == 1
  }

  /** The real number n / d.  The layers only keep the verifier from unfolding the division wherever
      a beat's value is mentioned; RatioTimes and RatioIs are how it is used. */
  function LayeredRatio(n: int, d: int, layers: nat): real
    requires d > 0
    decreases layers
  {
    if layers == 0 then n as real / d as real else LayeredRatio(n, d, layers - 1)
  }

  function Ratio(n: int, d: int): real
    requires d > 0
  {
    LayeredRatio(n, d, d + 3)
  }

  /** The number a beat denotes: numerator over denominator. */
  function Value(b: RationalBeat): real
    requires b.denominator > 0
  {
    Ratio(b.numerator, b.denominator)
  }

  lemma {:induction false} RatioIsQuotient(n: int, d: int, layers: nat)
    requires d > 0
    ensures LayeredRatio(n, d, layers) == n as real / d as real
    decreases layers
  {
    if layers > 0 { RatioIsQuotient(n, d, layers - 1); }
  }

  lemma RatioTimes(n: int, d: int)
    requires d > 0
    ensures Ratio(n, d) * d as real == n as real
  {
    RatioIsQuotient(n, d, d + 3);
  }

  lemma RatioIs(n: int, d: int, x: real)
    requires d > 0 && x * d as real == n as real
    ensures Ratio(n, d) == x
  {
    RatioTimes(n, d);
    SameQuotient(d as real, Ratio(n, d), x);
  }

  function Magnitude(x: int): nat { if x < 0 then -x else x }

  // ---------------------------------------------------------------- greatest common divisor

  function Gcd(a: nat, b: nat): (g: nat)
    ensures a > 0 || b > 0 ==> g > 0
    decreases b
  {
    if b == 0 then a else Gcd(b, a % b)
  }

  /** The gcd divides both numbers and is an integer combination of them. */
  lemma {:induction false} GcdCombines(a: nat, b: nat) returns (x: int, y: int, p: nat, q: nat)
    requires a > 0 || b > 0
    ensures a == Gcd(a, b) * p && b == Gcd(a, b) * q
    ensures a * x + b * y == Gcd(a, b)
    decreases b
  {
    if b == 0 {
      x, y, p, q := 1, 0, 1, 0;
    } else {
      var u, v, i, j := GcdCombines(b, a % b);
      x, y, p, q := v, u - (a / b) * v, i * (a / b) + j, i;
      EuclidStep(a, b, a / b, a % b, Gcd(a, b), u, v, i, j);
    }
  }

  lemma EuclidStep(a: int, b: int, k: int, r: int, g: int, u: int, v: int, i: int, j: int)
    requires a == b * k + r && b == g * i && r == g * j && b * u + r * v == g
    ensures a == g * (i * k + j) && a * v + b * (u - k * v) == g
  {
    assert b * k == g * i * k;
    assert a * v == (b * k + r) * v == b * k * v + r * v;
  }

  /** a / g, by repeated subtraction. */
  function Cofactor(a: nat, g: nat): nat
    requires g > 0
  {
    if a < g then 0 else 1 + Cofactor(a - g, g)
  }

  lemma {:induction false} CofactorOfMultiple(n: nat, g: nat, k: nat)
    requires g > 0 && n == g * k
    ensures Cofactor(n, g) == k
    decreases k
  {
    if k > 0 {
      assert n - g == g * (k - 1);
      CofactorOfMultiple(n - g, g, k - 1);
    }
  }

  lemma {:induction false} CofactorIsQuotient(n: nat, g: nat)
    requires g > 0
    ensures Cofactor(n, g) == n / g
    decreases n
  {
    if n >= g {
      CofactorIsQuotient(n - g, g);
      var q := (n - g) / g;
      assert n == g * (q + 1) + (n - g) % g;
      QuotientUnique(n, g, q + 1, (n - g) % g, n / g, n % g);
    }
  }

  lemma QuotientUnique(n: int, g: int, p: int, r: int, q: int, t: int)
    requires g > 0 && n == g * p + r == g * q + t && 0 <= r < g && 0 <= t < g
    ensures p == q
  {
    Scaled(g, p, q);
    Scaled(g, q, p);
  }

  /** If b divides a * m and shares no divisor with a, then b divides m. */
  lemma CoprimeDivides(a: nat, b: nat, m: int, k: int) returns (n: int)
    requires b > 0 && Gcd(a, b) == 1 && a * m == b * k
    ensures m == b * n
  {
    var x, y, _, _ := GcdCombines(a, b);
    n := k * x + m * y;
    Recombine(a, b, m, k, x, y);
  }

  lemma Recombine(a: int, b: int, m: int, k: int, x: int, y: int)
    requires a * x + b * y == 1 && a * m == b * k
    ensures m == b * (k * x + m * y)
  {
    Distribute(b, k, m, x, y);
    assert (a * m) * x == m * (a * x);
    assert (b * m) * y == m * (b * y);
    Distribute(m, a * x, b * y, 1, 1);
  }

  // ---------------------------------------------------------------- values and order

  lemma SameQuotient(d: real, x: real, y: real)
    requires d != 0.0 && x * d == y * d
    ensures x == y
  {
    assert (x - y) * d == 0.0;
  }

  /** Fractions have the same value exactly when they cross-multiply equally, and their order is the
      order of the cross products. */
  lemma CrossMultiply(a: RationalBeat, b: RationalBeat)
    requires a.denominator > 0 && b.denominator > 0
    ensures Value(a) == Value(b) <==> a.numerator * b.denominator == b.numerator * a.denominator
    ensures Value(a) < Value(b) <==> a.numerator * b.denominator < b.numerator * a.denominator
  {
    RatioTimes(a.numerator, a.denominator);
    RatioTimes(b.numerator, b.denominator);
    RealProduct(a.numerator, b.denominator);
    RealProduct(b.numerator, a.denominator);
    CrossOrder(Value(a), Value(b), a.denominator as real, b.denominator as real);
  }

  lemma CrossOrder(u: real, v: real, p: real, q: real)
    requires p > 0.0 && q > 0.0
    ensures u == v <==> (u * p) * q == (v * q) * p
    ensures u < v <==> (u * p) * q < (v * q) * p
  {
    assert (u * p) * q == u * (p * q) && (v * q) * p == v * (p * q);
    assert p * q > 0.0;
    assert u < v ==> u * (p * q) < v * (p * q);
    assert v < u ==> v * (p * q) < u * (p * q);
  }

  /** Reduced fractions are unique: the field-by-field equality of the engine is equality of values. */
  lemma CanonicalIsUnique(a: RationalBeat, b: RationalBeat)
    requires Canonical(a) && Canonical(b) && Value(a) == Value(b)
    ensures a == b
  {
    LowestTermsAreUnique(a, b);
  }

  lemma LowestTermsAreUnique(a: RationalBeat, b: RationalBeat)
    requires a.denominator > 0 && Gcd(Magnitude(a.numerator), a.denominator) == 1
    requires b.denominator > 0 && Gcd(Magnitude(b.numerator), b.denominator) == 1
    requires Value(a) == Value(b)
    ensures a == b
  {
    CrossMultiply(a, b);
    var m, n := Magnitude(a.numerator), Magnitude(b.numerator);
    assert a.numerator * b.denominator == b.numerator * a.denominator;
    assert m * b.denominator == n * a.denominator by {
      if a.numerator < 0 {
        assert b.numerator * a.denominator < 0;
        assert b.numerator < 0;
      } else {
        assert b.numerator * a.denominator >= 0;
        assert b.numerator >= 0;
      }
    }
    var i := CoprimeDivides(m, a.denominator, b.denominator, n);
    var j := CoprimeDivides(n, b.denominator, a.denominator, m);
    DividesEachOther(a.denominator, b.denominator, i, j);
    CancelFactor(a.denominator, a.numerator, b.numerator);
  }

  lemma DividesEachOther(x: int, y: int, i: int, j: int)
    requires x > 0 && y > 0 && y == x * i && x == y * j
    ensures x == y
  {
    assert i <= 0 ==> x * i <= 0;
    assert j <= 0 ==> y * j <= 0;
    assert i >= 1 ==> x * i >= x;
    assert j >= 1 ==> y * j >= y;
  }

  datatype Ordering = Less | Equal | Greater

  function Sign(x: int): Ordering { if x < 0 then Less else if x == 0 then Equal else Greater }

  function Reverse(o: Ordering): Ordering { match o case Less => Greater case Equal => Equal case Greater => Less }

  /** Compares two non-negative fractions by their continued fractions, never multiplying. */
  method ComparePositive(ln: nat, ld: nat, rn: nat, rd: nat) returns (order: Ordering)
    requires ld > 0 && rd > 0
    ensures order == Sign(ln * rd - rn * ld)
  {
    var leftNumerator: int, leftDenominator: int := ln, ld;
    var rightNumerator: int, rightDenominator: int := rn, rd;
    var reversed := false;
    while true
      invariant leftNumerator >= 0 && rightNumerator >= 0 && leftDenominator > 0 && rightDenominator > 0
      invariant leftNumerator * rightDenominator - rightNumerator * leftDenominator
             == (if reversed then -(ln * rd - rn * ld) else ln * rd - rn * ld)
      decreases leftDenominator
    {
      var leftQuotient, rightQuotient := leftNumerator / leftDenominator, rightNumerator / rightDenominator;
      var leftRemainder, rightRemainder := leftNumerator % leftDenominator, rightNumerator % rightDenominator;
      DivisionStep(leftNumerator, leftDenominator, rightNumerator, rightDenominator);
      if leftQuotient != rightQuotient {
        var less := leftQuotient < rightQuotient;
        return if less != reversed then Less else Greater;
      }
      if leftRemainder == 0 || rightRemainder == 0 {
        if leftRemainder == rightRemainder { return Equal; }
        var less := leftRemainder == 0;
        return if less != reversed then Less else Greater;
      }
      leftNumerator, leftDenominator := leftDenominator, leftRemainder;
      rightNumerator, rightDenominator := rightDenominator, rightRemainder;
      reversed := !reversed;
    }
  }

  /** One round of the comparison: different quotients decide it; equal quotients leave the same
      cross difference on the remainders. */
  lemma DivisionStep(ln: int, ld: int, rn: int, rd: int)
    requires ln >= 0 && rn >= 0 && ld > 0 && rd > 0
    ensures ln / ld < rn / rd ==> ln * rd < rn * ld
    ensures ln / ld > rn / rd ==> ln * rd > rn * ld
    ensures ln / ld == rn / rd ==> ln * rd - rn * ld == (ln % ld) * rd - (rn % rd) * ld
    ensures ln % ld > 0 ==> (ln % ld) * rd > 0
    ensures rn % rd > 0 ==> (rn % rd) * ld > 0
  {
    var p, q, l, r := ln / ld, rn / rd, ln % ld, rn % rd;
    Expand(ln, ld, p, l, rd);
    Expand(rn, rd, q, r, ld);
    Scaled(ld * rd, p, q);
    Scaled(ld * rd, q, p);
    assert ld * rd == rd * ld;
  }

  lemma Expand(n: int, d: int, q: int, r: int, other: int)
    requires n == d * q + r && 0 <= r < d && other > 0
    ensures n * other == (d * other) * q + r * other && 0 <= r * other < d * other
    ensures r > 0 ==> r * other > 0
  {
  }

  lemma Scaled(unit: int, p: int, q: int)
    requires unit > 0
    ensures p < q ==> unit * p + unit <= unit * q
  {
    if p < q { MulNonNegative(unit, q - p - 1); }
  }

  /** The three-way comparison of beats is the order of their values. */
  method Compare(left: RationalBeat, right: RationalBeat) returns (order: Ordering)
    requires Canonical(left) && Canonical(right)
    ensures order == Less <==> Value(left) < Value(right)
    ensures order == Equal <==> left == right
    ensures order == Greater <==> Value(left) > Value(right)
  {
    CrossMultiply(left, right);
    CrossMultiply(right, left);
    if Value(left) == Value(right) { CanonicalIsUnique(left, right); }
    var leftNegative, rightNegative := left.numerator < 0, right.numerator < 0;
    if leftNegative != rightNegative {
      OppositeSigns(left, right);
      return if leftNegative then Less else Greater;
    }
    order := ComparePositive(Magnitude(left.numerator), left.denominator,
                             Magnitude(right.numerator), right.denominator);
    if leftNegative { order := Reverse(order); }
  }

  lemma OppositeSigns(left: RationalBeat, right: RationalBeat)
    requires left.denominator > 0 && right.denominator > 0
    requires (left.numerator < 0) != (right.numerator < 0)
    ensures left.numerator < 0 ==> left.numerator * right.denominator < right.numerator * left.denominator
    ensures right.numerator < 0 ==> left.numerator * right.denominator > right.numerator * left.denominator
  {
  }

  /** The comparison as a function; BeforeIsOrder says what it means. */
  predicate Before(left: RationalBeat, right: RationalBeat) {
    left.numerator * right.denominator < right.numerator * left.denominator
  }

  lemma BeforeIsOrder(left: RationalBeat, right: RationalBeat)
    requires left.denominator > 0 && right.denominator > 0
    ensures Before(left, right) <==> Value(left) < Value(right)
  {
    CrossMultiply(left, right);
  }

  lemma SignOfValue(b: RationalBeat)
    requires b.denominator > 0
    ensures b.numerator > 0 <==> Value(b) > 0.0
    ensures b.numerator == 0 <==> Value(b) == 0.0
  {
    RatioTimes(b.numerator, b.denominator);
    SignOfProduct(Value(b), b.denominator as real);
  }

  lemma SignOfProduct(v: real, d: real)
    requires d > 0.0
    ensures v > 0.0 <==> v * d > 0.0
    ensures v == 0.0 <==> v * d == 0.0
  {
  }

  // ---------------------------------------------------------------- checked 64-bit arithmetic

  /** C++ integer division, which truncates toward zero. */
  function Quotient(a: int, b: int): int
    requires b != 0
  {
    if (a < 0) == (b < 0) then Magnitude(a) / Magnitude(b) else -(Magnitude(a) / Magnitude(b))
  }

  /** What checked 64-bit arithmetic means: the exact integer, or an error when it does not fit. */
  function Fit(x: int): Result<int, BeatError> { if InInt64(x) then Ok(x) else Err(OutOfRange) }

  /** The overflow tests by division, made before multiplying, accept exactly the products that fit. */
  method CheckedMultiply(left: int, right: int) returns (r: Result<int, BeatError>)
    requires InInt64(left) && InInt64(right)
    ensures r == Fit(left * right)
  {
    if left == 0 || right == 0 { return Ok(0); }
    SignedProduct(left, right);
    if (left == -1 && right == INT64_MIN) || (right == -1 && left == INT64_MIN) { return Err(OutOfRange); }
    ProductBound(Magnitude(left), Magnitude(right), INT64_MAX);
    ProductBound(Magnitude(left), Magnitude(right), -INT64_MIN);
    ProductBound(Magnitude(right), Magnitude(left), -INT64_MIN);
    if || (left > 0 && right > 0 && left > Quotient(INT64_MAX, right))
       || (left > 0 && right < 0 && right < Quotient(INT64_MIN, left))
       || (left < 0 && right > 0 && left < Quotient(INT64_MIN, right))
       || (left < 0 && right < 0 && left < Quotient(INT64_MAX, right)) { return Err(OutOfRange); }
    return Ok(left * right);
  }

  lemma ProductBound(x: nat, y: nat, limit: nat)
    requires x > 0 && y > 0
    ensures x > limit / y <==> x * y > limit
    ensures x * y == y * x
  {
    var q := limit / y;
    assert limit == y * q + limit % y;
    if x > q { MulNonNegative(y, x - q - 1); } else { MulNonNegative(y, q - x); }
  }

  lemma MulNonNegative(x: int, y: int)
    requires x >= 0 && y >= 0
    ensures x * y >= 0
  {
  }

  lemma SignedProduct(left: int, right: int)
    ensures left * right == if (left < 0) == (right < 0) then Magnitude(left) * Magnitude(right)
                            else -(Magnitude(left) * Magnitude(right))
  {
  }

  /** The overflow test made before adding accepts exactly the sums that fit. */
  method CheckedAdd(left: int, right: int) returns (r: Result<int, BeatError>)
    requires InInt64(left) && InInt64(right)
    ensures r == Fit(left + right)
  {
    if (right > 0 && left > INT64_MAX - right) || (right < 0 && left < INT64_MIN - right) { return Err(OutOfRange); }
    return Ok(left + right);
  }

  // ---------------------------------------------------------------- construction

  /** b is n/d in lowest terms. */
  ghost predicate Reduces(n: int, d: int, b: RationalBeat) {
    d > 0 && Canonical(b) && n * b.denominator == b.numerator * d
  }

  lemma ReducedValue(n: int, d: int, b: RationalBeat)
    requires Reduces(n, d, b)
    ensures Value(b) == Ratio(n, d)
  {
    RatioTimes(b.numerator, b.denominator);
    RealProduct(n, b.denominator);
    RealProduct(b.numerator, d);
    ScaledValue(Value(b), n as real, d as real, b.numerator as real, b.denominator as real);
    RatioIs(n, d, Value(b));
  }

  lemma ScaledValue(v: real, n: real, d: real, p: real, q: real)
    requires q != 0.0 && v * q == p && n * q == p * d
    ensures v * d == n
  {
    assert (v * d) * q == (v * q) * d;
    SameQuotient(q, v * d, n);
  }

  lemma RealProduct(x: int, y: int)
    ensures (x * y) as real == x as real * y as real
  {
  }

  lemma ReducedIsCoprime(a: nat, b: nat)
    requires a > 0 || b > 0
    ensures var g := Gcd(a, b);
      Gcd(Cofactor(a, g), Cofactor(b, g)) == 1 && a == g * Cofactor(a, g) && b == g * Cofactor(b, g)
  {
    var g := Gcd(a, b);
    var x, y, p, q := GcdCombines(a, b);
    CofactorOfMultiple(a, g, p);
    CofactorOfMultiple(b, g, q);
    CofactorsCombine(a, b, g, x, y, p, q);
    CoprimeByCombination(p, q, x, y);
  }

  lemma CoprimeByCombination(p: nat, q: nat, x: int, y: int)
    requires p * x + q * y == 1 && (p > 0 || q > 0)
    ensures Gcd(p, q) == 1
  {
    var _, _, i, j := GcdCombines(p, q);
    var h := Gcd(p, q);
    Distribute(h, i, j, x, y);
    UnitFactor(h, i * x + j * y);
  }

  lemma CofactorsCombine(a: int, b: int, g: int, x: int, y: int, p: int, q: int)
    requires g > 0 && a == g * p && b == g * q && a * x + b * y == g
    ensures p * x + q * y == 1 && (p != 0 || q != 0)
  {
    Distribute(g, p, q, x, y);
    CancelFactor(g, p * x + q * y, 1);
    assert p == 0 && q == 0 ==> p * x + q * y == 0;
  }

  lemma Distribute(g: int, p: int, q: int, x: int, y: int)
    ensures (g * p) * x + (g * q) * y == g * (p * x + q * y)
  {
  }

  lemma CancelFactor(g: int, x: int, y: int)
    requires g > 0 && g * x == g * y
    ensures x == y
  {
    assert x > y ==> g * (x - y) >= g;
    assert x < y ==> g * (y - x) >= g;
  }

  lemma UnitFactor(h: int, k: int)
    requires h > 0 && h * k == 1
    ensures h == 1
  {
    assert k >= 1 by { assert k <= 0 ==> h * k <= 0; }
    assert h >= 2 ==> h * k >= 2 * k;
  }

  /** Succeeds for every numerator and every positive denominator, with the reduced fraction. */
  function Create(numerator: int, denominator: int): (r: Result<RationalBeat, BeatError>)
    requires InInt64(numerator) && InInt64(denominator)
    ensures denominator <= 0 ==> r == Err(InvalidDenominator)
    ensures denominator > 0 ==> r.Ok? && Canonical(r.value)
    ensures denominator > 0 ==> Value(r.value) == Ratio(numerator, denominator)
  {
    if denominator <= 0 then Err(InvalidDenominator)
    else if numerator == 0 then
      assert Reduces(0, denominator, ZERO) by { assert Gcd(0, 1) == Gcd(1, 0) == 1; }
      ReducedValue(0, denominator, ZERO);
      Ok(ZERO)
    else
      var divisor := Gcd(Magnitude(numerator), denominator);
      ReducedIsCoprime(Magnitude(numerator), denominator);
      var reduced: int := Cofactor(Magnitude(numerator), divisor);
      var b := RationalBeat(if numerator < 0 then -reduced else reduced, Cofactor(denominator, divisor));
      CreateReduces(numerator, denominator, divisor, b);
      ReducedValue(numerator, denominator, b);
      Ok(b)
  }

  lemma CreateReduces(n: int, d: int, g: int, b: RationalBeat)
    requires InInt64(n) && n != 0 && 0 < d <= INT64_MAX && g > 0
    requires Magnitude(n) == g * Magnitude(b.numerator) && d == g * b.denominator
    requires (b.numerator < 0) == (n < 0) && Gcd(Magnitude(b.numerator), b.denominator) == 1
    ensures Reduces(n, d, b)
  {
    ScaledMagnitude(g, Magnitude(b.numerator));
    FactorsArePositive(g, b.denominator, d);
    CrossScaled(g, b.numerator, b.denominator);
  }

  lemma CrossScaled(g: int, p: int, q: int)
    ensures (g * p) * q == p * (g * q)
  {
  }

  // ---------------------------------------------------------------- arithmetic

  /** An Ok result is exactly the sum. */
  function Add(left: RationalBeat, right: RationalBeat): (r: Result<RationalBeat, BeatError>)
    requires Canonical(left) && Canonical(right)
    ensures r.Ok? ==> Canonical(r.value) && Value(r.value) == Value(left) + Value(right)
  {
    var divisor := Gcd(left.denominator, right.denominator);
    ReducedIsCoprime(left.denominator, right.denominator);
    var leftFactor, rightFactor := Cofactor(right.denominator, divisor), Cofactor(left.denominator, divisor);
    FactorsArePositive(divisor, leftFactor, right.denominator);
    FactorsArePositive(divisor, rightFactor, left.denominator);
    var leftNumerator := Fit(left.numerator * leftFactor);
    var rightNumerator := Fit(right.numerator * rightFactor);
    var denominator := Fit(left.denominator * leftFactor);
    if leftNumerator.Err? || rightNumerator.Err? || denominator.Err? then Err(OutOfRange)
    else
      var numerator := Fit(leftNumerator.value + rightNumerator.value);
      if numerator.Err? then Err(OutOfRange)
      else
        SumValue(left, right, divisor, leftFactor, rightFactor);
        Create(numerator.value, denominator.value)
  }

  lemma FactorsArePositive(g: int, factor: int, whole: int)
    requires g > 0 && g * factor == whole && 0 < whole <= INT64_MAX
    ensures 0 < factor <= whole
  {
    assert factor <= 0 ==> g * factor <= 0;
    assert factor > 0 ==> factor <= g * factor;
  }

  lemma SumValue(left: RationalBeat, right: RationalBeat, g: int, leftFactor: int, rightFactor: int)
    requires left.denominator > 0 && right.denominator > 0 && leftFactor > 0
    requires right.denominator == g * leftFactor && left.denominator == g * rightFactor
    ensures left.denominator * leftFactor > 0
    ensures Ratio(left.numerator * leftFactor + right.numerator * rightFactor, left.denominator * leftFactor)
         == Value(left) + Value(right)
  {
    MulPositive(left.denominator, leftFactor);
    var n, d := left.numerator * leftFactor + right.numerator * rightFactor, left.denominator * leftFactor;
    RatioTimes(n, d);
    RatioTimes(left.numerator, left.denominator);
    RatioTimes(right.numerator, right.denominator);
    RealProduct(left.numerator, leftFactor);
    RealProduct(right.numerator, rightFactor);
    RealProduct(left.denominator, leftFactor);
    RealProduct(g, leftFactor);
    RealProduct(g, rightFactor);
    SumOfQuotients(Value(left), Value(right), g as real, leftFactor as real, rightFactor as real,
                   left.denominator as real, right.denominator as real, Ratio(n, d));
  }

  lemma SumOfQuotients(u: real, v: real, g: real, lf: real, rf: real, ld: real, rd: real, sum: real)
    requires ld > 0.0 && lf > 0.0 && rd == g * lf && ld == g * rf
    requires sum * (ld * lf) == (u * ld) * lf + (v * rd) * rf
    ensures sum == u + v
  {
    assert (v * rd) * rf == v * (ld * lf) by { assert rd * rf == ld * lf; }
    assert (u * ld) * lf == u * (ld * lf);
    assert (u + v) * (ld * lf) == u * (ld * lf) + v * (ld * lf);
    SameQuotient(ld * lf, sum, u + v);
  }

  /** When a sum is refused: when one of the two numerators, the denominator or the numerator of the sum does not fit
      once both fractions are written over their least common denominator. */
  lemma AddRefusesExactly(left: RationalBeat, right: RationalBeat, leftFactor: int, rightFactor: int)
    requires Canonical(left) && Canonical(right) && leftFactor > 0 && rightFactor > 0
    requires Gcd(leftFactor, rightFactor) == 1
    requires left.denominator * leftFactor == right.denominator * rightFactor
    ensures Add(left, right).Err? <==>
            || !InInt64(left.numerator * leftFactor) || !InInt64(right.numerator * rightFactor)
            || !InInt64(left.denominator * leftFactor)
            || !InInt64(left.numerator * leftFactor + right.numerator * rightFactor)
  {
    var g := Gcd(left.denominator, right.denominator);
    ReducedIsCoprime(left.denominator, right.denominator);
    var lf, rf := Cofactor(right.denominator, g), Cofactor(left.denominator, g);
    FactorsArePositive(g, lf, right.denominator);
    FactorsArePositive(g, rf, left.denominator);
    var m := CommonMultiple(rf, lf, leftFactor, rightFactor, g, left.denominator, right.denominator);
    OnlyUnitDividesBoth(leftFactor, rightFactor, lf, rf, m);
  }

  lemma OnlyUnitDividesBoth(a: nat, b: nat, i: int, j: int, m: int)
    requires a > 0 && b > 0 && Gcd(a, b) == 1 && m >= 1 && a == i * m && b == j * m
    ensures m == 1 && a == i && b == j
  {
    var x, y, _, _ := GcdCombines(a, b);
    Distribute(m, i, j, x, y);
    assert m * i == i * m && m * j == j * m;
    UnitFactor(m, i * x + j * y);
  }

  /** So a sum can be refused although a beat denotes it: half of the greatest integer added to itself. */
  lemma AddRefusesRepresentable()
    ensures var b := RationalBeat(INT64_MAX, 2);
      Canonical(b) && Add(b, b) == Err(OutOfRange) && Representable(Value(b) + Value(b))
  {
    var b := RationalBeat(INT64_MAX, 2);
    assert Gcd(INT64_MAX, 2) == Gcd(2, 1) == Gcd(1, 0) == 1;
    assert Gcd(1, 1) == Gcd(1, 0) == 1;
    AddRefusesExactly(b, b, 1, 1);
    var whole := RationalBeat(INT64_MAX, 1);
    assert Gcd(INT64_MAX, 1) == Gcd(1, 0) == 1;
    RatioTimes(INT64_MAX, 2);
    RatioTimes(INT64_MAX, 1);
    assert Value(whole) == Value(b) + Value(b);
  }

  function Negate(value: RationalBeat): (r: Result<RationalBeat, BeatError>)
    requires Canonical(value)
    ensures r.Ok? ==> Canonical(r.value) && Value(r.value) == -Value(value)
    ensures r.Err? <==> value.numerator == INT64_MIN
  {
    var numerator := Fit(value.numerator * -1);
    if numerator.Err? then Err(OutOfRange)
    else
      NegatedRatio(value.numerator, value.denominator);
      Create(numerator.value, value.denominator)
  }

  lemma NegatedRatio(n: int, d: int)
    requires d > 0
    ensures Ratio(n * -1, d) == -Ratio(n, d)
  {
    RatioTimes(n, d);
    RatioIs(n * -1, d, -Ratio(n, d));
  }

  /** An Ok result is exactly the difference. */
  function Subtract(left: RationalBeat, right: RationalBeat): (r: Result<RationalBeat, BeatError>)
    requires Canonical(left) && Canonical(right)
    ensures r.Ok? ==> Canonical(r.value) && Value(r.value) == Value(left) - Value(right)
  {
    var negated := Negate(right);
    if negated.Err? then Err(OutOfRange) else Add(left, negated.value)
  }

  /** Some beat denotes exactly this number. */
  ghost predicate Representable(x: real) { exists b: RationalBeat :: Canonical(b) && Value(b) == x }

  /** An Ok result is exactly the product, and since common factors are removed before multiplying, the product is
      refused only when no beat denotes it. */
  method Multiply(left: RationalBeat, right: RationalBeat) returns (r: Result<RationalBeat, BeatError>)
    requires Canonical(left) && Canonical(right)
    ensures r.Ok? ==> Canonical(r.value) && Value(r.value) == Value(left) * Value(right)
    ensures r.Err? ==> r.error == OutOfRange
    ensures r.Err? <==> !Representable(Value(left) * Value(right))
  {
    var g := Gcd(Magnitude(left.numerator), right.denominator);
    var h := Gcd(Magnitude(right.numerator), left.denominator);
    ReducedIsCoprime(Magnitude(left.numerator), right.denominator);
    ReducedIsCoprime(Magnitude(right.numerator), left.denominator);
    var leftDenominator, rightDenominator := Cofactor(left.denominator, h), Cofactor(right.denominator, g);
    FactorsArePositive(g, rightDenominator, right.denominator);
    FactorsArePositive(h, leftDenominator, left.denominator);
    var leftNumerator := SignedQuotient(left.numerator, g);
    var rightNumerator := SignedQuotient(right.numerator, h);
    var numerator := CheckedMultiply(leftNumerator, rightNumerator);
    var denominator := CheckedMultiply(leftDenominator, rightDenominator);
    ProductValue(left, right, g, h, leftNumerator, rightNumerator, leftDenominator, rightDenominator);
    if numerator.Err? || denominator.Err? {
      ProductIsReduced(left, right, g, h, leftNumerator, rightNumerator, leftDenominator, rightDenominator);
      OnlyFits(leftNumerator * rightNumerator, leftDenominator * rightDenominator, Value(left) * Value(right));
      return Err(OutOfRange);
    }
    r := Create(numerator.value, denominator.value);
  }

  /** A reduced fraction that does not fit is no beat at all. */
  lemma OnlyFits(n: int, d: int, x: real)
    requires d > 0 && Gcd(Magnitude(n), d) == 1 && Ratio(n, d) == x && (!InInt64(n) || !InInt64(d))
    ensures !Representable(x)
  {
    if b: RationalBeat :| Canonical(b) && Value(b) == x { LowestTermsAreUnique(RationalBeat(n, d), b); }
  }

  /** What is left after removing the cross factors has no common factor. */
  lemma ProductIsReduced(left: RationalBeat, right: RationalBeat, g: nat, h: nat, ln: int, rn: int, ld: int, rd: int)
    requires Canonical(left) && Canonical(right) && g > 0 && h > 0 && ld > 0 && rd > 0
    requires left.numerator == g * ln && right.numerator == h * rn
    requires left.denominator == h * ld && right.denominator == g * rd
    requires Gcd(Magnitude(ln), rd) == 1 && Gcd(Magnitude(rn), ld) == 1
    ensures ld * rd > 0 && Gcd(Magnitude(ln * rn), ld * rd) == 1
  {
    MulPositive(ld, rd);
    CrossFactorsCoprime(left, g, h, ln, ld);
    CrossFactorsCoprime(right, h, g, rn, rd);
    CoprimeToProduct(Magnitude(ln), ld, rd);
    CoprimeToProduct(Magnitude(rn), ld, rd);
    ProductCoprime(Magnitude(ln), Magnitude(rn), ld * rd);
    SignedProduct(ln, rn);
  }

  lemma CrossFactorsCoprime(beat: RationalBeat, g: nat, h: nat, numerator: int, denominator: int)
    requires Canonical(beat) && g > 0 && h > 0 && denominator > 0
    requires beat.numerator == g * numerator && beat.denominator == h * denominator
    ensures Gcd(Magnitude(numerator), denominator) == 1
  {
    assert Magnitude(beat.numerator) == g * Magnitude(numerator);
    FactorsStayCoprime(g, Magnitude(numerator), h, denominator, Magnitude(beat.numerator), beat.denominator);
  }

  lemma FactorsStayCoprime(g: nat, a: nat, h: nat, b: nat, whole: nat, other: nat)
    requires whole == g * a && other == h * b && b > 0 && other > 0 && Gcd(whole, other) == 1
    ensures Gcd(a, b) == 1
  {
    var x, y, _, _ := GcdCombines(whole, other);
    assert (g * a) * x == a * (g * x) && (h * b) * y == b * (h * y);
    CoprimeByCombination(a, b, g * x, h * y);
  }

  lemma CoprimeToProduct(a: nat, b: nat, c: nat)
    requires b > 0 && c > 0 && Gcd(a, b) == 1 && Gcd(a, c) == 1
    ensures b * c > 0 && Gcd(a, b * c) == 1
  {
    MulPositive(b, c);
    var x, y, _, _ := GcdCombines(a, b);
    var u, v, _, _ := GcdCombines(a, c);
    CombinationsMultiply(a, x, b, y, u, c, v);
    CoprimeByCombination(a, b * c, x * (a * u + c * v) + b * y * u, y * v);
  }

  lemma ProductCoprime(a: nat, b: nat, c: nat)
    requires c > 0 && Gcd(a, c) == 1 && Gcd(b, c) == 1
    ensures Gcd(a * b, c) == 1
  {
    var x, y, _, _ := GcdCombines(a, c);
    var u, v, _, _ := GcdCombines(b, c);
    CombinationsMultiply(c, y, a, x, v, b, u);
    CoprimeByCombination(a * b, c, x * u, y * (c * v + b * u) + a * x * v);
  }

  lemma CombinationsMultiply(a: int, x: int, b: int, y: int, u: int, c: int, v: int)
    requires a * x + b * y == 1 && a * u + c * v == 1
    ensures a * (x * (a * u + c * v) + b * y * u) + (b * c) * (y * v) == 1
  {
    assert (b * c) * (y * v) == (b * y) * (c * v);
    assert a * (b * y * u) == (b * y) * (a * u);
    assert (b * y) * (a * u) + (b * y) * (c * v) == (b * y) * (a * u + c * v);
    assert a * (x * (a * u + c * v) + b * y * u) == a * x + a * (b * y * u);
  }

  function SignedQuotient(n: int, g: nat): (q: int)
    requires InInt64(n) && g > 0 && Magnitude(n) == g * Cofactor(Magnitude(n), g)
    ensures n == g * q && InInt64(q)
  {
    var m: int := Cofactor(Magnitude(n), g);
    ScaledMagnitude(g, m);
    if n < 0 then -m else m
  }

  lemma ScaledMagnitude(g: int, m: int)
    requires g > 0 && m >= 0
    ensures m <= g * m && g * -m == -(g * m)
  {
  }

  lemma MulPositive(x: int, y: int)
    requires x > 0 && y > 0
    ensures x * y > 0
  {
  }

  lemma ProductValue(left: RationalBeat, right: RationalBeat, g: int, h: int, ln: int, rn: int, ld: int, rd: int)
    requires g > 0 && h > 0 && ld > 0 && rd > 0
    requires left.numerator == g * ln && right.numerator == h * rn
    requires left.denominator == h * ld && right.denominator == g * rd
    requires left.denominator > 0 && right.denominator > 0
    ensures ld * rd > 0 && Ratio(ln * rn, ld * rd) == Value(left) * Value(right)
  {
    RatioTimes(left.numerator, left.denominator);
    RatioTimes(right.numerator, right.denominator);
    RealProduct(g, ln);
    RealProduct(h, rn);
    RealProduct(h, ld);
    RealProduct(g, rd);
    RealProduct(ln, rn);
    RealProduct(ld, rd);
    MulPositive(ld, rd);
    CrossCancel(Value(left), Value(right), g as real, h as real, ln as real, rn as real, ld as real, rd as real);
    RatioIs(ln * rn, ld * rd, Value(left) * Value(right));
  }

  lemma CrossCancel(u: real, v: real, g: real, h: real, ln: real, rn: real, ld: real, rd: real)
    requires g > 0.0 && h > 0.0 && u * (h * ld) == g * ln && v * (g * rd) == h * rn
    ensures (u * v) * (ld * rd) == ln * rn
  {
    assert (u * (h * ld)) * (v * (g * rd)) == (g * ln) * (h * rn);
    assert (g * h) * ((u * v) * (ld * rd)) == (u * (h * ld)) * (v * (g * rd));
    assert (g * h) * (ln * rn) == (g * ln) * (h * rn);
    CancelReal(g * h, (u * v) * (ld * rd), ln * rn);
  }

  lemma CancelReal(k: real, x: real, y: real)
    requires k > 0.0 && k * x == k * y
    ensures x == y
  {
    assert k * (x - y) == 0.0;
  }

  /** An Ok result is exactly the quotient; division by zero is refused. */
  method Divide(left: RationalBeat, right: RationalBeat) returns (r: Result<RationalBeat, BeatError>)
    requires Canonical(left) && Canonical(right)
    ensures right.numerator == 0 ==> r == Err(InvalidDenominator)
    ensures r.Ok? ==> Canonical(r.value) && Value(right) != 0.0 && Value(r.value) * Value(right) == Value(left)
    ensures r.Err? <==> right.numerator == 0 || right.numerator == INT64_MIN || !HasQuotient(left, right)
  {
    if right.numerator == 0 { return Err(InvalidDenominator); }
    if Magnitude(right.numerator) > INT64_MAX { return Err(OutOfRange); }
    var reciprocal := Reciprocal(right);
    r := Multiply(left, reciprocal);
    if r.Ok? {
      UndoReciprocal(Value(left), Value(right), Value(reciprocal), Value(r.value));
    } else {
      NoQuotient(left, right, reciprocal);
    }
  }

  lemma NoQuotient(left: RationalBeat, right: RationalBeat, reciprocal: RationalBeat)
    requires left.denominator > 0 && right.denominator > 0 && reciprocal.denominator > 0
    requires Value(right) * Value(reciprocal) == 1.0 && !Representable(Value(left) * Value(reciprocal))
    ensures !HasQuotient(left, right)
  {
    if q: RationalBeat :| Canonical(q) && Value(q) * Value(right) == Value(left) {
      UndoFactor(Value(q), Value(right), Value(reciprocal));
    }
  }

  /** Some beat is exactly the quotient. */
  ghost predicate HasQuotient(left: RationalBeat, right: RationalBeat)
    requires left.denominator > 0 && right.denominator > 0
  {
    exists q: RationalBeat :: Canonical(q) && Value(q) * Value(right) == Value(left)
  }

  lemma UndoFactor(z: real, v: real, w: real)
    requires v * w == 1.0
    ensures (z * v) * w == z
  {
    assert (z * v) * w == z * (v * w);
  }

  lemma UndoReciprocal(u: real, v: real, w: real, z: real)
    requires v * w == 1.0 && z == u * w
    ensures v != 0.0 && z * v == u
  {
    assert (u * w) * v == u * (v * w);
  }

  function Reciprocal(b: RationalBeat): (r: RationalBeat)
    requires Canonical(b) && 0 < Magnitude(b.numerator) <= INT64_MAX
    ensures Canonical(r) && Value(b) * Value(r) == 1.0
  {
    var r := Create(if b.numerator < 0 then -b.denominator else b.denominator, Magnitude(b.numerator)).value;
    InverseRatio(b.numerator, b.denominator);
    r
  }

  lemma InverseRatio(n: int, d: int)
    requires n != 0 && d > 0
    ensures Ratio(n, d) * Ratio(if n < 0 then -d else d, Magnitude(n)) == 1.0
  {
    var v, w := Ratio(n, d), Ratio(if n < 0 then -d else d, Magnitude(n));
    RatioTimes(n, d);
    RatioTimes(if n < 0 then -d else d, Magnitude(n));
    InverseValue(v, w, n as real, d as real);
  }

  lemma InverseValue(v: real, w: real, n: real, d: real)
    requires v * d == n && n != 0.0 && d != 0.0 && w * n == d
    ensures v * w == 1.0
  {
    assert (v * w) * d == w * (v * d);
    SameQuotient(d, v * w, 1.0);
  }

  /** The greatest integer not above the value; it never overflows. */
  function Floor(value: RationalBeat): (r: Result<int, BeatError>)
    requires Canonical(value)
    ensures r.Ok? && InInt64(r.value) && r.value as real <= Value(value) < r.value as real + 1.0
  {
    var quotient := Quotient(value.numerator, value.denominator);
    FloorBounds(value.numerator, value.denominator);
    FloorValue(value, if value.numerator >= 0 || Magnitude(value.numerator) % value.denominator == 0 then quotient
                      else quotient - 1);
    if value.numerator >= 0 || Magnitude(value.numerator) % value.denominator == 0 then Ok(quotient)
    else Fit(quotient - 1)
  }

  lemma FloorBounds(n: int, d: int)
    requires InInt64(n) && 0 < d <= INT64_MAX
    ensures var q := Quotient(n, d);
      && InInt64(q)
      && (n >= 0 || Magnitude(n) % d == 0 ==> q * d <= n < q * d + d)
      && (n < 0 && Magnitude(n) % d != 0 ==> (q - 1) * d <= n < (q - 1) * d + d && InInt64(q - 1))
  {
    var m := Magnitude(n);
    var p := m / d;
    NatQuotient(m, d, p, m % d);
    assert (-p) * d == -(p * d) && (-p - 1) * d == -(p * d) - d;
  }

  lemma NatQuotient(m: int, d: int, p: int, r: int)
    requires m == d * p + r && 0 <= r < d && m >= 0
    ensures 0 <= p <= m && p * d <= m < p * d + d && (r != 0 ==> p < m)
  {
    assert p <= -1 ==> d * p <= -d;
    assert p >= 0 ==> p <= d * p;
  }

  lemma FloorValue(value: RationalBeat, k: int)
    requires value.denominator > 0
    requires k * value.denominator <= value.numerator < k * value.denominator + value.denominator
    ensures k as real <= Value(value) < k as real + 1.0
  {
    RatioTimes(value.numerator, value.denominator);
    RealProduct(k, value.denominator);
    FloorFromScaled(k as real, value.denominator as real, value.numerator as real, Value(value));
  }

  lemma FloorFromScaled(k: real, d: real, n: real, v: real)
    requires d > 0.0 && v * d == n && k * d <= n < k * d + d
    ensures k <= v < k + 1.0
  {
    assert (v - k) * d == n - k * d;
    OrderFromScaled(0.0, v - k, d);
    StrictOrderFromScaled(v - k, 1.0, d);
  }

  lemma OrderFromScaled(x: real, y: real, d: real)
    requires d > 0.0 && x * d <= y * d
    ensures x <= y
  {
    assert y < x ==> (x - y) * d > 0.0;
  }

  lemma StrictOrderFromScaled(x: real, y: real, d: real)
    requires d > 0.0 && x * d < y * d
    ensures x < y
  {
    assert y <= x ==> (x - y) * d >= 0.0;
  }

  /** An Ok result is exactly halfway. */
  function Midpoint(left: RationalBeat, right: RationalBeat): (r: Result<RationalBeat, BeatError>)
    requires Canonical(left) && Canonical(right)
    ensures r.Ok? ==> Canonical(r.value) && 2.0 * Value(r.value) == Value(left) + Value(right)
  {
    var sum := Add(left, right);
    if sum.Err? then Err(OutOfRange)
    else if sum.value.numerator % 2 == 0 then
      HalfRatio(sum.value.numerator, sum.value.denominator);
      Create(sum.value.numerator / 2, sum.value.denominator)
    else
      var denominator := Fit(sum.value.denominator * 2);
      HalfRatio(sum.value.numerator, sum.value.denominator);
      if denominator.Err? then Err(MidpointOutOfRange) else Create(sum.value.numerator, denominator.value)
  }

  lemma HalfRatio(n: int, d: int)
    requires d > 0
    ensures n % 2 == 0 ==> 2.0 * Ratio(n / 2, d) == Ratio(n, d)
    ensures 2.0 * Ratio(n, d * 2) == Ratio(n, d)
  {
    RatioTimes(n, d);
    RatioTimes(n / 2, d);
    if n % 2 == 0 { SameQuotient(d as real, 2.0 * Ratio(n / 2, d), Ratio(n, d)); }
    RatioTimes(n, d * 2);
    SameQuotient(d as real, 2.0 * Ratio(n, d * 2), Ratio(n, d));
  }

  // ---------------------------------------------------------------- a duration leads back to its end

  /** When the distance from an earlier beat to a later one is representable, adding it to the earlier
      beat never overflows and gives exactly the later one. */
  lemma AddUndoesSubtract(later: RationalBeat, earlier: RationalBeat)
    requires Canonical(later) && Canonical(earlier)
    requires Subtract(later, earlier).Ok? && Subtract(later, earlier).value.numerator > 0
    ensures Add(earlier, Subtract(later, earlier).value) == Ok(later)
  {
    var d := Subtract(later, earlier).value;
    var minus := RationalBeat(-earlier.numerator, earlier.denominator);
    NegatedRatio(earlier.numerator, earlier.denominator);
    CanonicalIsUnique(Negate(earlier).value, minus);
    var g := Gcd(later.denominator, earlier.denominator);
    ReducedIsCoprime(later.denominator, earlier.denominator);
    var laterFactor, earlierFactor := Cofactor(earlier.denominator, g), Cofactor(later.denominator, g);
    FactorsArePositive(g, laterFactor, earlier.denominator);
    FactorsArePositive(g, earlierFactor, later.denominator);
    var n := later.numerator * laterFactor + -earlier.numerator * earlierFactor;
    var k := ReducedBy(n, later.denominator * laterFactor, d);
    var h := Gcd(earlier.denominator, d.denominator);
    ReducedIsCoprime(earlier.denominator, d.denominator);
    var bf, df := Cofactor(d.denominator, h), Cofactor(earlier.denominator, h);
    FactorsArePositive(h, bf, d.denominator);
    FactorsArePositive(h, df, earlier.denominator);
    assert later.denominator * laterFactor == earlier.denominator * earlierFactor by {
      CrossScaled(g, earlierFactor, laterFactor);
    }
    var m := CommonMultiple(df, bf, earlierFactor, k, h, earlier.denominator, d.denominator);
    SumFits(earlier.numerator, d.numerator, bf, df, m, earlierFactor, k, later.numerator * laterFactor, n,
            earlier.denominator);
    CanonicalIsUnique(Add(earlier, d).value, later);
  }

  /** A reduced fraction divides both parts of every fraction it reduces. */
  lemma ReducedBy(n: int, d: int, b: RationalBeat) returns (k: int)
    requires InInt64(n) && 0 < d <= INT64_MAX && Create(n, d) == Ok(b)
    ensures k >= 1 && n == b.numerator * k && d == b.denominator * k
  {
    if n == 0 {
      k := d;
    } else {
      k := Gcd(Magnitude(n), d);
      ReducedIsCoprime(Magnitude(n), d);
      var c: int := Cofactor(Magnitude(n), k);
      SwapSign(k, c);
      SwapSign(k, Cofactor(d, k));
    }
  }

  lemma SwapSign(k: int, c: int)
    ensures k * c == c * k && -c * k == -(k * c)
  {
  }

  lemma CommonMultiple(df: int, bf: int, f: int, k: int, h: int, p: int, q: int) returns (m: int)
    requires df > 0 && bf > 0 && f > 0 && k > 0 && h > 0 && Gcd(df, bf) == 1
    requires p == h * df && q == h * bf && p * f == q * k
    ensures m >= 1 && f == bf * m && k == df * m
  {
    CrossScaled(h, df, f);
    CrossScaled(h, bf, k);
    assert h * (df * f) == h * (bf * k);
    CancelFactor(h, df * f, bf * k);
    m := CoprimeDivides(df, bf, f, k);
    assert bf * (df * m) == bf * k;
    CancelFactor(bf, df * m, k);
    assert m <= 0 ==> bf * m <= 0;
  }

  lemma SumFits(bn: int, dn: int, bf: int, df: int, m: int, f: int, k: int, an: int, n: int, p: int)
    requires bf > 0 && df > 0 && m >= 1 && p > 0 && f == bf * m && k == df * m && dn > 0
    requires n == dn * k && n == an + -bn * f
    requires InInt64(n) && InInt64(an) && InInt64(-bn * f) && 0 < p * f <= INT64_MAX
    ensures InInt64(bn * bf) && InInt64(dn * df) && InInt64(bn * bf + dn * df)
    ensures 0 < p * bf <= INT64_MAX
  {
    Regroup(bn, bf, m);
    Regroup(dn, df, m);
    Regroup(p, bf, m);
    assert -bn * f == -(bn * f);
    MulPositive(dn, df);
    Shrinks(dn * df, m);
    Shrinks(bn * bf, m);
    Distribute(m, bn * bf, dn * df, 1, 1);
    Shrinks(bn * bf + dn * df, m);
    MulPositive(p, bf);
    Shrinks(p * bf, m);
  }

  lemma Regroup(x: int, y: int, m: int)
    ensures x * (y * m) == m * (x * y)
  {
  }

  lemma Shrinks(x: int, m: int)
    requires m >= 1
    ensures x >= 0 ==> x <= m * x
    ensures x <= 0 ==> m * x <= x
  {
    if x >= 0 { MulNonNegative(m - 1, x); } else { MulNonNegative(m - 1, -x); }
  }
}
