/**
 Mixing of animated values: the weighted override of a blend group, the additive pass, and the blend into a
 layer's input.  Reals stand for the engine's floating-point numbers; normalization, logarithm and
 exponential of quaternions are operations the model does not look inside.
 */
module MixValues {
  import opened Wrappers
  import opened BehaviorSampling
  import Sorting

  datatype Property =
    | PositionX | PositionY | PositionZ | RotationOf | ScaleOf | FovY | Visible | Material | Opacity | Tint

  predicate IsDiscrete(p: Property) { p == Visible || p == Material }

  predicate IsAdditiveSupported(p: Property) {
    p == PositionX || p == PositionY || p == PositionZ || p == RotationOf || p == ScaleOf
  }

  datatype MixValue =
    | Number(value: real)
    | Triple(x: real, y: real, z: real)
    | Turn(quat: Quat)
    | Switch(on: bool)
    | Resource(id: string)

  datatype QuatOps = QuatOps(
    slerp: (Quat, Quat, real) -> Option<Quat>,
    normalize: Quat -> Option<Quat>,
    log: Quat -> Option<(real, real, real)>,
    exp: (real, real, real) -> Option<Quat>)

  datatype MixError = ValueTypeMismatch | NonFinite | QuaternionInvalid | ScaleNonPositive | BaselineMissing

  datatype Contribution = Contribution(identity: nat, weight: real, value: MixValue)

  /** The layers only keep the verifier from unfolding the arithmetic wherever a blend is mentioned;
      LerpMixIs and LerpMixParts are how it is used. */
  function LerpMix(ops: QuatOps, left: MixValue, right: MixValue, t: real, layers: nat := 3): Result<MixValue, MixError>
    decreases left, layers
  {
    if layers > 0 then LerpMix(ops, left, right, t, layers - 1) else PlainLerpMix(ops, left, right, t)
  }

  lemma {:induction false} LerpMixIs(ops: QuatOps, left: MixValue, right: MixValue, t: real, layers: nat := 3)
    ensures LerpMix(ops, left, right, t, layers) == PlainLerpMix(ops, left, right, t)
    decreases layers
  {
    if layers > 0 { LerpMixIs(ops, left, right, t, layers - 1); }
  }

  function PlainLerpMix(ops: QuatOps, left: MixValue, right: MixValue, t: real): Result<MixValue, MixError> {
    match (left, right)
    case (Number(a), Number(b)) => Ok(Number(Lerp(a, b, t)))
    case (Triple(x, y, z), Triple(u, v, w)) => Ok(Triple(Lerp(x, u, t), Lerp(y, v, t), Lerp(z, w, t)))
    case (Turn(p), Turn(q)) =>
      (match ops.slerp(p, q, t)
       case Some(r) => Ok(Turn(r))
       case None => Err(MixError.QuaternionInvalid))
    case _ => Err(MixError.ValueTypeMismatch)
  }

  // ---------------------------------------------------------------- the running blend and the weighted mean

  function TotalWeight(cs: seq<Contribution>, count: nat): real
    requires count <= |cs|
  {
    if count == 0 then 0.0 else TotalWeight(cs, count - 1) + cs[count - 1].weight
  }

  /** The blend of the first contributions, each new one by its share of the weight so far. */
  function RunningBlend(ops: QuatOps, cs: seq<Contribution>, count: nat): Result<MixValue, MixError>
    requires 0 < count <= |cs| && forall i :: 0 <= i < |cs| ==> cs[i].weight > 0.0
  {
    if count == 1 then Ok(cs[0].value)
    else
      WeightsArePositive(cs, count);
      var before := RunningBlend(ops, cs, count - 1);
      if before.Err? then before
      else LerpMix(ops, before.value, cs[count - 1].value, cs[count - 1].weight / TotalWeight(cs, count))
  }

  lemma {:induction false} WeightsArePositive(cs: seq<Contribution>, count: nat)
    requires 0 < count <= |cs| && forall i :: 0 <= i < |cs| ==> cs[i].weight > 0.0
    ensures TotalWeight(cs, count) >= cs[count - 1].weight > 0.0
    decreases count
  {
    if count > 1 { WeightsArePositive(cs, count - 1); }
  }

  /** One component of a value. */
  function Part(v: MixValue, component: nat): real {
    match v
    case Number(value) => value
    case Triple(x, y, z) => if component == 0 then x else if component == 1 then y else z
    case _ => 0.0
  }

  function Weighted(c: Contribution, component: nat): real { c.weight * Part(c.value, component) }

  /** The sum of weight times component over the first contributions. */
  function WeightedSum(cs: seq<Contribution>, count: nat, component: nat): real
    requires count <= |cs|
  {
    if count == 0 then 0.0
    else WeightedSum(cs, count - 1, component) + Weighted(cs[count - 1], component)
  }

  predicate AllNumbers(cs: seq<Contribution>) { forall i :: 0 <= i < |cs| ==> cs[i].value.Number? }

  predicate AllTriples(cs: seq<Contribution>) { forall i :: 0 <= i < |cs| ==> cs[i].value.Triple? }

  predicate AllPositive(cs: seq<Contribution>) { forall i :: 0 <= i < |cs| ==> cs[i].weight > 0.0 }

  /** One step of the running blend keeps blend times weight equal to the weighted sum. */
  lemma BlendStep(mean: real, total: real, v: real, w: real, whole: real, product: real, t: real, blend: real)
    requires total > 0.0 && w > 0.0 && whole == total + w && product == w * v
    requires t * whole == w && blend == Lerp(mean, v, t)
    ensures blend * whole == mean * total + product
  {
    StepProduct(mean, v, t, whole);
    Spread(mean, total, v, w);
  }

  lemma ShareTimesWhole(w: real, whole: real)
    requires whole > 0.0
    ensures (w / whole) * whole == w
  {
  }

  lemma StepProduct(mean: real, v: real, t: real, whole: real)
    ensures Lerp(mean, v, t) * whole == mean * whole + (v - mean) * (t * whole)
  {
    assert ((v - mean) * t) * whole == (v - mean) * (t * whole);
  }

  lemma Spread(mean: real, total: real, v: real, w: real)
    ensures mean * (total + w) + (v - mean) * w == mean * total + w * v
  {
  }

  lemma {:induction false} RunningBlendKind(ops: QuatOps, cs: seq<Contribution>, count: nat)
    requires 0 < count <= |cs| && AllPositive(cs) && (AllNumbers(cs) || AllTriples(cs))
    ensures var r := RunningBlend(ops, cs, count);
      r.Ok? && (if AllNumbers(cs) then r.value.Number? else r.value.Triple?)
    decreases count
  {
    if count > 1 {
      RunningBlendKind(ops, cs, count - 1);
      WeightsArePositive(cs, count);
      assert if AllNumbers(cs) then cs[count - 1].value.Number? else cs[count - 1].value.Triple?;
      LerpMixParts(ops, RunningBlend(ops, cs, count - 1).value, cs[count - 1].value,
                   cs[count - 1].weight / TotalWeight(cs, count), 0);
    } else {
      assert if AllNumbers(cs) then cs[0].value.Number? else cs[0].value.Triple?;
    }
  }

  /** The running blend is the weighted mean of all contributions, for numbers and for every component of
      vectors, whatever their number and positive weights. */
  lemma {:induction false} RunningBlendIsMean(ops: QuatOps, cs: seq<Contribution>, count: nat, component: nat)
    requires 0 < count <= |cs| && AllPositive(cs) && (AllNumbers(cs) || AllTriples(cs))
    ensures var r := RunningBlend(ops, cs, count);
      r.Ok? && Part(r.value, component) * TotalWeight(cs, count) == WeightedSum(cs, count, component)
    decreases count
  {
    if count > 1 {
      RunningBlendIsMean(ops, cs, count - 1, component);
      MeanStep(ops, cs, count, component);
    } else {
      assert TotalWeight(cs, 1) == cs[0].weight && WeightedSum(cs, 1, component) == Weighted(cs[0], component);
    }
  }

  lemma MeanStep(ops: QuatOps, cs: seq<Contribution>, count: nat, component: nat)
    requires 1 < count <= |cs| && AllPositive(cs) && (AllNumbers(cs) || AllTriples(cs))
    ensures RunningBlend(ops, cs, count).Ok? && RunningBlend(ops, cs, count - 1).Ok?
    ensures Part(RunningBlend(ops, cs, count).value, component) * TotalWeight(cs, count)
         == Part(RunningBlend(ops, cs, count - 1).value, component) * TotalWeight(cs, count - 1)
          + Weighted(cs[count - 1], component)
  {
    RunningBlendKind(ops, cs, count - 1);
    RunningBlendKind(ops, cs, count);
    WeightsArePositive(cs, count - 1);
    WeightsArePositive(cs, count);
    var before, last := RunningBlend(ops, cs, count - 1).value, cs[count - 1];
    assert if AllNumbers(cs) then last.value.Number? else last.value.Triple?;
    LerpMixParts(ops, before, last.value, last.weight / TotalWeight(cs, count), component);
    ShareTimesWhole(last.weight, TotalWeight(cs, count));
    BlendStep(Part(before, component), TotalWeight(cs, count - 1), Part(last.value, component), last.weight,
              TotalWeight(cs, count), Weighted(last, component), last.weight / TotalWeight(cs, count),
              Part(RunningBlend(ops, cs, count).value, component));
  }

  lemma LerpMixParts(ops: QuatOps, a: MixValue, b: MixValue, t: real, component: nat)
    requires (a.Number? && b.Number?) || (a.Triple? && b.Triple?)
    ensures var r := LerpMix(ops, a, b, t);
      && r.Ok? && (a.Number? <==> r.value.Number?) && (a.Triple? <==> r.value.Triple?)
      && Part(r.value, component) == Lerp(Part(a, component), Part(b, component), t)
  {
    LerpMixIs(ops, a, b, t);
  }

  /** The blend stays within the bounds of the contributions. */
  lemma {:induction false} RunningBlendBounded(ops: QuatOps, cs: seq<Contribution>, count: nat, component: nat,
                                               low: real, high: real)
    requires 0 < count <= |cs| && AllPositive(cs) && (AllNumbers(cs) || AllTriples(cs))
    requires forall i :: 0 <= i < |cs| ==> low <= Part(cs[i].value, component) <= high
    ensures RunningBlend(ops, cs, count).Ok? && low <= Part(RunningBlend(ops, cs, count).value, component) <= high
    decreases count
  {
    RunningBlendKind(ops, cs, count);
    if count > 1 {
      RunningBlendBounded(ops, cs, count - 1, component, low, high);
      RunningBlendKind(ops, cs, count - 1);
      WeightsArePositive(cs, count);
      var total, w := TotalWeight(cs, count), cs[count - 1].weight;
      ShareOfWhole(w, total);
      var before := RunningBlend(ops, cs, count - 1).value;
      var last := cs[count - 1].value;
      assert if AllNumbers(cs) then last.Number? else last.Triple?;
      LerpMixParts(ops, before, last, w / total, component);
      LerpWithin(Part(before, component), Part(last, component), w / total, low, high);
    }
  }

  lemma ShareOfWhole(w: real, total: real)
    requires 0.0 < w <= total
    ensures 0.0 < w / total <= 1.0
  {
    var t := w / total;
    assert t * total == w;
    assert t > 1.0 ==> t * total > total;
    assert t <= 0.0 ==> t * total <= 0.0;
  }

  lemma LerpWithin(a: real, b: real, t: real, low: real, high: real)
    requires 0.0 <= t <= 1.0 && low <= a <= high && low <= b <= high
    ensures low <= Lerp(a, b, t) <= high
  {
    LerpBetween(a, b, t);
  }

  // ---------------------------------------------------------------- order does not matter

  /** The parts of a contribution the mean depends on. */
  lemma {:induction false} SumsFollowMultiset(a: seq<Contribution>, b: seq<Contribution>, component: nat)
    requires multiset(a) == multiset(b)
    ensures TotalWeight(a, |a|) == TotalWeight(b, |b|)
    ensures WeightedSum(a, |a|, component) == WeightedSum(b, |b|, component)
    decreases |a|
  {
    if a == [] {
      assert |a| == |multiset(a)| == |multiset(b)| == |b|;
    } else {
      var n := |a| - 1;
      var j := PlaceOf(b, a[n]);
      WithoutLast(a, b, j);
      SumsFollowMultiset(a[..n], b[..j] + b[j + 1..], component);
      SumsWithout(a, n, component);
      SumsWithout(b, j, component);
    }
  }

  lemma RemovedFrom(s: seq<Contribution>, j: nat)
    requires j < |s|
    ensures multiset(s[..j] + s[j + 1..]) == multiset(s) - multiset{s[j]}
  {
    assert s == s[..j] + [s[j]] + s[j + 1..];
  }

  lemma {:induction false} SumsOfPrefix(a: seq<Contribution>, b: seq<Contribution>, count: nat, component: nat)
    requires count <= |a| && count <= |b| && forall i :: 0 <= i < count ==> a[i] == b[i]
    ensures TotalWeight(a, count) == TotalWeight(b, count)
    ensures WeightedSum(a, count, component) == WeightedSum(b, count, component)
    decreases count
  {
    if count > 0 { SumsOfPrefix(a, b, count - 1, component); }
  }

  lemma SumsWithout(b: seq<Contribution>, j: nat, component: nat)
    requires j < |b|
    ensures var rest := b[..j] + b[j + 1..];
      && TotalWeight(b, |b|) == TotalWeight(rest, |rest|) + b[j].weight
      && WeightedSum(b, |b|, component) == WeightedSum(rest, |rest|, component) + Weighted(b[j], component)
  {
    SumsShift(b, b[..j] + b[j + 1..], j, |b| - 1, component);
  }

  lemma {:induction false} SumsShift(b: seq<Contribution>, rest: seq<Contribution>, j: nat, count: nat, component: nat)
    requires j < |b| && rest == b[..j] + b[j + 1..] && j <= count < |b|
    ensures TotalWeight(b, count + 1) == TotalWeight(rest, count) + b[j].weight
    ensures WeightedSum(b, count + 1, component) == WeightedSum(rest, count, component) + Weighted(b[j], component)
    decreases count
  {
    if count == j {
      SumsOfPrefix(b, rest, j, component);
    } else {
      SumsShift(b, rest, j, count - 1, component);
      assert rest[count - 1] == b[count];
    }
  }

  /** The running blend does not depend on the order of the contributions. */
  lemma BlendIgnoresOrder(ops: QuatOps, a: seq<Contribution>, b: seq<Contribution>)
    requires multiset(a) == multiset(b) && a != [] && AllPositive(a) && AllPositive(b)
    requires (AllNumbers(a) && AllNumbers(b)) || (AllTriples(a) && AllTriples(b))
    ensures b != [] && RunningBlend(ops, a, |a|) == RunningBlend(ops, b, |b|)
  {
    assert |a| == |multiset(a)| == |multiset(b)| == |b|;
    SameMean(ops, a, b, 0);
    SameMean(ops, a, b, 1);
    SameMean(ops, a, b, 2);
  }

  lemma SameMean(ops: QuatOps, a: seq<Contribution>, b: seq<Contribution>, component: nat)
    requires multiset(a) == multiset(b) && a != [] && b != [] && AllPositive(a) && AllPositive(b)
    requires (AllNumbers(a) && AllNumbers(b)) || (AllTriples(a) && AllTriples(b))
    ensures var u, v := RunningBlend(ops, a, |a|), RunningBlend(ops, b, |b|);
      && u.Ok? && v.Ok? && Part(u.value, component) == Part(v.value, component)
      && ((u.value.Number? && v.value.Number?) || (u.value.Triple? && v.value.Triple?))
  {
    RunningBlendKind(ops, a, |a|);
    RunningBlendKind(ops, b, |b|);
    KindsAgree(a, b);
    var u, v := RunningBlend(ops, a, |a|).value, RunningBlend(ops, b, |b|).value;
    assert Part(u, component) == Part(v, component) by {
      RunningBlendIsMean(ops, a, |a|, component);
      RunningBlendIsMean(ops, b, |b|, component);
      MeansAgree(a, b, component, Part(u, component), Part(v, component));
    }
  }

  lemma MeansAgree(a: seq<Contribution>, b: seq<Contribution>, component: nat, u: real, v: real)
    requires multiset(a) == multiset(b) && a != [] && AllPositive(a)
    requires u * TotalWeight(a, |a|) == WeightedSum(a, |a|, component)
    requires v * TotalWeight(b, |b|) == WeightedSum(b, |b|, component)
    ensures u == v
  {
    SumsFollowMultiset(a, b, component);
    WeightsArePositive(a, |a|);
    SameFactor(u, v, TotalWeight(a, |a|), TotalWeight(b, |b|));
  }

  lemma KindsAgree(a: seq<Contribution>, b: seq<Contribution>)
    requires a != [] && b != [] && ((AllNumbers(a) && AllNumbers(b)) || (AllTriples(a) && AllTriples(b)))
    ensures AllNumbers(a) <==> AllNumbers(b)
  {
    assert AllNumbers(a) ==> a[0].value.Number?;
    assert AllNumbers(b) ==> b[0].value.Number?;
    assert AllTriples(a) ==> a[0].value.Triple?;
    assert AllTriples(b) ==> b[0].value.Triple?;
  }

  lemma SameFactor(u: real, v: real, d: real, e: real)
    requires d > 0.0 && d == e && u * d == v * e
    ensures u == v
  {
    assert (u - v) * d == 0.0;
    assert u > v ==> (u - v) * d > 0.0;
    assert u < v ==> (v - u) * d > 0.0;
  }

  // ---------------------------------------------------------------- the override of a blend group

  predicate ByIdentity(a: Contribution, b: Contribution) { a.identity < b.identity }

  /** The weightiest contribution, the first in identity order among equals. */
  function Winner(cs: seq<Contribution>, count: nat): (r: Contribution)
    requires 0 < count <= |cs|
    ensures r in cs[..count]
  {
    if count == 1 then cs[0]
    else
      var before := Winner(cs, count - 1);
      if cs[count - 1].weight > before.weight
         || (cs[count - 1].weight == before.weight && cs[count - 1].identity < before.identity)
      then cs[count - 1] else before
  }

  /** The winner has the greatest weight, and no equally weighty contribution has a lower identity. */
  lemma {:induction false} WinnerWins(cs: seq<Contribution>, count: nat, i: nat)
    requires i < count <= |cs|
    ensures var w := Winner(cs, count);
      cs[i].weight < w.weight || (cs[i].weight == w.weight && w.identity <= cs[i].identity)
    decreases count
  {
    if i < count - 1 { WinnerWins(cs, count - 1, i); }
  }

  function Dot(p: Quat, q: Quat): real { p.x * q.x + p.y * q.y + p.z * q.z + p.w * q.w }

  /** On the side of the reference. */
  function Aligned(reference: Quat, q: Quat): Quat {
    if Dot(reference, q) < 0.0 then Quat(-q.x, -q.y, -q.z, -q.w) else q
  }

  /** The layers only keep the verifier from unfolding the arithmetic. */
  function Accumulate(reference: Quat, sum: Quat, q: Quat, weight: real, layers: nat := 3): Quat
    decreases sum, layers
  {
    if layers > 0 then Accumulate(reference, sum, q, weight, layers - 1)
    else
      var a := Aligned(reference, q);
      Quat(sum.x + a.x * weight, sum.y + a.y * weight, sum.z + a.z * weight, sum.w + a.w * weight)
  }

  /** The weighted sum of the aligned quaternions, or nothing where one contribution is not a rotation. */
  function AlignedSum(reference: Quat, cs: seq<Contribution>, count: nat, total: real): Option<Quat>
    requires count <= |cs| && total > 0.0
  {
    if count == 0 then Some(Quat(0.0, 0.0, 0.0, 0.0))
    else
      var before := AlignedSum(reference, cs, count - 1, total);
      if before.None? || !cs[count - 1].value.Turn? then None
      else Some(Accumulate(reference, before.value, cs[count - 1].value.quat, cs[count - 1].weight / total))
  }

  function TurnOverride(ops: QuatOps, cs: seq<Contribution>): Result<MixValue, MixError>
    requires cs != [] && AllPositive(cs) && cs[0].value.Turn?
  {
    WeightsArePositive(cs, |cs|);
    var sum := AlignedSum(cs[0].value.quat, cs, |cs|, TotalWeight(cs, |cs|));
    if sum.None? then Err(MixError.ValueTypeMismatch)
    else
      match ops.normalize(sum.value)
      case Some(q) => Ok(Turn(q))
      case None => Err(MixError.QuaternionInvalid)
  }

  lemma SortedPositive(cs: seq<Contribution>)
    requires AllPositive(cs)
    ensures AllPositive(Sorting.Sort(ByIdentity, cs))
  {
    var sorted := Sorting.Sort(ByIdentity, cs);
    Sorting.SameMultisetSameMembers(sorted, cs);
    forall i | 0 <= i < |sorted| ensures sorted[i].weight > 0.0 { assert sorted[i] in sorted && sorted[i] in cs; }
  }

  function WeightedOverride(ops: QuatOps, cs: seq<Contribution>, p: Property): Result<MixValue, MixError>
    requires cs != [] && AllPositive(cs)
  {
    var sorted := Sorting.Sort(ByIdentity, cs);
    SortedPositive(cs);
    if IsDiscrete(p) then Ok(Winner(sorted, |sorted|).value)
    else if sorted[0].value.Turn? then TurnOverride(ops, sorted)
    else RunningBlend(ops, sorted, |sorted|)
  }

  /** The override as it runs: sort, then one pass. */
  method MixOverride(ops: QuatOps, cs: seq<Contribution>, p: Property) returns (r: Result<MixValue, MixError>)
    requires cs != [] && AllPositive(cs)
    ensures r == WeightedOverride(ops, cs, p)
  {
    var sorted := Sorting.Sort(ByIdentity, cs);
    SortedPositive(cs);
    if IsDiscrete(p) {
      var winner := sorted[0];
      for i := 1 to |sorted|
        invariant winner == Winner(sorted, i)
      {
        if sorted[i].weight > winner.weight
           || (sorted[i].weight == winner.weight && sorted[i].identity < winner.identity) { winner := sorted[i]; }
      }
      return Ok(winner.value);
    }
    if sorted[0].value.Turn? {
      r := MixTurns(ops, sorted);
      return;
    }
    var mixed, remaining := sorted[0].value, sorted[0].weight;
    for i := 1 to |sorted|
      invariant remaining == TotalWeight(sorted, i) && RunningBlend(ops, sorted, i) == Ok(mixed)
    {
      WeightsArePositive(sorted, i + 1);
      remaining := remaining + sorted[i].weight;
      var next := LerpMix(ops, mixed, sorted[i].value, sorted[i].weight / remaining);
      if next.Err? {
        FailedBlendStays(ops, sorted, i + 1, |sorted|);
        return next;
      }
      mixed := next.value;
    }
    r := Ok(mixed);
  }

  lemma {:induction false} FailedBlendStays(ops: QuatOps, cs: seq<Contribution>, first: nat, count: nat)
    requires 0 < first <= count <= |cs| && AllPositive(cs) && RunningBlend(ops, cs, first).Err?
    ensures RunningBlend(ops, cs, count) == RunningBlend(ops, cs, first)
    decreases count
  {
    if first < count { FailedBlendStays(ops, cs, first, count - 1); }
  }

  method MixTurns(ops: QuatOps, cs: seq<Contribution>) returns (r: Result<MixValue, MixError>)
    requires cs != [] && AllPositive(cs) && cs[0].value.Turn?
    ensures r == TurnOverride(ops, cs)
  {
    var total := 0.0;
    for i := 0 to |cs| invariant total == TotalWeight(cs, i) { total := total + cs[i].weight; }
    WeightsArePositive(cs, |cs|);
    var reference, sum := cs[0].value.quat, Quat(0.0, 0.0, 0.0, 0.0);
    for i := 0 to |cs|
      invariant AlignedSum(reference, cs, i, total) == Some(sum)
    {
      if !cs[i].value.Turn? {
        NoSumStays(reference, cs, i + 1, |cs|, total);
        return Err(MixError.ValueTypeMismatch);
      }
      sum := Accumulate(reference, sum, cs[i].value.quat, cs[i].weight / total);
    }
    var normalized := ops.normalize(sum);
    r := if normalized.Some? then Ok(Turn(normalized.value)) else Err(MixError.QuaternionInvalid);
  }

  lemma {:induction false} NoSumStays(reference: Quat, cs: seq<Contribution>, first: nat, count: nat, total: real)
    requires first <= count <= |cs| && total > 0.0 && AlignedSum(reference, cs, first, total).None?
    ensures AlignedSum(reference, cs, count, total).None?
    decreases count
  {
    if first < count { NoSumStays(reference, cs, first, count - 1, total); }
  }

  ghost predicate DistinctIdentities(cs: seq<Contribution>) {
    forall i, j :: 0 <= i < j < |cs| ==> cs[i].identity != cs[j].identity
  }

  lemma {:induction false} IdentitiesAreTotal(cs: seq<Contribution>)
    requires DistinctIdentities(cs)
    ensures Sorting.Distinct(cs) && Sorting.TotalOn(ByIdentity, cs)
  {
    forall x, y | x in cs && y in cs && x != y ensures ByIdentity(x, y) || ByIdentity(y, x) {
      var i :| 0 <= i < |cs| && cs[i] == x;
      var j :| 0 <= j < |cs| && cs[j] == y;
    }
  }

  lemma {:induction false} SameSorted(a: seq<Contribution>, b: seq<Contribution>)
    requires multiset(a) == multiset(b) && DistinctIdentities(a)
    ensures Sorting.Sort(ByIdentity, a) == Sorting.Sort(ByIdentity, b)
  {
    IdentitiesAreTotal(a);
    Sorting.DistinctFollowsMultiset(a, b);
    Sorting.SameMultisetSameMembers(a, b);
    Sorting.SortIgnoresOrder(ByIdentity, a, b);
  }

  /** The order of the instances in a group never matters to the override, not even for rotations, discrete
      values or failures. */
  lemma {:induction false} OverrideIgnoresOrder(ops: QuatOps, a: seq<Contribution>, b: seq<Contribution>, p: Property)
    requires multiset(a) == multiset(b) && a != [] && b != [] && AllPositive(a) && AllPositive(b)
    requires DistinctIdentities(a)
    ensures WeightedOverride(ops, a, p) == WeightedOverride(ops, b, p)
  {
    SameSorted(a, b);
  }

  lemma SortedKind(cs: seq<Contribution>)
    requires AllNumbers(cs) || AllTriples(cs)
    ensures var sorted := Sorting.Sort(ByIdentity, cs);
      (AllNumbers(cs) ==> AllNumbers(sorted)) && (AllTriples(cs) ==> AllTriples(sorted))
  {
    var sorted := Sorting.Sort(ByIdentity, cs);
    Sorting.SameMultisetSameMembers(sorted, cs);
    forall i | 0 <= i < |sorted| ensures sorted[i] in cs { assert sorted[i] in sorted; }
  }

  lemma OverrideOfPlain(ops: QuatOps, cs: seq<Contribution>, p: Property)
    requires cs != [] && AllPositive(cs) && (AllNumbers(cs) || AllTriples(cs)) && !IsDiscrete(p)
    ensures var sorted := Sorting.Sort(ByIdentity, cs);
      && AllPositive(sorted) && |sorted| > 0 && (AllNumbers(sorted) || AllTriples(sorted))
      && WeightedOverride(ops, cs, p) == RunningBlend(ops, sorted, |sorted|)
  {
    SortedKind(cs);
    SortedPositive(cs);
    assert !Sorting.Sort(ByIdentity, cs)[0].value.Turn?;
  }

  /** A value whose component, times the total weight of these contributions, is their weighted sum. */
  ghost predicate IsMeanOf(v: MixValue, cs: seq<Contribution>, component: nat) {
    Part(v, component) * TotalWeight(cs, |cs|) == WeightedSum(cs, |cs|, component)
  }

  /** The override of a group, which sorts its contributions first, is the weighted mean of them as they are given. */
  lemma {:induction false} OverrideIsMean(ops: QuatOps, cs: seq<Contribution>, p: Property, component: nat)
    requires cs != [] && AllPositive(cs) && (AllNumbers(cs) || AllTriples(cs)) && !IsDiscrete(p)
    ensures WeightedOverride(ops, cs, p).Ok? && IsMeanOf(WeightedOverride(ops, cs, p).value, cs, component)
  {
    var sorted := Sorting.Sort(ByIdentity, cs);
    OverrideOfPlain(ops, cs, p);
    SortedMean(ops, sorted, cs, component);
    SameValueSameMean(RunningBlend(ops, sorted, |sorted|).value, WeightedOverride(ops, cs, p).value, cs, component);
  }

  lemma {:induction false} SameValueSameMean(u: MixValue, v: MixValue, cs: seq<Contribution>, component: nat)
    requires u == v && IsMeanOf(u, cs, component)
    ensures IsMeanOf(v, cs, component)
  {
  }

  lemma {:induction false} SortedMean(ops: QuatOps, sorted: seq<Contribution>, cs: seq<Contribution>, component: nat)
    requires multiset(sorted) == multiset(cs) && sorted != [] && AllPositive(sorted)
    requires (AllNumbers(sorted) || AllTriples(sorted))
    ensures RunningBlend(ops, sorted, |sorted|).Ok?
    ensures IsMeanOf(RunningBlend(ops, sorted, |sorted|).value, cs, component)
  {
    RunningBlendIsMean(ops, sorted, |sorted|, component);
    SumsFollowMultiset(sorted, cs, component);
    SameProduct(Part(RunningBlend(ops, sorted, |sorted|).value, component), TotalWeight(sorted, |sorted|),
                TotalWeight(cs, |cs|));
  }

  lemma SameProduct(x: real, y: real, z: real)
    requires y == z
    ensures x * y == x * z
  {
  }

  /** And it stays within their bounds. */
  lemma {:induction false} OverrideIsBounded(ops: QuatOps, cs: seq<Contribution>, p: Property, component: nat,
                                             low: real, high: real)
    requires cs != [] && AllPositive(cs) && (AllNumbers(cs) || AllTriples(cs)) && !IsDiscrete(p)
    requires forall c :: c in cs ==> low <= Part(c.value, component) <= high
    ensures WeightedOverride(ops, cs, p).Ok? && low <= Part(WeightedOverride(ops, cs, p).value, component) <= high
  {
    var sorted := Sorting.Sort(ByIdentity, cs);
    OverrideOfPlain(ops, cs, p);
    Sorting.SameMultisetSameMembers(sorted, cs);
    forall i | 0 <= i < |sorted| ensures low <= Part(sorted[i].value, component) <= high { assert sorted[i] in sorted; }
    RunningBlendBounded(ops, sorted, |sorted|, component, low, high);
  }

  // ---------------------------------------------------------------- the additive pass

  /** The factor a contribution scales by, weighted by its own share of the group's and the layer's weight.  The
      layers only keep the verifier from unfolding the arithmetic. */
  function ScaleFactor(c: Contribution, share: real, component: nat, layers: nat := 3): real
    decreases c, layers
  {
    if layers > 0 then ScaleFactor(c, share, component, layers - 1)
    else Lerp(1.0, Part(c.value, component), c.weight * share)
  }

  predicate FactorsPositive(v: MixValue) { v.Triple? && v.x > 0.0 && v.y > 0.0 && v.z > 0.0 }

  /** The base scaled by the first contributions. */
  function Scaled(base: real, cs: seq<Contribution>, count: nat, share: real, component: nat): real
    requires count <= |cs|
  {
    if count == 0 then base
    else Times(Scaled(base, cs, count - 1, share, component), ScaleFactor(cs[count - 1], share, component))
  }

  function Times(x: real, y: real): real { x * y }

  predicate ScalesAllowed(cs: seq<Contribution>, share: real) {
    forall i :: 0 <= i < |cs| ==>
      FactorsPositive(cs[i].value) && ScaleFactor(cs[i], share, 0) > 0.0 && ScaleFactor(cs[i], share, 1) > 0.0
      && ScaleFactor(cs[i], share, 2) > 0.0
  }

  /** The tangents of rotations, each by its weight. */
  function Tangent(ops: QuatOps, c: Contribution, share: real, component: nat): real {
    if !c.value.Turn? || ops.log(c.value.quat).None? then 0.0
    else
      var t := ops.log(c.value.quat).value;
      (if component == 0 then t.0 else if component == 1 then t.1 else t.2) * (c.weight * share)
  }

  function TangentSum(ops: QuatOps, cs: seq<Contribution>, count: nat, share: real, component: nat): real
    requires count <= |cs|
  {
    if count == 0 then 0.0
    else TangentSum(ops, cs, count - 1, share, component) + Tangent(ops, cs[count - 1], share, component)
  }

  predicate TurnsAllowed(ops: QuatOps, cs: seq<Contribution>) {
    forall i :: 0 <= i < |cs| ==> cs[i].value.Turn? && ops.log(cs[i].value.quat).Some?
  }

  function MultiplyQuat(p: Quat, q: Quat): Quat {
    Quat(p.w * q.x + p.x * q.w + p.y * q.z - p.z * q.y,
         p.w * q.y - p.x * q.z + p.y * q.w + p.z * q.x,
         p.w * q.z + p.x * q.y - p.y * q.x + p.z * q.w,
         p.w * q.w - p.x * q.x - p.y * q.y - p.z * q.z)
  }

  function Added(base: real, sum: real, share: real): real { base + sum * share }

  /** The closed form of the additive pass, where it succeeds. */
  function AdditiveValue(ops: QuatOps, base: MixValue, cs: seq<Contribution>, share: real): Option<MixValue> {
    match base
    case Number(value) =>
      if AllNumbers(cs) then Some(Number(Added(value, WeightedSum(cs, |cs|, 0), share))) else None
    case Triple(x, y, z) =>
      if ScalesAllowed(cs, share) then
        Some(Triple(Scaled(x, cs, |cs|, share, 0), Scaled(y, cs, |cs|, share, 1), Scaled(z, cs, |cs|, share, 2)))
      else None
    case Turn(q) => if TurnsAllowed(ops, cs) then Turned(ops, q, TangentsOf(ops, cs, |cs|, share)) else None
    case _ => None
  }

  function TangentsOf(ops: QuatOps, cs: seq<Contribution>, count: nat, share: real): (real, real, real)
    requires count <= |cs|
  {
    (TangentSum(ops, cs, count, share, 0), TangentSum(ops, cs, count, share, 1), TangentSum(ops, cs, count, share, 2))
  }

  function Turned(ops: QuatOps, q: Quat, tangent: (real, real, real)): Option<MixValue> {
    var delta := ops.exp(tangent.0, tangent.1, tangent.2);
    if delta.None? then None
    else
      var turned := ops.normalize(MultiplyQuat(q, delta.value));
      if turned.None? then None else Some(Turn(turned.value))
  }

  /** The additive pass as it runs, contribution by contribution; the first failure ends it. */
  method ApplyAdditive(ops: QuatOps, base: MixValue, cs: seq<Contribution>, share: real)
    returns (r: Result<MixValue, MixError>)
    ensures r.Ok? <==> AdditiveValue(ops, base, cs, share).Some?
    ensures r.Ok? ==> AdditiveValue(ops, base, cs, share) == Some(r.value)
  {
    match base
    case Number(value) => r := AddNumbers(value, cs, share);
    case Triple(x, y, z) => r := AddScales(base, cs, share);
    case Turn(q) => r := AddTurns(ops, q, cs, share);
    case _ => r := Err(MixError.ValueTypeMismatch);
  }

  method AddNumbers(base: real, cs: seq<Contribution>, share: real) returns (r: Result<MixValue, MixError>)
    ensures r.Ok? <==> AllNumbers(cs)
    ensures r.Ok? ==> r.value == Number(Added(base, WeightedSum(cs, |cs|, 0), share))
  {
    var value := base;
    for i := 0 to |cs|
      invariant forall k :: 0 <= k < i ==> cs[k].value.Number?
      invariant value == Added(base, WeightedSum(cs, i, 0), share)
    {
      if !cs[i].value.Number? { return Err(MixError.ValueTypeMismatch); }
      Distribute(WeightedSum(cs, i, 0), Weighted(cs[i], 0), share);
      value := value + Weighted(cs[i], 0) * share;
    }
    r := Ok(Number(value));
  }

  lemma Distribute(a: real, b: real, c: real)
    ensures (a + b) * c == a * c + b * c
  {
  }

  method AddScales(base: MixValue, cs: seq<Contribution>, share: real) returns (r: Result<MixValue, MixError>)
    requires base.Triple?
    ensures r.Ok? <==> ScalesAllowed(cs, share)
    ensures r.Ok? ==> r.value == Triple(Scaled(base.x, cs, |cs|, share, 0), Scaled(base.y, cs, |cs|, share, 1),
                                        Scaled(base.z, cs, |cs|, share, 2))
  {
    var x, y, z := base.x, base.y, base.z;
    for i := 0 to |cs|
      invariant ScalesAllowed(cs[..i], share)
      invariant x == Scaled(base.x, cs, i, share, 0)
      invariant y == Scaled(base.y, cs, i, share, 1)
      invariant z == Scaled(base.z, cs, i, share, 2)
    {
      assert cs[..i + 1][i] == cs[i] && cs[..i + 1][..i] == cs[..i];
      if !cs[i].value.Triple? { return Err(MixError.ValueTypeMismatch); }
      if !FactorsPositive(cs[i].value) { return Err(ScaleNonPositive); }
      var fx, fy, fz := ScaleFactor(cs[i], share, 0), ScaleFactor(cs[i], share, 1), ScaleFactor(cs[i], share, 2);
      if !(fx > 0.0) || !(fy > 0.0) || !(fz > 0.0) { return Err(ScaleNonPositive); }
      x, y, z := x * fx, y * fy, z * fz;
    }
    assert cs[..|cs|] == cs;
    r := Ok(Triple(x, y, z));
  }

  method AddTurns(ops: QuatOps, q: Quat, cs: seq<Contribution>, share: real) returns (r: Result<MixValue, MixError>)
    ensures r.Ok? <==> TurnsAllowed(ops, cs) && Turned(ops, q, TangentsOf(ops, cs, |cs|, share)).Some?
    ensures r.Ok? ==> Turned(ops, q, TangentsOf(ops, cs, |cs|, share)) == Some(r.value)
  {
    var tangent := (0.0, 0.0, 0.0);
    for i := 0 to |cs|
      invariant forall k :: 0 <= k < i ==> cs[k].value.Turn? && ops.log(cs[k].value.quat).Some?
      invariant tangent == TangentsOf(ops, cs, i, share)
    {
      if !cs[i].value.Turn? { return Err(MixError.ValueTypeMismatch); }
      if ops.log(cs[i].value.quat).None? { return Err(MixError.QuaternionInvalid); }
      tangent := (tangent.0 + Tangent(ops, cs[i], share, 0), tangent.1 + Tangent(ops, cs[i], share, 1),
                  tangent.2 + Tangent(ops, cs[i], share, 2));
    }
    var turned := Turned(ops, q, tangent);
    r := if turned.Some? then Ok(turned.value) else Err(MixError.QuaternionInvalid);
  }

  lemma {:induction false} ScaledFollowsMultiset(base: real, a: seq<Contribution>, b: seq<Contribution>, share: real,
                                                 component: nat)
    requires multiset(a) == multiset(b)
    ensures Scaled(base, a, |a|, share, component) == Scaled(base, b, |b|, share, component)
    decreases |a|
  {
    if a == [] {
      assert |a| == |multiset(a)| == |multiset(b)| == |b|;
    } else {
      var n := |a| - 1;
      var j := PlaceOf(b, a[n]);
      WithoutLast(a, b, j);
      ScaledFollowsMultiset(base, a[..n], b[..j] + b[j + 1..], share, component);
      ScaledShift(base, a, a[..n] + a[n + 1..], n, n, share, component);
      ScaledShift(base, b, b[..j] + b[j + 1..], j, |b| - 1, share, component);
    }
  }

  function PlaceOf(s: seq<Contribution>, c: Contribution): (j: nat)
    ensures c in s ==> j < |s| && s[j] == c
  {
    if s == [] || s[0] == c then 0 else PlaceOf(s[1..], c) + 1
  }

  lemma {:induction false} WithoutLast(a: seq<Contribution>, b: seq<Contribution>, j: nat)
    requires multiset(a) == multiset(b) && a != [] && j == PlaceOf(b, a[|a| - 1])
    ensures j < |b| && b[j] == a[|a| - 1] && |a| == |b|
    ensures a[..|a| - 1] + a[|a|..] == a[..|a| - 1]
    ensures multiset(a[..|a| - 1]) == multiset(b[..j] + b[j + 1..])
  {
    assert a[|a| - 1] in multiset(b);
    assert |a| == |multiset(a)| == |multiset(b)| == |b|;
    RemovedFrom(a, |a| - 1);
    RemovedFrom(b, j);
  }

  lemma {:induction false} ScaledOfPrefix(base: real, a: seq<Contribution>, b: seq<Contribution>, count: nat,
                                          share: real, component: nat)
    requires count <= |a| && count <= |b| && forall i :: 0 <= i < count ==> a[i] == b[i]
    ensures Scaled(base, a, count, share, component) == Scaled(base, b, count, share, component)
    decreases count
  {
    if count > 0 { ScaledOfPrefix(base, a, b, count - 1, share, component); }
  }

  lemma {:induction false} ScaledShift(base: real, b: seq<Contribution>, rest: seq<Contribution>, j: nat, count: nat,
                                       share: real, component: nat)
    requires j < |b| && rest == b[..j] + b[j + 1..] && j <= count < |b|
    ensures Scaled(base, b, count + 1, share, component)
         == Times(Scaled(base, rest, count, share, component), ScaleFactor(b[j], share, component))
    decreases count
  {
    if count == j {
      ScaledOfPrefix(base, b, rest, j, share, component);
    } else {
      ScaledShift(base, b, rest, j, count - 1, share, component);
      assert rest[count - 1] == b[count];
      SwapFactors(Scaled(base, rest, count - 1, share, component), ScaleFactor(b[j], share, component),
                  ScaleFactor(b[count], share, component));
    }
  }

  lemma SwapFactors(a: real, b: real, c: real)
    ensures Times(Times(a, b), c) == Times(Times(a, c), b)
  {
  }

  lemma {:induction false} TangentsFollowMultiset(ops: QuatOps, a: seq<Contribution>, b: seq<Contribution>,
                                                  share: real, component: nat)
    requires multiset(a) == multiset(b)
    ensures TangentSum(ops, a, |a|, share, component) == TangentSum(ops, b, |b|, share, component)
    decreases |a|
  {
    if a == [] {
      assert |a| == |multiset(a)| == |multiset(b)| == |b|;
    } else {
      var n := |a| - 1;
      var j := PlaceOf(b, a[n]);
      WithoutLast(a, b, j);
      TangentsFollowMultiset(ops, a[..n], b[..j] + b[j + 1..], share, component);
      TangentsShift(ops, a, a[..n] + a[n + 1..], n, n, share, component);
      TangentsShift(ops, b, b[..j] + b[j + 1..], j, |b| - 1, share, component);
    }
  }

  lemma {:induction false} TangentsOfPrefix(ops: QuatOps, a: seq<Contribution>, b: seq<Contribution>, count: nat,
                                            share: real, component: nat)
    requires count <= |a| && count <= |b| && forall i :: 0 <= i < count ==> a[i] == b[i]
    ensures TangentSum(ops, a, count, share, component) == TangentSum(ops, b, count, share, component)
    decreases count
  {
    if count > 0 { TangentsOfPrefix(ops, a, b, count - 1, share, component); }
  }

  lemma {:induction false} TangentsShift(ops: QuatOps, b: seq<Contribution>, rest: seq<Contribution>, j: nat,
                                         count: nat, share: real, component: nat)
    requires j < |b| && rest == b[..j] + b[j + 1..] && j <= count < |b|
    ensures TangentSum(ops, b, count + 1, share, component)
         == TangentSum(ops, rest, count, share, component) + Tangent(ops, b[j], share, component)
    decreases count
  {
    if count == j {
      TangentsOfPrefix(ops, b, rest, j, share, component);
    } else {
      TangentsShift(ops, b, rest, j, count - 1, share, component);
      assert rest[count - 1] == b[count];
    }
  }

  /** Nor does their order matter to the additive pass: it succeeds for both orders or neither, with the
      same value. */
  lemma AdditiveIgnoresOrder(ops: QuatOps, base: MixValue, a: seq<Contribution>, b: seq<Contribution>, share: real)
    requires multiset(a) == multiset(b)
    ensures AdditiveValue(ops, base, a, share) == AdditiveValue(ops, base, b, share)
  {
    Sorting.SameMultisetSameMembers(a, b);
    AllowedEverywhere(ops, a, b, share);
    AllowedEverywhere(ops, b, a, share);
    match base
    case Number(value) => SumsFollowMultiset(a, b, 0);
    case Triple(x, y, z) =>
      ScaledFollowsMultiset(x, a, b, share, 0);
      ScaledFollowsMultiset(y, a, b, share, 1);
      ScaledFollowsMultiset(z, a, b, share, 2);
    case Turn(q) =>
      TangentsFollowMultiset(ops, a, b, share, 0);
      TangentsFollowMultiset(ops, a, b, share, 1);
      TangentsFollowMultiset(ops, a, b, share, 2);
    case _ =>
  }

  lemma AllowedEverywhere(ops: QuatOps, a: seq<Contribution>, b: seq<Contribution>, share: real)
    requires forall x :: x in a <==> x in b
    ensures AllNumbers(a) ==> AllNumbers(b)
    ensures ScalesAllowed(a, share) ==> ScalesAllowed(b, share)
    ensures TurnsAllowed(ops, a) ==> TurnsAllowed(ops, b)
  {
    forall i | 0 <= i < |b|
      ensures AllNumbers(a) ==> b[i].value.Number?
      ensures ScalesAllowed(a, share) ==>
        FactorsPositive(b[i].value) && ScaleFactor(b[i], share, 0) > 0.0 && ScaleFactor(b[i], share, 1) > 0.0
        && ScaleFactor(b[i], share, 2) > 0.0
      ensures TurnsAllowed(ops, a) ==> b[i].value.Turn? && ops.log(b[i].value.quat).Some?
    {
      assert b[i] in b && b[i] in a;
      var k :| 0 <= k < |a| && a[k] == b[i];
    }
  }

  // ---------------------------------------------------------------- into the layer's input

  /** Group and layer weights pull the input towards the group's value; the output lies between the two. */
  lemma LayerStaysBetween(ops: QuatOps, input: MixValue, group: MixValue, groupWeight: real, layerWeight: real,
                          component: nat)
    requires (input.Number? && group.Number?) || (input.Triple? && group.Triple?)
    requires 0.0 <= groupWeight <= 1.0 && 0.0 <= layerWeight <= 1.0
    ensures LerpMix(ops, input, group, groupWeight).Ok?
    ensures var groupOutput := LerpMix(ops, input, group, groupWeight).value;
      var r := LerpMix(ops, input, groupOutput, layerWeight);
      r.Ok? && Between(Part(r.value, component), Part(input, component), Part(group, component))
  {
    LerpMixParts(ops, input, group, groupWeight, component);
    var groupOutput := LerpMix(ops, input, group, groupWeight).value;
    LerpMixParts(ops, input, groupOutput, layerWeight, component);
    LerpBetween(Part(input, component), Part(group, component), groupWeight);
    LerpBetween(Part(input, component), Part(groupOutput, component), layerWeight);
  }
}
