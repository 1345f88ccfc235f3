/**
 The two animation languages of the behaviour system: eased keyframe tracks over chart time, and
 cubic Hermite event tracks over beats.  Reals stand for the engine's floating-point numbers.
 */
module BehaviorSampling {
  import opened Wrappers

  datatype Quat = Quat(x: real, y: real, z: real, w: real)

  datatype BehaviorValue =
    | Scalar(value: real)
    | Vector(x: real, y: real, z: real)
    | Rotation(quat: Quat)

  /** The quaternion operations, which the model does not look inside: which quaternions count as
      normalized, shortest-path interpolation, and the normalized sum of two quaternions. */
  datatype Rotations = Rotations(
    normalized: Quat -> bool,
    slerp: (Quat, Quat, real) -> Option<Quat>,
    midpoint: (Quat, Quat) -> Option<Quat>)

  datatype Easing = Linear | InCubic | OutCubic | InOutCubic

  datatype SampleError = EmptyTrack | ValueTypeMismatch | QuaternionInvalid | UnsortedKeys | EventDurationInvalid

  function Clamp01(x: real): real { if x < 0.0 then 0.0 else if x > 1.0 then 1.0 else x }

  function Cube(x: real): real { x * x * x }

  function ApplyEasing(easing: Easing, value: real): real {
    var t := Clamp01(value);
    match easing
    case Linear => t
    case InCubic => Cube(t)
    case OutCubic => 1.0 - Cube(1.0 - t)
    case InOutCubic => if t < 0.5 then 4.0 * Cube(t) else 1.0 - Cube(-2.0 * t + 2.0) * 0.5
  }

  function HermiteProgress(value: real, startSlope: real, endSlope: real): real {
    var t := Clamp01(value);
    (-2.0 + startSlope + endSlope) * Cube(t) + (3.0 - 2.0 * startSlope - endSlope) * (t * t) + startSlope * t
  }

  function Lerp(left: real, right: real, t: real): real { left + (right - left) * t }

  function Interpolate(rot: Rotations, left: BehaviorValue, right: BehaviorValue,
                       t: real): Result<BehaviorValue, SampleError> {
    match (left, right)
    case (Scalar(a), Scalar(b)) => Ok(Scalar(Lerp(a, b, t)))
    case (Vector(x, y, z), Vector(u, v, w)) => Ok(Vector(Lerp(x, u, t), Lerp(y, v, t), Lerp(z, w, t)))
    case (Rotation(p), Rotation(q)) =>
      (match rot.slerp(p, q, t)
       case Some(r) => Ok(Rotation(r))
       case None => Err(QuaternionInvalid))
    case _ => Err(ValueTypeMismatch)
  }

  datatype RuntimeKey = RuntimeKey(time: real, value: BehaviorValue, easing: Easing)

  /** std::lower_bound from the given place on: the first key not before the time. */
  function LowerBound(keys: seq<RuntimeKey>, time: real, from: nat): (r: nat)
    requires from <= |keys|
    ensures from <= r <= |keys|
    ensures forall i :: from <= i < r ==> keys[i].time < time
    ensures r < |keys| ==> time <= keys[r].time
    decreases |keys| - from
  {
    if from == |keys| || time <= keys[from].time then from else LowerBound(keys, time, from + 1)
  }

  function SampleBetween(rot: Rotations, left: RuntimeKey, right: RuntimeKey,
                         time: real): Result<BehaviorValue, SampleError> {
    if right.time == time then Ok(right.value)
    else
      var duration := right.time - left.time;
      if duration <= 0.0 then Err(UnsortedKeys)
      else Interpolate(rot, left.value, right.value, ApplyEasing(right.easing, (time - left.time) / duration))
  }

  /** The keyframe language. */
  function Sample(rot: Rotations, keys: seq<RuntimeKey>, time: real): Result<BehaviorValue, SampleError> {
    if keys == [] then Err(EmptyTrack)
    else if time <= keys[0].time || |keys| == 1 then Ok(keys[0].value)
    else if time >= keys[|keys| - 1].time then Ok(keys[|keys| - 1].value)
    else
      var right := LowerBound(keys, time, 1);
      if right == |keys| then Ok(keys[|keys| - 1].value)
      else SampleBetween(rot, keys[right - 1], keys[right], time)
  }

  datatype RuntimeEvent = RuntimeEvent(startBeat: real, endBeat: real, startValue: BehaviorValue,
                                       endValue: BehaviorValue, startSlope: real, endSlope: real, instantaneous: bool)

  /** std::upper_bound: the first event that starts after the beat. */
  function UpperBound(events: seq<RuntimeEvent>, beat: real, from: nat := 0): (r: nat)
    requires from <= |events|
    ensures from <= r <= |events|
    ensures forall i :: from <= i < r ==> events[i].startBeat <= beat
    ensures r < |events| ==> beat < events[r].startBeat
    decreases |events| - from
  {
    if from == |events| || beat < events[from].startBeat then from else UpperBound(events, beat, from + 1)
  }

  function SampleOneEvent(rot: Rotations, event: RuntimeEvent, beat: real): Result<BehaviorValue, SampleError> {
    if event.instantaneous || beat >= event.endBeat then Ok(event.endValue)
    else
      var duration := event.endBeat - event.startBeat;
      if duration <= 0.0 then Err(EventDurationInvalid)
      else Interpolate(rot, event.startValue, event.endValue,
                       HermiteProgress((beat - event.startBeat) / duration, event.startSlope, event.endSlope))
  }

  /** The event language. */
  function SampleEvents(rot: Rotations, events: seq<RuntimeEvent>, beat: real, baseline: BehaviorValue)
    : Result<BehaviorValue, SampleError>
  {
    if events == [] || beat < events[0].startBeat then Ok(baseline)
    else SampleOneEvent(rot, events[UpperBound(events, beat) - 1], beat)
  }

  // ---------------------------------------------------------------- cubic identities

  lemma CubeExpands(t: real)
    ensures Cube(1.0 - t) == 1.0 - 3.0 * t + 3.0 * (t * t) - Cube(t)
    ensures Cube(2.0 * t) == 8.0 * Cube(t)
    ensures Cube(-2.0 * t + 2.0) == 8.0 * Cube(1.0 - t)
  {
    var u := 1.0 - t;
    assert u * u == 1.0 - 2.0 * t + t * t;
    assert u * u * u == (1.0 - 2.0 * t + t * t) * u;
    assert -2.0 * t + 2.0 == 2.0 * u;
    CubeOfDouble(u);
    CubeOfDouble(t);
  }

  lemma CubeOfDouble(t: real)
    ensures Cube(2.0 * t) == 8.0 * Cube(t)
  {
  }

  /** The slopes the migrator picks reproduce the three plain easings at every progress. */
  lemma HermiteIsEasing(value: real)
    ensures HermiteProgress(value, 1.0, 1.0) == ApplyEasing(Linear, value)
    ensures HermiteProgress(value, 0.0, 3.0) == ApplyEasing(InCubic, value)
    ensures HermiteProgress(value, 3.0, 0.0) == ApplyEasing(OutCubic, value)
  {
    CubeExpands(Clamp01(value));
  }

  /** The two halves of in_out_cubic, each a Hermite curve over half the progress. */
  lemma HermiteHalves(value: real)
    requires 0.0 <= value <= 1.0
    ensures value < 0.5 ==> HermiteProgress(2.0 * value, 0.0, 3.0) * 0.5 == ApplyEasing(InOutCubic, value)
    ensures value >= 0.5 ==>
      0.5 + HermiteProgress(2.0 * value - 1.0, 3.0, 0.0) * 0.5 == ApplyEasing(InOutCubic, value)
  {
    CubeExpands(value);
    HermiteIsEasing(2.0 * value);
    HermiteIsEasing(2.0 * value - 1.0);
    assert 1.0 - (2.0 * value - 1.0) == -2.0 * value + 2.0;
  }

  lemma HermiteEnds(startSlope: real, endSlope: real)
    ensures HermiteProgress(0.0, startSlope, endSlope) == 0.0 && HermiteProgress(1.0, startSlope, endSlope) == 1.0
  {
  }

  // ---------------------------------------------------------------- slope limits and range safety

  /** The compiler's slope rule. */
  predicate SlopesAllowed(startSlope: real, endSlope: real) {
    startSlope >= 0.0 && endSlope >= 0.0 && startSlope + endSlope <= 3.0
  }

  lemma HermiteMonotone(u: real, v: real, startSlope: real, endSlope: real)
    requires SlopesAllowed(startSlope, endSlope) && u <= v
    ensures HermiteProgress(u, startSlope, endSlope) <= HermiteProgress(v, startSlope, endSlope)
  {
    HermiteBySlopes(u, startSlope, endSlope);
    HermiteBySlopes(v, startSlope, endSlope);
    SlopeFormMonotone(Clamp01(u), Clamp01(v), startSlope, endSlope);
  }

  /** The Hermite polynomial, arranged by slope. */
  function BySlopes(t: real, s: real, e: real): real {
    SlopeForm(s, e, Cube(t) - 2.0 * (t * t) + t, Cube(t) - t * t, 3.0 * (t * t) - 2.0 * Cube(t))
  }

  /** With p = x + y and q = x*x + x*y + y*y, the difference of the polynomial at y and x is (y - x) times
      an expression linear in the slopes that is non-negative at the corners of the allowed triangle,
      hence everywhere in it. */
  lemma SlopeFormMonotone(x: real, y: real, s: real, e: real)
    requires SlopesAllowed(s, e) && 0.0 <= x <= y <= 1.0
    ensures BySlopes(x, s, e) <= BySlopes(y, s, e)
  {
    var xx, xy, yy := x * x, x * y, y * y;
    CornerSigns(x, y, xx, xy, yy, x + y, xx + xy + yy);
    PowerDifferences(x, y);
    SlopeFormGrows(s, e, x, y, xx, yy, Cube(x), Cube(y), x + y, xx + xy + yy);
  }

  lemma SlopeFormGrows(s: real, e: real, x: real, y: real, x2: real, y2: real, x3: real, y3: real, p: real, q: real)
    requires SlopesAllowed(s, e) && x <= y && y2 - x2 == (y - x) * p && y3 - x3 == (y - x) * q
    requires 3.0 * p - 2.0 * q >= 0.0
    requires 3.0 * (1.0 - 2.0 * p + q) + (3.0 * p - 2.0 * q) >= 0.0
    requires 3.0 * (q - p) + (3.0 * p - 2.0 * q) >= 0.0
    ensures SlopeForm(s, e, x3 - 2.0 * x2 + x, x3 - x2, 3.0 * x2 - 2.0 * x3)
         <= SlopeForm(s, e, y3 - 2.0 * y2 + y, y3 - y2, 3.0 * y2 - 2.0 * y3)
  {
    SlopeFormSign(s, e, 1.0 - 2.0 * p + q, q - p, 3.0 * p - 2.0 * q);
    FactorDifference(s, e, x, y, x2, y2, x3, y3, p, q);
    MulNonNegative(y - x, SlopeForm(s, e, 1.0 - 2.0 * p + q, q - p, 3.0 * p - 2.0 * q));
  }

  function SlopeForm(s: real, e: real, a: real, b: real, c: real): real { s * a + e * b + c }

  lemma SlopeFormSign(s: real, e: real, a: real, b: real, c: real)
    requires SlopesAllowed(s, e) && c >= 0.0 && 3.0 * a + c >= 0.0 && 3.0 * b + c >= 0.0
    ensures SlopeForm(s, e, a, b, c) >= 0.0
  {
    MulNonNegative(3.0 - s - e, c);
    MulNonNegative(s, 3.0 * a + c);
    MulNonNegative(e, 3.0 * b + c);
    assert (3.0 - s - e) * c + s * (3.0 * a + c) + e * (3.0 * b + c) == 3.0 * SlopeForm(s, e, a, b, c);
  }

  lemma HermiteBySlopes(value: real, s: real, e: real)
    ensures HermiteProgress(value, s, e) == BySlopes(Clamp01(value), s, e)
  {
    var t := Clamp01(value);
    Rearrange(s, e, Cube(t), t * t, t);
  }

  lemma Rearrange(s: real, e: real, c: real, q: real, t: real)
    ensures (-2.0 + s + e) * c + (3.0 - 2.0 * s - e) * q + s * t
         == SlopeForm(s, e, c - 2.0 * q + t, c - q, 3.0 * q - 2.0 * c)
  {
  }

  lemma PowerDifferences(x: real, y: real)
    ensures y * y - x * x == (y - x) * (x + y)
    ensures Cube(y) - Cube(x) == (y - x) * (x * x + x * y + y * y)
  {
    assert (y - x) * (x * x) == y * (x * x) - Cube(x);
    assert (y - x) * (x * y) == x * (y * y) - y * (x * x);
    assert (y - x) * (y * y) == Cube(y) - x * (y * y);
    assert (y - x) * (x * x + x * y + y * y) == (y - x) * (x * x) + (y - x) * (x * y) + (y - x) * (y * y);
  }

  lemma FactorDifference(s: real, e: real, x: real, y: real, x2: real, y2: real, x3: real, y3: real, p: real, q: real)
    requires y2 - x2 == (y - x) * p && y3 - x3 == (y - x) * q
    ensures SlopeForm(s, e, y3 - 2.0 * y2 + y, y3 - y2, 3.0 * y2 - 2.0 * y3)
            - SlopeForm(s, e, x3 - 2.0 * x2 + x, x3 - x2, 3.0 * x2 - 2.0 * x3)
         == (y - x) * SlopeForm(s, e, 1.0 - 2.0 * p + q, q - p, 3.0 * p - 2.0 * q)
  {
    var d := y - x;
    Subtracted(s, y3 - 2.0 * y2 + y, x3 - 2.0 * x2 + x, d, 1.0 - 2.0 * p + q);
    Subtracted(e, y3 - y2, x3 - x2, d, q - p);
    assert d * SlopeForm(s, e, 1.0 - 2.0 * p + q, q - p, 3.0 * p - 2.0 * q)
        == d * (s * (1.0 - 2.0 * p + q)) + d * (e * (q - p)) + d * (3.0 * p - 2.0 * q);
  }

  lemma Subtracted(k: real, u: real, v: real, d: real, f: real)
    requires u - v == d * f
    ensures k * u - k * v == d * (k * f)
  {
    assert k * u - k * v == k * (d * f);
  }

  lemma MulNonNegative(x: real, y: real)
    requires x >= 0.0 && y >= 0.0
    ensures x * y >= 0.0
  {
  }

  lemma CornerSigns(x: real, y: real, xx: real, xy: real, yy: real, p: real, q: real)
    requires 0.0 <= x <= 1.0 && 0.0 <= y <= 1.0
    requires xx == x * x && xy == x * y && yy == y * y && p == x + y && q == xx + xy + yy
    ensures 3.0 * p - 2.0 * q >= 0.0
    ensures 3.0 * (1.0 - 2.0 * p + q) + (3.0 * p - 2.0 * q) >= 0.0
    ensures 3.0 * (q - p) + (3.0 * p - 2.0 * q) >= 0.0
  {
    Product(x, x, xx);
    Product(y, y, yy);
    Product(x, y, xy);
  }

  lemma Product(x: real, y: real, xy: real)
    requires 0.0 <= x <= 1.0 && 0.0 <= y <= 1.0 && xy == x * y
    ensures 0.0 <= xy <= x && xy <= y && 1.0 - x - y + xy >= 0.0
  {
    MulNonNegative(x, y);
    MulNonNegative(x, 1.0 - y);
    MulNonNegative(y, 1.0 - x);
    MulNonNegative(1.0 - x, 1.0 - y);
  }

  /** Under the slope rule the progress climbs from 0 to 1 and never leaves that range. */
  lemma HermiteStaysInUnit(value: real, startSlope: real, endSlope: real)
    requires SlopesAllowed(startSlope, endSlope)
    ensures 0.0 <= HermiteProgress(value, startSlope, endSlope) <= 1.0
  {
    HermiteEnds(startSlope, endSlope);
    var t := Clamp01(value);
    HermiteMonotone(0.0, t, startSlope, endSlope);
    HermiteMonotone(t, 1.0, startSlope, endSlope);
  }

  predicate Between(x: real, a: real, b: real) { (a <= x <= b) || (b <= x <= a) }

  lemma LerpBetween(a: real, b: real, t: real)
    requires 0.0 <= t <= 1.0
    ensures Between(Lerp(a, b, t), a, b)
  {
    if a <= b {
      MulNonNegative(b - a, t);
      MulNonNegative(b - a, 1.0 - t);
    } else {
      MulNonNegative(a - b, t);
      MulNonNegative(a - b, 1.0 - t);
    }
  }
}
