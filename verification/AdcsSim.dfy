/** The ADCS simulator's attitude dynamics, over real numbers. */
module AdcsSim {
  datatype Quat = Quat(q0: real, q1: real, q2: real, q3: real)
  datatype Rates = Rates(x: real, y: real, z: real)

  /** The library functions and the 32-bit noise mixer the simulator calls. */
  datatype Math = Math(sqrt: real -> real, exp: real -> real, sin: real -> real, cos: real -> real,
                       acos: real -> real, pi: real, mix: (nat, int) -> nat)

  const MAX_WORD: real := 4294967295.0

  /** What is assumed of them. */
  ghost predicate Lawful(m: Math) {
    && (forall x :: x >= 0.0 ==> m.sqrt(x) >= 0.0 && m.sqrt(x) * m.sqrt(x) == x)
    && (forall x :: x < 0.0 ==> 0.0 < m.exp(x) < 1.0)
    && (forall x :: m.sin(x) * m.sin(x) + m.cos(x) * m.cos(x) == 1.0)
    && (forall s, b :: m.mix(s, b) as real <= MAX_WORD)
    && m.pi > 0.0
  }

  function Norm2(q: Quat): real {
    q.q0 * q.q0 + q.q1 * q.q1 + q.q2 * q.q2 + q.q3 * q.q3
  }

  function Dot(a: Quat, b: Quat): real {
    a.q0 * b.q0 + a.q1 * b.q1 + a.q2 * b.q2 + a.q3 * b.q3
  }

  ghost predicate Unit(q: Quat) {
    Norm2(q) == 1.0
  }

  const IDENTITY: Quat := Quat(1.0, 0.0, 0.0, 0.0)

  function Normalize(m: Math, q: Quat): Quat {
    var norm := m.sqrt(Norm2(q));
    if norm == 0.0 then IDENTITY else Quat(q.q0 / norm, q.q1 / norm, q.q2 / norm, q.q3 / norm)
  }

  function Abs(x: real): (r: real)
    ensures r >= 0.0 && (r == x || r == -x)
  {
    if x < 0.0 then -x else x
  }

  function Clamp(x: real, bound: real): real {
    var low := if x < bound then x else bound;
    if -bound > low then -bound else low
  }

  function Max(a: real, b: real): real {
    if a < b then b else a
  }

  // ---- small facts about products ----

  lemma SquareNonNegative(x: real)
    ensures x * x >= 0.0
  {
  }

  lemma Norm2NonNegative(q: Quat)
    ensures Norm2(q) >= 0.0
  {
    SquareNonNegative(q.q0);
    SquareNonNegative(q.q1);
    SquareNonNegative(q.q2);
    SquareNonNegative(q.q3);
  }

  lemma Divides(a: real, n: real)
    requires n != 0.0
    ensures a / n == a * (1.0 / n) && n * (1.0 / n) == 1.0
  {
  }

  lemma ScaledNorm(q: Quat, k: real)
    ensures Norm2(Quat(q.q0 * k, q.q1 * k, q.q2 * k, q.q3 * k)) == (k * k) * Norm2(q)
  {
  }

  /** Normalising gives a unit quaternion, whatever it is given. */
  lemma NormalizeUnit(m: Math, q: Quat)
    requires Lawful(m)
    ensures Unit(Normalize(m, q))
  {
    Norm2NonNegative(q);
    var n := m.sqrt(Norm2(q));
    if n != 0.0 {
      var k := 1.0 / n;
      Divides(q.q0, n);
      Divides(q.q1, n);
      Divides(q.q2, n);
      Divides(q.q3, n);
      ScaledNorm(q, k);
      assert (k * k) * (n * n) == (n * k) * (n * k);
    }
  }

  function DeltaX(a: Quat, b: Quat): real {
    a.q0 * b.q1 - a.q1 * b.q0 - a.q2 * b.q3 + a.q3 * b.q2
  }

  function DeltaY(a: Quat, b: Quat): real {
    a.q0 * b.q2 + a.q1 * b.q3 - a.q2 * b.q0 - a.q3 * b.q1
  }

  function DeltaZ(a: Quat, b: Quat): real {
    a.q0 * b.q3 - a.q1 * b.q2 + a.q2 * b.q1 - a.q3 * b.q0
  }

  lemma FourSquareIdentity(a: Quat, b: Quat)
    ensures (a.q0 * a.q0 + a.q1 * a.q1 + a.q2 * a.q2 + a.q3 * a.q3)
            * (b.q0 * b.q0 + b.q1 * b.q1 + b.q2 * b.q2 + b.q3 * b.q3)
         == (a.q0 * b.q0 + a.q1 * b.q1 + a.q2 * b.q2 + a.q3 * b.q3)
           * (a.q0 * b.q0 + a.q1 * b.q1 + a.q2 * b.q2 + a.q3 * b.q3)
            + (a.q0 * b.q1 - a.q1 * b.q0 - a.q2 * b.q3 + a.q3 * b.q2)
              * (a.q0 * b.q1 - a.q1 * b.q0 - a.q2 * b.q3 + a.q3 * b.q2)
            + (a.q0 * b.q2 + a.q1 * b.q3 - a.q2 * b.q0 - a.q3 * b.q1)
              * (a.q0 * b.q2 + a.q1 * b.q3 - a.q2 * b.q0 - a.q3 * b.q1)
            + (a.q0 * b.q3 - a.q1 * b.q2 + a.q2 * b.q1 - a.q3 * b.q0)
              * (a.q0 * b.q3 - a.q1 * b.q2 + a.q2 * b.q1 - a.q3 * b.q0)
  {
  }

  lemma Products(a: real, b: real, c: real, d: real)
    requires a == b && c == d
    ensures a * c == b * d
  {
  }

  lemma DotWritten(a: Quat, b: Quat)
    ensures Dot(a, b) * Dot(a, b)
            == (a.q0 * b.q0 + a.q1 * b.q1 + a.q2 * b.q2 + a.q3 * b.q3)
              * (a.q0 * b.q0 + a.q1 * b.q1 + a.q2 * b.q2 + a.q3 * b.q3)
    ensures Norm2(a) * Norm2(b) ==
            (a.q0 * a.q0 + a.q1 * a.q1 + a.q2 * a.q2 + a.q3 * a.q3)
              * (b.q0 * b.q0 + b.q1 * b.q1 + b.q2 * b.q2 + b.q3 * b.q3)
  {
    Products(Dot(a, b), a.q0 * b.q0 + a.q1 * b.q1 + a.q2 * b.q2 + a.q3 * b.q3, Dot(a, b),
             a.q0 * b.q0 + a.q1 * b.q1 + a.q2 * b.q2 + a.q3 * b.q3);
    Products(Norm2(a), a.q0 * a.q0 + a.q1 * a.q1 + a.q2 * a.q2 + a.q3 * a.q3,
             Norm2(b), b.q0 * b.q0 + b.q1 * b.q1 + b.q2 * b.q2 + b.q3 * b.q3);
  }

  lemma DeltaWritten(a: Quat, b: Quat)
    ensures DeltaX(a, b) * DeltaX(a, b)
            == (a.q0 * b.q1 - a.q1 * b.q0 - a.q2 * b.q3 + a.q3 * b.q2)
              * (a.q0 * b.q1 - a.q1 * b.q0 - a.q2 * b.q3 + a.q3 * b.q2)
    ensures DeltaY(a, b) * DeltaY(a, b)
            == (a.q0 * b.q2 + a.q1 * b.q3 - a.q2 * b.q0 - a.q3 * b.q1)
              * (a.q0 * b.q2 + a.q1 * b.q3 - a.q2 * b.q0 - a.q3 * b.q1)
    ensures DeltaZ(a, b) * DeltaZ(a, b)
            == (a.q0 * b.q3 - a.q1 * b.q2 + a.q2 * b.q1 - a.q3 * b.q0)
              * (a.q0 * b.q3 - a.q1 * b.q2 + a.q2 * b.q1 - a.q3 * b.q0)
  {
    Products(DeltaX(a, b), a.q0 * b.q1 - a.q1 * b.q0 - a.q2 * b.q3 + a.q3 * b.q2, DeltaX(a, b),
             a.q0 * b.q1 - a.q1 * b.q0 - a.q2 * b.q3 + a.q3 * b.q2);
    Products(DeltaY(a, b), a.q0 * b.q2 + a.q1 * b.q3 - a.q2 * b.q0 - a.q3 * b.q1, DeltaY(a, b),
             a.q0 * b.q2 + a.q1 * b.q3 - a.q2 * b.q0 - a.q3 * b.q1);
    Products(DeltaZ(a, b), a.q0 * b.q3 - a.q1 * b.q2 + a.q2 * b.q1 - a.q3 * b.q0, DeltaZ(a, b),
             a.q0 * b.q3 - a.q1 * b.q2 + a.q2 * b.q1 - a.q3 * b.q0);
  }

  /** Cauchy-Schwarz with its remainder: the four-square identity. */
  lemma FourSquares(a: Quat, b: Quat)
    ensures Norm2(a) * Norm2(b) == Dot(a, b) * Dot(a, b) + DeltaX(a, b) * DeltaX(a, b)
                                   + DeltaY(a, b) * DeltaY(a, b) + DeltaZ(a, b) * DeltaZ(a, b)
  {
    FourSquareIdentity(a, b);
    DotWritten(a, b);
    DeltaWritten(a, b);
  }

  lemma SquareAtMostOne(x: real)
    requires x * x <= 1.0
    ensures -1.0 <= x <= 1.0
  {
  }

  lemma DotOfUnits(a: Quat, b: Quat)
    requires Unit(a) && Unit(b)
    ensures -1.0 <= Dot(a, b) <= 1.0
    ensures Clamp(Dot(a, b), 1.0) == Dot(a, b)
    ensures DeltaX(a, b) * DeltaX(a, b) + DeltaY(a, b) * DeltaY(a, b) + DeltaZ(a, b) * DeltaZ(a, b)
         == 1.0 - Dot(a, b) * Dot(a, b)
  {
    FourSquares(a, b);
    SquareNonNegative(DeltaX(a, b));
    SquareNonNegative(DeltaY(a, b));
    SquareNonNegative(DeltaZ(a, b));
    SquareAtMostOne(Dot(a, b));
  }

  // ---- noise ----

  /** The jitter of one stream in one second, spread over [-amplitude, amplitude]. */
  function Noise(m: Math, stream: nat, amplitude: real, reference: real, now: real): real {
    var bucket := (now - reference).Floor;
    amplitude * (2.0 * (m.mix(stream, bucket) as real / MAX_WORD) - 1.0)
  }

  lemma ProductWithin(a: real, x: real)
    requires a >= 0.0 && -1.0 <= x <= 1.0
    ensures -a <= a * x <= a
  {
  }

  lemma NoiseWithin(m: Math, stream: nat, amplitude: real, reference: real, now: real)
    requires Lawful(m) && amplitude >= 0.0
    ensures -amplitude <= Noise(m, stream, amplitude, reference, now) <= amplitude
  {
    var v := m.mix(stream, (now - reference).Floor) as real;
    assert 0.0 <= v <= MAX_WORD;
    var x := 2.0 * (v / MAX_WORD) - 1.0;
    assert -1.0 <= x <= 1.0;
    ProductWithin(amplitude, x);
    assert Noise(m, stream, amplitude, reference, now) == amplitude * x;
  }

  // ---- the state and its three kinds of step ----

  datatype State = State(
    q: Quat, omega: Rates, mag: Rates, pointingErrorDeg: real, mode: nat, sensorValid: nat,
    target: Quat, externalTargetActive: bool, elapsed: real, reference: real, lastUpdate: real,
    manualTimeActive: bool, manualNow: real, droppedStateReplies: nat)

  function IdleAttitude(m: Math, s: State, now: real): Quat {
    Quat(1.0, Noise(m, 3, 0.0008, s.reference, now), Noise(m, 4, 0.0008, s.reference, now),
         Noise(m, 5, 0.0008, s.reference, now))
  }

  function IdleStep(m: Math, s: State, now: real): State {
    s.(omega := Rates(0.12 + Noise(m, 0, 0.002, s.reference, now), -0.08 + Noise(m, 1, 0.002, s.reference, now),
                      0.06 + Noise(m, 2, 0.002, s.reference, now)),
       q := Normalize(m, IdleAttitude(m, s, now)))
  }

  function Blend(rate: real, decay: real, forcing: real): real {
    rate * decay + forcing * (1.0 - decay)
  }

  function DetumblePhase(m: Math, elapsed: real): real {
    2.0 * m.pi * (elapsed / 60.0)
  }

  function Forcing(m: Math, s: State, amplitude: real, shift: real, stream: nat, now: real): real {
    amplitude * m.sin(DetumblePhase(m, s.elapsed) + shift) + Noise(m, stream, 0.0015, s.reference, now)
  }

  function DetumbleAttitude(m: Math, s: State, blend: real, now: real): Quat {
    Quat(s.q.q0, s.q.q1 + Noise(m, 9, 0.0004, s.reference, now) * blend,
         s.q.q2 + Noise(m, 10, 0.0004, s.reference, now) * blend,
         s.q.q3 + Noise(m, 11, 0.0004, s.reference, now) * blend)
  }

  function DetumbleStep(m: Math, s: State, dt: real, now: real): State {
    var decay := m.exp(-dt / 10.0);
    s.(omega := Rates(Blend(s.omega.x, decay, Forcing(m, s, 0.0012, 0.0, 6, now)),
                      Blend(s.omega.y, decay, Forcing(m, s, 0.0010, 1.0, 7, now)),
                      Blend(s.omega.z, decay, Forcing(m, s, 0.0008, 2.0, 8, now))),
       q := Normalize(m, DetumbleAttitude(m, s, 1.0 - decay, now)),
       elapsed := s.elapsed + dt)
  }

  function EulerProduct(cr: real, sr: real, cp: real, sp: real, cy: real, sy: real): Quat {
    Quat(cr * cp * cy + sr * sp * sy, sr * cp * cy - cr * sp * sy, cr * sp * cy + sr * cp * sy,
         cr * cp * sy - sr * sp * cy)
  }

  function EulerToQuaternion(m: Math, roll: real, pitch: real, yaw: real): Quat {
    Normalize(m, EulerProduct(m.cos(roll * 0.5), m.sin(roll * 0.5), m.cos(pitch * 0.5), m.sin(pitch * 0.5),
                              m.cos(yaw * 0.5), m.sin(yaw * 0.5)))
  }

  /** The remainder of a non-negative time after whole cycles. */
  function CycleTime(t: real, cycle: real): real
    requires cycle > 0.0
  {
    t - cycle * (t / cycle).Floor as real
  }

  /** Roll, pitch and yaw of the synthetic pass, in radians. */
  function DesiredAngles(m: Math, elapsed: real): (real, real, real) {
    AnglesAt(m, CycleTime(elapsed, 60.0) / 60.0)
  }

  function AnglesAt(m: Math, phase: real): (real, real, real) {
    var yaw := -35.0 + 70.0 * phase;
    var pitch := 18.0 + 32.0 * m.sin(m.pi * phase);
    var roll := 2.0 * m.sin(2.0 * m.pi * phase);
    (roll * m.pi / 180.0, pitch * m.pi / 180.0, yaw * m.pi / 180.0)
  }

  function DesiredQuaternion(m: Math, elapsed: real): Quat {
    var angles := DesiredAngles(m, elapsed);
    EulerToQuaternion(m, angles.0, angles.1, angles.2)
  }

  function Toward(q: Quat, goal: Quat, alpha: real): Quat {
    Quat(q.q0 + alpha * (goal.q0 - q.q0), q.q1 + alpha * (goal.q1 - q.q1),
         q.q2 + alpha * (goal.q2 - q.q2), q.q3 + alpha * (goal.q3 - q.q3))
  }

  const COMPONENT_LIMIT: real := 0.03
  const NORM_LIMIT: real := 0.049

  function Square(r: Rates): real {
    r.x * r.x + r.y * r.y + r.z * r.z
  }

  /** The final scaling: a rate vector longer than the limit is shortened to it. */
  function LimitNorm(m: Math, r: Rates): Rates {
    var norm := m.sqrt(Square(r));
    if norm > NORM_LIMIT then
      var scale := NORM_LIMIT / norm;
      Rates(r.x * scale, r.y * scale, r.z * scale)
    else r
  }

  function HalfSine(m: Math, a: Quat, b: Quat): real {
    m.sqrt(Max(0.0, 1.0 - Dot(a, b) * Dot(a, b)))
  }

  /** The unit rotation axis between two attitudes, or zero when they are all but equal. */
  function Axis(m: Math, a: Quat, b: Quat): Rates {
    var s := HalfSine(m, a, b);
    if s > 0.000000001 then Rates(DeltaX(a, b) / s, DeltaY(a, b) / s, DeltaZ(a, b) / s) else Rates(0.0, 0.0, 0.0)
  }

  function ClampedRates(axis: Rates, angle: real, dt: real): Rates
    requires dt != 0.0
  {
    Rates(Clamp(axis.x * angle / dt, COMPONENT_LIMIT), Clamp(axis.y * angle / dt, COMPONENT_LIMIT),
          Clamp(axis.z * angle / dt, COMPONENT_LIMIT))
  }

  function AngularVelocity(m: Math, previous: Quat, next: Quat, dt: real): Rates
    requires dt != 0.0
  {
    if dt < 0.0 then Rates(0.0, 0.0, 0.0)
    else
      var angle := 2.0 * m.acos(Clamp(Abs(Dot(previous, next)), 1.0));
      LimitNorm(m, ClampedRates(Axis(m, previous, next), angle, dt))
  }

  /** First-order tracking of the desired attitude. */
  function Approach(m: Math, q: Quat, desired: Quat, dt: real): Quat {
    Normalize(m, Toward(q, desired, 1.0 - m.exp(-dt / 2.5)))
  }

  function PointingStep(m: Math, s: State, dt: real): State
    requires dt != 0.0
  {
    var desired := DesiredQuaternion(m, s.elapsed + dt);
    var q := Approach(m, s.q, desired, dt);
    s.(elapsed := s.elapsed + dt, q := q, omega := AngularVelocity(m, s.q, q, dt),
       target := if s.externalTargetActive then s.target else desired)
  }

  function PointingErrorDeg(m: Math, q: Quat, target: Quat): real
    requires m.pi != 0.0
  {
    2.0 * m.acos(Abs(Clamp(Dot(q, target), 1.0))) * 180.0 / m.pi
  }

  function Refreshed(m: Math, s: State): State
    requires m.pi != 0.0
  {
    s.(mag := Rates(0.21 + s.omega.x * 0.1, -0.04 + s.omega.y * 0.1, 0.44 + s.omega.z * 0.1),
       pointingErrorDeg := PointingErrorDeg(m, s.q, s.target))
  }

  function StepAt(m: Math, s: State, now: real): State
    requires m.pi != 0.0
  {
    if now < s.lastUpdate then s
    else
      var dt := now - s.lastUpdate;
      if dt <= 0.0 then Refreshed(m, s)
      else
        var t := if s.mode == 1 then DetumbleStep(m, s, dt, now)
                 else if s.mode == 2 then PointingStep(m, s, dt) else IdleStep(m, s, now);
        Refreshed(m, t.(lastUpdate := now))
  }

  // ---- what the steps keep ----

  ghost predicate UnitState(s: State) {
    Unit(s.q) && Unit(s.target)
  }

  lemma EulerIdentity(cr: real, sr: real, cp: real, sp: real, cy: real, sy: real)
    ensures Norm2(EulerProduct(cr, sr, cp, sp, cy, sy))
         == (cr * cr + sr * sr) * ((cp * cp + sp * sp) * (cy * cy + sy * sy))
  {
    EulerPair(cr, sr, cp * cy, sp * sy);
    EulerPair(cr, sr, sp * cy, cp * sy);
    EulerRest(cr * cr + sr * sr, cp, sp, cy, sy);
  }

  lemma EulerPair(c: real, s: real, a: real, b: real)
    ensures (c * a + s * b) * (c * a + s * b) + (s * a - c * b) * (s * a - c * b) == (c * c + s * s) * (a * a + b * b)
  {
  }

  lemma EulerRest(k: real, cp: real, sp: real, cy: real, sy: real)
    ensures k * ((cp * cy) * (cp * cy) + (sp * sy) * (sp * sy)) + k * ((sp * cy) * (sp * cy) + (cp * sy) * (cp * sy))
         == k * ((cp * cp + sp * sp) * (cy * cy + sy * sy))
  {
  }

  /** The product of three half-angle rotations is already a unit quaternion. */
  lemma EulerUnit(m: Math, roll: real, pitch: real, yaw: real)
    requires Lawful(m)
    ensures Unit(EulerProduct(m.cos(roll * 0.5), m.sin(roll * 0.5), m.cos(pitch * 0.5), m.sin(pitch * 0.5),
                              m.cos(yaw * 0.5), m.sin(yaw * 0.5)))
  {
    EulerIdentity(m.cos(roll * 0.5), m.sin(roll * 0.5), m.cos(pitch * 0.5), m.sin(pitch * 0.5),
                  m.cos(yaw * 0.5), m.sin(yaw * 0.5));
    Pythagoras(m, roll * 0.5);
    Pythagoras(m, pitch * 0.5);
    Pythagoras(m, yaw * 0.5);
    hide Lawful, EulerProduct, Norm2;
  }

  lemma Pythagoras(m: Math, x: real)
    requires Lawful(m)
    ensures m.cos(x) * m.cos(x) + m.sin(x) * m.sin(x) == 1.0
  {
    assert m.sin(x) * m.sin(x) + m.cos(x) * m.cos(x) == 1.0;
  }

  lemma RootOfOne(m: Math)
    requires Lawful(m)
    ensures m.sqrt(1.0) == 1.0
  {
    var r := m.sqrt(1.0);
    assert r >= 0.0 && r * r == 1.0;
    SquareAtMostOne(r);
    ProductMonotone(r, 1.0, r);
  }

  lemma NormalizeKeepsUnit(m: Math, q: Quat)
    requires Lawful(m) && Unit(q)
    ensures Normalize(m, q) == q
  {
    RootOfOne(m);
  }

  /** So normalising it changes nothing. */
  lemma EulerNeedsNoNormalizing(m: Math, roll: real, pitch: real, yaw: real)
    requires Lawful(m)
    ensures EulerToQuaternion(m, roll, pitch, yaw)
         == EulerProduct(m.cos(roll * 0.5), m.sin(roll * 0.5), m.cos(pitch * 0.5), m.sin(pitch * 0.5),
                         m.cos(yaw * 0.5), m.sin(yaw * 0.5))
  {
    EulerUnit(m, roll, pitch, yaw);
    NormalizeKeepsUnit(m, EulerProduct(m.cos(roll * 0.5), m.sin(roll * 0.5), m.cos(pitch * 0.5), m.sin(pitch * 0.5),
                                       m.cos(yaw * 0.5), m.sin(yaw * 0.5)));
  }

  lemma DesiredUnit(m: Math, elapsed: real)
    requires Lawful(m)
    ensures Unit(DesiredQuaternion(m, elapsed))
  {
    var a := DesiredAngles(m, elapsed);
    EulerUnit(m, a.0, a.1, a.2);
    EulerNeedsNoNormalizing(m, a.0, a.1, a.2);
  }

  lemma DetumbleUnit(m: Math, s: State, dt: real, now: real)
    requires Lawful(m) && UnitState(s)
    ensures UnitState(DetumbleStep(m, s, dt, now))
  {
    NormalizeUnit(m, DetumbleAttitude(m, s, 1.0 - m.exp(-dt / 10.0), now));
  }

  lemma PointingUnit(m: Math, s: State, dt: real)
    requires Lawful(m) && UnitState(s) && dt != 0.0
    ensures UnitState(PointingStep(m, s, dt))
  {
    NormalizeUnit(m, Toward(s.q, DesiredQuaternion(m, s.elapsed + dt), 1.0 - m.exp(-dt / 2.5)));
    DesiredUnit(m, s.elapsed + dt);
  }

  lemma IdleUnit(m: Math, s: State, now: real)
    requires Lawful(m) && UnitState(s)
    ensures UnitState(IdleStep(m, s, now))
  {
    NormalizeUnit(m, IdleAttitude(m, s, now));
  }

  /** Every step, in whatever mode and at whatever time, leaves attitude and target at norm one. */
  lemma StepKeepsUnit(m: Math, s: State, now: real)
    requires Lawful(m) && UnitState(s)
    ensures UnitState(StepAt(m, s, now))
  {
    var dt := now - s.lastUpdate;
    if dt > 0.0 {
      if s.mode == 1 {
        DetumbleUnit(m, s, dt, now);
      } else if s.mode == 2 {
        PointingUnit(m, s, dt);
      } else {
        IdleUnit(m, s, now);
      }
    }
  }

  // ---- rates ----

  ghost predicate Within(r: Rates, bound: Rates) {
    -bound.x <= r.x <= bound.x && -bound.y <= r.y <= bound.y && -bound.z <= r.z <= bound.z
  }

  const AXIS_LIMIT: Rates := Rates(COMPONENT_LIMIT, COMPONENT_LIMIT, COMPONENT_LIMIT)
  const ENVELOPE: Rates := Rates(0.122, 0.082, 0.062)

  lemma SquareMonotone(a: real, b: real)
    requires a >= 0.0 && b >= 0.0 && a <= b
    ensures a * a <= b * b
  {
  }

  lemma ScaledRates(r: Rates, k: real)
    ensures Square(Rates(r.x * k, r.y * k, r.z * k)) == (k * k) * Square(r)
  {
  }

  lemma ProductMonotone(a: real, b: real, k: real)
    requires a <= b && k >= 0.0
    ensures a * k <= b * k
  {
  }

  lemma Shrinks(x: real, k: real, bound: real)
    requires 0.0 < k < 1.0 && bound >= 0.0 && -bound <= x <= bound
    ensures -bound <= x * k <= bound
  {
    ShrinksAbove(x, k, bound);
    ShrinksAbove(-x, k, bound);
    NegativeProduct(x, k);
  }

  lemma ShrinksAbove(x: real, k: real, bound: real)
    requires 0.0 < k < 1.0 && bound >= 0.0 && x <= bound
    ensures x * k <= bound
  {
    ProductNonNegative(bound - x, k);
    ProductNonNegative(bound, 1.0 - k);
    ShrinkIdentity(x, k, bound);
  }

  lemma ShrinkIdentity(x: real, k: real, bound: real)
    ensures bound - x * k == (bound - x) * k + bound * (1.0 - k)
  {
  }

  lemma ProductNonNegative(a: real, b: real)
    requires a >= 0.0 && b >= 0.0
    ensures a * b >= 0.0
  {
  }

  lemma NegativeProduct(x: real, k: real)
    ensures (-x) * k == -(x * k)
  {
  }

  lemma ScaleToLimit(r: Rates, n: real, k: real)
    requires k * n == NORM_LIMIT && n * n == Square(r)
    ensures Square(Rates(r.x * k, r.y * k, r.z * k)) == NORM_LIMIT * NORM_LIMIT
  {
    ScaledRates(r, k);
    assert (k * k) * (n * n) == (k * n) * (k * n);
  }

  lemma ScaleFactor(n: real)
    requires n > NORM_LIMIT
    ensures 0.0 < NORM_LIMIT / n < 1.0 && (NORM_LIMIT / n) * n == NORM_LIMIT
  {
  }

  /** The limiter keeps every component bound and brings the norm within its limit. */
  lemma LimitNormBounds(m: Math, r: Rates)
    requires Lawful(m) && Within(r, AXIS_LIMIT)
    ensures Within(LimitNorm(m, r), AXIS_LIMIT)
    ensures Square(LimitNorm(m, r)) <= NORM_LIMIT * NORM_LIMIT
  {
    SquareNonNegative(r.x);
    SquareNonNegative(r.y);
    SquareNonNegative(r.z);
    var n := m.sqrt(Square(r));
    assert n >= 0.0 && n * n == Square(r);
    if n > NORM_LIMIT {
      var k := NORM_LIMIT / n;
      ScaleFactor(n);
      ScaleToLimit(r, n, k);
      Shrinks(r.x, k, COMPONENT_LIMIT);
      Shrinks(r.y, k, COMPONENT_LIMIT);
      Shrinks(r.z, k, COMPONENT_LIMIT);
    } else {
      SquareMonotone(n, NORM_LIMIT);
    }
  }

  lemma ClampedWithin(axis: Rates, angle: real, dt: real)
    requires dt != 0.0
    ensures Within(ClampedRates(axis, angle, dt), AXIS_LIMIT)
  {
  }

  /** Whatever the attitudes, a pointing step's rates stay within 0.03 per axis and 0.049 in norm. */
  lemma PointingRates(m: Math, s: State, dt: real)
    requires Lawful(m) && dt > 0.0
    ensures var omega := PointingStep(m, s, dt).omega;
            Within(omega, AXIS_LIMIT) && Square(omega) <= NORM_LIMIT * NORM_LIMIT
  {
    VelocityBounds(m, s.q, Approach(m, s.q, DesiredQuaternion(m, s.elapsed + dt), dt), dt);
  }

  lemma VelocityBounds(m: Math, a: Quat, b: Quat, dt: real)
    requires Lawful(m) && dt > 0.0
    ensures Within(AngularVelocity(m, a, b, dt), AXIS_LIMIT)
    ensures Square(AngularVelocity(m, a, b, dt)) <= NORM_LIMIT * NORM_LIMIT
  {
    var angle := 2.0 * m.acos(Clamp(Abs(Dot(a, b)), 1.0));
    ClampedWithin(Axis(m, a, b), angle, dt);
    LimitNormBounds(m, ClampedRates(Axis(m, a, b), angle, dt));
  }

  /** Between unit attitudes the computed axis has norm one, so before clamping the rate vector is the
    * rotation angle over the elapsed time; neither the arc-cosine's nor the root's guard acts. */
  lemma AxisUnit(m: Math, a: Quat, b: Quat)
    requires Lawful(m) && Unit(a) && Unit(b)
    ensures Clamp(Abs(Dot(a, b)), 1.0) == Abs(Dot(a, b))
    ensures 1.0 - Dot(a, b) * Dot(a, b) >= 0.0
    ensures HalfSine(m, a, b) > 0.000000001 ==> Square(Axis(m, a, b)) == 1.0
  {
    DotOfUnits(a, b);
    var x, y, z := DeltaX(a, b), DeltaY(a, b), DeltaZ(a, b);
    SquareNonNegative(x);
    SquareNonNegative(y);
    SquareNonNegative(z);
    var s := HalfSine(m, a, b);
    if s > 0.000000001 {
      var k := 1.0 / s;
      Divides(x, s);
      Divides(y, s);
      Divides(z, s);
      ScaledRates(Rates(x, y, z), k);
      assert s * s == Square(Rates(x, y, z));
      assert (k * k) * (s * s) == (s * k) * (s * k);
    }
  }

  /** The pointing error's clamp changes nothing on unit quaternions. */
  lemma PointingErrorUnclamped(m: Math, s: State)
    requires Lawful(m) && UnitState(s)
    ensures PointingErrorDeg(m, s.q, s.target) == 2.0 * m.acos(Abs(Dot(s.q, s.target))) * 180.0 / m.pi
  {
    DotOfUnits(s.q, s.target);
  }

  lemma SinWithin(m: Math, x: real)
    requires Lawful(m)
    ensures -1.0 <= m.sin(x) <= 1.0
  {
    SquareNonNegative(m.cos(x));
    assert m.sin(x) * m.sin(x) + m.cos(x) * m.cos(x) == 1.0;
    SquareAtMostOne(m.sin(x));
  }

  /** A blend of two numbers lies between them. */
  lemma BlendAtMost(rate: real, decay: real, forcing: real, bound: real)
    requires 0.0 < decay < 1.0 && rate <= bound && forcing <= bound
    ensures Blend(rate, decay, forcing) <= bound
  {
    ProductNonNegative(bound - rate, decay);
    ProductNonNegative(bound - forcing, 1.0 - decay);
    BlendIdentity(rate, decay, forcing, bound);
  }

  lemma BlendIdentity(rate: real, decay: real, forcing: real, bound: real)
    ensures bound - Blend(rate, decay, forcing) == (bound - rate) * decay + (bound - forcing) * (1.0 - decay)
  {
  }

  lemma BlendNegated(rate: real, decay: real, forcing: real)
    ensures Blend(-rate, decay, -forcing) == -Blend(rate, decay, forcing)
  {
    NegativeProduct(rate, decay);
    NegativeProduct(forcing, 1.0 - decay);
  }

  lemma BlendWithin(rate: real, decay: real, forcing: real, bound: real)
    requires 0.0 < decay < 1.0 && -bound <= rate <= bound && -bound <= forcing <= bound
    ensures -bound <= Blend(rate, decay, forcing) <= bound
  {
    BlendAtMost(rate, decay, forcing, bound);
    BlendAtMost(-rate, decay, -forcing, bound);
    BlendNegated(rate, decay, forcing);
  }

  lemma ForcingWithin(m: Math, s: State, amplitude: real, shift: real, stream: nat, now: real)
    requires Lawful(m) && amplitude >= 0.0
    ensures -(amplitude + 0.0015) <= Forcing(m, s, amplitude, shift, stream, now) <= amplitude + 0.0015
  {
    hide Noise, DetumblePhase, Lawful;
    SinWithin(m, DetumblePhase(m, s.elapsed) + shift);
    ProductWithin(amplitude, m.sin(DetumblePhase(m, s.elapsed) + shift));
    NoiseWithin(m, stream, 0.0015, s.reference, now);
  }

  lemma DetumbleAxis(m: Math, s: State, rate: real, decay: real, amplitude: real, shift: real, stream: nat, now: real)
    requires Lawful(m) && amplitude >= 0.0 && 0.0 < decay < 1.0
    ensures var b := Max(Abs(rate), amplitude + 0.0015);
            -b <= Blend(rate, decay, Forcing(m, s, amplitude, shift, stream, now)) <= b
  {
    ForcingWithin(m, s, amplitude, shift, stream, now);
    BlendWithin(rate, decay, Forcing(m, s, amplitude, shift, stream, now), Max(Abs(rate), amplitude + 0.0015));
  }

  /** Each detumble step leaves every rate within the larger of what it was and its forcing bound. */
  lemma DetumbleRates(m: Math, s: State, dt: real, now: real)
    requires Lawful(m) && dt > 0.0
    ensures Within(DetumbleStep(m, s, dt, now).omega,
                   Rates(Max(Abs(s.omega.x), 0.0027), Max(Abs(s.omega.y), 0.0025), Max(Abs(s.omega.z), 0.0023)))
  {
    var decay := m.exp(-dt / 10.0);
    DetumbleAxis(m, s, s.omega.x, decay, 0.0012, 0.0, 6, now);
    DetumbleAxis(m, s, s.omega.y, decay, 0.0010, 1.0, 7, now);
    DetumbleAxis(m, s, s.omega.z, decay, 0.0008, 2.0, 8, now);
  }

  lemma IdleRates(m: Math, s: State, now: real)
    requires Lawful(m)
    ensures Within(IdleStep(m, s, now).omega, ENVELOPE)
  {
    NoiseWithin(m, 0, 0.002, s.reference, now);
    NoiseWithin(m, 1, 0.002, s.reference, now);
    NoiseWithin(m, 2, 0.002, s.reference, now);
  }

  /** The rate envelope of every mode together. */
  lemma StepKeepsRates(m: Math, s: State, now: real)
    requires Lawful(m) && Within(s.omega, ENVELOPE)
    ensures Within(StepAt(m, s, now).omega, ENVELOPE)
  {
    var dt := now - s.lastUpdate;
    if dt > 0.0 {
      if s.mode == 1 {
        DetumbleRates(m, s, dt, now);
      } else if s.mode == 2 {
        PointingRates(m, s, dt);
      } else {
        IdleRates(m, s, now);
      }
    }
  }
}
