/** What the attitude dynamics achieve: pointing turns towards the desired attitude, detumbling drives the rates
  * to their forcing, and the rates and the error shown are those of the rotation. */
module AdcsPointing {
  import opened AdcsSim

  /** x q + y d */
  function Mix(x: real, q: Quat, y: real, d: Quat): Quat {
    Quat(x * q.q0 + y * d.q0, x * q.q1 + y * d.q1, x * q.q2 + y * d.q2, x * q.q3 + y * d.q3)
  }

  function Scaled(r: Quat, k: real): Quat {
    Quat(r.q0 * k, r.q1 * k, r.q2 * k, r.q3 * k)
  }

  lemma TowardIsMix(q: Quat, d: Quat, a: real)
    ensures Toward(q, d, 1.0 - a) == Mix(a, q, 1.0 - a, d)
  {
    TowardOne(q.q0, d.q0, a);
    TowardOne(q.q1, d.q1, a);
    TowardOne(q.q2, d.q2, a);
    TowardOne(q.q3, d.q3, a);
  }

  lemma TowardOne(q: real, d: real, a: real)
    ensures q + (1.0 - a) * (d - q) == a * q + (1.0 - a) * d
  {
  }

  // ---- products with a mixture ----

  lemma DotMix(x: real, q: Quat, y: real, d: Quat, e: Quat)
    ensures Dot(Mix(x, q, y, d), e) == x * Dot(q, e) + y * Dot(d, e)
  {
    DotMixOne(x, q.q0, y, d.q0, e.q0);
    DotMixOne(x, q.q1, y, d.q1, e.q1);
    DotMixOne(x, q.q2, y, d.q2, e.q2);
    DotMixOne(x, q.q3, y, d.q3, e.q3);
    Distribute(x, q.q0 * e.q0, q.q1 * e.q1, q.q2 * e.q2, q.q3 * e.q3);
    Distribute(y, d.q0 * e.q0, d.q1 * e.q1, d.q2 * e.q2, d.q3 * e.q3);
  }

  lemma DotMixOne(x: real, q: real, y: real, d: real, e: real)
    ensures (x * q + y * d) * e == x * (q * e) + y * (d * e)
  {
  }

  lemma Distribute(x: real, a: real, b: real, c: real, d: real)
    ensures x * (a + b + c + d) == x * a + x * b + x * c + x * d
  {
  }

  lemma DotSymmetric(a: Quat, b: Quat)
    ensures Dot(a, b) == Dot(b, a)
  {
  }

  lemma DotSelf(a: Quat)
    ensures Dot(a, a) == Norm2(a)
  {
  }

  /** The square of the length of a mixture of two unit quaternions. */
  lemma MixLength(a: real, q: Quat, b: real, d: Quat)
    requires Unit(q) && Unit(d)
    ensures Norm2(Mix(a, q, b, d)) == a * a + b * b + 2.0 * (a * b * Dot(q, d))
  {
    var r, c := Mix(a, q, b, d), Dot(q, d);
    DotSelf(r);
    DotMix(a, q, b, d, r);
    DotSymmetric(q, r);
    DotSymmetric(d, r);
    DotMix(a, q, b, d, q);
    DotMix(a, q, b, d, d);
    DotSelf(q);
    DotSelf(d);
    DotSymmetric(d, q);
    hide Mix, Dot, Norm2;
    Collect(a, b, c);
  }

  lemma Collect(a: real, b: real, c: real)
    ensures a * (a * 1.0 + b * c) + b * (a * c + b * 1.0) == a * a + b * b + 2.0 * (a * b * c)
  {
  }

  // ---- one blend of two unit quaternions, by their dot product c ----

  function Along(a: real, c: real): real { a * c + (1.0 - a) }

  function Length2(a: real, c: real): real { a * a + (1.0 - a) * (1.0 - a) + 2.0 * (a * (1.0 - a) * c) }

  /** The blend, cut to length one by dividing by n, has the cosine `next`. */
  predicate Blended(a: real, c: real, next: real, n: real) {
    n > 0.0 && n * n == Length2(a, c) && next * n == Along(a, c)
  }

  /** By how much the squared cosine grows, times the squared length. */
  lemma GainIdentity(a: real, c: real)
    ensures Along(a, c) * Along(a, c) - (c * c) * Length2(a, c)
         == ((1.0 - a) * (1.0 - c * c)) * ((1.0 - a) + 2.0 * (a * c))
  {
  }

  lemma PositiveProduct(x: real, y: real)
    requires x > 0.0 && y > 0.0
    ensures x * y > 0.0
  {
  }

  lemma LengthPositive(a: real, c: real)
    requires 0.0 < a < 1.0 && c > -1.0
    ensures Length2(a, c) > 0.0
  {
    PositiveProduct(a, 1.0 - a);
    PositiveProduct(a * (1.0 - a), 1.0 + c);
    SquareNonNegative(a - (1.0 - a));
    LengthSplit(a, c);
  }

  lemma LengthSplit(a: real, c: real)
    ensures Length2(a, c) == (a - (1.0 - a)) * (a - (1.0 - a)) + 2.0 * (a * (1.0 - a) * (1.0 + c))
  {
  }

  lemma GapPositive(c: real)
    requires -1.0 < c < 1.0
    ensures 1.0 - c * c > 0.0
  {
    PositiveProduct(1.0 - c, 1.0 + c);
  }

  lemma ScaledSquare(c: real, n: real)
    ensures (c * n) * (c * n) == (c * c) * (n * n)
  {
  }

  /** A larger square means a larger number, on the positive side ... */
  lemma LargerSquare(x: real, y: real)
    requires x >= 0.0 && x * x > y * y
    ensures x > y && x > -y
  {
    if y >= x { SquareMonotone(x, y); }
    if -y >= x { SquareMonotone(x, -y); }
  }

  /** ... and the new cosine, the old one being c, is larger than c. */
  lemma CosineGrows(a: real, c: real, next: real, n: real)
    requires 0.0 < a < 1.0 && -1.0 < c < 1.0 && Blended(a, c, next, n)
    ensures next > c
  {
    AlongGrows(a, c, n);
    Cancel(next, c, n);
  }

  lemma AlongGrows(a: real, c: real, n: real)
    requires 0.0 < a < 1.0 && -1.0 < c < 1.0 && n > 0.0 && n * n == Length2(a, c)
    ensures Along(a, c) > c * n
  {
    var b, t, w, g := 1.0 - a, a * c, c * n, (1.0 - a) * (1.0 - c * c);
    GainOver(a, c, n);
    GapPositive(c);
    PositiveProduct(b, 1.0 - c * c);
    if c >= 0.0 {
      ProductNonNegative(a, c);
      ProductNonNegative(c, n);
    } else {
      PositiveProduct(a, -c);
      NegativeFactor(a, c);
      PositiveProduct(-c, n);
      NegativeProduct(c, n);
    }
    hide *;
    GrowthCore(b, t, w, g);
    AlongIs(a, c);
  }

  lemma AlongIs(a: real, c: real)
    ensures Along(a, c) == a * c + (1.0 - a)
  {
  }

  lemma GainOver(a: real, c: real, n: real)
    requires n * n == Length2(a, c)
    ensures (a * c + (1.0 - a)) * (a * c + (1.0 - a)) - (c * n) * (c * n)
         == ((1.0 - a) * (1.0 - c * c)) * ((1.0 - a) + 2.0 * (a * c))
  {
    GainIdentity(a, c);
    ScaledSquare(c, n);
    SameProduct(c * c, n * n, Length2(a, c));
    hide Length2;
  }

  lemma SameProduct(x: real, y: real, z: real)
    requires y == z
    ensures x * y == x * z
  {
  }

  /** The case split on its own: t is a c, the was cosine times the length is `was`. */
  lemma GrowthCore(b: real, t: real, was: real, g: real)
    requires b > 0.0 && g > 0.0 && ((t >= 0.0 && was >= 0.0) || (t < 0.0 && was < 0.0))
    requires (t + b) * (t + b) - was * was == g * (b + 2.0 * t)
    ensures t + b > was
  {
    if t >= 0.0 {
      PositiveProduct(g, b + 2.0 * t);
      LargerSquare(t + b, was);
    } else if t + b < 0.0 {
      PositiveProduct(g, -(b + 2.0 * t));
      NegativeFactor(g, b + 2.0 * t);
      LargerSquare(-was, t + b);
    }
  }

  lemma NegativeFactor(x: real, y: real)
    ensures x * (-y) == -(x * y)
  {
  }

  // ---- the step ----

  lemma ExpWithin(m: Math, dt: real, tau: real)
    requires Lawful(m) && dt > 0.0 && tau > 0.0
    ensures 0.0 < m.exp(-dt / tau) < 1.0
  {
    assert -dt / tau < 0.0;
  }

  lemma NormalizeScales(m: Math, q: Quat) returns (n: real)
    requires Lawful(m) && Norm2(q) > 0.0
    ensures n > 0.0 && n * n == Norm2(q) && Normalize(m, q) == Quat(q.q0 / n, q.q1 / n, q.q2 / n, q.q3 / n)
  {
    n := m.sqrt(Norm2(q));
    assert n * n == Norm2(q);
  }

  /** Away from the antipode the new attitude is a positive multiple of e^(-dt/2.5) q + (1 - e^(-dt/2.5)) d. */
  lemma Approaches(m: Math, q: Quat, d: Quat, dt: real) returns (k: real)
    requires Lawful(m) && Unit(q) && Unit(d) && Dot(q, d) > -1.0 && dt > 0.0
    ensures var a := m.exp(-dt / 2.5); var r := Mix(a, q, 1.0 - a, d);
            && k > 0.0 && (k * k) * Length2(a, Dot(q, d)) == 1.0
            && Approach(m, q, d, dt) == Scaled(r, k)
  {
    hide *;
    ExpWithin(m, dt, 2.5);
    var a := m.exp(-dt / 2.5);
    TowardIsMix(q, d, a);
    BlendLength(a, q, d);
    k := UnitScale(m, Mix(a, q, 1.0 - a, d));
    ApproachIs(m, q, d, dt);
  }

  lemma BlendLength(a: real, q: Quat, d: Quat)
    requires 0.0 < a < 1.0 && Unit(q) && Unit(d) && Dot(q, d) > -1.0
    ensures Norm2(Mix(a, q, 1.0 - a, d)) == Length2(a, Dot(q, d)) > 0.0
  {
    hide Mix, Dot, Norm2;
    MixLength(a, q, 1.0 - a, d);
    LengthPositive(a, Dot(q, d));
  }

  lemma ApproachIs(m: Math, q: Quat, d: Quat, dt: real)
    ensures Approach(m, q, d, dt) == Normalize(m, Toward(q, d, 1.0 - m.exp(-dt / 2.5)))
  {
  }

  lemma UnitScale(m: Math, r: Quat) returns (k: real)
    requires Lawful(m) && Norm2(r) > 0.0
    ensures k > 0.0 && (k * k) * Norm2(r) == 1.0
    ensures Normalize(m, r) == Scaled(r, k)
  {
    hide *;
    var n := NormalizeScales(m, r);
    k := InverseOf(n);
    DivideAll(r, n, k);
  }

  lemma InverseOf(n: real) returns (k: real)
    requires n > 0.0
    ensures k > 0.0 && k == 1.0 / n && (k * k) * (n * n) == 1.0
  {
    k := 1.0 / n;
    InverseSquare(n, k);
  }

  lemma DivideAll(r: Quat, n: real, k: real)
    requires n > 0.0 && k == 1.0 / n
    ensures Quat(r.q0 / n, r.q1 / n, r.q2 / n, r.q3 / n) == Scaled(r, k)
  {
    Divides(r.q0, n);
    Divides(r.q1, n);
    Divides(r.q2, n);
    Divides(r.q3, n);
  }

  lemma InverseSquare(n: real, k: real)
    requires n * k == 1.0 && n > 0.0
    ensures k > 0.0 && (k * k) * (n * n) == 1.0
  {
    assert (k * k) * (n * n) == (n * k) * (n * k);
    if k <= 0.0 { ProductNonNegative(n, -k); NegativeFactor(n, k); }
  }

  lemma DotScaled(r: Quat, k: real, d: Quat)
    ensures Dot(Scaled(r, k), d) == k * Dot(r, d)
  {
    ScaledOne(r.q0, k, d.q0);
    ScaledOne(r.q1, k, d.q1);
    ScaledOne(r.q2, k, d.q2);
    ScaledOne(r.q3, k, d.q3);
    Distribute(k, r.q0 * d.q0, r.q1 * d.q1, r.q2 * d.q2, r.q3 * d.q3);
  }

  lemma ScaledOne(r: real, k: real, d: real)
    ensures (r * k) * d == k * (r * d)
  {
  }

  /** The new cosine, and the length that divides it. */
  lemma NewCosine(m: Math, q: Quat, d: Quat, dt: real) returns (n: real)
    requires Lawful(m) && Unit(q) && Unit(d) && Dot(q, d) > -1.0 && dt > 0.0
    ensures Blended(m.exp(-dt / 2.5), Dot(q, d), Dot(Approach(m, q, d, dt), d), n)
  {
    hide *;
    var a := m.exp(-dt / 2.5);
    var r := Mix(a, q, 1.0 - a, d);
    var k := Approaches(m, q, d, dt);
    DotScaled(r, k, d);
    assert Dot(Approach(m, q, d, dt), d) == k * Dot(r, d);
    DotMix(a, q, 1.0 - a, d, d);
    DotUnit(d);
    n := BlendScale(a, Dot(q, d), k, Dot(r, d), Dot(Approach(m, q, d, dt), d));
  }

  lemma DotUnit(d: Quat)
    requires Unit(d)
    ensures Dot(d, d) == 1.0
  {
  }

  lemma BlendScale(a: real, c: real, k: real, x: real, next: real) returns (n: real)
    requires k > 0.0 && (k * k) * Length2(a, c) == 1.0 && x == a * c + (1.0 - a) * 1.0 && next == k * x
    ensures Blended(a, c, next, n)
  {
    hide Length2;
    n := 1.0 / k;
    Divides(1.0, k);
    InverseLength(k, n, Length2(a, c));
    CancelScale(k, n, x);
  }

  lemma InverseLength(k: real, n: real, l: real)
    requires k > 0.0 && k * n == 1.0 && (k * k) * l == 1.0
    ensures n > 0.0 && n * n == l
  {
    InverseSquare(k, n);
    assert (n * n) * ((k * k) * l) == ((n * n) * (k * k)) * l;
  }

  lemma CancelScale(k: real, n: real, x: real)
    requires k * n == 1.0
    ensures (k * x) * n == x
  {
    assert (k * x) * n == (k * n) * x;
  }

  lemma Cancel(x: real, y: real, n: real)
    requires n > 0.0 && x * n > y * n
    ensures x > y
  {
    if x <= y { ProductMonotone(x, y, n); }
  }

  lemma NewAttitude(m: Math, s: State, dt: real)
    requires dt > 0.0
    ensures PointingStep(m, s, dt).q == Approach(m, s.q, DesiredQuaternion(m, s.elapsed + dt), dt)
  {
    hide Approach, DesiredQuaternion, AngularVelocity;
  }

  /** Each pointing step turns the attitude strictly towards the desired one, unless they agree or are
    * antipodal. */
  lemma PointingTurnsTowards(m: Math, s: State, dt: real)
    requires Lawful(m) && Unit(s.q) && dt > 0.0
    requires -1.0 < Dot(s.q, DesiredQuaternion(m, s.elapsed + dt)) < 1.0
    ensures var d := DesiredQuaternion(m, s.elapsed + dt);
            Dot(PointingStep(m, s, dt).q, d) > Dot(s.q, d)
  {
    var d := DesiredQuaternion(m, s.elapsed + dt);
    hide *;
    DesiredUnit(m, s.elapsed + dt);
    ExpWithin(m, dt, 2.5);
    var n := NewCosine(m, s.q, d, dt);
    NewAttitude(m, s, dt);
    CosineGrows(m.exp(-dt / 2.5), Dot(s.q, d), Dot(Approach(m, s.q, d, dt), d), n);
  }

  /** A quaternion and its negative are one attitude, and the error shown goes by the magnitude of the cosine.
    * That grows exactly when 2 e^(-dt/2.5) cos > e^(-dt/2.5) - 1: from the far side of the double cover the
    * tracker goes the long way round, and the error first grows. */
  lemma ErrorShrinksIff(m: Math, s: State, dt: real)
    requires Lawful(m) && Unit(s.q) && dt > 0.0
    requires -1.0 < Dot(s.q, DesiredQuaternion(m, s.elapsed + dt)) < 1.0
    ensures var d := DesiredQuaternion(m, s.elapsed + dt);
            Abs(Dot(PointingStep(m, s, dt).q, d)) > Abs(Dot(s.q, d)) <==> NearSide(m.exp(-dt / 2.5), Dot(s.q, d))
  {
    var d, a := DesiredQuaternion(m, s.elapsed + dt), m.exp(-dt / 2.5);
    hide *;
    DesiredUnit(m, s.elapsed + dt);
    ExpWithin(m, dt, 2.5);
    var n := NewCosine(m, s.q, d, dt);
    NewAttitude(m, s, dt);
    MagnitudeGrows(a, Dot(s.q, d), Dot(Approach(m, s.q, d, dt), d), n);
  }

  /** A unit quaternion at right angles to d, and one mostly opposite to it. */
  function Side(d: Quat): Quat { Quat(-d.q1, d.q0, -d.q3, d.q2) }
  function Behind(d: Quat): Quat { Mix(-0.6, d, 0.8, Side(d)) }

  lemma BehindIs(d: Quat)
    requires Unit(d)
    ensures Unit(Behind(d)) && Dot(Behind(d), d) == -0.6
  {
    SideIs(d);
    DotUnit(d);
    DotMix(-0.6, d, 0.8, Side(d), d);
    MixLength(-0.6, d, 0.8, Side(d));
    hide Mix, Dot, Side;
  }

  lemma SideIs(d: Quat)
    requires Unit(d)
    ensures Unit(Side(d)) && Dot(Side(d), d) == 0.0 && Dot(d, Side(d)) == 0.0
  {
  }

  /** From there a step with e^(-dt/2.5) >= 1/2 does not bring the attitudes closer. */
  lemma LongWayRound(m: Math, s: State, dt: real)
    requires Lawful(m) && dt > 0.0 && m.exp(-dt / 2.5) >= 0.5
    requires s.q == Behind(DesiredQuaternion(m, s.elapsed + dt))
    ensures var d := DesiredQuaternion(m, s.elapsed + dt);
            Unit(s.q) && !(Abs(Dot(PointingStep(m, s, dt).q, d)) > Abs(Dot(s.q, d)))
  {
    var d, a := DesiredQuaternion(m, s.elapsed + dt), m.exp(-dt / 2.5);
    hide *;
    DesiredUnit(m, s.elapsed + dt);
    BehindIs(d);
    ErrorShrinksIff(m, s, dt);
    NearSideIs(a, -0.6);
  }

  /** c is above -(1 - a) / 2a. */
  predicate NearSide(a: real, c: real) {
    (1.0 - a) + 2.0 * (a * c) > 0.0
  }

  lemma MagnitudeGrows(a: real, c: real, next: real, n: real)
    requires 0.0 < a < 1.0 && -1.0 < c < 1.0 && Blended(a, c, next, n)
    ensures Abs(next) > Abs(c) <==> NearSide(a, c)
  {
    var h, g := (1.0 - a) + 2.0 * (a * c), (1.0 - a) * (1.0 - c * c);
    GapBalance(a, c, next, n);
    GapPositive(c);
    PositiveProduct(1.0 - a, 1.0 - c * c);
    PositiveProduct(n, n);
    hide *;
    SameSign(next * next - c * c, n * n, g, h);
    AbsBySquares(next, c);
    NearSideIs(a, c);
  }

  lemma GapBalance(a: real, c: real, next: real, n: real)
    requires Blended(a, c, next, n)
    ensures (next * next - c * c) * (n * n) == ((1.0 - a) * (1.0 - c * c)) * ((1.0 - a) + 2.0 * (a * c))
  {
    GainOver(a, c, n);
    SquareGap(next, c, n);
    SameSquare(next * n, a * c + (1.0 - a));
    hide *;
  }

  lemma NearSideIs(a: real, c: real)
    ensures NearSide(a, c) <==> (1.0 - a) + 2.0 * (a * c) > 0.0
  {
  }

  lemma SquareGap(x: real, y: real, n: real)
    ensures (x * x - y * y) * (n * n) == (x * n) * (x * n) - (y * n) * (y * n)
  {
  }

  lemma SameSquare(x: real, y: real)
    requires x == y
    ensures x * x == y * y
  {
  }

  lemma SameSign(x: real, k: real, g: real, h: real)
    requires k > 0.0 && g > 0.0 && x * k == g * h
    ensures x > 0.0 <==> h > 0.0
  {
    if x > 0.0 {
      PositiveProduct(x, k);
      if h <= 0.0 { ProductNonNegative(g, -h); NegativeFactor(g, h); }
    }
    if h > 0.0 {
      PositiveProduct(g, h);
      if x <= 0.0 { ProductNonNegative(k, -x); NegativeFactor(k, x); }
    }
  }

  lemma AbsBySquares(x: real, y: real)
    ensures Abs(x) > Abs(y) <==> x * x > y * y
  {
    AbsSquare(x);
    AbsSquare(y);
    hide *;
    SquaresOrder(Abs(x), Abs(y));
  }

  lemma SquaresOrder(a: real, b: real)
    requires a >= 0.0 && b >= 0.0
    ensures a > b <==> a * a > b * b
  {
    if a > b {
      PositiveProduct(a - b, a + b);
      SquareDifference(a, b);
    } else {
      SquareMonotone(a, b);
    }
  }

  lemma AbsSquare(x: real)
    ensures Abs(x) * Abs(x) == x * x
  {
  }

  lemma SquareDifference(a: real, b: real)
    ensures (a - b) * (a + b) == a * a - b * b
  {
  }

  // ---- detumbling ----

  /** Each rate keeps the fraction e^(-dt/10) of its distance to the forcing, a sine of one cycle in 60 s under
    * a bounded jitter; what is left shrinks strictly. */
  lemma DetumbleContracts(m: Math, s: State, dt: real, now: real) returns (jitter: Rates)
    requires Lawful(m) && dt > 0.0
    ensures Within(jitter, Rates(0.0015, 0.0015, 0.0015))
    ensures var omega := DetumbleStep(m, s, dt, now).omega; var decay := m.exp(-dt / 10.0);
            && 0.0 < decay < 1.0
            && Driven(m, s, s.omega.x, omega.x, 0.0012, 0.0, jitter.x, decay)
            && Driven(m, s, s.omega.y, omega.y, 0.0010, 1.0, jitter.y, decay)
            && Driven(m, s, s.omega.z, omega.z, 0.0008, 2.0, jitter.z, decay)
  {
    var decay := m.exp(-dt / 10.0);
    DetumbleOmega(m, s, dt, now);
    hide Blend, Forcing, Lawful, Noise, Driven, DetumbleStep;
    ExpWithin(m, dt, 10.0);
    jitter := Rates(Noise(m, 6, 0.0015, s.reference, now), Noise(m, 7, 0.0015, s.reference, now),
                    Noise(m, 8, 0.0015, s.reference, now));
    AxisContracts(m, s, s.omega.x, decay, 0.0012, 0.0, 6, now);
    AxisContracts(m, s, s.omega.y, decay, 0.0010, 1.0, 7, now);
    AxisContracts(m, s, s.omega.z, decay, 0.0008, 2.0, 8, now);
  }

  lemma DetumbleOmega(m: Math, s: State, dt: real, now: real)
    ensures var decay := m.exp(-dt / 10.0);
            DetumbleStep(m, s, dt, now).omega
            == Rates(Blend(s.omega.x, decay, Forcing(m, s, 0.0012, 0.0, 6, now)),
                     Blend(s.omega.y, decay, Forcing(m, s, 0.0010, 1.0, 7, now)),
                     Blend(s.omega.z, decay, Forcing(m, s, 0.0008, 2.0, 8, now)))
  {
    hide Blend, Forcing, DetumbleAttitude, Normalize;
  }

  function Phase(m: Math, s: State): real { 2.0 * m.pi * (s.elapsed / 60.0) }

  /** The goal of one axis. */
  predicate Driven(m: Math, s: State, rate: real, next: real, amplitude: real, shift: real, jitter: real, decay: real) {
    Contracted(rate, next, amplitude * m.sin(Phase(m, s) + shift) + jitter, decay)
  }

  predicate Contracted(rate: real, next: real, goal: real, decay: real) {
    next - goal == decay * (rate - goal) && Abs(next - goal) <= Abs(rate - goal)
      && (rate != goal ==> Abs(next - goal) < Abs(rate - goal))
  }

  lemma AxisContracts(m: Math, s: State, rate: real, decay: real, amplitude: real, shift: real, stream: nat, now: real)
    requires Lawful(m) && 0.0 < decay < 1.0
    ensures var j := Noise(m, stream, 0.0015, s.reference, now);
            && -0.0015 <= j <= 0.0015
            && Driven(m, s, rate, Blend(rate, decay, Forcing(m, s, amplitude, shift, stream, now)), amplitude, shift, j,
                      decay)
  {
    hide Blend, Forcing, Lawful, Noise, Phase, Contracted;
    NoiseWithin(m, stream, 0.0015, s.reference, now);
    ForcingIs(m, s, amplitude, shift, stream, now);
    var f := Forcing(m, s, amplitude, shift, stream, now);
    BlendContracts(rate, decay, f);
    DrivenBy(m, s, rate, Blend(rate, decay, f), amplitude, shift, Noise(m, stream, 0.0015, s.reference, now), decay, f);
  }

  lemma DrivenBy(m: Math, s: State, rate: real, next: real, amplitude: real, shift: real, jitter: real, decay: real,
                 f: real)
    requires f == amplitude * m.sin(Phase(m, s) + shift) + jitter && Contracted(rate, next, f, decay)
    ensures Driven(m, s, rate, next, amplitude, shift, jitter, decay)
  {
    assert f == amplitude * m.sin(Phase(m, s) + shift) + jitter;
    hide Contracted, Phase;
  }

  lemma ForcingIs(m: Math, s: State, amplitude: real, shift: real, stream: nat, now: real)
    ensures Forcing(m, s, amplitude, shift, stream, now)
         == amplitude * m.sin(Phase(m, s) + shift) + Noise(m, stream, 0.0015, s.reference, now)
  {
    assert DetumblePhase(m, s.elapsed) == Phase(m, s);
    hide Noise, Phase, DetumblePhase;
  }

  lemma BlendContracts(rate: real, decay: real, f: real)
    requires 0.0 < decay < 1.0
    ensures Contracted(rate, Blend(rate, decay, f), f, decay)
  {
    BlendGap(rate, decay, f);
    hide Blend;
    GapShrinks(rate - f, Blend(rate, decay, f) - f, decay);
  }

  lemma GapShrinks(gap: real, next: real, k: real)
    requires 0.0 < k < 1.0 && next == k * gap
    ensures Abs(next) <= Abs(gap) && (gap != 0.0 ==> Abs(next) < Abs(gap))
  {
    if gap > 0.0 {
      PositiveProduct(k, gap);
      PositiveProduct(1.0 - k, gap);
      SplitGap(k, gap);
    } else if gap < 0.0 {
      PositiveProduct(k, -gap);
      PositiveProduct(1.0 - k, -gap);
      SplitGap(k, -gap);
      NegativeFactor(k, gap);
    }
  }

  lemma SplitGap(k: real, gap: real)
    ensures (1.0 - k) * gap == gap - k * gap
  {
  }

  lemma BlendGap(rate: real, decay: real, f: real)
    ensures Blend(rate, decay, f) - f == decay * (rate - f)
  {
  }

  // ---- the rotation behind the rates and the error ----

  /** What is assumed of the arc cosine. */
  ghost predicate ArcLawful(m: Math) {
    forall x :: 0.0 <= x <= 1.0 ==> 0.0 <= m.acos(x) <= m.pi / 2.0 && m.cos(m.acos(x)) == x
  }

  /** The error shown is the angle in degrees between the attitudes, sign apart: it lies in [0, 180] and its
    * half has the cosine |Dot|. */
  lemma ErrorIsAngle(m: Math, s: State)
    requires Lawful(m) && ArcLawful(m) && UnitState(s)
    ensures var e := PointingErrorDeg(m, s.q, s.target);
            0.0 <= e <= 180.0 && m.cos(HalfInRadians(m, e)) == Abs(Dot(s.q, s.target))
  {
    hide *;
    var e, c := ErrorParts(m, s);
    ArcOf(m, c);
    AngleInDegrees(m.acos(c), m.pi, e);
    CosineOf(m, e, m.acos(c));
  }

  function HalfInRadians(m: Math, degrees: real): real { degrees * m.pi / 360.0 }

  lemma ErrorParts(m: Math, s: State) returns (e: real, c: real)
    requires Lawful(m) && UnitState(s)
    ensures e == PointingErrorDeg(m, s.q, s.target) == 2.0 * m.acos(c) * 180.0 / m.pi
    ensures 0.0 <= c <= 1.0 && c == Abs(Dot(s.q, s.target))
  {
    PointingErrorUnclamped(m, s);
    DotOfUnits(s.q, s.target);
    hide PointingErrorDeg, Dot;
    e, c := PointingErrorDeg(m, s.q, s.target), Abs(Dot(s.q, s.target));
  }

  lemma ArcOf(m: Math, x: real)
    requires Lawful(m) && ArcLawful(m) && 0.0 <= x <= 1.0
    ensures m.pi > 0.0 && 0.0 <= m.acos(x) <= m.pi / 2.0 && m.cos(m.acos(x)) == x
  {
  }

  lemma CosineOf(m: Math, e: real, x: real)
    requires e * m.pi / 360.0 == x
    ensures m.cos(HalfInRadians(m, e)) == m.cos(x)
  {
    assert HalfInRadians(m, e) == x;
    hide HalfInRadians;
  }

  lemma AngleInDegrees(x: real, pi: real, e: real)
    requires pi > 0.0 && 0.0 <= x <= pi / 2.0 && e == 2.0 * x * 180.0 / pi
    ensures 0.0 <= e <= 180.0 && e * pi / 360.0 == x
  {
    assert e * pi == 360.0 * x;
    Cancels(e, 0.0, pi);
    Cancels(180.0, e, pi);
  }

  lemma Cancels(x: real, y: real, n: real)
    requires n > 0.0 && x * n >= y * n
    ensures x >= y
  {
    if x < y {
      PositiveProduct(y - x, n);
      SubtractProduct(y, x, n);
    }
  }

  lemma SubtractProduct(x: real, y: real, n: real)
    ensures (x - y) * n == x * n - y * n
  {
  }

  function Hamilton(a: Quat, b: Quat): Quat {
    Quat(a.q0 * b.q0 - a.q1 * b.q1 - a.q2 * b.q2 - a.q3 * b.q3,
         a.q0 * b.q1 + a.q1 * b.q0 + a.q2 * b.q3 - a.q3 * b.q2,
         a.q0 * b.q2 - a.q1 * b.q3 + a.q2 * b.q0 + a.q3 * b.q1,
         a.q0 * b.q3 + a.q1 * b.q2 - a.q2 * b.q1 + a.q3 * b.q0)
  }

  /** The rotation the rates are computed from leads from the previous attitude to the next. */
  function Turn(a: Quat, b: Quat): Quat {
    Quat(Dot(a, b), DeltaX(a, b), DeltaY(a, b), DeltaZ(a, b))
  }

  lemma TurnLeads(a: Quat, b: Quat)
    requires Unit(a)
    ensures Hamilton(a, Turn(a, b)) == b
  {
    TurnIs(a, b);
    UnitIs(a);
    var w, x, y, z := Dot(a, b), DeltaX(a, b), DeltaY(a, b), DeltaZ(a, b);
    HamiltonParts(a, w, x, y, z);
    hide *;
    TurnW(a, b, w, x, y, z);
    TurnX(a, b, w, x, y, z);
    TurnY(a, b, w, x, y, z);
    TurnZ(a, b, w, x, y, z);
  }

  /** Products of two and of three factors, named so that what is built of them is linear. */
  function Two(x: real, y: real): real {
    x * y
  }

  function Three(x: real, y: real, z: real): real {
    x * (y * z)
  }

  /** w, x, y, z is the product of the conjugate of a and of b. */
  ghost predicate Conjugated(a: Quat, b: Quat, w: real, x: real, y: real, z: real) {
    && w == Two(a.q0, b.q0) + Two(a.q1, b.q1) + Two(a.q2, b.q2) + Two(a.q3, b.q3)
    && x == Two(a.q0, b.q1) + Two(a.q3, b.q2) - Two(a.q1, b.q0) - Two(a.q2, b.q3)
    && y == Two(a.q0, b.q2) + Two(a.q1, b.q3) - Two(a.q2, b.q0) - Two(a.q3, b.q1)
    && z == Two(a.q0, b.q3) + Two(a.q2, b.q1) - Two(a.q1, b.q2) - Two(a.q3, b.q0)
  }

  lemma TurnIs(a: Quat, b: Quat)
    ensures Turn(a, b) == Quat(Dot(a, b), DeltaX(a, b), DeltaY(a, b), DeltaZ(a, b))
    ensures Conjugated(a, b, Dot(a, b), DeltaX(a, b), DeltaY(a, b), DeltaZ(a, b))
  {
  }

  ghost predicate UnitSum(a: Quat) {
    Two(a.q0, a.q0) + Two(a.q1, a.q1) + Two(a.q2, a.q2) + Two(a.q3, a.q3) == 1.0
  }

  lemma UnitIs(a: Quat)
    requires Unit(a)
    ensures UnitSum(a)
  {
  }

  lemma HamiltonParts(a: Quat, w: real, x: real, y: real, z: real)
    ensures Hamilton(a, Quat(w, x, y, z))
         == Quat(Two(a.q0, w) - Two(a.q1, x) - Two(a.q2, y) - Two(a.q3, z),
                 Two(a.q0, x) + Two(a.q1, w) + Two(a.q2, z) - Two(a.q3, y),
                 Two(a.q0, y) - Two(a.q1, z) + Two(a.q2, w) + Two(a.q3, x),
                 Two(a.q0, z) + Two(a.q1, y) - Two(a.q2, x) + Two(a.q3, w))
  {
  }

  lemma Spread(k: real, v: real, a: real, p: real, b: real, q: real, c: real, r: real, d: real, t: real)
    requires v == Two(a, p) + Two(b, q) + Two(c, r) + Two(d, t)
    ensures Two(k, v) == Three(k, a, p) + Three(k, b, q) + Three(k, c, r) + Three(k, d, t)
  {
  }

  lemma SpreadApart(k: real, v: real, a: real, p: real, b: real, q: real, c: real, r: real, d: real, t: real)
    requires v == Two(a, p) + Two(b, q) - Two(c, r) - Two(d, t)
    ensures Two(k, v) == Three(k, a, p) + Three(k, b, q) - Three(k, c, r) - Three(k, d, t)
  {
  }

  lemma OverUnit(a: Quat, k: real)
    requires UnitSum(a)
    ensures k == Three(a.q0, a.q0, k) + Three(a.q1, a.q1, k) + Three(a.q2, a.q2, k) + Three(a.q3, a.q3, k)
  {
    Regroup(a.q0, k);
    Regroup(a.q1, k);
    Regroup(a.q2, k);
    Regroup(a.q3, k);
    FourTimes(k, Two(a.q0, a.q0), Two(a.q1, a.q1), Two(a.q2, a.q2), Two(a.q3, a.q3));
    hide Two, Three;
  }

  lemma Regroup(x: real, k: real)
    ensures Three(x, x, k) == Two(k, Two(x, x))
  {
  }

  lemma FourTimes(k: real, a: real, b: real, c: real, d: real)
    requires a + b + c + d == 1.0
    ensures k == Two(k, a) + Two(k, b) + Two(k, c) + Two(k, d)
  {
    assert k * (a + b + c + d) == k * a + k * b + k * c + k * d;
  }

  lemma Swapped(x: real, y: real, z: real)
    ensures Three(x, y, z) == Three(y, x, z)
  {
  }

  lemma TurnW(a: Quat, b: Quat, w: real, x: real, y: real, z: real)
    requires UnitSum(a) && Conjugated(a, b, w, x, y, z)
    ensures Two(a.q0, w) - Two(a.q1, x) - Two(a.q2, y) - Two(a.q3, z) == b.q0
  {
    hide Two, Three, UnitSum;
    Spread(a.q0, w, a.q0, b.q0, a.q1, b.q1, a.q2, b.q2, a.q3, b.q3);
    SpreadApart(a.q1, x, a.q0, b.q1, a.q3, b.q2, a.q1, b.q0, a.q2, b.q3);
    SpreadApart(a.q2, y, a.q0, b.q2, a.q1, b.q3, a.q2, b.q0, a.q3, b.q1);
    SpreadApart(a.q3, z, a.q0, b.q3, a.q2, b.q1, a.q1, b.q2, a.q3, b.q0);
    Swapped(a.q1, a.q0, b.q1);
    Swapped(a.q2, a.q0, b.q2);
    Swapped(a.q2, a.q1, b.q3);
    Swapped(a.q3, a.q0, b.q3);
    Swapped(a.q3, a.q1, b.q2);
    Swapped(a.q3, a.q2, b.q1);
    OverUnit(a, b.q0);
  }

  lemma TurnX(a: Quat, b: Quat, w: real, x: real, y: real, z: real)
    requires UnitSum(a) && Conjugated(a, b, w, x, y, z)
    ensures Two(a.q0, x) + Two(a.q1, w) + Two(a.q2, z) - Two(a.q3, y) == b.q1
  {
    hide Two, Three, UnitSum;
    SpreadApart(a.q0, x, a.q0, b.q1, a.q3, b.q2, a.q1, b.q0, a.q2, b.q3);
    Spread(a.q1, w, a.q0, b.q0, a.q1, b.q1, a.q2, b.q2, a.q3, b.q3);
    SpreadApart(a.q2, z, a.q0, b.q3, a.q2, b.q1, a.q1, b.q2, a.q3, b.q0);
    SpreadApart(a.q3, y, a.q0, b.q2, a.q1, b.q3, a.q2, b.q0, a.q3, b.q1);
    Swapped(a.q1, a.q0, b.q0);
    Swapped(a.q2, a.q0, b.q3);
    Swapped(a.q2, a.q1, b.q2);
    Swapped(a.q3, a.q0, b.q2);
    Swapped(a.q3, a.q1, b.q3);
    Swapped(a.q3, a.q2, b.q0);
    OverUnit(a, b.q1);
  }

  lemma TurnY(a: Quat, b: Quat, w: real, x: real, y: real, z: real)
    requires UnitSum(a) && Conjugated(a, b, w, x, y, z)
    ensures Two(a.q0, y) - Two(a.q1, z) + Two(a.q2, w) + Two(a.q3, x) == b.q2
  {
    hide Two, Three, UnitSum;
    SpreadApart(a.q0, y, a.q0, b.q2, a.q1, b.q3, a.q2, b.q0, a.q3, b.q1);
    SpreadApart(a.q1, z, a.q0, b.q3, a.q2, b.q1, a.q1, b.q2, a.q3, b.q0);
    Spread(a.q2, w, a.q0, b.q0, a.q1, b.q1, a.q2, b.q2, a.q3, b.q3);
    SpreadApart(a.q3, x, a.q0, b.q1, a.q3, b.q2, a.q1, b.q0, a.q2, b.q3);
    Swapped(a.q1, a.q0, b.q3);
    Swapped(a.q2, a.q0, b.q0);
    Swapped(a.q2, a.q1, b.q1);
    Swapped(a.q3, a.q0, b.q1);
    Swapped(a.q3, a.q1, b.q0);
    Swapped(a.q3, a.q2, b.q3);
    OverUnit(a, b.q2);
  }

  lemma TurnZ(a: Quat, b: Quat, w: real, x: real, y: real, z: real)
    requires UnitSum(a) && Conjugated(a, b, w, x, y, z)
    ensures Two(a.q0, z) + Two(a.q1, y) - Two(a.q2, x) + Two(a.q3, w) == b.q3
  {
    hide Two, Three, UnitSum;
    SpreadApart(a.q0, z, a.q0, b.q3, a.q2, b.q1, a.q1, b.q2, a.q3, b.q0);
    SpreadApart(a.q1, y, a.q0, b.q2, a.q1, b.q3, a.q2, b.q0, a.q3, b.q1);
    SpreadApart(a.q2, x, a.q0, b.q1, a.q3, b.q2, a.q1, b.q0, a.q2, b.q3);
    Spread(a.q3, w, a.q0, b.q0, a.q1, b.q1, a.q2, b.q2, a.q3, b.q3);
    Swapped(a.q1, a.q0, b.q2);
    Swapped(a.q2, a.q0, b.q1);
    Swapped(a.q2, a.q1, b.q0);
    Swapped(a.q3, a.q0, b.q0);
    Swapped(a.q3, a.q1, b.q1);
    Swapped(a.q3, a.q2, b.q2);
    OverUnit(a, b.q3);
  }

  /** Yaw, then pitch, then roll. */
  lemma EulerIsRotations(cr: real, sr: real, cp: real, sp: real, cy: real, sy: real)
    ensures EulerProduct(cr, sr, cp, sp, cy, sy)
         == Hamilton(Hamilton(Quat(cy, 0.0, 0.0, sy), Quat(cp, 0.0, sp, 0.0)), Quat(cr, sr, 0.0, 0.0))
  {
    YawPitch(cp, sp, cy, sy);
    ThenRoll(cr, sr, cy * cp, sy * sp, cy * sp, sy * cp);
  }

  lemma YawPitch(cp: real, sp: real, cy: real, sy: real)
    ensures Hamilton(Quat(cy, 0.0, 0.0, sy), Quat(cp, 0.0, sp, 0.0)) == Quat(cy * cp, -(sy * sp), cy * sp, sy * cp)
  {
  }

  lemma ThenRoll(cr: real, sr: real, w: real, x: real, y: real, z: real)
    ensures Hamilton(Quat(w, -x, y, z), Quat(cr, sr, 0.0, 0.0))
         == Quat(cr * w + sr * x, sr * w - cr * x, cr * y + sr * z, cr * z - sr * y)
  {
  }

  /** w has the sign of x and at most its size. */
  predicate Follows(w: real, x: real) {
    0.0 <= w <= x || x <= w <= 0.0
  }

  function Unlimited(m: Math, a: Quat, b: Quat, dt: real): Rates
    requires dt > 0.0
  {
    var axis, angle := Axis(m, a, b), 2.0 * m.acos(Clamp(Abs(Dot(a, b)), 1.0));
    Rates(axis.x * angle / dt, axis.y * angle / dt, axis.z * angle / dt)
  }

  /** The rates of a pointing step: along each axis they follow the angle turned over the time it took, and are
    * exactly that when it is within the limits. */
  lemma RatesFollow(m: Math, a: Quat, b: Quat, dt: real)
    requires Lawful(m) && dt > 0.0
    ensures var free, omega := Unlimited(m, a, b, dt), AngularVelocity(m, a, b, dt);
            && Follows(omega.x, free.x) && Follows(omega.y, free.y) && Follows(omega.z, free.z)
            && (Within(free, AXIS_LIMIT) && Square(free) <= NORM_LIMIT * NORM_LIMIT ==> omega == free)
  {
    hide *;
    var free := Unlimited(m, a, b, dt);
    var clamped := ClampEach(free);
    VelocityIs(m, a, b, dt);
    EachFollows(free);
    LimitFollows(m, clamped);
    FollowsOn(LimitNorm(m, clamped).x, clamped.x, free.x);
    FollowsOn(LimitNorm(m, clamped).y, clamped.y, free.y);
    FollowsOn(LimitNorm(m, clamped).z, clamped.z, free.z);
  }

  function ClampEach(r: Rates): Rates {
    Rates(Clamp(r.x, COMPONENT_LIMIT), Clamp(r.y, COMPONENT_LIMIT), Clamp(r.z, COMPONENT_LIMIT))
  }

  lemma VelocityIs(m: Math, a: Quat, b: Quat, dt: real)
    requires dt > 0.0
    ensures AngularVelocity(m, a, b, dt) == LimitNorm(m, ClampEach(Unlimited(m, a, b, dt)))
  {
    hide Axis, Dot, Clamp, LimitNorm, Abs;
  }

  lemma EachFollows(r: Rates)
    ensures var c := ClampEach(r);
            && Follows(c.x, r.x) && Follows(c.y, r.y) && Follows(c.z, r.z) && (Within(r, AXIS_LIMIT) ==> c == r)
  {
    ClampFollows(r.x);
    ClampFollows(r.y);
    ClampFollows(r.z);
    hide Clamp, Follows;
  }

  lemma ClampFollows(x: real)
    ensures Follows(Clamp(x, COMPONENT_LIMIT), x)
    ensures -COMPONENT_LIMIT <= x <= COMPONENT_LIMIT ==> Clamp(x, COMPONENT_LIMIT) == x
  {
  }

  lemma FollowsOn(x: real, y: real, z: real)
    requires Follows(x, y) && Follows(y, z)
    ensures Follows(x, z)
  {
  }

  lemma LimitFollows(m: Math, r: Rates)
    requires Lawful(m)
    ensures var l := LimitNorm(m, r);
            && Follows(l.x, r.x) && Follows(l.y, r.y) && Follows(l.z, r.z)
            && (Square(r) <= NORM_LIMIT * NORM_LIMIT ==> l == r)
  {
    var n := m.sqrt(Square(r));
    assert n >= 0.0 && n * n == Square(r) by {
      SquareNonNegative(r.x);
      SquareNonNegative(r.y);
      SquareNonNegative(r.z);
    }
    hide Lawful, Square, Follows;
    SquaresOrder(n, NORM_LIMIT);
    if n > NORM_LIMIT {
      ScaleFactor(n);
      ShrinkFollows(r.x, NORM_LIMIT / n);
      ShrinkFollows(r.y, NORM_LIMIT / n);
      ShrinkFollows(r.z, NORM_LIMIT / n);
    }
  }

  lemma ShrinkFollows(x: real, k: real)
    requires 0.0 < k < 1.0
    ensures Follows(x * k, x)
  {
    if x >= 0.0 {
      ProductNonNegative(x, k);
      ProductNonNegative(x, 1.0 - k);
    } else {
      ProductNonNegative(-x, k);
      ProductNonNegative(-x, 1.0 - k);
      NegativeProduct(x, k);
    }
    SplitGap(k, x);
  }

  // ---- idling ----

  /** Idle, the rates stay within 0.002 of (0.12, -0.08, 0.06) and the attitude is a positive multiple of
    * (1, x, y, z) with x, y, z within 0.0008. */
  lemma IdleRests(m: Math, s: State, now: real) returns (k: real, off: Rates)
    requires Lawful(m)
    ensures var t := IdleStep(m, s, now);
            && Within(off, Rates(0.0008, 0.0008, 0.0008)) && k > 0.0
            && t.q == Scaled(Quat(1.0, off.x, off.y, off.z), k)
            && Within(Rates(t.omega.x - 0.12, t.omega.y + 0.08, t.omega.z - 0.06), Rates(0.002, 0.002, 0.002))
  {
    NoiseWithin(m, 0, 0.002, s.reference, now);
    NoiseWithin(m, 1, 0.002, s.reference, now);
    NoiseWithin(m, 2, 0.002, s.reference, now);
    NoiseWithin(m, 3, 0.0008, s.reference, now);
    NoiseWithin(m, 4, 0.0008, s.reference, now);
    NoiseWithin(m, 5, 0.0008, s.reference, now);
    hide Noise, Lawful, Normalize, Scaled, Norm2;
    off := Rates(Noise(m, 3, 0.0008, s.reference, now), Noise(m, 4, 0.0008, s.reference, now),
                 Noise(m, 5, 0.0008, s.reference, now));
    NearOne(off);
    k := UnitScale(m, Quat(1.0, off.x, off.y, off.z));
  }

  lemma NearOne(off: Rates)
    ensures Norm2(Quat(1.0, off.x, off.y, off.z)) > 0.0
  {
    SquareNonNegative(off.x);
    SquareNonNegative(off.y);
    SquareNonNegative(off.z);
  }

  // ---- the pass ----

  lemma WholeCycle(t: real)
    ensures CycleTime(t + 60.0, 60.0) == CycleTime(t, 60.0) && 0.0 <= CycleTime(t, 60.0) < 60.0
    ensures 0.0 <= t < 60.0 ==> CycleTime(t, 60.0) == t
  {
    assert (t + 60.0) / 60.0 == t / 60.0 + 1.0;
    assert ((t + 60.0) / 60.0).Floor == (t / 60.0).Floor + 1;
  }

  /** The desired attitude repeats every 60 s. */
  lemma PassRepeats(m: Math, t: real)
    ensures DesiredQuaternion(m, t + 60.0) == DesiredQuaternion(m, t)
  {
    WholeCycle(t);
    var phase := CycleTime(t, 60.0) / 60.0;
    PassAt(m, t, phase);
    PassAt(m, t + 60.0, phase);
  }

  /** A fraction x of the way through a pass it has yawed evenly from -35 towards 35 degrees, pitched up from 18 by
    * a half sine of 32 and rolled by a sine of 2. */
  function PassAngles(m: Math, x: real): (real, real, real) {
    (Radians(m, 2.0 * m.sin(2.0 * m.pi * x)), Radians(m, 18.0 + 32.0 * m.sin(m.pi * x)), Radians(m, -35.0 + 70.0 * x))
  }

  function PassAttitude(m: Math, x: real): Quat {
    var (roll, pitch, yaw) := PassAngles(m, x);
    EulerToQuaternion(m, roll, pitch, yaw)
  }

  lemma PassAt(m: Math, t: real, x: real)
    requires x == CycleTime(t, 60.0) / 60.0
    ensures DesiredQuaternion(m, t) == PassAttitude(m, x)
  {
    AnglesOf(m, t, x);
    AnglesAre(m, x);
    hide CycleTime, EulerToQuaternion, DesiredAngles, AnglesAt, PassAngles;
  }

  lemma AnglesOf(m: Math, t: real, x: real)
    requires x == CycleTime(t, 60.0) / 60.0
    ensures DesiredAngles(m, t) == AnglesAt(m, x)
  {
    hide AnglesAt, CycleTime;
  }

  lemma AnglesAre(m: Math, x: real)
    ensures AnglesAt(m, x) == PassAngles(m, x)
  {
  }

  lemma FirstPass(m: Math, t: real)
    requires 0.0 <= t < 60.0
    ensures DesiredQuaternion(m, t) == PassAttitude(m, t / 60.0)
  {
    WholeCycle(t);
    PassAt(m, t, t / 60.0);
  }

  function Radians(m: Math, degrees: real): real { degrees * m.pi / 180.0 }
}
