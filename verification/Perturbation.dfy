/**
 * What a perturbation of the initial values becomes under the two integrators on the script's
 * equation. With v = (dy, dz) and Pv = (dz/10, -10 dy - dz) the equation's matrix is 10 P and
 * P^3 = 1, so a quadratic form is multiplied by a fixed factor in every step.
 */
module Perturbation {
  import opened Integrators
  import opened Products

  /** z' = (10 sin 2x - 2 z - 20 y) / 0.2, with the sine left uninterpreted. */
  function ZPrime(sin: real -> real, x: real, y: real, z: real): real {
    (10.0 * sin(2.0 * x) - 2.0 * z - 20.0 * y) / 0.2
  }

  function Equation(sin: real -> real): Slope {
    (x, y, z) => ZPrime(sin, x, y, z)
  }

  datatype Difference = Difference(y: real, z: real)

  function Between(p: Point, q: Point): Difference {
    Difference(q.y - p.y, q.z - p.z)
  }

  function V(v: Difference): real {
    100.0 * v.y * v.y + 10.0 * v.y * v.z + v.z * v.z
  }

  lemma VSplits(v: Difference)
    ensures V(v) == 75.0 * Times(v.y, v.y) + Times(5.0 * v.y + v.z, 5.0 * v.y + v.z)
  {
  }

  /** The part of `V` that the error in y alone accounts for. */
  function YPart(v: Difference): real {
    75.0 * Times(v.y, v.y)
  }

  /** `V` is positive definite, and bounds the error in y. */
  lemma VBoundsY(v: Difference)
    ensures YPart(v) <= V(v)
    ensures v.y != 0.0 || v.z != 0.0 ==> V(v) > 0.0
  {
    VSplits(v);
    SquareIsPositive(v.y);
    SquareIsPositive(5.0 * v.y + v.z);
  }

  // ---- combinations a v + b P v of one difference v = (y, z) ----

  datatype Coefficients = Coefficients(a: real, b: real)

  function Both(a: real, s: real, b: real, t: real): real {
    a * s + b * t
  }

  function Comb(u: Coefficients, v: Difference): Difference {
    Difference(Both(u.a, v.y, u.b, v.z / 10.0), Both(u.a, v.z, u.b, -10.0 * v.y - v.z))
  }

  /** c P (a v + b P v), by P^2 v = -v - P v. */
  function Turned(c: real, u: Coefficients): Coefficients {
    Coefficients(-c * u.b, c * (u.a - u.b))
  }

  function Norm(u: Coefficients): real {
    u.a * u.a - u.a * u.b + u.b * u.b
  }

  /** The law behind both theorems: `V` of a combination is the norm of its coefficients times `V`. */
  lemma VOfComb(u: Coefficients, v: Difference)
    ensures V(Comb(u, v)) == Times(Norm(u), V(v))
  {
  }

  predicate Differ(p: Point, q: Point, u: Coefficients, v: Difference) {
    Between(p, q) == Comb(u, v)
  }

  lemma VOfDifference(p: Point, q: Point, u: Coefficients, v: Difference, factor: real)
    requires Differ(p, q, u, v) && Norm(u) == factor
    ensures V(Between(p, q)) == Times(factor, V(v))
  {
    VOfComb(u, v);
  }

  /** The slopes of the equation differ by the linear part alone: the forcing term cancels. */
  lemma SlopesDiffer(sin: real -> real, x: real, y1: real, z1: real, y2: real, z2: real)
    ensures ZPrime(sin, x, y2, z2) - ZPrime(sin, x, y1, z1) == -100.0 * (y2 - y1) - 10.0 * (z2 - z1)
  {
  }

  /** h times the matrix acts as c P with c = 10 h. */
  lemma MatrixOnComb(h: real, u: Coefficients, v: Difference)
    ensures
      var w, t := Comb(u, v), Comb(Turned(10.0 * h, u), v);
      h * w.z == t.y && h * (-100.0 * w.y - 10.0 * w.z) == t.z
  {
  }

  lemma Distribute(h: real, s: real, t: real)
    ensures h * s - h * t == h * (s - t)
  {
  }

  /** One stage: displacements of points that differ by a v + b P v differ by c P of that. */
  lemma DisplacementsDiffer(sin: real -> real, h: real, p: Point, q: Point, u: Coefficients, v: Difference)
    requires p.x == q.x && Differ(p, q, u, v)
    ensures Differ(Displacement(Equation(sin), h, p), Displacement(Equation(sin), h, q), Turned(10.0 * h, u), v)
  {
    SlopesDiffer(sin, p.x, p.y, p.z, q.y, q.z);
    MatrixOnComb(h, u, v);
    Distribute(h, q.z, p.z);
    Distribute(h, ZPrime(sin, q.x, q.y, q.z), ZPrime(sin, p.x, p.y, p.z));
  }

  const ONE := Coefficients(1.0, 0.0)

  function HalfOn(u: Coefficients): Coefficients {
    Coefficients(1.0 + u.a / 2.0, u.b / 2.0)
  }

  function FullOn(u: Coefficients): Coefficients {
    Coefficients(1.0 + u.a, u.b)
  }

  lemma OneIsNeutral(v: Difference)
    ensures Comb(ONE, v) == v
  {
  }

  lemma CombOn(u: Coefficients, v: Difference)
    ensures var w := Comb(u, v); Comb(FullOn(u), v) == Difference(v.y + w.y, v.z + w.z)
    ensures var w := Comb(u, v); Comb(HalfOn(u), v) == Difference(v.y + w.y / 2.0, v.z + w.z / 2.0)
  {
  }

  lemma HalfWaysDiffer(p: Point, q: Point, k: Point, l: Point, u: Coefficients, v: Difference)
    requires Differ(p, q, ONE, v) && Differ(k, l, u, v)
    ensures Differ(HalfWay(p, k), HalfWay(q, l), HalfOn(u), v)
  {
    OneIsNeutral(v);
    CombOn(u, v);
  }

  lemma MovedDiffer(p: Point, q: Point, k: Point, l: Point, u: Coefficients, v: Difference)
    requires Differ(p, q, ONE, v) && Differ(k, l, u, v)
    ensures Differ(Moved(p, k), Moved(q, l), FullOn(u), v)
  {
    OneIsNeutral(v);
    CombOn(u, v);
  }

  // ---- Euler ----

  function EulerFactor(h: real): real {
    1.0 - 10.0 * h + 100.0 * h * h
  }

  lemma EulerStepsDiffer(sin: real -> real, h: real, p: Point, q: Point)
    requires p.x == q.x
    ensures
      var f := Equation(sin);
      Differ(EulerStep(f, h, p), EulerStep(f, h, q), FullOn(Turned(10.0 * h, ONE)), Between(p, q))
  {
    var f, v := Equation(sin), Between(p, q);
    DisplacementsDiffer(sin, h, p, q, ONE, v);
    MovedDiffer(p, q, Displacement(f, h, p), Displacement(f, h, q), Turned(10.0 * h, ONE), v);
  }

  lemma EulerNorm(h: real)
    ensures Norm(FullOn(Turned(10.0 * h, ONE))) == EulerFactor(h)
  {
  }

  /** One step multiplies the form by 1 - 10 h + 100 h^2. */
  lemma EulerStepLaw(sin: real -> real, h: real, p: Point, q: Point)
    requires p.x == q.x
    ensures
      var f := Equation(sin);
      V(Between(EulerStep(f, h, p), EulerStep(f, h, q))) == Times(EulerFactor(h), V(Between(p, q)))
  {
    EulerStepsDiffer(sin, h, p, q);
    EulerNorm(h);
    var f, u := Equation(sin), FullOn(Turned(10.0 * h, ONE));
    VOfDifference(EulerStep(f, h, p), EulerStep(f, h, q), u, Between(p, q), EulerFactor(h));
  }

  // ---- Runge-Kutta ----

  // The coefficients of the differences of the four displacements.

  function Stage1(c: real): Coefficients {
    Turned(c, ONE)
  }

  function Stage2(c: real): Coefficients {
    Turned(c, HalfOn(Stage1(c)))
  }

  function Stage3(c: real): Coefficients {
    Turned(c, HalfOn(Stage2(c)))
  }

  function Stage4(c: real): Coefficients {
    Turned(c, FullOn(Stage3(c)))
  }

  function RkA(c: real): real {
    1.0 - c * c / 2.0 + c * c * c / 6.0
  }

  function RkB(c: real): real {
    c - c * c / 2.0 + c * c * c * c / 24.0
  }

  function RkFactor(h: real): real {
    Norm(Coefficients(RkA(10.0 * h), RkB(10.0 * h)))
  }


  lemma HalfStage(sin: real -> real, h: real, p: Point, q: Point, k: Point, l: Point, u: Coefficients)
    requires p.x == q.x && k.x == l.x && Differ(k, l, u, Between(p, q))
    ensures
      var f, v := Equation(sin), Between(p, q);
      Differ(Displacement(f, h, HalfWay(p, k)), Displacement(f, h, HalfWay(q, l)), Turned(10.0 * h, HalfOn(u)), v)
  {
    HalfWaysDiffer(p, q, k, l, u, Between(p, q));
    DisplacementsDiffer(sin, h, HalfWay(p, k), HalfWay(q, l), HalfOn(u), Between(p, q));
  }

  lemma FullStage(sin: real -> real, h: real, p: Point, q: Point, k: Point, l: Point, u: Coefficients)
    requires p.x == q.x && k.x == l.x && Differ(k, l, u, Between(p, q))
    ensures
      var f, v := Equation(sin), Between(p, q);
      Differ(Displacement(f, h, Moved(p, k)), Displacement(f, h, Moved(q, l)), Turned(10.0 * h, FullOn(u)), v)
  {
    MovedDiffer(p, q, k, l, u, Between(p, q));
    DisplacementsDiffer(sin, h, Moved(p, k), Moved(q, l), FullOn(u), Between(p, q));
  }

  function Mean(u1: Coefficients, u2: Coefficients, u3: Coefficients, u4: Coefficients): Coefficients {
    Coefficients(Weighted(u1.a, u2.a, u3.a, u4.a), Weighted(u1.b, u2.b, u3.b, u4.b))
  }

  function MeanPoint(p: Point, h: real, k1: Point, k2: Point, k3: Point, k4: Point): Point {
    Point(p.x + h, p.y + Weighted(k1.y, k2.y, k3.y, k4.y), p.z + Weighted(k1.z, k2.z, k3.z, k4.z))
  }

  lemma MeansDiffer(p: Point, q: Point, h: real, v: Difference,
                    k1: Point, k2: Point, k3: Point, k4: Point, l1: Point, l2: Point, l3: Point, l4: Point,
                    u1: Coefficients, u2: Coefficients, u3: Coefficients, u4: Coefficients)
    requires Differ(p, q, ONE, v)
    requires Differ(k1, l1, u1, v) && Differ(k2, l2, u2, v) && Differ(k3, l3, u3, v) && Differ(k4, l4, u4, v)
    ensures Differ(MeanPoint(p, h, k1, k2, k3, k4), MeanPoint(q, h, l1, l2, l3, l4), FullOn(Mean(u1, u2, u3, u4)), v)
  {
    OneIsNeutral(v);
    CombOn(Mean(u1, u2, u3, u4), v);
    MeanOfCombs(u1, u2, u3, u4, v);
  }

  lemma MeanOfCombs(u1: Coefficients, u2: Coefficients, u3: Coefficients, u4: Coefficients, v: Difference)
    ensures
      var w1, w2, w3, w4 := Comb(u1, v), Comb(u2, v), Comb(u3, v), Comb(u4, v);
      Comb(Mean(u1, u2, u3, u4), v) == Difference(Weighted(w1.y, w2.y, w3.y, w4.y), Weighted(w1.z, w2.z, w3.z, w4.z))
  {
    WeightedBoth(u1.a, u2.a, u3.a, u4.a, v.y, u1.b, u2.b, u3.b, u4.b, v.z / 10.0);
    WeightedBoth(u1.a, u2.a, u3.a, u4.a, v.z, u1.b, u2.b, u3.b, u4.b, -10.0 * v.y - v.z);
  }

  lemma WeightedBoth(a1: real, a2: real, a3: real, a4: real, s: real, b1: real, b2: real, b3: real, b4: real, t: real)
    ensures Both(Weighted(a1, a2, a3, a4), s, Weighted(b1, b2, b3, b4), t)
      == Weighted(Both(a1, s, b1, t), Both(a2, s, b2, t), Both(a3, s, b3, t), Both(a4, s, b4, t))
  {
  }

  /** The difference after a step, as a combination of the difference before it. */
  lemma RkStepsDiffer(sin: real -> real, h: real, p: Point, q: Point)
    requires p.x == q.x
    ensures
      var f, c, v := Equation(sin), 10.0 * h, Between(p, q);
      Differ(Rk4Step(f, h, p), Rk4Step(f, h, q), FullOn(Mean(Stage1(c), Stage2(c), Stage3(c), Stage4(c))), v)
  {
    var f, v, c := Equation(sin), Between(p, q), 10.0 * h;
    var k1, l1 := Displacement(f, h, p), Displacement(f, h, q);
    DisplacementsDiffer(sin, h, p, q, ONE, v);
    var k2, l2 := Displacement(f, h, HalfWay(p, k1)), Displacement(f, h, HalfWay(q, l1));
    HalfStage(sin, h, p, q, k1, l1, Stage1(c));
    var k3, l3 := Displacement(f, h, HalfWay(p, k2)), Displacement(f, h, HalfWay(q, l2));
    HalfStage(sin, h, p, q, k2, l2, Stage2(c));
    var k4, l4 := Displacement(f, h, Moved(p, k3)), Displacement(f, h, Moved(q, l3));
    FullStage(sin, h, p, q, k3, l3, Stage3(c));
    MeansDiffer(p, q, h, v, k1, k2, k3, k4, l1, l2, l3, l4, Stage1(c), Stage2(c), Stage3(c), Stage4(c));
    assert Rk4Step(f, h, p) == MeanPoint(p, h, k1, k2, k3, k4);
    assert Rk4Step(f, h, q) == MeanPoint(q, h, l1, l2, l3, l4);
  }

  lemma RkCoefficients(c: real)
    ensures FullOn(Mean(Stage1(c), Stage2(c), Stage3(c), Stage4(c))) == Coefficients(RkA(c), RkB(c))
  {
    StagesAre(c);
    MeanOfStages(c, c * c, c * c * c, c * c * c * c);
  }

  lemma StagesAre(c: real)
    ensures Stage1(c) == Coefficients(0.0, c)
    ensures Stage2(c) == Coefficients(-(c * c) / 2.0, c - c * c / 2.0)
    ensures Stage3(c) == Coefficients(-(c * c) / 2.0 + c * c * c / 4.0, c - c * c / 2.0)
    ensures Stage4(c) == Coefficients(-(c * c) + c * c * c / 2.0, c - c * c + c * c * c * c / 4.0)
  {
    assert Stage2(c) == Coefficients(-(c * c) / 2.0, c - c * c / 2.0);
    assert Stage3(c) == Coefficients(-(c * c) / 2.0 + c * c * c / 4.0, c - c * c / 2.0);
  }

  lemma MeanOfStages(c: real, c2: real, c3: real, c4: real)
    ensures
      FullOn(Mean(Coefficients(0.0, c), Coefficients(-c2 / 2.0, c - c2 / 2.0),
                  Coefficients(-c2 / 2.0 + c3 / 4.0, c - c2 / 2.0), Coefficients(-c2 + c3 / 2.0, c - c2 + c4 / 4.0)))
        == Coefficients(1.0 - c2 / 2.0 + c3 / 6.0, c - c2 / 2.0 + c4 / 24.0)
  {
  }

  /** One step multiplies the form by the norm of RkA and RkB at 10 h. */
  lemma RkStepLaw(sin: real -> real, h: real, p: Point, q: Point)
    requires p.x == q.x
    ensures
      var f := Equation(sin);
      V(Between(Rk4Step(f, h, p), Rk4Step(f, h, q))) == Times(RkFactor(h), V(Between(p, q)))
  {
    RkStepsDiffer(sin, h, p, q);
    RkCoefficients(10.0 * h);
    var f, u := Equation(sin), Coefficients(RkA(10.0 * h), RkB(10.0 * h));
    VOfDifference(Rk4Step(f, h, p), Rk4Step(f, h, q), u, Between(p, q), RkFactor(h));
  }

  // ---- whole runs ----

  /** The step keeps equal grid points equal and multiplies the form of every difference by r. */
  ghost predicate Scales(step: Point -> Point, r: real) {
    forall p: Point, q: Point :: p.x == q.x ==>
      step(p).x == step(q).x && V(Between(step(p), step(q))) == Times(r, V(Between(p, q)))
  }

  /** `v` multiplied `n` times by `r`. */
  function Compounded(r: real, n: nat, v: real): real {
    if n == 0 then v else Times(r, Compounded(r, n - 1, v))
  }

  lemma {:induction false} ScalesAll(step: Point -> Point, r: real, p: Point, q: Point, n: nat)
    requires Scales(step, r) && p.x == q.x
    ensures At(step, p, n).x == At(step, q, n).x
    ensures V(Between(At(step, p, n), At(step, q, n))) == Compounded(r, n, V(Between(p, q)))
  {
    if n > 0 {
      ScalesAll(step, r, p, q, n - 1);
      ScalesOne(step, r, At(step, p, n - 1), At(step, q, n - 1), Compounded(r, n - 1, V(Between(p, q))));
    }
  }

  lemma ScalesOne(step: Point -> Point, r: real, p: Point, q: Point, w: real)
    requires Scales(step, r) && p.x == q.x && V(Between(p, q)) == w
    ensures step(p).x == step(q).x && V(Between(step(p), step(q))) == Times(r, w)
  {
  }

  lemma EulerScales(sin: real -> real, h: real)
    ensures Scales(Euler(Equation(sin), h), EulerFactor(h))
  {
    forall p: Point, q: Point | p.x == q.x
      ensures V(Between(EulerStep(Equation(sin), h, p), EulerStep(Equation(sin), h, q)))
        == Times(EulerFactor(h), V(Between(p, q)))
    {
      EulerStepLaw(sin, h, p, q);
    }
  }

  lemma RkScales(sin: real -> real, h: real)
    ensures Scales(RungeKutta(Equation(sin), h), RkFactor(h))
  {
    forall p: Point, q: Point | p.x == q.x
      ensures V(Between(Rk4Step(Equation(sin), h, p), Rk4Step(Equation(sin), h, q)))
        == Times(RkFactor(h), V(Between(p, q)))
    {
      RkStepLaw(sin, h, p, q);
    }
  }

  /** After n Euler steps every perturbation of the initial values has been scaled n times. */
  lemma EulerLaw(sin: real -> real, h: real, p: Point, q: Point, n: nat)
    requires p.x == q.x
    ensures
      var step := Euler(Equation(sin), h);
      V(Between(At(step, p, n), At(step, q, n))) == Compounded(EulerFactor(h), n, V(Between(p, q)))
  {
    EulerScales(sin, h);
    ScalesAll(Euler(Equation(sin), h), EulerFactor(h), p, q, n);
  }

  /** After n Runge-Kutta steps every perturbation of the initial values has been scaled n times. */
  lemma RkLaw(sin: real -> real, h: real, p: Point, q: Point, n: nat)
    requires p.x == q.x
    ensures
      var step := RungeKutta(Equation(sin), h);
      V(Between(At(step, p, n), At(step, q, n))) == Compounded(RkFactor(h), n, V(Between(p, q)))
  {
    RkScales(sin, h);
    ScalesAll(RungeKutta(Equation(sin), h), RkFactor(h), p, q, n);
  }

  lemma ErrorBound(step: Point -> Point, r: real, p: Point, q: Point, n: nat)
    requires Scales(step, r) && p.x == q.x
    ensures YPart(Between(At(step, p, n), At(step, q, n))) <= Compounded(r, n, V(Between(p, q)))
  {
    ScalesAll(step, r, p, q, n);
    VBoundsY(Between(At(step, p, n), At(step, q, n)));
  }

  /** The error in y is bounded by the initial perturbation, scaled n times. */
  lemma RkErrorBound(sin: real -> real, h: real, p: Point, q: Point, n: nat)
    requires p.x == q.x
    ensures
      var step := RungeKutta(Equation(sin), h);
      YPart(Between(At(step, p, n), At(step, q, n))) <= Compounded(RkFactor(h), n, V(Between(p, q)))
  {
    RkScales(sin, h);
    ErrorBound(RungeKutta(Equation(sin), h), RkFactor(h), p, q, n);
  }
}
