/**
 * What the Runge-Kutta loop does on equations with a polynomial solution: if y'' depends on x alone
 * and y is a polynomial of degree at most five, the error at every grid point is known exactly.
 */
module Exactness {
  import opened Integrators

  /** c0 + c1 x + ... + c5 x^5. */
  datatype Quintic = Quintic(c0: real, c1: real, c2: real, c3: real, c4: real, c5: real)

  function Value(u: Quintic, x: real): real {
    u.c0 + x * (u.c1 + x * (u.c2 + x * (u.c3 + x * (u.c4 + x * u.c5))))
  }

  function Derivative(u: Quintic): Quintic {
    Quintic(u.c1, 2.0 * u.c2, 3.0 * u.c3, 4.0 * u.c4, 5.0 * u.c5, 0.0)
  }

  function InX(g: real -> real): Slope {
    (x, y, z) => g(x)
  }

  /** The equation y'' = u''(x): a right-hand side in x alone, which u solves. */
  function SolvedBy(u: Quintic): Slope {
    InX(Second(u))
  }

  function Second(u: Quintic): real -> real {
    x => Value(Derivative(Derivative(u)), x)
  }

  /** The point of the exact solution at x. */
  function On(u: Quintic, x: real): Point {
    Point(x, Value(u, x), Value(Derivative(u), x))
  }

  /** How far one step of size h falls behind a solution with leading coefficient c5 in y. */
  function Lag(c5: real, h: real): real {
    c5 * (h * h * h * h * h) / 6.0
  }

  // ---- the step as two quadrature rules ----

  function SimpsonRule(h: real, z: real, g0: real, g1: real, g2: real): real {
    z + h * (g0 + 4.0 * g1 + g2) / 6.0
  }

  function ThreePointRule(h: real, y: real, z: real, g0: real, g1: real): real {
    y + h * z + h * (h * (g0 + 2.0 * g1)) / 6.0
  }

  lemma StepOnQuadrature(g: real -> real, h: real, p: Point)
    ensures
      var g0, g1, g2 := g(p.x), g(p.x + h / 2.0), g(p.x + h);
      Rk4Step(InX(g), h, p)
        == Point(p.x + h, ThreePointRule(h, p.y, p.z, g0, g1), SimpsonRule(h, p.z, g0, g1, g2))
  {
    var f := InX(g);
    var g0, g1, g2 := g(p.x), g(p.x + h / 2.0), g(p.x + h);
    var k1 := Displacement(f, h, p);
    assert k1 == Point(h, h * p.z, h * g0);
    var k2 := Displacement(f, h, HalfWay(p, k1));
    assert k2 == Point(h, h * (p.z + h * g0 / 2.0), h * g1);
    var k3 := Displacement(f, h, HalfWay(p, k2));
    assert k3 == Point(h, h * (p.z + h * g1 / 2.0), h * g1);
    var k4 := Displacement(f, h, Moved(p, k3));
    assert k4 == Point(h, h * (p.z + h * g1), h * g2);
    WeightedRules(h, p.y, p.z, g0, g1, g2);
  }

  lemma WeightedRules(h: real, y: real, z: real, g0: real, g1: real, g2: real)
    ensures y + Weighted(h * z, h * (z + h * g0 / 2.0), h * (z + h * g1 / 2.0), h * (z + h * g1))
      == ThreePointRule(h, y, z, g0, g1)
    ensures z + Weighted(h * g0, h * g1, h * g1, h * g2) == SimpsonRule(h, z, g0, g1, g2)
  {
  }

  // ---- both rules on polynomials, first at zero and then anywhere ----

  lemma SimpsonAtZero(u: Quintic, h: real)
    ensures
      var z, g := Derivative(u), Derivative(Derivative(u));
      Value(z, h) == SimpsonRule(h, Value(z, 0.0), Value(g, 0.0), Value(g, h / 2.0), Value(g, h))
  {
  }

  lemma ThreePointsAtZero(u: Quintic, h: real)
    ensures
      var z, g := Derivative(u), Derivative(Derivative(u));
      Value(u, h) == ThreePointRule(h, Value(u, 0.0), Value(z, 0.0), Value(g, 0.0), Value(g, h / 2.0)) + Lag(u.c5, h)
  {
    CubicValue(2.0 * u.c2, 6.0 * u.c3, 12.0 * u.c4, 20.0 * u.c5, h / 2.0);
    ThreePointIdentity(u.c0, u.c1, u.c2, u.c3, u.c4, u.c5, h);
    var z, g := Derivative(u), Derivative(Derivative(u));
    assert g == Quintic(2.0 * u.c2, 6.0 * u.c3, 12.0 * u.c4, 20.0 * u.c5, 0.0, 0.0);
    ValueAtZero(u);
    ValueAtZero(z);
    ValueAtZero(g);
  }

  lemma ValueAtZero(u: Quintic)
    ensures Value(u, 0.0) == u.c0
  {
  }

  function Cubic(c0: real, c1: real, c2: real, c3: real, x: real): real {
    c0 + x * (c1 + x * (c2 + x * c3))
  }

  lemma CubicValue(c0: real, c1: real, c2: real, c3: real, x: real)
    ensures Value(Quintic(c0, c1, c2, c3, 0.0, 0.0), x) == Cubic(c0, c1, c2, c3, x)
  {
  }

  lemma ThreePointIdentity(c0: real, c1: real, c2: real, c3: real, c4: real, c5: real, h: real)
    ensures Value(Quintic(c0, c1, c2, c3, c4, c5), h)
      == ThreePointRule(h, c0, c1, 2.0 * c2, Cubic(2.0 * c2, 6.0 * c3, 12.0 * c4, 20.0 * c5, h / 2.0)) + Lag(c5, h)
  {
  }

  /** The Taylor coefficients at x. */
  function Shifted(u: Quintic, x: real): Quintic {
    var u1 := Derivative(u);
    var u2 := Derivative(u1);
    var u3 := Derivative(u2);
    var u4 := Derivative(u3);
    Quintic(Value(u, x), Value(u1, x), Value(u2, x) / 2.0, Value(u3, x) / 6.0, Value(u4, x) / 24.0, u.c5)
  }

  lemma Taylor(u: Quintic, x: real, h: real)
    ensures Value(u, x + h) == Value(Shifted(u, x), h)
  {
  }

  lemma ShiftedDerivative(u: Quintic, x: real)
    ensures Derivative(Shifted(u, x)) == Shifted(Derivative(u), x)
  {
  }

  lemma Simpson(u: Quintic, x: real, h: real)
    ensures
      var z, g := Derivative(u), Derivative(Derivative(u));
      Value(z, x + h) == SimpsonRule(h, Value(z, x), Value(g, x), Value(g, x + h / 2.0), Value(g, x + h))
  {
    var z, g := Derivative(u), Derivative(Derivative(u));
    ShiftedDerivative(u, x);
    ShiftedDerivative(z, x);
    SimpsonAtZero(Shifted(u, x), h);
    Taylor(z, x, h);
    Taylor(z, x, 0.0);
    Taylor(g, x, 0.0);
    Taylor(g, x, h / 2.0);
    Taylor(g, x, h);
  }

  lemma ThreePoints(u: Quintic, x: real, h: real)
    ensures
      var z, g := Derivative(u), Derivative(Derivative(u));
      Value(u, x + h) == ThreePointRule(h, Value(u, x), Value(z, x), Value(g, x), Value(g, x + h / 2.0)) + Lag(u.c5, h)
  {
    var z, g := Derivative(u), Derivative(Derivative(u));
    ShiftedDerivative(u, x);
    ShiftedDerivative(z, x);
    ThreePointsAtZero(Shifted(u, x), h);
    Taylor(u, x, h);
    Taylor(u, x, 0.0);
    Taylor(z, x, 0.0);
    Taylor(g, x, 0.0);
    Taylor(g, x, h / 2.0);
  }

  /** A point of the solution at x that is e too low. */
  function Below(u: Quintic, x: real, e: real): Point {
    On(u, x).(y := Value(u, x) - e)
  }

  lemma StepFrom(u: Quintic, h: real, x: real, e: real)
    ensures Rk4Step(SolvedBy(u), h, Below(u, x, e)) == Below(u, x + h, e + Lag(u.c5, h))
  {
    StepOnQuadrature(Second(u), h, Below(u, x, e));
    Simpson(u, x, h);
    ThreePoints(u, x, h);
    var z, g := Derivative(u), Derivative(Derivative(u));
    Lowered(h, Value(u, x), e, Value(z, x), Value(g, x), Value(g, x + h / 2.0));
  }

  lemma Lowered(h: real, y: real, e: real, z: real, g0: real, g1: real)
    ensures ThreePointRule(h, y - e, z, g0, g1) == ThreePointRule(h, y, z, g0, g1) - e
  {
  }

  // ---- whole runs ----

  /** A step that moves along a family of points moves along it n times. */
  lemma {:induction false} Along(step: Point -> Point, at: (real, real) -> Point, h: real, d: real, x: real, n: nat)
    requires forall x, e :: step(at(x, e)) == at(x + h, e + d)
    ensures At(step, at(x, 0.0), n) == at(x + Multiple(n, h), Multiple(n, d))
  {
    if n == 0 {
      OneMore(0, h);
      OneMore(0, d);
    } else {
      Along(step, at, h, d, x, n - 1);
      OneMore(n - 1, h);
      OneMore(n - 1, d);
    }
  }

  function Family(u: Quintic): (real, real) -> Point {
    (x, e) => Below(u, x, e)
  }

  lemma FamilySteps(u: Quintic, h: real)
    ensures forall x, e :: RungeKutta(SolvedBy(u), h)(Family(u)(x, e)) == Family(u)(x + h, e + Lag(u.c5, h))
  {
    forall x, e ensures RungeKutta(SolvedBy(u), h)(Family(u)(x, e)) == Family(u)(x + h, e + Lag(u.c5, h)) {
      StepFrom(u, h, x, e);
    }
  }

  lemma FamilyStarts(u: Quintic, x: real)
    ensures Family(u)(x, 0.0) == On(u, x)
  {
  }

  /** From a point of the solution, x and z stay exact, and y falls behind by the same amount in every step. */
  lemma RunOnPolynomial(u: Quintic, h: real, x0: real, n: nat)
    ensures At(RungeKutta(SolvedBy(u), h), On(u, x0), n) == Below(u, x0 + Multiple(n, h), Multiple(n, Lag(u.c5, h)))
  {
    FamilySteps(u, h);
    FamilyStarts(u, x0);
    Along(RungeKutta(SolvedBy(u), h), Family(u), h, Lag(u.c5, h), x0, n);
  }

  lemma LagIsZeroWhen(u: Quintic, h: real, n: nat)
    requires h != 0.0 && n > 0
    ensures Multiple(n, Lag(u.c5, h)) == 0.0 <==> u.c5 == 0.0
  {
  }

  /** The computed run is the exact solution at every grid point exactly when y'' is at most quadratic. */
  lemma ExactWhen(u: Quintic, h: real, x0: real, n: nat)
    requires h != 0.0 && n > 0
    ensures At(RungeKutta(SolvedBy(u), h), On(u, x0), n) == On(u, x0 + Multiple(n, h)) <==> u.c5 == 0.0
  {
    RunOnPolynomial(u, h, x0, n);
    LagIsZeroWhen(u, h, n);
  }

  /** The solution of y'' = g(x) through a given point. */
  function Solution(g: Quintic, x0: real, y0: real, z0: real): Quintic {
    var u := Quintic(0.0, 0.0, g.c0 / 2.0, g.c1 / 6.0, g.c2 / 12.0, g.c3 / 20.0);
    var w := u.(c1 := z0 - Value(Derivative(u), x0));
    w.(c0 := y0 - Value(w, x0))
  }

  /** Every cubic right-hand side with every initial value is covered. */
  lemma SolutionSolves(g: Quintic, x0: real, y0: real, z0: real)
    requires g.c4 == g.c5 == 0.0
    ensures
      var u := Solution(g, x0, y0, z0);
      Derivative(Derivative(u)) == g && On(u, x0) == Point(x0, y0, z0) && u.c5 == g.c3 / 20.0
  {
    var u := Quintic(0.0, 0.0, g.c0 / 2.0, g.c1 / 6.0, g.c2 / 12.0, g.c3 / 20.0);
    Raised(Derivative(u), x0, z0 - Value(Derivative(u), x0));
    var w := u.(c1 := z0 - Value(Derivative(u), x0));
    Raised(w, x0, y0 - Value(w, x0));
  }

  lemma Raised(u: Quintic, x: real, d: real)
    ensures Value(u.(c0 := u.c0 + d), x) == Value(u, x) + d
  {
  }
}
