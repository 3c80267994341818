/**
 * What the Euler loop computes on its own: sums of the slope on equations in x alone, the difference
 * equation of the script, and the polynomial solutions it reproduces.
 */
module EulerLaws {
  import opened Exactness
  import opened Integrators
  import opened Perturbation
  import opened Products

  // ---- equations in x alone ----

  /** The slope summed over the first `n` grid points. */
  function SlopeSum(g: real -> real, x0: real, h: real, n: nat): real {
    if n == 0 then 0.0 else SlopeSum(g, x0, h, n - 1) + g(x0 + Multiple(n - 1, h))
  }

  /** The first `n` of these sums added up. */
  function SumOfSums(g: real -> real, x0: real, h: real, n: nat): real {
    if n == 0 then 0.0 else SumOfSums(g, x0, h, n - 1) + SlopeSum(g, x0, h, n - 1)
  }

  /** After n steps: z is z0 and h times the slopes at the grid points behind, y is y0 and the z's behind. */
  function Summed(g: real -> real, h: real, p: Point, n: nat): Point {
    Point(p.x + Multiple(n, h),
          p.y + Multiple(n, Times(h, p.z)) + Times(h, Times(h, SumOfSums(g, p.x, h, n))),
          p.z + Times(h, SlopeSum(g, p.x, h, n)))
  }

  lemma NextPointSummed(g: real -> real, h: real, x: real, y: real, z: real, s: real, ss: real)
    ensures
      EulerStep(InX(g), h, Point(x, y + Times(h, Times(h, ss)), z + Times(h, s)))
        == Point(x + h, y + Times(h, z) + Times(h, Times(h, ss + s)), z + Times(h, s + g(x)))
  {
    StepInX(g, h, Point(x, y + Times(h, Times(h, ss)), z + Times(h, s)));
    TimesSum(h, z, Times(h, s));
    TimesSum(h, ss, s);
    TimesSum(h, Times(h, ss), Times(h, s));
    TimesSum(h, s, g(x));
  }

  lemma NextSummed(g: real -> real, h: real, p: Point, n: nat)
    ensures EulerStep(InX(g), h, Summed(g, h, p, n)) == Summed(g, h, p, n + 1)
  {
    var s, ss := SlopeSum(g, p.x, h, n), SumOfSums(g, p.x, h, n);
    OneMore(n, h);
    OneMore(n, Times(h, p.z));
    NextPointSummed(g, h, p.x + Multiple(n, h), p.y + Multiple(n, Times(h, p.z)), p.z, s, ss);
    var t, tt := SlopeSum(g, p.x, h, n + 1), SumOfSums(g, p.x, h, n + 1);
    SameTimes(h, t, s + g(p.x + Multiple(n, h)));
    SameTimes(h, tt, ss + s);
    SameTimes(h, Times(h, tt), Times(h, ss + s));
    SamePoint(p, h, Multiple(n, h), Multiple(n + 1, h), Times(h, p.z),
              Multiple(n, Times(h, p.z)), Multiple(n + 1, Times(h, p.z)),
              Times(h, Times(h, ss + s)), Times(h, Times(h, tt)),
              Times(h, s + g(p.x + Multiple(n, h))), Times(h, t));
  }

  lemma SamePoint(p: Point, h: real, m: real, m': real, hz: real, k: real, k': real,
                  tt: real, tt': real, t: real, t': real)
    requires m' == m + h && k' == k + hz && tt' == tt && t' == t
    ensures Point(p.x + m + h, p.y + k + hz + tt, p.z + t) == Point(p.x + m', p.y + k' + tt', p.z + t')
  {
  }

  lemma SameTimes(h: real, a: real, b: real)
    requires a == b
    ensures Times(h, a) == Times(h, b)
  {
  }

  lemma StepInX(g: real -> real, h: real, q: Point)
    ensures EulerStep(InX(g), h, q) == Point(q.x + h, q.y + Times(h, q.z), q.z + Times(h, g(q.x)))
  {
    var slope := InX(g)(q.x, q.y, q.z);
    assert slope == g(q.x);
    SameTimes(h, slope, g(q.x));
    TimesIs(h, slope);
    TimesIs(h, q.z);
  }

  lemma TimesIs(h: real, a: real)
    ensures h * a == Times(h, a)
  {
  }

  lemma NoSums(g: real -> real, h: real, p: Point)
    ensures Summed(g, h, p, 0) == p
  {
    OneMore(0, h);
    OneMore(0, Times(h, p.z));
  }

  /** A step that leads from each point of a list to the next leads through the whole list. */
  lemma {:induction false} Through(step: Point -> Point, points: nat -> Point, n: nat)
    requires forall m: nat :: step(points(m)) == points(m + 1)
    ensures At(step, points(0), n) == points(n)
  {
    if n > 0 {
      Through(step, points, n - 1);
    }
  }

  function SummedPoints(g: real -> real, h: real, p: Point): nat -> Point {
    (n: nat) => Summed(g, h, p, n)
  }

  lemma SummedFollow(g: real -> real, h: real, p: Point)
    ensures forall m: nat :: Euler(InX(g), h)(SummedPoints(g, h, p)(m)) == SummedPoints(g, h, p)(m + 1)
    ensures SummedPoints(g, h, p)(0) == p
  {
    NoSums(g, h, p);
    forall m: nat ensures Euler(InX(g), h)(SummedPoints(g, h, p)(m)) == SummedPoints(g, h, p)(m + 1) {
      NextSummed(g, h, p, m);
    }
  }

  /** Euler on z' = g(x), for any g and any number of steps. */
  lemma EulerSums(g: real -> real, h: real, p: Point, n: nat)
    ensures At(Euler(InX(g), h), p, n) == Summed(g, h, p, n)
  {
    SummedFollow(g, h, p);
    Through(Euler(InX(g), h), SummedPoints(g, h, p), n);
  }

  // ---- the script's equation ----

  /** Every two neighbouring grid points of a run satisfy the difference equations, the forcing term included. */
  lemma DifferenceEquation(sin: real -> real, h: real, p: Point, n: nat)
    ensures
      var q, r := At(Euler(Equation(sin), h), p, n), At(Euler(Equation(sin), h), p, n + 1);
      && r.x - q.x == h
      && r.y - q.y == Times(h, q.z)
      && 0.2 * (r.z - q.z) + Times(h, 2.0 * q.z + 20.0 * q.y) == 10.0 * Times(h, sin(2.0 * q.x))
  {
    var f := Equation(sin);
    NextPoint(f, h, p, n);
    StepOfEquation(sin, h, At(Euler(f, h), p, n));
  }

  lemma NextPoint(f: Slope, h: real, p: Point, n: nat)
    ensures At(Euler(f, h), p, n + 1) == EulerStep(f, h, At(Euler(f, h), p, n))
  {
  }

  lemma StepOfEquation(sin: real -> real, h: real, q: Point)
    ensures
      var r := EulerStep(Equation(sin), h, q);
      && r.x - q.x == h
      && r.y - q.y == Times(h, q.z)
      && 0.2 * (r.z - q.z) + Times(h, 2.0 * q.z + 20.0 * q.y) == 10.0 * Times(h, sin(2.0 * q.x))
  {
    Multiplied(h, sin(2.0 * q.x), q.y, q.z);
  }

  lemma Multiplied(h: real, s: real, y: real, z: real)
    ensures
      0.2 * (z + h * ((10.0 * s - 2.0 * z - 20.0 * y) / 0.2) - z) + Times(h, 2.0 * z + 20.0 * y) == 10.0 * Times(h, s)
  {
  }

  // ---- polynomial solutions ----

  predicate IsCubic(u: Quintic) {
    u.c4 == u.c5 == 0.0
  }

  /** What one step adds to the lag of z, and to that of y at x when z is dz behind. */
  function ZLoss(u: Quintic, h: real): real {
    3.0 * Times(u.c3, Times(h, h))
  }

  function YLoss(u: Quintic, h: real, x: real, dz: real): real {
    Times(h, dz) + Times(Times(h, h), u.c2 + 3.0 * u.c3 * x + u.c3 * h)
  }

  /** How far z is behind a cubic solution after n steps. */
  function ZLag(u: Quintic, h: real, n: nat): real {
    Multiple(n, ZLoss(u, h))
  }

  /** How far y is behind. */
  function YLag(u: Quintic, h: real, x0: real, n: nat): real {
    if n == 0 then 0.0
    else YLag(u, h, x0, n - 1) + YLoss(u, h, x0 + Multiple(n - 1, h), ZLag(u, h, n - 1))
  }

  function Behind(u: Quintic, x: real, dy: real, dz: real): Point {
    Point(x, Value(u, x) - dy, Value(Derivative(u), x) - dz)
  }

  lemma StepBehind(u: Quintic, h: real, x: real, dy: real, dz: real)
    requires IsCubic(u)
    ensures
      EulerStep(SolvedBy(u), h, Behind(u, x, dy, dz))
        == Behind(u, x + h, dy + YLoss(u, h, x, dz), dz + ZLoss(u, h))
  {
    var z, g := Derivative(u), Derivative(Derivative(u));
    StepInX(Second(u), h, Behind(u, x, dy, dz));
    CubicOn(u, h, x);
    DerivativeOn(u, h, x);
    TimesDifference(h, Value(z, x), dz);
    Assembled(x + h, Value(u, x), Value(z, x), dy, dz, Times(h, Value(z, x)), Times(h, dz),
              Times(h, Value(z, x) - dz), Times(h, Value(g, x)), Value(u, x + h), Value(z, x + h),
              YLoss(u, h, x, dz), ZLoss(u, h));
  }

  lemma TimesDifference(h: real, a: real, b: real)
    ensures Times(h, a - b) == Times(h, a) - Times(h, b)
  {
  }

  lemma Assembled(x: real, y: real, z: real, dy: real, dz: real, hz: real, hdz: real, hzdz: real, hg: real,
                  y': real, z': real, yLoss: real, zLoss: real)
    requires hzdz == hz - hdz && y' == y + hz + (yLoss - hdz) && z' == z + hg + zLoss
    ensures Point(x, (y - dy) + hzdz, (z - dz) + hg) == Point(x, y' - (dy + yLoss), z' - (dz + zLoss))
  {
  }

  lemma Squared(x: real, h: real)
    ensures Times(x + h, x + h) == Times(x, x) + Times(h, 2.0 * x) + Times(h, h)
  {
  }

  lemma Cubed(x: real, h: real)
    ensures
      Times(x + h, Times(x + h, x + h))
        == Times(x, Times(x, x)) + Times(h, 3.0 * Times(x, x)) + Times(Times(h, h), 3.0 * x + h)
  {
  }

  /** The cubic by powers. */
  lemma ByPowers(u: Quintic, x: real)
    requires IsCubic(u)
    ensures Value(u, x) == u.c0 + Times(u.c1, x) + Times(u.c2, Times(x, x)) + Times(u.c3, Times(x, Times(x, x)))
  {
    CubicValue(u.c0, u.c1, u.c2, u.c3, x);
    CubicByPowers(u.c0, u.c1, u.c2, u.c3, x);
  }

  lemma CubicByPowers(c0: real, c1: real, c2: real, c3: real, x: real)
    ensures Cubic(c0, c1, c2, c3, x) == c0 + Times(c1, x) + Times(c2, Times(x, x)) + Times(c3, Times(x, Times(x, x)))
  {
  }

  /** The same with the powers, and the powers one step on, as numbers of their own. */
  lemma Collected(c1: real, c2: real, c3: real, x: real, h: real, x2: real, h2: real, x3: real)
    ensures
      Times(c1, x + h) + Times(c2, x2 + Times(h, 2.0 * x) + h2)
        + Times(c3, x3 + Times(h, 3.0 * x2) + Times(h2, 3.0 * x + h))
        == Times(c1, x) + Times(c2, x2) + Times(c3, x3)
        + Times(h, c1 + Times(2.0 * c2, x) + Times(3.0 * c3, x2)) + Times(h2, c2 + 3.0 * c3 * x + c3 * h)
  {
  }

  lemma NextByPowers(u: Quintic, h: real, x: real, next: real, here: real, slope: real)
    requires next == u.c0 + Times(u.c1, x + h) + Times(u.c2, Times(x + h, x + h))
                   + Times(u.c3, Times(x + h, Times(x + h, x + h)))
    requires here == u.c0 + Times(u.c1, x) + Times(u.c2, Times(x, x)) + Times(u.c3, Times(x, Times(x, x)))
    requires slope == u.c1 + Times(2.0 * u.c2, x) + Times(3.0 * u.c3, Times(x, x))
    ensures next == here + Times(h, slope) + Times(Times(h, h), u.c2 + 3.0 * u.c3 * x + u.c3 * h)
  {
    Squared(x, h);
    Cubed(x, h);
    Collected(u.c1, u.c2, u.c3, x, h, Times(x, x), Times(h, h), Times(x, Times(x, x)));
  }

  /** A cubic one step on. */
  lemma CubicOn(u: Quintic, h: real, x: real)
    requires IsCubic(u)
    ensures Value(u, x + h)
      == Value(u, x) + Times(h, Value(Derivative(u), x)) + Times(Times(h, h), u.c2 + 3.0 * u.c3 * x + u.c3 * h)
  {
    var z := Derivative(u);
    ByPowers(u, x);
    ByPowers(u, x + h);
    ByPowers(z, x);
    NextByPowers(u, h, x, Value(u, x + h), Value(u, x), Value(z, x));
  }

  /** Its derivative one step on. */
  lemma DerivativeOn(u: Quintic, h: real, x: real)
    requires IsCubic(u)
    ensures
      var z, g := Derivative(u), Derivative(Derivative(u));
      Value(z, x + h) == Value(z, x) + Times(h, Value(g, x)) + ZLoss(u, h)
  {
    var z := Derivative(u);
    CubicOn(z, h, x);
    ConstantLoss(u.c3, h, x);
  }

  lemma ConstantLoss(c: real, h: real, x: real)
    ensures Times(Times(h, h), 3.0 * c + 3.0 * (4.0 * 0.0) * x + 4.0 * 0.0 * h) == 3.0 * Times(c, Times(h, h))
  {
  }

  /** Euler on an equation with a cubic solution: the exact lag of z and of y at every grid point. */
  lemma {:induction false} EulerOnCubic(u: Quintic, h: real, x0: real, n: nat)
    requires IsCubic(u)
    ensures
      At(Euler(SolvedBy(u), h), On(u, x0), n)
        == Behind(u, x0 + Multiple(n, h), YLag(u, h, x0, n), ZLag(u, h, n))
  {
    if n == 0 {
      OneMore(0, h);
      OneMore(0, ZLoss(u, h));
    } else {
      EulerOnCubic(u, h, x0, n - 1);
      OneMore(n - 1, h);
      OneMore(n - 1, ZLoss(u, h));
      StepBehind(u, h, x0 + Multiple(n - 1, h), YLag(u, h, x0, n - 1), ZLag(u, h, n - 1));
    }
  }

  lemma {:induction false} YLagOfQuadratic(u: Quintic, h: real, x0: real, n: nat)
    requires u.c3 == 0.0
    ensures YLag(u, h, x0, n) == Multiple(n, Times(Times(h, h), u.c2))
  {
    if n == 0 {
      OneMore(0, Times(Times(h, h), u.c2));
    } else {
      YLagOfQuadratic(u, h, x0, n - 1);
      OneMore(n - 1, Times(Times(h, h), u.c2));
      NoZLag(u, h, n - 1);
      YLossOfQuadratic(u, h, x0 + Multiple(n - 1, h));
    }
  }

  lemma YLossOfQuadratic(u: Quintic, h: real, x: real)
    requires u.c3 == 0.0
    ensures YLoss(u, h, x, 0.0) == Times(Times(h, h), u.c2)
  {
  }

  lemma NoZLag(u: Quintic, h: real, n: nat)
    requires u.c3 == 0.0
    ensures ZLag(u, h, n) == 0.0
  {
    assert ZLoss(u, h) == 0.0;
  }

  lemma MultipleIsZeroWhen(n: nat, d: real)
    requires n > 0
    ensures Multiple(n, d) == 0.0 <==> d == 0.0
  {
    if d != 0.0 {
      TimesSign(d, n as real);
      assert Multiple(n, d) == Times(d, n as real);
    }
  }

  lemma SquareTimesIsZeroWhen(h: real, c: real)
    requires h != 0.0
    ensures Times(Times(h, h), c) == 0.0 <==> c == 0.0
    ensures 3.0 * Times(c, Times(h, h)) == 0.0 <==> c == 0.0
  {
    SquareIsPositive(h);
    TimesCommutes(c, Times(h, h));
    if c != 0.0 {
      TimesSign(c, Times(h, h));
    }
  }

  lemma LagsVanishWhen(u: Quintic, h: real, x0: real, n: nat)
    requires h != 0.0 && n > 0
    ensures YLag(u, h, x0, n) == 0.0 && ZLag(u, h, n) == 0.0 <==> u.c2 == u.c3 == 0.0
  {
    MultipleIsZeroWhen(n, ZLoss(u, h));
    SquareTimesIsZeroWhen(h, u.c3);
    if u.c3 == 0.0 {
      YLagOfQuadratic(u, h, x0, n);
      MultipleIsZeroWhen(n, Times(Times(h, h), u.c2));
      SquareTimesIsZeroWhen(h, u.c2);
    }
  }

  /** Among cubic solutions Euler is exact after n steps, in y and z, exactly for the linear ones. */
  lemma EulerExactWhen(u: Quintic, h: real, x0: real, n: nat)
    requires IsCubic(u) && h != 0.0 && n > 0
    ensures
      At(Euler(SolvedBy(u), h), On(u, x0), n) == On(u, x0 + Multiple(n, h)) <==> u.c2 == u.c3 == 0.0
  {
    EulerOnCubic(u, h, x0, n);
    BehindIsOnWhen(u, x0 + Multiple(n, h), YLag(u, h, x0, n), ZLag(u, h, n));
    LagsVanishWhen(u, h, x0, n);
  }

  lemma BehindIsOnWhen(u: Quintic, x: real, dy: real, dz: real)
    ensures Behind(u, x, dy, dz) == On(u, x) <==> dy == 0.0 && dz == 0.0
  {
  }
}
