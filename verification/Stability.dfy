/** For which step sizes the two integrators damp a perturbation of the initial values. */
module Stability {
  import opened Integrators
  import opened Perturbation
  import opened Products

  lemma TimesOrder(r: real, w: real)
    requires w > 0.0
    ensures r >= 0.0 ==> Times(r, w) >= 0.0
    ensures r < 1.0 ==> Times(r, w) < w
    ensures r == 1.0 ==> Times(r, w) == w
    ensures r > 1.0 ==> Times(r, w) > w
  {
    Factored(r, w);
    if r != 1.0 {
      TimesSign(r - 1.0, w);
    }
    if r > 0.0 {
      TimesIsPositive(r, w);
    }
  }

  lemma Factored(r: real, w: real)
    ensures Times(r, w) == w + Times(r - 1.0, w)
  {
  }

  lemma {:induction false} CompoundedOrder(r: real, n: nat, v: real)
    requires r >= 0.0 && v > 0.0 && n > 0
    ensures r < 1.0 ==> 0.0 <= Compounded(r, n, v) < v
    ensures r == 1.0 ==> Compounded(r, n, v) == v
    ensures r > 1.0 ==> Compounded(r, n, v) > v
  {
    var w := Compounded(r, n - 1, v);
    if n > 1 {
      CompoundedOrder(r, n - 1, v);
    }
    if w > 0.0 {
      TimesOrder(r, w);
    } else {
      assert Times(r, 0.0) == 0.0;
    }
  }

  lemma EulerFactorCases(h: real)
    ensures EulerFactor(h) >= 0.75
    ensures EulerFactor(h) < 1.0 <==> 0.0 < h < 0.1
    ensures EulerFactor(h) == 1.0 <==> h == 0.0 || h == 0.1
  {
    assert EulerFactor(h) == 0.75 + Times(10.0 * h - 0.5, 10.0 * h - 0.5);
    SquareIsPositive(10.0 * h - 0.5);
    assert EulerFactor(h) == 1.0 - Times(10.0 * h, 1.0 - 10.0 * h);
    if 0.0 < h < 0.1 {
      TimesIsPositive(10.0 * h, 1.0 - 10.0 * h);
    } else if h < 0.0 {
      TimesIsPositive(-10.0 * h, 1.0 - 10.0 * h);
    } else if h > 0.1 {
      TimesIsPositive(10.0 * h, 10.0 * h - 1.0);
    }
  }

  /** Exactly the steps below 1/10 damp a perturbation; at 1/10 its form is conserved; at 1/5 it triples. */
  lemma EulerDampsExactlyWhen(sin: real -> real, h: real, p: Point, q: Point, n: nat)
    requires p.x == q.x && p != q && n > 0
    ensures
      var step := Euler(Equation(sin), h);
      var before, after := V(Between(p, q)), V(Between(At(step, p, n), At(step, q, n)));
      && (after < before <==> 0.0 < h < 0.1)
      && (after == before <==> h == 0.0 || h == 0.1)
      && (h == 0.2 ==> after == Compounded(3.0, n, before))
  {
    EulerLaw(sin, h, p, q, n);
    EulerFactorCases(h);
    VBoundsY(Between(p, q));
    CompoundedOrder(EulerFactor(h), n, V(Between(p, q)));
    FactorsUsed();
  }

  /** The Taylor polynomial of exp(-c), by which the exact flow scales the form. */
  function Taylor4(c: real): real {
    1.0 - c + c * c / 2.0 - c * c * c / 6.0 + c * c * c * c / 24.0
  }

  function Remainder(c: real): real {
    c * c * c / 12.0 * (1.0 - c / 2.0)
  }

  /** The Runge-Kutta factor is that polynomial plus a square; it is also the norm form of three numbers. */
  lemma RkFactorIs(h: real)
    ensures RkFactor(h) == Taylor4(10.0 * h) + Times(Remainder(10.0 * h), Remainder(10.0 * h))
    ensures
      var c := 10.0 * h;
      var a, b, d := 1.0 + c * c * c / 6.0, c + c * c * c * c / 24.0, c * c / 2.0;
      RkFactor(h) == a * a + b * b + d * d - a * b - b * d - a * d
  {
  }

  /** The Taylor part is 1 - c/3 minus something positive, up to c = 2. */
  lemma TaylorPart(c: real)
    requires 0.0 < c <= 2.0
    ensures Taylor4(c) <= 1.0 - c / 3.0
  {
    var m, g := Times(c, 2.0 - c), Times(c - 1.0, c - 1.0) + 7.0;
    SquareIsPositive(c - 1.0);
    if c < 2.0 {
      TimesIsPositive(c, 2.0 - c);
      TimesIsPositive(m, g);
    }
    TaylorSplits(c);
  }

  lemma TaylorSplits(c: real)
    ensures Taylor4(c) == 1.0 - c / 3.0 - Times(Times(c, 2.0 - c), Times(c - 1.0, c - 1.0) + 7.0) / 24.0
  {
  }

  lemma RemainderIs(c: real)
    ensures Remainder(c) == Times(Times(Times(c, 2.0 - c), c), c) / 24.0
    ensures Times(c, 2.0 - c) == 1.0 - Times(c - 1.0, c - 1.0)
  {
  }

  lemma SquarePart(c: real)
    requires 0.0 < c <= 2.0
    ensures Times(Remainder(c), Remainder(c)) <= c / 72.0
  {
    var m := Times(c, 2.0 - c);
    var t, s := Times(m, c), Remainder(c);
    RemainderIs(c);
    SquareIsPositive(c - 1.0);
    TimesMonotone(0.0, 2.0 - c, c);
    assert 0.0 <= m <= 1.0;
    TimesMonotone(0.0, m, c);
    TimesMonotone(m, 1.0, c);
    assert 0.0 <= t <= 2.0;
    TimesMonotone(0.0, t, c);
    TimesMonotone(t, 2.0, c);
    assert 0.0 <= s <= c / 12.0;
    TimesMonotone(s, 1.0 / 6.0, s);
  }

  lemma RkFactorBelowOne(h: real)
    requires 0.0 < h <= 0.2
    ensures RkFactor(h) < 1.0
  {
    RkFactorIs(h);
    TaylorPart(10.0 * h);
    SquarePart(10.0 * h);
  }

  lemma NormIsPositive(u: Coefficients)
    ensures Norm(u) >= 0.0
  {
    assert Norm(u) == Times(u.a - u.b / 2.0, u.a - u.b / 2.0) + 0.75 * Times(u.b, u.b);
    SquareIsPositive(u.a - u.b / 2.0);
    SquareIsPositive(u.b);
  }

  // ---- where the factor of the Runge-Kutta step crosses one ----

  function Slow(c: real): real {
    -1.0 + c / 2.0 - c * c / 6.0 + c * c * c / 24.0
  }

  function Fast(c: real): real {
    c * c / 12.0 * (1.0 - c / 2.0)
  }

  /** The factor at h is 1 + c Excess(c) with c = 10 h. */
  function Excess(c: real): real {
    Slow(c) + Times(c, Times(Fast(c), Fast(c)))
  }

  lemma FactorByExcess(h: real)
    ensures RkFactor(h) == 1.0 + Times(10.0 * h, Excess(10.0 * h))
  {
    var c := 10.0 * h;
    RkFactorIs(h);
    TaylorBySlow(c);
    RemainderByFast(c, Fast(c));
    TimesSum(c, Slow(c), Times(c, Times(Fast(c), Fast(c))));
  }

  lemma TaylorBySlow(c: real)
    ensures Taylor4(c) == 1.0 + Times(c, Slow(c))
  {
  }

  lemma RemainderByFast(c: real, f: real)
    requires f == Fast(c)
    ensures Times(Remainder(c), Remainder(c)) == Times(c, Times(c, Times(f, f)))
  {
    assert Remainder(c) == Times(c, f);
    SquareOfProduct(c, f);
  }

  lemma SquareOfProduct(c: real, f: real)
    ensures Times(Times(c, f), Times(c, f)) == Times(c, Times(c, Times(f, f)))
  {
  }

  lemma ExcessSign(h: real)
    ensures h > 0.0 ==> (RkFactor(h) < 1.0 <==> Excess(10.0 * h) < 0.0)
    ensures h > 0.0 ==> (RkFactor(h) == 1.0 <==> Excess(10.0 * h) == 0.0)
    ensures h == 0.0 ==> RkFactor(h) == 1.0
    ensures h < 0.0 ==> RkFactor(h) > 1.0
  {
    var x := Excess(10.0 * h);
    FactorByExcess(h);
    TimesCommutes(10.0 * h, x);
    if h > 0.0 && x != 0.0 {
      TimesSign(x, 10.0 * h);
    } else if h < 0.0 {
      ExcessOfNegative(10.0 * h);
      TimesIsPositive(10.0 * h, x);
    }
  }

  lemma ExcessOfNegative(c: real)
    requires c < 0.0
    ensures Excess(c) < 0.0
  {
    var f := Fast(c);
    SquareIsPositive(c);
    SquareIsPositive(f);
    TimesMonotone(c, 0.0, Times(c, c));
    TimesMonotone(c, 0.0, Times(f, f));
    assert Times(c, Times(c, c)) == c * c * c;
  }

  /** Beyond c = 2 every part of the excess grows. */
  lemma ExcessBeyondTwo(p: real)
    ensures Excess(2.0 + p) == -1.0 / 3.0 + p / 3.0 + Times(p, p) / 12.0 + Times(p, Times(p, p)) / 24.0
      + Times(2.0 + p, Times(Growing(p), Growing(p)))
  {
    SlowBeyondTwo(p);
    assert Fast(2.0 + p) == -Growing(p);
    assert Times(Fast(2.0 + p), Fast(2.0 + p)) == Times(Growing(p), Growing(p));
  }

  function Growing(p: real): real {
    Times(Times(2.0 + p, 2.0 + p), p) / 24.0
  }

  lemma SlowBeyondTwo(p: real)
    ensures Slow(2.0 + p) == -1.0 / 3.0 + p / 3.0 + Times(p, p) / 12.0 + Times(p, Times(p, p)) / 24.0
  {
  }

  lemma TimesGrows(x: real, y: real, u: real, v: real)
    requires 0.0 <= x <= y && 0.0 <= u <= v
    ensures 0.0 <= Times(x, u) <= Times(y, v)
  {
    TimesMonotone(0.0, x, u);
    TimesMonotone(x, y, u);
    TimesMonotone(u, v, y);
    TimesCommutes(u, y);
    TimesCommutes(v, y);
  }

  lemma GrowingGrows(p: real, q: real)
    requires 0.0 <= p <= q
    ensures 0.0 <= Growing(p) <= Growing(q)
  {
    TimesGrows(2.0 + p, 2.0 + q, 2.0 + p, 2.0 + q);
    TimesGrows(Times(2.0 + p, 2.0 + p), Times(2.0 + q, 2.0 + q), p, q);
  }

  lemma ExcessGrows(p: real, q: real)
    requires 0.0 <= p < q
    ensures Excess(2.0 + p) < Excess(2.0 + q)
  {
    ExcessBeyondTwo(p);
    ExcessBeyondTwo(q);
    TimesGrows(p, q, p, q);
    TimesGrows(p, q, Times(p, p), Times(q, q));
    GrowingGrows(p, q);
    TimesGrows(Growing(p), Growing(q), Growing(p), Growing(q));
    TimesGrows(2.0 + p, 2.0 + q, Times(Growing(p), Growing(p)), Times(Growing(q), Growing(q)));
  }

  lemma ExcessAround()
    ensures Excess(2.6) < 0.0 < Excess(2.7)
  {
  }

  /** The excess changes sign between h = 0.26 and h = 0.27. */
  lemma Crosses(h: real)
    ensures 0.0 < h <= 0.26 ==> Excess(10.0 * h) < 0.0
    ensures h >= 0.27 ==> Excess(10.0 * h) > 0.0
  {
    ExcessAround();
    if 0.0 < h <= 0.2 {
      RkFactorBelowOne(h);
      ExcessSign(h);
    } else if 0.2 < h < 0.26 {
      ExcessGrows(10.0 * h - 2.0, 0.6);
    } else if h > 0.27 {
      ExcessGrows(0.7, 10.0 * h - 2.0);
    }
  }

  /**
   * Exactly the positive steps with negative excess damp a perturbation: among them all up to 0.26
   * and so every step of the script, and with a step every smaller one; at 0.27 and beyond, and for
   * negative steps, perturbations grow.
   */
  lemma RkDampsExactlyWhen(sin: real -> real, h: real, p: Point, q: Point, n: nat)
    requires p.x == q.x && p != q && n > 0
    ensures
      var step := RungeKutta(Equation(sin), h);
      var before, after := V(Between(p, q)), V(Between(At(step, p, n), At(step, q, n)));
      && (after < before <==> h > 0.0 && Excess(10.0 * h) < 0.0)
      && (after == before <==> h == 0.0 || (h > 0.0 && Excess(10.0 * h) == 0.0))
      && (0.0 < h <= 0.26 ==> after < before)
      && (h < 0.0 || h >= 0.27 ==> after > before)
  {
    RkLaw(sin, h, p, q, n);
    ExcessSign(h);
    Crosses(h);
    NormIsPositive(Coefficients(RkA(10.0 * h), RkB(10.0 * h)));
    VBoundsY(Between(p, q));
    CompoundedOrder(RkFactor(h), n, V(Between(p, q)));
  }

  /** It changes sign only once: the steps that damp form an interval. */
  lemma DampingIsAnInterval(h: real, k: real)
    requires 0.0 < h < k && Excess(10.0 * k) <= 0.0
    ensures Excess(10.0 * h) < 0.0
  {
    if h <= 0.2 {
      Crosses(h);
    } else {
      ExcessGrows(10.0 * h - 2.0, 10.0 * k - 2.0);
    }
  }

  /** The factors at the three step sizes of the script. */
  lemma FactorsUsed()
    ensures EulerFactor(0.2) == 3.0 && EulerFactor(0.1) == 1.0 && EulerFactor(0.05) == 0.75
    ensures RkFactor(0.2) == 1.0 / 3.0 && RkFactor(0.1) == 217.0 / 576.0
    ensures 0.6 < RkFactor(0.05) < 0.61
  {
  }
}
