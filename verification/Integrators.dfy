/** The Euler and Runge-Kutta loops of the ODE script, over the real numbers. */
module Integrators {

  /** Right-hand side z' = f(x, y, z); the other equation is y' = z. */
  type Slope = (real, real, real) -> real

  datatype Point = Point(x: real, y: real, z: real)

  function EulerStep(f: Slope, h: real, p: Point): Point {
    Point(p.x + h, p.y + h * p.z, p.z + h * f(p.x, p.y, p.z))
  }

  /** The displacement k of one Runge-Kutta stage: h in x, k_y and k_z. */
  function Displacement(f: Slope, h: real, p: Point): Point {
    Point(h, h * p.z, h * f(p.x, p.y, p.z))
  }

  function HalfWay(p: Point, k: Point): Point {
    Point(p.x + k.x / 2.0, p.y + k.y / 2.0, p.z + k.z / 2.0)
  }

  function Moved(p: Point, k: Point): Point {
    Point(p.x + k.x, p.y + k.y, p.z + k.z)
  }

  function Weighted(a: real, b: real, c: real, d: real): real {
    (a + 2.0 * b + 2.0 * c + d) / 6.0
  }

  /** Four stages, and the step with their weighted mean. */
  function Rk4Step(f: Slope, h: real, p: Point): Point {
    var k1 := Displacement(f, h, p);
    var k2 := Displacement(f, h, HalfWay(p, k1));
    var k3 := Displacement(f, h, HalfWay(p, k2));
    var k4 := Displacement(f, h, Moved(p, k3));
    Point(p.x + h, p.y + Weighted(k1.y, k2.y, k3.y, k4.y), p.z + Weighted(k1.z, k2.z, k3.z, k4.z))
  }

  function Euler(f: Slope, h: real): Point -> Point {
    p => EulerStep(f, h, p)
  }

  function RungeKutta(f: Slope, h: real): Point -> Point {
    p => Rk4Step(f, h, p)
  }

  /** The grid point after `n` steps. */
  function At(step: Point -> Point, p: Point, n: nat): Point {
    if n == 0 then p else step(At(step, p, n - 1))
  }

  /** The first `n + 1` grid points of either method. */
  ghost predicate Follows(xs: seq<real>, ys: seq<real>, zs: seq<real>, at: nat -> Point, n: nat)
    requires |xs| == |ys| == |zs| > n
  {
    forall j: nat :: j <= n ==> xs[j] == at(j).x && ys[j] == at(j).y && zs[j] == at(j).z
  }

  lemma FollowsOn(xs: seq<real>, ys: seq<real>, zs: seq<real>, at: nat -> Point, n: nat, next: Point)
    requires |xs| == |ys| == |zs| > n + 1
    requires Follows(xs, ys, zs, at, n) && next == at(n + 1)
    ensures Follows(xs[n + 1 := next.x], ys[n + 1 := next.y], zs[n + 1 := next.z], at, n + 1)
  {
  }

  /** The script's loop fills three arrays and returns two of them. */
  method EulerMethod(f: Slope, x0: real, y0: real, z0: real, h: real, steps: nat)
    returns (xs: array<real>, ys: array<real>)
    ensures fresh(xs) && fresh(ys) && xs.Length == ys.Length == steps + 1
    ensures forall i :: 0 <= i <= steps ==>
      xs[i] == At(Euler(f, h), Point(x0, y0, z0), i).x && ys[i] == At(Euler(f, h), Point(x0, y0, z0), i).y
  {
    xs, ys := new real[steps + 1], new real[steps + 1];
    var zs := new real[steps + 1];
    xs[0], ys[0], zs[0] := x0, y0, z0;
    ghost var at: nat -> Point := (n: nat) => At(Euler(f, h), Point(x0, y0, z0), n);
    for i := 0 to steps
      invariant Follows(xs[..], ys[..], zs[..], at, i)
    {
      ghost var next := EulerStep(f, h, Point(xs[i], ys[i], zs[i]));
      ghost var xs0, ys0, zs0 := xs[..], ys[..], zs[..];
      FollowsOn(xs0, ys0, zs0, at, i, next);
      ys[i + 1] := ys[i] + h * zs[i];
      zs[i + 1] := zs[i] + h * f(xs[i], ys[i], zs[i]);
      xs[i + 1] := xs[i] + h;
      assert Point(xs[i + 1], ys[i + 1], zs[i + 1]) == next;
      assert xs[..] == xs0[i + 1 := next.x] && ys[..] == ys0[i + 1 := next.y] && zs[..] == zs0[i + 1 := next.z];
    }
    assert forall i: nat :: i <= steps ==> xs[i] == at(i).x && ys[i] == at(i).y;
  }

  /** The body of the Runge-Kutta loop: the eight increments in the script's order. */
  method RungeKuttaBody(f: Slope, x: real, y: real, z: real, h: real) returns (y': real, z': real)
    ensures Point(x + h, y', z') == Rk4Step(f, h, Point(x, y, z))
  {
    ghost var p := Point(x, y, z);
    var k1y := h * z;
    var k1z := h * f(x, y, z);
    ghost var k1 := Point(h, k1y, k1z);
    assert k1 == Displacement(f, h, p);
    var k2y := h * (z + k1z / 2.0);
    var k2z := h * f(x + h / 2.0, y + k1y / 2.0, z + k1z / 2.0);
    ghost var k2 := Point(h, k2y, k2z);
    assert k2 == Displacement(f, h, HalfWay(p, k1));
    var k3y := h * (z + k2z / 2.0);
    var k3z := h * f(x + h / 2.0, y + k2y / 2.0, z + k2z / 2.0);
    ghost var k3 := Point(h, k3y, k3z);
    assert k3 == Displacement(f, h, HalfWay(p, k2));
    var k4y := h * (z + k3z);
    var k4z := h * f(x + h, y + k3y, z + k3z);
    assert Point(h, k4y, k4z) == Displacement(f, h, Moved(p, k3));
    y' := y + (k1y + 2.0 * k2y + 2.0 * k3y + k4y) / 6.0;
    z' := z + (k1z + 2.0 * k2z + 2.0 * k3z + k4z) / 6.0;
  }

  method RungeKutta4(f: Slope, x0: real, y0: real, z0: real, h: real, steps: nat)
    returns (xs: array<real>, ys: array<real>)
    ensures fresh(xs) && fresh(ys) && xs.Length == ys.Length == steps + 1
    ensures forall i :: 0 <= i <= steps ==>
      xs[i] == At(RungeKutta(f, h), Point(x0, y0, z0), i).x && ys[i] == At(RungeKutta(f, h), Point(x0, y0, z0), i).y
  {
    xs, ys := new real[steps + 1], new real[steps + 1];
    var zs := new real[steps + 1];
    xs[0], ys[0], zs[0] := x0, y0, z0;
    ghost var at: nat -> Point := (n: nat) => At(RungeKutta(f, h), Point(x0, y0, z0), n);
    for i := 0 to steps
      invariant Follows(xs[..], ys[..], zs[..], at, i)
    {
      ghost var next := Rk4Step(f, h, Point(xs[i], ys[i], zs[i]));
      ghost var xs0, ys0, zs0 := xs[..], ys[..], zs[..];
      FollowsOn(xs0, ys0, zs0, at, i, next);
      ys[i + 1], zs[i + 1] := RungeKuttaBody(f, xs[i], ys[i], zs[i], h);
      xs[i + 1] := xs[i] + h;
      assert Point(xs[i + 1], ys[i + 1], zs[i + 1]) == next;
      assert xs[..] == xs0[i + 1 := next.x] && ys[..] == ys0[i + 1 := next.y] && zs[..] == zs0[i + 1 := next.z];
    }
    assert forall i: nat :: i <= steps ==> xs[i] == at(i).x && ys[i] == at(i).y;
  }

  function Multiple(n: nat, d: real): real {
    n as real * d
  }

  lemma OneMore(n: nat, d: real)
    ensures Multiple(n + 1, d) == Multiple(n, d) + d && Multiple(0, d) == 0.0
  {
  }

  lemma {:induction false} GridOf(step: Point -> Point, h: real, p: Point, n: nat)
    requires forall q: Point :: step(q).x == q.x + h
    ensures At(step, p, n).x == p.x + Multiple(n, h)
  {
    if n == 0 {
      OneMore(0, h);
    } else {
      GridOf(step, h, p, n - 1);
      OneMore(n - 1, h);
    }
  }

  /** Both methods keep the grid: x is x0 + n h. */
  lemma Grid(f: Slope, h: real, p: Point, n: nat)
    ensures At(Euler(f, h), p, n).x == At(RungeKutta(f, h), p, n).x == p.x + Multiple(n, h)
  {
    GridOf(Euler(f, h), h, p, n);
    GridOf(RungeKutta(f, h), h, p, n);
  }
}
