/**
 * Classical fourth-order Runge-Kutta step (Integrator.py) over state vectors of three
 * reals.  The derivative may keep state of its own, as the balloon's does: a model is
 * a function from its own state, a time and a state vector to its new state and the
 * derivative, and the integrator threads that state through the four evaluations in
 * the order the source makes them.
 */
module Integrator {
  import opened Wrappers

  /** A derivative with hidden state `S`; partial, as the physics divides by state values. */
  type Model<!S> = (S, real, seq<real>) --> (S, seq<real>)

  /** The number of components RK4 reshapes the state into. */
  const Len: nat := 3

  function Add(a: seq<real>, b: seq<real>): (c: seq<real>)
    requires |a| == |b|
    ensures |c| == |a| && forall i :: 0 <= i < |c| ==> c[i] == a[i] + b[i]
  {
    seq(|a|, i requires 0 <= i < |a| => a[i] + b[i])
  }

  function Scale(k: real, a: seq<real>): (c: seq<real>)
    ensures |c| == |a| && forall i :: 0 <= i < |c| ==> c[i] == k * a[i]
  {
    seq(|a|, i requires 0 <= i < |a| => k * a[i])
  }

  /** One evaluation of the model: its state before, its arguments, its state after and its result. */
  datatype Stage<S> = Stage(before: S, t: real, arg: seq<real>, after: S, k: seq<real>)

  /**
   * The model may be evaluated at each of the four stages, and returns a derivative of the
   * state's length each time.
   */
  ghost predicate Evaluable<S>(model: Model<S>, s: S, x: seq<real>, t: real, dt: real)
  {
    model.requires(s, t, x) &&
    var (s1, k1) := model(s, t, x);
    |k1| == |x| &&
    var x2 := Add(x, Scale(dt / 2.0, k1));
    model.requires(s1, t + dt / 2.0, x2) &&
    var (s2, k2) := model(s1, t + dt / 2.0, x2);
    |k2| == |x| &&
    var x3 := Add(x, Scale(dt / 2.0, k2));
    model.requires(s2, t + dt / 2.0, x3) &&
    var (s3, k3) := model(s2, t + dt / 2.0, x3);
    |k3| == |x| &&
    var x4 := Add(x, Scale(dt, k3));
    model.requires(s3, t + dt, x4) &&
    |model(s3, t + dt, x4).1| == |x|
  }

  /** The four evaluations of one step, in the order they are made. */
  function Stages<S>(model: Model<S>, s: S, x: seq<real>, t: real, dt: real): (st: seq<Stage<S>>)
    requires Evaluable(model, s, x, t, dt)
    ensures |st| == 4
    ensures st[0].before == s
    ensures forall i :: 0 <= i < 3 ==> st[i + 1].before == st[i].after
    ensures forall i :: 0 <= i < 4 ==>
      model.requires(st[i].before, st[i].t, st[i].arg) &&
      (st[i].after, st[i].k) == model(st[i].before, st[i].t, st[i].arg) && |st[i].k| == |x|
  {
    var (s1, k1) := model(s, t, x);
    var x2 := Add(x, Scale(dt / 2.0, k1));
    var (s2, k2) := model(s1, t + dt / 2.0, x2);
    var x3 := Add(x, Scale(dt / 2.0, k2));
    var (s3, k3) := model(s2, t + dt / 2.0, x3);
    var x4 := Add(x, Scale(dt, k3));
    var (s4, k4) := model(s3, t + dt, x4);
    [Stage(s, t, x, s1, k1), Stage(s1, t + dt / 2.0, x2, s2, k2),
     Stage(s2, t + dt / 2.0, x3, s3, k3), Stage(s3, t + dt, x4, s4, k4)]
  }

  /** `RK4`: one step of length `dt` from time `t`; the model's final state and the new state vector. */
  function RK4<S>(model: Model<S>, s: S, x: seq<real>, t: real, dt: real): (r: Result<(S, seq<real>)>)
    requires |x| == Len ==> Evaluable(model, s, x, t, dt)
    ensures r.Ok? <==> |x| == Len
    ensures r.Ok? ==> |r.value.1| == Len
    ensures r.Err? ==> r.error == ShapeMismatch
  {
    if |x| != Len then Err(ShapeMismatch)
    else
      var st := Stages(model, s, x, t, dt);
      var k := Scale(1.0 / 6.0, Add(Add(Add(st[0].k, Scale(2.0, st[1].k)), Scale(2.0, st[2].k)), st[3].k));
      Ok((st[3].after, Add(x, Scale(dt, k))))
  }

  // ----- Properties of the step -----

  /** The stages are evaluated at t, t + dt/2 (twice) and t + dt, from the increments of the stage before. */
  lemma StagePoints<S>(model: Model<S>, s: S, x: seq<real>, t: real, dt: real)
    requires Evaluable(model, s, x, t, dt)
    ensures var st := Stages(model, s, x, t, dt);
      && st[0].t == t && st[0].arg == x
      && st[1].t == t + dt / 2.0 && st[1].arg == Add(x, Scale(dt / 2.0, st[0].k))
      && st[2].t == t + dt / 2.0 && st[2].arg == Add(x, Scale(dt / 2.0, st[1].k))
      && st[3].t == t + dt && st[3].arg == Add(x, Scale(dt, st[2].k))
  {
  }

  /** Each component of the step is the state plus dt times the weighted mean of the four slopes. */
  lemma RK4Combination<S>(model: Model<S>, s: S, x: seq<real>, t: real, dt: real, i: int)
    requires |x| == Len && Evaluable(model, s, x, t, dt) && 0 <= i < Len
    ensures var st := Stages(model, s, x, t, dt);
      && RK4(model, s, x, t, dt).value.0 == st[3].after
      && RK4(model, s, x, t, dt).value.1[i] ==
         x[i] + dt * (st[0].k[i] + 2.0 * st[1].k[i] + 2.0 * st[2].k[i] + st[3].k[i]) / 6.0
  {
  }

  /** Each evaluation adds `inc` of its argument to the tally `count` of the model's state. */
  ghost predicate Counts<S(!new)>(model: Model<S>, count: S -> int, inc: seq<real> -> int)
  {
    forall s', t', y :: model.requires(s', t', y) ==> count(model(s', t', y).0) == count(s') + inc(y)
  }

  /** One evaluation of a counting model. */
  lemma CountStage<S(!new)>(model: Model<S>, count: S -> int, inc: seq<real> -> int, e: Stage<S>)
    requires model.requires(e.before, e.t, e.arg) && (e.after, e.k) == model(e.before, e.t, e.arg)
    requires Counts(model, count, inc)
    ensures count(e.after) == count(e.before) + inc(e.arg)
  {
    var o := model(e.before, e.t, e.arg);
    assert o.0 == e.after;
  }

  /** Over a step the tally grows by the increments of the four evaluations, trial points included. */
  lemma StepCount<S(!new)>(model: Model<S>, count: S -> int, inc: seq<real> -> int, s: S, x: seq<real>, t: real, dt: real)
    requires |x| == Len && Evaluable(model, s, x, t, dt) && Counts(model, count, inc)
    ensures var st := Stages(model, s, x, t, dt);
      count(RK4(model, s, x, t, dt).value.0) == count(s) + inc(st[0].arg) + inc(st[1].arg) + inc(st[2].arg) + inc(st[3].arg)
  {
    var st := Stages(model, s, x, t, dt);
    CountStage(model, count, inc, st[0]);
    CountStage(model, count, inc, st[1]);
    CountStage(model, count, inc, st[2]);
    CountStage(model, count, inc, st[3]);
    RK4Combination(model, s, x, t, dt, 0);
  }

  /** The increment of a counter of evaluations. */
  function Once(y: seq<real>): int
  {
    1
  }

  /** A model whose state counts its evaluations advances by exactly four per step. */
  lemma FourEvaluations<S(!new)>(model: Model<S>, count: S -> int, s: S, x: seq<real>, t: real, dt: real)
    requires |x| == Len && Evaluable(model, s, x, t, dt) && Counts(model, count, Once)
    ensures count(RK4(model, s, x, t, dt).value.0) == count(s) + 4
  {
    StepCount(model, count, Once, s, x, t, dt);
  }

  /** The one-way flag `flag` is set by an evaluation exactly when it was set or `trigger` holds there. */
  ghost predicate Latches<S(!new)>(model: Model<S>, flag: S -> bool, trigger: (S, seq<real>) -> bool)
  {
    forall s', t', y :: model.requires(s', t', y) ==> (flag(model(s', t', y).0) <==> flag(s') || trigger(s', y))
  }

  /** One evaluation of a latching model. */
  lemma LatchStage<S(!new)>(model: Model<S>, flag: S -> bool, trigger: (S, seq<real>) -> bool, e: Stage<S>)
    requires model.requires(e.before, e.t, e.arg) && (e.after, e.k) == model(e.before, e.t, e.arg)
    requires Latches(model, flag, trigger)
    ensures flag(e.after) <==> flag(e.before) || trigger(e.before, e.arg)
  {
    var o := model(e.before, e.t, e.arg);
    assert o.0 == e.after;
  }

  /** After a step the flag is set exactly when it was set before or one of the four evaluations triggered it. */
  lemma StepLatch<S(!new)>(model: Model<S>, flag: S -> bool, trigger: (S, seq<real>) -> bool, s: S, x: seq<real>, t: real, dt: real)
    requires |x| == Len && Evaluable(model, s, x, t, dt) && Latches(model, flag, trigger)
    ensures var st := Stages(model, s, x, t, dt);
      flag(RK4(model, s, x, t, dt).value.0) <==> flag(s) || exists i :: 0 <= i < 4 && trigger(st[i].before, st[i].arg)
  {
    var st := Stages(model, s, x, t, dt);
    LatchStage(model, flag, trigger, st[0]);
    LatchStage(model, flag, trigger, st[1]);
    LatchStage(model, flag, trigger, st[2]);
    LatchStage(model, flag, trigger, st[3]);
    RK4Combination(model, s, x, t, dt, 0);
    if exists i :: 0 <= i < 4 && trigger(st[i].before, st[i].arg) {
      var i :| 0 <= i < 4 && trigger(st[i].before, st[i].arg);
      assert i == 0 || i == 1 || i == 2 || i == 3;
    }
  }

  /** With a zero step the state vector is unchanged. */
  lemma ZeroStep<S>(model: Model<S>, s: S, x: seq<real>, t: real)
    requires |x| == Len && Evaluable(model, s, x, t, 0.0)
    ensures RK4(model, s, x, t, 0.0).value.1 == x
  {
    var r := RK4(model, s, x, t, 0.0).value.1;
    forall i | 0 <= i < Len ensures r[i] == x[i] {
      RK4Combination(model, s, x, t, 0.0, i);
    }
  }

  /** If every derivative is constant `c`, the step moves the state by dt times `c`. */
  lemma ConstantDerivative<S>(model: Model<S>, cst: seq<real>, s: S, x: seq<real>, t: real, dt: real)
    requires |x| == Len && Evaluable(model, s, x, t, dt)
    requires forall s', t', y :: model.requires(s', t', y) ==> model(s', t', y).1 == cst
    ensures |cst| == Len
    ensures RK4(model, s, x, t, dt).value.1 == Add(x, Scale(dt, cst))
  {
    var st := Stages(model, s, x, t, dt);
    forall j | 0 <= j < 4 ensures st[j].k == cst {
      assert model.requires(st[j].before, st[j].t, st[j].arg);
      var o := model(st[j].before, st[j].t, st[j].arg);
      assert o.1 == st[j].k;
    }
    assert |cst| == Len;
    var r := RK4(model, s, x, t, dt).value.1;
    var expected := Add(x, Scale(dt, cst));
    forall i | 0 <= i < Len ensures r[i] == expected[i] {
      RK4Combination(model, s, x, t, dt, i);
    }
  }

  /** If every derivative is zero, the state vector is unchanged. */
  lemma ZeroDerivative<S>(model: Model<S>, s: S, x: seq<real>, t: real, dt: real)
    requires |x| == Len && Evaluable(model, s, x, t, dt)
    requires forall s', t', y :: model.requires(s', t', y) ==> model(s', t', y).1 == [0.0, 0.0, 0.0]
    ensures RK4(model, s, x, t, dt).value.1 == x
  {
    ConstantDerivative(model, [0.0, 0.0, 0.0], s, x, t, dt);
  }

  /** The factor by which one step scales a solution of y' = z·y / dt: the Taylor polynomial of e^z to fourth order. */
  function Growth(z: real): real
  {
    1.0 + z + (z * z) / 2.0 + (z * z * z) / 6.0 + (z * z * z * z) / 24.0
  }

  /** dt times a linear slope taken at `p` is z times `p`, for z = lambda * dt. */
  lemma ScaledSlope(lambda: real, dt: real, p: real, k: real)
    requires k == lambda * p
    ensures dt * k == (lambda * dt) * p
  {
  }

  /** The four scaled slopes of a linear law, z = lambda * dt, written as powers of z. */
  lemma ScaledSlopes(v: real, z: real, a1: real, a2: real, a3: real, a4: real)
    requires a1 == z * v
    requires a2 == z * (v + a1 / 2.0)
    requires a3 == z * (v + a2 / 2.0)
    requires a4 == z * (v + a3)
    ensures v + (a1 + 2.0 * a2 + 2.0 * a3 + a4) / 6.0 == v * Growth(z)
  {
    var z2 := z * z;
    var z3 := z2 * z;
    var z4 := z3 * z;
    var p1, p2, p3, p4 := z * v, z2 * v, z3 * v, z4 * v;
    assert z * p1 == p2 && z * p2 == p3 && z * p3 == p4;
    assert a2 == p1 + p2 / 2.0;
    assert a3 == p1 + p2 / 2.0 + p3 / 4.0;
    assert a4 == p1 + p2 + p3 / 2.0 + p4 / 4.0;
    assert Growth(z) == 1.0 + z + z2 / 2.0 + z3 / 6.0 + z4 / 24.0;
    assert v * (1.0 + z + z2 / 2.0 + z3 / 6.0 + z4 / 24.0) == v + p1 + p2 / 2.0 + p3 / 6.0 + p4 / 24.0;
  }

  /** Four slopes of a linear law, each at the point built from the slope before, combine into the growth factor. */
  lemma LinearSlopes(v: real, lambda: real, dt: real, k1: real, k2: real, k3: real, k4: real)
    requires k1 == lambda * v
    requires k2 == lambda * (v + dt / 2.0 * k1)
    requires k3 == lambda * (v + dt / 2.0 * k2)
    requires k4 == lambda * (v + dt * k3)
    ensures v + dt * (k1 + 2.0 * k2 + 2.0 * k3 + k4) / 6.0 == v * Growth(lambda * dt)
  {
    var z := lambda * dt;
    ScaledSlope(lambda, dt, v, k1);
    ScaledSlope(lambda, dt, v + dt / 2.0 * k1, k2);
    ScaledSlope(lambda, dt, v + dt / 2.0 * k2, k3);
    ScaledSlope(lambda, dt, v + dt * k3, k4);
    var a1, a2, a3, a4 := dt * k1, dt * k2, dt * k3, dt * k4;
    assert dt / 2.0 * k1 == a1 / 2.0 && dt / 2.0 * k2 == a2 / 2.0;
    ScaledSlopes(v, z, a1, a2, a3, a4);
    assert dt * (k1 + 2.0 * k2 + 2.0 * k3 + k4) == a1 + 2.0 * a2 + 2.0 * a3 + a4;
  }

  /**
   * In every state satisfying `inv` the model keeps `inv` and its slope for component `j`
   * is `lambda` times that component: the component obeys the linear law y' = lambda·y.
   */
  ghost predicate ScalesComponent<S(!new)>(model: Model<S>, inv: S -> bool, j: nat, lambda: real)
  {
    forall s', t', y :: model.requires(s', t', y) && inv(s') && j < |y| ==>
      inv(model(s', t', y).0) && j < |model(s', t', y).1| && model(s', t', y).1[j] == lambda * y[j]
  }

  /** One evaluation of a model that keeps `inv` and scales component `j` by `lambda`. */
  lemma LinearStage<S(!new)>(model: Model<S>, inv: S -> bool, j: nat, lambda: real, e: Stage<S>)
    requires model.requires(e.before, e.t, e.arg) && (e.after, e.k) == model(e.before, e.t, e.arg)
    requires inv(e.before) && j < |e.arg| && ScalesComponent(model, inv, j, lambda)
    ensures inv(e.after) && j < |e.k| && e.k[j] == lambda * e.arg[j]
  {
    var o := model(e.before, e.t, e.arg);
    assert o.0 == e.after && o.1 == e.k;
  }

  /** A component obeying a linear law is scaled by `Growth(lambda * dt)` in one step. */
  lemma LinearComponent<S(!new)>(model: Model<S>, inv: S -> bool, j: nat, lambda: real, s: S, x: seq<real>, t: real, dt: real)
    requires |x| == Len && Evaluable(model, s, x, t, dt) && j < Len && inv(s)
    requires ScalesComponent(model, inv, j, lambda)
    ensures inv(RK4(model, s, x, t, dt).value.0)
    ensures RK4(model, s, x, t, dt).value.1[j] == x[j] * Growth(lambda * dt)
  {
    var st := Stages(model, s, x, t, dt);
    StagePoints(model, s, x, t, dt);
    LinearStage(model, inv, j, lambda, st[0]);
    LinearStage(model, inv, j, lambda, st[1]);
    LinearStage(model, inv, j, lambda, st[2]);
    LinearStage(model, inv, j, lambda, st[3]);
    LinearSlopes(x[j], lambda, dt, st[0].k[j], st[1].k[j], st[2].k[j], st[3].k[j]);
    RK4Combination(model, s, x, t, dt, j);
  }

  /** A component whose slope is zero in every state satisfying `inv` is left unchanged by a step. */
  lemma FrozenComponent<S(!new)>(model: Model<S>, inv: S -> bool, j: nat, s: S, x: seq<real>, t: real, dt: real)
    requires |x| == Len && Evaluable(model, s, x, t, dt) && j < Len && inv(s)
    requires ScalesComponent(model, inv, j, 0.0)
    ensures inv(RK4(model, s, x, t, dt).value.0)
    ensures RK4(model, s, x, t, dt).value.1[j] == x[j]
  {
    LinearComponent(model, inv, j, 0.0, s, x, t, dt);
    assert Growth(0.0 * dt) == 1.0;
  }

  /** A value scaled by a factor strictly between 0 and 1 keeps its sign and shrinks. */
  lemma Shrinks(v: real, g: real, w: real)
    requires 0.0 < g < 1.0 && w == v * g
    ensures v > 0.0 ==> 0.0 < w < v
    ensures v < 0.0 ==> v < w < 0.0
    ensures v == 0.0 ==> w == 0.0
  {
    var h := 1.0 - g;
    assert v - w == v * h;
    if v > 0.0 {
      assert v * g > 0.0;
      assert v * h > 0.0;
    } else if v < 0.0 {
      assert v * g < 0.0;
      assert v * h < 0.0;
    }
  }

  /**
   * A component obeying a decaying linear law, with the step short enough that
   * -2 <= lambda·dt < 0, keeps its sign and shrinks in one step.
   */
  lemma LinearDecay<S(!new)>(model: Model<S>, inv: S -> bool, j: nat, lambda: real, s: S, x: seq<real>, t: real, dt: real)
    requires |x| == Len && Evaluable(model, s, x, t, dt) && j < Len && inv(s)
    requires ScalesComponent(model, inv, j, lambda) && -2.0 <= lambda * dt < 0.0
    ensures var v := RK4(model, s, x, t, dt).value.1[j];
      && (x[j] > 0.0 ==> 0.0 < v < x[j])
      && (x[j] < 0.0 ==> x[j] < v < 0.0)
      && (x[j] == 0.0 ==> v == 0.0)
  {
    LinearComponent(model, inv, j, lambda, s, x, t, dt);
    GrowthDecays(lambda * dt);
    Shrinks(x[j], Growth(lambda * dt), RK4(model, s, x, t, dt).value.1[j]);
  }

  /** The growth factor is positive everywhere: (z² + 2z + 2)²/24 + ((z + 2)² + 1)/6. */
  lemma GrowthPositive(z: real)
    ensures Growth(z) > 0.0
  {
    var z2 := z * z;
    var z3 := z2 * z;
    var z4 := z3 * z;
    var q := z2 + 2.0 * z + 2.0;
    var qq := q * q;
    assert qq == z4 + 4.0 * z3 + 8.0 * z2 + 8.0 * z + 4.0;
    var w := z + 2.0;
    var ww := w * w;
    assert ww == z2 + 4.0 * z + 4.0;
    assert qq >= 0.0 && ww >= 0.0;
    assert Growth(z) == qq / 24.0 + (ww + 1.0) / 6.0;
  }

  /** For a decaying law with -2 <= z < 0 the step shrinks the component: 0 < Growth(z) < 1. */
  lemma GrowthDecays(z: real)
    requires -2.0 <= z < 0.0
    ensures 0.0 < Growth(z) < 1.0
  {
    GrowthPositive(z);
    var u := -z;
    var u2 := u * u;
    var u3 := u2 * u;
    var u4 := u3 * u;
    assert z * z == u2 && z * z * z == -u3 && z * z * z * z == u4;
    var rest := u2 * (1.0 / 6.0 - u / 24.0);
    assert u2 > 0.0;
    assert rest > 0.0;
    var f := 1.0 - u / 2.0 + rest;
    assert f > 0.0;
    assert 1.0 - Growth(z) == u * f;
    assert u * f > 0.0;
  }
}
