/**
 * The simulation driver (Simulator.py): build the grid of time points, then advance the
 * state one RK4 step per point, reporting progress before each step and collecting the
 * state after each step.
 */
module Simulator {
  import opened Wrappers
  import I = Integrator

  /** Smallest integer not below `x`. */
  function Ceil(x: real): (n: int)
    ensures n as real >= x && (n - 1) as real < x
  {
    -((-x).Floor)
  }

  /** Number of points of the grid from `start` towards `end` in increments of `step`. */
  function Count(start: real, end: real, step: real): nat
    requires step != 0.0
  {
    var q := Ceil((end - start) / step);
    if q > 0 then q else 0
  }

  /** `np.arange(start, end, step)`: the time points, or the error a zero step raises. */
  function TimePoints(start: real, end: real, step: real): (r: Result<seq<real>>)
    ensures r.Err? <==> step == 0.0
    ensures r.Err? ==> r.error == ZeroStep
  {
    if step == 0.0 then Err(ZeroStep)
    else Ok(seq(Count(start, end, step), i requires 0 <= i => start + i as real * step))
  }

  /** The state of a run after some steps: the model's state, the current vector, the states so far. */
  datatype Progress<S> = Progress(s: S, x: seq<real>, trajectory: seq<seq<real>>)

  /** What a finished run returns: the states after each step, the time points, and the final
      states of the model and of the progress callback. */
  datatype Outcome<S, C> = Outcome(trajectory: seq<seq<real>>, time: seq<real>, model: S, status: C)

  /** Every step of the run over `times` can evaluate its model. */
  ghost predicate Runnable<S>(model: I.Model<S>, s0: S, x0: seq<real>, times: seq<real>, dt: real)
    decreases |times|, 0
  {
    times == [] ||
    (var prefix := times[..|times| - 1];
     Runnable(model, s0, x0, prefix, dt) &&
     var p := Run(model, s0, x0, prefix, dt);
     p.Ok? && |p.value.x| == I.Len ==> I.Evaluable(model, p.value.s, p.value.x, times[|times| - 1], dt))
  }

  /** The run over the time points `times`, one RK4 step per point. */
  function Run<S>(model: I.Model<S>, s0: S, x0: seq<real>, times: seq<real>, dt: real): (r: Result<Progress<S>>)
    requires Runnable(model, s0, x0, times, dt)
    ensures r.Ok? ==> |r.value.trajectory| == |times|
    decreases |times|, 1
  {
    if times == [] then Ok(Progress(s0, x0, []))
    else
      var prefix := times[..|times| - 1];
      match Run(model, s0, x0, prefix, dt)
      case Err(e) => Err(e)
      case Ok(p) =>
        match I.RK4(model, p.s, p.x, times[|times| - 1], dt)
        case Err(e) => Err(e)
        case Ok(next) => Ok(Progress(next.0, next.1, p.trajectory + [next.1]))
  }

  /** The values passed to the progress callback, one per step: i / n for step i of n. */
  function Fractions(n: nat): seq<real>
  {
    seq(n, i requires 0 <= i < n => i as real / n as real)
  }

  /** The callback's state after it is called on each value of `ps` in turn. */
  function Report<C>(status: (C, real) -> C, c: C, ps: seq<real>): C
    decreases |ps|
  {
    if ps == [] then c else status(Report(status, c, ps[..|ps| - 1]), ps[|ps| - 1])
  }

  /** The default progress callback `s`: it does nothing. */
  function Silent<C>(c: C, progress: real): (c': C)
    ensures c' == c
  {
    c
  }

  /** What `Simulate` returns. */
  function SimulateSpec<S, C>(x0: seq<real>, model: I.Model<S>, s0: S, start: real, end: real, step: real,
                              status: (C, real) -> C, c0: C): Result<Outcome<S, C>>
    requires TimePoints(start, end, step).Ok? ==> Runnable(model, s0, x0, TimePoints(start, end, step).value, step)
  {
    match TimePoints(start, end, step)
    case Err(e) => Err(e)
    case Ok(time) =>
      match Run(model, s0, x0, time, step)
      case Err(e) => Err(e)
      case Ok(p) => Ok(Outcome(p.trajectory, time, p.s, Report(status, c0, Fractions(|time|))))
  }

  /**
   * `Simulate`: integrate `model` from `start` towards `end` in steps of `step`.  The
   * callback's own state `c0` comes before the parameters that carry the source's
   * defaults: 0 s, 30 s, 1 s and the silent callback `s`.
   */
  method Simulate<S, C>(x0: seq<real>, model: I.Model<S>, s0: S, c0: C, start: real := 0.0, end: real := 30.0,
                        step: real := 1.0, status: (C, real) -> C := Silent) returns (r: Result<Outcome<S, C>>)
    requires TimePoints(start, end, step).Ok? ==> Runnable(model, s0, x0, TimePoints(start, end, step).value, step)
    ensures r == SimulateSpec(x0, model, s0, start, end, step, status, c0)
  {
    var grid := TimePoints(start, end, step);
    if grid.Err? {
      return Err(grid.error);
    }
    var time := grid.value;
    var n := |time|;
    var state, ms, cs := x0, s0, c0;
    var viewState: seq<seq<real>> := [];
    for i := 0 to n
      invariant Runnable(model, s0, x0, time[..i], step)
      invariant Run(model, s0, x0, time[..i], step) == Ok(Progress(ms, state, viewState))
      invariant cs == Report(status, c0, Fractions(n)[..i])
    {
      ghost var reported := Fractions(n)[..i + 1];
      assert reported[..i] == Fractions(n)[..i] && reported[i] == i as real / n as real;
      cs := status(cs, i as real / n as real);
      assert cs == Report(status, c0, reported);
      ghost var prefix := time[..i + 1];
      RunnablePrefix(model, s0, x0, time, i + 1, step);
      assert prefix[..i] == time[..i] && prefix[i] == time[i];
      var next := I.RK4(model, ms, state, time[i], step);
      if next.Err? {
        assert Run(model, s0, x0, prefix, step) == Err(next.error);
        RunErrorPersists(model, s0, x0, time, i + 1, step);
        return Err(next.error);
      }
      ms, state := next.value.0, next.value.1;
      viewState := viewState + [state];
      assert Run(model, s0, x0, prefix, step) == Ok(Progress(ms, state, viewState));
    }
    assert time[..n] == time;
    assert Fractions(n)[..n] == Fractions(n);
    r := Ok(Outcome(viewState, time, ms, cs));
  }

  // ----- Lemmas used by the driver -----

  lemma {:induction false} RunnablePrefix<S>(model: I.Model<S>, s0: S, x0: seq<real>, times: seq<real>,
                                             k: nat, dt: real)
    requires Runnable(model, s0, x0, times, dt) && k <= |times|
    ensures Runnable(model, s0, x0, times[..k], dt)
    decreases |times|
  {
    if k < |times| {
      assert times[..|times| - 1][..k] == times[..k];
      RunnablePrefix(model, s0, x0, times[..|times| - 1], k, dt);
    } else {
      assert times[..k] == times;
    }
  }

  /** Once a step fails, the rest of the run fails with the same error. */
  lemma {:induction false} RunErrorPersists<S>(model: I.Model<S>, s0: S, x0: seq<real>, times: seq<real>,
                                               k: nat, dt: real)
    requires Runnable(model, s0, x0, times, dt) && k <= |times|
    requires Runnable(model, s0, x0, times[..k], dt) && Run(model, s0, x0, times[..k], dt).Err?
    ensures Run(model, s0, x0, times, dt) == Run(model, s0, x0, times[..k], dt)
    decreases |times|
  {
    if k < |times| {
      var prefix := times[..|times| - 1];
      assert prefix[..k] == times[..k];
      RunnablePrefix(model, s0, x0, prefix, k, dt);
      RunErrorPersists(model, s0, x0, prefix, k, dt);
    } else {
      assert times[..k] == times;
    }
  }

  // ----- Properties of the driver -----

  /** Multiplying by a positive factor keeps the order of two reals. */
  lemma ScaleOrder(a: real, b: real, f: real)
    requires f > 0.0
    ensures a < b <==> a * f < b * f
  {
    var d := (b - a) * f;
    assert d == b * f - a * f;
    if a < b {
      assert d > 0.0;
    } else {
      assert d <= 0.0;
    }
  }

  /**
   * With a positive step the grid holds exactly the points start + k * step that lie
   * strictly below `end`; in particular it is empty when `end <= start`.
   */
  lemma TimeGridForward(start: real, end: real, step: real, k: nat)
    requires step > 0.0
    ensures var time := TimePoints(start, end, step).value;
      && (k < |time| <==> start + k as real * step < end)
      && (k < |time| ==> time[k] == start + k as real * step)
      && (end <= start ==> |time| == 0)
  {
    var q := (end - start) / step;
    CountBound(start, end, step, k);
    assert q * step == end - start;
    ScaleOrder(k as real, q, step);
  }

  /** A point index lies in the grid exactly when it is below (end - start) / step. */
  lemma CountBound(start: real, end: real, step: real, k: nat)
    requires step != 0.0
    ensures k < Count(start, end, step) <==> (k as real) < (end - start) / step
  {
    var q := (end - start) / step;
    var c := Ceil(q);
    if k < Count(start, end, step) {
      assert k < c && k <= c - 1;
      assert (k as real) <= (c - 1) as real < q;
    } else {
      assert k >= c;
      assert (k as real) >= c as real >= q;
    }
  }

  /** With a negative step the grid counts down through the points strictly above `end`. */
  lemma TimeGridBackward(start: real, end: real, step: real, k: nat)
    requires step < 0.0
    ensures var time := TimePoints(start, end, step).value;
      && (k < |time| <==> start + k as real * step > end)
      && (k < |time| ==> time[k] == start + k as real * step)
  {
    var q := (end - start) / step;
    var back := -step;
    var kr := k as real;
    CountBound(start, end, step, k);
    assert q * step == end - start;
    ScaleOrder(kr, q, back);
    assert kr * back == -(kr * step);
    assert q * back == start - end;
    assert kr < q <==> -(kr * step) < start - end;
    assert kr < q <==> start + kr * step > end;
  }

  /** The progress values are i / n: strictly increasing and within [0, 1). */
  lemma FractionsIncreasing(n: nat, i: nat, j: nat)
    requires i < j < n
    ensures |Fractions(n)| == n
    ensures 0.0 <= Fractions(n)[i] < Fractions(n)[j] < 1.0
  {
    assert i as real / n as real < j as real / n as real;
    assert j as real / n as real < 1.0;
  }

  /** Each of the n progress values, a one-point grid's included, lies in [0, 1). */
  lemma FractionsInUnitInterval(n: nat)
    ensures |Fractions(n)| == n
    ensures forall k :: 0 <= k < n ==> 0.0 <= Fractions(n)[k] < 1.0
  {
  }

  /** The default callback leaves its state as it was, however often it is called. */
  lemma {:induction false} SilentReport<C>(c: C, ps: seq<real>)
    ensures Report(Silent, c, ps) == c
    decreases |ps|
  {
    if ps != [] {
      SilentReport(c, ps[..|ps| - 1]);
    }
  }

  /**
   * A run succeeds exactly when it is empty or starts from a vector of three components;
   * it then holds one state per time point and ends in the last of them.
   */
  lemma {:induction false} RunShape<S>(model: I.Model<S>, s0: S, x0: seq<real>, times: seq<real>, dt: real)
    requires Runnable(model, s0, x0, times, dt)
    ensures Run(model, s0, x0, times, dt).Ok? <==> (times == [] || |x0| == I.Len)
    ensures Run(model, s0, x0, times, dt).Err? ==> Run(model, s0, x0, times, dt).error == ShapeMismatch
    ensures Run(model, s0, x0, times, dt).Ok? ==>
      var p := Run(model, s0, x0, times, dt).value;
      && |p.trajectory| == |times|
      && (times == [] ==> p.x == x0 && p.s == s0)
      && (times != [] ==> |p.x| == I.Len && p.x == p.trajectory[|times| - 1])
    decreases |times|
  {
    if times != [] {
      RunShape(model, s0, x0, times[..|times| - 1], dt);
    }
  }

  /** A later step never rewrites the states collected before it. */
  lemma {:induction false} RunPrefix<S>(model: I.Model<S>, s0: S, x0: seq<real>, times: seq<real>, k: nat, dt: real)
    requires Runnable(model, s0, x0, times, dt) && k <= |times|
    requires Run(model, s0, x0, times, dt).Ok?
    ensures Runnable(model, s0, x0, times[..k], dt)
    ensures Run(model, s0, x0, times[..k], dt).Ok?
    ensures Run(model, s0, x0, times[..k], dt).value.trajectory == Run(model, s0, x0, times, dt).value.trajectory[..k]
    decreases |times|
  {
    RunnablePrefix(model, s0, x0, times, k, dt);
    RunShape(model, s0, x0, times, dt);
    if k < |times| {
      var prefix := times[..|times| - 1];
      assert prefix[..k] == times[..k];
      RunShape(model, s0, x0, prefix, dt);
      RunPrefix(model, s0, x0, prefix, k, dt);
    } else {
      assert times[..k] == times;
    }
  }

  /**
   * Entry i of the trajectory is the RK4 step at time point i from the state before it:
   * the initial vector for i = 0, entry i - 1 otherwise.  The initial vector itself is not
   * an entry.
   */
  lemma EntryIsStep<S>(model: I.Model<S>, s0: S, x0: seq<real>, times: seq<real>, i: nat, dt: real)
    requires Runnable(model, s0, x0, times, dt) && i < |times|
    requires Run(model, s0, x0, times, dt).Ok?
    ensures Runnable(model, s0, x0, times[..i], dt) && Run(model, s0, x0, times[..i], dt).Ok?
    ensures var trajectory := Run(model, s0, x0, times, dt).value.trajectory;
      var before := Run(model, s0, x0, times[..i], dt).value;
      var previous := if i == 0 then x0 else trajectory[i - 1];
      && before.x == previous
      && |previous| == I.Len && I.Evaluable(model, before.s, previous, times[i], dt)
      && I.RK4(model, before.s, previous, times[i], dt).value.1 == trajectory[i]
  {
    RunShape(model, s0, x0, times, dt);
    RunPrefix(model, s0, x0, times, i + 1, dt);
    RunPrefix(model, s0, x0, times, i, dt);
    assert times[..i + 1][..i] == times[..i];
    RunShape(model, s0, x0, times[..i], dt);
    var trajectory := Run(model, s0, x0, times, dt).value.trajectory;
    if i > 0 {
      assert Run(model, s0, x0, times[..i], dt).value.trajectory == trajectory[..i];
    }
  }

  /** A model whose state counts its evaluations is evaluated exactly four times per time point. */
  lemma {:induction false} EvaluationsPerRun<S(!new)>(model: I.Model<S>, count: S -> int, s0: S, x0: seq<real>,
                                                      times: seq<real>, dt: real)
    requires Runnable(model, s0, x0, times, dt) && Run(model, s0, x0, times, dt).Ok?
    requires I.Counts(model, count, I.Once)
    ensures count(Run(model, s0, x0, times, dt).value.s) == count(s0) + 4 * |times|
    decreases |times|
  {
    if times != [] {
      var prefix := times[..|times| - 1];
      var p := Run(model, s0, x0, prefix, dt).value;
      EvaluationsPerRun(model, count, s0, x0, prefix, dt);
      RunShape(model, s0, x0, prefix, dt);
      RunShape(model, s0, x0, times, dt);
      I.FourEvaluations(model, count, p.s, p.x, times[|times| - 1], dt);
    }
  }

  /** A one-way flag of the model's state, once set, stays set for the rest of the run. */
  lemma {:induction false} RunKeepsFlag<S(!new)>(model: I.Model<S>, flag: S -> bool, trigger: (S, seq<real>) -> bool,
                                                 s0: S, x0: seq<real>, times: seq<real>, dt: real)
    requires Runnable(model, s0, x0, times, dt) && Run(model, s0, x0, times, dt).Ok?
    requires I.Latches(model, flag, trigger) && flag(s0)
    ensures flag(Run(model, s0, x0, times, dt).value.s)
    decreases |times|
  {
    if times != [] {
      var prefix := times[..|times| - 1];
      var p := Run(model, s0, x0, prefix, dt).value;
      RunKeepsFlag(model, flag, trigger, s0, x0, prefix, dt);
      I.StepLatch(model, flag, trigger, p.s, p.x, times[|times| - 1], dt);
    }
  }

  /**
   * A component whose slope is zero in every state satisfying the model invariant `inv`
   * keeps its initial value in every state the run collects, if `inv` holds at the start.
   */
  lemma {:induction false} RunHoldsComponent<S(!new)>(model: I.Model<S>, inv: S -> bool, j: nat, s0: S, x0: seq<real>,
                                                      times: seq<real>, dt: real)
    requires Runnable(model, s0, x0, times, dt) && Run(model, s0, x0, times, dt).Ok?
    requires I.ScalesComponent(model, inv, j, 0.0) && inv(s0) && j < |x0|
    ensures var p := Run(model, s0, x0, times, dt).value;
      && inv(p.s) && j < |p.x| && p.x[j] == x0[j]
      && forall i :: 0 <= i < |p.trajectory| ==> j < |p.trajectory[i]| && p.trajectory[i][j] == x0[j]
    decreases |times|
  {
    if times != [] {
      var prefix := times[..|times| - 1];
      var p := Run(model, s0, x0, prefix, dt).value;
      RunHoldsComponent(model, inv, j, s0, x0, prefix, dt);
      var next := I.RK4(model, p.s, p.x, times[|times| - 1], dt);
      assert |p.x| == I.Len;
      I.FrozenComponent(model, inv, j, p.s, p.x, times[|times| - 1], dt);
      var q := Run(model, s0, x0, times, dt).value;
      assert q.trajectory == p.trajectory + [next.value.1];
    }
  }

  /** A finished simulation reports one progress value per time point and one state per time point. */
  lemma SimulateShape<S, C>(x0: seq<real>, model: I.Model<S>, s0: S, start: real, end: real, step: real,
                            status: (C, real) -> C, c0: C)
    requires TimePoints(start, end, step).Ok? ==> Runnable(model, s0, x0, TimePoints(start, end, step).value, step)
    ensures var r := SimulateSpec(x0, model, s0, start, end, step, status, c0);
      && (r.Ok? <==> step != 0.0 && (Count(start, end, step) == 0 || |x0| == I.Len))
      && (r.Ok? ==> |r.value.trajectory| == |r.value.time| == Count(start, end, step))
      && (r.Ok? ==> r.value.status == Report(status, c0, Fractions(Count(start, end, step))))
  {
    if step != 0.0 {
      RunShape(model, s0, x0, TimePoints(start, end, step).value, step);
    }
  }

  /** With an empty horizon neither the callback nor the model is called and nothing is collected. */
  lemma EmptyHorizon<S, C>(x0: seq<real>, model: I.Model<S>, s0: S, start: real, end: real, step: real,
                           status: (C, real) -> C, c0: C)
    requires step > 0.0 && end <= start
    ensures TimePoints(start, end, step).Ok? && Runnable(model, s0, x0, TimePoints(start, end, step).value, step)
    ensures SimulateSpec(x0, model, s0, start, end, step, status, c0) == Ok(Outcome([], [], s0, c0))
  {
    TimeGridForward(start, end, step, 0);
  }
}
