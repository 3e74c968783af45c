/**
 * The balloon's derivative driven by the integrator, as the flight program wires them:
 * `Simulate(state, balloon.Model, ...)`.  RK4 evaluates the model four times per step,
 * three of them at trial states, and the balloon's one-way flags and counters move at
 * every evaluation.  Each lemma here shows that `balloon.Model` has one of the properties
 * RK4's step lemmas (module Integrator) are stated for; together they say what one
 * integration step does to the balloon.
 */
module Flight {
  import T = Transcendental
  import D = Dynamics
  import I = Integrator
  import Sim = Simulator

  /** The balloon object as the bound method `balloon.Model` carries it: its settings and its runtime state. */
  datatype Craft = Craft(config: D.Config, runtime: D.Runtime)

  /** `balloon.Model` as the integrator calls it; the settings never change. */
  function Step(b: Craft, t: real, x: seq<real>): (o: (Craft, seq<real>))
    requires T.Valid(b.config.ops) && D.Evaluable(b.config, b.runtime, x)
    ensures o.0.config == b.config
    ensures (o.0.runtime, o.1) == D.Model(b.config, b.runtime, t, x)
  {
    var (r, dx) := D.Model(b.config, b.runtime, t, x);
    (Craft(b.config, r), dx)
  }

  // ----- The quantities RK4's step lemmas are applied to -----

  /** The touchdown counter. */
  function Touchdowns(s: Craft): int
  {
    s.runtime.touchdown
  }

  /** The evaluation counter. */
  function Evaluations(s: Craft): int
  {
    s.runtime.evaluations
  }

  /** 1 for an evaluation at ground level, 0 otherwise. */
  function Contact(x: seq<real>): int
  {
    if |x| > 0 && x[0] < D.GroundEpsilon then 1 else 0
  }

  /** The burst latch. */
  predicate Burst(s: Craft)
  {
    s.runtime.burst
  }

  /** An evaluation at a state vector whose gas would overfill the burst sphere. */
  ghost predicate Overfilled(s: Craft, x: seq<real>)
  {
    T.Valid(s.config.ops) && |x| >= 3 && D.Overfills(s.config, x[0], x[2])
  }

  /** The states in which the ground-contact override is in force. */
  predicate Landed(s: Craft)
  {
    s.runtime.touchdown >= D.TouchdownThreshold
  }

  /** The rate of the contact law v' = -v / ContactTime. */
  const ContactRate: real := -2.0

  // ----- The model's properties -----

  /** Every evaluation at ground level adds one to the touchdown counter, and no other does. */
  lemma TouchdownCounts()
    ensures I.Counts(Step, Touchdowns, Contact)
  {
    var m: I.Model<Craft> := Step;
    forall s', t', y | m.requires(s', t', y)
      ensures Touchdowns(m(s', t', y).0) == Touchdowns(s') + Contact(y)
    {
      assert m(s', t', y) == Step(s', t', y);
    }
  }

  /** Every evaluation adds one to the evaluation counter. */
  lemma EvaluationsCount()
    ensures I.Counts(Step, Evaluations, I.Once)
  {
    var m: I.Model<Craft> := Step;
    forall s', t', y | m.requires(s', t', y)
      ensures Evaluations(m(s', t', y).0) == Evaluations(s') + I.Once(y)
    {
      assert m(s', t', y) == Step(s', t', y);
    }
  }

  /** An evaluation leaves the balloon burst exactly when it was burst or its gas overfilled the envelope. */
  lemma BurstLatches()
    ensures I.Latches(Step, Burst, Overfilled)
  {
    var m: I.Model<Craft> := Step;
    forall s', t', y | m.requires(s', t', y)
      ensures Burst(m(s', t', y).0) <==> Burst(s') || Overfilled(s', y)
    {
      assert m(s', t', y) == Step(s', t', y);
    }
  }

  /** Once burst, the envelope stays burst and the gas mass has slope zero: the valve vents nothing. */
  lemma ValveShutAfterBurst()
    ensures I.ScalesComponent(Step, Burst, 2, 0.0)
  {
    var m: I.Model<Craft> := Step;
    forall s', t', y | m.requires(s', t', y) && Burst(s') && 2 < |y|
      ensures Burst(m(s', t', y).0) && 2 < |m(s', t', y).1| && m(s', t', y).1[2] == 0.0 * y[2]
    {
      assert m(s', t', y) == Step(s', t', y);
    }
  }

  /** Once landed, `Model` stays landed and gives the velocity the contact law v' = -v / 0.5 = -2 v. */
  lemma ContactLaw()
    ensures I.ScalesComponent(Step, Landed, 1, ContactRate)
  {
    var m: I.Model<Craft> := Step;
    forall s', t', y | m.requires(s', t', y) && Landed(s') && 1 < |y|
      ensures Landed(m(s', t', y).0) && 1 < |m(s', t', y).1| && m(s', t', y).1[1] == ContactRate * y[1]
    {
      assert m(s', t', y) == Step(s', t', y);
    }
  }

  /** The altitude's slope is the velocity, in every evaluation. */
  lemma AltitudeFollowsVelocity(b: Craft, t: real, x: seq<real>)
    requires T.Valid(b.config.ops) && D.Evaluable(b.config, b.runtime, x)
    ensures |Step(b, t, x).1| == I.Len && Step(b, t, x).1[0] == x[1]
  {
  }

  // ----- One integration step of the balloon -----

  /**
   * The properties of `balloon.Model` that decide what a step does to the balloon's flags,
   * counters, velocity and gas.  Stated of any model so that the step lemmas below reason
   * about these properties only; `Step` has all of them (`StepIsBalloonLike`).
   */
  ghost predicate BalloonLike(m: I.Model<Craft>)
  {
    && I.Counts(m, Touchdowns, Contact)
    && I.Counts(m, Evaluations, I.Once)
    && I.Latches(m, Burst, Overfilled)
    && I.ScalesComponent(m, Burst, 2, 0.0)
    && I.ScalesComponent(m, Landed, 1, ContactRate)
  }

  /** `balloon.Model` has every property the step lemmas use. */
  lemma StepIsBalloonLike()
    ensures BalloonLike(Step)
  {
    TouchdownCounts();
    EvaluationsCount();
    BurstLatches();
    ValveShutAfterBurst();
    ContactLaw();
  }

  /**
   * One RK4 step of the balloon: the touchdown counter grows by the number of the four
   * evaluations made at ground level, the evaluation counter by four, and the balloon is
   * burst afterwards exactly when it was before or one of the evaluations, trial points
   * included, overfilled the envelope.
   */
  lemma StepFlags(m: I.Model<Craft>, b: Craft, x: seq<real>, t: real, dt: real)
    requires I.Counts(m, Touchdowns, Contact) && I.Counts(m, Evaluations, I.Once) && I.Latches(m, Burst, Overfilled)
    requires |x| == I.Len && I.Evaluable(m, b, x, t, dt)
    ensures var st := I.Stages(m, b, x, t, dt);
      var b' := I.RK4(m, b, x, t, dt).value.0;
      && b'.runtime.touchdown == b.runtime.touchdown + Contact(st[0].arg) + Contact(st[1].arg) + Contact(st[2].arg) + Contact(st[3].arg)
      && b'.runtime.evaluations == b.runtime.evaluations + 4
      && (b'.runtime.burst <==> b.runtime.burst || exists i :: 0 <= i < 4 && Overfilled(st[i].before, st[i].arg))
  {
    I.StepCount(m, Touchdowns, Contact, b, x, t, dt);
    I.FourEvaluations(m, Evaluations, b, x, t, dt);
    I.StepLatch(m, Burst, Overfilled, b, x, t, dt);
  }

  /** Once burst, a step leaves the gas mass exactly as it was. */
  lemma GasHeldAfterBurst(m: I.Model<Craft>, b: Craft, x: seq<real>, t: real, dt: real)
    requires I.ScalesComponent(m, Burst, 2, 0.0) && |x| == I.Len && I.Evaluable(m, b, x, t, dt) && b.runtime.burst
    ensures I.RK4(m, b, x, t, dt).value.1[2] == x[2]
  {
    I.FrozenComponent(m, Burst, 2, b, x, t, dt);
  }

  /** Steps up to one second keep the contact law within RK4's decaying range. */
  lemma RateBound(dt: real)
    requires 0.0 < dt <= 1.0
    ensures -2.0 <= ContactRate * dt < 0.0
  {
  }

  /** After enough ground contacts a step scales the velocity by RK4's growth factor for the contact law. */
  lemma ContactStep(m: I.Model<Craft>, b: Craft, x: seq<real>, t: real, dt: real)
    requires I.ScalesComponent(m, Landed, 1, ContactRate) && |x| == I.Len && I.Evaluable(m, b, x, t, dt)
    requires b.runtime.touchdown >= D.TouchdownThreshold
    ensures I.RK4(m, b, x, t, dt).value.1[1] == x[1] * I.Growth(ContactRate * dt)
  {
    I.LinearComponent(m, Landed, 1, ContactRate, b, x, t, dt);
  }

  /** After enough ground contacts a step of up to one second keeps the velocity's sign and shrinks it. */
  lemma ContactDecay(m: I.Model<Craft>, b: Craft, x: seq<real>, t: real, dt: real)
    requires I.ScalesComponent(m, Landed, 1, ContactRate) && |x| == I.Len && I.Evaluable(m, b, x, t, dt)
    requires b.runtime.touchdown >= D.TouchdownThreshold && 0.0 < dt <= 1.0
    ensures var v := I.RK4(m, b, x, t, dt).value.1[1];
      && (x[1] > 0.0 ==> 0.0 < v < x[1])
      && (x[1] < 0.0 ==> x[1] < v < 0.0)
      && (x[1] == 0.0 ==> v == 0.0)
  {
    RateBound(dt);
    I.LinearDecay(m, Landed, 1, ContactRate, b, x, t, dt);
  }

  // ----- One integration step of `balloon.Model` itself -----

  /**
   * One RK4 step of `balloon.Model`: `touchdown` grows by the number of ground-level
   * evaluations among the four, `_i` by four, and the balloon is burst afterwards exactly
   * when it was before or one of the four evaluations, trial points included, overfilled.
   */
  lemma BalloonStepFlags(b: Craft, x: seq<real>, t: real, dt: real)
    requires |x| == I.Len && I.Evaluable(Step, b, x, t, dt)
    ensures var st := I.Stages(Step, b, x, t, dt);
      var b' := I.RK4(Step, b, x, t, dt).value.0;
      && b'.runtime.touchdown == b.runtime.touchdown + Contact(st[0].arg) + Contact(st[1].arg) + Contact(st[2].arg) + Contact(st[3].arg)
      && b'.runtime.evaluations == b.runtime.evaluations + 4
      && (b'.runtime.burst <==> b.runtime.burst || exists i :: 0 <= i < 4 && Overfilled(st[i].before, st[i].arg))
  {
    StepIsBalloonLike();
    StepFlags(Step, b, x, t, dt);
  }

  /** A step of a burst `balloon.Model` keeps it burst and leaves the gas mass exactly as it was. */
  lemma BalloonGasHeld(b: Craft, x: seq<real>, t: real, dt: real)
    requires |x| == I.Len && I.Evaluable(Step, b, x, t, dt) && b.runtime.burst
    ensures I.RK4(Step, b, x, t, dt).value.0.runtime.burst
    ensures I.RK4(Step, b, x, t, dt).value.1[2] == x[2]
  {
    ValveShutAfterBurst();
    I.FrozenComponent(Step, Burst, 2, b, x, t, dt);
  }

  /**
   * After four ground contacts, a step of `balloon.Model` scales the velocity by RK4's
   * growth factor for v' = -2 v; for a step of at most one second the velocity keeps its
   * sign and shrinks.
   */
  lemma BalloonContactDecay(b: Craft, x: seq<real>, t: real, dt: real)
    requires |x| == I.Len && I.Evaluable(Step, b, x, t, dt)
    requires b.runtime.touchdown >= D.TouchdownThreshold && 0.0 < dt <= 1.0
    ensures var v := I.RK4(Step, b, x, t, dt).value.1[1];
      && v == x[1] * I.Growth(ContactRate * dt)
      && (x[1] > 0.0 ==> 0.0 < v < x[1])
      && (x[1] < 0.0 ==> x[1] < v < 0.0)
      && (x[1] == 0.0 ==> v == 0.0)
  {
    ContactLaw();
    ContactStep(Step, b, x, t, dt);
    ContactDecay(Step, b, x, t, dt);
  }

  // ----- A whole run of the balloon -----

  /** Over a run of n time points `balloon.Model` is evaluated exactly 4·n times. */
  lemma RunEvaluations(b: Craft, x0: seq<real>, times: seq<real>, dt: real)
    requires Sim.Runnable(Step, b, x0, times, dt) && Sim.Run(Step, b, x0, times, dt).Ok?
    ensures Sim.Run(Step, b, x0, times, dt).value.s.runtime.evaluations == b.runtime.evaluations + 4 * |times|
  {
    EvaluationsCount();
    Sim.EvaluationsPerRun(Step, Evaluations, b, x0, times, dt);
  }

  /**
   * A run that starts from a burst balloon ends burst, and every state it collects
   * carries the initial gas mass: nothing is vented after burst.
   */
  lemma RunAfterBurst(b: Craft, x0: seq<real>, times: seq<real>, dt: real)
    requires Sim.Runnable(Step, b, x0, times, dt) && Sim.Run(Step, b, x0, times, dt).Ok?
    requires b.runtime.burst && |x0| == I.Len
    ensures Sim.Run(Step, b, x0, times, dt).value.s.runtime.burst
    ensures forall i :: 0 <= i < |times| ==>
      |Sim.Run(Step, b, x0, times, dt).value.trajectory[i]| == I.Len &&
      Sim.Run(Step, b, x0, times, dt).value.trajectory[i][2] == x0[2]
  {
    ValveShutAfterBurst();
    Sim.RunHoldsComponent(Step, Burst, 2, b, x0, times, dt);
    Sim.RunShape(Step, b, x0, times, dt);
    var p := Sim.Run(Step, b, x0, times, dt).value;
    forall i | 0 <= i < |times| ensures |p.trajectory[i]| == I.Len {
      Sim.RunPrefix(Step, b, x0, times, i + 1, dt);
      Sim.RunShape(Step, b, x0, times[..i + 1], dt);
      assert p.trajectory[..i + 1][i] == p.trajectory[i];
    }
  }
}
