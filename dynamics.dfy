/**
 * The balloon's physics (Balloon.py) as state-passing functions.  Every method of the
 * source object that may write a field becomes a function from the runtime state before
 * the call to an `Out`: the runtime state after it and the value it returns.  The calls
 * are chained in the order the source evaluates them, so a latch set by one call is seen
 * by the next.  The class in module Balloon is proved to behave exactly like these.
 */
module Dynamics {
  import T = Transcendental
  import U = Universe
  import Air
  import opened Wrappers

  /** The attributes the source sets in its constructor and never writes again. */
  datatype Config = Config(
    ops: T.Ops,
    mPayload: real,         // payload mass, kg
    volGas: real,           // initial gas volume, m^3
    rI: real,               // initial radius, m
    rF: real,               // burst radius, m
    parachuteDcoeff: real,  // parachute drag coefficient
    parachuteR: real,       // parachute radius, m
    initialMGas: real)      // expected helium mass, kg

  /** The attributes the physics methods write. */
  datatype Runtime = Runtime(
    burst: bool,            // latched when the gas would overfill the burst sphere
    touchdown: int,         // evaluations of the derivative made at ground level
    mBalloon: real,         // envelope mass, kg; zeroed once the balloon has burst
    dragCoeff: real,        // current drag coefficient; the parachute's once burst
    mGas: Option<real>,     // the attribute `m_gas`, created as 0 by `mass` after burst
    evaluations: int)       // the counter `_i` of derivative evaluations

  /** The runtime state after a call and the value the call returned. */
  datatype Out = Out(rt: Runtime, value: real)

  /** Altitude below which an evaluation counts as ground contact, m. */
  const GroundEpsilon: real := 0.001
  /** Ground-contact evaluations after which the acceleration is the contact override. */
  const TouchdownThreshold: int := 4
  /** Time over which ground contact stops the balloon, s. */
  const ContactTime: real := 0.5
  /** Valve flow gain, and the band of altitudes (open above, closed above) where it vents. */
  const ValveGain: real := 0.6
  const ValveOpenAltitude: real := 20000.0
  const ValveCloseAltitude: real := 22000.0

  function Abs(x: real): (a: real)
    ensures a >= 0.0 && (a == x || a == -x)
  {
    if x < 0.0 then -x else x
  }

  /** How the runtime state may change across any sequence of calls: one-way flags only. */
  predicate Evolves(c: Config, r: Runtime, r': Runtime)
  {
    && (r.burst ==> r'.burst)
    && r.touchdown <= r'.touchdown
    && r.evaluations <= r'.evaluations
    && (r'.mBalloon == r.mBalloon || (r'.burst && r'.mBalloon == 0.0))
    && (r'.dragCoeff == r.dragCoeff || (r'.burst && r'.dragCoeff == c.parachuteDcoeff))
    && (r'.mGas == r.mGas || (r'.burst && r'.mGas == Some(0.0)))
  }

  /** The configuration and runtime state the constructor builds from its arguments. */
  function Create(ops: T.Ops, balloonMass: real, payloadMass: real, initialVolume: real,
                  burstDiameter: real, dragCoef: real, parachuteDiameter: real,
                  parachuteDragCoeff: real): (b: (Config, Runtime))
    ensures !b.1.burst && b.1.touchdown == 0 && b.1.evaluations == 0 && b.1.mGas == None
    ensures b.1.mBalloon * 1000.0 == balloonMass  // the envelope mass is given in grams
    ensures b.1.dragCoeff == dragCoef
    ensures b.0.mPayload == payloadMass && b.0.volGas == initialVolume
    ensures b.0.rF * 2.0 == burstDiameter && b.0.parachuteR * 2.0 == parachuteDiameter
    ensures b.0.parachuteDcoeff == parachuteDragCoeff
    ensures b.0.initialMGas == initialVolume * Air.PHe
    ensures b.0.rI == U.RadiusSphere(ops, initialVolume) && b.0.ops == ops
  {
    var config := Config(ops, payloadMass, initialVolume, U.RadiusSphere(ops, initialVolume),
                         burstDiameter / 2.0, parachuteDragCoeff, parachuteDiameter / 2.0,
                         initialVolume * Air.PHe);
    (config, Runtime(false, 0, balloonMass * 0.001, dragCoef, None, 0))
  }

  /** The initial radius is that of a sphere holding the initial gas volume. */
  lemma InitialRadius(ops: T.Ops, balloonMass: real, payloadMass: real, initialVolume: real,
                      burstDiameter: real, dragCoef: real, parachuteDiameter: real,
                      parachuteDragCoeff: real)
    requires T.Valid(ops) && initialVolume >= 0.0
    ensures var b := Create(ops, balloonMass, payloadMass, initialVolume, burstDiameter, dragCoef,
                            parachuteDiameter, parachuteDragCoeff);
            U.VolSphere(b.0.rI) == initialVolume && b.0.rI >= 0.0
  {
    U.VolumeOfRadius(ops, initialVolume);
    U.RadiusSign(ops, initialVolume);
  }

  /** The volume of the burst sphere. */
  function BurstVolume(c: Config): real
  {
    U.VolSphere(c.rF)
  }

  /** Ideal-gas volume of `m` kg of helium at ambient temperature and pressure. */
  function GasVolume(c: Config, altitude: real, m: real): (v: real)
    requires T.Valid(c.ops)
    ensures v * Air.Pressure(c.ops, altitude) * U.MolarMassHe == m * U.R * Air.Temperature(altitude)
    ensures v > 0.0 <==> m > 0.0
    ensures v == 0.0 <==> m == 0.0
  {
    var p := Air.Pressure(c.ops, altitude);
    var k := Air.Temperature(altitude);
    var v := m * U.R * k / p / U.MolarMassHe;
    assert v * p * U.MolarMassHe == m * U.R * k;
    v
  }

  /** Whether the gas at this altitude would overfill the burst sphere. */
  predicate Overfills(c: Config, altitude: real, m: real)
    requires T.Valid(c.ops)
  {
    GasVolume(c, altitude, m) > BurstVolume(c)
  }

  /** `volume`: 0 once burst; otherwise the gas volume, latching `burst` when it overfills. */
  function Volume(c: Config, r: Runtime, altitude: real, m: real): (o: Out)
    requires T.Valid(c.ops)
    ensures o.rt == r.(burst := r.burst || Overfills(c, altitude, m))
    ensures r.burst ==> o.value == 0.0
    ensures !r.burst ==> o.value == GasVolume(c, altitude, m)
    ensures Evolves(c, r, o.rt)
  {
    if r.burst then Out(r, 0.0)
    else
      var vol := GasVolume(c, altitude, m);
      Out(if vol > BurstVolume(c) then r.(burst := true) else r, vol)
  }

  /** `drag`: quadratic drag against the balloon's cross-section, or the parachute's once burst. */
  function Drag(c: Config, r: Runtime, altitude: real, velocity: real, m: real): (o: Out)
    requires T.Valid(c.ops)
    ensures r.burst ==> o.rt == r.(dragCoeff := c.parachuteDcoeff)
    ensures !r.burst ==> o.rt == Volume(c, r, altitude, m).rt
    ensures Evolves(c, r, o.rt)
  {
    var (r1, area) :=
      if r.burst then
        (r.(dragCoeff := c.parachuteDcoeff), U.Pi * (c.parachuteR * c.parachuteR))
      else
        var vol := Volume(c, r, altitude, m);
        var radius := U.RadiusSphere(c.ops, vol.value);
        (vol.rt, U.Pi * radius * radius);
    Out(r1, -(1.0 / 2.0) * r1.dragCoeff * Air.Density(c.ops, altitude) * area * (Abs(velocity) * velocity))
  }

  /** `mass`: payload, envelope and gas; the envelope is dropped (and `m_gas` zeroed) once burst. */
  function Mass(c: Config, r: Runtime, m: real): (o: Out)
    ensures r.burst ==> o.rt == r.(mBalloon := 0.0, mGas := Some(0.0)) && o.value == c.mPayload + m
    ensures !r.burst ==> o.rt == r && o.value == c.mPayload + r.mBalloon + m
    ensures Evolves(c, r, o.rt)
  {
    var r1 := if r.burst then r.(mBalloon := 0.0, mGas := Some(0.0)) else r;
    Out(r1, c.mPayload + r1.mBalloon + m)
  }

  /** `weight`: the gravitational force on the current mass, pointing down. */
  function Weight(c: Config, r: Runtime, m: real): (o: Out)
    ensures o.rt == Mass(c, r, m).rt
    ensures o.value == -Mass(c, r, m).value * U.G
    ensures Mass(c, r, m).value >= 0.0 ==> o.value <= 0.0
    ensures Evolves(c, r, o.rt)
  {
    var mass := Mass(c, r, m);
    Out(mass.rt, -mass.value * U.G)
  }

  /** `density`: the gas density in the envelope, 0 once burst. */
  function Density(c: Config, r: Runtime, altitude: real, m: real): (o: Out)
    requires T.Valid(c.ops) && (r.burst || m != 0.0)
    ensures r.burst ==> o == Out(r, 0.0)
    ensures !r.burst ==> o.rt == Volume(c, r, altitude, m).rt
    ensures Evolves(c, r, o.rt)
  {
    if r.burst then Out(r, 0.0)
    else
      var vol := Volume(c, r, altitude, m);
      Out(vol.rt, m / vol.value)
  }

  /** `buoyancy`: the weight of the displaced air minus that of the gas. */
  function Buoyancy(c: Config, r: Runtime, altitude: real, m: real): (o: Out)
    requires T.Valid(c.ops) && (r.burst || m != 0.0)
    ensures o.rt == Volume(c, r, altitude, m).rt
    ensures r.burst ==> o.value == 0.0
    ensures Evolves(c, r, o.rt)
  {
    var vol := Volume(c, r, altitude, m);
    var rhoAir := Air.Density(c.ops, altitude);
    var rhoGas := Density(c, vol.rt, altitude, m);
    Out(rhoGas.rt, U.G * vol.value * (rhoAir - rhoGas.value))
  }

  /** The total masses that `acceleration` may divide by are not zero. */
  predicate MassesNonZero(c: Config, r: Runtime, m: real)
  {
    c.mPayload + m != 0.0 && c.mPayload + r.mBalloon + m != 0.0
  }

  /** `acceleration`: net force over mass, or the ground-contact override after enough contacts. */
  function Acceleration(c: Config, r: Runtime, altitude: real, velocity: real, m: real): (o: Out)
    requires T.Valid(c.ops) && (r.burst || m != 0.0) && MassesNonZero(c, r, m)
    ensures o.rt.burst == (r.burst || Overfills(c, altitude, m))
    ensures o.rt.burst ==>
      o.rt == r.(burst := true, mBalloon := 0.0, dragCoeff := c.parachuteDcoeff, mGas := Some(0.0))
    ensures !o.rt.burst ==> o.rt == r
    ensures Evolves(c, r, o.rt)
  {
    var b := Buoyancy(c, r, altitude, m);
    var w := Weight(c, b.rt, m);
    var d := Drag(c, w.rt, altitude, velocity, m);
    var mass := Mass(c, d.rt, m);
    var acc := (b.value + w.value + d.value) / mass.value;
    Out(mass.rt, if mass.rt.touchdown >= TouchdownThreshold then (0.0 - velocity) / (ContactTime - 0.0) else acc)
  }

  /** `valve`: the gas-mass rate through the valve, venting only between 20 km and 22 km. */
  function Valve(c: Config, r: Runtime, altitude: real, m: real, velocity: real): (o: Out)
    requires T.Valid(c.ops) && (r.burst || m != 0.0)
    ensures o.rt == Density(c, r, altitude, m).rt
    ensures Evolves(c, r, o.rt)
  {
    var flow0 := 0.0;
    var flow1 := if altitude > ValveOpenAltitude then ValveGain * velocity else flow0;
    var flow2 := if altitude > ValveCloseAltitude then 0.0 else flow1;
    var rho := Density(c, r, altitude, m);
    Out(rho.rt, -flow2 * rho.value)
  }

  /** What `Model` needs of its state vector: three components and no division by zero. */
  predicate Evaluable(c: Config, r: Runtime, x: seq<real>)
  {
    |x| >= 3 && (r.burst || x[2] != 0.0) && MassesNonZero(c, r, x[2])
  }

  /**
   * The state left by the diagnostic recordings at the end of `Model`: a volume, a
   * buoyancy, a drag, an acceleration and a weight, whose values are dropped.
   */
  function Recordings(c: Config, r: Runtime, altitude: real, velocity: real, m: real): (r': Runtime)
    requires T.Valid(c.ops) && (r.burst || m != 0.0) && MassesNonZero(c, r, m)
    ensures r'.burst == (r.burst || Overfills(c, altitude, m))
    ensures r'.touchdown == r.touchdown && r'.evaluations == r.evaluations
    ensures Evolves(c, r, r')
  {
    var p0 := Volume(c, r, altitude, m);
    var p1 := Buoyancy(c, p0.rt, altitude, m);
    var p2 := Drag(c, p1.rt, altitude, velocity, m);
    var p3 := Acceleration(c, p2.rt, altitude, velocity, m);
    var p4 := Weight(c, p3.rt, m);
    p4.rt
  }

  /**
   * `Model`: the derivative of (altitude, velocity, gas mass).  After the derivative is
   * assembled the source records diagnostics; only their effect on the state is kept.
   */
  function Model(c: Config, r: Runtime, t: real, x: seq<real>): (o: (Runtime, seq<real>))
    requires T.Valid(c.ops) && Evaluable(c, r, x)
    ensures |o.1| == 3 && o.1[0] == x[1]
    ensures o.0.touchdown == r.touchdown + (if x[0] < GroundEpsilon then 1 else 0)
    ensures o.0.evaluations == r.evaluations + 1
    ensures o.0.burst == (r.burst || Overfills(c, x[0], x[2]))
    ensures o.0.touchdown >= TouchdownThreshold ==> o.1[1] == -x[1] / ContactTime
    ensures o.0.burst ==> o.1[2] == 0.0
    ensures o.0.burst ==> o.0.mBalloon == 0.0 && o.0.dragCoeff == c.parachuteDcoeff && o.0.mGas == Some(0.0)
    ensures !o.0.burst ==> o.0.mBalloon == r.mBalloon && o.0.dragCoeff == r.dragCoeff && o.0.mGas == r.mGas
    ensures Evolves(c, r, o.0)
  {
    var altitude, velocity, m := x[0], x[1], x[2];
    var r0 := if altitude < GroundEpsilon then r.(touchdown := r.touchdown + 1) else r;
    var acc := Acceleration(c, r0, altitude, velocity, m);
    var flow := Valve(c, acc.rt, altitude, m, velocity);
    var r1 := Recordings(c, flow.rt, altitude, velocity, m);
    (r1.(evaluations := r1.evaluations + 1), [velocity, acc.value, flow.value])
  }

  // ----- Properties of the physics -----

  /** Once burst, every later volume is 0 and the state is left as it was. */
  lemma VolumeAfterBurst(c: Config, r: Runtime, altitude: real, m: real)
    requires T.Valid(c.ops) && r.burst
    ensures Volume(c, r, altitude, m) == Out(r, 0.0)
  {
  }

  /** On the call that latches the burst, the computed (non-zero) volume is still returned. */
  lemma VolumeOnBurstingCall(c: Config, r: Runtime, altitude: real, m: real)
    requires T.Valid(c.ops) && !r.burst && Overfills(c, altitude, m) && c.rF >= 0.0
    ensures Volume(c, r, altitude, m).rt.burst
    ensures Volume(c, r, altitude, m).value > 0.0
  {
  }

  /** Drag never pushes along the motion, and is zero at rest, when the coefficients are not negative. */
  lemma DragOpposesMotion(c: Config, r: Runtime, altitude: real, velocity: real, m: real)
    requires T.Valid(c.ops) && r.dragCoeff >= 0.0 && c.parachuteDcoeff >= 0.0
    ensures Drag(c, r, altitude, velocity, m).value * velocity <= 0.0
    ensures velocity > 0.0 ==> Drag(c, r, altitude, velocity, m).value <= 0.0
    ensures velocity < 0.0 ==> Drag(c, r, altitude, velocity, m).value >= 0.0
    ensures velocity == 0.0 ==> Drag(c, r, altitude, velocity, m).value == 0.0
  {
    var o := Drag(c, r, altitude, velocity, m);
    var cd := o.rt.dragCoeff;
    var rho := Air.Density(c.ops, altitude);
    var area :=
      if r.burst then U.Pi * (c.parachuteR * c.parachuteR)
      else var radius := U.RadiusSphere(c.ops, Volume(c, r, altitude, m).value); U.Pi * radius * radius;
    assert cd >= 0.0 && rho > 0.0 && area >= 0.0;
    var k := (1.0 / 2.0) * cd * rho * area;
    assert k >= 0.0 by { NonNegProduct3(cd, rho, area); }
    var av := Abs(velocity) * velocity;
    assert o.value == -k * av;
    if velocity > 0.0 {
      assert av > 0.0;
      assert k * av >= 0.0;
    } else if velocity < 0.0 {
      assert av < 0.0;
      assert k * av <= 0.0;
    }
  }

  lemma NonNegProduct3(a: real, b: real, c: real)
    requires a >= 0.0 && b >= 0.0 && c >= 0.0
    ensures (1.0 / 2.0) * a * b * c >= 0.0
  {
    var ab := a * b;
    assert ab >= 0.0;
    var abc := ab * c;
    assert abc >= 0.0;
  }

  /** Once burst, drag uses the parachute: its coefficient, and the area of a disc of its radius. */
  lemma DragAfterBurst(c: Config, r: Runtime, altitude: real, velocity: real, m: real)
    requires T.Valid(c.ops) && r.burst
    ensures Drag(c, r, altitude, velocity, m).rt.dragCoeff == c.parachuteDcoeff
    ensures Drag(c, r, altitude, velocity, m).value ==
      -(1.0 / 2.0) * c.parachuteDcoeff * Air.Density(c.ops, altitude)
        * (U.Pi * (c.parachuteR * c.parachuteR)) * (Abs(velocity) * velocity)
  {
  }

  /** Switching to the parachute is idempotent: a second drag call after burst changes nothing more. */
  lemma DragSwitchIdempotent(c: Config, r: Runtime, a1: real, v1: real, m1: real, a2: real, v2: real, m2: real)
    requires T.Valid(c.ops) && r.burst
    ensures var r1 := Drag(c, r, a1, v1, m1).rt; Drag(c, r1, a2, v2, m2).rt == r1
  {
  }

  /** Once burst, the envelope mass stays zero and the mass is payload plus the gas argument. */
  lemma MassAfterBurst(c: Config, r: Runtime, m: real, m2: real)
    requires r.burst
    ensures Mass(c, r, m).value == c.mPayload + m
    ensures Mass(c, Mass(c, r, m).rt, m2).rt == Mass(c, r, m).rt
    ensures Mass(c, r, m).rt.mBalloon == 0.0
  {
  }

  /** With non-negative masses the weight points down. */
  lemma WeightPointsDown(c: Config, r: Runtime, m: real)
    requires c.mPayload >= 0.0 && r.mBalloon >= 0.0 && m >= 0.0
    ensures Weight(c, r, m).value <= 0.0
  {
  }

  /** Density of helium at ambient temperature and pressure, by the ideal gas law. */
  function HeliumDensity(c: Config, altitude: real): (rho: real)
    requires T.Valid(c.ops)
    ensures rho > 0.0
  {
    Air.Pressure(c.ops, altitude) * U.MolarMassHe / (U.R * Air.Temperature(altitude))
  }

  /** Dividing out a common factor: from v·pm = m·rk, m / v = pm / rk. */
  lemma DivideOut(m: real, v: real, pm: real, rk: real)
    requires v != 0.0 && rk != 0.0 && v * pm == m * rk
    ensures m / v == pm / rk
  {
    var q := m / v;
    assert q * v == m;
    assert pm == q * rk by {
      assert v * pm == (q * v) * rk;
      assert v * pm == v * (q * rk);
    }
  }

  /** Before burst the gas density is the helium density: it does not depend on the gas mass. */
  lemma GasDensityBeforeBurst(c: Config, r: Runtime, altitude: real, m: real)
    requires T.Valid(c.ops) && !r.burst && m != 0.0
    ensures Density(c, r, altitude, m).value == HeliumDensity(c, altitude)
  {
    var p := Air.Pressure(c.ops, altitude);
    var k := Air.Temperature(altitude);
    var v := GasVolume(c, altitude, m);
    assert Density(c, r, altitude, m).value == m / v;
    var pm, rk := p * U.MolarMassHe, U.R * k;
    assert v * p * U.MolarMassHe == m * U.R * k;
    assert v * pm == m * rk;
    assert v != 0.0 && rk > 0.0;
    DivideOut(m, v, pm, rk);
  }

  /** Once burst the gas density, the buoyancy and the valve flow are all zero. */
  lemma ZeroAfterBurst(c: Config, r: Runtime, altitude: real, m: real, velocity: real)
    requires T.Valid(c.ops) && r.burst
    ensures Density(c, r, altitude, m).value == 0.0
    ensures Buoyancy(c, r, altitude, m).value == 0.0
    ensures Valve(c, r, altitude, m, velocity).value == 0.0
  {
  }

  /** Before burst, buoyancy is the gas volume times gravity times the density difference. */
  lemma BuoyancyBeforeBurst(c: Config, r: Runtime, altitude: real, m: real)
    requires T.Valid(c.ops) && !r.burst && m != 0.0 && !Overfills(c, altitude, m)
    ensures Buoyancy(c, r, altitude, m).value ==
      U.G * GasVolume(c, altitude, m) * (Air.Density(c.ops, altitude) - HeliumDensity(c, altitude))
  {
    GasDensityBeforeBurst(c, r, altitude, m);
  }

  /**
   * On the call that latches the burst the gas density already reads 0, so the buoyancy
   * counts the whole displaced air and none of the gas.
   */
  lemma BuoyancyOnBurstingCall(c: Config, r: Runtime, altitude: real, m: real)
    requires T.Valid(c.ops) && !r.burst && m != 0.0 && Overfills(c, altitude, m)
    ensures Buoyancy(c, r, altitude, m).rt.burst
    ensures Buoyancy(c, r, altitude, m).value == U.G * GasVolume(c, altitude, m) * Air.Density(c.ops, altitude)
  {
  }

  /** The valve is shut at or below 20 km and above 22 km, and once burst. */
  lemma ValveClosed(c: Config, r: Runtime, altitude: real, m: real, velocity: real)
    requires T.Valid(c.ops) && (r.burst || m != 0.0)
    requires altitude <= ValveOpenAltitude || altitude > ValveCloseAltitude || r.burst
    ensures Valve(c, r, altitude, m, velocity).value == 0.0
  {
  }

  /** Between 20 km and 22 km (inclusive above) gas flows at 0.6 times the velocity times the gas density. */
  lemma ValveOpen(c: Config, r: Runtime, altitude: real, m: real, velocity: real)
    requires T.Valid(c.ops) && !r.burst && m != 0.0
    requires ValveOpenAltitude < altitude <= ValveCloseAltitude
    ensures Valve(c, r, altitude, m, velocity).value == -ValveGain * velocity * HeliumDensity(c, altitude)
  {
    GasDensityBeforeBurst(c, r, altitude, m);
  }

  /** Without the contact override, acceleration times the mass is the net force. */
  lemma AccelerationIsNetForce(c: Config, r: Runtime, altitude: real, velocity: real, m: real)
    requires T.Valid(c.ops) && (r.burst || m != 0.0) && MassesNonZero(c, r, m)
    requires r.touchdown < TouchdownThreshold
    ensures var b := Buoyancy(c, r, altitude, m);
            var w := Weight(c, b.rt, m);
            var d := Drag(c, w.rt, altitude, velocity, m);
            Acceleration(c, r, altitude, velocity, m).value * Mass(c, d.rt, m).value == b.value + w.value + d.value
  {
  }

  /** After enough ground contacts the acceleration brings the velocity to zero over the contact time. */
  lemma AccelerationAtContact(c: Config, r: Runtime, altitude: real, velocity: real, m: real)
    requires T.Valid(c.ops) && (r.burst || m != 0.0) && MassesNonZero(c, r, m)
    requires r.touchdown >= TouchdownThreshold
    ensures Acceleration(c, r, altitude, velocity, m).value == -2.0 * velocity
  {
  }

  /** After burst and before contact the balloon falls under gravity, braked by the parachute. */
  lemma AccelerationAfterBurst(c: Config, r: Runtime, altitude: real, velocity: real, m: real)
    requires T.Valid(c.ops) && r.burst && MassesNonZero(c, r, m)
    requires r.touchdown < TouchdownThreshold
    ensures Acceleration(c, r, altitude, velocity, m).value ==
      -U.G + Drag(c, r, altitude, velocity, m).value / (c.mPayload + m)
  {
    var mass := c.mPayload + m;
    var b := Buoyancy(c, r, altitude, m);
    assert b == Out(r, 0.0);
    var w := Weight(c, b.rt, m);
    assert w.value == -mass * U.G;
    var d := Drag(c, w.rt, altitude, velocity, m);
    assert d.value == Drag(c, r, altitude, velocity, m).value;
    assert Mass(c, d.rt, m).value == mass;
    var f := d.value;
    assert (0.0 + -mass * U.G + f) / mass == -U.G + f / mass by {
      assert (-mass * U.G) / mass == -U.G;
    }
  }
}
