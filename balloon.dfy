/**
 * The balloon object of Balloon.py: attributes set once by the constructor are
 * constants, the attributes the physics methods write are fields.  Each method does
 * what the source method does, statement by statement, and its postcondition equates
 * the new fields and the returned value with the corresponding function of module
 * Dynamics, where the properties of the physics are proved.
 */
module Balloon {
  import T = Transcendental
  import U = Universe
  import Air
  import D = Dynamics
  import opened Wrappers

  class Balloon {
    const ops: T.Ops
    const mPayload: real
    const volGas: real
    const rI: real
    const rF: real
    const parachuteDcoeff: real
    const parachuteR: real
    const initialMGas: real

    var burst: bool
    var touchdown: int
    var mBalloon: real
    var dragCoeff: real
    var mGas: Option<real>
    var evaluations: int

    function Config(): D.Config
    {
      D.Config(ops, mPayload, volGas, rI, rF, parachuteDcoeff, parachuteR, initialMGas)
    }

    function Runtime(): D.Runtime
      reads this
    {
      D.Runtime(burst, touchdown, mBalloon, dragCoeff, mGas, evaluations)
    }

    constructor (ops: T.Ops, balloonMass: real, payloadMass: real, initialVolume: real,
                 burstDiameter: real, dragCoef: real, parachuteDiameter: real,
                 parachuteDragCoeff: real)
      ensures (Config(), Runtime()) ==
        D.Create(ops, balloonMass, payloadMass, initialVolume, burstDiameter, dragCoef,
                 parachuteDiameter, parachuteDragCoeff)
    {
      this.ops := ops;
      mBalloon := balloonMass * 0.001;
      mPayload := payloadMass;
      volGas := initialVolume;
      rI := U.RadiusSphere(ops, initialVolume);
      rF := burstDiameter / 2.0;
      dragCoeff := dragCoef;
      parachuteDcoeff := parachuteDragCoeff;
      parachuteR := parachuteDiameter / 2.0;
      initialMGas := initialVolume * Air.PHe;
      burst, touchdown, mGas, evaluations := false, 0, None, 0;
    }

    method Volume(altitude: real, m: real) returns (vol: real)
      requires T.Valid(ops)
      modifies this
      ensures D.Out(Runtime(), vol) == D.Volume(Config(), old(Runtime()), altitude, m)
    {
      if burst {
        return 0.0;
      }
      var burstVol := U.VolSphere(rF);
      var pressure := Air.Pressure(ops, altitude);
      var temperature := Air.Temperature(altitude);
      vol := m * U.R * temperature / pressure / U.MolarMassHe;
      if vol > burstVol {
        burst := true;
      }
    }

    method Drag(altitude: real, velocity: real, m: real) returns (d: real)
      requires T.Valid(ops)
      modifies this
      ensures D.Out(Runtime(), d) == D.Drag(Config(), old(Runtime()), altitude, velocity, m)
    {
      var area: real;
      if burst {
        dragCoeff := parachuteDcoeff;
        area := U.Pi * (parachuteR * parachuteR);
      } else {
        var vol := Volume(altitude, m);
        var radius := U.RadiusSphere(ops, vol);
        area := U.Pi * radius * radius;
      }
      d := -(1.0 / 2.0) * dragCoeff * Air.Density(ops, altitude) * area * (D.Abs(velocity) * velocity);
    }

    method Mass(m: real) returns (mass: real)
      modifies this
      ensures D.Out(Runtime(), mass) == D.Mass(Config(), old(Runtime()), m)
    {
      if burst {
        mBalloon := 0.0;
        mGas := Some(0.0);
      }
      mass := mPayload + mBalloon + m;
    }

    method Weight(m: real) returns (w: real)
      modifies this
      ensures D.Out(Runtime(), w) == D.Weight(Config(), old(Runtime()), m)
    {
      var mass := Mass(m);
      w := -mass * U.G;
    }

    method Density(altitude: real, m: real) returns (rho: real)
      requires T.Valid(ops) && (burst || m != 0.0)
      modifies this
      ensures D.Out(Runtime(), rho) == D.Density(Config(), old(Runtime()), altitude, m)
    {
      if burst {
        return 0.0;
      }
      var vol := Volume(altitude, m);
      rho := m / vol;
    }

    method Buoyancy(altitude: real, m: real) returns (b: real)
      requires T.Valid(ops) && (burst || m != 0.0)
      modifies this
      ensures D.Out(Runtime(), b) == D.Buoyancy(Config(), old(Runtime()), altitude, m)
    {
      var vol := Volume(altitude, m);
      var rhoAir := Air.Density(ops, altitude);
      var rhoGas := Density(altitude, m);
      b := U.G * vol * (rhoAir - rhoGas);
    }

    method Acceleration(altitude: real, velocity: real, m: real) returns (acc: real)
      requires T.Valid(ops) && (burst || m != 0.0) && D.MassesNonZero(Config(), Runtime(), m)
      modifies this
      ensures D.Out(Runtime(), acc) == D.Acceleration(Config(), old(Runtime()), altitude, velocity, m)
    {
      var b := Buoyancy(altitude, m);
      var w := Weight(m);
      var d := Drag(altitude, velocity, m);
      var mass := Mass(m);
      acc := (b + w + d) / mass;
      if touchdown >= D.TouchdownThreshold {
        acc := (0.0 - velocity) / (D.ContactTime - 0.0);
      }
    }

    method Valve(altitude: real, m: real, velocity: real) returns (flow: real)
      requires T.Valid(ops) && (burst || m != 0.0)
      modifies this
      ensures D.Out(Runtime(), flow) == D.Valve(Config(), old(Runtime()), altitude, m, velocity)
    {
      var vazao := 0.0;
      if altitude > D.ValveOpenAltitude {
        vazao := D.ValveGain * velocity;
      }
      if altitude > D.ValveCloseAltitude {
        vazao := 0.0;
      }
      var rho := Density(altitude, m);
      flow := -vazao * rho;
    }

    /** The diagnostic recordings at the end of `Model`, kept for their effect on the fields. */
    method Record(altitude: real, velocity: real, m: real)
      requires T.Valid(ops) && (burst || m != 0.0) && D.MassesNonZero(Config(), Runtime(), m)
      modifies this
      ensures Runtime() == D.Recordings(Config(), old(Runtime()), altitude, velocity, m)
    {
      ghost var c := Config();
      ghost var r := Runtime();
      var _ := Volume(altitude, m);
      var _ := Buoyancy(altitude, m);
      ghost var r2 := Runtime();
      assert D.Evolves(c, r, r2);
      var _ := Drag(altitude, velocity, m);
      ghost var r3 := Runtime();
      assert D.Evolves(c, r, r3);
      var _ := Acceleration(altitude, velocity, m);
      var _ := Weight(m);
    }

    /** The derivative handed to the integrator. */
    method Model(t: real, state: seq<real>) returns (delta: seq<real>)
      requires T.Valid(ops) && D.Evaluable(Config(), Runtime(), state)
      modifies this
      ensures (Runtime(), delta) == D.Model(Config(), old(Runtime()), t, state)
      ensures D.Evolves(Config(), old(Runtime()), Runtime())
    {
      var altitude, velocity, m := state[0], state[1], state[2];
      ghost var c := Config();
      if altitude < D.GroundEpsilon {
        touchdown := touchdown + 1;
      }
      var acc := Acceleration(altitude, velocity, m);
      var flow := Valve(altitude, m, velocity);
      delta := [velocity, acc, flow];
      Record(altitude, velocity, m);
      evaluations := evaluations + 1;
    }
  }
}
