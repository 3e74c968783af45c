/** Physical constants and sphere geometry (Universe.py). */
module Universe {
  import T = Transcendental

  /** Universal gas constant, J/(mol K). */
  const R: real := 8.3144598
  /** Standard gravity, m/s^2. */
  const G: real := 9.80665
  /** Molar mass of dry air, kg/mol (declared by the source, not used by the core). */
  const M: real := 0.0289644
  /** Boltzmann's constant as the source writes it, J/K (declared, not used by the core). */
  const BoltzC: real := 0.0000000000000000000000138
  /** Molar mass of helium, kg/mol. */
  const MolarMassHe: real := 0.0040026

  /** numpy's value of pi. */
  const Pi: real := 3.141592653589793

  /** Volume of a sphere of the given radius. */
  function VolSphere(radius: real): (v: real)
    ensures radius > 0.0 ==> v > 0.0
    ensures radius == 0.0 ==> v == 0.0
    ensures radius < 0.0 ==> v < 0.0
  {
    (4.0 / 3.0) * Pi * (radius * radius * radius)
  }

  /** Radius of a sphere of the given volume, through the abstract cube root. */
  function RadiusSphere(ops: T.Ops, volume: real): (r: real)
    ensures T.Valid(ops) && volume >= 0.0 ==> r >= 0.0 && r * r * r == (3.0 / 4.0 / Pi) * volume
  {
    T.Cbrt(ops, (3.0 / 4.0 / Pi) * volume)
  }

  /** A larger radius gives a strictly larger sphere. */
  lemma VolSphereStrictlyIncreasing(a: real, b: real)
    requires 0.0 <= a < b
    ensures VolSphere(a) < VolSphere(b)
  {
    T.CubeStrictlyIncreasing(a, b);
  }

  /** `RadiusSphere` undoes `VolSphere` on non-negative radii. */
  lemma RadiusOfVolume(ops: T.Ops, r: real)
    requires T.Valid(ops) && r >= 0.0
    ensures RadiusSphere(ops, VolSphere(r)) == r
  {
    assert (3.0 / 4.0 / Pi) * VolSphere(r) == r * r * r;
    T.CbrtOfCube(ops, r);
  }

  /** `VolSphere` undoes `RadiusSphere` on non-negative volumes. */
  lemma VolumeOfRadius(ops: T.Ops, v: real)
    requires T.Valid(ops) && v >= 0.0
    ensures VolSphere(RadiusSphere(ops, v)) == v
  {
    var x := (3.0 / 4.0 / Pi) * v;
    assert x >= 0.0;
    var c := T.Cbrt(ops, x);
    assert c * c * c == x;
    calc {
      VolSphere(c);
      (4.0 / 3.0) * Pi * x;
      v;
    }
  }

  /** Radii of non-negative volumes are non-negative, and only the empty sphere has radius zero. */
  lemma RadiusSign(ops: T.Ops, v: real)
    requires T.Valid(ops) && v >= 0.0
    ensures RadiusSphere(ops, v) >= 0.0
    ensures RadiusSphere(ops, v) == 0.0 <==> v == 0.0
  {
    T.CbrtSign(ops, (3.0 / 4.0 / Pi) * v);
  }
}
