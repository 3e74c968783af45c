/**
 * Piecewise standard atmosphere (Air.py): temperature, pressure and density as
 * functions of altitude in metres.  Three layers: below 11 km, from 11 km up to
 * 25 km, and from 25 km up.
 */
module Air {
  import T = Transcendental
  import Utils

  // Pressure layer constants, Pa.
  const P_sl0: real := 101325.0
  const P_sl1: real := 22552.0
  const P_sl2: real := 2481.0

  // Density layer constants, kg/m^3 (declared by the source, unused by its formulas).
  const p_sl0: real := 1.225
  const p_sl1: real := 0.3629
  const p_sl2: real := 0.0399

  /** Density of helium at 1 atm and 0 degrees Celsius, kg/m^3. */
  const PHe: real := 0.1786

  // Temperature layer constants (declared by the source, unused by its formulas).
  const T_sl0: real := 288.0 - 273.15
  const T_sl2: real := 216.5 - 273.15
  const L_sl0: real := -0.0065
  const L_sl2: real := 0.001

  /** The altitudes at which the formulas change. */
  const TropopauseAltitude: real := 11000.0
  const StratosphereSplitAltitude: real := 25000.0

  /** The layer whose formulas apply at an altitude. */
  datatype Layer = Troposphere | LowerStratosphere | UpperStratosphere

  function LayerOf(altitude: real): (l: Layer)
    ensures l == Troposphere <==> altitude < TropopauseAltitude
    ensures l == LowerStratosphere <==> TropopauseAltitude <= altitude < StratosphereSplitAltitude
    ensures l == UpperStratosphere <==> StratosphereSplitAltitude <= altitude
  {
    if altitude < TropopauseAltitude then Troposphere
    else if altitude < StratosphereSplitAltitude then LowerStratosphere
    else UpperStratosphere
  }

  /** Temperature in Kelvin at an altitude; the formulas are written in Celsius. */
  function Temperature(altitude: real): (k: real)
    ensures k > 0.0
    ensures k >= 216.69
  {
    var out :=
      if altitude < 11000.0 then 15.04 - 0.00649 * altitude
      else if altitude < 25000.0 then -56.46
      else -131.21 + 0.00299 * altitude;
    Utils.Kelvin(out)
  }

  /** Air pressure in pascals at an altitude. */
  function Pressure(ops: T.Ops, altitude: real): (p: real)
    ensures T.Valid(ops) ==> p > 0.0
  {
    if altitude < 11000.0 then P_sl0 * ops.pow(Temperature(altitude) / 288.08, 5.256)
    else if altitude < 25000.0 then P_sl1 * ops.exp(1.73 - 0.000157 * altitude)
    else P_sl2 * ops.pow(Temperature(altitude) / 216.6, -11.388)
  }

  /** Air density in kg/m^3 at an altitude, by the ideal gas law in kPa. */
  function Density(ops: T.Ops, altitude: real): (rho: real)
    ensures T.Valid(ops) ==> rho > 0.0
  {
    var pKpa := Pressure(ops, altitude) * 0.001;
    var k := Temperature(altitude);
    pKpa / (0.2869 * k)
  }

  /** Density is the ideal-gas expression of pressure and temperature at the same altitude. */
  lemma DensityIdealGas(ops: T.Ops, altitude: real)
    ensures Density(ops, altitude) * (0.2869 * Temperature(altitude)) == Pressure(ops, altitude) * 0.001
  {
  }

  /** Below 11 km the temperature falls linearly from 288.19 K at sea level. */
  lemma TroposphereTemperature(a: real, b: real)
    requires a < b < TropopauseAltitude
    ensures Temperature(a) == 288.19 - 0.00649 * a
    ensures Temperature(a) > Temperature(b)
  {
  }

  /** From 11 km up to 25 km the temperature is the constant 216.69 K. */
  lemma LowerStratosphereTemperature(altitude: real)
    requires TropopauseAltitude <= altitude < StratosphereSplitAltitude
    ensures Temperature(altitude) == 216.69
  {
  }

  /** From 25 km up the temperature rises linearly. */
  lemma UpperStratosphereTemperature(a: real, b: real)
    requires StratosphereSplitAltitude <= a < b
    ensures Temperature(a) == 141.94 + 0.00299 * a
    ensures Temperature(a) < Temperature(b)
  {
  }

  /** At 25 km the upper formula meets the lower-stratosphere constant exactly. */
  lemma ContinuousAt25km()
    ensures Temperature(StratosphereSplitAltitude) == 216.69
    ensures 141.94 + 0.00299 * StratosphereSplitAltitude == 216.69
  {
  }

  /**
   * At 11 km the formula jumps: every altitude below 11 km is more than 0.1 K warmer
   * than 11 km itself, so the temperature is not continuous there.
   */
  lemma JumpAt11km(altitude: real)
    requires altitude < TropopauseAltitude
    ensures Temperature(altitude) > Temperature(TropopauseAltitude) + 0.1
  {
  }

  /** Temperature and pressure select their formulas by the same layer. */
  lemma SameLayers(ops: T.Ops, altitude: real)
    ensures match LayerOf(altitude)
      case Troposphere =>
        && Temperature(altitude) == 288.19 - 0.00649 * altitude
        && Pressure(ops, altitude) == P_sl0 * ops.pow(Temperature(altitude) / 288.08, 5.256)
      case LowerStratosphere =>
        && Temperature(altitude) == 216.69
        && Pressure(ops, altitude) == P_sl1 * ops.exp(1.73 - 0.000157 * altitude)
      case UpperStratosphere =>
        && Temperature(altitude) == 141.94 + 0.00299 * altitude
        && Pressure(ops, altitude) == P_sl2 * ops.pow(Temperature(altitude) / 216.6, -11.388)
  {
  }
}
