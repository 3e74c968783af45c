/** Celsius/Kelvin conversion helpers (Utils.py). */
module Utils {

  /** The offset between the Celsius and Kelvin scales. */
  const ZeroCelsiusInKelvin: real := 273.15

  /** Degrees Celsius to Kelvin. */
  function Kelvin(celcius: real): (k: real)
    ensures k > 0.0 <==> celcius > -ZeroCelsiusInKelvin
    ensures k - celcius == ZeroCelsiusInKelvin
  {
    celcius + 273.15
  }

  /** Kelvin to degrees Celsius (the source's spelling is kept). */
  function Celcius(kelvin: real): (c: real)
    ensures c < 0.0 <==> kelvin < ZeroCelsiusInKelvin
    ensures kelvin - c == ZeroCelsiusInKelvin
  {
    kelvin - 273.15
  }

  lemma CelciusOfKelvin(c: real)
    ensures Celcius(Kelvin(c)) == c
  {
  }

  lemma KelvinOfCelcius(k: real)
    ensures Kelvin(Celcius(k)) == k
  {
  }

  lemma KelvinStrictlyIncreasing(a: real, b: real)
    requires a < b
    ensures Kelvin(a) < Kelvin(b)
  {
  }
}
