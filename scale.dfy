/**
 * TemperatureScale: Celsius/Fahrenheit conversion and the gauge bounds,
 * over exact reals.
 */
module Scale {

  const CelsiusMin: real := -10.0
  const CelsiusMax: real := 50.0
  const FahrenheitMin: real := 14.0
  const FahrenheitMax: real := 122.0

  /** The bounds of the gauge for one unit. */
  datatype GaugeRange = GaugeRange(min: real, max: real)

  /** `toFahrenheit`: the Fahrenheit value whose Celsius equivalent, (f - 32) * 5 / 9, is the input. */
  function ToFahrenheit(celsius: real): (f: real)
    ensures (f - 32.0) * 5.0 / 9.0 == celsius
  {
    celsius * 9.0 / 5.0 + 32.0
  }

  /** `toCelsius`: the Celsius value whose Fahrenheit equivalent, c * 9 / 5 + 32, is the input. */
  function ToCelsius(fahrenheit: real): (c: real)
    ensures c * 9.0 / 5.0 + 32.0 == fahrenheit
  {
    (fahrenheit - 32.0) * 5.0 / 9.0
  }

  /** `getMinMax(for:)`: the Fahrenheit bounds when asked for Fahrenheit, else the Celsius ones. */
  function GetMinMax(fahrenheit: bool): (bounds: GaugeRange)
    ensures bounds.min < bounds.max
  {
    if fahrenheit then GaugeRange(FahrenheitMin, FahrenheitMax) else GaugeRange(CelsiusMin, CelsiusMax)
  }

  lemma CelsiusRoundTrip(c: real)
    ensures ToCelsius(ToFahrenheit(c)) == c
  {
  }

  lemma FahrenheitRoundTrip(f: real)
    ensures ToFahrenheit(ToCelsius(f)) == f
  {
  }

  /** Conversion preserves order in both directions, so it maps ranges onto ranges. */
  lemma ConversionMonotone(c1: real, c2: real)
    ensures c1 <= c2 <==> ToFahrenheit(c1) <= ToFahrenheit(c2)
    ensures c1 < c2 <==> ToFahrenheit(c1) < ToFahrenheit(c2)
  {
  }

  /** The two gauges show the same physical range: the Celsius bounds convert exactly to the Fahrenheit ones. */
  lemma GaugeBoundsAgree()
    ensures GetMinMax(true) == GaugeRange(14.0, 122.0)
    ensures GetMinMax(false) == GaugeRange(-10.0, 50.0)
    ensures ToFahrenheit(GetMinMax(false).min) == GetMinMax(true).min
    ensures ToFahrenheit(GetMinMax(false).max) == GetMinMax(true).max
    ensures ToCelsius(GetMinMax(true).min) == GetMinMax(false).min
    ensures ToCelsius(GetMinMax(true).max) == GetMinMax(false).max
  {
  }
}
