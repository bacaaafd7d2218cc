/** The converter's test scenarios, stated as whole conversions from the
    names given on the command line. Where a test compares with a tolerance
    the exact real result is shown to lie within it. */
module ConversionExamples {
  import opened Registry
  import opened Conversion
  import opened Lookups

  /** `(a - b).abs() < epsilon`, the tests' approximate comparison. */
  predicate Near(a: real, b: real, epsilon: real) {
    -epsilon < a - b < epsilon
  }

  /** 5 km is about 3.10686 mi. */
  lemma KilometresToMiles()
    ensures Convert(5.0, "km", "mi").Ok?
    ensures Near(Convert(5.0, "km", "mi").value.result, 3.10686, 0.00001)
  {
    KilometreLookups();
    MileLookup();
  }

  /** Water boils at 212 F and freezes at 32 F. */
  lemma CelsiusToFahrenheit()
    ensures Convert(100.0, "C", "F") == Ok(Converted(212.0, false))
    ensures Convert(0.0, "C", "F") == Ok(Converted(32.0, false))
  {
    CelsiusLookups();
    FahrenheitLookup();
  }

  /** 10 kg is about 22.0462 lb. */
  lemma KilogramsToPounds()
    ensures Convert(10.0, "kg", "lb").Ok?
    ensures Near(Convert(10.0, "kg", "lb").value.result, 22.0462, 0.0001)
  {
    KilogramLookup();
    PoundLookup();
  }

  /** A million milligrams make a kilogram, and a gram is a thousand
      milligrams. */
  lemma MetricMasses()
    ensures Convert(1000000.0, "mg", "kg") == Ok(Converted(1.0, false))
    ensures Convert(1.0, "g", "mg") == Ok(Converted(1000.0, false))
  {
    MilligramLookup();
    KilogramLookup();
    GramLookup();
  }

  /** 100 m converted to m stays 100 m. */
  lemma MetresToMetres()
    ensures Convert(100.0, "m", "m") == Ok(Converted(100.0, false))
  {
    MetreLookups();
  }

  /** 273.15 K is 0 C. */
  lemma KelvinToCelsius()
    ensures Convert(273.15, "K", "C") == Ok(Converted(0.0, false))
  {
    KelvinLookup();
    CelsiusLookups();
  }

  /** The absolute-zero boundaries are inclusive: -273.15 C and -459.67 F
      convert, to -459.67 F and 0 K respectively, while -273.16 C and any
      negative kelvin value are refused. */
  lemma AbsoluteZeroBoundaries(belowZeroKelvin: real)
    requires belowZeroKelvin < 0.0
    ensures Convert(-273.15, "C", "F") == Ok(Converted(-459.67, false))
    ensures Convert(-273.16, "C", "F") == Err(BelowAbsoluteZero)
    ensures Convert(-459.67, "F", "K") == Ok(Converted(0.0, false))
    ensures Convert(0.0, "K", "C") == Ok(Converted(-273.15, false))
    ensures Convert(belowZeroKelvin, "K", "C") == Err(BelowAbsoluteZero)
  {
    CelsiusLookups();
    FahrenheitLookup();
    KelvinLookup();
  }

  /** A negative length is converted, with the warning; a length cannot be
      converted to a mass; an unknown name is reported as such. */
  lemma WarningsAndErrors()
    ensures Convert(-5.0, "km", "m") == Ok(Converted(-5000.0, true))
    ensures Convert(1.0, "km", "kg") == Err(CategoryMismatch(Length, Mass))
    ensures Convert(1.0, "bogus", "km") == Err(UnknownFromUnit("bogus"))
    ensures Convert(1.0, "km", "bogus") == Err(UnknownToUnit("bogus"))
  {
    KilometreLookups();
    MetreLookups();
    KilogramLookup();
    UnknownNameLookup();
  }
}
