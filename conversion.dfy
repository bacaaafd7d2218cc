/** The conversion decision that `main` makes once the value has been parsed:
    resolve both unit names, refuse a conversion across categories, warn about
    a negative length, refuse a temperature below absolute zero, and otherwise
    route the value through the category's base unit. Printing and exiting
    are replaced by the returned result. */
module Conversion {
  import opened Registry

  datatype Result<T, E> = Ok(value: T) | Err(error: E)

  /** The fatal outcomes, in the order `main` checks them. */
  datatype ConversionError =
    | UnknownFromUnit(fromInput: string)
    | UnknownToUnit(toInput: string)
    | CategoryMismatch(fromCategory: UnitCategory, toCategory: UnitCategory)
    | BelowAbsoluteZero

  /** A successful conversion: the converted value and whether the
      "negative length" warning was raised on the way. */
  datatype Converted = Converted(result: real, negativeLengthWarning: bool)

  /** Absolute zero in degrees Celsius, the base unit of temperature. */
  const ABSOLUTE_ZERO_CELSIUS: real := -273.15

  /** The checks and the conversion once both units are known. */
  function ConvertBetween(value: real, f: Unit, t: Unit): Result<Converted, ConversionError> {
    if f.category != t.category then
      Err(CategoryMismatch(f.category, t.category))
    else
      var warn := f.category == Length && value < 0.0;
      if f.category == Temperature && f.name == "K" && value < 0.0 then Err(BelowAbsoluteZero)
      else if f.category == Temperature && f.name == "C" && value < -273.15 then Err(BelowAbsoluteZero)
      else if f.category == Temperature && f.name == "F" && value < -459.67 then Err(BelowAbsoluteZero)
      else Ok(Converted(t.FromBase(f.ToBase(value)), warn))
  }

  /** `<value> <from> <to>`: look both names up, then decide. An unknown
      source unit is reported before an unknown target unit. */
  function Convert(value: real, fromInput: string, toInput: string): Result<Converted, ConversionError> {
    match (FindUnit(fromInput), FindUnit(toInput))
    case (Some(f), Some(t)) => ConvertBetween(value, f, t)
    case (None, _) => Err(UnknownFromUnit(fromInput))
    case (_, None) => Err(UnknownToUnit(toInput))
  }

  // The order of the checks.

  /** An unknown source unit is always the reported error, whatever the
      target; an unknown target is reported only when the source is known. */
  lemma UnknownUnitsReportedSourceFirst(value: real, fromInput: string, toInput: string)
    ensures Convert(value, fromInput, toInput) == Err(UnknownFromUnit(fromInput)) <==>
              FindUnit(fromInput).None?
    ensures Convert(value, fromInput, toInput) == Err(UnknownToUnit(toInput)) <==>
              FindUnit(fromInput).Some? && FindUnit(toInput).None?
  {
  }

  /** Units of different categories are never converted: the result is the
      mismatch error carrying both categories, whatever the value, and it is
      the only way that error arises. */
  lemma CategoryMismatchIsFatal(value: real, fromInput: string, toInput: string)
    ensures Convert(value, fromInput, toInput).Err? &&
            Convert(value, fromInput, toInput).error.CategoryMismatch? <==>
              FindUnit(fromInput).Some? && FindUnit(toInput).Some? &&
              FindUnit(fromInput).value.category != FindUnit(toInput).value.category
    ensures FindUnit(fromInput).Some? && FindUnit(toInput).Some? &&
            FindUnit(fromInput).value.category != FindUnit(toInput).value.category ==>
              Convert(value, fromInput, toInput) ==
                Err(CategoryMismatch(FindUnit(fromInput).value.category, FindUnit(toInput).value.category))
  {
  }

  // What happens once both units are known and share a category.

  /** Between two table entries of one category, the only possible refusal is
      a temperature below absolute zero, which happens exactly when the value
      lies below -273.15 degrees Celsius once taken to the base unit. A
      conversion that goes through yields `from_base(to_base(value))`, with the
      warning raised exactly for a negative length. */
  lemma SameCategoryOutcome(value: real, f: Unit, t: Unit)
    requires f in UNITS && t in UNITS && f.category == t.category
    ensures ConvertBetween(value, f, t) == Err(BelowAbsoluteZero) <==>
              f.category == Temperature && f.ToBase(value) < ABSOLUTE_ZERO_CELSIUS
    ensures ConvertBetween(value, f, t).Err? ==> ConvertBetween(value, f, t) == Err(BelowAbsoluteZero)
    ensures ConvertBetween(value, f, t).Ok? ==>
              ConvertBetween(value, f, t).value ==
                Converted(t.FromBase(f.ToBase(value)), f.category == Length && value < 0.0)
  {
    TableIsWellFormed(f);
  }

  /** Each temperature unit refuses values below its own absolute zero: K
      below 0, C below -273.15, F below -459.67. The comparison is strict, so
      the boundary itself converts. */
  lemma AbsoluteZeroThresholds(value: real, f: Unit, t: Unit)
    requires f in UNITS && t in UNITS && f.category == Temperature && t.category == Temperature
    ensures f.name == "K" ==> (ConvertBetween(value, f, t).Err? <==> value < 0.0)
    ensures f.name == "C" ==> (ConvertBetween(value, f, t).Err? <==> value < -273.15)
    ensures f.name == "F" ==> (ConvertBetween(value, f, t).Err? <==> value < -459.67)
  {
    TableIsWellFormed(f);
  }

  /** A negative length is converted all the same, only with the warning. */
  lemma NegativeLengthOnlyWarns(value: real, f: Unit, t: Unit)
    requires f in UNITS && t in UNITS && f.category == Length && t.category == Length
    requires value < 0.0
    ensures ConvertBetween(value, f, t) == Ok(Converted(t.FromBase(f.ToBase(value)), true))
    ensures ConvertBetween(value, f, t).value.result < 0.0
  {
    TableIsWellFormed(f);
    TableIsWellFormed(t);
    ScalingsKeepSign(f, value);
    ScalingsKeepSign(t, f.ToBase(value));
  }

  /** A mass, negative or not, is neither refused nor warned about. */
  lemma MassIsNeverChecked(value: real, f: Unit, t: Unit)
    requires f in UNITS && t in UNITS && f.category == Mass && t.category == Mass
    ensures ConvertBetween(value, f, t) == Ok(Converted(t.FromBase(f.ToBase(value)), false))
  {
  }

  // Properties of whole conversions.

  /** Converting a unit to itself (under any of its names) returns the input
      unchanged, unless the input is a temperature below absolute zero. */
  lemma ConvertToSameUnitIsIdentity(value: real, fromInput: string, toInput: string)
    requires FindUnit(fromInput).Some? && FindUnit(fromInput) == FindUnit(toInput)
    ensures Convert(value, fromInput, toInput).Ok? ==> Convert(value, fromInput, toInput).value.result == value
    ensures Convert(value, fromInput, toInput).Err? ==> Convert(value, fromInput, toInput) == Err(BelowAbsoluteZero)
  {
    var u := FindUnit(fromInput).value;
    FoundUnitIsInTable(fromInput);
    ConversionsAreInverse(u, value);
    SameCategoryOutcome(value, u, u);
  }

  /** A successful conversion can be undone: converting its result back
      from the target unit to the source unit succeeds, returns the original
      value, and raises the warning exactly when the forward one did. */
  lemma ConversionIsReversible(value: real, fromInput: string, toInput: string)
    requires Convert(value, fromInput, toInput).Ok?
    ensures Convert(Convert(value, fromInput, toInput).value.result, toInput, fromInput) ==
              Ok(Converted(value, Convert(value, fromInput, toInput).value.negativeLengthWarning))
  {
    var f, t := FindUnit(fromInput).value, FindUnit(toInput).value;
    FoundUnitIsInTable(fromInput);
    FoundUnitIsInTable(toInput);
    SameCategoryOutcome(value, f, t);
    var back := t.FromBase(f.ToBase(value));
    ConversionsAreInverse(t, f.ToBase(value));
    ConversionsAreInverse(f, value);
    SameCategoryOutcome(back, t, f);
    if f.category == Length {
      TableIsWellFormed(f);
      TableIsWellFormed(t);
      ScalingsKeepSign(f, value);
      ScalingsKeepSign(t, f.ToBase(value));
    }
  }
}
