/** The unit registry: the closed, immutable table of the 17 supported units
    and the lookup of a unit by its name or one of its aliases. */
module Registry {
  import opened AsciiCase

  datatype Option<T> = None | Some(value: T)

  /** The three kinds of quantity a unit can measure. */
  datatype UnitCategory = Length | Temperature | Mass

  /** The shapes of the conversion closures in the table: a plain scaling
      by the size of the unit in base units, the identity of a base unit, and
      the two affine temperature scales. */
  datatype Rule = Identity | Scale(factor: PositiveReal) | FahrenheitScale | KelvinScale

  /** Every scaling factor in the table is positive. */
  type PositiveReal = r: real | r > 0.0 witness 1.0

  /** One table entry; `rule` stands for its `to_base`/`from_base` pair. */
  datatype Unit = Unit(name: string, aliases: seq<string>, category: UnitCategory, rule: Rule) {

    /** `to_base`: a quantity in this unit, expressed in the base unit of
        its category (metre, degree Celsius, kilogram). `f64` is modelled
        as `real`. */
    function ToBase(v: real): real {
      match rule
      case Identity => v
      case Scale(factor) => v * factor
      case FahrenheitScale => (v - 32.0) * 5.0 / 9.0
      case KelvinScale => v - 273.15
    }

    /** `from_base`: a quantity in the base unit, expressed in this unit. */
    function FromBase(v: real): real {
      match rule
      case Identity => v
      case Scale(factor) => v / factor
      case FahrenheitScale => v * 9.0 / 5.0 + 32.0
      case KelvinScale => v + 273.15
    }
  }

  /** Some alias at index `i` or later equals `input` ignoring ASCII case. */
  predicate AliasMatchesFrom(aliases: seq<string>, input: string, i: nat)
    requires i <= |aliases|
    decreases |aliases| - i
  {
    i < |aliases| && (EqualsIgnoreAsciiCase(aliases[i], input) || AliasMatchesFrom(aliases, input, i + 1))
  }

  /** `Unit::matches`: the name or any alias equals `input` ignoring ASCII case. */
  predicate Matches(u: Unit, input: string) {
    EqualsIgnoreAsciiCase(u.name, input) || AliasMatchesFrom(u.aliases, input, 0)
  }

  /** The alias scan finds exactly the aliases from index `i` on that equal
      `input` ignoring case. */
  lemma {:induction false} AliasMatchesFromAgrees(aliases: seq<string>, input: string, i: nat)
    requires i <= |aliases|
    ensures AliasMatchesFrom(aliases, input, i) <==>
              exists k :: i <= k < |aliases| && EqualsIgnoreAsciiCase(aliases[k], input)
    decreases |aliases| - i
  {
    if i < |aliases| {
      AliasMatchesFromAgrees(aliases, input, i + 1);
    }
  }

  /** A unit matches `input` exactly when its name or one of its aliases has
      the same characters as `input` once 'A'..'Z' are folded to 'a'..'z'. */
  lemma MatchesIffSomeKeyFolds(u: Unit, input: string)
    ensures Matches(u, input) <==>
              FoldAscii(u.name) == FoldAscii(input) ||
              exists k :: 0 <= k < |u.aliases| && FoldAscii(u.aliases[k]) == FoldAscii(input)
  {
    AliasMatchesFromAgrees(u.aliases, input, 0);
    EqualsIgnoreAsciiCaseIffFoldedEqual(u.name, input);
    forall k | 0 <= k < |u.aliases|
      ensures EqualsIgnoreAsciiCase(u.aliases[k], input) <==> FoldAscii(u.aliases[k]) == FoldAscii(input)
    {
      EqualsIgnoreAsciiCaseIffFoldedEqual(u.aliases[k], input);
    }
  }

  /** A unit matches every input that one of its aliases equals ignoring
      case, wherever the alias sits in the list. */
  lemma AliasMakesMatch(u: Unit, input: string, k: nat)
    requires k < |u.aliases| && EqualsIgnoreAsciiCase(u.aliases[k], input)
    ensures Matches(u, input)
  {
    AliasMatchesFromAgrees(u.aliases, input, 0);
  }

  // The table, in declaration order.

  const KILOMETRE: Unit := Unit("km", ["kilometer", "kilometers", "kilometre", "kilometres"], Length, Scale(1000.0))
  const METRE: Unit := Unit("m", ["meter", "meters", "metre", "metres"], Length, Identity)
  const CENTIMETRE: Unit := Unit("cm", ["centimeter", "centimeters", "centimetre", "centimetres"], Length, Scale(0.01))
  const MILLIMETRE: Unit := Unit("mm", ["millimeter", "millimeters", "millimetre", "millimetres"], Length, Scale(0.001))
  const MILE: Unit := Unit("mi", ["mile", "miles"], Length, Scale(1609.344))
  const YARD: Unit := Unit("yd", ["yard", "yards"], Length, Scale(0.9144))
  const FOOT: Unit := Unit("ft", ["foot", "feet"], Length, Scale(0.3048))
  const INCH: Unit := Unit("in", ["inch", "inches"], Length, Scale(0.0254))
  const CELSIUS: Unit := Unit("C", ["celsius", "centigrade"], Temperature, Identity)
  const FAHRENHEIT: Unit := Unit("F", ["fahrenheit"], Temperature, FahrenheitScale)
  const KELVIN: Unit := Unit("K", ["kelvin"], Temperature, KelvinScale)
  const KILOGRAM: Unit := Unit("kg", ["kilogram", "kilograms"], Mass, Identity)
  const GRAM: Unit := Unit("g", ["gram", "grams"], Mass, Scale(0.001))
  const MILLIGRAM: Unit := Unit("mg", ["milligram", "milligrams"], Mass, Scale(0.000001))
  const POUND: Unit := Unit("lb", ["pound", "pounds"], Mass, Scale(0.45359237))
  const OUNCE: Unit := Unit("oz", ["ounce", "ounces"], Mass, Scale(0.028349523125))
  const TONNE: Unit := Unit("ton", ["tons", "tonne", "tonnes", "metric ton"], Mass, Scale(1000.0))

  const UNITS: seq<Unit> := [
    KILOMETRE, METRE, CENTIMETRE, MILLIMETRE, MILE, YARD, FOOT, INCH,
    CELSIUS, FAHRENHEIT, KELVIN,
    KILOGRAM, GRAM, MILLIGRAM, POUND, OUNCE, TONNE
  ]

  /** The index of the first entry of `units` at or after `i` that matches
      `input` (the search `iter().find` performs). */
  function FirstMatchFrom(units: seq<Unit>, input: string, i: nat): (r: Option<nat>)
    requires i <= |units|
    ensures r.Some? ==> i <= r.value < |units|
    decreases |units| - i
  {
    if i == |units| then None
    else if Matches(units[i], input) then Some(i)
    else FirstMatchFrom(units, input, i + 1)
  }

  /** `find_unit`: the first entry of the table that matches `input`, if any. */
  function FindUnit(input: string): Option<Unit> {
    match FirstMatchFrom(UNITS, input, 0)
    case None => None
    case Some(i) => Some(UNITS[i])
  }

  /** The search from `i` returns the lowest matching index at or after `i`,
      and nothing exactly when no entry from `i` on matches. */
  lemma {:induction false} FirstMatchFromIsLeast(units: seq<Unit>, input: string, i: nat)
    requires i <= |units|
    ensures FirstMatchFrom(units, input, i).None? <==> forall k :: i <= k < |units| ==> !Matches(units[k], input)
    ensures FirstMatchFrom(units, input, i).Some? ==>
              var j := FirstMatchFrom(units, input, i).value;
              Matches(units[j], input) && forall k :: i <= k < j ==> !Matches(units[k], input)
    decreases |units| - i
  {
    if i < |units| && !Matches(units[i], input) {
      FirstMatchFromIsLeast(units, input, i + 1);
    }
  }

  /** Conversely, a matching entry with no match before it is the one the
      search returns. */
  lemma {:induction false} FirstMatchFromFinds(units: seq<Unit>, input: string, i: nat, j: nat)
    requires i <= j < |units| && Matches(units[j], input)
    requires forall k :: i <= k < j ==> !Matches(units[k], input)
    ensures FirstMatchFrom(units, input, i) == Some(j)
    decreases j - i
  {
    if i < j {
      FirstMatchFromFinds(units, input, i + 1, j);
    }
  }

  /** `find_unit` yields the lowest-index entry that matches, and `None`
      exactly when no entry matches. */
  lemma FindUnitIsFirstMatch(input: string)
    ensures FindUnit(input).None? <==> forall k :: 0 <= k < |UNITS| ==> !Matches(UNITS[k], input)
    ensures FindUnit(input).Some? ==>
              exists i :: 0 <= i < |UNITS| && FindUnit(input).value == UNITS[i] && Matches(UNITS[i], input) &&
                          forall k :: 0 <= k < i ==> !Matches(UNITS[k], input)
  {
    FirstMatchFromIsLeast(UNITS, input, 0);
  }

  /** The converse reading: an entry that matches while none before it does
      is the one `find_unit` returns. */
  lemma FindUnitReturnsFirstMatching(input: string, i: nat)
    requires i < |UNITS| && Matches(UNITS[i], input)
    requires forall k :: 0 <= k < i ==> !Matches(UNITS[k], input)
    ensures FindUnit(input) == Some(UNITS[i])
  {
    FirstMatchFromFinds(UNITS, input, 0, i);
  }

  /** Every entry found by a lookup is an entry of the table. */
  lemma FoundUnitIsInTable(input: string)
    ensures FindUnit(input).Some? ==> FindUnit(input).value in UNITS
  {
    FindUnitIsFirstMatch(input);
  }

  // Properties of the conversion functions stored in the table.

  /** `from_base` undoes `to_base` and `to_base` undoes `from_base`: each
      pair is mutually inverse over the reals. */
  lemma ConversionsAreInverse(u: Unit, x: real)
    ensures u.FromBase(u.ToBase(x)) == x
    ensures u.ToBase(u.FromBase(x)) == x
  {
  }

  /** Every `to_base` is strictly increasing, so converting never reorders
      two quantities. */
  lemma ToBaseIsIncreasing(u: Unit, x: real, y: real)
    requires x < y
    ensures u.ToBase(x) < u.ToBase(y)
  {
  }

  /** How the table pairs categories, names and conversions: lengths and
      masses are plain scalings, and the temperatures are exactly C (the
      base unit), F and K. */
  predicate WellFormed(u: Unit) {
    && (u.category != Temperature ==> u.rule.Identity? || u.rule.Scale?)
    && (u.category == Temperature ==>
          || (u.name == "C" && u.rule == Identity)
          || (u.name == "F" && u.rule == FahrenheitScale)
          || (u.name == "K" && u.rule == KelvinScale))
  }

  /** Every entry of the table is well formed. */
  lemma TableIsWellFormed(u: Unit)
    requires u in UNITS
    ensures WellFormed(u)
  {
  }

  /** The base unit of each category converts by the identity. */
  lemma BaseUnitsAreIdentity(x: real)
    ensures METRE.ToBase(x) == x && METRE.FromBase(x) == x
    ensures CELSIUS.ToBase(x) == x && CELSIUS.FromBase(x) == x
    ensures KILOGRAM.ToBase(x) == x && KILOGRAM.FromBase(x) == x
  {
  }

  /** A plain scaling keeps zero at zero and the sign of a quantity, in both
      directions. */
  lemma ScalingsKeepSign(u: Unit, x: real)
    requires u.rule.Identity? || u.rule.Scale?
    ensures u.ToBase(x) < 0.0 <==> x < 0.0
    ensures u.FromBase(x) < 0.0 <==> x < 0.0
  {
  }

}
