# Unit converter — a Dafny model

This project models the core of a small command-line unit converter. It is
invoked as `<value> <from_unit> <to_unit>` and handles units of length,
temperature and mass. The model covers these parts of the program:

- **The unit registry.** It is a fixed table of 17 units. Each unit has a
  short name, a list of aliases, a category and a pair of conversion
  functions. `to_base` converts into the category's base unit (metre, degree
  Celsius or kilogram), and `from_base` converts back out of it.
- **Unit lookup.** A unit matches a string when its name or one of its
  aliases equals that string ignoring ASCII case. `find_unit` returns the
  first matching unit in table order.
- **The conversion decision.** Once the value has been parsed, `main` does
  the following, in this order:
  - it reports an unknown source unit, then an unknown target unit;
  - it refuses a conversion between categories;
  - it warns about a negative length;
  - it refuses a temperature below absolute zero;
  - otherwise it computes `from_base(to_base(value))`.
- **The command-line dispatch.** This covers the `--help`, `--version` and
  `--list` flags, the argument-count check and the resulting exit status.

The files are:

- `ascii_case.dfy` (`AsciiCase`): case-insensitive comparison of ASCII
  strings.
- `registry.dfy` (`Registry`): the unit table, `Unit::matches`,
  `find_unit`, and the properties of the table's conversion functions.
- `conversion.dfy` (`Conversion`): the decision logic of `main`, as a pure
  function that returns `Ok` or the error that `main` would print before
  exiting with status 1.
- `lookups.dfy` (`Lookups`): the lookups that the program's tests use,
  each proved against the table.
- `examples.dfy` (`ConversionExamples`): the program's test scenarios,
  stated as whole conversions.
- `cli.dfy` (`Cli`): argument dispatch, the outcome of a run, and its exit
  status.

Two modelling choices apply throughout:

- `f64` is modelled as the mathematical reals. Conversions are therefore
  exact, and where a test compares within a tolerance, the exact result is
  proved to be within that tolerance.
- Each conversion closure of the table is represented by its shape: the
  identity, a scaling by a positive factor, the Fahrenheit scale or the
  Kelvin scale. `ToBase` and `FromBase` interpret the shape with the same
  arithmetic as the closure.

Rust's `eq_ignore_ascii_case` compares bytes, while the model compares
characters. The two agree, because a non-ASCII character is never encoded
with an ASCII byte, so case folding changes only 'A'..'Z' in either view.

## Model

| member | source | states |
|---|---|---|
| AsciiCase.ToAsciiLowerFoldsOnlyUpperCase | src/main.rs:20-23 | folding one character leaves no upper-case letter, changes only 'A'..'Z', and maps each of those to the lower-case letter at the same place in the alphabet |
| AsciiCase.FoldedEqualFromAgrees | src/main.rs:20-23 | the pairwise comparison from position i succeeds iff every later position agrees after folding |
| AsciiCase.EqualsIgnoreAsciiCaseAgrees | src/main.rs:20-23 | `eq_ignore_ascii_case` holds iff the lengths are equal and every position agrees after folding |
| AsciiCase.FoldAscii | src/main.rs:20-23 | the folded string has the same length, and each character is the fold of the input's character at the same position |
| AsciiCase.EqualsIgnoreAsciiCaseIffFoldedEqual | src/main.rs:20-23 | two strings are equal ignoring ASCII case iff their folded forms are equal |
| AsciiCase.EqualsIgnoreAsciiCaseIsEquivalence | src/main.rs:20-23 | case-insensitive equality is reflexive, symmetric and transitive |
| Registry.AliasMatchesFromAgrees | src/main.rs:22 | the alias scan succeeds iff some alias from index i on equals the input ignoring case |
| Registry.AliasMakesMatch | src/main.rs:20-23 | a unit matches any input that one of its aliases equals ignoring case, whatever the alias's position |
| Registry.MatchesIffSomeKeyFolds | src/main.rs:20-23 | a unit matches iff its name, or one of its aliases, folds to the same string as the input |
| Registry.FirstMatchFrom | src/main.rs:227 | an index the search returns lies between its start and the end of the table |
| Registry.FirstMatchFromIsLeast | src/main.rs:227 | the search returns nothing iff no entry from i on matches; otherwise it returns a matching index with no match before it |
| Registry.FirstMatchFromFinds | src/main.rs:227 | a matching entry with no match between i and it is the one the search returns |
| Registry.FindUnitIsFirstMatch | src/main.rs:226-228 | `find_unit` returns `None` iff no table entry matches; otherwise it returns the lowest-index matching entry |
| Registry.FindUnitReturnsFirstMatching | src/main.rs:226-228 | if entry i matches and no earlier entry does, `find_unit` returns entry i |
| Registry.FoundUnitIsInTable | src/main.rs:226-228 | every unit `find_unit` returns is an entry of the table |
| Registry.ConversionsAreInverse | src/main.rs:26-146 | for every unit, `from_base` undoes `to_base` and `to_base` undoes `from_base` |
| Registry.ToBaseIsIncreasing | src/main.rs:26-146 | every `to_base` is strictly increasing |
| Registry.TableIsWellFormed | src/main.rs:26-146 | every length and mass entry converts by a positive scaling (or the identity); the temperature entries are exactly C (identity), F and K |
| Registry.BaseUnitsAreIdentity | src/main.rs:26-146 | m, C and kg (the base units) convert by the identity in both directions |
| Registry.ScalingsKeepSign | src/main.rs:26-146 | a scaling unit's conversions keep the sign of a quantity, in both directions |
| Conversion.UnknownUnitsReportedSourceFirst | src/main.rs:181-222 | the result is the unknown-source error iff the source is unknown; it is the unknown-target error iff the source is known and the target is not |
| Conversion.CategoryMismatchIsFatal | src/main.rs:183-188 | a category-mismatch error arises iff both units are known and their categories differ; the error then carries the source's category and the target's category |
| Conversion.SameCategoryOutcome | src/main.rs:190-211 | for two table entries of one category, the only refusal is "below absolute zero", which happens iff the value is a temperature below -273.15 C once taken to the base unit; otherwise the result is `from_base(to_base(value))`, and the warning is raised iff the value is a negative length |
| Conversion.AbsoluteZeroThresholds | src/main.rs:194-207 | a conversion from K is refused iff the value is < 0, from C iff < -273.15, and from F iff < -459.67; the comparisons are strict |
| Conversion.NegativeLengthOnlyWarns | src/main.rs:190-192 | a negative length still converts, to a negative result, with the warning raised |
| Conversion.MassIsNeverChecked | src/main.rs:190-210 | a mass of any sign converts with no warning and no refusal |
| Conversion.ConvertToSameUnitIsIdentity | src/main.rs:181-222 | converting between two names of the same unit returns the value unchanged, or is refused below absolute zero |
| Conversion.ConversionIsReversible | src/main.rs:181-222 | converting a successful result back succeeds, returns the original value, and raises the same warning |
| Lookups.KilometreLookups | src/main.rs:335-347 | "km", "KM", "kilometer" and "kilometres" all find the kilometre entry |
| Lookups.MetreLookups | src/main.rs:335-340 | "m" and "MeTErs" find the metre entry |
| Lookups.MileLookup | src/main.rs:281-288 | "mi" finds the mile entry |
| Lookups.CelsiusLookups | src/main.rs:342-347 | "C" and "celsius" find the Celsius entry |
| Lookups.FahrenheitLookup | src/main.rs:290-297 | "F" finds the Fahrenheit entry |
| Lookups.UpperCaseAliasLookup | src/main.rs:335-340 | "FAHRENHEIT" finds the Fahrenheit entry |
| Lookups.KelvinLookup | src/main.rs:357-364 | "K" finds the Kelvin entry |
| Lookups.KilogramLookup | src/main.rs:308-315 | "kg" finds the kilogram entry |
| Lookups.GramLookup | src/main.rs:326-333 | "g" finds the gram entry |
| Lookups.MilligramLookup | src/main.rs:317-324 | "mg" finds the milligram entry |
| Lookups.PoundLookup | src/main.rs:308-315 | "lb" finds the pound entry |
| Lookups.UnknownNameLookup | src/main.rs:226-228 | a string that is neither a name nor an alias finds nothing |
| ConversionExamples.KilometresToMiles | src/main.rs:281-288 | 5 km converts to within 0.00001 of 3.10686 mi |
| ConversionExamples.CelsiusToFahrenheit | src/main.rs:290-306 | 100 C is 212 F and 0 C is 32 F, with no warning |
| ConversionExamples.KilogramsToPounds | src/main.rs:308-315 | 10 kg converts to within 0.0001 of 22.0462 lb |
| ConversionExamples.MetricMasses | src/main.rs:317-333 | 1000000 mg is 1 kg and 1 g is 1000 mg |
| ConversionExamples.MetresToMetres | src/main.rs:349-355 | 100 m converted to m is 100 m |
| ConversionExamples.KelvinToCelsius | src/main.rs:357-364 | 273.15 K is 0 C |
| ConversionExamples.AbsoluteZeroBoundaries | src/main.rs:194-207 | -273.15 C and -459.67 F convert (to -459.67 F and 0 K); -273.16 C and every negative kelvin value are refused |
| ConversionExamples.WarningsAndErrors | src/main.rs:181-222 | -5 km is -5000 m with the warning; km to kg is a Length/Mass mismatch; an unknown name is reported on the side where it appears |
| Cli.DispatchByArgumentCount | src/main.rs:151-165 | a help, version or list flag is honoured iff it is the only argument; a conversion runs iff there are exactly three arguments; every other argument count is a usage error that reports the number of arguments given |
| Cli.ExitStatusZeroExactlyOnSuccess | src/main.rs:148-224 | the exit status is 0 iff a flag was honoured, or the value parsed and the conversion succeeded; a printed result is then the conversion's result and warning |

## Left out

- The reading of the argument vector, and all printing to stdout and stderr, are not modelled. The model returns a `Result` or an `Outcome` in their place, and the process exit becomes `Cli.ExitStatus`.
- The wording of messages is not modelled: the usage text, the help screen (`print_help`), the version banner and the unit listing (`print_units`). These only print text.
- Parsing the value as an `f64` uses Rust's standard library. `Cli.Run` takes the parser as a parameter.
- `f64` arithmetic is not modelled: rounding, NaN and the infinities are left out. For example, a NaN value passes every absolute-zero check in the program, but the model has no NaN.
- The conversion closures are not modelled as function values. Each is represented by the `Rule` shape it has, interpreted with the same arithmetic.
- The table's property that every name and alias finds its own entry is not proved for all 59 keys. It is proved only for the keys used by the program's tests (`Lookups`).
- An argument vector without the program name is not modelled: `Cli` requires at least one element, because the program reads `args[0]` and computes `args.len() - 1`.
