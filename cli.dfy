/** The command-line front end of `main`, with its printing and exiting
    replaced by returned values: which command the argument vector asks for,
    and the outcome and exit status of running it. Parsing the number is
    done by a library the model does not see, so it is a parameter. */
module Cli {
  import opened Registry
  import opened Conversion

  /** What the argument vector asks for. */
  datatype Command =
    | ShowHelp
    | ShowVersion
    | ListUnits
    | WrongArgumentCount(given: nat)
    | RunConversion(valueText: string, fromUnit: string, toUnit: string)

  /** A flag recognised when it is the only argument. */
  predicate IsHelpFlag(s: string) { s == "--help" || s == "-h" }
  predicate IsVersionFlag(s: string) { s == "--version" || s == "-v" }
  predicate IsListFlag(s: string) { s == "--list" || s == "-l" }

  /** The dispatch at the start of `main`. `args[0]` is the program name,
      which every error path prints, so it is always present. */
  function Dispatch(args: seq<string>): Command
    requires |args| >= 1
  {
    if |args| == 2 && IsHelpFlag(args[1]) then ShowHelp
    else if |args| == 2 && IsVersionFlag(args[1]) then ShowVersion
    else if |args| == 2 && IsListFlag(args[1]) then ListUnits
    else if |args| != 4 then WrongArgumentCount(|args| - 1)
    else RunConversion(args[1], args[2], args[3])
  }

  /** The flags are honoured only as the single argument, a conversion runs
      exactly when there are three arguments, and every other count is a
      usage error that reports how many arguments were given. */
  lemma DispatchByArgumentCount(args: seq<string>)
    requires |args| >= 1
    ensures Dispatch(args).ShowHelp? <==> |args| == 2 && IsHelpFlag(args[1])
    ensures Dispatch(args).ShowVersion? <==> |args| == 2 && IsVersionFlag(args[1])
    ensures Dispatch(args).ListUnits? <==> |args| == 2 && IsListFlag(args[1])
    ensures Dispatch(args).RunConversion? <==> |args| == 4
    ensures Dispatch(args).RunConversion? ==> Dispatch(args) == RunConversion(args[1], args[2], args[3])
    ensures Dispatch(args).WrongArgumentCount? <==>
              |args| != 4 && !(|args| == 2 && (IsHelpFlag(args[1]) || IsVersionFlag(args[1]) || IsListFlag(args[1])))
    ensures Dispatch(args).WrongArgumentCount? ==> Dispatch(args).given == |args| - 1
  {
  }

  /** How a run of the program ends, without its text. */
  datatype Outcome =
    | Informational(command: Command)
    | UsageError(given: nat)
    | NotANumber(valueText: string)
    | Refused(error: ConversionError)
    | Printed(value: real, fromUnit: string, result: real, toUnit: string, warned: bool)

  /** The whole of `main`: dispatch, parse the value with `parse`, then
      convert. */
  function Run(args: seq<string>, parse: string -> Option<real>): Outcome
    requires |args| >= 1
  {
    match Dispatch(args)
    case WrongArgumentCount(n) => UsageError(n)
    case RunConversion(text, fromUnit, toUnit) =>
      (match parse(text)
       case None => NotANumber(text)
       case Some(value) =>
         (match Convert(value, fromUnit, toUnit)
          case Err(e) => Refused(e)
          case Ok(c) => Printed(value, fromUnit, c.result, toUnit, c.negativeLengthWarning)))
    case other => Informational(other)
  }

  /** `process::exit(1)` on every error, a normal return otherwise. */
  function ExitStatus(o: Outcome): int {
    if o.Informational? || o.Printed? then 0 else 1
  }

  /** The program exits with status 0 exactly when it was asked for help,
      the version or the unit list, or when the value parsed and the
      conversion went through; the printed result is then the conversion's. */
  lemma ExitStatusZeroExactlyOnSuccess(args: seq<string>, parse: string -> Option<real>)
    requires |args| >= 1
    ensures ExitStatus(Run(args, parse)) == 0 <==>
              (|args| == 2 && (IsHelpFlag(args[1]) || IsVersionFlag(args[1]) || IsListFlag(args[1]))) ||
              (|args| == 4 && parse(args[1]).Some? && Convert(parse(args[1]).value, args[2], args[3]).Ok?)
    ensures Run(args, parse).Printed? ==>
              |args| == 4 && parse(args[1]) == Some(Run(args, parse).value) &&
              Convert(Run(args, parse).value, args[2], args[3]) ==
                Ok(Converted(Run(args, parse).result, Run(args, parse).warned))
  {
    DispatchByArgumentCount(args);
  }
}
