/** Vocabulary shared by the two argument parsers of lib/x-cli-common.mjs:
    the flags both recognise, `parseOptionValue`, the error texts, and the
    shapes of one scanning step and of a whole scan. */
module ArgScan {
  import opened Wrappers
  import opened Text

  /** The token that switches option parsing off for the rest of the scan. */
  const Separator: string := "--"

  predicate IsHelpFlag(arg: string)
  {
    arg == "--help" || arg == "-h"
  }

  predicate IsConfigFlag(arg: string)
  {
    arg == "--config" || arg == "-c"
  }

  function MissingValueError(optionName: string): string
  {
    "Missing value for " + optionName + "."
  }

  function UnknownOptionError(arg: string): string
  {
    "Unknown option: " + arg
  }

  /** `parseOptionValue(args, index, optionName)`: the token after `index` is
      the option's value unless it is absent, empty or starts with `-`. */
  function OptionValue(args: seq<string>, index: nat, optionName: string): (r: Result<string, string>)
    ensures r.Ok? <==> index + 1 < |args| && args[index + 1] != "" && !StartsWithDash(args[index + 1])
    ensures r.Ok? ==> r.value == args[index + 1]
    ensures r.Err? ==> r.error == MissingValueError(optionName)
  {
    if index + 1 >= |args| then Err(MissingValueError(optionName))
    else
      var value := args[index + 1];
      if value == "" || StartsWithDash(value) then Err(MissingValueError(optionName))
      else Ok(value)
  }

  /** One iteration of a parser's `for` loop: continue at index `next` in a
      new scan state, or return `result` at once. */
  datatype Step<S, R> = Next(next: nat, state: S) | Stop(result: R)

  /** A whole loop: it ran off the end of the tokens in `state`, or it
      returned `result` early. */
  datatype LoopEnd<S, R> = Finished(state: S) | Early(result: R)
}
