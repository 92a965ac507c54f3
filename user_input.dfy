/**
 * The command-line decision of `getUserInput` (main.go): the output type
 * constants, the validated `userInput` record and the three guard checks.
 * The `flag` package, `os.Args` and `os.Stat` are not modelled; their results
 * are the inputs of `GetUserInput`.
 */
module UserInput {
  import opened Wrappers

  /** The `-t` value selecting one log line per output line; also its default. */
  const PlainText: string := "text"
  /** The `-t` value selecting a JSON array of strings. */
  const Json: string := "json"

  /** The validated run parameters. An empty `outputFilePath` means the console. */
  datatype UserInput = UserInput(logFilePath: string, outputType: string, outputFilePath: string)

  /** The three ways validation fails, each with the message `main` prints. */
  datatype InputError = LogFileRequired | InvalidOutputType | LogFileNotExist
  {
    function Message(): string
    {
      match this
      case LogFileRequired => "log file required"
      case InvalidOutputType => "invalid output type"
      case LogFileNotExist => "log file not exist"
    }
  }

  /**
   * What the command line holds once `flag.Parse` has run: the raw length of
   * `os.Args` (program name and flags included), the `-t` and `-o` values
   * when given, and the positional arguments left after the flags.
   */
  datatype CommandLine = CommandLine(
    rawArgCount: nat,
    typeFlag: Option<string>,
    outputFlag: Option<string>,
    positional: seq<string>)

  /** The outcome of `os.Stat` on a path: found, reported as not existing, or failed otherwise. */
  datatype StatResult = StatOk | StatNotExist | StatFailed

  /** `flag.Arg(i)`: the i-th positional argument, or "" when there is none. */
  function FlagArg(positional: seq<string>, i: nat): string
  {
    if i < |positional| then positional[i] else ""
  }

  /** A flag's value, or its default when the flag was not given. */
  function FlagValue(flag: Option<string>, default: string): string
  {
    match flag
    case Some(v) => v
    case None => default
  }

  /**
   * `getUserInput`: the argument count is checked first, then the output
   * type, then whether `os.Stat` reports the log file as not existing; only a
   * not-exist error fails the last check. On success the fields are the first
   * positional argument and the two flag values with their defaults.
   */
  function GetUserInput(cl: CommandLine, stat: string -> StatResult): (r: Result<UserInput, InputError>)
    ensures r == Failure(LogFileRequired) <==> cl.rawArgCount < 2
    ensures r == Failure(InvalidOutputType) <==>
      cl.rawArgCount >= 2 && FlagValue(cl.typeFlag, PlainText) !in {PlainText, Json}
    ensures r == Failure(LogFileNotExist) <==>
      cl.rawArgCount >= 2 && FlagValue(cl.typeFlag, PlainText) in {PlainText, Json}
      && stat(FlagArg(cl.positional, 0)) == StatNotExist
    ensures r.Success? ==>
      r.value.logFilePath == FlagArg(cl.positional, 0)
      && r.value.outputType == FlagValue(cl.typeFlag, PlainText)
      && r.value.outputFilePath == FlagValue(cl.outputFlag, "")
  {
    var outputType := FlagValue(cl.typeFlag, PlainText);
    var outputFilePath := FlagValue(cl.outputFlag, "");
    if cl.rawArgCount < 2 then Failure(LogFileRequired)
    else
      var logFilePath := FlagArg(cl.positional, 0);
      if !(outputType == PlainText || outputType == Json) then Failure(InvalidOutputType)
      else if stat(logFilePath) == StatNotExist then Failure(LogFileNotExist)
      else Success(UserInput(logFilePath, outputType, outputFilePath))
  }

  /** Whatever passes validation names one of the two output types the sinks know. */
  lemma AcceptedTypeIsKnown(cl: CommandLine, stat: string -> StatResult)
    requires GetUserInput(cl, stat).Success?
    ensures GetUserInput(cl, stat).value.outputType in {PlainText, Json}
    ensures stat(GetUserInput(cl, stat).value.logFilePath) != StatNotExist
  {
  }

  /** A path os.Stat reports as existing, as the temporary file of the tests is. */
  function TempFileOnly(tmp: string): string -> StatResult
  {
    p => if p == tmp then StatOk else StatNotExist
  }

  /** The cases of main_test.go, with `tmp` the temporary log file. */
  lemma TestCases(tmp: string)
    ensures GetUserInput(CommandLine(1, None, None, []), TempFileOnly(tmp)) == Failure(LogFileRequired)
    ensures GetUserInput(CommandLine(2, None, None, [tmp]), TempFileOnly(tmp))
      == Success(UserInput(tmp, PlainText, ""))
    ensures GetUserInput(CommandLine(3, Some("json"), None, [tmp]), TempFileOnly(tmp))
      == Success(UserInput(tmp, Json, ""))
    ensures GetUserInput(CommandLine(3, Some("invalid"), None, [tmp]), TempFileOnly(tmp))
      == Failure(InvalidOutputType)
    ensures GetUserInput(CommandLine(3, None, Some("dummy_log.txt"), [tmp]), TempFileOnly(tmp))
      == Success(UserInput(tmp, PlainText, "dummy_log.txt"))
    ensures GetUserInput(CommandLine(4, Some("json"), Some("dummy_log.json"), [tmp]), TempFileOnly(tmp))
      == Success(UserInput(tmp, Json, "dummy_log.json"))
  {
  }

  /**
   * The count check reads the raw argument count: flags alone pass it, and
   * the then empty log file path is left to the existence check.
   */
  lemma FlagsAlonePassCountCheck(stat: string -> StatResult)
    requires stat("") == StatNotExist
    ensures GetUserInput(CommandLine(2, Some("json"), None, []), stat) == Failure(LogFileNotExist)
  {
  }
}
