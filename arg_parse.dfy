/**
 * What `parseArgs` does, one argument at a time. The dispatcher walks `argv`
 * from index 1, classifies each argument by its first characters, updates the
 * launcher's settings, forwards some arguments to the Chapel program's own
 * argument vector and hands the rest to handlers that are not part of this
 * model. `Step` is one iteration of its loop, `Run` the whole loop.
 */
module ArgParse {
  import opened CTypes
  import opened ArgErrors
  import EnvVars

  /** A call into code outside this model, recorded in the order the dispatcher makes it. */
  datatype Call =
    | PossibleConfigVar(argIndex: nat)                     // handlePossibleConfigVar(argc, argv, i, ...)
    | NonstandardArg(argIndex: nat)                        // handleNonstandardArg(argc, argv, i, ...)
    | ConfigFile(filename: string)                         // parseConfigFile(filename, ...)
    | SetValue(name: string, value: string, origin: string) // initSetValue(name, value, origin, ...)

  /** The number of further arguments each handler consumes, as the handler decides. */
  datatype Handlers = Handlers(
    possibleConfigVar: (seq<CString>, nat) -> nat,
    nonstandardArg: (seq<CString>, nat) -> nat)

  /**
   * The process-wide state `parseArgs` writes: `verbosity`, `blockreport`,
   * `taskreport`, `gdbFlag`, the Chapel program's argument vector
   * (`chpl_gen_main_arg`), the environment and the log of outside calls.
   */
  datatype Settings = Settings(
    verbosity: int,
    blockReport: int,
    taskReport: int,
    gdbFlag: int,
    mainArgv: seq<CString>,
    env: EnvVars.Env,
    calls: seq<Call>)

  /** The settings together with the loop's locals `printHelp`, `printAbout` and `stop_parsing`. */
  datatype Scan = Scan(settings: Settings, printHelp: bool, printAbout: bool, stopParsing: bool)

  datatype StepResult = Next(index: nat, scan: Scan) | Stop(failure: Failure)

  datatype RunResult = Done(scan: Scan) | Failed(failure: Failure)

  /** What the launcher does after the loop. */
  datatype Exit = Proceed | ShowAbout | ShowHelp

  datatype ParseResult = Parsed(settings: Settings, exit: Exit) | Error(failure: Failure)

  function Forward(s: Scan, arg: CString): Scan
  {
    s.(settings := s.settings.(mainArgv := s.settings.mainArgv + [arg]))
  }

  function Record(s: Scan, c: Call): Scan
  {
    s.(settings := s.settings.(calls := s.settings.calls + [c]))
  }

  function WithVerbosity(s: Scan, v: int): Scan
  {
    s.(settings := s.settings.(verbosity := v))
  }

  /** Hands argument `i` to `handleNonstandardArg`; the loop then skips what it consumed. */
  function Nonstandard(argv: seq<CString>, h: Handlers, i: nat, s: Scan): StepResult
  {
    Next(i + 1 + h.nonstandardArg(argv, i), Record(s, NonstandardArg(i)))
  }

  /** Hands argument `i` to `handlePossibleConfigVar`; the loop then skips what it consumed. */
  function ConfigVar(argv: seq<CString>, h: Handlers, i: nat, s: Scan): StepResult
  {
    Next(i + 1 + h.possibleConfigVar(argv, i), Record(s, PossibleConfigVar(i)))
  }

  /** `defineEnvVar` on `assignment`, reported against argument `i`, continuing at `next`. */
  function DefineEnv(assignment: string, i: nat, next: nat, s: Scan): StepResult
  {
    match EnvVars.DefineEnvVar(s.settings.env, assignment)
    case Malformed => Stop(Failure(MalformedEnvAssignment, i))
    case Defined(e) => Next(next, s.(settings := s.settings.(env := e)))
  }

  /** An argument starting with `--`, not itself `--` when the program takes arguments. */
  function LongFlag(argv: seq<CString>, h: Handlers, i: nat, s: Scan): (r: StepResult)
    requires i < |argv| && |argv[i]| >= 2
    ensures r.Next? ==> r.index > i
    ensures r.Stop? ==> r.failure.lineno == i
  {
    var arg := argv[i];
    var flag := arg[2..];
    if flag == "gdb" then Next(i + 1, s.(settings := s.settings.(gdbFlag := i)))
    else if flag == "help" then Next(i + 1, Forward(s, "--help").(printHelp := true))
    else if flag == "about" then Next(i + 1, s.(printAbout := true))
    else if flag == "verbose" then Next(i + 1, WithVerbosity(s, 2))
    else if flag == "blockreport" then Next(i + 1, s.(settings := s.settings.(blockReport := 1)))
    else if flag == "taskreport" then Next(i + 1, s.(settings := s.settings.(taskReport := 1)))
    else if flag == "quiet" then Next(i + 1, WithVerbosity(s, 0))
    else if |arg| < 3 then Stop(Failure(InvalidArgument(arg), i))
    else ConfigVar(argv, h, i, s)
  }

  /** One iteration of the `parseArgs` loop on argument `i`. */
  function Step(argv: seq<CString>, mainHasArgs: bool, h: Handlers, i: nat, s: Scan): (r: StepResult)
    requires i < |argv|
    ensures r.Next? ==> r.index > i
    ensures r.Stop? ==> r.failure.lineno == i
  {
    var arg := argv[i];
    if mainHasArgs && (s.stopParsing || |arg| < 2) then Next(i + 1, Forward(s, arg))
    else if mainHasArgs && arg == "--" then Next(i + 1, s.(stopParsing := true))
    else if |arg| < 2 then Stop(Failure(InvalidArgument(arg), i))
    else if arg[0] != '-' then Nonstandard(argv, h, i, s)
    else if arg[1] == '-' then LongFlag(argv, h, i, s)
    else ShortFlag(argv, h, i, s)
  }

  /** An argument of two or more characters that starts with `-` and a letter. */
  function ShortFlag(argv: seq<CString>, h: Handlers, i: nat, s: Scan): (r: StepResult)
    requires i < |argv| && |argv[i]| >= 2
    ensures r.Next? ==> r.index > i
    ensures r.Stop? ==> r.failure.lineno == i
  {
    var arg := argv[i];
    match arg[1]
    case 'a' =>
      if |arg| == 2 then Next(i + 1, s.(printAbout := true)) else Nonstandard(argv, h, i, s)
    case 'b' =>
      if |arg| == 2 then Next(i + 1, s.(settings := s.settings.(blockReport := 1)))
      else Nonstandard(argv, h, i, s)
    case 'E' =>
      if |arg| == 2 then
        if i + 1 >= |argv| then Stop(Failure(MissingValue(EnvFlag), i))
        else DefineEnv(argv[i + 1], i, i + 2, s)
      else DefineEnv(arg[2..], i, i + 1, s)
    case 'f' =>
      if |arg| == 2 then
        if i + 1 >= |argv| then Stop(Failure(MissingValue(ConfigFileFlag), i))
        else Next(i + 2, Record(s, ConfigFile(argv[i + 1])))
      else Next(i + 1, Record(s, ConfigFile(arg[2..])))
    case 'h' =>
      if |arg| == 2 then Next(i + 1, Forward(s, "-h").(printHelp := true))
      else Nonstandard(argv, h, i, s)
    case 'n' =>
      if |arg| >= 3 && arg[2] == 'l' then
        if |arg| == 3 then
          if i + 1 >= |argv| then Stop(Failure(MissingValue(NumLocalesFlag), i))
          else Next(i + 2, Record(s, SetValue("numLocales", argv[i + 1], "Built-in")))
        else Next(i + 1, Record(s, SetValue("numLocales", arg[3..], "Built-in")))
      else Nonstandard(argv, h, i, s)
    case 'q' =>
      if |arg| == 2 then Next(i + 1, WithVerbosity(s, 0)) else Nonstandard(argv, h, i, s)
    case 's' =>
      if |arg| < 3 then Stop(Failure(InvalidArgument(arg), i)) else ConfigVar(argv, h, i, s)
    case 't' =>
      if |arg| == 2 then Next(i + 1, s.(settings := s.settings.(taskReport := 1)))
      else Nonstandard(argv, h, i, s)
    case 'v' =>
      if |arg| == 2 then Next(i + 1, WithVerbosity(s, 2)) else Nonstandard(argv, h, i, s)
    case _ => Nonstandard(argv, h, i, s)
  }

  /** The loop from argument `i` on: it stops at the first failure or when the index passes the end. */
  function Run(argv: seq<CString>, mainHasArgs: bool, h: Handlers, i: nat, s: Scan): (r: RunResult)
    ensures r.Failed? ==> i <= r.failure.lineno < |argv|
    decreases |argv| - i
  {
    if i >= |argv| then Done(s)
    else match Step(argv, mainHasArgs, h, i, s)
      case Stop(f) => Failed(f)
      case Next(j, t) => Run(argv, mainHasArgs, h, j, t)
  }

  /** After the loop: `--about` wins, and `--help` ends the launcher only when the program takes no arguments. */
  function FinalAction(mainHasArgs: bool, s: Scan): (r: Exit)
    ensures s.printAbout ==> r == ShowAbout
    ensures mainHasArgs ==> r != ShowHelp
    ensures !s.printAbout && !s.printHelp ==> r == Proceed
  {
    if s.printAbout then ShowAbout
    else if s.printHelp && !mainHasArgs then ShowHelp
    else Proceed
  }

  /** `parseArgs` on the whole argument vector, starting from the given settings. */
  function ParseArgs(argv: seq<CString>, mainHasArgs: bool, h: Handlers, g: Settings): (r: ParseResult)
    ensures |argv| <= 1 ==> r == Parsed(g, Proceed)
    ensures r.Error? ==> 1 <= r.failure.lineno < |argv|
  {
    match Run(argv, mainHasArgs, h, 1, Scan(g, false, false, false))
    case Failed(f) => Error(f)
    case Done(s) => Parsed(s.settings, FinalAction(mainHasArgs, s))
  }
}
