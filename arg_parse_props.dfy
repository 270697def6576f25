/** Properties of the `parseArgs` loop, stated against independent descriptions of each flag. */
module ArgParseProperties {
  import opened CTypes
  import opened ArgErrors
  import opened ArgParse

  /** The loop is not in pass-through mode for this argument. */
  predicate Interprets(mainHasArgs: bool, s: Scan)
  {
    !(mainHasArgs && s.stopParsing)
  }

  /** The flags that are recognised only when written exactly, and what each one does. */
  function ExactFlagEffect(arg: string, i: nat, s: Scan): Option<Scan>
  {
    match arg
    case "-h" => Some(Forward(s, "-h").(printHelp := true))
    case "--help" => Some(Forward(s, "--help").(printHelp := true))
    case "-a" => Some(s.(printAbout := true))
    case "--about" => Some(s.(printAbout := true))
    case "-b" => Some(s.(settings := s.settings.(blockReport := 1)))
    case "--blockreport" => Some(s.(settings := s.settings.(blockReport := 1)))
    case "-t" => Some(s.(settings := s.settings.(taskReport := 1)))
    case "--taskreport" => Some(s.(settings := s.settings.(taskReport := 1)))
    case "-v" => Some(WithVerbosity(s, 2))
    case "--verbose" => Some(WithVerbosity(s, 2))
    case "-q" => Some(WithVerbosity(s, 0))
    case "--quiet" => Some(WithVerbosity(s, 0))
    case "--gdb" => Some(s.(settings := s.settings.(gdbFlag := i)))
    case _ => None
  }

  /** An exact flag does what its table entry says, consumes nothing more and touches nothing else. */
  lemma ExactFlagsActAlone(argv: seq<CString>, mainHasArgs: bool, h: Handlers, i: nat, s: Scan)
    requires i < |argv| && Interprets(mainHasArgs, s)
    requires ExactFlagEffect(argv[i], i, s).Some?
    ensures Step(argv, mainHasArgs, h, i, s) == Next(i + 1, ExactFlagEffect(argv[i], i, s).value)
  {
    var arg := argv[i];
    assert |arg| >= 2 && arg[0] == '-';
    if arg[1] == '-' {
      assert arg[2..] in {"help", "about", "blockreport", "taskreport", "verbose", "quiet", "gdb"};
    } else {
      assert |arg| == 2;
    }
  }

  /** Of all the exact flags only `-h` and `--help` forward anything: exactly one argument, the flag itself. */
  lemma ExactFlagForwarding(arg: string, i: nat, s: Scan)
    requires ExactFlagEffect(arg, i, s).Some?
    ensures var t := ExactFlagEffect(arg, i, s).value;
      t.settings.mainArgv == s.settings.mainArgv + (if arg == "-h" || arg == "--help" then [arg] else [])
      && (t.printHelp <==> s.printHelp || arg == "-h" || arg == "--help")
      && (t.printAbout <==> s.printAbout || arg == "-a" || arg == "--about")
      && t.stopParsing == s.stopParsing
      && t.settings.calls == s.settings.calls && t.settings.env == s.settings.env
  {
  }

  /** Once `--` has been seen, every remaining argument is forwarded verbatim and in order, and nothing else changes. */
  lemma {:induction false} PassThroughForwardsRest(argv: seq<CString>, mainHasArgs: bool, h: Handlers, i: nat, s: Scan)
    requires mainHasArgs && s.stopParsing && i <= |argv|
    ensures Run(argv, mainHasArgs, h, i, s)
         == Done(s.(settings := s.settings.(mainArgv := s.settings.mainArgv + argv[i..])))
    decreases |argv| - i
  {
    if i < |argv| {
      var t := Forward(s, argv[i]);
      assert Step(argv, mainHasArgs, h, i, s) == Next(i + 1, t);
      PassThroughForwardsRest(argv, mainHasArgs, h, i + 1, t);
      assert s.settings.mainArgv + argv[i..] == t.settings.mainArgv + argv[i + 1..];
    }
  }

  /** When the program takes arguments, `--` is dropped, switches pass-through on and forwards all later arguments. */
  lemma DashDashStartsPassThrough(argv: seq<CString>, mainHasArgs: bool, h: Handlers, i: nat, s: Scan)
    requires mainHasArgs && i < |argv| && argv[i] == "--" && !s.stopParsing
    ensures Step(argv, mainHasArgs, h, i, s) == Next(i + 1, s.(stopParsing := true))
    ensures Run(argv, mainHasArgs, h, i, s)
         == Done(s.(stopParsing := true).(settings := s.settings.(mainArgv := s.settings.mainArgv + argv[i + 1..])))
  {
    PassThroughForwardsRest(argv, mainHasArgs, h, i + 1, s.(stopParsing := true));
  }

  /** When the program takes no arguments, a bare `--` is an invalid argument. */
  lemma BareDashDashIsError(argv: seq<CString>, h: Handlers, i: nat, s: Scan)
    requires i < |argv| && argv[i] == "--"
    ensures Step(argv, false, h, i, s) == Stop(Failure(InvalidArgument("--"), i))
  {
  }

  /** An argument shorter than two characters is forwarded when the program takes arguments and an error otherwise. */
  lemma ShortArgument(argv: seq<CString>, mainHasArgs: bool, h: Handlers, i: nat, s: Scan)
    requires i < |argv| && |argv[i]| < 2
    ensures mainHasArgs ==> Step(argv, mainHasArgs, h, i, s) == Next(i + 1, Forward(s, argv[i]))
    ensures !mainHasArgs ==> Step(argv, mainHasArgs, h, i, s) == Stop(Failure(InvalidArgument(argv[i]), i))
  {
  }

  /** The long flags the dispatcher itself knows. */
  const KnownLongFlags: set<string> := {"gdb", "help", "about", "verbose", "blockreport", "taskreport", "quiet"}

  /** `--name` for any other non-empty name goes to the config-var handler, which decides how much it consumes. */
  lemma UnknownLongFlagIsConfigVar(argv: seq<CString>, mainHasArgs: bool, h: Handlers, i: nat, s: Scan)
    requires i < |argv| && Interprets(mainHasArgs, s)
    requires |argv[i]| >= 3 && argv[i][..2] == "--" && argv[i][2..] !in KnownLongFlags
    ensures Step(argv, mainHasArgs, h, i, s)
         == Next(i + 1 + h.possibleConfigVar(argv, i), Record(s, PossibleConfigVar(i)))
  {
    assert argv[i][0] == '-' && argv[i][1] == '-';
  }

  /** `-s<name>=<value>` also goes to the config-var handler; a bare `-s` is invalid. */
  lemma ShortConfigVar(argv: seq<CString>, mainHasArgs: bool, h: Handlers, i: nat, s: Scan)
    requires i < |argv| && Interprets(mainHasArgs, s)
    requires |argv[i]| >= 2 && argv[i][..2] == "-s"
    ensures |argv[i]| == 2 ==> Step(argv, mainHasArgs, h, i, s) == Stop(Failure(InvalidArgument("-s"), i))
    ensures |argv[i]| > 2 ==>
      Step(argv, mainHasArgs, h, i, s) == Next(i + 1 + h.possibleConfigVar(argv, i), Record(s, PossibleConfigVar(i)))
  {
    assert argv[i][0] == '-' && argv[i][1] == 's';
    assert |argv[i]| == 2 ==> argv[i] == "-s";
  }

  /** An argument of two or more characters that does not start with `-` goes to the non-standard handler. */
  lemma NonDashIsNonstandard(argv: seq<CString>, mainHasArgs: bool, h: Handlers, i: nat, s: Scan)
    requires i < |argv| && Interprets(mainHasArgs, s)
    requires |argv[i]| >= 2 && argv[i][0] != '-'
    ensures Step(argv, mainHasArgs, h, i, s)
         == Next(i + 1 + h.nonstandardArg(argv, i), Record(s, NonstandardArg(i)))
  {
  }

  /** The flag letters a value flag is written with. */
  function ValuePrefix(f: ValueFlag): CString
  {
    match f
    case EnvFlag => "-E"
    case ConfigFileFlag => "-f"
    case NumLocalesFlag => "-nl"
  }

  /** What a value flag does with its value, reporting against argument `i` and continuing at `next`. */
  function TakeValue(f: ValueFlag, value: string, i: nat, next: nat, s: Scan): StepResult
  {
    match f
    case EnvFlag => DefineEnv(value, i, next, s)
    case ConfigFileFlag => Next(next, Record(s, ConfigFile(value)))
    case NumLocalesFlag => Next(next, Record(s, SetValue("numLocales", value, "Built-in")))
  }

  /** A value flag written alone takes the next argument as its value, and fails naming itself when there is none. */
  lemma ValueFlagTakesNext(argv: seq<CString>, mainHasArgs: bool, h: Handlers, i: nat, s: Scan, f: ValueFlag)
    requires i < |argv| && Interprets(mainHasArgs, s) && argv[i] == ValuePrefix(f)
    ensures i + 1 >= |argv| ==> Step(argv, mainHasArgs, h, i, s) == Stop(Failure(MissingValue(f), i))
    ensures i + 1 < |argv| ==> Step(argv, mainHasArgs, h, i, s) == TakeValue(f, argv[i + 1], i, i + 2, s)
  {
  }

  /** A value flag with the value attached uses the rest of the argument after the flag letters. */
  lemma ValueFlagAttached(argv: seq<CString>, mainHasArgs: bool, h: Handlers, i: nat, s: Scan, f: ValueFlag)
    requires i < |argv| && Interprets(mainHasArgs, s)
    requires var p := ValuePrefix(f); |argv[i]| > |p| && argv[i][..|p|] == p
    ensures Step(argv, mainHasArgs, h, i, s) == TakeValue(f, argv[i][|ValuePrefix(f)|..], i, i + 1, s)
  {
    var arg := argv[i];
    assert arg[0] == '-' && arg[1] == ValuePrefix(f)[1];
    if f == NumLocalesFlag {
      assert arg[2] == 'l';
    }
  }

  /** A verbosity flag overrides whatever verbosity an earlier argument set. */
  lemma VerbosityFlagOverrides(argv: seq<CString>, mainHasArgs: bool, h: Handlers, i: nat, s: Scan, w: int)
    requires i < |argv| && Interprets(mainHasArgs, s)
    requires argv[i] in {"-v", "--verbose", "-q", "--quiet"}
    ensures Run(argv, mainHasArgs, h, i, WithVerbosity(s, w)) == Run(argv, mainHasArgs, h, i, s)
  {
    ExactFlagsActAlone(argv, mainHasArgs, h, i, s);
    ExactFlagsActAlone(argv, mainHasArgs, h, i, WithVerbosity(s, w));
  }

  /** `--name` never reads the verbosity: it either overwrites it or carries it along unchanged. */
  lemma LongFlagIgnoresVerbosity(argv: seq<CString>, h: Handlers, i: nat, s: Scan, w: int)
    requires i < |argv| && |argv[i]| >= 2
    ensures var r, r' := LongFlag(argv, h, i, s), LongFlag(argv, h, i, WithVerbosity(s, w));
      r' == r || (r.Next? && r.scan.settings.verbosity == s.settings.verbosity && r' == Next(r.index, WithVerbosity(r.scan, w)))
  {
    var flag := argv[i][2..];
    if flag == "verbose" || flag == "quiet" {
    } else if flag in {"gdb", "help", "about", "blockreport", "taskreport"} {
    } else {
    }
  }

  /** `-x` flags never read the verbosity: they either overwrite it or carry it along unchanged. */
  lemma ShortFlagIgnoresVerbosity(argv: seq<CString>, h: Handlers, i: nat, s: Scan, w: int)
    requires i < |argv| && |argv[i]| >= 2
    ensures var r, r' := ShortFlag(argv, h, i, s), ShortFlag(argv, h, i, WithVerbosity(s, w));
      r' == r || (r.Next? && r.scan.settings.verbosity == s.settings.verbosity && r' == Next(r.index, WithVerbosity(r.scan, w)))
  {
    var arg, s' := argv[i], WithVerbosity(s, w);
    match arg[1]
    case 'E' =>
      var value := if |arg| == 2 then (if i + 1 < |argv| then argv[i + 1] else "") else arg[2..];
      assert EnvVars.DefineEnvVar(s'.settings.env, value) == EnvVars.DefineEnvVar(s.settings.env, value);
    case 'q' =>
    case 'v' =>
    case 'f' =>
    case 'n' =>
    case 's' =>
    case 'a' =>
    case 'b' =>
    case 'h' =>
    case 't' =>
    case _ =>
      assert ShortFlag(argv, h, i, s) == Nonstandard(argv, h, i, s);
      assert ShortFlag(argv, h, i, s') == Nonstandard(argv, h, i, s');
  }

  /** One step never reads the verbosity: it either overwrites it or carries it along unchanged. */
  lemma StepIgnoresVerbosity(argv: seq<CString>, mainHasArgs: bool, h: Handlers, i: nat, s: Scan, w: int)
    requires i < |argv|
    ensures var r, r' := Step(argv, mainHasArgs, h, i, s), Step(argv, mainHasArgs, h, i, WithVerbosity(s, w));
      r' == r || (r.Next? && r.scan.settings.verbosity == s.settings.verbosity && r' == Next(r.index, WithVerbosity(r.scan, w)))
  {
    var arg := argv[i];
    if mainHasArgs && (s.stopParsing || |arg| < 2) {
    } else if mainHasArgs && arg == "--" {
    } else if |arg| < 2 || arg[0] != '-' {
    } else if arg[1] == '-' {
      LongFlagIgnoresVerbosity(argv, h, i, s, w);
    } else {
      ShortFlagIgnoresVerbosity(argv, h, i, s, w);
    }
  }

  /**
   * The last verbosity flag decides: the verbosity the loop starts with either
   * makes no difference at all, or no argument set it and it is the final value.
   */
  lemma {:induction false} InitialVerbosityOnlySurvives(argv: seq<CString>, mainHasArgs: bool, h: Handlers, i: nat, s: Scan, w: int)
    ensures var r, r' := Run(argv, mainHasArgs, h, i, s), Run(argv, mainHasArgs, h, i, WithVerbosity(s, w));
      r' == r || (r.Done? && r.scan.settings.verbosity == s.settings.verbosity && r' == Done(WithVerbosity(r.scan, w)))
    decreases |argv| - i
  {
    if i < |argv| {
      StepIgnoresVerbosity(argv, mainHasArgs, h, i, s, w);
      var r := Step(argv, mainHasArgs, h, i, s);
      if r.Next? && Step(argv, mainHasArgs, h, i, WithVerbosity(s, w)) != r {
        InitialVerbosityOnlySurvives(argv, mainHasArgs, h, r.index, r.scan, w);
      }
    }
  }

  /** One step forwards at most the argument it reads, or the literal `--help`; without program arguments only `-h` or `--help`. */
  lemma StepForwarding(argv: seq<CString>, mainHasArgs: bool, h: Handlers, i: nat, s: Scan)
    requires i < |argv| && Step(argv, mainHasArgs, h, i, s).Next?
    ensures var t := Step(argv, mainHasArgs, h, i, s).scan.settings.mainArgv;
      || t == s.settings.mainArgv
      || t == s.settings.mainArgv + ["--help"]
      || (t == s.settings.mainArgv + [argv[i]] && (mainHasArgs || argv[i] == "-h"))
  {
    var arg := argv[i];
    if mainHasArgs && (s.stopParsing || |arg| < 2) {
    } else if mainHasArgs && arg == "--" {
    } else if |arg| < 2 || arg[0] != '-' {
    } else if arg[1] == '-' {
      LongFlagForwarding(argv, h, i, s);
    } else {
      ShortFlagForwarding(argv, h, i, s);
    }
  }

  /** A `--` flag forwards nothing except `--help`, which forwards the literal `--help`. */
  lemma LongFlagForwarding(argv: seq<CString>, h: Handlers, i: nat, s: Scan)
    requires i < |argv| && |argv[i]| >= 2
    ensures var r := LongFlag(argv, h, i, s);
      r.Next? ==> r.scan.settings.mainArgv in {s.settings.mainArgv, s.settings.mainArgv + ["--help"]}
  {
  }

  /** A `-x` flag forwards nothing except `-h`, which forwards itself. */
  lemma ShortFlagForwarding(argv: seq<CString>, h: Handlers, i: nat, s: Scan)
    requires i < |argv| && |argv[i]| >= 2 && argv[i][0] == '-'
    ensures var r := ShortFlag(argv, h, i, s);
      r.Next? ==>
        || r.scan.settings.mainArgv == s.settings.mainArgv
        || (r.scan.settings.mainArgv == s.settings.mainArgv + [argv[i]] && argv[i] == "-h")
  {
    var arg := argv[i];
    if arg[1] == 'h' && |arg| == 2 {
      assert arg == [arg[0], arg[1]] == "-h";
    } else if arg[1] == 'E' {
      var value := if |arg| == 2 then (if i + 1 < |argv| then argv[i + 1] else "") else arg[2..];
      if EnvVars.DefineEnvVar(s.settings.env, value).Defined? {
      }
    }
  }

  /** `x` is one of the arguments from index `i` on. */
  ghost predicate FromArgv(argv: seq<CString>, i: nat, x: CString)
  {
    exists k :: i <= k < |argv| && argv[k] == x
  }

  /**
   * The program's argument vector only grows, by arguments taken from `argv`
   * from index `i` on or the literal `--help`; when the program takes no
   * arguments, by nothing but `-h` and `--help`.
   */
  lemma {:induction false} ForwardedComeFromArgv(argv: seq<CString>, mainHasArgs: bool, h: Handlers, i: nat, s: Scan)
    requires Run(argv, mainHasArgs, h, i, s).Done?
    ensures var old_ := s.settings.mainArgv;
      var t := Run(argv, mainHasArgs, h, i, s).scan.settings.mainArgv;
      && |old_| <= |t| && t[..|old_|] == old_
      && (forall x :: x in t[|old_|..] ==> x == "--help" || FromArgv(argv, i, x))
      && (!mainHasArgs ==> forall x :: x in t[|old_|..] ==> x == "-h" || x == "--help")
    decreases |argv| - i
  {
    if i < |argv| {
      var r := Step(argv, mainHasArgs, h, i, s);
      StepForwarding(argv, mainHasArgs, h, i, s);
      var j, u := r.index, r.scan;
      ForwardedComeFromArgv(argv, mainHasArgs, h, j, u);
      var m0, m1 := s.settings.mainArgv, u.settings.mainArgv;
      var t := Run(argv, mainHasArgs, h, j, u).scan.settings.mainArgv;
      assert t[|m0|..] == m1[|m0|..] + t[|m1|..];
      assert forall x :: x in m1[|m0|..] ==> x == "--help" || argv[i] == x;
    }
  }

  /** The loop, started at index `i` in state `s`, runs the iteration for index `k` in state `t`. */
  ghost predicate Visits(argv: seq<CString>, mainHasArgs: bool, h: Handlers, i: nat, s: Scan, k: nat, t: Scan)
    decreases |argv| - i
  {
    && i < |argv|
    && ((k == i && t == s)
        || (Step(argv, mainHasArgs, h, i, s).Next?
            && Visits(argv, mainHasArgs, h, Step(argv, mainHasArgs, h, i, s).index, Step(argv, mainHasArgs, h, i, s).scan, k, t)))
  }

  /** The iterations visited from `i` are the one at `i` and those visited from where it continues. */
  lemma VisitsUnfold(argv: seq<CString>, mainHasArgs: bool, h: Handlers, i: nat, s: Scan)
    requires i < |argv| && Step(argv, mainHasArgs, h, i, s).Next?
    ensures var r := Step(argv, mainHasArgs, h, i, s);
      forall k, t :: Visits(argv, mainHasArgs, h, i, s, k, t) <==>
        (k == i && t == s) || Visits(argv, mainHasArgs, h, r.index, r.scan, k, t)
  {
  }

  /** Only indices of `argv` from `i` on are visited. */
  lemma {:induction false} VisitsBounds(argv: seq<CString>, mainHasArgs: bool, h: Handlers, i: nat, s: Scan, k: nat, t: Scan)
    requires Visits(argv, mainHasArgs, h, i, s, k, t)
    ensures i <= k < |argv|
    decreases |argv| - i
  {
    if !(k == i && t == s) {
      var r := Step(argv, mainHasArgs, h, i, s);
      VisitsBounds(argv, mainHasArgs, h, r.index, r.scan, k, t);
    }
  }

  /** From a visited iteration on, the loop ends as it does from the start. */
  lemma {:induction false} VisitsRun(argv: seq<CString>, mainHasArgs: bool, h: Handlers, i: nat, s: Scan, k: nat, t: Scan)
    requires Visits(argv, mainHasArgs, h, i, s, k, t)
    ensures Run(argv, mainHasArgs, h, i, s) == Run(argv, mainHasArgs, h, k, t)
    decreases |argv| - i
  {
    if !(k == i && t == s) {
      var r := Step(argv, mainHasArgs, h, i, s);
      VisitsRun(argv, mainHasArgs, h, r.index, r.scan, k, t);
    }
  }

  /** What is visited after a visited iteration is visited from the start too. */
  lemma {:induction false} VisitsTrans(argv: seq<CString>, mainHasArgs: bool, h: Handlers, i: nat, s: Scan,
                                       j: nat, u: Scan, k: nat, t: Scan)
    requires Visits(argv, mainHasArgs, h, i, s, j, u) && j < |argv| && Step(argv, mainHasArgs, h, j, u).Next?
    requires Visits(argv, mainHasArgs, h, Step(argv, mainHasArgs, h, j, u).index, Step(argv, mainHasArgs, h, j, u).scan, k, t)
    ensures Visits(argv, mainHasArgs, h, i, s, k, t)
    decreases |argv| - i
  {
    if !(j == i && u == s) {
      var r := Step(argv, mainHasArgs, h, i, s);
      VisitsTrans(argv, mainHasArgs, h, r.index, r.scan, j, u, k, t);
    }
  }

  /** The iteration for index `k` in state `t` reads an interpreted `-a` or `--about`. */
  predicate AboutAt(argv: seq<CString>, mainHasArgs: bool, k: nat, t: Scan)
  {
    k < |argv| && Interprets(mainHasArgs, t) && argv[k] in {"-a", "--about"}
  }

  /** The iteration for index `k` in state `t` reads an interpreted `-h` or `--help`. */
  predicate HelpAt(argv: seq<CString>, mainHasArgs: bool, k: nat, t: Scan)
  {
    k < |argv| && Interprets(mainHasArgs, t) && argv[k] in {"-h", "--help"}
  }

  /** The iteration for index `k` in state `t` reads an interpreted verbosity flag. */
  predicate VerbosityFlagAt(argv: seq<CString>, mainHasArgs: bool, k: nat, t: Scan)
  {
    k < |argv| && Interprets(mainHasArgs, t) && argv[k] in {"-v", "--verbose", "-q", "--quiet"}
  }

  /** The verbosity a verbosity flag sets. */
  function FlagVerbosity(arg: string): int
  {
    if arg in {"-v", "--verbose"} then 2 else 0
  }

  /** An argument starting with `--` is `--name` exactly when the text after the dashes is `name`. */
  lemma LongName(arg: string, name: string)
    requires |arg| >= 2 && arg[0] == '-' && arg[1] == '-'
    ensures arg == "--" + name <==> arg[2..] == name
  {
    assert arg == "--" + arg[2..];
  }

  /** Among the `--` flags only `--about` sets about, only `--help` sets help, and only `--verbose` and `--quiet` touch the verbosity. */
  lemma LongFlagSwitches(argv: seq<CString>, h: Handlers, i: nat, s: Scan)
    requires i < |argv| && |argv[i]| >= 2 && argv[i][0] == '-' && argv[i][1] == '-'
    ensures var r, arg := LongFlag(argv, h, i, s), argv[i];
      r.Next? ==>
        && (r.scan.printAbout <==> s.printAbout || arg == "--about")
        && (r.scan.printHelp <==> s.printHelp || arg == "--help")
        && (arg !in {"--verbose", "--quiet"} ==> r.scan.settings.verbosity == s.settings.verbosity)
  {
    var arg, flag := argv[i], argv[i][2..];
    LongName(arg, "about");
    LongName(arg, "help");
    LongName(arg, "verbose");
    LongName(arg, "quiet");
    assert "--" + "verbose" == "--verbose" && "--" + "quiet" == "--quiet";
    if flag in {"gdb", "help", "about", "verbose", "blockreport", "taskreport", "quiet"} {
    } else if |arg| < 3 {
    } else {
      assert LongFlag(argv, h, i, s) == ConfigVar(argv, h, i, s);
    }
  }

  /** Among the `-x` flags only `-a` sets about, only `-h` sets help, and only `-v` and `-q` touch the verbosity. */
  lemma ShortFlagSwitches(argv: seq<CString>, h: Handlers, i: nat, s: Scan)
    requires i < |argv| && |argv[i]| >= 2 && argv[i][0] == '-' && argv[i][1] != '-'
    ensures var r, arg := ShortFlag(argv, h, i, s), argv[i];
      r.Next? ==>
        && (r.scan.printAbout <==> s.printAbout || arg == "-a")
        && (r.scan.printHelp <==> s.printHelp || arg == "-h")
        && (arg !in {"-v", "-q"} ==> r.scan.settings.verbosity == s.settings.verbosity)
  {
    var arg := argv[i];
    assert |arg| == 2 ==> arg == [arg[0], arg[1]];
    match arg[1]
    case 'E' =>
      var value := if |arg| == 2 then (if i + 1 < |argv| then argv[i + 1] else "") else arg[2..];
      if EnvVars.DefineEnvVar(s.settings.env, value).Defined? {
      }
    case 'q' =>
    case 'v' =>
    case 'f' =>
    case 'n' =>
    case 's' =>
    case 'a' =>
    case 'b' =>
    case 'h' =>
    case 't' =>
    case _ =>
      assert ShortFlag(argv, h, i, s) == Nonstandard(argv, h, i, s);
  }

  /**
   * One iteration sets about only on `-a`/`--about`, help only on
   * `-h`/`--help`, and leaves the verbosity alone unless it reads a verbosity flag.
   */
  lemma StepSwitches(argv: seq<CString>, mainHasArgs: bool, h: Handlers, i: nat, s: Scan)
    requires i < |argv| && Step(argv, mainHasArgs, h, i, s).Next?
    ensures var r := Step(argv, mainHasArgs, h, i, s);
      && (r.scan.printAbout <==> s.printAbout || AboutAt(argv, mainHasArgs, i, s))
      && (r.scan.printHelp <==> s.printHelp || HelpAt(argv, mainHasArgs, i, s))
      && (!VerbosityFlagAt(argv, mainHasArgs, i, s) ==> r.scan.settings.verbosity == s.settings.verbosity)
  {
    var arg := argv[i];
    if mainHasArgs && (s.stopParsing || |arg| < 2) {
    } else if mainHasArgs && arg == "--" {
    } else if |arg| < 2 || arg[0] != '-' {
    } else if arg[1] == '-' {
      LongFlagSwitches(argv, h, i, s);
    } else {
      ShortFlagSwitches(argv, h, i, s);
    }
  }

  /**
   * About and help are set at the end exactly when they were set at the start
   * or some visited iteration read an interpreted `-a`/`--about`, respectively `-h`/`--help`.
   */
  lemma {:induction false} AboutAndHelpComeFromFlags(argv: seq<CString>, mainHasArgs: bool, h: Handlers, i: nat, s: Scan)
    requires Run(argv, mainHasArgs, h, i, s).Done?
    ensures var e := Run(argv, mainHasArgs, h, i, s).scan;
      && (e.printAbout <==> s.printAbout || exists k, t :: Visits(argv, mainHasArgs, h, i, s, k, t) && AboutAt(argv, mainHasArgs, k, t))
      && (e.printHelp <==> s.printHelp || exists k, t :: Visits(argv, mainHasArgs, h, i, s, k, t) && HelpAt(argv, mainHasArgs, k, t))
    decreases |argv| - i
  {
    if i < |argv| {
      var r := Step(argv, mainHasArgs, h, i, s);
      StepSwitches(argv, mainHasArgs, h, i, s);
      AboutAndHelpComeFromFlags(argv, mainHasArgs, h, r.index, r.scan);
      VisitsUnfold(argv, mainHasArgs, h, i, s);
      assert Visits(argv, mainHasArgs, h, i, s, i, s);
    }
  }

  /** Without a visited verbosity flag the loop ends with the verbosity it started with. */
  lemma {:induction false} NoVerbosityFlagKeeps(argv: seq<CString>, mainHasArgs: bool, h: Handlers, i: nat, s: Scan)
    requires Run(argv, mainHasArgs, h, i, s).Done?
    requires forall k, t :: Visits(argv, mainHasArgs, h, i, s, k, t) ==> !VerbosityFlagAt(argv, mainHasArgs, k, t)
    ensures Run(argv, mainHasArgs, h, i, s).scan.settings.verbosity == s.settings.verbosity
    decreases |argv| - i
  {
    if i < |argv| {
      var r := Step(argv, mainHasArgs, h, i, s);
      assert Visits(argv, mainHasArgs, h, i, s, i, s);
      StepSwitches(argv, mainHasArgs, h, i, s);
      VisitsUnfold(argv, mainHasArgs, h, i, s);
      NoVerbosityFlagKeeps(argv, mainHasArgs, h, r.index, r.scan);
    }
  }

  /** A verbosity flag sets the verbosity it names and consumes only itself. */
  lemma VerbosityFlagStep(argv: seq<CString>, mainHasArgs: bool, h: Handlers, k: nat, t: Scan)
    requires VerbosityFlagAt(argv, mainHasArgs, k, t)
    ensures Step(argv, mainHasArgs, h, k, t) == Next(k + 1, WithVerbosity(t, FlagVerbosity(argv[k])))
  {
    ExactFlagsActAlone(argv, mainHasArgs, h, k, t);
  }

  /** The last visited verbosity flag decides the final verbosity: 2 for `-v`/`--verbose`, 0 for `-q`/`--quiet`. */
  lemma LastVerbosityFlagWins(argv: seq<CString>, mainHasArgs: bool, h: Handlers, i: nat, s: Scan, k: nat, t: Scan)
    requires Run(argv, mainHasArgs, h, i, s).Done?
    requires Visits(argv, mainHasArgs, h, i, s, k, t) && VerbosityFlagAt(argv, mainHasArgs, k, t)
    requires forall k', t' :: Visits(argv, mainHasArgs, h, i, s, k', t') && k < k' ==> !VerbosityFlagAt(argv, mainHasArgs, k', t')
    ensures Run(argv, mainHasArgs, h, i, s).scan.settings.verbosity == FlagVerbosity(argv[k])
  {
    VisitsRun(argv, mainHasArgs, h, i, s, k, t);
    VerbosityFlagStep(argv, mainHasArgs, h, k, t);
    var u := WithVerbosity(t, FlagVerbosity(argv[k]));
    forall k', t' | Visits(argv, mainHasArgs, h, k + 1, u, k', t')
      ensures !VerbosityFlagAt(argv, mainHasArgs, k', t')
    {
      VisitsTrans(argv, mainHasArgs, h, i, s, k, t, k', t');
      VisitsBounds(argv, mainHasArgs, h, k + 1, u, k', t');
    }
    NoVerbosityFlagKeeps(argv, mainHasArgs, h, k + 1, u);
  }

  /** Every failure is reported by an iteration the loop visited, against the index that iteration read. */
  lemma {:induction false} FailureNamesAnArgument(argv: seq<CString>, mainHasArgs: bool, h: Handlers, i: nat, s: Scan)
    requires Run(argv, mainHasArgs, h, i, s).Failed?
    ensures var f := Run(argv, mainHasArgs, h, i, s).failure;
      && i <= f.lineno < |argv|
      && exists t :: Visits(argv, mainHasArgs, h, i, s, f.lineno, t) && Step(argv, mainHasArgs, h, f.lineno, t) == Stop(f)
    decreases |argv| - i
  {
    var r := Step(argv, mainHasArgs, h, i, s);
    if r.Next? {
      FailureNamesAnArgument(argv, mainHasArgs, h, r.index, r.scan);
      var f := Run(argv, mainHasArgs, h, i, s).failure;
      var t :| Visits(argv, mainHasArgs, h, r.index, r.scan, f.lineno, t) && Step(argv, mainHasArgs, h, f.lineno, t) == Stop(f);
      assert Visits(argv, mainHasArgs, h, i, s, f.lineno, t);
    } else {
      assert Visits(argv, mainHasArgs, h, i, s, i, s);
    }
  }

  /**
   * After the loop the launcher shows about exactly when an interpreted
   * `-a`/`--about` was visited, and shows help exactly when an interpreted
   * `-h`/`--help` was visited, no about flag was, and the program takes no arguments.
   */
  lemma HelpAndAbout(argv: seq<CString>, mainHasArgs: bool, h: Handlers, g: Settings)
    requires ParseArgs(argv, mainHasArgs, h, g).Parsed?
    ensures var start, exit := Scan(g, false, false, false), ParseArgs(argv, mainHasArgs, h, g).exit;
      && (exit == ShowAbout <==> exists k, t :: Visits(argv, mainHasArgs, h, 1, start, k, t) && AboutAt(argv, mainHasArgs, k, t))
      && (exit == ShowHelp <==>
            && !mainHasArgs
            && (exists k, t :: Visits(argv, mainHasArgs, h, 1, start, k, t) && HelpAt(argv, mainHasArgs, k, t))
            && !(exists k, t :: Visits(argv, mainHasArgs, h, 1, start, k, t) && AboutAt(argv, mainHasArgs, k, t)))
  {
    AboutAndHelpComeFromFlags(argv, mainHasArgs, h, 1, Scan(g, false, false, false));
  }
}
