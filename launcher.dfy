/**
 * The launcher's process-wide state and the operations of `arg.c` that change
 * it in place: the flag dispatcher `parseArgs`, `defineEnvVar` (which cuts its
 * argument at `=` and puts the `=` back) and `parseNumLocales`. Each is proved
 * against the value-level descriptions in `ArgParse`, `EnvVars` and `NumLocales`.
 */
module Launcher {
  import opened CTypes
  import opened ArgErrors
  import opened ArgParse
  import EnvVars
  import NumLocales

  /** The characters of the C string stored in `a` from `from`, up to the first NUL or the end; `b` is the buffer's contents. */
  method ReadCString(a: array<char>, from: nat, ghost b: seq<char>) returns (s: CString)
    requires from <= a.Length && b == a[..]
    ensures |s| == FirstIndex(b[from..], '\0') && s == b[from..from + |s|]
  {
    var k := from;
    while k < a.Length && a[k] != '\0'
      invariant from <= k <= a.Length
      invariant forall j :: from <= j < k ==> b[j] != '\0'
    {
      k := k + 1;
    }
    ghost var t := b[from..];
    assert forall j :: 0 <= j < k - from ==> t[j] != '\0';
    assert k < a.Length ==> t[k - from] == '\0';
    s := a[from..k];
  }

  /** `strchr(a + from, c)`: the index of the first `c` at or after `from`, or `a.Length` when there is none. */
  method FindChar(a: array<char>, from: nat, c: char) returns (k: nat)
    requires from <= a.Length
    ensures from <= k <= a.Length
    ensures k - from == FirstIndex(a[from..], c)
    ensures k < a.Length ==> a[k] == c
  {
    k := from;
    while k < a.Length && a[k] != c
      invariant from <= k <= a.Length
      invariant forall j :: from <= j < k ==> a[j] != c
    {
      k := k + 1;
    }
    ghost var t := a[from..];
    assert forall j :: 0 <= j < k - from ==> t[j] != c;
    assert k < a.Length ==> t[k - from] == c;
  }

  /**
   * Writing NUL at `k` into a buffer whose C string starts at `start` and
   * holds no NUL cuts it into the C string before `k` and the one after.
   */
  lemma CutAt(b: seq<char>, cut: seq<char>, start: nat, k: nat)
    requires start <= k < |b| && '\0' !in b[start..] && cut == b[k := '\0']
    ensures FirstIndex(cut[start..], '\0') == k - start
    ensures cut[start..start + (k - start)] == b[start..][..k - start]
    ensures FirstIndex(cut[k + 1..], '\0') == |b| - (k + 1)
    ensures cut[k + 1..k + 1 + (|b| - (k + 1))] == b[start..][k - start + 1..]
  {
    var text, m := b[start..], k - start;
    assert cut[start..] == text[..m] + ['\0'] + text[m + 1..];
    FirstIndexOfCut(text[..m], '\0', text[m + 1..]);
    assert cut[k + 1..] == text[m + 1..];
    assert '\0' !in text[m + 1..];
  }

  /** Writes NUL over the `=` at `k`, then reads the name before it and the value after it as C strings. */
  method CutAssignment(estr: array<char>, start: nat, k: nat) returns (name: CString, value: CString)
    requires start <= k < estr.Length && '\0' !in estr[start..]
    modifies estr
    ensures estr[..] == old(estr[..])[k := '\0']
    ensures name == old(estr[start..])[..k - start] && value == old(estr[start..])[k - start + 1..]
  {
    ghost var before := estr[..];
    estr[k] := '\0';
    ghost var cut := estr[..];
    assert cut == before[k := '\0'];
    CutAt(before, cut, start, k);
    name := ReadCString(estr, start, cut);
    value := ReadCString(estr, k + 1, cut);
  }

  /** A writable character buffer holding `s`, as `argv` strings are. */
  method Buffer(s: CString) returns (a: array<char>)
    ensures fresh(a) && a[..] == s
  {
    a := new char[|s|](k requires 0 <= k < |s| => s[k]);
  }

  class Runtime {
    var verbosity: int
    var blockReport: int
    var taskReport: int
    var gdbFlag: int
    var argNumLocales: Int32
    var mainArgv: seq<CString>
    var env: EnvVars.Env
    var calls: seq<Call>

    /** The state `parseArgs` reads and writes, as a value. */
    function Settings(): ArgParse.Settings
      reads this
    {
      ArgParse.Settings(verbosity, blockReport, taskReport, gdbFlag, mainArgv, env, calls)
    }

    /** Start-up state: the counters and flags of `arg.c` are zero; verbosity, program arguments and environment come from elsewhere. */
    constructor (verbosity0: int, mainArgv0: seq<CString>, env0: EnvVars.Env)
      ensures Settings() == ArgParse.Settings(verbosity0, 0, 0, 0, mainArgv0, env0, [])
      ensures argNumLocales == 0
    {
      verbosity, blockReport, taskReport, gdbFlag := verbosity0, 0, 0, 0;
      argNumLocales := 0;
      mainArgv, env, calls := mainArgv0, env0, [];
    }

    /** `_runInGDB`: the index of the `--gdb` argument, or 0 when there was none. */
    function RunInGdb(): int
      reads this
    {
      gdbFlag
    }

    /** `getArgNumLocales`: the count set by `parseNumLocales`, 0 while none was set. */
    function GetArgNumLocales(): (n: Int32)
      reads this
      ensures n == argNumLocales
    {
      if argNumLocales != 0 then argNumLocales else 0
    }

    /** `parseNumLocales`: stores the converted count, then rejects invalid text and counts below one. */
    method ParseNumLocales(numText: CString, lineno: int, convert: CString -> NumLocales.Conversion)
      returns (r: Option<Failure>)
      modifies this`argNumLocales
      ensures argNumLocales == convert(numText).value
      ensures r.None? <==> !convert(numText).invalid && argNumLocales >= 1
      ensures r.Some? ==> r.value == Failure(NumLocales.NumLocalesError(numText, convert(numText)).value, lineno)
      ensures r.None? ==> GetArgNumLocales() == argNumLocales >= 1
    {
      var c := convert(numText);
      argNumLocales := c.value;
      if c.invalid {
        return Some(Failure(InvalidNumLocales(numText), lineno));
      }
      if argNumLocales < 1 {
        return Some(Failure(NonPositiveNumLocales, lineno));
      }
      r := None;
    }

    /** The part of `defineEnvVar` after `strchr` found the `=` at `k`: cut, `setenv`, restore. */
    method SetAtCut(estr: array<char>, start: nat, k: nat, ghost text: string)
      requires start <= k < estr.Length && text == estr[start..] && '\0' !in text && estr[k] == '='
      modifies this`env, estr
      ensures estr[..] == old(estr[..])
      ensures env == EnvVars.SetEnvKeep(old(env), text[..k - start], text[k - start + 1..])
    {
      ghost var before := estr[..];
      var name, value := CutAssignment(estr, start, k);
      env := EnvVars.SetEnvKeep(env, name, value);
      ghost var cut := estr[..];
      estr[k] := '=';
      assert estr[..] == cut[k := '='];
      assert cut[k := '='] == before;
    }

    /**
     * `defineEnvVar` on the C string in `estr` from `start`: it overwrites the
     * first `=` with NUL so that name and value are separate strings, defines
     * the variable unless it is set, and writes the `=` back.
     */
    method DefineEnvVar(estr: array<char>, start: nat, lineno: int) returns (r: Option<Failure>)
      requires start <= estr.Length && '\0' !in estr[start..]
      modifies this`env, estr
      ensures estr[..] == old(estr[..])
      ensures var d := EnvVars.DefineEnvVar(old(env), old(estr[start..]));
        && (d.Malformed? ==> r == Some(Failure(MalformedEnvAssignment, lineno)) && env == old(env))
        && (d.Defined? ==> r == None && env == d.env)
    {
      ghost var text, env0 := estr[start..], env;
      var k := FindChar(estr, start, '=');
      EnvVars.DefineEnvVarAt(env0, text, k - start);
      if k == estr.Length {
        assert EnvVars.DefineEnvVar(env0, text) == EnvVars.Malformed;
        return Some(Failure(MalformedEnvAssignment, lineno));
      }
      ghost var e := EnvVars.SetEnvKeep(env0, text[..k - start], text[k - start + 1..]);
      assert EnvVars.DefineEnvVar(env0, text) == EnvVars.Defined(e);
      SetAtCut(estr, start, k, text);
      assert env == e;
      r := None;
    }

    /** The `case '-'` of the `switch` in `parseArgs`: `--gdb`, `--help` and the other long flags. */
    method LongFlagArg(argv: seq<CString>, h: Handlers, i: nat, printHelp: bool, printAbout: bool, stopParsing: bool)
      returns (last: nat, help: bool, about: bool, failure: Option<Failure>)
      requires i < |argv| && |argv[i]| >= 2
      modifies this
      ensures argNumLocales == old(argNumLocales)
      ensures var r := LongFlag(argv, h, i, Scan(old(Settings()), printHelp, printAbout, stopParsing));
        && (r.Stop? ==> failure == Some(r.failure))
        && (r.Next? ==> failure.None? && last + 1 == r.index && Scan(Settings(), help, about, stopParsing) == r.scan)
    {
      var lineno := i;
      var currentArg := argv[i];
      last, help, about, failure := i, printHelp, printAbout, None;
      var flag := currentArg[2..];
      if flag == "gdb" {
        gdbFlag := i;
      } else if flag == "help" {
        help := true;
        mainArgv := mainArgv + ["--help"];
      } else if flag == "about" {
        about := true;
      } else if flag == "verbose" {
        verbosity := 2;
      } else if flag == "blockreport" {
        blockReport := 1;
      } else if flag == "taskreport" {
        taskReport := 1;
      } else if flag == "quiet" {
        verbosity := 0;
      } else {
        if |currentArg| < 3 {
          return last, help, about, Some(Failure(InvalidArgument(currentArg), lineno));
        }
        calls := calls + [PossibleConfigVar(i)];
        last := i + h.possibleConfigVar(argv, i);
      }
    }

    /**
     * The `switch` on the character after `-` in `parseArgs`, for argument `i`.
     * Returns the index of the last argument it consumed (the loop then moves
     * past it) and the updated `printHelp` and `printAbout`. The cases that
     * take a value are in `ValueFlagArg`.
     */
    method ShortFlagArg(argv: seq<CString>, h: Handlers, i: nat, printHelp: bool, printAbout: bool, stopParsing: bool)
      returns (last: nat, help: bool, about: bool, failure: Option<Failure>)
      requires i < |argv| && |argv[i]| >= 2
      modifies this
      ensures argNumLocales == old(argNumLocales)
      ensures var r := ShortFlag(argv, h, i, Scan(old(Settings()), printHelp, printAbout, stopParsing));
        && (r.Stop? ==> failure == Some(r.failure))
        && (r.Next? ==> failure.None? && last + 1 == r.index && Scan(Settings(), help, about, stopParsing) == r.scan)
    {
      if argv[i][1] in {'E', 'f', 'n'} {
        last, help, about, failure := ValueFlagArg(argv, h, i, printHelp, printAbout, stopParsing);
        return;
      }
      var lineno := i;
      var currentArg := argv[i];
      last, help, about, failure := i, printHelp, printAbout, None;
      match currentArg[1]
      case 'a' =>
        if |currentArg| == 2 {
          about := true;
        } else {
          calls := calls + [NonstandardArg(i)];
          last := i + h.nonstandardArg(argv, i);
        }
      case 'b' =>
        if |currentArg| == 2 {
          blockReport := 1;
        } else {
          calls := calls + [NonstandardArg(i)];
          last := i + h.nonstandardArg(argv, i);
        }
      case 'h' =>
        if |currentArg| == 2 {
          help := true;
          mainArgv := mainArgv + ["-h"];
        } else {
          calls := calls + [NonstandardArg(i)];
          last := i + h.nonstandardArg(argv, i);
        }
      case 'q' =>
        if |currentArg| == 2 {
          verbosity := 0;
        } else {
          calls := calls + [NonstandardArg(i)];
          last := i + h.nonstandardArg(argv, i);
        }
      case 's' =>
        if |currentArg| < 3 {
          return last, help, about, Some(Failure(InvalidArgument(currentArg), lineno));
        }
        calls := calls + [PossibleConfigVar(i)];
        last := i + h.possibleConfigVar(argv, i);
      case 't' =>
        if |currentArg| == 2 {
          taskReport := 1;
        } else {
          calls := calls + [NonstandardArg(i)];
          last := i + h.nonstandardArg(argv, i);
        }
      case 'v' =>
        if |currentArg| == 2 {
          verbosity := 2;
        } else {
          calls := calls + [NonstandardArg(i)];
          last := i + h.nonstandardArg(argv, i);
        }
      case _ =>
        calls := calls + [NonstandardArg(i)];
        last := i + h.nonstandardArg(argv, i);
    }

    /** The cases `-E`, `-f` and `-n` of the `switch` in `parseArgs`: the flags that take a value. */
    method ValueFlagArg(argv: seq<CString>, h: Handlers, i: nat, printHelp: bool, printAbout: bool, stopParsing: bool)
      returns (last: nat, help: bool, about: bool, failure: Option<Failure>)
      requires i < |argv| && |argv[i]| >= 2 && argv[i][1] in {'E', 'f', 'n'}
      modifies this
      ensures argNumLocales == old(argNumLocales)
      ensures var r := ShortFlag(argv, h, i, Scan(old(Settings()), printHelp, printAbout, stopParsing));
        && (r.Stop? ==> failure == Some(r.failure))
        && (r.Next? ==> failure.None? && last + 1 == r.index && Scan(Settings(), help, about, stopParsing) == r.scan)
    {
      var lineno := i;
      var currentArg := argv[i];
      last, help, about, failure := i, printHelp, printAbout, None;
      if currentArg[1] == 'E' {
        if |currentArg| == 2 {
          last := i + 1;
          if last >= |argv| {
            return last, help, about, Some(Failure(MissingValue(EnvFlag), lineno));
          }
          var buffer := Buffer(argv[last]);
          failure := DefineEnvVar(buffer, 0, lineno);
        } else {
          var buffer := Buffer(currentArg);
          failure := DefineEnvVar(buffer, 2, lineno);
        }
      } else if currentArg[1] == 'f' {
        if |currentArg| == 2 {
          last := i + 1;
          if last >= |argv| {
            return last, help, about, Some(Failure(MissingValue(ConfigFileFlag), lineno));
          }
          calls := calls + [ConfigFile(argv[last])];
        } else {
          calls := calls + [ConfigFile(currentArg[2..])];
        }
      } else {
        if |currentArg| >= 3 && currentArg[2] == 'l' {
          var numText: CString;
          if |currentArg| == 3 {
            last := i + 1;
            if last >= |argv| {
              return last, help, about, Some(Failure(MissingValue(NumLocalesFlag), lineno));
            }
            numText := argv[last];
          } else {
            numText := currentArg[3..];
          }
          calls := calls + [SetValue("numLocales", numText, "Built-in")];
        } else {
          calls := calls + [NonstandardArg(i)];
          last := i + h.nonstandardArg(argv, i);
        }
      }
    }

    /**
     * `parseArgs`: walks `argv` from index 1, updating the settings, forwarding
     * arguments to the program and stopping at the first failure. What it
     * computes is `ArgParse.ParseArgs`; on a failure the process ends, so the
     * settings left behind are not described.
     */
    method ParseArgs(argv: seq<CString>, mainHasArgs: bool, h: Handlers) returns (r: ParseResult)
      modifies this
      ensures r == ArgParse.ParseArgs(argv, mainHasArgs, h, old(Settings()))
      ensures r.Parsed? ==> Settings() == r.settings
      ensures argNumLocales == old(argNumLocales)
    {
      ghost var start := Scan(Settings(), false, false, false);
      var printHelp, printAbout, stopParsing := false, false, false;
      var i := 1;
      while i < |argv|
        invariant 1 <= i
        invariant argNumLocales == old(argNumLocales)
        invariant Run(argv, mainHasArgs, h, i, Scan(Settings(), printHelp, printAbout, stopParsing))
               == Run(argv, mainHasArgs, h, 1, start)
        decreases |argv| - i
      {
        ghost var s := Scan(Settings(), printHelp, printAbout, stopParsing);
        var lineno := i;
        var currentArg := argv[i];
        var argLength := |currentArg|;

        if mainHasArgs && (stopParsing || argLength < 2) {
          mainArgv := mainArgv + [currentArg];
          i := i + 1;
          continue;
        }
        if mainHasArgs && currentArg == "--" {
          stopParsing := true;
          i := i + 1;
          continue;
        }
        if argLength < 2 {
          return Error(Failure(InvalidArgument(currentArg), lineno));
        }

        if currentArg[0] != '-' {
          calls := calls + [NonstandardArg(i)];
          i := i + h.nonstandardArg(argv, i);
        } else if currentArg[1] == '-' {
          var failure;
          i, printHelp, printAbout, failure := LongFlagArg(argv, h, i, printHelp, printAbout, stopParsing);
          if failure.Some? {
            return Error(failure.value);
          }
        } else {
          var failure;
          i, printHelp, printAbout, failure := ShortFlagArg(argv, h, i, printHelp, printAbout, stopParsing);
          if failure.Some? {
            return Error(failure.value);
          }
        }
        i := i + 1;
      }
      r := Parsed(Settings(), FinalAction(mainHasArgs, Scan(Settings(), printHelp, printAbout, stopParsing)));
    }
  }
}
