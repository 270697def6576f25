# Chapel launcher argument handling, in Dafny

This project models `runtime/src/arg.c` of the Chapel runtime. That file holds
the code a compiled Chapel program runs first, to interpret its own command line:

- `parseArgs` walks `argv` from index 1 and does one of four things with each argument.
  - It recognises the launcher's flags: `-h`/`--help`, `-a`/`--about`, `-v`/`--verbose`,
    `-q`/`--quiet`, `-b`/`--blockreport`, `-t`/`--taskreport` and `--gdb`.
  - It handles the value flags `-E`, `-f` and `-nl`, whose value is attached or is the next argument.
  - It hands `-s…` and unknown `--name…` to the config-variable handler, and everything
    else to the non-standard-argument handler.
  - When the program's `main` takes arguments, it forwards arguments to the program, and
    `--` switches all later arguments to pass-through.
- `defineEnvVar` defines an environment variable from `name=value`. It cuts the string at
  its first `=`, calls `setenv` without overwriting, and puts the `=` back.
- `parseNumLocales` and `getArgNumLocales` store and read the locale count.
- `printHelpTable` and `printHeaders` lay out the `--help` table.

Modules, one concept each:

- `CTypes`: C strings, which hold no NUL; `int32_t`; `strchr` as `FirstIndex`.
- `ArgErrors`: the failures passed to `chpl_error`, with the line number and the message texts.
- `EnvVars`: `defineEnvVar` over an environment modelled as a map.
- `NumLocales`: the checks in `parseNumLocales`.
- `HelpTable`: the help table's column width and the placement of its section headers.
- `ArgParse`: one loop iteration (`Step`) and the whole loop (`Run`), as functions on a value.
  That value holds the launcher's global settings and the loop's locals.
- `ArgParseProperties`: the promises the dispatcher makes, proved about `Step` and `Run`.
- `Launcher`: the process state as a class, `Runtime`. Its methods update that state in place.
  - They use a `while` loop for `parseArgs`.
  - They work on a writable character array in `defineEnvVar`.
  - Each method is proved equal to the functions above.

A failure ends the process in C. Here it is an `Error(Failure(error, lineno))` result.

## Model

| member | source | states |
|---|---|---|
| CTypes.FirstIndex | runtime/src/arg.c:141 | The index `strchr` finds: no earlier occurrence, the character is at that index, and the index is the length exactly when the character is absent. |
| ArgErrors.EnvMissingValueReadsAsConfigFile | runtime/src/arg.c:256-263 | As written, a missing `-E` value gives the same message as a missing `-f` file name. |
| ArgErrors.MessageAsWritten | runtime/src/arg.c:110-117 | The message about an invalid locale count opens with the offending text in double quotes, and so does the invalid-argument message. |
| ArgErrors.MissingValueMessagesDistinct | runtime/src/arg.c:256-263 | With the corrected text, the missing-value messages of `-E`, `-f` and `-nl` are pairwise different. |
| EnvVars.SplitAssignment | runtime/src/arg.c:141-143 | There is no split exactly when the string holds no `=`. |
| EnvVars.SetEnvKeepMeaning | runtime/src/arg.c:146 | `setenv(name, value, 0)`: existing variables keep their values, only `name` can be added, it is present afterwards exactly when it was or is a valid name, and a new entry holds `value`. |
| EnvVars.DefineEnvVar | runtime/src/arg.c:132-152 | The result is the malformed error exactly when the text holds no `=`. |
| EnvVars.SplitAssignmentJoins | runtime/src/arg.c:145-149 | Name, `=` and value joined give back the original string, and the name holds no `=`. |
| EnvVars.SplitIsUnique | runtime/src/arg.c:141 | Any decomposition `name=value` whose name holds no `=` is the one the split finds. |
| EnvVars.DefineEnvVarMeaning | runtime/src/arg.c:132-152 | The malformed error happens exactly when there is no `=`. For `name=value` the variable is defined only when the name is non-empty and not already set. |
| EnvVars.DefineEnvVarKeepsExisting | runtime/src/arg.c:146 | No existing variable is changed or removed, and at most one new one is added. |
| NumLocales.NumLocalesError | runtime/src/arg.c:106-118 | Invalid text is reported first, then a count below one; there is no error exactly when the text is valid and the count is at least one. |
| HelpTable.LongestFlag | runtime/src/arg.c:74-86 | The result is at least each flag's length and equals one of them, or is 0 for an empty table. |
| HelpTable.HeaderLines | runtime/src/arg.c:30-44 | Every header starts with a blank line. The `c` and `g` headers add a title and a rule of `=` exactly as long as the title; any other type gives only the blank line. |
| HelpTable.PrintHeaders | runtime/src/arg.c:29-45 | Header lines are produced only when the type changes; the last type becomes the current one. |
| HelpTable.PrintHelpTable | runtime/src/arg.c:88-99 | There is one row per entry, in order. Each row shows its flag padded to the widest flag, the separator (blank for an empty flag), and the header lines exactly where the type differs from the previous entry's. |
| HelpTable.FlagListLayout | runtime/src/arg.c:55-72 | In the launcher's own table the flag column is 20 wide. A `FLAGS:` header stands before entry 0, a `CONFIG VAR FLAGS:` header before entry 10, and no header anywhere else. |
| ArgParse.Step | runtime/src/arg.c:162-192 | Every iteration that does not fail moves the index forward, so the loop terminates; a failure is reported against the index being read. |
| ArgParse.Run | runtime/src/arg.c:162-358 | A failure of the loop from index `i` is reported against an index of `argv` from `i` on. |
| ArgParse.FinalAction | runtime/src/arg.c:360-371 | About wins whenever it was asked for; help never stops a program that takes arguments; with neither asked for the launcher proceeds. |
| ArgParse.ParseArgs | runtime/src/arg.c:155-372 | With no arguments after the program name nothing changes and the launcher proceeds; a failure names an index of `argv` from 1 on. |
| ArgParse.LongFlag | runtime/src/arg.c:195-237 | A `--` flag that does not fail moves the index forward; a failure is reported against the flag's own index. |
| ArgParse.ShortFlag | runtime/src/arg.c:239-351 | A `-x` flag that does not fail moves the index forward; a failure is reported against the flag's own index. |
| ArgParseProperties.ExactFlagsActAlone | runtime/src/arg.c:195-346 | Each exactly-written launcher flag has its own effect, consumes only itself and changes nothing else. |
| ArgParseProperties.ExactFlagForwarding | runtime/src/arg.c:204-212 | Of the exact flags only `-h` and `--help` forward anything, namely themselves. Only they set help, and only `-a` and `--about` set about. |
| ArgParseProperties.PassThroughForwardsRest | runtime/src/arg.c:169-176 | After `--`, the remaining arguments are appended to the program's arguments verbatim and in order, and nothing else changes. |
| ArgParseProperties.DashDashStartsPassThrough | runtime/src/arg.c:178-184 | When `main` takes arguments, `--` is dropped, switches pass-through on, and everything after it is forwarded. |
| ArgParseProperties.BareDashDashIsError | runtime/src/arg.c:186-190 | When `main` takes no arguments, `--` is an invalid argument. |
| ArgParseProperties.ShortArgument | runtime/src/arg.c:169-190 | An argument shorter than two characters is forwarded when `main` takes arguments and is an invalid argument otherwise. |
| ArgParseProperties.UnknownLongFlagIsConfigVar | runtime/src/arg.c:230-236 | An unknown `--name` (non-empty) goes to the config-variable handler, which decides how many arguments it consumes. |
| ArgParseProperties.ShortConfigVar | runtime/src/arg.c:321-330 | `-s` alone is an invalid argument; `-s…` goes to the config-variable handler. |
| ArgParseProperties.NonDashIsNonstandard | runtime/src/arg.c:354-356 | An argument that does not start with `-` goes to the non-standard handler. |
| ArgParseProperties.ValueFlagTakesNext | runtime/src/arg.c:255-303 | `-E`, `-f` and `-nl` written alone take the next argument as their value, or fail naming the flag when there is none. |
| ArgParseProperties.ValueFlagAttached | runtime/src/arg.c:264-307 | `-E…`, `-f…` and `-nl…` use the rest of the argument after the flag letters as their value. |
| ArgParseProperties.VerbosityFlagOverrides | runtime/src/arg.c:214-228 | After a verbosity flag, whatever verbosity was set before makes no difference. |
| ArgParseProperties.LongFlagIgnoresVerbosity | runtime/src/arg.c:195-237 | A `--` flag either overwrites the verbosity or leaves it alone, and never depends on it. |
| ArgParseProperties.ShortFlagIgnoresVerbosity | runtime/src/arg.c:239-351 | A `-x` flag either overwrites the verbosity or leaves it alone, and never depends on it. |
| ArgParseProperties.StepIgnoresVerbosity | runtime/src/arg.c:162-357 | A loop iteration either overwrites the verbosity or leaves it alone, and never depends on it. |
| ArgParseProperties.InitialVerbosityOnlySurvives | runtime/src/arg.c:162-358 | The verbosity the loop starts with either makes no difference to the outcome, or no iteration changed it and it is the final value. |
| ArgParseProperties.LongFlagSwitches | runtime/src/arg.c:195-237 | Among the `--` flags only `--about` sets about, only `--help` sets help, and only `--verbose` and `--quiet` change the verbosity. |
| ArgParseProperties.ShortFlagSwitches | runtime/src/arg.c:239-351 | Among the `-x` flags only `-a` sets about, only `-h` sets help, and only `-v` and `-q` change the verbosity. |
| ArgParseProperties.StepSwitches | runtime/src/arg.c:162-357 | One iteration sets about exactly on an interpreted `-a`/`--about` and help exactly on an interpreted `-h`/`--help`, and keeps the verbosity unless it reads an interpreted verbosity flag. |
| ArgParseProperties.AboutAndHelpComeFromFlags | runtime/src/arg.c:162-358 | At the end of the loop about is set exactly when it was set at the start or a visited iteration read an interpreted `-a`/`--about`; likewise help with `-h`/`--help`. |
| ArgParseProperties.VerbosityFlagStep | runtime/src/arg.c:214-228 | An interpreted verbosity flag sets 2 for `-v`/`--verbose` and 0 for `-q`/`--quiet`, and consumes only itself. |
| ArgParseProperties.NoVerbosityFlagKeeps | runtime/src/arg.c:162-358 | When no visited iteration reads a verbosity flag, the loop ends with the verbosity it started with. |
| ArgParseProperties.LastVerbosityFlagWins | runtime/src/arg.c:162-358 | The last visited verbosity flag decides the final verbosity: 2 for `-v`/`--verbose`, 0 for `-q`/`--quiet`. |
| ArgParseProperties.VisitsBounds | runtime/src/arg.c:162 | The loop from index `i` visits only indices of `argv` from `i` on. |
| ArgParseProperties.LongFlagForwarding | runtime/src/arg.c:195-237 | A `--` flag forwards nothing, except `--help`, which forwards the literal `--help`. |
| ArgParseProperties.ShortFlagForwarding | runtime/src/arg.c:239-351 | A `-x` flag forwards nothing, except `-h`, which forwards itself. |
| ArgParseProperties.StepForwarding | runtime/src/arg.c:169-176 | An iteration forwards nothing, or `--help`, or the argument itself. It forwards the argument itself only when `main` takes arguments or the argument is `-h`. |
| ArgParseProperties.ForwardedComeFromArgv | runtime/src/arg.c:162-358 | The program's arguments only grow, by arguments of `argv` or `--help`. Without program arguments they grow only by `-h` and `--help`. |
| ArgParseProperties.FailureNamesAnArgument | runtime/src/arg.c:162-358 | A failure is the outcome of an iteration the loop actually visited, reported against the index that iteration read. |
| ArgParseProperties.HelpAndAbout | runtime/src/arg.c:360-371 | About is shown exactly when a visited iteration read an interpreted `-a`/`--about`. Help is shown exactly when one read an interpreted `-h`/`--help`, none read an about flag, and `main` takes no arguments. |
| Launcher.ReadCString | runtime/src/arg.c:145-146 | The C string in a buffer: the characters up to the first NUL. |
| Launcher.FindChar | runtime/src/arg.c:141 | `strchr` on a buffer: the first index at or after the start holding the character, or the end. |
| Launcher.CutAt | runtime/src/arg.c:145-146 | Writing NUL at the `=` leaves the C string before it as the name and the one after it as the value. |
| Launcher.CutAssignment | runtime/src/arg.c:145-146 | The buffer gets exactly one NUL written at `k`; the name and value read are the text before and after `k`. |
| Launcher.Runtime.constructor | runtime/src/arg.c:21-23 | The launcher's flags and counters start at zero, the call log starts empty, and the locale count starts at 0. |
| Launcher.Runtime.GetArgNumLocales | runtime/src/arg.c:120-126 | Returns the stored count, which is 0 while none was stored. |
| Launcher.Runtime.ParseNumLocales | runtime/src/arg.c:106-118 | The converted count is always stored. The outcome is the error `NumLocalesError` gives, and on success `getArgNumLocales` returns a count of at least one. |
| Launcher.Runtime.SetAtCut | runtime/src/arg.c:145-149 | Cut, `setenv` and restore: the buffer ends as it began, and the environment gets the variable unless it is already set. |
| Launcher.Runtime.DefineEnvVar | runtime/src/arg.c:132-152 | On a writable buffer the method computes `EnvVars.DefineEnvVar`: it fails exactly when that is malformed, otherwise the environment becomes its result. The buffer ends unchanged. |
| Launcher.Runtime.LongFlagArg | runtime/src/arg.c:195-237 | The long-flag arm of the switch updates the state exactly as `ArgParse.LongFlag` describes. |
| Launcher.Runtime.ShortFlagArg | runtime/src/arg.c:239-351 | The short-flag arms of the switch update the state exactly as `ArgParse.ShortFlag` describes. |
| Launcher.Runtime.ValueFlagArg | runtime/src/arg.c:255-311 | The `-E`, `-f` and `-n` arms update the state exactly as `ArgParse.ShortFlag` describes. |
| Launcher.Runtime.ParseArgs | runtime/src/arg.c:155-372 | The loop's outcome is `ArgParse.ParseArgs`. On success the runtime's settings are the parsed ones, and the locale count is untouched. |

## Left out

- Output and exit are not modelled. The help text, the about text and the exits at the end of `parseArgs` become the `Exit` value. `printAdditionalHelp`, `printConfigVarTable` and `chpl_program_about` are not part of this model.
- `handlePossibleConfigVar` and `handleNonstandardArg` are not part of this model. Each is a parameter saying how many more arguments it consumes; their own failures and side effects are not modelled, and each call is only logged.
- `parseConfigFile` and `initSetValue` are not part of this model. `-f` and `-nl` are modelled up to the call they make, which is logged with its arguments.
- The handlers are assumed to leave `*argc` unchanged, so the reported line number is the argument index.
- `c_string_to_int32_t_precise` is not part of this model. Its result, a value and an invalid flag, is a parameter of `ParseNumLocales`.
- `setenv` running out of memory is not modelled. Neither is the error text `defineEnvVar` composes into `errmsg`, which is never reported. A rejected `setenv` (empty name) leaves the environment unchanged.
- Launcher.Runtime.DefineEnvVar: works on a fresh copy of the argument string (`Launcher.Buffer`), not on the caller's `argv` storage. It therefore does not model aliasing with `argv`.
- Launcher.Runtime.ParseArgs: says nothing about the settings left behind after a failure, because the C process exits there.
- Launcher.Runtime.RunInGdb (`_runInGDB`, arg.c:25-27) returns the `gdbFlag` field and has no contract of its own. What `--gdb` stores there is stated by `ArgParseProperties.ExactFlagsActAlone`.
- `chpl_specify_locales_error` (arg.c:375-378) is not modelled. It only reports a fixed message and is not called from this file.
- The help table's terminating `{NULL, NULL, ' '}` entry is left out; the table is a sequence that knows its length.
- `int` globals are unbounded here. `gdbFlag` holds an argument index, which fits in C's `int` for any real `argv`.

## Findings

| source | as written | input that shows it | evidently intended | confidence | as-written member | corrected member |
|---|---|---|---|---|---|---|
| runtime/src/arg.c:259 | `-E` with no further argument reports "-f flag is missing <filename> argument" | `prog -E` (the last argument) | a message naming `-E` and its `<name=value>` argument | not executed | ArgErrors.EnvMissingValueReadsAsConfigFile | ArgErrors.MissingValueMessagesDistinct |
