/**
 * The failures the launcher reports through `chpl_error`. A failure ends the
 * process; here it is a value carrying the error and the line number passed
 * along with it.
 */
module ArgErrors {

  /** The three flags that take a value, either attached or as the next argument. */
  datatype ValueFlag = EnvFlag | ConfigFileFlag | NumLocalesFlag

  datatype ArgError =
    | InvalidArgument(arg: string)
    | MissingValue(flag: ValueFlag)
    | MalformedEnvAssignment
    | InvalidNumLocales(text: string)
    | NonPositiveNumLocales

  /** `chpl_error(message, lineno, filename)` for a command-line argument. */
  datatype Failure = Failure(error: ArgError, lineno: int)

  /** The file name every command-line failure is reported against. */
  const CommandLineFile: string := "<command-line arg>"

  /** The missing-value messages the launcher has for `-f` and `-nl`, and the one `-E` would need. */
  const ConfigFileMissing: string := "-f flag is missing <filename> argument"
  const NumLocalesMissing: string := "-nl flag is missing <numLocales> argument"
  const EnvMissing: string := "-E flag is missing <name=value> argument"

  /** `m` starts with `text` in double quotes. */
  predicate QuotesFirst(m: string, text: string)
  {
    |m| >= |text| + 2 && m[0] == '"' && m[1..|text| + 1] == text && m[|text| + 1] == '"'
  }

  /** `text` in double quotes followed by `rest`, as `chpl_glom_strings` assembles the messages about an argument. */
  function Quoted(text: string, rest: string): (r: string)
    ensures QuotesFirst(r, text) && r[|text| + 2..] == rest
  {
    var m := "\"" + text + "\"" + rest;
    assert m[1..|text| + 1] == text;
    m
  }

  /** The messages exactly as the launcher prints them; those about a given text open by quoting it. */
  function MessageAsWritten(e: ArgError): (r: string)
    ensures e.InvalidArgument? ==> QuotesFirst(r, e.arg)
    ensures e.InvalidNumLocales? ==> QuotesFirst(r, e.text)
  {
    match e
    case InvalidArgument(a) => Quoted(a, " is not a valid argument")
    case MissingValue(f) =>
      if f == NumLocalesFlag then NumLocalesMissing else ConfigFileMissing
    case MalformedEnvAssignment => "-E argument must be of the form name=value"
    case InvalidNumLocales(t) => Quoted(t, " is not a valid number of locales")
    case NonPositiveNumLocales => "Number of locales must be greater than 0"
  }

  /** As written, a missing `-E` value is reported as a missing `-f` file name. */
  lemma EnvMissingValueReadsAsConfigFile()
    ensures MessageAsWritten(MissingValue(EnvFlag)) == MessageAsWritten(MissingValue(ConfigFileFlag))
  {
  }

  /** The messages with the `-E` one naming its own flag. */
  function Message(e: ArgError): string
  {
    if e == MissingValue(EnvFlag) then EnvMissing
    else MessageAsWritten(e)
  }

  /** Corrected: each value flag's missing-value message names that flag. */
  lemma MissingValueMessagesDistinct(f: ValueFlag, g: ValueFlag)
    requires f != g
    ensures Message(MissingValue(f)) != Message(MissingValue(g))
  {
    var m, n := Message(MissingValue(f)), Message(MissingValue(g));
    assert m[1] == FlagLetter(f) by { FlagLetterNamed(f); }
    assert n[1] == FlagLetter(g) by { FlagLetterNamed(g); }
  }

  function FlagLetter(f: ValueFlag): char
  {
    match f
    case EnvFlag => 'E'
    case ConfigFileFlag => 'f'
    case NumLocalesFlag => 'n'
  }

  lemma FlagLetterNamed(f: ValueFlag)
    ensures |Message(MissingValue(f))| > 1 && Message(MissingValue(f))[1] == FlagLetter(f)
  {
    match f
    case EnvFlag =>
      assert EnvMissing[1] == 'E';
    case ConfigFileFlag =>
      assert ConfigFileMissing[1] == 'f';
    case NumLocalesFlag =>
      assert NumLocalesMissing[1] == 'n';
  }

  /** Corrected and as-written messages agree on everything but the `-E` case. */
  lemma MessageChangesOnlyEnvCase(e: ArgError)
    requires e != MissingValue(EnvFlag)
    ensures Message(e) == MessageAsWritten(e)
  {
  }
}
