/**
 * `-E name=value`: the assignment is split at its first `=` and handed to
 * `setenv(name, value, 0)`, which never replaces a variable that is already set.
 * The process environment is a map from names to values.
 */
module EnvVars {
  import opened CTypes

  type Env = map<string, string>

  datatype Assignment = Assignment(name: string, value: string)

  /** Splits `name=value` at the first `=`; `None` when there is no `=`. */
  function SplitAssignment(s: string): (r: Option<Assignment>)
    ensures r.None? <==> '=' !in s
  {
    var k := FirstIndex(s, '=');
    if k == |s| then None else Some(Assignment(s[..k], s[k + 1..]))
  }

  /** Joining the split parts with `=` gives the assignment back, and the name holds no `=`. */
  lemma SplitAssignmentJoins(s: string)
    requires '=' in s
    ensures var a := SplitAssignment(s).value; s == a.name + "=" + a.value && '=' !in a.name
  {
    var k := FirstIndex(s, '=');
    assert s == s[..k] + "=" + s[k + 1..];
  }

  /** A name and value split off at an `=` that is not preceded by another `=` are the ones `SplitAssignment` finds. */
  lemma {:induction false} SplitIsUnique(s: string, name: string, value: string)
    requires s == name + "=" + value && '=' !in name
    ensures SplitAssignment(s) == Some(Assignment(name, value))
  {
    var k := FirstIndex(s, '=');
    assert s[|name|] == '=';
    assert forall j :: 0 <= j < |name| ==> s[j] == name[j];
    assert k == |name|;
    assert s[..k] == name;
    assert s[k + 1..] == value;
  }

  /** POSIX `setenv(name, value, 0)`: an empty name or one holding `=` is rejected, an existing name keeps its value. */
  function SetEnvKeep(env: Env, name: string, value: string): Env
  {
    if name == "" || '=' in name || name in env then env else env[name := value]
  }

  /**
   * Existing variables keep their values, only `name` can be added, it is
   * present afterwards exactly when it was or is a valid name, and a new entry holds `value`.
   */
  lemma SetEnvKeepMeaning(env: Env, name: string, value: string)
    ensures var r := SetEnvKeep(env, name, value);
      && (forall n :: n in env ==> n in r && r[n] == env[n])
      && r.Keys <= env.Keys + {name}
      && (name in r <==> name in env || (name != "" && '=' !in name))
      && (name !in env && name in r ==> r[name] == value)
  {
  }

  datatype Definition = Defined(env: Env) | Malformed

  /**
   * `defineEnvVar`: a string without `=` is an error; otherwise the variable is
   * set unless it exists. A rejected `setenv` only composes an error message
   * that is never reported, so the environment is simply left as it was.
   */
  function DefineEnvVar(env: Env, s: string): (r: Definition)
    ensures r.Malformed? <==> '=' !in s
  {
    match SplitAssignment(s)
    case None => Malformed
    case Some(a) => Defined(SetEnvKeep(env, a.name, a.value))
  }

  /** `DefineEnvVar` in terms of the position of the first `=`, as `strchr` finds it. */
  lemma DefineEnvVarAt(env: Env, s: string, m: nat)
    requires m == FirstIndex(s, '=')
    ensures m == |s| ==> DefineEnvVar(env, s) == Malformed
    ensures m < |s| ==> DefineEnvVar(env, s) == Defined(SetEnvKeep(env, s[..m], s[m + 1..]))
  {
  }

  /** What `-E` does to the environment, in terms of the name and value of the assignment. */
  lemma DefineEnvVarMeaning(env: Env, s: string)
    ensures DefineEnvVar(env, s).Malformed? <==> '=' !in s
    ensures forall name, value :: s == name + "=" + value && '=' !in name ==>
      DefineEnvVar(env, s) == Defined(if name != "" && name !in env then env[name := value] else env)
  {
    forall name, value | s == name + "=" + value && '=' !in name
      ensures DefineEnvVar(env, s) == Defined(if name != "" && name !in env then env[name := value] else env)
    {
      SplitIsUnique(s, name, value);
    }
  }

  /** A definition never changes or removes a variable already present, and adds at most one. */
  lemma DefineEnvVarKeepsExisting(env: Env, s: string)
    requires DefineEnvVar(env, s).Defined?
    ensures var e := DefineEnvVar(env, s).env;
      env.Keys <= e.Keys && (forall n :: n in env ==> e[n] == env[n]) && |e.Keys - env.Keys| <= 1
  {
    var e := DefineEnvVar(env, s).env;
    var a := SplitAssignment(s).value;
    if e != env {
      assert e.Keys - env.Keys == {a.name};
    }
  }
}
