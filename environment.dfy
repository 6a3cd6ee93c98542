/**
 * `environment_append`: a context manager that merges plain and list-valued variables into the
 * process environment for the duration of a block, then puts the old environment back.
 */
module Environment {
  import Strings

  /** The value a list variable gets: its parts joined with the path separator, then any old value. */
  function ListValue(name: string, parts: seq<string>, oldEnv: map<string, string>, sep: char): (v: string)
    ensures Strings.StartsWith(v, Strings.Join([sep], parts))
    ensures name !in oldEnv ==> v == Strings.Join([sep], parts)
    ensures name in oldEnv ==> Strings.EndsWith(v, [sep] + oldEnv[name])
  {
    var joined := Strings.Join([sep], parts);
    if name in oldEnv then
      Strings.ConcatParts(joined, [sep] + oldEnv[name]);
      joined + [sep] + oldEnv[name]
    else joined
  }

  /** The variables set for the block: the plain ones, overridden by the list ones. */
  function Merged(envVars: map<string, string>, listEnvVars: map<string, seq<string>>,
                  oldEnv: map<string, string>, sep: char): map<string, string>
  {
    envVars + map name | name in listEnvVars :: ListValue(name, listEnvVars[name], oldEnv, sep)
  }

  /**
   * The variables the merge sets: exactly the plain and the list ones. A list variable gets its
   * list value, a plain variable that is not also a list variable keeps its own value.
   */
  lemma MergedEntries(envVars: map<string, string>, listEnvVars: map<string, seq<string>>,
                      oldEnv: map<string, string>, sep: char)
    ensures Merged(envVars, listEnvVars, oldEnv, sep).Keys == envVars.Keys + listEnvVars.Keys
    ensures forall name :: name in listEnvVars ==>
              Merged(envVars, listEnvVars, oldEnv, sep)[name] == ListValue(name, listEnvVars[name], oldEnv, sep)
    ensures forall name :: name in envVars && name !in listEnvVars ==>
              Merged(envVars, listEnvVars, oldEnv, sep)[name] == envVars[name]
  {
  }

  /**
   * A list variable read back: split on the separator, it gives its parts and then the pieces of
   * the old value (an old `PATH` is itself a list), provided no new part holds the separator.
   */
  lemma ListValueRoundTrip(name: string, parts: seq<string>, oldEnv: map<string, string>, sep: char)
    requires parts != []
    requires forall i :: 0 <= i < |parts| ==> sep !in parts[i]
    ensures Strings.Split(ListValue(name, parts, oldEnv, sep), sep) ==
            parts + (if name in oldEnv then Strings.Split(oldEnv[name], sep) else [])
  {
    if name in oldEnv {
      Strings.SplitJoinThen(parts, sep, oldEnv[name]);
    } else {
      Strings.SplitJoin(parts, sep);
      assert parts + [] == parts;
    }
  }

  /** `merged` holds the plain variables with the list variables outside `remaining` merged in. */
  ghost predicate MergedExcept(merged: map<string, string>, envVars: map<string, string>,
                               listEnvVars: map<string, seq<string>>, oldEnv: map<string, string>,
                               sep: char, remaining: set<string>)
  {
    (forall name :: name in merged <==> name in envVars || (name in listEnvVars && name !in remaining)) &&
    (forall name :: name in listEnvVars && name !in remaining ==>
       merged[name] == ListValue(name, listEnvVars[name], oldEnv, sep)) &&
    (forall name :: name in envVars && (name !in listEnvVars || name in remaining) ==>
       merged[name] == envVars[name])
  }

  /** One turn of the merge loop keeps `MergedExcept` with one name fewer remaining. */
  lemma MergeStep(merged: map<string, string>, envVars: map<string, string>,
                  listEnvVars: map<string, seq<string>>, oldEnv: map<string, string>,
                  sep: char, remaining: set<string>, name: string)
    requires remaining <= listEnvVars.Keys && name in remaining
    requires MergedExcept(merged, envVars, listEnvVars, oldEnv, sep, remaining)
    ensures MergedExcept(merged[name := ListValue(name, listEnvVars[name], oldEnv, sep)],
                         envVars, listEnvVars, oldEnv, sep, remaining - {name})
  {
  }

  /**
   * The merge loop over `list_env_vars.items()`, writing into `env_vars`. Each entry depends only
   * on the snapshot of the old environment, so the order of the items does not matter.
   */
  method MergeListVars(envVars: map<string, string>, listEnvVars: map<string, seq<string>>,
                       oldEnv: map<string, string>, sep: char) returns (merged: map<string, string>)
    ensures merged == Merged(envVars, listEnvVars, oldEnv, sep)
  {
    merged := envVars;
    var remaining := listEnvVars.Keys;
    while remaining != {}
      invariant remaining <= listEnvVars.Keys
      invariant MergedExcept(merged, envVars, listEnvVars, oldEnv, sep, remaining)
      decreases |remaining|
    {
      var name :| name in remaining;
      var value := ListValue(name, listEnvVars[name], oldEnv, sep);
      MergeStep(merged, envVars, listEnvVars, oldEnv, sep, remaining, name);
      merged := merged[name := value];
      remaining := remaining - {name};
    }
    MergedPointwise(merged, envVars, listEnvVars, oldEnv, sep);
  }

  /** A map with the merge's keys and the merge's value at every key is the merge. */
  lemma MergedPointwise(m: map<string, string>, envVars: map<string, string>,
                        listEnvVars: map<string, seq<string>>, oldEnv: map<string, string>, sep: char)
    requires MergedExcept(m, envVars, listEnvVars, oldEnv, sep, {})
    ensures m == Merged(envVars, listEnvVars, oldEnv, sep)
  {
    MergedEntries(envVars, listEnvVars, oldEnv, sep);
    assert m.Keys == Merged(envVars, listEnvVars, oldEnv, sep).Keys;
  }

  /** `os.environ`, with the separator `os.pathsep` of the host. */
  class ProcessEnvironment {
    var vars: map<string, string>
    const sep: char

    constructor (vars: map<string, string>, sep: char)
      ensures this.vars == vars && this.sep == sep
    {
      this.vars := vars;
      this.sep := sep;
    }

    /** `os.environ.update(m)`: the entries of `m` win, every other variable is kept. */
    method Update(m: map<string, string>)
      modifies this
      ensures vars == old(vars) + m
    {
      vars := vars + m;
    }

    /** `os.environ.clear()` followed by `os.environ.update(saved)`. */
    method Restore(saved: map<string, string>)
      modifies this
      ensures vars == saved
    {
      vars := map[];
      Update(saved);
      assert map[] + saved == saved;
    }

    /**
     * `with environment_append(env_vars, list_env_vars): <block>`. The block sees the old
     * environment updated with the merged variables; whatever the block does to the
     * environment, the old one is back afterwards. The merge is written into the caller's
     * `env_vars` dict, which keeps the list values after the block: `envVarsAfter` is that dict.
     */
    method EnvironmentAppend(envVars: map<string, string>, listEnvVars: map<string, seq<string>>,
                             block: map<string, string> -> map<string, string>)
      returns (seen: map<string, string>, envVarsAfter: map<string, string>)
      modifies this
      ensures envVarsAfter == Merged(envVars, listEnvVars, old(vars), sep)
      ensures seen == old(vars) + envVarsAfter
      ensures vars == old(vars)
    {
      var oldEnv := vars;
      envVarsAfter := MergeListVars(envVars, listEnvVars, oldEnv, sep);
      Update(envVarsAfter);
      seen := vars;
      vars := block(vars);
      Restore(oldEnv);
    }
  }

  /**
   * What the block sees: each list variable is its parts followed by its previous value, each
   * plain variable its new value, and every variable not named keeps its previous value.
   */
  lemma SeenEnvironment(oldEnv: map<string, string>, envVars: map<string, string>,
                        listEnvVars: map<string, seq<string>>, sep: char)
    ensures var seen := oldEnv + Merged(envVars, listEnvVars, oldEnv, sep);
            seen.Keys == oldEnv.Keys + envVars.Keys + listEnvVars.Keys &&
            (forall name :: name in oldEnv && name !in envVars && name !in listEnvVars ==>
               seen[name] == oldEnv[name]) &&
            (forall name :: name in envVars && name !in listEnvVars ==> seen[name] == envVars[name]) &&
            (forall name :: name in listEnvVars && name in oldEnv ==>
               seen[name] == Strings.Join([sep], listEnvVars[name]) + [sep] + oldEnv[name])
  {
    MergedEntries(envVars, listEnvVars, oldEnv, sep);
  }
}
