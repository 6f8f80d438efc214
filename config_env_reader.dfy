/**
 * Reading configuration overrides from the environment: every variable
 * whose name starts with `STATSVY_` and names an existing setting gives
 * that setting a value, converted from text to the setting's current type.
 */
module ConfigEnvReader {
  import opened Wrappers
  import opened PyStr
  import Dict
  import opened ConfigValues
  import opened ConfigData

  /** The overrides found: section name to (setting name to value). */
  type Overrides = Dict.Dict<string, Dict.Dict<string, Value>>

  const Prefix: string := "STATSVY_"

  /**
   * The section and setting a variable names: the name must start with the
   * prefix; every occurrence of the prefix is removed, the rest lower-cased
   * and split at its first `_`, and both parts must name a setting.
   */
  function EnvTarget(config: Config, name: string): (r: Option<(string, string)>)
    ensures r.Some? ==> StartsWith(name, Prefix) && SettingOf(config, r.value.0, r.value.1).Some?
  {
    if !StartsWith(name, Prefix) then None
    else
      var parts := SplitOnce(Lower(RemoveAll(name, Prefix)), "_");
      if |parts| != 2 then None
      else if SettingOf(config, parts[0], parts[1]).None? then None
      else Some((parts[0], parts[1]))
  }

  /** `overrides[section][key]`, when present. */
  function OverrideOf(o: Overrides, section: string, key: string): Option<Value> {
    match Dict.Get(o, section)
    case None => None
    case Some(d) => Dict.Get(d, key)
  }

  /** `overrides.setdefault(section, {})[key] = value`. */
  function Put(o: Overrides, section: string, key: string, value: Value): Overrides {
    Dict.Set(o, section, Dict.Set(Dict.GetOr(o, section, []), key, value))
  }

  /**
   * What the loop has built after the variables of `env`; the first failed
   * conversion ends it. The only failure is the ValueError of a
   * conversion; an empty environment overrides nothing.
   */
  function EnvOverrides(config: Config, env: Dict.Dict<string, string>, p: Parsers): (r: Result<Overrides>)
    ensures r.Err? ==> r.error.ValueError?
    ensures env == [] ==> r == Ok([])
  {
    if env == [] then Ok([])
    else
      match EnvOverrides(config, env[..|env| - 1], p)
      case Err(e) => Err(e)
      case Ok(o) => EnvStep(config, o, env[|env| - 1], p)
  }

  /** One turn of the loop, for one variable. */
  function EnvStep(config: Config, o: Overrides, entry: (string, string), p: Parsers): Result<Overrides> {
    match EnvTarget(config, entry.0)
    case None => Ok(o)
    case Some((section, key)) =>
      match ConvertValue(entry.1, SettingOf(config, section, key).value, p)
      case Err(e) => Err(e)
      case Ok(v) => Ok(Put(o, section, key, v))
  }

  /** `read_env_overrides`, over the environment `env` in its iteration order. */
  method ReadEnvOverrides(config: Config, env: Dict.Dict<string, string>, p: Parsers) returns (r: Result<Overrides>)
    ensures r == EnvOverrides(config, env, p)
  {
    var overrides: Overrides := [];
    for i := 0 to |env|
      invariant EnvOverrides(config, env[..i], p) == Ok(overrides)
    {
      EnvOverridesStep(config, env, i, overrides, p);
      var step := ReadVariable(config, overrides, env[i].0, env[i].1, p);
      if step.Err? {
        EnvFailureSticks(config, env, i + 1, p);
        return Err(step.error);
      }
      overrides := step.value;
    }
    assert env[..|env|] == env;
    r := Ok(overrides);
  }

  /** The body of the loop of `read_env_overrides`, for the variable `envKey=envValue`. */
  method ReadVariable(config: Config, overrides: Overrides, envKey: string, envValue: string, p: Parsers)
    returns (r: Result<Overrides>)
    ensures r == EnvStep(config, overrides, (envKey, envValue), p)
  {
    if !StartsWith(envKey, Prefix) {
      return Ok(overrides);
    }
    var parts := SplitOnce(Lower(RemoveAll(envKey, Prefix)), "_");
    if |parts| != 2 {
      return Ok(overrides);
    }
    var section, key := parts[0], parts[1];
    var sectionObj := Dict.Get(config, section);
    if sectionObj.None? {
      return Ok(overrides);
    }
    var current := Dict.Get(sectionObj.value, key);
    if current.None? {
      return Ok(overrides);
    }
    assert EnvTarget(config, envKey) == Some((section, key));
    var converted := ConvertValue(envValue, current.value, p);
    if converted.Err? {
      return Err(converted.error);
    }
    var result := overrides;
    if Dict.Get(result, section).None? {
      result := Dict.Set(result, section, []);
    }
    PutAfterSetdefault(overrides, result, section, key, converted.value);
    result := Dict.Set(result, section, Dict.Set(Dict.Get(result, section).value, key, converted.value));
    return Ok(result);
  }

  /** The loop's step: one more variable is one more `EnvStep`. */
  lemma EnvOverridesStep(config: Config, env: Dict.Dict<string, string>, i: nat, o: Overrides, p: Parsers)
    requires i < |env| && EnvOverrides(config, env[..i], p) == Ok(o)
    ensures EnvOverrides(config, env[..i + 1], p) == EnvStep(config, o, env[i], p)
  {
    assert env[..i + 1][..i] == env[..i];
  }

  /** Creating an empty section first and then assigning into it is `Put`. */
  lemma PutAfterSetdefault(o: Overrides, o': Overrides, section: string, key: string, value: Value)
    requires o' == if Dict.Get(o, section).None? then Dict.Set(o, section, []) else o
    ensures Dict.Get(o', section).Some?
    ensures Dict.Set(o', section, Dict.Set(Dict.Get(o', section).value, key, value)) == Put(o, section, key, value)
  {
    if Dict.Get(o, section).None? {
      Dict.SetSet(o, section, [], Dict.Set([], key, value));
    }
  }

  /** Once a conversion has failed, the rest of the environment is not read. */
  lemma {:induction false} EnvFailureSticks(config: Config, env: Dict.Dict<string, string>, i: nat, p: Parsers)
    requires i <= |env| && EnvOverrides(config, env[..i], p).Err?
    ensures EnvOverrides(config, env, p) == EnvOverrides(config, env[..i], p)
    decreases |env| - i
  {
    if i < |env| {
      assert env[..i + 1][..i] == env[..i];
      EnvFailureSticks(config, env, i + 1, p);
    } else {
      assert env[..i] == env;
    }
  }

  // ------------------------------------------------------------ properties

  /** The last variable, if any, of `env` that names `section`.`key`. */
  function LastNaming(config: Config, env: Dict.Dict<string, string>, section: string, key: string): (r: Option<nat>)
    ensures r.Some? ==> r.value < |env| && EnvTarget(config, env[r.value].0) == Some((section, key))
    ensures r.Some? ==> forall j :: r.value < j < |env| ==> EnvTarget(config, env[j].0) != Some((section, key))
    ensures r.None? ==> forall j :: 0 <= j < |env| ==> EnvTarget(config, env[j].0) != Some((section, key))
  {
    if env == [] then None
    else if EnvTarget(config, env[|env| - 1].0) == Some((section, key)) then Some(|env| - 1)
    else
      var r := LastNaming(config, env[..|env| - 1], section, key);
      assert forall j :: 0 <= j < |env| - 1 ==> env[..|env| - 1][j] == env[j];
      r
  }

  lemma PutGet(o: Overrides, section: string, key: string, value: Value, s: string, k: string)
    ensures OverrideOf(Put(o, section, key, value), s, k)
         == if (s, k) == (section, key) then Some(value) else OverrideOf(o, s, k)
  {
    var d := Dict.GetOr(o, section, []);
    if s != section {
      Dict.SetOther(o, section, Dict.Set(d, key, value), s);
    } else if k != key {
      Dict.SetOther(d, key, value, k);
    }
  }

  /**
   * When every conversion succeeds, a setting is overridden exactly when
   * some variable names it, and by the converted value of the last one
   * that does.
   */
  lemma {:induction false} EnvOverridesLastWins(config: Config, env: Dict.Dict<string, string>, p: Parsers, s: string, k: string)
    requires EnvOverrides(config, env, p).Ok?
    ensures OverrideOf(EnvOverrides(config, env, p).value, s, k)
         == match LastNaming(config, env, s, k)
            case None => None
            case Some(i) =>
              match ConvertValue(env[i].1, SettingOf(config, s, k).value, p)
              case Ok(v) => Some(v)
              case Err(_) => None
  {
    if env != [] {
      var init, last := env[..|env| - 1], env[|env| - 1];
      var o := EnvOverrides(config, init, p).value;
      EnvOverridesLastWins(config, init, p, s, k);
      var earlier := LastNaming(config, init, s, k);
      if earlier.Some? {
        assert init[earlier.value] == env[earlier.value];
      }
      match EnvTarget(config, last.0)
      case None =>
      case Some((section, key)) =>
        var v := ConvertValue(last.1, SettingOf(config, section, key).value, p).value;
        PutGet(o, section, key, v, s, k);
    }
  }

  /** The variable names a setting and its text does not convert to that setting's type. */
  predicate ConversionFails(config: Config, entry: (string, string), p: Parsers) {
    EnvTarget(config, entry.0).Some?
    && ConvertValue(entry.1, SettingOf(config, EnvTarget(config, entry.0).value.0, EnvTarget(config, entry.0).value.1).value, p).Err?
  }

  /** Some variable of `env` names a setting and its text does not convert. */
  predicate SomeConversionFails(config: Config, env: Dict.Dict<string, string>, p: Parsers) {
    exists i :: 0 <= i < |env| && ConversionFails(config, env[i], p)
  }

  /** Some element of `xs` satisfies `f` exactly when one before the last does or the last does. */
  lemma ExistsStep<T>(xs: seq<T>, init: seq<T>, f: T -> bool)
    requires xs != [] && init == xs[..|xs| - 1]
    ensures (exists i :: 0 <= i < |xs| && f(xs[i])) <==> (exists i :: 0 <= i < |init| && f(init[i])) || f(xs[|xs| - 1])
  {
    if exists i :: 0 <= i < |init| && f(init[i]) {
      var i :| 0 <= i < |init| && f(init[i]);
      assert xs[i] == init[i];
    }
    if exists i :: 0 <= i < |xs| && f(xs[i]) {
      var i :| 0 <= i < |xs| && f(xs[i]);
      if i < |init| {
        assert init[i] == xs[i];
      }
    }
  }

  lemma SomeConversionFailsStep(config: Config, env: Dict.Dict<string, string>, p: Parsers)
    requires env != []
    ensures SomeConversionFails(config, env, p)
        <==> SomeConversionFails(config, env[..|env| - 1], p) || ConversionFails(config, env[|env| - 1], p)
  {
    ExistsStep(env, env[..|env| - 1], e => ConversionFails(config, e, p));
  }

  /** Reading fails exactly when the text of some variable naming a setting does not convert. */
  lemma {:induction false} EnvOverridesFail(config: Config, env: Dict.Dict<string, string>, p: Parsers)
    ensures EnvOverrides(config, env, p).Err? <==> SomeConversionFails(config, env, p)
  {
    if env != [] {
      var init := env[..|env| - 1];
      EnvOverridesFail(config, init, p);
      SomeConversionFailsStep(config, env, p);
      if EnvOverrides(config, init, p).Ok? {
        EnvStepFails(config, EnvOverrides(config, init, p).value, env[|env| - 1], p);
      }
    }
  }

  /** One variable fails exactly when it names a setting and its text does not convert. */
  lemma EnvStepFails(config: Config, o: Overrides, entry: (string, string), p: Parsers)
    ensures EnvStep(config, o, entry, p).Err? <==> ConversionFails(config, entry, p)
  {
  }

  /** Each section, and each setting within a section, occurs once. */
  lemma {:induction false} EnvOverridesUnique(config: Config, env: Dict.Dict<string, string>, p: Parsers)
    requires EnvOverrides(config, env, p).Ok?
    ensures Dict.Unique(EnvOverrides(config, env, p).value)
    ensures forall i :: 0 <= i < |EnvOverrides(config, env, p).value| ==> Dict.Unique(EnvOverrides(config, env, p).value[i].1)
  {
    if env != [] {
      var o := EnvOverrides(config, env[..|env| - 1], p).value;
      EnvOverridesUnique(config, env[..|env| - 1], p);
      match EnvTarget(config, env[|env| - 1].0)
      case None =>
      case Some((section, key)) =>
        var v := ConvertValue(env[|env| - 1].1, SettingOf(config, section, key).value, p).value;
        PutUnique(o, section, key, v);
    }
  }

  lemma PutUnique(o: Overrides, section: string, key: string, value: Value)
    requires Dict.Unique(o) && forall i :: 0 <= i < |o| ==> Dict.Unique(o[i].1)
    ensures Dict.Unique(Put(o, section, key, value))
    ensures forall i :: 0 <= i < |Put(o, section, key, value)| ==> Dict.Unique(Put(o, section, key, value)[i].1)
  {
    var d := Dict.GetOr(o, section, []);
    assert Dict.Unique(d) by {
      if Dict.Get(o, section).Some? {
        Dict.GetFound(o, section);
      }
    }
    Dict.SetUnique(d, key, value);
    Dict.SetUnique(o, section, Dict.Set(d, key, value));
    SetValues(o, section, Dict.Set(d, key, value));
  }

  /** Every value of `Set(o, k, v)` is `v` or a value of `o`. */
  lemma {:induction false} SetValues<V>(o: Dict.Dict<string, V>, k: string, v: V)
    ensures forall i :: 0 <= i < |Dict.Set(o, k, v)| ==> Dict.Set(o, k, v)[i].1 == v || Dict.Set(o, k, v)[i] in o
  {
    if o != [] && o[0].0 != k {
      SetValues(o[1..], k, v);
    }
  }

  /** Variables without the prefix are never read. */
  lemma NoPrefixNoOverrides(config: Config, env: Dict.Dict<string, string>, p: Parsers, s: string, k: string)
    requires forall i :: 0 <= i < |env| ==> !StartsWith(env[i].0, Prefix)
    ensures EnvOverrides(config, env, p).Ok?
    ensures OverrideOf(EnvOverrides(config, env, p).value, s, k).None?
  {
    EnvOverridesFail(config, env, p);
    EnvOverridesLastWins(config, env, p, s, k);
  }

  /** Every occurrence of the prefix goes, not just the leading one. */
  lemma {:induction false} RemovePrefixTwice(rest: string)
    ensures RemoveAll(Prefix + rest, Prefix) == RemoveAll(rest, Prefix)
  {
    var s := Prefix + rest;
    assert OccursAt(s, Prefix, 0);
    assert s[|Prefix|..] == rest;
  }
}
