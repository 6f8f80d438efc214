/**
 * The configuration loader: it holds the current configuration and replaces
 * settings in it, one at a time, from the configuration file, the
 * environment and the command line. A value that does not fit its setting
 * is skipped; `binary_extensions` is merged into rather than replaced.
 */
module ConfigLoader {
  import opened Wrappers
  import opened PyStr
  import Json
  import Dict
  import opened ConfigValues
  import opened ConfigData
  import ConfigEnvReader

  // ------------------------------------------------------------ binary extensions

  /** No element occurs twice. */
  predicate Distinct(xs: seq<string>) {
    forall i, j :: 0 <= i < j < |xs| ==> xs[i] != xs[j]
  }

  /** The elements of `xs` in order, each kept at its first occurrence only. */
  function Dedup(xs: seq<string>): (r: seq<string>)
    ensures forall x :: x in r <==> x in xs
  {
    if xs == [] then []
    else
      var d := Dedup(xs[..|xs| - 1]);
      if xs[|xs| - 1] in d then d else d + [xs[|xs| - 1]]
  }

  lemma {:induction false} DedupDistinct(xs: seq<string>)
    ensures Distinct(Dedup(xs))
  {
    if xs != [] {
      DedupDistinct(xs[..|xs| - 1]);
    }
  }

  /** Removing repeats from a list without any changes nothing. */
  lemma {:induction false} DedupOfDistinct(xs: seq<string>)
    requires Distinct(xs)
    ensures Dedup(xs) == xs
  {
    if xs != [] {
      var init := xs[..|xs| - 1];
      DedupOfDistinct(init);
      assert xs[|xs| - 1] !in init;
      assert init + [xs[|xs| - 1]] == xs;
    }
  }

  /** Appending never disturbs what is already there: the first part's result is a prefix. */
  lemma {:induction false} DedupPrefix(a: seq<string>, b: seq<string>)
    ensures Dedup(a) <= Dedup(a + b)
    decreases |b|
  {
    if b == [] {
      assert a + b == a;
    } else {
      var init := b[..|b| - 1];
      DedupPrefix(a, init);
      assert (a + b)[..|a + b| - 1] == a + init;
    }
  }

  /**
   * `_merge_binary_extensions`: the current tuple followed by the new one,
   * repeats dropped. The result is a tuple exactly when the current value
   * is, and then holds exactly the extensions of both.
   */
  function MergedExtensions(current: Value, added: Value): (r: Value)
    ensures r.Tuple? <==> current.Tuple?
    ensures current.Tuple? && added.Tuple? ==> forall x :: x in r.items <==> x in current.items || x in added.items
  {
    if !added.Tuple? || !current.Tuple? then current
    else Tuple(Dedup(current.items + added.items))
  }

  /** The merge keeps the current extensions, in order, adds only the new ones, and repeats none. */
  lemma MergeKeepsCurrent(current: seq<string>, added: seq<string>)
    requires Distinct(current)
    ensures MergedExtensions(Tuple(current), Tuple(added)).Tuple?
    ensures current <= MergedExtensions(Tuple(current), Tuple(added)).items
    ensures Distinct(MergedExtensions(Tuple(current), Tuple(added)).items)
    ensures forall x :: x in MergedExtensions(Tuple(current), Tuple(added)).items <==> x in current || x in added
  {
    DedupOfDistinct(current);
    DedupPrefix(current, added);
    DedupDistinct(current + added);
  }

  /** One more element is kept exactly when it has not been seen. */
  lemma DedupStep(xs: seq<string>, i: nat)
    requires i < |xs|
    ensures Dedup(xs[..i + 1]) == if xs[i] in Dedup(xs[..i]) then Dedup(xs[..i]) else Dedup(xs[..i]) + [xs[i]]
  {
    assert xs[..i + 1][..i] == xs[..i];
  }

  /** `_merge_binary_extensions`, with its `seen` set. */
  method MergeBinaryExtensions(current: Value, added: Value) returns (r: Value)
    ensures r == MergedExtensions(current, added)
  {
    if !added.Tuple? || !current.Tuple? {
      return current;
    }
    var combined := current.items + added.items;
    var seen: set<string> := {};
    var result: seq<string> := [];
    for i := 0 to |combined|
      invariant result == Dedup(combined[..i])
      invariant forall x :: x in seen <==> x in result
    {
      var ext := combined[i];
      DedupStep(combined, i);
      if ext !in seen {
        seen := seen + {ext};
        result := result + [ext];
      }
    }
    assert combined[..|combined|] == combined;
    return Tuple(result);
  }

  // ------------------------------------------------------------ one setting

  /** The configuration with one setting of an existing section replaced. */
  function SetSetting(config: Config, section: string, setting: string, v: Value): Config {
    Dict.Set(config, section, Dict.Set(Dict.GetOr(config, section, []), setting, v))
  }

  lemma SetSettingGet(config: Config, section: string, setting: string, v: Value, s: string, k: string)
    requires Dict.Get(config, section).Some?
    ensures SettingOf(SetSetting(config, section, setting, v), s, k)
         == if (s, k) == (section, setting) then Some(v) else SettingOf(config, s, k)
  {
    var obj := Dict.GetOr(config, section, []);
    if s != section {
      Dict.SetOther(config, section, Dict.Set(obj, setting, v), s);
    } else if k != setting {
      Dict.SetOther(obj, setting, v, k);
    }
  }

  /**
   * `_update_section_setting`: an unknown section or setting, or a value
   * that does not normalise against the current one, leaves the
   * configuration as it is.
   */
  function UpdatedSetting(config: Config, section: string, setting: string, value: Value, p: Parsers): (r: Config)
    ensures SettingOf(r, section, setting).Some? <==> SettingOf(config, section, setting).Some?
    ensures r != config ==>
      SettingOf(config, section, setting).Some? && NormalizeValue(value, SettingOf(config, section, setting).value, p).Ok?
  {
    match SettingOf(config, section, setting)
    case None => config
    case Some(current) =>
      match NormalizeValue(value, current, p)
      case Err(_) => config
      case Ok(normalized) =>
        var v := if section == "scan" && setting == "binary_extensions"
                 then MergedExtensions(current, normalized) else normalized;
        SetSettingGet(config, section, setting, v, section, setting);
        SetSetting(config, section, setting, v)
  }

  /**
   * An update changes the named setting and no other, and the named one
   * only when it exists and the value normalises.
   */
  lemma UpdatedSettingFrame(config: Config, section: string, setting: string, value: Value, p: Parsers, s: string, k: string)
    ensures (s, k) != (section, setting) ==>
      SettingOf(UpdatedSetting(config, section, setting, value, p), s, k) == SettingOf(config, s, k)
    ensures SettingOf(config, section, setting).None? ==> UpdatedSetting(config, section, setting, value, p) == config
    ensures SettingOf(config, section, setting).Some? && NormalizeValue(value, SettingOf(config, section, setting).value, p).Err?
      ==> UpdatedSetting(config, section, setting, value, p) == config
  {
    match SettingOf(config, section, setting)
    case None =>
    case Some(current) =>
      match NormalizeValue(value, current, p)
      case Err(_) =>
      case Ok(normalized) =>
        var v := if section == "scan" && setting == "binary_extensions"
                 then MergedExtensions(current, normalized) else normalized;
        SetSettingGet(config, section, setting, v, s, k);
  }

  /** Apart from `binary_extensions`, a setting that takes the value holds the normalised value. */
  lemma UpdatedSettingValue(config: Config, section: string, setting: string, value: Value, p: Parsers)
    requires SettingOf(config, section, setting).Some?
    requires NormalizeValue(value, SettingOf(config, section, setting).value, p).Ok?
    requires !(section == "scan" && setting == "binary_extensions")
    ensures SettingOf(UpdatedSetting(config, section, setting, value, p), section, setting)
         == Some(NormalizeValue(value, SettingOf(config, section, setting).value, p).value)
  {
    var v := NormalizeValue(value, SettingOf(config, section, setting).value, p).value;
    SetSettingGet(config, section, setting, v, section, setting);
  }

  /** A setting present before is present after, and a float, tuple or mapping setting keeps its kind. */
  predicate KindKept(config: Config, config': Config, s: string, k: string) {
    SettingOf(config', s, k).Some? == SettingOf(config, s, k).Some?
    && (SettingOf(config, s, k).Some? ==> SameKind(SettingOf(config', s, k).value, SettingOf(config, s, k).value))
  }

  lemma KindKeptTrans(c0: Config, c1: Config, c2: Config, s: string, k: string)
    requires KindKept(c0, c1, s, k) && KindKept(c1, c2, s, k)
    ensures KindKept(c0, c2, s, k)
  {
  }

  lemma UpdatedSettingKind(config: Config, section: string, setting: string, value: Value, p: Parsers, s: string, k: string)
    ensures KindKept(config, UpdatedSetting(config, section, setting, value, p), s, k)
  {
    UpdatedSettingFrame(config, section, setting, value, p, s, k);
    if (s, k) == (section, setting) && SettingOf(config, s, k).Some? {
      var current := SettingOf(config, s, k).value;
      NormalizeKeepsKind(value, current, p);
      match NormalizeValue(value, current, p)
      case Err(_) =>
      case Ok(normalized) =>
        var v := if section == "scan" && setting == "binary_extensions"
                 then MergedExtensions(current, normalized) else normalized;
        SetSettingGet(config, section, setting, v, s, k);
    }
  }

  /**
   * The invariant the loader keeps: `binary_extensions` is a tuple without
   * repeats that starts with the default extensions.
   */
  predicate ExtensionsKept(config: Config) {
    var b := SettingOf(config, "scan", "binary_extensions");
    b.Some? && b.value.Tuple? && Distinct(b.value.items) && DefaultBinaryExtensions <= b.value.items
  }

  lemma DefaultExtensionsKept(cwd: string)
    ensures ExtensionsKept(DefaultConfig(cwd))
  {
    DefaultBinaryExtensionsShape(cwd);
  }

  lemma UpdatedSettingExtensions(config: Config, section: string, setting: string, value: Value, p: Parsers)
    requires ExtensionsKept(config)
    ensures ExtensionsKept(UpdatedSetting(config, section, setting, value, p))
  {
    var s, k := "scan", "binary_extensions";
    UpdatedSettingFrame(config, section, setting, value, p, s, k);
    if (section, setting) == (s, k) {
      var current := SettingOf(config, s, k).value;
      match NormalizeValue(value, current, p)
      case Err(_) =>
      case Ok(normalized) =>
        assert normalized.Tuple?;
        MergeKeepsCurrent(current.items, normalized.items);
        SetSettingGet(config, section, setting, MergedExtensions(current, normalized), s, k);
    }
  }

  // ------------------------------------------------------------ keys from the command line

  /** `_should_skip_update`: no value, or no `_` in the key. */
  predicate ShouldSkipUpdate(key: string, value: Value) {
    value == Plain(Json.Null) || '_' !in key
  }

  /** `_parse_config_key`: the key split at its first `_`, or nothing without one. */
  function ParseConfigKey(key: string): (r: Option<(string, string)>)
    ensures r.Some? <==> '_' in key
    ensures r.Some? ==> r.value.0 + "_" + r.value.1 == key && '_' !in r.value.0
  {
    var parts := SplitOnce(key, "_");
    SplitOnceChar(key, '_');
    if |parts| != 2 then None else Some((parts[0], parts[1]))
  }

  /** `core_verbose_mode_enabled` names the `verbose_mode_enabled` setting of `core`. */
  lemma ParseConfigKeyExample()
    ensures ParseConfigKey("core_verbose_mode_enabled") == Some(("core", "verbose_mode_enabled"))
  {
    assert "core" + "_" + "verbose_mode_enabled" == "core_verbose_mode_enabled";
    ParseThis("core", "verbose_mode_enabled");
  }

  /** A key with a `_` splits into one section (without `_`) and one setting only. */
  lemma KeySplitUnique(a: string, b: string, a': string, b': string)
    requires a + "_" + b == a' + "_" + b' && '_' !in a && '_' !in a'
    ensures a == a' && b == b'
  {
    var key := a + "_" + b;
    assert key[|a|] == '_' && key[|a'|] == '_';
    assert forall j :: 0 <= j < |a| ==> key[j] == a[j];
    assert forall j :: 0 <= j < |a'| ==> key[j] == a'[j];
    assert a == key[..|a|] == a';
    assert b == key[|a| + 1..] == b';
  }

  /** `sep in key` for a one-character separator. */
  lemma ContainsChar(key: string, c: char)
    ensures Contains(key, [c]) <==> c in key
  {
    if c in key {
      var k :| 0 <= k < |key| && key[k] == c;
      assert OccursAt(key, [c], k);
    }
    if Contains(key, [c]) {
      var k := Find(key, [c]).value;
      assert key[k..k + 1] == [c];
      assert key[k] == c;
    }
  }

  /** The splitting `SplitOnce` does for a one-character separator. */
  lemma SplitOnceChar(key: string, c: char)
    ensures |SplitOnce(key, [c])| == 2 <==> c in key
    ensures |SplitOnce(key, [c])| == 2 ==>
      SplitOnce(key, [c])[0] + [c] + SplitOnce(key, [c])[1] == key && c !in SplitOnce(key, [c])[0]
  {
    ContainsChar(key, c);
    ContainsChar(SplitOnce(key, [c])[0], c);
  }

  /** One entry of `update_from_cli`. */
  function CliStep(config: Config, entry: (string, Value), p: Parsers): Config {
    if ShouldSkipUpdate(entry.0, entry.1) then config
    else
      match ParseConfigKey(entry.0)
      case None => config
      case Some((section, setting)) =>
        if section != [] && setting != [] then UpdatedSetting(config, section, setting, entry.1, p) else config
  }

  /** `update_from_cli` over its keyword arguments, in order. */
  function CliUpdated(config: Config, kwargs: Dict.Dict<string, Value>, p: Parsers): Config {
    if kwargs == [] then config
    else CliStep(CliUpdated(config, kwargs[..|kwargs| - 1], p), kwargs[|kwargs| - 1], p)
  }

  /** A setting no keyword argument names `section_setting` is left as it was. */
  lemma {:induction false} CliUntouched(config: Config, kwargs: Dict.Dict<string, Value>, p: Parsers, s: string, k: string)
    requires '_' !in s
    requires Dict.Get(kwargs, s + "_" + k).None?
    ensures SettingOf(CliUpdated(config, kwargs, p), s, k) == SettingOf(config, s, k)
  {
    if kwargs != [] {
      var init, last := kwargs[..|kwargs| - 1], kwargs[|kwargs| - 1];
      Dict.GetNone(kwargs, s + "_" + k);
      Dict.GetNone(init, s + "_" + k);
      CliUntouched(config, init, p, s, k);
      CliStepOther(CliUpdated(config, init, p), last, p, s, k);
    }
  }

  /** An argument that does not name `section_setting` leaves that setting alone. */
  lemma CliStepOther(c: Config, entry: (string, Value), p: Parsers, s: string, k: string)
    requires '_' !in s && entry.0 != s + "_" + k
    ensures SettingOf(CliStep(c, entry, p), s, k) == SettingOf(c, s, k)
  {
    if !ShouldSkipUpdate(entry.0, entry.1) && ParseConfigKey(entry.0).Some? {
      var (section, setting) := ParseConfigKey(entry.0).value;
      UpdatedSettingFrame(c, section, setting, entry.1, p, s, k);
    }
  }

  /** The argument naming `section_setting` sets it to its normalised value. */
  lemma CliStepThis(c: Config, entry: (string, Value), p: Parsers, s: string, k: string)
    requires entry.0 == s + "_" + k && '_' !in s && s != [] && k != [] && entry.1 != Plain(Json.Null)
    requires SettingOf(c, s, k).Some? && !(s == "scan" && k == "binary_extensions")
    requires NormalizeValue(entry.1, SettingOf(c, s, k).value, p).Ok?
    ensures SettingOf(CliStep(c, entry, p), s, k) == Some(NormalizeValue(entry.1, SettingOf(c, s, k).value, p).value)
  {
    ParseThis(s, k);
    UpdatedSettingValue(c, s, k, entry.1, p);
  }

  /**
   * Command-line values take precedence: the setting a keyword argument
   * names ends up holding that argument's normalised value, whatever the
   * other arguments are.
   */
  lemma {:induction false} CliValue(config: Config, kwargs: Dict.Dict<string, Value>, p: Parsers, i: nat, s: string, k: string)
    requires Dict.Unique(kwargs) && i < |kwargs| && kwargs[i].0 == s + "_" + k
    requires '_' !in s && s != [] && k != [] && kwargs[i].1 != Plain(Json.Null)
    requires SettingOf(config, s, k).Some? && !(s == "scan" && k == "binary_extensions")
    requires NormalizeValue(kwargs[i].1, SettingOf(config, s, k).value, p).Ok?
    ensures SettingOf(CliUpdated(config, kwargs, p), s, k)
         == Some(NormalizeValue(kwargs[i].1, SettingOf(config, s, k).value, p).value)
    decreases |kwargs|
  {
    var init, last := kwargs[..|kwargs| - 1], kwargs[|kwargs| - 1];
    var c := CliUpdated(config, init, p);
    if i == |kwargs| - 1 {
      assert Dict.Get(init, s + "_" + k).None? by {
        Dict.GetNone(init, s + "_" + k);
      }
      CliUntouched(config, init, p, s, k);
      CliStepThis(c, last, p, s, k);
    } else {
      assert Dict.Unique(init);
      CliValue(config, init, p, i, s, k);
      assert kwargs[i].0 != last.0;
      CliStepOther(c, last, p, s, k);
    }
  }

  lemma ParseThis(s: string, k: string)
    requires '_' !in s
    ensures ParseConfigKey(s + "_" + k) == Some((s, k))
  {
    var key := s + "_" + k;
    assert key[|s|] == '_';
    var r := ParseConfigKey(key);
    KeySplitUnique(r.value.0, r.value.1, s, k);
  }

  lemma {:induction false} CliKinds(config: Config, kwargs: Dict.Dict<string, Value>, p: Parsers, s: string, k: string)
    ensures KindKept(config, CliUpdated(config, kwargs, p), s, k)
    ensures ExtensionsKept(config) ==> ExtensionsKept(CliUpdated(config, kwargs, p))
  {
    if kwargs != [] {
      var init, last := kwargs[..|kwargs| - 1], kwargs[|kwargs| - 1];
      CliKinds(config, init, p, s, k);
      var c := CliUpdated(config, init, p);
      if !ShouldSkipUpdate(last.0, last.1) && ParseConfigKey(last.0).Some? {
        var (section, setting) := ParseConfigKey(last.0).value;
        UpdatedSettingKind(c, section, setting, last.1, p, s, k);
        KindKeptTrans(config, c, CliUpdated(config, kwargs, p), s, k);
        if ExtensionsKept(config) {
          UpdatedSettingExtensions(c, section, setting, last.1, p);
        }
      }
    }
  }

  // ------------------------------------------------------------ file and environment

  /** A section's settings, applied in order. */
  function SectionUpdated(config: Config, section: string, settings: Dict.Dict<string, Value>, p: Parsers): Config {
    if settings == [] then config
    else
      var last := settings[|settings| - 1];
      UpdatedSetting(SectionUpdated(config, section, settings[..|settings| - 1], p), section, last.0, last.1, p)
  }

  /** The fields of a parsed table, as values offered to settings. */
  function PlainFields(fields: Dict.Dict<string, Json.Value>): (r: Dict.Dict<string, Value>)
    ensures |r| == |fields| && forall i :: 0 <= i < |fields| ==> r[i] == (fields[i].0, Plain(fields[i].1))
  {
    seq(|fields|, i requires 0 <= i < |fields| => (fields[i].0, Plain(fields[i].1)))
  }

  /** `_update_config_from_dict`: unknown sections and sections that are not tables are passed over. */
  function FileUpdated(config: Config, file: Dict.Dict<string, Json.Value>, p: Parsers): Config {
    if file == [] then config
    else
      var c := FileUpdated(config, file[..|file| - 1], p);
      var (section, values) := file[|file| - 1];
      if Dict.Get(c, section).None? || !values.Obj? then c
      else SectionUpdated(c, section, PlainFields(values.fields), p)
  }

  /** Every section of the overrides, applied in order. */
  function OverridesApplied(config: Config, o: ConfigEnvReader.Overrides, p: Parsers): Config {
    if o == [] then config
    else
      var last := o[|o| - 1];
      SectionUpdated(OverridesApplied(config, o[..|o| - 1], p), last.0, last.1, p)
  }

  lemma OverridesAppliedStep(config: Config, o: ConfigEnvReader.Overrides, i: nat, p: Parsers)
    requires i < |o|
    ensures OverridesApplied(config, o[..i + 1], p) == SectionUpdated(OverridesApplied(config, o[..i], p), o[i].0, o[i].1, p)
  {
    assert o[..i + 1][..i] == o[..i];
  }

  /** `_load_from_env`: the overrides read, then applied; a failed conversion is the error raised. */
  function EnvLoaded(config: Config, env: Dict.Dict<string, string>, p: Parsers): Result<Config> {
    match ConfigEnvReader.EnvOverrides(config, env, p)
    case Err(e) => Err(e)
    case Ok(o) => Ok(OverridesApplied(config, o, p))
  }

  lemma {:induction false} SectionKinds(config: Config, section: string, settings: Dict.Dict<string, Value>, p: Parsers, s: string, k: string)
    ensures KindKept(config, SectionUpdated(config, section, settings, p), s, k)
    ensures ExtensionsKept(config) ==> ExtensionsKept(SectionUpdated(config, section, settings, p))
  {
    if settings != [] {
      var init, last := settings[..|settings| - 1], settings[|settings| - 1];
      var c := SectionUpdated(config, section, init, p);
      SectionKinds(config, section, init, p, s, k);
      UpdatedSettingKind(c, section, last.0, last.1, p, s, k);
      KindKeptTrans(config, c, SectionUpdated(config, section, settings, p), s, k);
      if ExtensionsKept(config) {
        UpdatedSettingExtensions(c, section, last.0, last.1, p);
      }
    }
  }

  /** A section's updates touch only that section, and only the settings named. */
  lemma {:induction false} SectionUntouched(config: Config, section: string, settings: Dict.Dict<string, Value>, p: Parsers, s: string, k: string)
    requires s != section || Dict.Get(settings, k).None?
    ensures SettingOf(SectionUpdated(config, section, settings, p), s, k) == SettingOf(config, s, k)
  {
    if settings != [] {
      var init, last := settings[..|settings| - 1], settings[|settings| - 1];
      if s == section {
        Dict.GetNone(settings, k);
        Dict.GetNone(init, k);
      }
      SectionUntouched(config, section, init, p, s, k);
      UpdatedSettingFrame(SectionUpdated(config, section, init, p), section, last.0, last.1, p, s, k);
    }
  }

  lemma {:induction false} FileKinds(config: Config, file: Dict.Dict<string, Json.Value>, p: Parsers, s: string, k: string)
    ensures KindKept(config, FileUpdated(config, file, p), s, k)
    ensures ExtensionsKept(config) ==> ExtensionsKept(FileUpdated(config, file, p))
  {
    if file != [] {
      var c := FileUpdated(config, file[..|file| - 1], p);
      FileKinds(config, file[..|file| - 1], p, s, k);
      var (section, values) := file[|file| - 1];
      if Dict.Get(c, section).Some? && values.Obj? {
        SectionKinds(c, section, PlainFields(values.fields), p, s, k);
        KindKeptTrans(config, c, FileUpdated(config, file, p), s, k);
      }
    }
  }

  /** A file section that is unknown, or not a table, changes nothing. */
  lemma FileSkipsSection(config: Config, file: Dict.Dict<string, Json.Value>, p: Parsers, section: string, values: Json.Value)
    requires Dict.Get(FileUpdated(config, file, p), section).None? || !values.Obj?
    ensures FileUpdated(config, file + [(section, values)], p) == FileUpdated(config, file, p)
  {
    assert (file + [(section, values)])[..|file|] == file;
  }

  lemma {:induction false} OverridesKinds(config: Config, o: ConfigEnvReader.Overrides, p: Parsers, s: string, k: string)
    ensures KindKept(config, OverridesApplied(config, o, p), s, k)
    ensures ExtensionsKept(config) ==> ExtensionsKept(OverridesApplied(config, o, p))
  {
    if o != [] {
      var c := OverridesApplied(config, o[..|o| - 1], p);
      OverridesKinds(config, o[..|o| - 1], p, s, k);
      SectionKinds(c, o[|o| - 1].0, o[|o| - 1].1, p, s, k);
      KindKeptTrans(config, c, OverridesApplied(config, o, p), s, k);
    }
  }

  /** Settings the environment does not name keep their values. */
  lemma {:induction false} OverridesUntouched(config: Config, o: ConfigEnvReader.Overrides, p: Parsers, s: string, k: string)
    requires Dict.Unique(o) && ConfigEnvReader.OverrideOf(o, s, k).None?
    ensures SettingOf(OverridesApplied(config, o, p), s, k) == SettingOf(config, s, k)
  {
    if o != [] {
      var init, last := o[..|o| - 1], o[|o| - 1];
      OverridesFrameStep(o, s, k);
      OverridesUntouched(config, init, p, s, k);
      SectionUntouched(OverridesApplied(config, init, p), last.0, last.1, p, s, k);
    }
  }

  lemma OverridesFrameStep(o: ConfigEnvReader.Overrides, s: string, k: string)
    requires o != [] && Dict.Unique(o) && ConfigEnvReader.OverrideOf(o, s, k).None?
    ensures Dict.Unique(o[..|o| - 1]) && ConfigEnvReader.OverrideOf(o[..|o| - 1], s, k).None?
    ensures o[|o| - 1].0 != s || Dict.Get(o[|o| - 1].1, k).None?
  {
    var init, last := o[..|o| - 1], o[|o| - 1];
    assert o == init + [last];
    Dict.GetNone(init, last.0);
    Dict.GetAppend(init, last.0, last.1, s);
  }

  /** Settings no environment variable names keep their values when the environment is loaded. */
  lemma EnvLoadedUntouched(config: Config, env: Dict.Dict<string, string>, p: Parsers, s: string, k: string)
    requires EnvLoaded(config, env, p).Ok?
    requires forall i :: 0 <= i < |env| ==> ConfigEnvReader.EnvTarget(config, env[i].0) != Some((s, k))
    ensures SettingOf(EnvLoaded(config, env, p).value, s, k) == SettingOf(config, s, k)
  {
    var o := ConfigEnvReader.EnvOverrides(config, env, p).value;
    ConfigEnvReader.EnvOverridesLastWins(config, env, p, s, k);
    ConfigEnvReader.EnvOverridesUnique(config, env, p);
    OverridesUntouched(config, o, p, s, k);
  }

  /** Whatever the environment holds, loading from it keeps every setting's kind and the extensions invariant. */
  lemma EnvLoadedKinds(config: Config, env: Dict.Dict<string, string>, p: Parsers, s: string, k: string)
    requires EnvLoaded(config, env, p).Ok?
    ensures KindKept(config, EnvLoaded(config, env, p).value, s, k)
    ensures ExtensionsKept(config) ==> ExtensionsKept(EnvLoaded(config, env, p).value)
  {
    OverridesKinds(config, ConfigEnvReader.EnvOverrides(config, env, p).value, p, s, k);
  }

  /** Loading from an environment without `STATSVY_` variables changes nothing. */
  lemma EnvLoadedNoPrefix(config: Config, env: Dict.Dict<string, string>, p: Parsers)
    requires forall i :: 0 <= i < |env| ==> !StartsWith(env[i].0, ConfigEnvReader.Prefix)
    ensures EnvLoaded(config, env, p) == Ok(config)
  {
    EnvNoPrefixEmpty(config, env, p);
  }

  lemma {:induction false} EnvNoPrefixEmpty(config: Config, env: Dict.Dict<string, string>, p: Parsers)
    requires forall i :: 0 <= i < |env| ==> !StartsWith(env[i].0, ConfigEnvReader.Prefix)
    ensures ConfigEnvReader.EnvOverrides(config, env, p) == Ok([])
  {
    if env != [] {
      EnvNoPrefixEmpty(config, env[..|env| - 1], p);
    }
  }

  // ------------------------------------------------------------ the loader

  /** The file the loader reads: the one given, else `pyproject.toml` unless only `statsvy.toml` exists. */
  function ConfigPath(given: Option<string>, cwd: string, pyprojectExists: bool, statsvyTomlExists: bool): (r: string)
    ensures given.Some? ==> r == given.value
    ensures given.None? && !pyprojectExists && statsvyTomlExists ==> r == cwd + "/statsvy.toml"
    ensures given.None? && (pyprojectExists || !statsvyTomlExists) ==> r == cwd + "/pyproject.toml"
  {
    if given.Some? then given.value
    else if pyprojectExists then cwd + "/pyproject.toml"
    else if statsvyTomlExists then cwd + "/statsvy.toml"
    else cwd + "/pyproject.toml"
  }

  /** `ConfigLoader`: the configuration file's path and the current configuration. */
  class Loader {
    var configPath: string
    var config: Config

    /** The invariant every update keeps. */
    predicate Valid()
      reads this
    {
      ExtensionsKept(config)
    }

    /** The working directory and which of its two candidate files exist are given. */
    constructor(given: Option<string>, cwd: string, pyprojectExists: bool, statsvyTomlExists: bool)
      ensures configPath == ConfigPath(given, cwd, pyprojectExists, statsvyTomlExists)
      ensures config == DefaultConfig(cwd)
      ensures Valid()
    {
      configPath := ConfigPath(given, cwd, pyprojectExists, statsvyTomlExists);
      config := DefaultConfig(cwd);
      DefaultExtensionsKept(cwd);
    }

    /** `_update_section_setting`; the warning printed for a rejected value is not modelled. */
    method UpdateSectionSetting(section: string, setting: string, value: Value, p: Parsers)
      requires Valid()
      modifies this
      ensures config == UpdatedSetting(old(config), section, setting, value, p)
      ensures configPath == old(configPath) && Valid()
    {
      UpdatedSettingExtensions(config, section, setting, value, p);
      var sectionObj := Dict.Get(config, section);
      if sectionObj.None? || Dict.Get(sectionObj.value, setting).None? {
        return;
      }
      var current := Dict.Get(sectionObj.value, setting).value;
      var normalized := NormalizeValue(value, current, p);
      if normalized.Err? {
        return;
      }
      var v := normalized.value;
      if section == "scan" && setting == "binary_extensions" {
        v := MergeBinaryExtensions(current, v);
      }
      config := Dict.Set(config, section, Dict.Set(sectionObj.value, setting, v));
    }

    /** `update_from_cli`, over the keyword arguments in order. */
    method UpdateFromCli(kwargs: Dict.Dict<string, Value>, p: Parsers)
      requires Valid()
      modifies this
      ensures config == CliUpdated(old(config), kwargs, p)
      ensures configPath == old(configPath) && Valid()
    {
      for i := 0 to |kwargs|
        invariant config == CliUpdated(old(config), kwargs[..i], p)
        invariant configPath == old(configPath) && Valid()
      {
        assert kwargs[..i + 1][..i] == kwargs[..i];
        var (key, value) := kwargs[i];
        if ShouldSkipUpdate(key, value) {
          continue;
        }
        var parsed := ParseConfigKey(key);
        if parsed.Some? && parsed.value.0 != [] && parsed.value.1 != [] {
          UpdateSectionSetting(parsed.value.0, parsed.value.1, value, p);
        }
      }
      assert kwargs[..|kwargs|] == kwargs;
    }

    /** The settings of one section, in order. */
    method UpdateSection(section: string, settings: Dict.Dict<string, Value>, p: Parsers)
      requires Valid()
      modifies this
      ensures config == SectionUpdated(old(config), section, settings, p)
      ensures configPath == old(configPath) && Valid()
    {
      for j := 0 to |settings|
        invariant config == SectionUpdated(old(config), section, settings[..j], p)
        invariant configPath == old(configPath) && Valid()
      {
        assert settings[..j + 1][..j] == settings[..j];
        UpdateSectionSetting(section, settings[j].0, settings[j].1, p);
      }
      assert settings[..|settings|] == settings;
    }

    /** `_update_config_from_dict`, for the parsed configuration file. */
    method UpdateConfigFromDict(file: Dict.Dict<string, Json.Value>, p: Parsers)
      requires Valid()
      modifies this
      ensures config == FileUpdated(old(config), file, p)
      ensures configPath == old(configPath) && Valid()
    {
      for i := 0 to |file|
        invariant config == FileUpdated(old(config), file[..i], p)
        invariant configPath == old(configPath) && Valid()
      {
        assert file[..i + 1][..i] == file[..i];
        var (section, values) := file[i];
        if Dict.Get(config, section).None? {
          continue;
        }
        if !values.Obj? {
          continue;
        }
        UpdateSection(section, PlainFields(values.fields), p);
      }
      assert file[..|file|] == file;
    }

    /** `_load_from_env`: a failed conversion is raised before anything is changed. */
    method LoadFromEnv(env: Dict.Dict<string, string>, p: Parsers) returns (err: Option<Error>)
      requires Valid()
      modifies this
      ensures match EnvLoaded(old(config), env, p)
              case Err(e) => err == Some(e) && config == old(config)
              case Ok(c) => err == None && config == c
      ensures configPath == old(configPath) && Valid()
    {
      var overrides := ConfigEnvReader.ReadEnvOverrides(config, env, p);
      if overrides.Err? {
        return Some(overrides.error);
      }
      var o := overrides.value;
      for i := 0 to |o|
        invariant config == OverridesApplied(old(config), o[..i], p)
        invariant configPath == old(configPath) && Valid()
      {
        OverridesAppliedStep(old(config), o, i, p);
        UpdateSection(o[i].0, o[i].1, p);
      }
      assert o[..|o|] == o;
      return None;
    }

    /** `load`: the file's settings, then the environment's; the file has been read into `file`. */
    method Load(file: Dict.Dict<string, Json.Value>, env: Dict.Dict<string, string>, p: Parsers) returns (err: Option<Error>)
      requires Valid()
      modifies this
      ensures match EnvLoaded(FileUpdated(old(config), file, p), env, p)
              case Err(e) => err == Some(e) && config == FileUpdated(old(config), file, p)
              case Ok(c) => err == None && config == c
      ensures configPath == old(configPath) && Valid()
    {
      UpdateConfigFromDict(file, p);
      err := LoadFromEnv(env, p);
    }
  }
}
