/**
 * The scan command's flag normalisation: `--profile` stands for all the
 * tracking flags, and the legacy `--track-performance` for the three
 * individual trackers. Both fill only the flags the user left unset
 * (`None`); nothing else in the keyword arguments changes.
 */
module CliFlags {
  import opened Wrappers
  import Json
  import Dict

  type Kwargs = Dict.Dict<string, Json.Value>

  /** `kwargs.get(key) is None`: the key is absent or holds `None`. */
  predicate Unset(d: Kwargs, key: string) {
    Dict.Get(d, key).None? || Dict.Get(d, key) == Some(Json.Null)
  }

  /** The value of a key that is set. */
  function ValueOf(d: Kwargs, key: string): Json.Value
    requires !Unset(d, key)
  {
    Dict.Get(d, key).value
  }

  /** Every key set in `d` holds the same value in `r`. */
  ghost predicate KeepsSet(d: Kwargs, r: Kwargs) {
    forall k :: !Unset(d, k) ==> Dict.Get(r, k) == Dict.Get(d, k)
  }

  lemma KeepsSetTrans(a: Kwargs, b: Kwargs, c: Kwargs)
    requires KeepsSet(a, b) && KeepsSet(b, c)
    ensures KeepsSet(a, c)
  {
  }

  /** `if kwargs.get(key) is None: kwargs[key] = v`. */
  function FillUnset(d: Kwargs, key: string, v: Json.Value): (r: Kwargs)
    ensures v != Json.Null ==> !Unset(r, key)
    ensures KeepsSet(d, r)
  {
    if Unset(d, key) then
      assert KeepsSet(d, Dict.Set(d, key, v)) by {
        forall k | !Unset(d, k) { Dict.SetOther(d, key, v, k); }
      }
      Dict.Set(d, key, v)
    else d
  }

  const Trackers: seq<string> := ["track_io", "track_mem", "track_cpu"]

  /** Filling the three trackers with a value that is not `None` leaves none of them unset and keeps every flag set. */
  lemma FillTrackers(d: Kwargs, v: Json.Value)
    requires v != Json.Null
    ensures var r := FillUnset(FillUnset(FillUnset(d, "track_io", v), "track_mem", v), "track_cpu", v);
      KeepsSet(d, r) && forall k :: k in Trackers ==> !Unset(r, k)
  {
    var d1 := FillUnset(d, "track_io", v);
    var d2 := FillUnset(d1, "track_mem", v);
    var d3 := FillUnset(d2, "track_cpu", v);
    KeepsSetTrans(d, d1, d2);
    KeepsSetTrans(d, d2, d3);
    KeepsSetTrans(d1, d2, d3);
  }

  /**
   * `_apply_profile_alias`, on the keyword arguments as a value: with a
   * profile given, no tracking flag is left unset, and no flag the user
   * set changes.
   */
  function ProfileAliased(d: Kwargs): (r: Kwargs)
    ensures Unset(d, "profile") ==> r == d
    ensures !Unset(d, "profile") ==> !Unset(r, "track_performance") && forall k :: k in Trackers ==> !Unset(r, k)
    ensures KeepsSet(d, r)
  {
    if Unset(d, "profile") then d
    else
      var p := ValueOf(d, "profile");
      var d1 := FillUnset(d, "track_performance", p);
      FillTrackers(d1, p);
      KeepsSetTrans(d, d1, FillUnset(FillUnset(FillUnset(d1, "track_io", p), "track_mem", p), "track_cpu", p));
      FillUnset(FillUnset(FillUnset(d1, "track_io", p), "track_mem", p), "track_cpu", p)
  }

  /**
   * `_apply_track_performance_mapping`, on the keyword arguments as a
   * value: with `track_performance` given, no tracker is left unset, and
   * no flag the user set changes.
   */
  function TrackPerformanceMapped(d: Kwargs): (r: Kwargs)
    ensures Unset(d, "track_performance") ==> r == d
    ensures !Unset(d, "track_performance") ==> forall k :: k in Trackers ==> !Unset(r, k)
    ensures KeepsSet(d, r)
  {
    if Unset(d, "track_performance") then d
    else
      var tp := ValueOf(d, "track_performance");
      FillTrackers(d, tp);
      FillUnset(FillUnset(FillUnset(d, "track_io", tp), "track_mem", tp), "track_cpu", tp)
  }

  /**
   * `_normalize_scan_profile_flags`: the alias first, then the mapping.
   * Given a profile or `track_performance`, every tracker ends up set; a
   * flag the user set keeps its value.
   */
  function Normalized(d: Kwargs): (r: Kwargs)
    ensures !Unset(d, "profile") || !Unset(d, "track_performance") ==> forall k :: k in Trackers ==> !Unset(r, k)
    ensures KeepsSet(d, r)
  {
    var a := ProfileAliased(d);
    KeepsSetTrans(d, a, TrackPerformanceMapped(a));
    TrackPerformanceMapped(a)
  }

  lemma FillUnsetGet(d: Kwargs, key: string, v: Json.Value, k: string)
    ensures Dict.Get(FillUnset(d, key, v), k) == if k == key && Unset(d, key) then Some(v) else Dict.Get(d, k)
  {
    if Unset(d, key) && k != key {
      Dict.SetOther(d, key, v, k);
    }
  }

  /**
   * The profile alias gives every unset tracking flag (including
   * `track_performance`) the profile's value, keeps every flag the user
   * set, and touches no other key; without a profile it changes nothing.
   */
  lemma ProfileAliasedGet(d: Kwargs, k: string)
    ensures Unset(d, "profile") ==> ProfileAliased(d) == d
    ensures Dict.Get(ProfileAliased(d), k) ==
      if !Unset(d, "profile") && (k == "track_performance" || k in Trackers) && Unset(d, k)
      then Some(ValueOf(d, "profile")) else Dict.Get(d, k)
  {
    if !Unset(d, "profile") {
      var p := ValueOf(d, "profile");
      var d1 := FillUnset(d, "track_performance", p);
      var d2 := FillUnset(d1, "track_io", p);
      var d3 := FillUnset(d2, "track_mem", p);
      FillUnsetGet(d, "track_performance", p, k);
      FillUnsetGet(d1, "track_io", p, k);
      FillUnsetGet(d2, "track_mem", p, k);
      FillUnsetGet(d3, "track_cpu", p, k);
      FillUnsetGet(d, "track_performance", p, "track_io");
      FillUnsetGet(d, "track_performance", p, "track_mem");
      FillUnsetGet(d, "track_performance", p, "track_cpu");
      FillUnsetGet(d1, "track_io", p, "track_mem");
      FillUnsetGet(d1, "track_io", p, "track_cpu");
      FillUnsetGet(d2, "track_mem", p, "track_cpu");
    }
  }

  /**
   * The mapping gives every unset tracker `track_performance`'s value, keeps
   * every tracker the user set, and touches no other key; without
   * `track_performance` it changes nothing.
   */
  lemma TrackPerformanceMappedGet(d: Kwargs, k: string)
    ensures Unset(d, "track_performance") ==> TrackPerformanceMapped(d) == d
    ensures Dict.Get(TrackPerformanceMapped(d), k) ==
      if !Unset(d, "track_performance") && k in Trackers && Unset(d, k)
      then Some(ValueOf(d, "track_performance")) else Dict.Get(d, k)
  {
    if !Unset(d, "track_performance") {
      var tp := ValueOf(d, "track_performance");
      var d1 := FillUnset(d, "track_io", tp);
      var d2 := FillUnset(d1, "track_mem", tp);
      FillUnsetGet(d, "track_io", tp, k);
      FillUnsetGet(d1, "track_mem", tp, k);
      FillUnsetGet(d2, "track_cpu", tp, k);
      FillUnsetGet(d, "track_io", tp, "track_mem");
      FillUnsetGet(d, "track_io", tp, "track_cpu");
      FillUnsetGet(d1, "track_mem", tp, "track_cpu");
    }
  }

  /**
   * After normalisation a tracker holds, in order of precedence: the value
   * the user gave it, else the profile, else `--track-performance`; a key
   * that is not a tracking flag is never changed.
   */
  lemma NormalizedTracker(d: Kwargs, k: string)
    ensures k in Trackers ==>
      (Dict.Get(Normalized(d), k) ==
        if !Unset(d, k) then Dict.Get(d, k)
        else if !Unset(d, "profile") then Some(ValueOf(d, "profile"))
        else if !Unset(d, "track_performance") then Some(ValueOf(d, "track_performance"))
        else Dict.Get(d, k))
    ensures k != "track_performance" && k !in Trackers ==> Dict.Get(Normalized(d), k) == Dict.Get(d, k)
  {
    var a := ProfileAliased(d);
    ProfileAliasedGet(d, k);
    ProfileAliasedGet(d, "track_performance");
    TrackPerformanceMappedGet(a, k);
  }

  /** The keyword arguments, which the helpers change in place. */
  class KwargsBox {
    var entries: Kwargs

    constructor(entries: Kwargs)
      ensures this.entries == entries
    {
      this.entries := entries;
    }

    method FillIfUnset(key: string, v: Json.Value)
      modifies this
      ensures entries == FillUnset(old(entries), key, v)
    {
      var current := Dict.Get(entries, key);
      if current.None? || current.value == Json.Null {
        entries := Dict.Set(entries, key, v);
      }
    }

    /** `_apply_profile_alias`. */
    method ApplyProfileAlias()
      modifies this
      ensures entries == ProfileAliased(old(entries))
    {
      var profileVal := Dict.Get(entries, "profile");
      if profileVal.None? || profileVal.value == Json.Null {
        return;
      }
      FillIfUnset("track_performance", profileVal.value);
      FillIfUnset("track_io", profileVal.value);
      FillIfUnset("track_mem", profileVal.value);
      FillIfUnset("track_cpu", profileVal.value);
    }

    /** `_apply_track_performance_mapping`. */
    method ApplyTrackPerformanceMapping()
      modifies this
      ensures entries == TrackPerformanceMapped(old(entries))
    {
      var tp := Dict.Get(entries, "track_performance");
      if tp.None? || tp.value == Json.Null {
        return;
      }
      FillIfUnset("track_io", tp.value);
      FillIfUnset("track_mem", tp.value);
      FillIfUnset("track_cpu", tp.value);
    }

    /** `_normalize_scan_profile_flags`. */
    method NormalizeScanProfileFlags()
      modifies this
      ensures entries == Normalized(old(entries))
    {
      ApplyProfileAlias();
      ApplyTrackPerformanceMapping();
    }
  }
}
