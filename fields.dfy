/**
 * The field conversions the serialisers share: `data.get(key, default)`
 * on a stored dict whose values have the types the serialisers annotate,
 * and the lists and counter dicts they copy with `list()` and `dict()`.
 */
module Fields {
  import opened Wrappers
  import Json
  import Dict

  /** The field is missing or holds a string. */
  predicate StrOrAbsent(v: Json.Value, key: string) {
    var x := Json.Get(v, key);
    x.None? || x.value.Str?
  }

  /** `data.get(key, default)` for a string field. */
  function StrOr(v: Json.Value, key: string, default: string): (r: string)
    requires StrOrAbsent(v, key)
    ensures Json.Get(v, key).None? ==> r == default
    ensures Json.Get(v, key).Some? ==> Json.Get(v, key).value == Json.Str(r)
  {
    var x := Json.Get(v, key);
    if x.Some? then x.value.s else default
  }

  /** The field is missing or holds an integer. */
  predicate IntOrAbsent(v: Json.Value, key: string) {
    var x := Json.Get(v, key);
    x.None? || x.value.Int?
  }

  /** `data.get(key, default)` for an integer field. */
  function IntOr(v: Json.Value, key: string, default: int): (r: int)
    requires IntOrAbsent(v, key)
    ensures Json.Get(v, key).None? ==> r == default
    ensures Json.Get(v, key).Some? ==> Json.Get(v, key).value == Json.Int(r)
  {
    var x := Json.Get(v, key);
    if x.Some? then x.value.i else default
  }

  /** The field is missing, `None`, or holds a string. */
  predicate OptStrField(v: Json.Value, key: string) {
    var x := Json.Get(v, key);
    x.None? || x.value.Null? || x.value.Str?
  }

  /** `data.get(key)` for a field typed `str | None`. */
  function OptStr(v: Json.Value, key: string): (r: Option<string>)
    requires OptStrField(v, key)
    ensures r.None? <==> Json.Get(v, key).None? || Json.Get(v, key).value.Null?
    ensures r.Some? ==> Json.Get(v, key).value == Json.Str(r.value)
  {
    var x := Json.Get(v, key);
    if x.Some? && x.value.Str? then Some(x.value.s) else None
  }

  /** `None` or a string. */
  function OptStrValue(s: Option<string>): Json.Value {
    if s.Some? then Json.Str(s.value) else Json.Null
  }

  /** A list of strings. */
  function Strs(ss: seq<string>): (r: Json.Value)
    ensures r.Arr? && |r.items| == |ss|
    ensures forall i :: 0 <= i < |ss| ==> r.items[i] == Json.Str(ss[i])
  {
    Json.Arr(seq(|ss|, i requires 0 <= i < |ss| => Json.Str(ss[i])))
  }

  predicate IsStrs(v: Json.Value) {
    v.Arr? && forall i :: 0 <= i < |v.items| ==> v.items[i].Str?
  }

  /** `tuple(v)` of a list of strings. */
  function StrsOf(v: Json.Value): (r: seq<string>)
    requires IsStrs(v)
    ensures |r| == |v.items|
    ensures forall i :: 0 <= i < |r| ==> v.items[i] == Json.Str(r[i])
  {
    seq(|v.items|, i requires 0 <= i < |v.items| => v.items[i].s)
  }

  /** Reading back a stored list of strings gives the same strings. */
  lemma StrsRoundTrip(ss: seq<string>)
    ensures IsStrs(Strs(ss)) && StrsOf(Strs(ss)) == ss
  {
    var r := StrsOf(Strs(ss));
    assert |r| == |ss|;
    forall i | 0 <= i < |ss| ensures r[i] == ss[i] {
      assert Json.Str(r[i]) == Json.Str(ss[i]);
    }
  }

  /** The field is missing or holds a list of strings. */
  predicate StrsOrAbsent(v: Json.Value, key: string) {
    var x := Json.Get(v, key);
    x.None? || IsStrs(x.value)
  }

  /** `tuple(data.get(key, []))`. */
  function StrsOr(v: Json.Value, key: string): (r: seq<string>)
    requires StrsOrAbsent(v, key)
    ensures Json.Get(v, key).None? ==> r == []
    ensures Json.Get(v, key).Some? ==> r == StrsOf(Json.Get(v, key).value)
  {
    var x := Json.Get(v, key);
    if x.Some? then StrsOf(x.value) else []
  }

  /** The field is missing, `None`, or holds a list of strings. */
  predicate OptStrsField(v: Json.Value, key: string) {
    var x := Json.Get(v, key);
    x.None? || x.value.Null? || IsStrs(x.value)
  }

  /** `data.get(key)` for a field typed `list[str] | None`. */
  function OptStrs(v: Json.Value, key: string): (r: Option<seq<string>>)
    requires OptStrsField(v, key)
    ensures r.None? <==> Json.Get(v, key).None? || Json.Get(v, key).value.Null?
    ensures r.Some? ==> r.value == StrsOf(Json.Get(v, key).value)
  {
    var x := Json.Get(v, key);
    if x.Some? && x.value.Arr? then Some(StrsOf(x.value)) else None
  }

  function OptStrsValue(ss: Option<seq<string>>): Json.Value {
    if ss.Some? then Strs(ss.value) else Json.Null
  }

  /** `dict(counts)`: a counter dict with the same keys, in the same order. */
  function Ints(d: Dict.Dict<string, int>): (r: Json.Value)
    ensures r.Obj? && |r.fields| == |d|
    ensures forall i :: 0 <= i < |d| ==> r.fields[i] == (d[i].0, Json.Int(d[i].1))
  {
    Json.Obj(seq(|d|, i requires 0 <= i < |d| => (d[i].0, Json.Int(d[i].1))))
  }

  predicate IsInts(v: Json.Value) {
    v.Obj? && forall i :: 0 <= i < |v.fields| ==> v.fields[i].1.Int?
  }

  /** A stored counter dict as counts. */
  function IntsOf(v: Json.Value): (r: Dict.Dict<string, int>)
    requires IsInts(v)
    ensures |r| == |v.fields|
    ensures forall i :: 0 <= i < |r| ==> v.fields[i] == (r[i].0, Json.Int(r[i].1))
  {
    seq(|v.fields|, i requires 0 <= i < |v.fields| => (v.fields[i].0, v.fields[i].1.i))
  }

  /** Reading back a stored counter dict gives the same counts in the same order. */
  lemma IntsRoundTrip(d: Dict.Dict<string, int>)
    ensures IsInts(Ints(d)) && IntsOf(Ints(d)) == d
  {
    var r := IntsOf(Ints(d));
    assert |r| == |d|;
    forall i | 0 <= i < |d| ensures r[i] == d[i] {
      assert (r[i].0, Json.Int(r[i].1)) == (d[i].0, Json.Int(d[i].1));
    }
  }

  /** The field is missing or holds a counter dict. */
  predicate IntsOrAbsent(v: Json.Value, key: string) {
    var x := Json.Get(v, key);
    x.None? || IsInts(x.value)
  }

  /** `data.get(key, {})`. */
  function IntsOr(v: Json.Value, key: string): (r: Dict.Dict<string, int>)
    requires IntsOrAbsent(v, key)
    ensures Json.Get(v, key).None? ==> r == []
    ensures Json.Get(v, key).Some? ==> r == IntsOf(Json.Get(v, key).value)
  {
    var x := Json.Get(v, key);
    if x.Some? then IntsOf(x.value) else []
  }

  /** The field is missing or holds a boolean. */
  predicate BoolOrAbsent(v: Json.Value, key: string) {
    var x := Json.Get(v, key);
    x.None? || x.value.Bool?
  }

  /** `data.get(key, default)` for a boolean field. */
  function BoolOr(v: Json.Value, key: string, default: bool): (r: bool)
    requires BoolOrAbsent(v, key)
    ensures Json.Get(v, key).None? ==> r == default
    ensures Json.Get(v, key).Some? ==> Json.Get(v, key).value == Json.Bool(r)
  {
    var x := Json.Get(v, key);
    if x.Some? then x.value.b else default
  }

  /** The field is missing, `None`, or holds an integer. */
  predicate OptIntField(v: Json.Value, key: string) {
    var x := Json.Get(v, key);
    x.None? || x.value.Null? || x.value.Int?
  }

  /** `data.get(key)` for a field typed `int | None`. */
  function OptInt(v: Json.Value, key: string): (r: Option<int>)
    requires OptIntField(v, key)
    ensures r.None? <==> Json.Get(v, key).None? || Json.Get(v, key).value.Null?
    ensures r.Some? ==> Json.Get(v, key).value == Json.Int(r.value)
  {
    var x := Json.Get(v, key);
    if x.Some? && x.value.Int? then Some(x.value.i) else None
  }

  function OptIntValue(n: Option<int>): Json.Value {
    if n.Some? then Json.Int(n.value) else Json.Null
  }

  /** The field is missing, `None`, or holds a float. */
  predicate OptFloatField(v: Json.Value, key: string) {
    var x := Json.Get(v, key);
    x.None? || x.value.Null? || x.value.Float?
  }

  /** `data.get(key)` for a field typed `float | None`. */
  function OptFloat(v: Json.Value, key: string): (r: Option<Json.PyFloat>)
    requires OptFloatField(v, key)
    ensures r.None? <==> Json.Get(v, key).None? || Json.Get(v, key).value.Null?
    ensures r.Some? ==> Json.Get(v, key).value == Json.Float(r.value)
  {
    var x := Json.Get(v, key);
    if x.Some? && x.value.Float? then Some(x.value.f) else None
  }

  function OptFloatValue(f: Option<Json.PyFloat>): Json.Value {
    if f.Some? then Json.Float(f.value) else Json.Null
  }
}
