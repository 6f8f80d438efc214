/**
 * The values produced by the TOML, JSON and YAML parsers the program
 * calls, and the few Python operations applied to them: truthiness,
 * `dict.get`, and `str()`.
 */
module Json {
  import opened Wrappers
  import opened PyStr
  import opened PyInt
  import Dict

  /** A Python float: its value and the text `repr` gives for it. */
  datatype PyFloat = PyFloat(value: real, repr: string)

  /** A parsed document value; a dict keeps its keys in insertion order. */
  datatype Value =
    | Null
    | Bool(b: bool)
    | Int(i: int)
    | Float(f: PyFloat)
    | Str(s: string)
    | Arr(items: seq<Value>)
    | Obj(fields: Dict.Dict<string, Value>)

  /** Python truthiness: `None`, `False`, zero and empty containers are false. */
  predicate Truthy(v: Value) {
    match v
    case Null => false
    case Bool(b) => b
    case Int(i) => i != 0
    case Float(f) => f.value != 0.0
    case Str(s) => s != []
    case Arr(xs) => xs != []
    case Obj(fs) => fs != []
  }

  /** `v.get(key)` when `v` is a dict; `None` for any other value. */
  function Get(v: Value, key: string): Option<Value> {
    if v.Obj? then Dict.Get(v.fields, key) else None
  }

  /** `v.get(key, default)` when `v` is a dict. */
  function GetOr(v: Value, key: string, default: Value): Value {
    match Get(v, key)
    case Some(x) => x
    case None => default
  }

  /** Python's `repr` of a value; string escapes are not modelled. */
  function Repr(v: Value): string
    decreases v
  {
    match v
    case Null => "None"
    case Bool(b) => if b then "True" else "False"
    case Int(i) => IntToStr(i)
    case Float(f) => f.repr
    case Str(s) => "'" + s + "'"
    case Arr(xs) => "[" + Join(seq(|xs|, i requires 0 <= i < |xs| => Repr(xs[i])), ", ") + "]"
    case Obj(fs) =>
      "{" + Join(seq(|fs|, i requires 0 <= i < |fs| => "'" + fs[i].0 + "': " + Repr(fs[i].1)), ", ") + "}"
  }

  /** Python's `str(v)`: a string is itself, anything else its repr. */
  function ToStr(v: Value): (r: string)
    ensures v.Str? ==> r == v.s
    ensures v.Int? ==> ParseInt(r) == Some(v.i)
  {
    match v
    case Str(s) => s
    case Int(i) => IntRoundTrip(i); IntToStr(i)
    case _ => Repr(v)
  }
}
