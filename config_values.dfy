/**
 * Configuration values and the conversions applied to them before they
 * replace a setting: `convert_value` for the text of an environment
 * variable, `normalize_value` for values from the file and the command
 * line, and the tuple coercion both use.
 */
module ConfigValues {
  import opened Wrappers
  import opened PyStr
  import opened PyInt
  import Json
  import Dict

  /**
   * A setting's value, or a value offered for one: anything the TOML reader
   * or the command line produces, a tuple of strings (the list settings and
   * repeated command-line options), or a nested settings record (the
   * `performance` group of `core`, which is neither a mapping nor a tuple).
   */
  datatype Value =
    | Plain(v: Json.Value)
    | Tuple(items: seq<string>)
    | Record(fields: Dict.Dict<string, Value>)

  /**
   * The parsers the converter hands text to and that are not modelled:
   * Python's `float(text)`, the size parser `parse_size_to_mb(text)` and
   * `json.loads(text)`. `None` stands for the ValueError each raises.
   */
  datatype Parsers = Parsers(
    float: string -> Option<Json.PyFloat>,
    sizeMb: string -> Option<Json.PyFloat>,
    json: string -> Option<Json.Value>)

  predicate IsBool(x: Value) {
    x.Plain? && x.v.Bool?
  }

  predicate IsInt(x: Value) {
    x.Plain? && x.v.Int?
  }

  predicate IsFloat(x: Value) {
    x.Plain? && x.v.Float?
  }

  predicate IsMapping(x: Value) {
    x.Plain? && x.v.Obj?
  }

  /** The spellings `convert_value` reads as true, after lower-casing. */
  const TrueWords: seq<string> := ["true", "1", "yes", "on"]

  /** `float(i)`, with the repr Python prints for it. */
  function FloatOfInt(i: int): (f: Json.PyFloat)
    ensures f.value == i as real
  {
    Json.PyFloat(i as real, IntToStr(i) + ".0")
  }

  /** The stripped, non-empty parts, in order. */
  function NonEmptyStripped(parts: seq<string>): (r: seq<string>)
    ensures |r| <= |parts|
  {
    if parts == [] then []
    else
      var t := Strip(parts[|parts| - 1]);
      NonEmptyStripped(parts[..|parts| - 1]) + (if t != [] then [t] else [])
  }

  /** The items of a comma-delimited string: split at every comma, trimmed, blanks dropped. */
  function CommaItems(s: string): seq<string> {
    NonEmptyStripped(Split(s, ','))
  }

  /** `_coerce_tuple`. */
  function CoerceTuple(value: Value): (r: Result<Value>)
    ensures r.Ok? ==> r.value.Tuple?
    ensures r.Err? <==> !(value.Tuple? || (value.Plain? && (value.v.Arr? || value.v.Str?)))
  {
    match value
    case Tuple(_) => Ok(value)
    case Plain(Arr(xs)) => Ok(Tuple(seq(|xs|, i requires 0 <= i < |xs| => Json.ToStr(xs[i]))))
    case Plain(Str(s)) => Ok(Tuple(CommaItems(s)))
    case _ => Err(TypeError("Expected list, tuple, or comma-delimited string"))
  }

  /**
   * `convert_value`: the text of an environment variable, read as the type
   * of `ref`. A bool setting never fails and reads exactly the four true
   * words as true; only int, float and mapping settings can fail, and then
   * with ValueError.
   */
  function ConvertValue(value: string, ref: Value, p: Parsers): (r: Result<Value>)
    ensures IsBool(ref) ==> r.Ok? && IsBool(r.value) && (r.value.v.b <==> Lower(value) in TrueWords)
    ensures r.Err? ==> r.error.ValueError? && (IsInt(ref) || IsFloat(ref) || IsMapping(ref))
  {
    if IsBool(ref) then Ok(Plain(Json.Bool(Lower(value) in TrueWords)))
    else if IsInt(ref) then
      match ParseInt(value)
      case Some(i) => Ok(Plain(Json.Int(i)))
      case None => Err(ValueError("invalid literal for int()"))
    else if IsFloat(ref) then
      match p.float(value)
      case Some(f) => Ok(Plain(Json.Float(f)))
      case None =>
        match p.sizeMb(value)
        case Some(f) => Ok(Plain(Json.Float(f)))
        case None => Err(ValueError("invalid size"))
    else if ref.Tuple? then CoerceTuple(Plain(Json.Str(value)))
    else if IsMapping(ref) then
      match p.json(value)
      case Some(Obj(fields)) => Ok(Plain(Json.Obj(fields)))
      case Some(_) => Err(ValueError("Expected JSON object for mapping config"))
      case None => Err(ValueError("Invalid JSON for config value"))
    else Ok(Plain(Json.Str(value)))
  }

  /**
   * `normalize_value`: a value from the file or the command line, checked
   * against `ref`. Only float, tuple and mapping settings check anything,
   * and a rejected value raises TypeError, or ValueError for a size text
   * that does not parse.
   */
  function NormalizeValue(value: Value, ref: Value, p: Parsers): (r: Result<Value>)
    ensures r.Err? ==> Checked(ref) && (r.error.TypeError? || r.error.ValueError?)
    ensures r.Err? && r.error.ValueError? ==> IsFloat(ref) && value.Plain? && value.v.Str?
  {
    if IsFloat(ref) then
      if IsInt(value) then Ok(Plain(Json.Float(FloatOfInt(value.v.i))))
      else if IsBool(value) then Ok(Plain(Json.Float(FloatOfInt(if value.v.b then 1 else 0))))
      else if IsFloat(value) then Ok(value)
      else if value.Plain? && value.v.Str? then
        match p.sizeMb(value.v.s)
        case Some(f) => Ok(Plain(Json.Float(f)))
        case None => Err(ValueError("invalid size"))
      else Err(TypeError("Expected numeric or size string for float config value"))
    else if ref.Tuple? then CoerceTuple(value)
    else if IsMapping(ref) then
      if IsMapping(value) then Ok(value) else Err(TypeError("Expected mapping for config update"))
    else Ok(value)
  }

  /** The kinds of value `normalize_value` checks; other settings accept anything. */
  predicate Checked(ref: Value) {
    IsFloat(ref) || ref.Tuple? || IsMapping(ref)
  }

  /** Two values of the same checked kind. */
  predicate SameKind(x: Value, ref: Value) {
    (IsFloat(ref) ==> IsFloat(x)) && (ref.Tuple? ==> x.Tuple?) && (IsMapping(ref) ==> IsMapping(x))
  }

  // ------------------------------------------------------------ properties

  /**
   * A normalised value has the kind of the setting it is checked against;
   * a setting of any other kind takes the value unchanged.
   */
  lemma NormalizeKeepsKind(value: Value, ref: Value, p: Parsers)
    ensures NormalizeValue(value, ref, p).Ok? ==> SameKind(NormalizeValue(value, ref, p).value, ref)
    ensures !Checked(ref) ==> NormalizeValue(value, ref, p) == Ok(value)
  {
  }

  /** A mapping setting rejects, with TypeError, exactly the values that are not mappings. */
  lemma NormalizeMapping(value: Value, ref: Value, p: Parsers)
    requires IsMapping(ref)
    ensures NormalizeValue(value, ref, p).Err? <==> !IsMapping(value)
    ensures NormalizeValue(value, ref, p).Err? ==> NormalizeValue(value, ref, p).error.TypeError?
  {
  }

  /** A value already of a checked setting's kind passes unchanged, except that an int given for a float becomes a float. */
  lemma NormalizeSameKind(value: Value, ref: Value, p: Parsers)
    requires Checked(ref) && SameKind(value, ref)
    ensures NormalizeValue(value, ref, p) == Ok(value)
  {
  }

  /** Every converted text has the kind of its setting, and only int, float and mapping settings can fail. */
  lemma ConvertKeepsKind(value: string, ref: Value, p: Parsers)
    ensures ConvertValue(value, ref, p).Ok? ==> SameKind(ConvertValue(value, ref, p).value, ref)
    ensures ConvertValue(value, ref, p).Ok? && IsBool(ref) ==> IsBool(ConvertValue(value, ref, p).value)
    ensures ConvertValue(value, ref, p).Ok? && IsInt(ref) ==> IsInt(ConvertValue(value, ref, p).value)
    ensures ConvertValue(value, ref, p).Err? ==> IsInt(ref) || IsFloat(ref) || IsMapping(ref)
    ensures ConvertValue(value, ref, p).Err? ==> ConvertValue(value, ref, p).error.ValueError?
  {
  }

  /** Python's `str()` of a bool. */
  function BoolText(b: bool): string {
    if b then "True" else "False"
  }

  /**
   * A bool setting reads back the text of any bool, and reads "1" as true:
   * the bool test comes before the int test.
   */
  lemma ConvertBoolRoundTrip(b: bool, ref: Value, p: Parsers)
    requires IsBool(ref)
    ensures ConvertValue(BoolText(b), ref, p) == Ok(Plain(Json.Bool(b)))
    ensures ConvertValue("1", ref, p) == Ok(Plain(Json.Bool(true)))
  {
    var t := Lower(BoolText(b));
    if b {
      assert t == "true";
    } else {
      assert t == "false";
      assert t != TrueWords[0] && t != TrueWords[1] && t != TrueWords[2] && t != TrueWords[3];
    }
    assert Lower("1") == "1";
  }

  /** An int setting reads back the decimal text of any integer, and fails on the text `int()` refuses. */
  lemma ConvertIntRoundTrip(i: int, s: string, ref: Value, p: Parsers)
    requires IsInt(ref)
    ensures ConvertValue(IntToStr(i), ref, p) == Ok(Plain(Json.Int(i)))
    ensures ConvertValue(s, ref, p).Err? <==> ParseInt(s).None?
  {
    IntRoundTrip(i);
  }

  /** Items that survive `CommaItems` unchanged: non-empty, already stripped, without a comma. */
  predicate CleanItem(x: string) {
    x != [] && Strip(x) == x && ',' !in x
  }

  predicate AllClean(xs: seq<string>) {
    forall i :: 0 <= i < |xs| ==> CleanItem(xs[i])
  }

  /** The stripped, non-empty part kept for one piece is clean. */
  lemma StrippedClean(x: string)
    requires ',' !in x && Strip(x) != []
    ensures CleanItem(Strip(x))
  {
    StripIdempotent(x);
    StripChars(x);
  }

  /** Every item of a comma-delimited string is clean. */
  lemma {:induction false} NonEmptyStrippedClean(parts: seq<string>)
    requires forall i :: 0 <= i < |parts| ==> ',' !in parts[i]
    ensures AllClean(NonEmptyStripped(parts))
  {
    if parts != [] {
      var init, x := parts[..|parts| - 1], parts[|parts| - 1];
      assert forall i :: 0 <= i < |init| ==> init[i] == parts[i];
      NonEmptyStrippedClean(init);
      var r0 := NonEmptyStripped(init);
      var t := Strip(x);
      if t != [] {
        StrippedClean(x);
        assert NonEmptyStripped(parts) == r0 + [t];
      } else {
        assert NonEmptyStripped(parts) == r0 + [];
      }
    }
  }

  lemma CommaItemsClean(s: string)
    ensures AllClean(CommaItems(s))
  {
    SplitParts(s, ',');
    NonEmptyStrippedClean(Split(s, ','));
  }

  lemma AllCleanInit(items: seq<string>)
    requires items != [] && AllClean(items)
    ensures AllClean(items[..|items| - 1]) && CleanItem(items[|items| - 1])
  {
    assert forall i :: 0 <= i < |items| - 1 ==> items[..|items| - 1][i] == items[i];
  }

  /** Clean items are kept as they are. */
  lemma {:induction false} NonEmptyStrippedOfClean(items: seq<string>)
    requires AllClean(items)
    ensures NonEmptyStripped(items) == items
  {
    if items != [] {
      var init, x := items[..|items| - 1], items[|items| - 1];
      AllCleanInit(items);
      NonEmptyStrippedOfClean(init);
      assert NonEmptyStripped(items) == NonEmptyStripped(init) + [x];
      assert items == init + [x];
    }
  }

  /** Clean items read back from their comma-joined text. */
  lemma CommaItemsJoin(items: seq<string>)
    requires AllClean(items)
    ensures CommaItems(Join(items, ",")) == items
  {
    if items == [] {
      assert Split([], ',') == [[]];
      assert NonEmptyStripped([[]]) == NonEmptyStripped([]) + [];
    } else {
      SplitJoin(items, ',');
      NonEmptyStrippedOfClean(items);
    }
  }

  /** A tuple setting reads the text as its comma-delimited items, and never fails. */
  lemma ConvertTuple(value: string, ref: Value, p: Parsers)
    requires ref.Tuple?
    ensures ConvertValue(value, ref, p) == Ok(Tuple(CommaItems(value)))
  {
  }

  /**
   * A tuple setting reads back its items from their comma-joined text, as
   * long as the items are clean.
   */
  lemma ConvertTupleRoundTrip(items: seq<string>, ref: Value, p: Parsers)
    requires ref.Tuple? && AllClean(items)
    ensures ConvertValue(Join(items, ","), ref, p) == Ok(Tuple(items))
  {
    ConvertTuple(Join(items, ","), ref, p);
    CommaItemsJoin(items);
  }

  /** A string setting takes the text as it is. */
  lemma ConvertOther(value: string, ref: Value, p: Parsers)
    requires !IsBool(ref) && !IsInt(ref) && !IsFloat(ref) && !ref.Tuple? && !IsMapping(ref)
    ensures ConvertValue(value, ref, p) == Ok(Plain(Json.Str(value)))
  {
  }
}
