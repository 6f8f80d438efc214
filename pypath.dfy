/**
 * POSIX paths as `pathlib.PurePosixPath` sees them: an anchor and a list
 * of parts, built from text by dropping empty and "." segments.
 */
module PyPath {
  import opened Wrappers
  import opened PyStr

  datatype Path = Path(anchor: string, parts: seq<string>)

  predicate ValidPart(s: string) {
    s != [] && s != "." && '/' !in s
  }

  /** The shape every `Path` value has: a known anchor and clean parts. */
  predicate Valid(p: Path) {
    (p.anchor == "" || p.anchor == "/" || p.anchor == "//")
    && forall i :: 0 <= i < |p.parts| ==> ValidPart(p.parts[i])
  }

  /** Exactly two leading slashes are kept; one, or three and more, become one. */
  function AnchorOf(s: string): string {
    if StartsWith(s, "//") && !StartsWith(s, "///") then "//"
    else if StartsWith(s, "/") then "/"
    else ""
  }

  function KeepParts(segs: seq<string>): (r: seq<string>)
    requires forall i :: 0 <= i < |segs| ==> '/' !in segs[i]
    ensures forall i :: 0 <= i < |r| ==> ValidPart(r[i])
    ensures (forall i :: 0 <= i < |segs| ==> ValidPart(segs[i])) ==> r == segs
  {
    if segs == [] then []
    else if segs[0] == [] || segs[0] == "." then KeepParts(segs[1..])
    else [segs[0]] + KeepParts(segs[1..])
  }

  /** The segments of `s` between slashes, none of which holds a slash. */
  function Segments(s: string): (r: seq<string>)
    ensures forall i :: 0 <= i < |r| ==> '/' !in r[i]
  {
    SplitParts(s, '/');
    Split(s, '/')
  }

  /** `PurePosixPath(s)`. */
  function Parse(s: string): (p: Path)
    ensures Valid(p)
  {
    Path(AnchorOf(s), KeepParts(Segments(s)))
  }

  /** `str(p)`: "." for the empty relative path. */
  function ToStr(p: Path): string {
    if p.anchor == [] && p.parts == [] then "." else p.anchor + Join(p.parts, "/")
  }

  lemma SplitLeadingSep(t: string, c: char)
    ensures Split([c] + t, c) == [[]] + Split(t, c)
  {
    var s := [c] + t;
    assert IndexOfChar(s, c) == 0;
    assert s[1..] == t;
  }

  lemma JoinNoLeadingSlash(parts: seq<string>)
    requires |parts| >= 1 && forall i :: 0 <= i < |parts| ==> ValidPart(parts[i])
    ensures |parts[0]| > 0
    ensures Join(parts, "/") != [] && Join(parts, "/")[0] == parts[0][0] != '/'
  {
    if |parts| > 1 {
      assert Join(parts, "/") == parts[0] + "/" + Join(parts[1..], "/");
    }
  }

  lemma AnchorOfToStr(p: Path)
    requires Valid(p)
    ensures AnchorOf(ToStr(p)) == p.anchor
  {
    var s := ToStr(p);
    var j := Join(p.parts, "/");
    if p.parts == [] {
      if p.anchor == [] {
        assert s == ".";
      } else {
        assert s == p.anchor;
      }
    } else {
      JoinNoLeadingSlash(p.parts);
      assert s == p.anchor + j;
      assert s[|p.anchor|] == j[0];
      if p.anchor == "//" {
        assert s[..2] == "//";
      } else if p.anchor == "/" {
        assert s[..1] == "/";
        assert s[..2] != "//";
      } else {
        assert s[..1] != "/";
      }
    }
  }

  lemma KeepPartsOfJoin(parts: seq<string>)
    requires forall i :: 0 <= i < |parts| ==> ValidPart(parts[i])
    ensures KeepParts(Segments(Join(parts, "/"))) == parts
  {
    if parts != [] {
      SplitJoin(parts, '/');
    } else {
      assert Split([], '/') == [[]];
    }
  }

  lemma KeepPartsDropsEmpty(x: seq<string>)
    requires forall i :: 0 <= i < |x| ==> '/' !in x[i]
    ensures KeepParts([[]] + x) == KeepParts(x)
  {
    assert ([[]] + x)[1..] == x;
  }

  lemma PartsOfToStr(p: Path)
    requires Valid(p)
    ensures KeepParts(Segments(ToStr(p))) == p.parts
  {
    var s := ToStr(p);
    var j := Join(p.parts, "/");
    KeepPartsOfJoin(p.parts);
    if p.anchor == [] && p.parts == [] {
      assert Split(".", '/') == ["."];
    } else if p.anchor == "/" {
      SplitLeadingSep(j, '/');
      assert s == ['/'] + j;
      KeepPartsDropsEmpty(Segments(j));
    } else if p.anchor == "//" {
      SplitLeadingSep(j, '/');
      SplitLeadingSep(['/'] + j, '/');
      assert s == ['/'] + (['/'] + j);
      KeepPartsDropsEmpty(Segments(j));
      KeepPartsDropsEmpty([[]] + Segments(j));
    } else {
      assert s == j;
    }
  }

  /** Reading back the text of a path gives the same path. */
  lemma ParseToStr(p: Path)
    requires Valid(p)
    ensures Parse(ToStr(p)) == p
  {
    AnchorOfToStr(p);
    PartsOfToStr(p);
  }

  /** Normalising text twice is the same as normalising it once. */
  lemma NormaliseIdempotent(s: string)
    ensures Parse(ToStr(Parse(s))) == Parse(s)
  {
    ParseToStr(Parse(s));
  }

  /** `p.name`: the last part, or "" for an anchor alone or ".". */
  function Name(p: Path): string {
    if p.parts == [] then [] else p.parts[|p.parts| - 1]
  }

  /** Index of the last `c` in `s`. */
  function RFind(s: string, c: char): (r: Option<nat>)
    ensures r.Some? ==> r.value < |s| && s[r.value] == c && forall j :: r.value < j < |s| ==> s[j] != c
    ensures r.None? ==> c !in s
  {
    if s == [] then None
    else if s[|s| - 1] == c then Some(|s| - 1)
    else
      var r := RFind(s[..|s| - 1], c);
      assert s == s[..|s| - 1] + [s[|s| - 1]];
      r
  }

  /**
   * `p.suffix`: the name from its last dot, empty when that dot is the
   * first or the last character of the name.
   */
  function Suffix(p: Path): (r: string)
    ensures r != [] ==> r[0] == '.' && |r| >= 2 && '.' !in r[1..]
  {
    var name := Name(p);
    match RFind(name, '.')
    case Some(i) =>
      if 0 < i < |name| - 1 then
        name[i..]
      else []
    case None => []
  }

  /** `p.parent`: the path without its last part; an anchor alone or "." is its own parent. */
  function Parent(p: Path): (r: Path)
    ensures Valid(p) ==> Valid(r)
  {
    if p.parts == [] then p else Path(p.anchor, p.parts[..|p.parts| - 1])
  }

  /** `list(p.parents)`: nearest first, ending with the anchor (or "." for a relative path). */
  function Parents(p: Path): (r: seq<Path>)
    ensures |r| == |p.parts|
    ensures forall i :: 0 <= i < |r| ==> r[i] == Path(p.anchor, p.parts[..|p.parts| - 1 - i])
    decreases |p.parts|
  {
    if p.parts == [] then [] else [Parent(p)] + Parents(Parent(p))
  }

  /** `p.relative_to(base)`; `None` stands for the ValueError when `base` is not a prefix of `p`. */
  function RelativeTo(p: Path, base: Path): (r: Option<Path>)
    ensures r.Some? <==> p.anchor == base.anchor && |base.parts| <= |p.parts| && p.parts[..|base.parts|] == base.parts
    ensures r.Some? ==> r.value == Path("", p.parts[|base.parts|..])
  {
    if p.anchor == base.anchor && |base.parts| <= |p.parts| && p.parts[..|base.parts|] == base.parts
    then Some(Path("", p.parts[|base.parts|..]))
    else None
  }

  /** `p.as_posix()` on a POSIX path is `str(p)`. */
  function AsPosix(p: Path): string {
    ToStr(p)
  }
}
