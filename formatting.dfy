/**
 * The display helpers shared by the formatters: signed deltas with
 * thousands separators, the percentage guard, shortened paths, and the
 * unit choice of human-readable sizes.
 */
module Formatting {
  import opened Wrappers
  import opened PyStr
  import opened PyInt
  import PyPath

  /** Rich markup: `[c]s[/c]`. */
  function Tag(color: string, s: string): string {
    "[" + color + "]" + s + "[/" + color + "]"
  }

  /** `int("+" + str(n)) == n`: a leading plus sign is accepted. */
  lemma PlusRoundTrip(n: nat)
    ensures ParseInt("+" + NatToStr(n)) == Some(n)
  {
    var s := "+" + NatToStr(n);
    StripNoSpace(s);
    DigitsValueOfNatToStr(n);
    assert s[1..] == NatToStr(n);
  }

  /**
   * The number shown for a non-zero difference: `+` and the thousands
   * grouping for a gain, the minus sign and the grouping for a loss.
   * Dropping the commas and reading it as an integer gives the difference
   * back.
   */
  function SignedThousands(diff: int): (r: string)
    requires diff != 0
    ensures |r| >= 2
    ensures r[0] == '+' <==> diff > 0
    ensures r[0] == '-' <==> diff < 0
    ensures ParseInt(DropCommas(r)) == Some(diff)
  {
    var m: nat := if diff < 0 then -diff else diff;
    var sign := if diff > 0 then "+" else "-";
    var r := if diff > 0 then "+" + FormatThousands(diff) else FormatThousands(diff);
    assert r == sign + GroupThousands(m);
    GroupThousandsDigits(m);
    DropCommasAppend(sign, GroupThousands(m));
    assert DropCommas(sign) == sign;
    if diff > 0 then
      PlusRoundTrip(diff);
      r
    else
      IntRoundTrip(diff);
      assert IntToStr(diff) == sign + NatToStr(m);
      r
  }

  /**
   * `delta_str`: `-` without a previous value; otherwise the difference
   * `current - previous` in the positive colour with a `+`, in red with its
   * minus sign, or the grey `±0`.
   */
  function DeltaStr(current: int, previous: Option<int>, colorPos: string): (r: string)
    ensures previous.None? ==> r == "-"
    ensures previous.Some? && current == previous.value ==> r == Tag("grey50", "±0")
    ensures previous.Some? && current > previous.value ==>
      r == Tag(colorPos, SignedThousands(current - previous.value))
    ensures previous.Some? && current < previous.value ==>
      r == Tag("red", SignedThousands(current - previous.value))
  {
    if previous.None? then "-"
    else
      var diff := current - previous.value;
      if diff > 0 then Tag(colorPos, SignedThousands(diff))
      else if diff < 0 then Tag("red", SignedThousands(diff))
      else Tag("grey50", "±0")
  }

  /**
   * The guard of `percent_delta_str`: no percentage without a non-zero
   * previous value; otherwise the change relative to the previous value,
   * in percent.
   */
  function PercentChange(current: int, previous: Option<int>): (r: Option<real>)
    ensures r.None? <==> previous.None? || previous.value == 0
    ensures r.Some? ==> r.value * previous.value as real == (current - previous.value) as real * 100.0
  {
    if previous.None? || previous.value == 0 then None
    else Some(((current - previous.value) as real / previous.value as real) * 100.0)
  }

  /** Against a positive previous value the percentage has the sign of the difference. */
  lemma PercentChangeSign(current: int, previous: int)
    requires previous > 0
    ensures PercentChange(current, Some(previous)).Some?
    ensures var p := PercentChange(current, Some(previous)).value;
      (p > 0.0 <==> current > previous) && (p < 0.0 <==> current < previous) && (p == 0.0 <==> current == previous)
  {
    var p := PercentChange(current, Some(previous)).value;
    var d := (current - previous) as real;
    assert p * previous as real == d * 100.0;
    if current > previous {
      assert p > 0.0;
    } else if current < previous {
      assert p < 0.0;
    }
  }

  /** The non-empty segments of a text, in order. */
  function NonEmpty(segs: seq<string>): (r: seq<string>)
    ensures |r| <= |segs|
    ensures forall i :: 0 <= i < |r| ==> r[i] != []
    ensures (forall i :: 0 <= i < |segs| ==> segs[i] != []) ==> r == segs
  {
    if segs == [] then []
    else if segs[0] == [] then NonEmpty(segs[1..])
    else [segs[0]] + NonEmpty(segs[1..])
  }

  lemma NonEmptyDropsEmpty(x: seq<string>)
    ensures NonEmpty([[]] + x) == NonEmpty(x)
  {
    assert ([[]] + x)[1..] == x;
  }

  /** For a path with parts, the non-empty segments of its text are its parts. */
  lemma SegmentsOfPath(p: PyPath.Path)
    requires PyPath.Valid(p) && p.parts != []
    ensures NonEmpty(Split(PyPath.AsPosix(p), '/')) == p.parts
  {
    var j := Join(p.parts, "/");
    SplitJoin(p.parts, '/');
    assert NonEmpty(Split(j, '/')) == p.parts;
    if p.anchor == "/" {
      PyPath.SplitLeadingSep(j, '/');
      assert PyPath.AsPosix(p) == ['/'] + j;
      NonEmptyDropsEmpty(Split(j, '/'));
    } else if p.anchor == "//" {
      PyPath.SplitLeadingSep(j, '/');
      PyPath.SplitLeadingSep(['/'] + j, '/');
      assert PyPath.AsPosix(p) == ['/'] + (['/'] + j);
      NonEmptyDropsEmpty(Split(j, '/'));
      NonEmptyDropsEmpty([[]] + Split(j, '/'));
    } else {
      assert PyPath.AsPosix(p) == j;
    }
  }

  /**
   * `truncate_path_display`: the POSIX text of the path when it has at most
   * `maxParts` non-empty segments; otherwise the first two segments,
   * `...` and the last segment joined by `/`, with one leading `/` for an
   * absolute path.
   */
  function TruncatePathDisplay(p: PyPath.Path, maxParts: int): (r: string)
    ensures PyPath.Valid(p) && p.parts != [] && |p.parts| <= maxParts ==> r == PyPath.AsPosix(p)
  {
    var pathStr := PyPath.AsPosix(p);
    var parts := NonEmpty(Split(pathStr, '/'));
    assert PyPath.Valid(p) && p.parts != [] ==> parts == p.parts by {
      if PyPath.Valid(p) && p.parts != [] { SegmentsOfPath(p); }
    }
    if |parts| <= maxParts then pathStr
    else
      var suffix := if parts == [] then [] else [parts[|parts| - 1]];
      var truncated := Join(Take(parts, 2) + ["..."] + suffix, "/");
      if p.anchor != "" then "/" + truncated else truncated
  }

  /** A path with at most `maxParts` parts is shown unchanged. */
  lemma TruncateShort(p: PyPath.Path, maxParts: int)
    requires PyPath.Valid(p) && p.parts != [] && |p.parts| <= maxParts
    ensures TruncatePathDisplay(p, maxParts) == PyPath.AsPosix(p)
    ensures PyPath.Parse(TruncatePathDisplay(p, maxParts)) == p
  {
    SegmentsOfPath(p);
    PyPath.ParseToStr(p);
  }

  /**
   * A longer path keeps its first two parts and its last one around `...`,
   * and its leading `/` exactly when it is absolute.
   */
  lemma TruncateLong(p: PyPath.Path, maxParts: int)
    requires PyPath.Valid(p) && p.parts != [] && |p.parts| > maxParts
    ensures var shown := Join(Take(p.parts, 2) + ["...", p.parts[|p.parts| - 1]], "/");
      TruncatePathDisplay(p, maxParts) == if p.anchor != "" then "/" + shown else shown
  {
    SegmentsOfPath(p);
    assert Take(p.parts, 2) + ["..."] + [p.parts[|p.parts| - 1]] == Take(p.parts, 2) + ["...", p.parts[|p.parts| - 1]];
  }

  const Units: seq<string> := ["B", "KB", "MB", "GB", "TB"]

  function Pow1024(k: nat): (r: nat)
    ensures r >= 1
  {
    if k == 0 then 1 else 1024 * Pow1024(k - 1)
  }

  /**
   * The unit index `format_size` settles on, counting up from `k`: the
   * largest index up to TB whose unit is at most `n` bytes.
   */
  function UnitIndexFrom(n: nat, k: nat): (r: nat)
    requires k <= 4 && Pow1024(k) <= n
    decreases 4 - k
    ensures k <= r <= 4
    ensures Pow1024(r) <= n
    ensures r < 4 ==> n < Pow1024(r + 1)
  {
    if k < 4 && Pow1024(k + 1) <= n then UnitIndexFrom(n, k + 1) else k
  }

  lemma {:induction false} PowMonotone(i: nat, j: nat)
    requires i <= j
    ensures Pow1024(i) <= Pow1024(j)
  {
    if i < j {
      PowMonotone(i, j - 1);
    }
  }

  /** Dividing by 1024 and multiplying the unit by 1024 keeps the byte count. */
  lemma ScaleStep(size: real, p: nat)
    ensures (size / 1024.0) * (1024 * p) as real == size * p as real
  {
  }

  /** A size of `n` bytes in a unit of `p` bytes is at least 1024 exactly when `n` is at least `1024 * p`. */
  lemma ScaleAtLeast(size: real, p: nat, n: nat)
    requires p >= 1 && size * p as real == n as real
    ensures size >= 1024.0 <==> n >= 1024 * p
  {
    if size >= 1024.0 {
      assert size * p as real >= 1024.0 * p as real;
    } else {
      assert size * p as real < 1024.0 * p as real;
    }
  }

  lemma ScaleIsQuotient(size: real, p: nat, n: nat)
    requires p >= 1 && size * p as real == n as real
    ensures size == n as real / p as real
  {
  }

  /** `n` bytes in a unit of `p <= n` bytes is at least one unit. */
  lemma ScaleOfQuotient(n: nat, p: nat)
    requires 1 <= p <= n
    ensures (n as real / p as real) * p as real == n as real
    ensures n as real / p as real >= 1.0
  {
  }

  /** The unit of `n` bytes: B below 1 KB, then KB, MB, GB, and TB from 1 TB on. */
  function UnitIndex(n: nat): (r: nat)
    ensures r <= 4
    ensures r == 0 || Pow1024(r) <= n
    ensures r < 4 ==> n < Pow1024(r + 1)
  {
    if n == 0 then 0 else UnitIndexFrom(n, 0)
  }

  /** What `format_size` shows, before the float is printed. */
  datatype SizeDisplay =
    | NoSize                           // `-`
    | WholeBytes(text: string)         // `"{n} B"`
    | Scaled(size: real, unit: string) // the size in `unit`, printed with two decimals, trailing zeros trimmed

  /** `format_size`, as a value: the unit index above and the size in that unit. */
  function SizeDisplayOf(numBytes: Option<int>): (r: Result<SizeDisplay>)
    ensures r.Ok? && r.value.Scaled? ==> r.value.size >= 0.0
  {
    if numBytes.None? then Ok(NoSize)
    else if numBytes.value < 0 then Err(ValueError("num_bytes must be non-negative"))
    else
      var k := UnitIndex(numBytes.value);
      if k == 0 then Ok(WholeBytes(NatToStr(numBytes.value) + " B"))
      else Ok(Scaled(numBytes.value as real / Pow1024(k) as real, Units[k]))
  }

  /**
   * `f"{x:.2f}"` for a non-negative number held exactly: the value times
   * 100 rounded to the nearest integer, ties to even, written with two
   * decimals.
   */
  function Fixed2(x: real): (r: string)
    requires x >= 0.0
    ensures |r| >= 4 && r[|r| - 3] == '.'
  {
    var q0 := (x * 100.0).Floor;
    var frac := x * 100.0 - q0 as real;
    var q: nat := if frac > 0.5 || (frac == 0.5 && q0 % 2 == 1) then q0 + 1 else q0;
    NatToStr(q / 100) + "." + [DigitChar(q % 100 / 10), DigitChar(q % 10)]
  }

  /** `.rstrip("0").rstrip(".")`: trailing zeros of the decimals go, and the point with them. */
  function TrimZeros(s: string): (r: string)
    ensures |r| <= |s| && r == s[..|r|]
  {
    RStripChar(RStripChar(s, '0'), '.')
  }

  /** The text `format_size` returns for what it shows. */
  function SizeText(d: SizeDisplay): string
    requires d.Scaled? ==> d.size >= 0.0
  {
    match d
    case NoSize => "-"
    case WholeBytes(t) => t
    case Scaled(size, unit) => TrimZeros(Fixed2(size)) + " " + unit
  }

  /** `format_size(num_bytes)`. */
  function FormatSizeOf(numBytes: Option<int>): (r: Result<string>)
    ensures r.Err? <==> numBytes.Some? && numBytes.value < 0
    ensures numBytes.None? ==> r == Ok("-")
  {
    match SizeDisplayOf(numBytes)
    case Err(e) => Err(e)
    case Ok(d) => Ok(SizeText(d))
  }

  /**
   * `format_size`: divides by 1024 while the size is at least 1024 and a
   * larger unit remains, then shows whole bytes or the scaled size.
   */
  method FormatSize(numBytes: Option<int>) returns (r: Result<string>)
    ensures r == FormatSizeOf(numBytes)
  {
    if numBytes.None? {
      return Ok("-");
    }
    if numBytes.value < 0 {
      return Err(ValueError("num_bytes must be non-negative"));
    }
    var n: nat := numBytes.value;
    var size: real := n as real;
    var idx: nat := 0;
    ghost var unit: nat := 1;
    while size >= 1024.0 && idx < |Units| - 1
      invariant idx <= UnitIndex(n) && unit == Pow1024(idx)
      invariant size * unit as real == n as real
      decreases 4 - idx
    {
      ScaleAtLeast(size, unit, n);
      ScaleStep(size, unit);
      size := size / 1024.0;
      idx := idx + 1;
      unit := 1024 * unit;
    }
    assert idx == UnitIndex(n) by {
      if idx < UnitIndex(n) {
        PowMonotone(idx + 1, UnitIndex(n));
        ScaleAtLeast(size, unit, n);
      }
    }
    ScaleIsQuotient(size, unit, n);
    if Units[idx] == "B" {
      return Ok(NatToStr(n) + " B");
    }
    var formatted := TrimZeros(Fixed2(size));
    return Ok(formatted + " " + Units[idx]);
  }

  /** Below 1 KB the size is whole bytes; from 1 KB on the scaled size lies in [1, 1024) except in TB. */
  lemma SizeDisplayBounds(n: nat)
    ensures n < 1024 ==> SizeDisplayOf(Some(n)) == Ok(WholeBytes(NatToStr(n) + " B"))
    ensures n >= 1024 ==> (SizeDisplayOf(Some(n)).value.Scaled?
      && 1.0 <= SizeDisplayOf(Some(n)).value.size
      && (SizeDisplayOf(Some(n)).value.unit != "TB" ==> SizeDisplayOf(Some(n)).value.size < 1024.0))
  {
    if n >= 1024 {
      var k := UnitIndex(n);
      assert Pow1024(1) == 1024;
      var size := n as real / Pow1024(k) as real;
      ScaleOfQuotient(n, Pow1024(k));
      ScaleAtLeast(size, Pow1024(k), n);
    }
  }

  /** The documented examples without a unit: 0 bytes, no size, and a negative size. */
  lemma FormatSizeExamples()
    ensures FormatSizeOf(Some(0)) == Ok("0 B")
    ensures FormatSizeOf(None) == Ok("-")
    ensures FormatSizeOf(Some(-1)).Err? && FormatSizeOf(Some(-1)).error.ValueError?
  {
    assert DigitChar(0) == '0';
    assert NatToStr(0) == "0";
    assert "0" + " B" == "0 B";
  }

  /** 1536 bytes are `1.5 KB`. */
  lemma FormatSizeKb()
    ensures FormatSizeOf(Some(1536)) == Ok("1.5 KB")
  {
    OneAndAHalf();
    assert SizeDisplayOf(Some(1536)) == Ok(Scaled(1.5, "KB")) by {
      assert Pow1024(1) == 1024;
      assert UnitIndex(1536) == 1;
      assert 1536 as real / 1024 as real == 1.5;
    }
    assert "1.5" + " " + "KB" == "1.5 KB";
  }

  /** 1572864 bytes are `1.5 MB`. */
  lemma FormatSizeMb()
    ensures FormatSizeOf(Some(1572864)) == Ok("1.5 MB")
  {
    OneAndAHalf();
    assert SizeDisplayOf(Some(1572864)) == Ok(Scaled(1.5, "MB")) by {
      assert Pow1024(2) == 1048576;
      assert UnitIndex(1572864) == 2;
      assert 1572864 as real / 1048576 as real == 1.5;
    }
    assert "1.5" + " " + "MB" == "1.5 MB";
  }

  /** 1.5 is printed `1.50` and trimmed to `1.5`. */
  lemma OneAndAHalf()
    ensures TrimZeros(Fixed2(1.5)) == "1.5"
  {
    assert (1.5 * 100.0).Floor == 150;
    assert DigitChar(1) == '1' && DigitChar(5) == '5' && DigitChar(0) == '0';
    assert NatToStr(1) == "1";
    assert Fixed2(1.5) == "1.50";
    assert RStripChar("1.50", '0') == RStripChar("1.5", '0');
  }
}
