/** Python's decimal `str(int)`, `int(str)` and the `{:,}` thousands format. */
module PyInt {
  import opened Wrappers
  import opened PyStr

  predicate IsDigit(c: char) {
    '0' <= c <= '9'
  }

  predicate AllDigits(s: string) {
    forall i :: 0 <= i < |s| ==> IsDigit(s[i])
  }

  function DigitChar(d: nat): (c: char)
    requires d < 10
    ensures IsDigit(c)
  {
    ('0' as int + d) as char
  }

  /** `str(n)` for a natural number: decimal digits, no leading zero. */
  function NatToStr(n: nat): (r: string)
    ensures |r| >= 1 && AllDigits(r)
    ensures r[0] == '0' ==> r == "0"
  {
    if n < 10 then [DigitChar(n)] else NatToStr(n / 10) + [DigitChar(n % 10)]
  }

  /** `str(n)`. */
  function IntToStr(n: int): string {
    if n < 0 then "-" + NatToStr(-n) else NatToStr(n)
  }

  predicate DigitsOrUnderscores(s: string) {
    forall i :: 0 <= i < |s| ==> IsDigit(s[i]) || s[i] == '_'
  }

  /** The number written by the digits of `s`, skipping underscores. */
  function DigitsValue(s: string): nat
    requires DigitsOrUnderscores(s)
  {
    if s == [] then 0
    else if s[|s| - 1] == '_' then DigitsValue(s[..|s| - 1])
    else DigitsValue(s[..|s| - 1]) * 10 + (s[|s| - 1] as int - '0' as int)
  }

  /**
   * The digit strings `int()` accepts: digits, where an underscore may only
   * stand between two digits.
   */
  predicate DigitGroups(s: string) {
    |s| > 0 && IsDigit(s[0]) && IsDigit(s[|s| - 1]) && DigitsOrUnderscores(s)
    && forall i, j :: 0 <= i < |s| && 0 <= j < |s| && j == i + 1 && s[i] == '_' ==> IsDigit(s[j])
  }

  /**
   * `int(s)` for a base-10 string: surrounding whitespace is ignored, one
   * optional sign, then digit groups. `None` stands for the ValueError.
   */
  function ParseInt(s: string): (r: Option<int>)
    ensures r.Some? ==> Strip(s) != []
  {
    ParseTrimmed(Strip(s))
  }

  /** `int()` of a string without surrounding whitespace. */
  function ParseTrimmed(t: string): (r: Option<int>)
    ensures r.Some? ==> t != []
  {
    if t == [] then None
    else
      var body := if t[0] == '-' || t[0] == '+' then t[1..] else t;
      if DigitGroups(body) then
        var v: int := DigitsValue(body);
        Some(if t[0] == '-' then -v else v)
      else None
  }

  lemma StripNoSpace(s: string)
    requires forall i :: 0 <= i < |s| ==> !IsSpace(s[i])
    ensures Strip(s) == s
  {
    assert LStrip(s) == s;
    if s != [] { assert !IsSpace(s[|s| - 1]); }
  }

  lemma {:induction false} DigitsValueOfNatToStr(n: nat)
    ensures DigitsValue(NatToStr(n)) == n
  {
    var r := NatToStr(n);
    if n < 10 {
      assert r[..0] == [];
    } else {
      var p := NatToStr(n / 10);
      assert r[..|r| - 1] == p;
      DigitsValueOfNatToStr(n / 10);
    }
  }

  /** `int(str(n)) == n` for every integer. */
  lemma IntRoundTrip(n: int)
    ensures ParseInt(IntToStr(n)) == Some(n)
  {
    var m: nat := if n < 0 then -n else n;
    StripNoSpace(IntToStr(n));
    DigitsValueOfNatToStr(m);
    NatToStrGroups(m);
    if n < 0 {
      ParseNegative(NatToStr(m), m);
    } else {
      ParseUnsigned(NatToStr(m), m);
    }
  }

  lemma ParseNegative(digits: string, v: nat)
    requires DigitGroups(digits) && DigitsValue(digits) == v
    ensures ParseTrimmed("-" + digits) == Some(-(v as int))
  {
    assert ("-" + digits)[1..] == digits;
  }

  lemma ParseUnsigned(digits: string, v: nat)
    requires DigitGroups(digits) && DigitsValue(digits) == v
    ensures ParseTrimmed(digits) == Some(v as int)
  {
    assert IsDigit(digits[0]);
  }

  lemma NatToStrGroups(n: nat)
    ensures DigitGroups(NatToStr(n))
  {
    var r := NatToStr(n);
    assert forall i :: 0 <= i < |r| ==> IsDigit(r[i]);
  }

  /** Three digits, with leading zeros, of a number below 1000. */
  function Pad3(n: nat): (r: string)
    requires n < 1000
    ensures |r| == 3 && AllDigits(r)
  {
    [DigitChar(n / 100), DigitChar(n / 10 % 10), DigitChar(n % 10)]
  }

  /** The digits of `n` with a comma between each group of three, from the right. */
  function GroupThousands(n: nat): string {
    if n < 1000 then NatToStr(n) else GroupThousands(n / 1000) + "," + Pad3(n % 1000)
  }

  /** `f"{n:,}"`. */
  function FormatThousands(n: int): string {
    if n < 0 then "-" + GroupThousands(-n) else GroupThousands(n)
  }

  function DropCommas(s: string): (r: string)
    ensures |r| <= |s| && ',' !in r
  {
    if s == [] then [] else (if s[0] == ',' then [] else [s[0]]) + DropCommas(s[1..])
  }

  lemma {:induction false} DropCommasAppend(a: string, b: string)
    ensures DropCommas(a + b) == DropCommas(a) + DropCommas(b)
  {
    if a == [] {
      assert a + b == b;
    } else {
      assert (a + b)[1..] == a[1..] + b;
      DropCommasAppend(a[1..], b);
    }
  }

  lemma {:induction false} DropCommasDigits(s: string)
    requires AllDigits(s)
    ensures DropCommas(s) == s
  {
    if s != [] { DropCommasDigits(s[1..]); }
  }

  lemma NatToStrThousands(n: nat)
    requires n >= 1000
    ensures NatToStr(n) == NatToStr(n / 1000) + Pad3(n % 1000)
  {
    var q, r := n / 1000, n % 1000;
    var n1, n2 := n / 10, n / 100;
    ThousandsDigits(n);
    assert NatToStr(n) == NatToStr(n1) + [DigitChar(n % 10)];
    assert NatToStr(n1) == NatToStr(n2) + [DigitChar(n1 % 10)];
    assert NatToStr(n2) == NatToStr(q) + [DigitChar(n2 % 10)];
    assert Pad3(r) == [DigitChar(n2 % 10), DigitChar(n1 % 10), DigitChar(n % 10)];
  }

  /** The last three decimal digits of `n` are the digits of `n % 1000`. */
  lemma ThousandsDigits(n: nat)
    requires n >= 1000
    ensures n / 10 >= 10 && n / 100 >= 10 && n / 100 / 10 == n / 1000
    ensures n / 10 / 10 == n / 100
    ensures n % 10 == n % 1000 % 10 && n / 10 % 10 == n % 1000 / 10 % 10 && n / 100 % 10 == n % 1000 / 100
  {
    var q, r := n / 1000, n % 1000;
    assert n / 10 == 100 * q + r / 10;
    assert n / 100 == 10 * q + r / 100;
  }

  /** Dropping the commas from `f"{n:,}"` gives back `str(n)`. */
  lemma {:induction false} GroupThousandsDigits(n: nat)
    ensures DropCommas(GroupThousands(n)) == NatToStr(n)
  {
    if n < 1000 {
      DropCommasDigits(NatToStr(n));
    } else {
      var head, tail := GroupThousands(n / 1000), Pad3(n % 1000);
      assert GroupThousands(n) == head + "," + tail;
      GroupThousandsDigits(n / 1000);
      DropCommasAppend(head + ",", tail);
      DropCommasAppend(head, ",");
      assert DropCommas(",") == [];
      DropCommasDigits(tail);
      NatToStrThousands(n);
    }
  }
}
