/**
 * `datetime.date` and naive `datetime.datetime` values with their ISO 8601
 * text forms (`isoformat()` / `fromisoformat()`).
 */
module Dates {
  import opened Wrappers
  import opened PyInt

  datatype Date = Date(year: int, month: int, day: int)

  datatype DateTime = DateTime(date: Date, hour: int, minute: int, second: int, micro: int)

  predicate IsLeap(y: int) {
    y % 4 == 0 && (y % 100 != 0 || y % 400 == 0)
  }

  function DaysInMonth(y: int, m: int): int {
    if m == 2 then (if IsLeap(y) then 29 else 28)
    else if m == 4 || m == 6 || m == 9 || m == 11 then 30
    else 31
  }

  /** The dates `datetime.date` can represent. */
  predicate ValidDate(d: Date) {
    1 <= d.year <= 9999 && 1 <= d.month <= 12 && 1 <= d.day <= DaysInMonth(d.year, d.month)
  }

  predicate ValidDateTime(t: DateTime) {
    ValidDate(t.date) && 0 <= t.hour < 24 && 0 <= t.minute < 60 && 0 <= t.second < 60
    && 0 <= t.micro < 1000000
  }

  function Pow10(w: nat): (r: nat)
    ensures r >= 1
  {
    if w == 0 then 1 else 10 * Pow10(w - 1)
  }

  /** `n` written with exactly `w` digits, zero-padded on the left. */
  function Pad(n: nat, w: nat): (r: string)
    requires n < Pow10(w)
    ensures |r| == w && AllDigits(r)
  {
    if w == 0 then [] else Pad(n / 10, w - 1) + [DigitChar(n % 10)]
  }

  lemma {:induction false} PadValue(n: nat, w: nat)
    requires n < Pow10(w)
    ensures DigitsValue(Pad(n, w)) == n
  {
    if w > 0 {
      var r := Pad(n, w);
      assert r[..w - 1] == Pad(n / 10, w - 1);
      PadValue(n / 10, w - 1);
    }
  }

  /** The value of a field of fixed width written in ASCII digits. */
  function FieldValue(s: string): Option<nat> {
    if AllDigits(s) then Some(DigitsValue(s)) else None
  }

  /** `date.isoformat()`: "YYYY-MM-DD". */
  function DateIso(d: Date): (r: string)
    requires ValidDate(d)
    ensures |r| == 10
  {
    Pad(d.year, 4) + "-" + Pad(d.month, 2) + "-" + Pad(d.day, 2)
  }

  /** `date.fromisoformat(s)` for the extended "YYYY-MM-DD" form. */
  function ParseDate(s: string): (r: Result<Date>)
    ensures r.Ok? ==> ValidDate(r.value)
  {
    if |s| != 10 || s[4] != '-' || s[7] != '-' then Err(ValueError("Invalid isoformat string"))
    else
      match (FieldValue(s[..4]), FieldValue(s[5..7]), FieldValue(s[8..]))
      case (Some(y), Some(m), Some(d)) =>
        if ValidDate(Date(y, m, d)) then Ok(Date(y, m, d)) else Err(ValueError("day is out of range for month"))
      case _ => Err(ValueError("Invalid isoformat string"))
  }

  lemma DateRoundTrip(d: Date)
    requires ValidDate(d)
    ensures ParseDate(DateIso(d)) == Ok(d)
  {
    var s := DateIso(d);
    assert s[..4] == Pad(d.year, 4);
    assert s[5..7] == Pad(d.month, 2);
    assert s[8..] == Pad(d.day, 2);
    PadValue(d.year, 4);
    PadValue(d.month, 2);
    PadValue(d.day, 2);
  }

  function TimeIso(t: DateTime): string
    requires ValidDateTime(t)
  {
    Pad(t.hour, 2) + ":" + Pad(t.minute, 2) + ":" + Pad(t.second, 2)
    + (if t.micro != 0 then "." + Pad(t.micro, 6) else "")
  }

  /** `datetime.isoformat()`: microseconds are written only when non-zero. */
  function DateTimeIso(t: DateTime): string
    requires ValidDateTime(t)
  {
    DateIso(t.date) + "T" + TimeIso(t)
  }

  /** The time part: "HH", "HH:MM", "HH:MM:SS" or "HH:MM:SS.ffffff". */
  function ParseTime(s: string): Option<(int, int, int, int)> {
    if |s| != 2 && |s| != 5 && |s| != 8 && |s| != 15 then None
    else if |s| >= 5 && (s[2] != ':' || (|s| >= 8 && s[5] != ':') || (|s| == 15 && s[8] != '.')) then None
    else
      var h := FieldValue(s[..2]);
      var m := if |s| >= 5 then FieldValue(s[3..5]) else Some(0);
      var sec := if |s| >= 8 then FieldValue(s[6..8]) else Some(0);
      var us := if |s| == 15 then FieldValue(s[9..]) else Some(0);
      if h.Some? && m.Some? && sec.Some? && us.Some? then Some((h.value, m.value, sec.value, us.value))
      else None
  }

  /**
   * `datetime.fromisoformat(s)` for a date alone, or a date, one separator
   * character and a time part.
   */
  function ParseDateTime(s: string): (r: Result<DateTime>)
    ensures r.Ok? ==> ValidDateTime(r.value)
  {
    if |s| < 10 then Err(ValueError("Invalid isoformat string"))
    else
      match ParseDate(s[..10])
      case Err(e) => Err(e)
      case Ok(d) =>
        if |s| == 10 then Ok(DateTime(d, 0, 0, 0, 0))
        else
          match ParseTime(s[11..])
          case None => Err(ValueError("Invalid isoformat string"))
          case Some((h, m, sec, us)) =>
            var t := DateTime(d, h, m, sec, us);
            if ValidDateTime(t) then Ok(t) else Err(ValueError("time is out of range"))
  }

  lemma TimeRoundTrip(t: DateTime)
    requires ValidDateTime(t)
    ensures ParseTime(TimeIso(t)) == Some((t.hour, t.minute, t.second, t.micro))
  {
    var s := TimeIso(t);
    assert |s| == if t.micro != 0 then 15 else 8;
    assert s[2] == ':' && s[5] == ':';
    assert FieldValue(s[..2]) == Some(t.hour) by {
      assert s[..2] == Pad(t.hour, 2);
      PadValue(t.hour, 2);
    }
    assert FieldValue(s[3..5]) == Some(t.minute) by {
      assert s[3..5] == Pad(t.minute, 2);
      PadValue(t.minute, 2);
    }
    assert FieldValue(s[6..8]) == Some(t.second) by {
      assert s[6..8] == Pad(t.second, 2);
      PadValue(t.second, 2);
    }
    if t.micro != 0 {
      assert s[8] == '.';
      assert FieldValue(s[9..]) == Some(t.micro) by {
        assert s[9..] == Pad(t.micro, 6);
        PadValue(t.micro, 6);
      }
    }
  }

  /** `datetime.fromisoformat(t.isoformat()) == t`. */
  lemma DateTimeRoundTrip(t: DateTime)
    requires ValidDateTime(t)
    ensures ParseDateTime(DateTimeIso(t)) == Ok(t)
  {
    var s := DateTimeIso(t);
    assert s[..10] == DateIso(t.date);
    assert s[11..] == TimeIso(t);
    DateRoundTrip(t.date);
    TimeRoundTrip(t);
  }

  /** `strftime("%Y-%m-%d")`. */
  function DayText(t: DateTime): string
    requires ValidDateTime(t)
  {
    DateIso(t.date)
  }

  /** `strftime("%Y-%m-%d %H:%M:%S")`. */
  function SecondsText(t: DateTime): string
    requires ValidDateTime(t)
  {
    DateIso(t.date) + " " + Pad(t.hour, 2) + ":" + Pad(t.minute, 2) + ":" + Pad(t.second, 2)
  }
}
