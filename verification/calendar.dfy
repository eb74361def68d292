/**
 * Calendar dates as the app stores them: `YYYY-MM-DD` strings (the value of
 * an `<input type="date">`, or `toISOString().split('T')[0]`). The model
 * reads them into proleptic Gregorian (year, month, day) triples.
 */
module Calendar {
  import opened Wrappers
  import Numerals

  datatype Date = Date(year: int, month: int, day: int)

  predicate IsLeapYear(y: int)
  {
    (y % 4 == 0 && y % 100 != 0) || y % 400 == 0
  }

  function DaysInMonth(y: int, m: int): (n: int)
    requires 1 <= m <= 12
    ensures 28 <= n <= 31
  {
    if m == 2 then (if IsLeapYear(y) then 29 else 28)
    else if m == 4 || m == 6 || m == 9 || m == 11 then 30
    else 31
  }

  predicate ValidDate(d: Date)
  {
    1 <= d.month <= 12 && 1 <= d.day <= DaysInMonth(d.year, d.month)
  }

  /** Chronological order: `a` is a strictly earlier day than `b`. */
  predicate Before(a: Date, b: Date)
  {
    a.year < b.year
    || (a.year == b.year && a.month < b.month)
    || (a.year == b.year && a.month == b.month && a.day < b.day)
  }

  /** The day before `d` (`setDate(getDate() - 1)`). */
  function PrevDay(d: Date): (r: Date)
    requires ValidDate(d)
    ensures ValidDate(r)
    ensures Before(r, d)
    ensures d.year - 1 <= r.year <= d.year
  {
    if d.day > 1 then Date(d.year, d.month, d.day - 1)
    else if d.month > 1 then Date(d.year, d.month - 1, DaysInMonth(d.year, d.month - 1))
    else Date(d.year - 1, 12, 31)
  }

  /** The day after `d`. */
  function NextDay(d: Date): (r: Date)
    requires ValidDate(d)
    ensures ValidDate(r)
    ensures Before(d, r)
  {
    if d.day < DaysInMonth(d.year, d.month) then Date(d.year, d.month, d.day + 1)
    else if d.month < 12 then Date(d.year, d.month + 1, 1)
    else Date(d.year + 1, 1, 1)
  }

  /** Stepping back a day and forward again returns to the same date, and vice versa. */
  lemma NextPrevRoundTrip(d: Date)
    requires ValidDate(d)
    ensures NextDay(PrevDay(d)) == d
    ensures PrevDay(NextDay(d)) == d
  {
  }

  /** No valid date lies strictly between a date and the day before it. */
  lemma PrevDayAdjacent(d: Date, x: Date)
    requires ValidDate(d) && ValidDate(x)
    ensures !(Before(PrevDay(d), x) && Before(x, d))
  {
  }

  /** The date `n` days before `d`. */
  function DaysBefore(d: Date, n: nat): (r: Date)
    requires ValidDate(d)
    ensures ValidDate(r)
    ensures n > 0 ==> Before(r, d)
    ensures d.year - n <= r.year <= d.year
    decreases n
  {
    if n == 0 then d
    else
      var p := DaysBefore(d, n - 1);
      if n > 1 then
        BeforeTransitive(PrevDay(p), p, d);
        PrevDay(p)
      else PrevDay(p)
  }

  /** Going back at most 30 days from a date leaves its year or reaches December of the year before. */
  lemma {:induction false} DaysBeforeYear(d: Date, n: nat)
    requires ValidDate(d) && n <= 30
    ensures var r := DaysBefore(d, n);
      r.year == d.year || (r.year == d.year - 1 && r.month == 12 && r.day >= 32 - n)
    decreases n
  {
    if n > 0 {
      DaysBeforeYear(d, n - 1);
    }
  }

  lemma BeforeTransitive(a: Date, b: Date, c: Date)
    requires Before(a, b) || a == b
    requires Before(b, c)
    ensures Before(a, c)
  {
  }

  /**
   * A number that orders valid dates chronologically: the model's stand-in
   * for `new Date(s).getTime()`, whose only use is as a sort key.
   */
  function DayKey(d: Date): int
  {
    d.year * 372 + (d.month - 1) * 31 + (d.day - 1)
  }

  /** On valid dates, the key order is the chronological order. */
  lemma DayKeyOrder(a: Date, b: Date)
    requires ValidDate(a) && ValidDate(b)
    ensures DayKey(a) < DayKey(b) <==> Before(a, b)
    ensures DayKey(a) == DayKey(b) <==> a == b
  {
    if a.year < b.year {
      assert a.year * 372 + 371 < b.year * 372;
    } else if b.year < a.year {
      assert b.year * 372 + 371 < a.year * 372;
    }
  }

  /** Year range that renders as four ISO digits. */
  predicate IsoYear(d: Date)
  {
    0 <= d.year <= 9999
  }

  /** `toISOString().split('T')[0]`: zero-padded `YYYY-MM-DD`. */
  function FormatIso(d: Date): (s: string)
    requires ValidDate(d) && IsoYear(d)
    ensures |s| == 10 && s[4] == '-' && s[7] == '-'
  {
    Numerals.NatToStringLength(d.year, 10, 4);
    Numerals.NatToStringLength(d.month, 10, 2);
    Numerals.NatToStringLength(d.day, 10, 2);
    Numerals.PadZeros(Numerals.NatToString(d.year, 10), 4) + "-"
      + Numerals.PadZeros(Numerals.NatToString(d.month, 10), 2) + "-"
      + Numerals.PadZeros(Numerals.NatToString(d.day, 10), 2)
  }

  /**
   * Reading a `YYYY-MM-DD` string as a date (`new Date(s)`); None stands for
   * the Invalid Date a malformed string gives.
   */
  function ParseIso(s: string): (r: Option<Date>)
    ensures r.Some? ==> ValidDate(r.value) && IsoYear(r.value)
  {
    if |s| == 10 && s[4] == '-' && s[7] == '-'
       && Numerals.AllDigits(s[..4], 10) && Numerals.AllDigits(s[5..7], 10) && Numerals.AllDigits(s[8..], 10)
    then
      var d := Date(Numerals.ParseNat(s[..4], 10), Numerals.ParseNat(s[5..7], 10), Numerals.ParseNat(s[8..], 10));
      assert d.year < 10000 by { Numerals.ParseNatBound(s[..4], 10); }
      if ValidDate(d) then Some(d) else None
    else None
  }

  /** Reading a formatted date gives the date back. */
  lemma ParseFormatIso(d: Date)
    requires ValidDate(d) && IsoYear(d)
    ensures ParseIso(FormatIso(d)) == Some(d)
  {
    var s := FormatIso(d);
    Numerals.NatToStringLength(d.year, 10, 4);
    Numerals.NatToStringLength(d.month, 10, 2);
    Numerals.NatToStringLength(d.day, 10, 2);
    var y := Numerals.PadZeros(Numerals.NatToString(d.year, 10), 4);
    var m := Numerals.PadZeros(Numerals.NatToString(d.month, 10), 2);
    var dd := Numerals.PadZeros(Numerals.NatToString(d.day, 10), 2);
    Numerals.PadZerosParse(Numerals.NatToString(d.year, 10), 4, 10);
    Numerals.PadZerosParse(Numerals.NatToString(d.month, 10), 2, 10);
    Numerals.PadZerosParse(Numerals.NatToString(d.day, 10), 2, 10);
    Numerals.ParseNatToString(d.year, 10);
    Numerals.ParseNatToString(d.month, 10);
    Numerals.ParseNatToString(d.day, 10);
    assert s[..4] == y;
    assert s[5..7] == m;
    assert s[8..] == dd;
  }

  /** Different dates format to different strings. */
  lemma FormatIsoInjective(a: Date, b: Date)
    requires ValidDate(a) && IsoYear(a) && ValidDate(b) && IsoYear(b)
    requires FormatIso(a) == FormatIso(b)
    ensures a == b
  {
    ParseFormatIso(a);
    ParseFormatIso(b);
  }
}
