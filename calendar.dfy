/**
 * Calendar days, as `datetime` handles them in the scripts: the day after a
 * date (`+ timedelta(days=1)`), and the `YYYY-MM-DD` text form written by
 * `strftime('%Y-%m-%d')` and read back by `fromisoformat`.
 */
module Calendar {
  import opened Wrappers
  import opened Text

  datatype Date = Date(year: int, month: int, day: int)

  predicate IsLeapYear(y: int)
  {
    y % 4 == 0 && (y % 100 != 0 || y % 400 == 0)
  }

  function DaysInMonth(year: int, month: int): int
    requires 1 <= month <= 12
  {
    if month == 2 then (if IsLeapYear(year) then 29 else 28)
    else if month == 4 || month == 6 || month == 9 || month == 11 then 30
    else 31
  }

  predicate IsValid(d: Date)
  {
    1 <= d.month <= 12 && 1 <= d.day <= DaysInMonth(d.year, d.month)
  }

  /** Chronological order of days. */
  predicate Before(a: Date, b: Date)
  {
    a.year < b.year || (a.year == b.year && (a.month < b.month || (a.month == b.month && a.day < b.day)))
  }

  /** `d + timedelta(days=1)`: the first valid day after `d`. */
  function NextDay(d: Date): (r: Date)
    requires IsValid(d)
    ensures IsValid(r) && Before(d, r)
    ensures forall x :: IsValid(x) && Before(d, x) ==> x == r || Before(r, x)
  {
    if d.day < DaysInMonth(d.year, d.month) then Date(d.year, d.month, d.day + 1)
    else if d.month < 12 then Date(d.year, d.month + 1, 1)
    else Date(d.year + 1, 1, 1)
  }

  /** Different days have different next days, so a day has at most one day before it. */
  lemma NextDayInjective(a: Date, b: Date)
    requires IsValid(a) && IsValid(b) && NextDay(a) == NextDay(b)
    ensures a == b
  {
  }

  /** `d - timedelta(days=1)`: the day whose next day is `d`. */
  function PrevDay(d: Date): (r: Date)
    requires IsValid(d)
    ensures IsValid(r) && NextDay(r) == d
  {
    if d.day > 1 then Date(d.year, d.month, d.day - 1)
    else if d.month > 1 then Date(d.year, d.month - 1, DaysInMonth(d.year, d.month - 1))
    else Date(d.year - 1, 12, 31)
  }

  /** The years `datetime` represents with a four-digit `%Y`. */
  predicate InIsoRange(d: Date)
  {
    IsValid(d) && 1 <= d.year <= 9999
  }

  /** `d.strftime('%Y-%m-%d')`. */
  function FormatIso(d: Date): (s: string)
    requires InIsoRange(d)
    ensures |s| == 10 && s[4] == '-' && s[7] == '-'
  {
    assert Pow10(2) == 100 && Pow10(4) == 10000;
    Pad(d.year, 4) + "-" + Pad(d.month, 2) + "-" + Pad(d.day, 2)
  }

  /** `d.strftime('%Y%m%d')`, the form the scoreboard takes as its `dates` parameter. */
  function FormatCompact(d: Date): (s: string)
    requires InIsoRange(d)
    ensures |s| == 8 && AllDigits(s)
    ensures DigitsValue(s[..4]) == d.year && DigitsValue(s[4..6]) == d.month && DigitsValue(s[6..]) == d.day
  {
    assert Pow10(2) == 100 && Pow10(4) == 10000;
    var y, m, n := Pad(d.year, 4), Pad(d.month, 2), Pad(d.day, 2);
    var s := y + m + n;
    assert s[..4] == y && s[4..6] == m && s[6..] == n;
    s
  }

  /**
   * `datetime.fromisoformat(s)` on a plain `YYYY-MM-DD` date; `None` is the
   * `ValueError` it raises on anything else, including a day that does not exist.
   * Whatever it accepts, formatting gives back the same text.
   */
  function ParseIso(s: string): (r: Option<Date>)
    ensures r.Some? ==> InIsoRange(r.value) && FormatIso(r.value) == s
  {
    if |s| == 10 && s[4] == '-' && s[7] == '-'
       && AllDigits(s[..4]) && AllDigits(s[5..7]) && AllDigits(s[8..])
    then
      var d := Date(DigitsValue(s[..4]), DigitsValue(s[5..7]), DigitsValue(s[8..]));
      if 1 <= d.year && IsValid(d) then
        IsoTextOf(s, d);
        Some(d)
      else None
    else None
  }

  /** A `YYYY-MM-DD` text whose fields name a day is that day's `%Y-%m-%d` text. */
  lemma IsoTextOf(s: string, d: Date)
    requires |s| == 10 && s[4] == '-' && s[7] == '-'
    requires AllDigits(s[..4]) && AllDigits(s[5..7]) && AllDigits(s[8..])
    requires d == Date(DigitsValue(s[..4]), DigitsValue(s[5..7]), DigitsValue(s[8..]))
    requires 1 <= d.year && IsValid(d)
    ensures InIsoRange(d) && FormatIso(d) == s
  {
    var y, m, n := s[..4], s[5..7], s[8..];
    PadDigitsValue(y);
    PadDigitsValue(m);
    PadDigitsValue(n);
    assert Pow10(2) == 100 && Pow10(4) == 10000;
    assert |y| == 4 && |m| == 2 && |n| == 2;
    assert Pad(d.year, 4) == y && Pad(d.month, 2) == m && Pad(d.day, 2) == n;
    assert s == y + "-" + m + "-" + n;
  }

  /** Reading back what was written gives the same day. */
  lemma ParseFormatIso(d: Date)
    requires InIsoRange(d)
    ensures ParseIso(FormatIso(d)) == Some(d)
  {
    var s := FormatIso(d);
    assert Pow10(2) == 100 && Pow10(4) == 10000;
    assert s[..4] == Pad(d.year, 4);
    assert s[5..7] == Pad(d.month, 2);
    assert s[8..] == Pad(d.day, 2);
  }
}
