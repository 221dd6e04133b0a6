/**
 * Calendar dates as Python's `datetime` handles them for this system:
 * the proleptic Gregorian calendar for years 1..9999, the formats
 * "%Y-%m-%d", "%Y%m%d" and "%Y-%m", and `strptime(text, "%Y-%m-%d")`.
 */
module Dates {
  import opened Wrappers
  import opened PyStrings

  datatype Date = Date(year: int, month: int, day: int)

  predicate IsLeapYear(y: int) {
    y % 4 == 0 && (y % 100 != 0 || y % 400 == 0)
  }

  function DaysInMonth(y: int, m: int): int
    requires 1 <= m <= 12
  {
    if m == 2 then (if IsLeapYear(y) then 29 else 28)
    else if m == 4 || m == 6 || m == 9 || m == 11 then 30
    else 31
  }

  /** The dates `datetime.date` accepts. */
  predicate Valid(d: Date) {
    1 <= d.year <= 9999 && 1 <= d.month <= 12 && 1 <= d.day <= DaysInMonth(d.year, d.month)
  }

  /** `d.strftime("%Y-%m-%d")`. */
  function FormatIso(d: Date): string
    requires Valid(d)
  {
    ZeroPad(d.year, 4) + "-" + ZeroPad(d.month, 2) + "-" + ZeroPad(d.day, 2)
  }

  /** `d.strftime("%Y%m%d")`, the form gate-pass numbers carry. */
  function FormatCompact(d: Date): string
    requires Valid(d)
  {
    ZeroPad(d.year, 4) + ZeroPad(d.month, 2) + ZeroPad(d.day, 2)
  }

  /** `d.strftime("%Y-%m")`. */
  function FormatYearMonth(year: nat, month: nat): string {
    ZeroPad(year, 4) + "-" + ZeroPad(month, 2)
  }

  /**
   * The `%m` directive of `strptime`: the first of the alternatives
   * "1[0-2]", "0[1-9]", "[1-9]" that matches; (month, characters used).
   */
  function MatchMonth(t: string): Option<(nat, nat)> {
    if |t| >= 2 && t[0] == '1' && '0' <= t[1] <= '2' then Some((10 + DigitValue(t[1]), 2))
    else if |t| >= 2 && t[0] == '0' && '1' <= t[1] <= '9' then Some((DigitValue(t[1]), 2))
    else if |t| >= 1 && '1' <= t[0] <= '9' then Some((DigitValue(t[0]), 1))
    else None
  }

  /**
   * The `%d` directive: the first of "3[01]", "[12][0-9]", "0[1-9]",
   * "[1-9]", " [1-9]" that matches; (day, characters used).
   */
  function MatchDay(t: string): Option<(nat, nat)> {
    if |t| >= 2 && t[0] == '3' && '0' <= t[1] <= '1' then Some((30 + DigitValue(t[1]), 2))
    else if |t| >= 2 && '1' <= t[0] <= '2' && IsDigit(t[1]) then
      Some((10 * DigitValue(t[0]) + DigitValue(t[1]), 2))
    else if |t| >= 2 && t[0] == '0' && '1' <= t[1] <= '9' then Some((DigitValue(t[1]), 2))
    else if |t| >= 1 && '1' <= t[0] <= '9' then Some((DigitValue(t[0]), 1))
    else if |t| >= 2 && t[0] == ' ' && '1' <= t[1] <= '9' then Some((DigitValue(t[1]), 2))
    else None
  }

  /**
   * `datetime.strptime(text, "%Y-%m-%d")`: four digits of year, '-', month,
   * '-', day, nothing left over, and a date that exists; otherwise None
   * (where Python raises ValueError).
   */
  function ParseIso(text: string): (r: Option<Date>)
    ensures r.Some? ==> Valid(r.value)
  {
    if |text| < 5 || !AllDigits(text[..4]) || text[4] != '-' then None
    else
      var rest := text[5..];
      match MatchMonth(rest)
      case None => None
      case Some((month, used)) =>
        if |rest| <= used || rest[used] != '-' then None
        else
          var dayText := rest[used + 1..];
          match MatchDay(dayText)
          case None => None
          case Some((day, dayUsed)) =>
            var d := Date(DigitsValue(text[..4]), month, day);
            if dayUsed == |dayText| && Valid(d) then Some(d) else None
  }

  // ---- properties ----

  lemma TwoDigits(s: string)
    requires |s| == 2 && AllDigits(s)
    ensures DigitsValue(s) == 10 * DigitValue(s[0]) + DigitValue(s[1])
  {
    var head := s[..1];
    assert s[..|s| - 1] == head && s[|s| - 1] == s[1];
    assert head[..|head| - 1] == [] && head[|head| - 1] == s[0];
    assert DigitsValue(head) == DigitValue(s[0]);
  }

  /** `%m`/`%d` text of a month or day: two digits whose value is the number. */
  lemma PaddedTwo(n: nat)
    requires n < 100
    ensures |ZeroPad(n, 2)| == 2 && AllDigits(ZeroPad(n, 2))
    ensures 10 * DigitValue(ZeroPad(n, 2)[0]) + DigitValue(ZeroPad(n, 2)[1]) == n
  {
    NatToStringLength(n, 2);
    ZeroPadValue(n, 2);
    TwoDigits(ZeroPad(n, 2));
  }

  /** `%m` reads a two-digit month back, whatever follows it. */
  lemma MatchMonthPadded(m: int, tail: string)
    requires 1 <= m <= 12
    ensures MatchMonth(ZeroPad(m, 2) + tail) == Some((m, 2))
  {
    PaddedTwo(m);
    MatchMonthTwo(ZeroPad(m, 2), tail, m);
  }

  lemma MatchMonthTwo(s: string, tail: string, m: int)
    requires |s| == 2 && AllDigits(s) && 10 * DigitValue(s[0]) + DigitValue(s[1]) == m
    requires 1 <= m <= 12
    ensures MatchMonth(s + tail) == Some((m, 2))
  {
    var t := s + tail;
    assert t[0] == s[0] && t[1] == s[1];
    var a, b := DigitValue(s[0]), DigitValue(s[1]);
    if m >= 10 {
      assert a == 1 && b <= 2;
      assert s[0] == '1' && '0' <= s[1] <= '2';
    } else {
      assert a == 0 && 1 <= b;
      assert s[0] == '0' && '1' <= s[1] <= '9';
    }
  }

  /** `%d` reads a two-digit day back. */
  lemma MatchDayPadded(d: int)
    requires 1 <= d <= 31
    ensures MatchDay(ZeroPad(d, 2)) == Some((d, 2))
  {
    PaddedTwo(d);
    MatchDayTwo(ZeroPad(d, 2), d);
  }

  lemma MatchDayTwo(s: string, d: int)
    requires |s| == 2 && AllDigits(s) && 10 * DigitValue(s[0]) + DigitValue(s[1]) == d
    requires 1 <= d <= 31
    ensures MatchDay(s) == Some((d, 2))
  {
    var a, b := DigitValue(s[0]), DigitValue(s[1]);
    if d >= 30 {
      assert a == 3 && b <= 1;
      assert s[0] == '3' && '0' <= s[1] <= '1';
    } else if d >= 10 {
      assert 1 <= a <= 2;
      assert '1' <= s[0] <= '2' && IsDigit(s[1]);
    } else {
      assert a == 0 && 1 <= b;
      assert s[0] == '0' && '1' <= s[1] <= '9';
    }
  }

  /** How `strptime` reads text assembled from a year, a month and a day part. */
  lemma ParseIsoPieces(y: string, m: string, d: string, month: nat, day: nat)
    requires |y| == 4 && AllDigits(y)
    requires MatchMonth(m + "-" + d) == Some((month, |m|))
    requires MatchDay(d) == Some((day, |d|))
    ensures ParseIso(y + "-" + m + "-" + d)
            == if Valid(Date(DigitsValue(y), month, day)) then Some(Date(DigitsValue(y), month, day)) else None
  {
    var text := y + "-" + m + "-" + d;
    assert text[..4] == y;
    var rest := text[5..];
    assert rest == m + "-" + d;
    assert rest[|m| + 1..] == d;
  }

  /** Parsing a formatted valid date gives the date back. */
  lemma ParseFormatIso(d: Date)
    requires Valid(d)
    ensures ParseIso(FormatIso(d)) == Some(d)
  {
    var y, mm, dd := IsoPieces(d);
    ParseIsoPieces(y, mm, dd, d.month, d.day);
  }

  /** The three parts of a formatted valid date, and how `%Y`, `%m` and `%d` read each. */
  lemma IsoPieces(d: Date) returns (y: string, mm: string, dd: string)
    requires Valid(d)
    ensures FormatIso(d) == y + "-" + mm + "-" + dd
    ensures |y| == 4 && AllDigits(y) && DigitsValue(y) == d.year
    ensures |mm| == 2 && MatchMonth(mm + "-" + dd) == Some((d.month, 2))
    ensures |dd| == 2 && MatchDay(dd) == Some((d.day, 2))
  {
    y, mm, dd := ZeroPad(d.year, 4), ZeroPad(d.month, 2), ZeroPad(d.day, 2);
    NatToStringLength(d.year, 4);
    ZeroPadValue(d.year, 4);
    NatToStringLength(d.month, 2);
    NatToStringLength(d.day, 2);
    MatchMonthPadded(d.month, "-" + dd);
    assert mm + "-" + dd == mm + ("-" + dd);
    MatchDayPadded(d.day);
  }

  /** Different months print differently: grouping by "%Y-%m" never merges two months. */
  lemma FormatYearMonthInjective(y1: nat, m1: nat, y2: nat, m2: nat)
    requires y1 < 10000 && y2 < 10000 && m1 < 100 && m2 < 100
    requires FormatYearMonth(y1, m1) == FormatYearMonth(y2, m2)
    ensures y1 == y2 && m1 == m2
  {
    NatToStringLength(y1, 4);
    NatToStringLength(y2, 4);
    PaddedTwo(m1);
    PaddedTwo(m2);
    var a, b := FormatYearMonth(y1, m1), FormatYearMonth(y2, m2);
    assert a[..4] == ZeroPad(y1, 4) && b[..4] == ZeroPad(y2, 4);
    assert a[5..] == ZeroPad(m1, 2) && b[5..] == ZeroPad(m2, 2);
    ZeroPadValue(y1, 4);
    ZeroPadValue(y2, 4);
    ZeroPadValue(m1, 2);
    ZeroPadValue(m2, 2);
  }
}
