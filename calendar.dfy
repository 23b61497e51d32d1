/** Calendar dates as Python's `datetime.date` has them: proleptic Gregorian
    dates of years 1 to 9999, their day ordinals (`date.toordinal()`, with
    0001-01-01 as day 1), the ISO `YYYY-MM-DD` text form that `isoformat()`
    writes and `strptime(s, '%Y-%m-%d')` reads, and the month range the
    calendar endpoint queries. */
module Calendar {
  import opened Common

  datatype Date = Date(year: int, month: int, day: int)

  predicate IsLeap(y: int) {
    y % 4 == 0 && (y % 100 != 0 || y % 400 == 0)
  }

  function DaysInMonth(y: int, m: int): int {
    if m == 2 then (if IsLeap(y) then 29 else 28)
    else if m == 4 || m == 6 || m == 9 || m == 11 then 30
    else 31
  }

  function DaysInYear(y: int): int {
    if IsLeap(y) then 366 else 365
  }

  /** The dates Python can represent. */
  predicate ValidDate(d: Date) {
    1 <= d.year <= 9999 && 1 <= d.month <= 12 && 1 <= d.day <= DaysInMonth(d.year, d.month)
  }

  /** A `datetime.date` value: always a real calendar date. */
  type CivilDate = d: Date | ValidDate(d) witness Date(1, 1, 1)

  /** Days in the years before year `y`. */
  function DaysBeforeYear(y: int): int {
    var p := y - 1;
    p * 365 + p / 4 - p / 100 + p / 400
  }

  /** Days in the months of year `y` before month `m`. */
  function DaysBeforeMonth(y: int, m: int): int {
    var common :=
      if m <= 1 then 0 else if m == 2 then 31 else if m == 3 then 59
      else if m == 4 then 90 else if m == 5 then 120 else if m == 6 then 151
      else if m == 7 then 181 else if m == 8 then 212 else if m == 9 then 243
      else if m == 10 then 273 else if m == 11 then 304 else 334;
    common + (if m > 2 && IsLeap(y) then 1 else 0)
  }

  /** `date.toordinal()`. */
  function Ordinal(d: Date): int {
    DaysBeforeYear(d.year) + DaysBeforeMonth(d.year, d.month) + d.day
  }

  /** Calendar order: by year, then month, then day. */
  predicate Before(a: Date, b: Date) {
    || a.year < b.year
    || (a.year == b.year && a.month < b.month)
    || (a.year == b.year && a.month == b.month && a.day < b.day)
  }

  /** Stepping past a multiple of 4, 100 or 400 adds one to the quotient. */
  lemma QuotientStep(y: int)
    requires y >= 1
    ensures y / 4 == (y - 1) / 4 + (if y % 4 == 0 then 1 else 0)
    ensures y / 100 == (y - 1) / 100 + (if y % 100 == 0 then 1 else 0)
    ensures y / 400 == (y - 1) / 400 + (if y % 400 == 0 then 1 else 0)
  {
  }

  /** The leap rule counted as the three divisibility steps it is made of. */
  lemma LeapByRemainders(y: int)
    ensures DaysInYear(y) ==
      365 + (if y % 4 == 0 then 1 else 0) - (if y % 100 == 0 then 1 else 0) + (if y % 400 == 0 then 1 else 0)
  {
    if y % 400 == 0 {
      var k := y / 400;
      assert y == 100 * (4 * k) && y == 4 * (100 * k);
    } else if y % 100 == 0 {
      var k := y / 100;
      assert y == 4 * (25 * k);
    }
  }

  lemma DaysBeforeNextYear(y: int)
    requires y >= 1
    ensures DaysBeforeYear(y + 1) == DaysBeforeYear(y) + DaysInYear(y)
  {
    QuotientStep(y);
    LeapByRemainders(y);
    assert DaysBeforeYear(y + 1) == y * 365 + y / 4 - y / 100 + y / 400;
    assert DaysBeforeYear(y) == (y - 1) * 365 + (y - 1) / 4 - (y - 1) / 100 + (y - 1) / 400;
  }

  lemma {:induction false} DaysBeforeYearMonotone(y: int, z: int)
    requires 1 <= y <= z
    ensures DaysBeforeYear(y) + (z - y) * 365 <= DaysBeforeYear(z)
    decreases z - y
  {
    if y < z {
      DaysBeforeNextYear(y);
      DaysBeforeYearMonotone(y + 1, z);
    }
  }

  /** Each month ends where the next begins. */
  lemma MonthsAdjoin(y: int, m: int)
    requires 1 <= m < 12
    ensures DaysBeforeMonth(y, m) + DaysInMonth(y, m) == DaysBeforeMonth(y, m + 1)
  {
  }

  /** December ends where the year ends. */
  lemma DecemberEndsYear(y: int)
    ensures DaysBeforeMonth(y, 12) + DaysInMonth(y, 12) == DaysInYear(y)
  {
  }

  lemma {:induction false} MonthsAccumulate(y: int, m: int, n: int)
    requires 1 <= m < n <= 12
    ensures DaysBeforeMonth(y, m) + DaysInMonth(y, m) <= DaysBeforeMonth(y, n)
    decreases n - m
  {
    MonthsAdjoin(y, m);
    if m + 1 < n {
      MonthsAccumulate(y, m + 1, n);
    }
  }

  lemma DayWithinYear(d: Date)
    requires ValidDate(d)
    ensures 1 <= DaysBeforeMonth(d.year, d.month) + d.day <= DaysInYear(d.year)
  {
    if d.month < 12 {
      MonthsAccumulate(d.year, d.month, 12);
    }
    DecemberEndsYear(d.year);
  }

  /** Ordinals follow calendar order. */
  lemma OrdinalMonotone(a: Date, b: Date)
    requires ValidDate(a) && ValidDate(b) && Before(a, b)
    ensures Ordinal(a) < Ordinal(b)
  {
    if a.year < b.year {
      DayWithinYear(a);
      DaysBeforeNextYear(a.year);
      DaysBeforeYearMonotone(a.year + 1, b.year);
    } else if a.month < b.month {
      MonthsAccumulate(a.year, a.month, b.month);
    }
  }

  /** Comparing ordinals is comparing dates: `<` on `datetime.date`, and
      equality, agree with calendar order. */
  lemma OrdinalOrder(a: Date, b: Date)
    requires ValidDate(a) && ValidDate(b)
    ensures Ordinal(a) < Ordinal(b) <==> Before(a, b)
    ensures Ordinal(a) == Ordinal(b) <==> a == b
  {
    if Before(a, b) {
      OrdinalMonotone(a, b);
    } else if Before(b, a) {
      OrdinalMonotone(b, a);
    }
  }

  // ---------------------------------------------------------------------
  // Month bounds of the calendar endpoint

  /** `date(year, month, 1)` and the first day of the following month, with
      December rolling over to January of `year + 1`. Python's `date`
      constructor raises for a month outside 1..12 or a year outside
      1..9999, which includes the roll-over from December 9999; the handler
      then answers 500. */
  function MonthBounds(year: int, month: int): (r: Outcome<(CivilDate, CivilDate)>)
    ensures r.Ok? <==> 1 <= year <= 9999 && 1 <= month <= 12 && !(year == 9999 && month == 12)
    ensures r.Fail? ==> r == Fail(500, ServerError)
    ensures r.Ok? ==> r.value.0 == Date(year, month, 1)
    ensures r.Ok? ==> r.value.1.day == 1 && Before(r.value.0, r.value.1)
    ensures r.Ok? ==> Ordinal(r.value.1) - Ordinal(r.value.0) == DaysInMonth(year, month)
  {
    if !(1 <= year <= 9999 && 1 <= month <= 12) then Fail(500, ServerError)
    else if month == 12 then
      if year + 1 > 9999 then Fail(500, ServerError)
      else
        DaysBeforeNextYear(year);
        DecemberEndsYear(year);
        var start: CivilDate := Date(year, month, 1);
        var end: CivilDate := Date(year + 1, 1, 1);
        Ok((start, end))
    else
      MonthsAdjoin(year, month);
      var start: CivilDate := Date(year, month, 1);
      var end: CivilDate := Date(year, month + 1, 1);
      Ok((start, end))
  }

  /** The half-open range [start, end) returned by MonthBounds holds exactly
      the dates of that month. */
  lemma MonthRangeIsMonth(year: int, month: int, d: CivilDate)
    requires MonthBounds(year, month).Ok?
    ensures var (start, end) := MonthBounds(year, month).value;
      Ordinal(start) <= Ordinal(d) < Ordinal(end) <==> d.year == year && d.month == month
  {
    var (start, end) := MonthBounds(year, month).value;
    if d.year == year && d.month == month {
      assert Ordinal(d) == Ordinal(start) + d.day - 1;
    } else if Before(d, start) {
      OrdinalMonotone(d, start);
    } else {
      assert Before(end, d) || d == end;
      if Before(end, d) {
        OrdinalMonotone(end, d);
      }
    }
  }

  /** The day of the month whose ordinal is `n`, for an ordinal inside the
      month's range. */
  lemma DayOfMonthAt(year: int, month: int, n: int) returns (d: CivilDate)
    requires MonthBounds(year, month).Ok?
    requires Ordinal(MonthBounds(year, month).value.0) <= n < Ordinal(MonthBounds(year, month).value.1)
    ensures d.year == year && d.month == month && Ordinal(d) == n
  {
    var start := MonthBounds(year, month).value.0;
    d := Date(year, month, n - Ordinal(start) + 1);
  }

  // ---------------------------------------------------------------------
  // ISO text form

  function Pow10(k: nat): nat {
    if k == 0 then 1 else 10 * Pow10(k - 1)
  }

  predicate IsDigit(c: char) {
    '0' <= c <= '9'
  }

  predicate AllDigits(s: string) {
    forall k :: 0 <= k < |s| ==> IsDigit(s[k])
  }

  function DigitChar(n: int): char
    requires 0 <= n <= 9
  {
    ('0' as int + n) as char
  }

  /** `n` written with exactly `width` decimal digits, as `%0<width>d` writes
      it for an `n` that fits. */
  function Pad(n: nat, width: nat): (s: string)
    ensures |s| == width && AllDigits(s)
  {
    if width == 0 then [] else Pad(n / 10, width - 1) + [DigitChar(n % 10)]
  }

  /** The number a string of decimal digits denotes. */
  function DigitsValue(s: string): nat
    requires AllDigits(s)
  {
    if s == [] then 0 else DigitsValue(s[..|s| - 1]) * 10 + (s[|s| - 1] as int - '0' as int)
  }

  lemma {:induction false} PadThenRead(n: nat, width: nat)
    requires n < Pow10(width)
    ensures DigitsValue(Pad(n, width)) == n
  {
    if width > 0 {
      PadThenRead(n / 10, width - 1);
      var s := Pad(n, width);
      assert s[..|s| - 1] == Pad(n / 10, width - 1);
    }
  }

  lemma {:induction false} ReadThenPad(s: string)
    requires AllDigits(s)
    ensures DigitsValue(s) < Pow10(|s|)
    ensures Pad(DigitsValue(s), |s|) == s
  {
    if s != [] {
      var init := s[..|s| - 1];
      ReadThenPad(init);
      var v := DigitsValue(s);
      assert v / 10 == DigitsValue(init);
      assert v % 10 == s[|s| - 1] as int - '0' as int;
      assert s == init + [s[|s| - 1]];
    }
  }

  /** `date.isoformat()`. */
  function IsoFormat(d: CivilDate): string {
    Pad(d.year, 4) + "-" + Pad(d.month, 2) + "-" + Pad(d.day, 2)
  }

  /** What the `%m` directive matches: `1[0-2]|0[1-9]|[1-9]`. */
  predicate MonthToken(t: string) {
    || (|t| == 1 && '1' <= t[0] <= '9')
    || (|t| == 2 && ((t[0] == '1' && '0' <= t[1] <= '2') || (t[0] == '0' && '1' <= t[1] <= '9')))
  }

  /** What the `%d` directive matches: `3[01]|[12]\d|0[1-9]|[1-9]| [1-9]`. */
  predicate DayToken(t: string) {
    || (|t| == 1 && '1' <= t[0] <= '9')
    || (|t| == 2 && (|| (t[0] == '3' && '0' <= t[1] <= '1')
                     || ('1' <= t[0] <= '2' && IsDigit(t[1]))
                     || (t[0] == '0' && '1' <= t[1] <= '9')
                     || (t[0] == ' ' && '1' <= t[1] <= '9')))
  }

  /** The number `int()` reads from a matched month or day. */
  function TokenValue(t: string): nat
    requires MonthToken(t) || DayToken(t)
  {
    if t[0] == ' ' then DigitsValue(t[1..]) else DigitsValue(t)
  }

  /** `datetime.strptime(s, '%Y-%m-%d').date()`: `None` where Python raises
      `ValueError`. The year is exactly four digits; month and day may be
      written with or without a leading zero (the day also with a leading
      space); nothing may follow the day; the three numbers must form a
      real date (year 0, `02-30` and the like are refused). */
  function ParseIsoDate(s: string): (r: Option<CivilDate>)
    ensures r.Some? ==> 8 <= |s| <= 10 && s[4] == '-'
    ensures r.Some? ==> AllDigits(s[..4]) && r.value.year == DigitsValue(s[..4])
  {
    if |s| < 7 || !AllDigits(s[..4]) || s[4] != '-' then None
    else
      // The month takes one character when the second '-' follows it at
      // once; a two-character match would need a digit there.
      var monthEnd := if s[6] == '-' then 6 else 7;
      if |s| <= monthEnd || s[monthEnd] != '-' then None
      else
        var month := s[5..monthEnd];
        var day := s[monthEnd + 1..];
        if !MonthToken(month) || !DayToken(day) then None
        else
          var d := Date(DigitsValue(s[..4]), TokenValue(month), TokenValue(day));
          if ValidDate(d) then var c: CivilDate := d; Some(c) else None
  }

  /** The two digits of a number below 100. */
  lemma PadTwo(n: nat)
    requires n < 100
    ensures Pad(n, 2) == [DigitChar(n / 10), DigitChar(n % 10)]
  {
    var hi := n / 10;
    assert Pad(n, 2) == Pad(hi, 1) + [DigitChar(n % 10)];
    assert Pad(hi, 1) == Pad(hi / 10, 0) + [DigitChar(hi % 10)];
    assert hi / 10 == 0 && hi % 10 == hi;
  }

  /** A month written with two digits is a `%m` match worth that month. */
  lemma MonthPadded(m: int)
    requires 1 <= m <= 12
    ensures MonthToken(Pad(m, 2)) && TokenValue(Pad(m, 2)) == m
  {
    PadTwo(m);
    PadThenRead(m, 2);
  }

  /** A day written with two digits is a `%d` match worth that day. */
  lemma DayPadded(n: int)
    requires 1 <= n <= 31
    ensures DayToken(Pad(n, 2)) && TokenValue(Pad(n, 2)) == n
  {
    PadTwo(n);
    PadThenRead(n, 2);
  }

  /** Formatting a date and parsing it back gives the same date. */
  lemma ParseIsoFormat(d: CivilDate)
    ensures ParseIsoDate(IsoFormat(d)) == Some(d)
  {
    var s := IsoFormat(d);
    assert s[..4] == Pad(d.year, 4);
    assert s[5..7] == Pad(d.month, 2);
    assert s[8..] == Pad(d.day, 2);
    PadTwo(d.month);
    assert s[6] == DigitChar(d.month % 10);
    MonthPadded(d.month);
    DayPadded(d.day);
    PadThenRead(d.year, 4);
  }

  /** A ten-character text the parser accepts without a space-padded day is
      the ISO form of the date it yields. */
  lemma FormatParsedIso(s: string)
    requires ParseIsoDate(s).Some? && |s| == 10 && s[8] != ' '
    ensures IsoFormat(ParseIsoDate(s).value) == s
  {
    var d := ParseIsoDate(s).value;
    ParsedTenCharacters(s);
    ReadThenPad(s[..4]);
    ReadThenPad(s[5..7]);
    ReadThenPad(s[8..]);
    assert IsoFormat(d) == s[..4] + "-" + s[5..7] + "-" + s[8..];
    assert s == s[..4] + "-" + s[5..7] + "-" + s[8..];
  }

  /** The fields of a ten-character text the parser accepts without a
      space-padded day: two-digit month and day at fixed places. */
  lemma ParsedTenCharacters(s: string)
    requires ParseIsoDate(s).Some? && |s| == 10 && s[8] != ' '
    ensures s[7] == '-' && AllDigits(s[5..7]) && AllDigits(s[8..])
    ensures ParseIsoDate(s).value.month == DigitsValue(s[5..7])
    ensures ParseIsoDate(s).value.day == DigitsValue(s[8..])
  {
    assert s[6] != '-';
  }

  /** Unpadded month and day are read as Python reads them. */
  lemma ParseUnpadded()
    ensures ParseIsoDate("2024-1-5").Some? && ParseIsoDate("2024-1-5").value == Date(2024, 1, 5)
    ensures ParseIsoDate("2024-02- 9").Some? && ParseIsoDate("2024-02- 9").value == Date(2024, 2, 9)
  {
    var s := "2024-1-5";
    assert s[..4] == "2024" && s[5..6] == "1" && s[7..] == "5";
    assert DigitsValue("2") == 2 by { assert "2"[..0] == ""; }
    assert DigitsValue("20") == 20 by { assert "20"[..1] == "2"; }
    assert DigitsValue("202") == 202 by { assert "202"[..2] == "20"; }
    assert DigitsValue("2024") == 2024 by { assert "2024"[..3] == "202"; }
    var t := "2024-02- 9";
    assert t[..4] == "2024" && t[5..7] == "02" && t[8..] == " 9" && " 9"[1..] == "9";
    assert DigitsValue("02") == 2 by {
      assert "02"[..1] == "0" && "0"[..0] == "";
    }
  }

  /** Trailing text and impossible dates are refused. */
  lemma ParseRefuses()
    ensures ParseIsoDate("2024-01-32").None?
    ensures ParseIsoDate("2023-02-29").None?
    ensures ParseIsoDate("0000-01-01").None?
  {
    var s := "2024-01-32";
    assert s[8..] == "32";
    var t := "2023-02-29";
    assert t[..4] == "2023" && t[5..7] == "02" && t[8..] == "29";
    assert DigitsValue("2") == 2 by { assert "2"[..0] == ""; }
    assert DigitsValue("20") == 20 by { assert "20"[..1] == "2"; }
    assert DigitsValue("202") == 202 by { assert "202"[..2] == "20"; }
    assert DigitsValue("2023") == 2023 by { assert "2023"[..3] == "202"; }
    assert DigitsValue("02") == 2 by {
      assert "02"[..1] == "0" && "0"[..0] == "";
    }
    assert !IsLeap(2023) && DaysInMonth(2023, 2) == 28;
    assert DigitsValue("29") == 29 by {
      assert "29"[..1] == "2" && "2"[..0] == "";
    }
    var u := "0000-01-01";
    assert u[..4] == "0000";
    assert DigitsValue("0") == 0 by { assert "0"[..0] == ""; }
    assert DigitsValue("00") == 0 by { assert "00"[..1] == "0"; }
    assert DigitsValue("000") == 0 by { assert "000"[..2] == "00"; }
    assert DigitsValue("0000") == 0 by { assert "0000"[..3] == "000"; }
  }
}
