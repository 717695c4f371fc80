/** The UTC calendar date of a unix timestamp, and its `YYYY/MM/DD` label
    (what `datetime.fromtimestamp(ts, UTC).strftime('%Y/%m/%d')` yields).

    Dates are counted as proleptic Gregorian ordinals: 0001-01-01 is day 1,
    which is also how Python's `datetime` counts them. */
module Calendar {
  import opened Wrappers
  import opened Decimal

  datatype Date = Date(year: int, month: int, day: int)

  predicate IsLeapYear(y: int) {
    y % 4 == 0 && (y % 100 != 0 || y % 400 == 0)
  }

  function DaysInYear(y: int): int {
    if IsLeapYear(y) then 366 else 365
  }

  function DaysInMonth(y: int, m: int): (n: int)
    requires 1 <= m <= 12
    ensures 28 <= n <= 31
  {
    if m == 2 then (if IsLeapYear(y) then 29 else 28)
    else if m == 4 || m == 6 || m == 9 || m == 11 then 30
    else 31
  }

  /** Days in the months of year `y` that precede month `m`. */
  function DaysBeforeMonth(y: int, m: int): int
    requires 1 <= m <= 12
  {
    [0, 31, 59, 90, 120, 151, 181, 212, 243, 273, 304, 334][m - 1]
      + (if m > 2 && IsLeapYear(y) then 1 else 0)
  }

  /** Days in the years before year `y`. */
  function DaysBeforeYear(y: int): int
    requires y >= 1
  {
    var x := y - 1;
    365 * x + x / 4 - x / 100 + x / 400
  }

  predicate ValidDate(d: Date) {
    d.year >= 1 && 1 <= d.month <= 12 && 1 <= d.day <= DaysInMonth(d.year, d.month)
  }

  function ToOrdinal(d: Date): int
    requires ValidDate(d)
  {
    DaysBeforeYear(d.year) + DaysBeforeMonth(d.year, d.month) + d.day
  }

  /** Ordinal of 1970-01-01, the unix epoch. */
  const EpochOrdinal := 719163

  const SecondsPerDay := 86400

  lemma EpochIsJanuaryFirst1970()
    ensures ToOrdinal(Date(1970, 1, 1)) == EpochOrdinal
  {
  }

  lemma MonthStep(y: int, m: int)
    requires 1 <= m < 12
    ensures DaysBeforeMonth(y, m + 1) == DaysBeforeMonth(y, m) + DaysInMonth(y, m)
  {
  }

  lemma LastMonthEndsYear(y: int)
    ensures DaysBeforeMonth(y, 12) + DaysInMonth(y, 12) == DaysInYear(y)
  {
  }

  /** The month of year `y` holding day-of-year `r` (counted from 0),
      searched from month `m` on. */
  function MonthContaining(y: int, r: int, m: int): (k: int)
    requires 1 <= m <= 12
    requires DaysBeforeMonth(y, m) <= r < DaysInYear(y)
    ensures m <= k <= 12
    ensures DaysBeforeMonth(y, k) <= r < DaysBeforeMonth(y, k) + DaysInMonth(y, k)
    decreases 12 - m
  {
    if m == 12 then
      LastMonthEndsYear(y);
      12
    else if r < DaysBeforeMonth(y, m) + DaysInMonth(y, m) then m
    else
      MonthStep(y, m);
      MonthContaining(y, r, m + 1)
  }

  /** Quotient and remainder by one of the calendar's cycle lengths are
      determined by any decomposition with a remainder in range. */
  lemma DivModUnique(x: int, k: int, q: int, r: int)
    requires k == 4 || k == 100 || k == 400
    requires x == k * q + r && 0 <= r < k
    ensures x / k == q && x % k == r
  {
  }

  /** The days before year `y` = 400a + 100b + 4c + e + 1, which the 400-,
      100-, 4- and 1-year cycles of the Gregorian calendar make linear. */
  lemma DaysBeforeYearCycles(y: int, a: int, b: int, c: int, e: int)
    requires a >= 0 && 0 <= b <= 3 && 0 <= c <= 24 && 0 <= e <= 3
    requires y == 400 * a + 100 * b + 4 * c + e + 1
    ensures DaysBeforeYear(y) == 146097 * a + 36524 * b + 1461 * c + 365 * e
  {
    var x := y - 1;
    DivModUnique(x, 4, 100 * a + 25 * b + c, e);
    DivModUnique(x, 100, 4 * a + b, 4 * c + e);
    DivModUnique(x, 400, a, 100 * b + 4 * c + e);
  }

  /** Splitting `n0` into whole 400-, 100-, 4- and 1-year cycles leaves a
      day-of-year `r1`; a quotient of 4 marks the last day of a cycle. */
  lemma {:induction false} CycleBounds(n0: int)
    requires n0 >= 0
    ensures var r400 := n0 % 146097;
            var r100 := r400 % 36524;
            var r4 := r100 % 1461;
            && n0 == 146097 * (n0 / 146097) + 36524 * (r400 / 36524) + 1461 * (r100 / 1461) + 365 * (r4 / 365) + r4 % 365
            && n0 / 146097 >= 0 && 0 <= r400 / 36524 <= 4 && 0 <= r100 / 1461 <= 24 && 0 <= r4 / 365 <= 4
            && 0 <= r4 % 365 < 365
            && (r400 / 36524 == 4 ==> r100 == 0 && r400 == 146096)
            && (r4 / 365 == 4 ==> r4 == 1460 && r100 / 1461 <= 23)
  {
  }

  /** The date of ordinal `n`, by the cycle decomposition Python's
      `datetime` uses. */
  function FromOrdinal(n: int): (d: Date)
    requires n >= 1
    ensures ValidDate(d) && ToOrdinal(d) == n
  {
    var n0 := n - 1;
    CycleBounds(n0);
    var n400, r400 := n0 / 146097, n0 % 146097;
    var n100, r100 := r400 / 36524, r400 % 36524;
    var n4, r4 := r100 / 1461, r100 % 1461;
    var n1, r1 := r4 / 365, r4 % 365;
    var y := 400 * n400 + 100 * n100 + 4 * n4 + n1 + 1;
    if n100 == 4 then
      // the last day of a 400-year cycle
      LastDayOfCycle(n400, y - 1);
      Date(y - 1, 12, 31)
    else if n1 == 4 then
      // the last day of a leap year closing a 4-year cycle
      LastDayOfLeapYear(n400, n100, n4, y - 1);
      Date(y - 1, 12, 31)
    else
      DaysBeforeYearCycles(y, n400, n100, n4, n1);
      var m := MonthContaining(y, r1, 1);
      Date(y, m, r1 - DaysBeforeMonth(y, m) + 1)
  }

  lemma DecemberThirtyFirst(y: int)
    requires y >= 1 && IsLeapYear(y)
    ensures ValidDate(Date(y, 12, 31)) && ToOrdinal(Date(y, 12, 31)) == DaysBeforeYear(y) + 366
  {
    assert DaysBeforeMonth(y, 12) == 335;
  }

  lemma LastDayOfCycle(a: int, y: int)
    requires a >= 0 && y == 400 * a + 400
    ensures ValidDate(Date(y, 12, 31)) && ToOrdinal(Date(y, 12, 31)) == 146097 * a + 146097
  {
    DaysBeforeYearCycles(y, a, 3, 24, 3);
    DivModUnique(y, 4, 100 * a + 100, 0);
    DivModUnique(y, 400, a + 1, 0);
    DecemberThirtyFirst(y);
  }

  lemma LastDayOfLeapYear(a: int, b: int, c: int, y: int)
    requires a >= 0 && 0 <= b <= 3 && 0 <= c <= 23 && y == 400 * a + 100 * b + 4 * c + 4
    ensures ValidDate(Date(y, 12, 31)) && ToOrdinal(Date(y, 12, 31)) == 146097 * a + 36524 * b + 1461 * c + 1461
  {
    DaysBeforeYearCycles(y, a, b, c, 3);
    DivModUnique(y, 4, 100 * a + 25 * b + c + 1, 0);
    DivModUnique(y, 100, 4 * a + b, 4 * c + 4);
    DecemberThirtyFirst(y);
  }

  lemma NextYear(y: int)
    requires y >= 1
    ensures DaysBeforeYear(y + 1) == DaysBeforeYear(y) + DaysInYear(y)
  {
    var x := y - 1;
    QuotientStep(x, 4);
    QuotientStep(x, 100);
    QuotientStep(x, 400);
    DivisorsNest(y);
  }

  /** A multiple of 400 is one of 100, and a multiple of 100 one of 4. */
  lemma DivisorsNest(y: int)
    ensures y % 400 == 0 ==> y % 100 == 0
    ensures y % 100 == 0 ==> y % 4 == 0
  {
    if y % 400 == 0 {
      DivModUnique(y, 100, 4 * (y / 400), 0);
    }
    if y % 100 == 0 {
      DivModUnique(y, 4, 25 * (y / 100), 0);
    }
  }

  /** Moving from `x` to `x + 1` raises `x / k` by one exactly when `k`
      divides `x + 1`. */
  lemma QuotientStep(x: int, k: int)
    requires k == 4 || k == 100 || k == 400
    ensures (x + 1) / k == if (x + 1) % k == 0 then x / k + 1 else x / k
  {
    var q, r := x / k, x % k;
    if r == k - 1 {
      DivModUnique(x + 1, k, q + 1, 0);
    } else {
      DivModUnique(x + 1, k, q, r + 1);
    }
  }

  /** A later year starts no earlier than the end of an earlier one. */
  lemma {:induction false} YearsAreOrdered(y1: int, y2: int)
    requires 1 <= y1 < y2
    ensures DaysBeforeYear(y1) + DaysInYear(y1) <= DaysBeforeYear(y2)
    decreases y2 - y1
  {
    NextYear(y1);
    if y1 + 1 < y2 {
      YearsAreOrdered(y1 + 1, y2);
      NextYear(y1 + 1);
    }
  }

  lemma MonthsAreOrdered(y: int, m1: int, m2: int)
    requires 1 <= m1 < m2 <= 12
    ensures DaysBeforeMonth(y, m1) + DaysInMonth(y, m1) <= DaysBeforeMonth(y, m2)
  {
  }

  /** A valid date's ordinal lies within its own year. */
  lemma OrdinalWithinYear(d: Date)
    requires ValidDate(d)
    ensures DaysBeforeYear(d.year) < ToOrdinal(d) <= DaysBeforeYear(d.year) + DaysInYear(d.year)
  {
    if d.month < 12 {
      MonthsAreOrdered(d.year, d.month, 12);
    }
    LastMonthEndsYear(d.year);
  }

  /** Distinct valid dates have distinct ordinals. */
  lemma OrdinalInjective(d1: Date, d2: Date)
    requires ValidDate(d1) && ValidDate(d2)
    requires ToOrdinal(d1) == ToOrdinal(d2)
    ensures d1 == d2
  {
    OrdinalWithinYear(d1);
    OrdinalWithinYear(d2);
    if d1.year < d2.year {
      YearsAreOrdered(d1.year, d2.year);
    } else if d2.year < d1.year {
      YearsAreOrdered(d2.year, d1.year);
    }
    assert d1.year == d2.year;
    if d1.month < d2.month {
      MonthsAreOrdered(d1.year, d1.month, d2.month);
    } else if d2.month < d1.month {
      MonthsAreOrdered(d1.year, d2.month, d1.month);
    }
  }

  /** FromOrdinal and ToOrdinal are inverse bijections between valid dates
      and positive ordinals. */
  lemma FromOrdinalOfToOrdinal(d: Date)
    requires ValidDate(d)
    ensures ToOrdinal(d) >= 1 && FromOrdinal(ToOrdinal(d)) == d
  {
    OrdinalWithinYear(d);
    assert DaysBeforeYear(d.year) >= 0;
    OrdinalInjective(FromOrdinal(ToOrdinal(d)), d);
  }

  /** `s` has the shape `DDDD/DD/DD`: ten characters, `/` at positions 4
      and 7 and a decimal digit everywhere else. */
  predicate IsDateLabel(s: string) {
    && |s| == 10
    && s[4] == '/' && s[7] == '/'
    && forall i | 0 <= i < 10 && i != 4 && i != 7 :: '0' <= s[i] <= '9'
  }

  /** The label `YYYY/MM/DD` of a date whose year has at most four digits. */
  function FormatDate(d: Date): (s: string)
    requires ValidDate(d) && d.year <= 9999
    ensures IsDateLabel(s)
  {
    DigitsAreDigits(d.year, 4);
    DigitsAreDigits(d.month, 2);
    DigitsAreDigits(d.day, 2);
    Digits(d.year, 4) + "/" + Digits(d.month, 2) + "/" + Digits(d.day, 2)
  }

  /** Reads a `YYYY/MM/DD` label back into a date. */
  function ParseDate(s: string): Option<Date> {
    if |s| == 10 && s[4] == '/' && s[7] == '/' then
      Some(Date(ParseDigits(s[..4]), ParseDigits(s[5..7]), ParseDigits(s[8..])))
    else
      None
  }

  lemma FormatDateRoundTrip(d: Date)
    requires ValidDate(d) && d.year <= 9999
    ensures ParseDate(FormatDate(d)) == Some(d)
  {
    var s := FormatDate(d);
    assert s[..4] == Digits(d.year, 4);
    assert s[5..7] == Digits(d.month, 2);
    assert s[8..] == Digits(d.day, 2);
    DigitsRoundTrip(d.year, 4);
    DigitsRoundTrip(d.month, 2);
    DigitsRoundTrip(d.day, 2);
  }

  /** Seconds from the epoch of the first instant of 0001-01-01 and of the
      last of 9999-12-31: the range of dates Python's `datetime` can hold. */
  const MinTimestamp := -62135596800
  const MaxTimestamp := 253402300799

  /** The UTC date of unix timestamp `ts`, or None when it falls outside
      years 1 to 9999 (where the conversion raises). Python converts
      through `gmtime`, which rounds a time toward the earlier day, as
      Euclidean division by a positive divisor does. */
  function DateOf(ts: int): (r: Option<Date>)
    ensures r.Some? ==>
              ValidDate(r.value) && r.value.year <= 9999 && ToOrdinal(r.value) == ts / SecondsPerDay + EpochOrdinal
  {
    var n := ts / SecondsPerDay + EpochOrdinal;
    if n < 1 then None
    else
      var d := FromOrdinal(n);
      if d.year > 9999 then None else Some(d)
  }

  /** The `str_date` of an event: its UTC date as `YYYY/MM/DD`. */
  function DayLabel(ts: int): (r: Option<string>)
    ensures r.Some? <==> DateOf(ts).Some?
    ensures r.Some? ==> ParseDate(r.value) == DateOf(ts)
    ensures r.Some? ==> IsDateLabel(r.value)
  {
    match DateOf(ts)
    case None => None
    case Some(d) =>
      FormatDateRoundTrip(d);
      Some(FormatDate(d))
  }

  /** `DateOf(ts)` is the one valid date whose ordinal is the day of `ts`. */
  lemma DateOfIsTheCalendarDay(ts: int, d: Date)
    ensures DateOf(ts) == Some(d)
        <==> ValidDate(d) && d.year <= 9999 && ToOrdinal(d) == ts / SecondsPerDay + EpochOrdinal
  {
    if ValidDate(d) && d.year <= 9999 && ToOrdinal(d) == ts / SecondsPerDay + EpochOrdinal {
      FromOrdinalOfToOrdinal(d);
    }
  }

  /** The conversion succeeds exactly on the timestamps of years 1 to 9999. */
  lemma DateOfDefinedExactly(ts: int)
    ensures DateOf(ts).Some? <==> MinTimestamp <= ts <= MaxTimestamp
  {
    var n := ts / SecondsPerDay + EpochOrdinal;
    DayNumberBounds(ts);
    if n >= 1 {
      LastOrdinalOfYear9999(n);
    }
  }

  /** The day number of `ts` lies in the ordinals of years 1 to 9999 exactly
      when `ts` lies between the two timestamp bounds. */
  lemma DayNumberBounds(ts: int)
    ensures ts / SecondsPerDay + EpochOrdinal >= 1 <==> ts >= MinTimestamp
    ensures ts / SecondsPerDay + EpochOrdinal <= 3652059 <==> ts <= MaxTimestamp
  {
  }

  /** 3652059, the ordinal of 9999-12-31, is the last ordinal of a year
      with four digits. */
  lemma LastOrdinalOfYear9999(n: int)
    requires n >= 1
    ensures FromOrdinal(n).year <= 9999 <==> n <= 3652059
  {
    var last := Date(9999, 12, 31);
    assert ToOrdinal(last) == 3652059;
    NextYear(9999);
    var d := FromOrdinal(n);
    OrdinalWithinYear(d);
    if d.year > 9999 {
      YearsAreOrdered(9999, d.year);
    } else if d.year < 9999 {
      YearsAreOrdered(d.year, 9999);
    }
  }

  lemma FormatDateInjective(d1: Date, d2: Date)
    requires ValidDate(d1) && d1.year <= 9999 && ValidDate(d2) && d2.year <= 9999
    requires FormatDate(d1) == FormatDate(d2)
    ensures d1 == d2
  {
    FormatDateRoundTrip(d1);
    FormatDateRoundTrip(d2);
  }

  /** Two timestamps with a date fall on the same date exactly when they
      fall on the same day since the epoch. */
  lemma DateOfGroupsByDay(t1: int, t2: int)
    requires DateOf(t1).Some? && DateOf(t2).Some?
    ensures DateOf(t1) == DateOf(t2) <==> t1 / SecondsPerDay == t2 / SecondsPerDay
  {
    var d1, d2 := DateOf(t1).value, DateOf(t2).value;
    DateOfIsTheCalendarDay(t1, d1);
    DateOfIsTheCalendarDay(t2, d2);
    if d1 == d2 {
      assert t1 / SecondsPerDay == t2 / SecondsPerDay;
    } else if t1 / SecondsPerDay == t2 / SecondsPerDay {
      DateOfIsTheCalendarDay(t2, d1);
    }
  }

  /** Two timestamps share a label exactly when they fall on the same UTC
      day, so the label is a faithful key for grouping events by day. */
  lemma DayLabelGroupsByDay(t1: int, t2: int)
    requires DayLabel(t1).Some? && DayLabel(t2).Some?
    ensures DayLabel(t1) == DayLabel(t2) <==> t1 / SecondsPerDay == t2 / SecondsPerDay
  {
    var d1, d2 := DateOf(t1).value, DateOf(t2).value;
    DateOfGroupsByDay(t1, t2);
    if FormatDate(d1) == FormatDate(d2) {
      FormatDateInjective(d1, d2);
    }
  }

  lemma DateOfExample()
    ensures DateOf(1700000000) == Some(Date(2023, 11, 14))
  {
    var d := Date(2023, 11, 14);
    assert 1700000000 / SecondsPerDay == 19675;
    assert DaysBeforeYear(2023) == 738520;
    assert ToOrdinal(d) == 738838;
    DateOfIsTheCalendarDay(1700000000, d);
  }

  lemma FormatDateExample()
    ensures FormatDate(Date(2023, 11, 14)) == "2023/11/14"
  {
    YearDigitsExample();
    DayDigitsExample();
  }

  lemma YearDigitsExample()
    ensures Digits(2023, 4) == "2023"
  {
    assert Digits(2, 1) == "2";
    assert Digits(20, 2) == "20";
    assert Digits(202, 3) == "202";
  }

  lemma DayDigitsExample()
    ensures Digits(11, 2) == "11" && Digits(14, 2) == "14"
  {
    assert Digits(1, 1) == "1";
  }

  lemma DayLabelExample()
    ensures DayLabel(1700000000) == Some("2023/11/14")
  {
    DateOfExample();
    FormatDateExample();
  }
}
