/** The date arithmetic the application takes from JavaScript's `Date` and
    from date-fns. An instant is an integer number of milliseconds since
    1970-01-01T00:00:00Z, and the local time zone is UTC, so calendar days
    begin at multiples of `DAY`. */
module Dates {

  /** Milliseconds in a day. */
  const DAY: int := 86_400_000

  /** A calendar date of the proleptic Gregorian calendar; `month` is 1..12. */
  datatype CivilDate = CivilDate(year: int, month: int, day: int)

  predicate IsLeapYear(year: int) {
    year % 4 == 0 && (year % 100 != 0 || year % 400 == 0)
  }

  function DaysInMonth(year: int, month: int): (n: int)
    requires 1 <= month <= 12
    ensures 28 <= n <= 31
  {
    if month == 2 then (if IsLeapYear(year) then 29 else 28)
    else if month == 4 || month == 6 || month == 9 || month == 11 then 30
    else 31
  }

  predicate ValidDate(d: CivilDate) {
    1 <= d.month <= 12 && 1 <= d.day <= DaysInMonth(d.year, d.month)
  }

  /** Months elapsed since January of year 0. */
  function MonthIndex(d: CivilDate): int {
    d.year * 12 + d.month - 1
  }

  /** date-fns `addMonths` (and `subMonths` with a negative count): moves
      `n` months and keeps the day of the month, clamped to the length of
      the month it lands in. */
  function AddMonths(d: CivilDate, n: int): (r: CivilDate)
    requires ValidDate(d)
    ensures ValidDate(r)
    ensures MonthIndex(r) == MonthIndex(d) + n
    ensures r.day <= d.day
    ensures r.day < d.day ==> r.day == DaysInMonth(r.year, r.month)
  {
    var index := MonthIndex(d) + n;
    var year := index / 12;
    var month := index % 12 + 1;
    var last := DaysInMonth(year, month);
    CivilDate(year, month, if d.day <= last then d.day else last)
  }

  /** Going back one month and then forward one month returns to the same
      month of the same year; only the day can change, by clamping. */
  lemma PrevThenNextKeepsMonth(d: CivilDate)
    requires ValidDate(d)
    ensures AddMonths(AddMonths(d, -1), 1).year == d.year
    ensures AddMonths(AddMonths(d, -1), 1).month == d.month
    ensures AddMonths(AddMonths(d, -1), 1).day <= d.day
  {
    var r := AddMonths(AddMonths(d, -1), 1);
    assert MonthIndex(r) == MonthIndex(d);
    SameMonthIndex(r, d);
  }

  /** A month index names exactly one (year, month) pair. */
  lemma SameMonthIndex(a: CivilDate, b: CivilDate)
    requires 1 <= a.month <= 12 && 1 <= b.month <= 12
    requires MonthIndex(a) == MonthIndex(b)
    ensures a.year == b.year && a.month == b.month
  {
  }

  /** One month on from December is January of the next year; from any
      other month it is the next month of the same year. */
  lemma NextMonth(d: CivilDate)
    requires ValidDate(d)
    ensures d.month == 12 ==> AddMonths(d, 1).year == d.year + 1 && AddMonths(d, 1).month == 1
    ensures d.month < 12 ==> AddMonths(d, 1).year == d.year && AddMonths(d, 1).month == d.month + 1
  {
    var next := AddMonths(d, 1);
    if d.month == 12 {
      SameMonthIndex(next, CivilDate(d.year + 1, 1, 1));
    } else {
      SameMonthIndex(next, CivilDate(d.year, d.month + 1, 1));
    }
  }

  /** The clamp is real: from March 31st, back a month and forward again
      gives March 28th (2025 is not a leap year). */
  lemma PrevThenNextCanMoveDay()
    ensures AddMonths(AddMonths(CivilDate(2025, 3, 31), -1), 1) == CivilDate(2025, 3, 28)
  {
  }

  /** Days from 1970-01-01 to `d` (negative before it), by Howard Hinnant's
      `days_from_civil` algorithm. */
  function DayNumber(d: CivilDate): int
    requires 1 <= d.month <= 12
  {
    var y := if d.month <= 2 then d.year - 1 else d.year;
    var era := y / 400;
    var yearOfEra := y % 400;
    var shiftedMonth := if d.month > 2 then d.month - 3 else d.month + 9;
    var dayOfYear := (153 * shiftedMonth + 2) / 5 + d.day - 1;
    era * 146097 + yearOfEra * 365 + yearOfEra / 4 - yearOfEra / 100 + dayOfYear - 719468
  }

  /** The instant at which day `d` begins. */
  function StartOfDate(d: CivilDate): int
    requires 1 <= d.month <= 12
  {
    DayNumber(d) * DAY
  }

  /** Within a month, day numbers advance one per day of the month. */
  lemma DayNumberWithinMonth(year: int, month: int, day: int)
    requires 1 <= month <= 12
    ensures DayNumber(CivilDate(year, month, day)) == DayNumber(CivilDate(year, month, 1)) + day - 1
  {
  }

  /** The first day of the next month comes as many days after the first
      day of this month as this month has days. */
  lemma FirstOfNextMonth(year: int, month: int)
    requires 1 <= month <= 12
    ensures var next := if month == 12 then CivilDate(year + 1, 1, 1) else CivilDate(year, month + 1, 1);
      DayNumber(next) == DayNumber(CivilDate(year, month, 1)) + DaysInMonth(year, month)
  {
    if month == 12 {
      DecemberToJanuary(year);
    } else if month == 2 {
      FebruaryToMarch(year);
    } else if month == 1 {
      JanuaryToFebruary(year);
    } else {
      WithinShiftedYear(year, month);
    }
  }

  /** The first day of the month one month on from `d` comes as many days
      after the first day of the month of `d` as that month has days. */
  lemma FirstDayOneMonthOn(d: CivilDate)
    requires ValidDate(d)
    ensures var next := AddMonths(d, 1);
      DayNumber(CivilDate(next.year, next.month, 1)) == DayNumber(CivilDate(d.year, d.month, 1)) + DaysInMonth(d.year, d.month)
  {
    var next := AddMonths(d, 1);
    NextMonth(d);
    if d.month == 12 {
      assert CivilDate(next.year, next.month, 1) == CivilDate(d.year + 1, 1, 1);
      DecemberToJanuary(d.year);
    } else {
      assert CivilDate(next.year, next.month, 1) == CivilDate(d.year, d.month + 1, 1);
      FirstOfNextMonth(d.year, d.month);
    }
  }

  /** December has 31 days, and January follows it in the next year. */
  lemma DecemberToJanuary(year: int)
    ensures DayNumber(CivilDate(year + 1, 1, 1)) == DayNumber(CivilDate(year, 12, 1)) + 31
  {
    DayNumberFromMarch(CivilDate(year, 12, 1));
    DayNumberFromMarch(CivilDate(year + 1, 1, 1));
  }

  /** February ends after 28 days, or 29 in a leap year. */
  lemma FebruaryToMarch(year: int)
    ensures DayNumber(CivilDate(year, 3, 1)) == DayNumber(CivilDate(year, 2, 1)) + DaysInMonth(year, 2)
  {
    DayNumberFromMarch(CivilDate(year, 2, 1));
    DayNumberFromMarch(CivilDate(year, 3, 1));
    DaysBeforeMarch(year - 1);
  }

  /** January has 31 days. */
  lemma JanuaryToFebruary(year: int)
    ensures DayNumber(CivilDate(year, 2, 1)) == DayNumber(CivilDate(year, 1, 1)) + 31
  {
    DayNumberFromMarch(CivilDate(year, 1, 1));
    DayNumberFromMarch(CivilDate(year, 2, 1));
  }

  /** From March to November the next month's first day is in the same
      shifted year. */
  lemma WithinShiftedYear(year: int, month: int)
    requires 3 <= month <= 11
    ensures DayNumber(CivilDate(year, month + 1, 1)) == DayNumber(CivilDate(year, month, 1)) + DaysInMonth(year, month)
  {
    DayNumberFromMarch(CivilDate(year, month, 1));
    DayNumberFromMarch(CivilDate(year, month + 1, 1));
    MarchToNovemberLengths(year, month);
  }

  /** From March to November, the shifted-year offsets of consecutive first
      days differ by the length of the month. */
  lemma MarchToNovemberLengths(year: int, month: int)
    requires 3 <= month <= 11
    ensures (153 * (month - 2) + 2) / 5 - (153 * (month - 3) + 2) / 5 == DaysInMonth(year, month)
  {
    if month == 3 {
    } else if month == 4 {
    } else if month == 5 {
    } else if month == 6 {
    } else if month == 7 {
    } else if month == 8 {
    } else if month == 9 {
    } else if month == 10 {
    } else {
    }
  }

  /** `DayNumber` as the start of the shifted year (March to February) plus
      the days of the shifted year before the date. */
  lemma DayNumberFromMarch(d: CivilDate)
    requires 1 <= d.month <= 12
    ensures d.month > 2 ==> DayNumber(d) == MarchStart(d.year) + (153 * (d.month - 3) + 2) / 5 + d.day - 1 - 719468
    ensures d.month <= 2 ==> DayNumber(d) == MarchStart(d.year - 1) + (153 * (d.month + 9) + 2) / 5 + d.day - 1 - 719468
  {
  }

  /** The part of `DayNumber` that counts the days before March 1st of the
      year `y + 1`, that is before the start of the shifted year `y`. */
  function MarchStart(y: int): int {
    EraDays(y / 400, y % 400)
  }

  /** Days before the shifted year `yoe` of the 400-year era `era`. */
  function EraDays(era: int, yoe: int): int {
    era * 146097 + yoe * 365 + yoe / 4 - yoe / 100
  }

  /** A shifted year (March to February) has 366 days when its February
      is a leap February. */
  lemma DaysBeforeMarch(y: int)
    ensures MarchStart(y + 1) - MarchStart(y) == if IsLeapYear(y + 1) then 366 else 365
  {
    var era, yoe := y / 400, y % 400;
    if yoe == 399 {
      NextEra(era);
      assert EraDays(era + 1, 0) - EraDays(era, 399) == 366;
    } else {
      SameEra(era, yoe);
      YearOfEraLength(era, yoe);
    }
  }

  /** The year after the last year of era `era` starts the next era and is
      a leap year. */
  lemma NextEra(era: int)
    ensures (400 * era + 400) / 400 == era + 1 && (400 * era + 400) % 400 == 0
    ensures IsLeapYear(400 * era + 400)
  {
    ShiftBy400(0, era + 1);
    ShiftBy4(0, 100 * era + 100);
  }

  /** Inside an era the next year keeps the era, and it is a leap year
      exactly when its year of the era is divisible by 4 and not by 100. */
  lemma SameEra(era: int, yoe: int)
    requires 0 <= yoe < 399
    ensures (400 * era + yoe + 1) / 400 == era && (400 * era + yoe + 1) % 400 == yoe + 1
    ensures IsLeapYear(400 * era + yoe + 1) <==> (yoe + 1) % 4 == 0 && (yoe + 1) % 100 != 0
  {
    ShiftBy400(yoe + 1, era);
    ShiftBy4(yoe + 1, 100 * era);
    ShiftBy100(yoe + 1, 4 * era);
  }

  /** Adding a multiple of 400, 100 or 4 keeps the remainder and moves the
      quotient. */
  lemma ShiftBy400(m: int, k: int)
    ensures (400 * k + m) / 400 == k + m / 400 && (400 * k + m) % 400 == m % 400
  {
    assert 400 * k + m == 400 * (k + m / 400) + m % 400;
  }

  lemma ShiftBy100(m: int, k: int)
    ensures (100 * k + m) % 100 == m % 100
  {
    assert 100 * k + m == 100 * (k + m / 100) + m % 100;
  }

  lemma ShiftBy4(m: int, k: int)
    ensures (4 * k + m) % 4 == m % 4
  {
    assert 4 * k + m == 4 * (k + m / 4) + m % 4;
  }


  /** Within an era, consecutive shifted years are 365 days apart plus a
      leap day every fourth year except every hundredth. */
  lemma YearOfEraLength(era: int, yoe: int)
    requires 0 <= yoe < 399
    ensures EraDays(era, yoe + 1) - EraDays(era, yoe)
      == if (yoe + 1) % 4 == 0 && (yoe + 1) % 100 != 0 then 366 else 365
  {
    assert (yoe + 1) / 4 - yoe / 4 == if (yoe + 1) % 4 == 0 then 1 else 0;
    assert (yoe + 1) / 100 - yoe / 100 == if (yoe + 1) % 100 == 0 then 1 else 0;
    assert (yoe + 1) % 100 == 0 ==> (yoe + 1) % 4 == 0;
  }



  /** The day number of the calendar day containing instant `t`. */
  function DayOf(t: int): int {
    t / DAY
  }

  /** Midnight at the start of the day containing `t`: what
      `new Date(t.toISOString().split('T')[0])` produces. */
  function StartOfDay(t: int): (r: int)
    ensures r <= t < r + DAY
    ensures r == DayOf(t) * DAY
  {
    DayOf(t) * DAY
  }

  /** An instant lies in the days `lo` to `hi - 1` exactly when its day
      number does. */
  lemma DayOfWithin(t: int, lo: int, hi: int)
    ensures lo * DAY <= t < hi * DAY <==> lo <= DayOf(t) < hi
  {
    assert DayOf(t) * DAY <= t < DayOf(t) * DAY + DAY;
  }

  /** The weekday of day number `n`, 0 for Sunday through 6 for Saturday
      (1970-01-01 was a Thursday), as date-fns `getDay` returns it. */
  function Weekday(n: int): (w: int)
    ensures 0 <= w <= 6
  {
    (n + 4) % 7
  }

  /** `k` days after day `n`, on day `m`, the weekday has moved on by `k`, modulo a week. */
  lemma WeekdayAfter(n: int, k: int, m: int)
    requires m == n + k
    ensures Weekday(m) == (Weekday(n) + k) % 7
  {
    var q, r := (n + 4) / 7, (n + 4) % 7;
    assert m + 4 == 7 * q + (r + k);
    assert (7 * q + (r + k)) % 7 == (r + k) % 7 by {
      assert 7 * q + (r + k) == 7 * (q + (r + k) / 7) + (r + k) % 7;
    }
  }

  /** date-fns `differenceInDays(later, earlier)`: the number of whole days
      between the two instants, truncated toward zero. */
  function DifferenceInDays(later: int, earlier: int): (d: int)
    ensures later >= earlier ==> d >= 0 && d * DAY <= later - earlier < d * DAY + DAY
    ensures later < earlier ==> d <= 0 && d * DAY - DAY < later - earlier <= d * DAY
  {
    var delta := later - earlier;
    if delta >= 0 then delta / DAY else -((-delta) / DAY)
  }
}
