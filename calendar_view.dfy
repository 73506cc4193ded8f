/** The calendar of src/components/CalendarView.tsx: the month shown, its
    grid of day cells, and the list of the month's expirations. A calendar
    day is its day number (see module Dates). */
module CalendarView {
  import opened Wrappers
  import opened Dates
  import opened Types
  import Seqs
  import Sorting

  /** The first day of the month of `d`. */
  function FirstOfMonth(d: CivilDate): (r: CivilDate)
    requires ValidDate(d)
    ensures ValidDate(r) && r.year == d.year && r.month == d.month && r.day == 1
  {
    CivilDate(d.year, d.month, 1)
  }

  /** `startOfMonth`: midnight of the first day of the month. */
  function MonthStart(d: CivilDate): (t: int)
    requires ValidDate(d)
    ensures t <= StartOfDate(d) < t + DaysInMonth(d.year, d.month) * DAY
  {
    DayNumberWithinMonth(d.year, d.month, d.day);
    StartOfDate(FirstOfMonth(d))
  }

  /** `endOfMonth`: the last millisecond of the last day of the month. */
  function MonthEnd(d: CivilDate): (t: int)
    requires ValidDate(d)
    ensures MonthStart(d) < t
    ensures t + 1 == (DayNumber(FirstOfMonth(d)) + DaysInMonth(d.year, d.month)) * DAY
  {
    DayNumberWithinMonth(d.year, d.month, DaysInMonth(d.year, d.month));
    StartOfDate(CivilDate(d.year, d.month, DaysInMonth(d.year, d.month))) + DAY - 1
  }

  /** The month-window test of the upcoming list. */
  predicate InWindow(sub: Subscription, d: CivilDate)
    requires ValidDate(d)
    ensures InWindow(sub, d) <==>
      MonthStart(d) <= sub.expirationDate < MonthStart(d) + DaysInMonth(d.year, d.month) * DAY
  {
    MonthStart(d) <= sub.expirationDate <= MonthEnd(d)
  }

  /** An expiration is in the month's window exactly when it falls on one
      of the month's days: its day number is that of the `k`-th day of the
      month (see `DayNumberWithinMonth`) for a `k` in 1..days-in-month. So
      each record of the upcoming list shows in exactly one day cell. */
  lemma WindowIsMonthDays(sub: Subscription, d: CivilDate)
    requires ValidDate(d)
    ensures InWindow(sub, d) <==>
      1 <= DayOf(sub.expirationDate) - DayNumber(FirstOfMonth(d)) + 1 <= DaysInMonth(d.year, d.month)
  {
    var first := DayNumber(FirstOfMonth(d));
    var n := DaysInMonth(d.year, d.month);
    var t := sub.expirationDate;
    assert InWindow(sub, d) <==> first * DAY <= t < (first + n) * DAY;
    DayOfWithin(t, first, first + n);
  }

  /** `getSubscriptionsForDay`: the records expiring on calendar day `day`,
      in input order. */
  function SubscriptionsForDay(s: seq<Subscription>, day: int): (r: seq<Subscription>)
    ensures forall x :: x in r <==> x in s && DayOf(x.expirationDate) == day
    ensures forall x :: multiset(r)[x] == if DayOf(x.expirationDate) == day then multiset(s)[x] else 0
    ensures Seqs.IsSubsequence(r, s)
  {
    Seqs.FilterIsSubsequence((x: Subscription) => DayOf(x.expirationDate) == day, s);
    Seqs.Filter((x: Subscription) => DayOf(x.expirationDate) == day, s)
  }

  /** What a day cell shows: up to two names and, past two, a "+k". */
  datatype DayCell = DayCell(names: seq<string>, more: Option<int>)

  function ShowDayCell(group: seq<Subscription>): (c: DayCell)
    ensures |c.names| == if |group| < 2 then |group| else 2
    ensures forall i :: 0 <= i < |c.names| ==> c.names[i] == group[i].clientName
    ensures c.more.Some? <==> |group| > 2
    ensures |c.names| + c.more.GetOr(0) == |group|
  {
    var shown := if |group| < 2 then group else group[..2];
    DayCell(seq(|shown|, i requires 0 <= i < |shown| => shown[i].clientName),
            if |group| > 2 then Some(|group| - 2) else None)
  }

  /** The number of blank cells before the first day: its weekday, Sunday
      first; with the month's days they fit in a six-week grid. */
  function LeadingEmptyCells(d: CivilDate): (n: int)
    requires ValidDate(d)
    ensures 0 <= n <= 6
    ensures n + DaysInMonth(d.year, d.month) <= 42
  {
    Weekday(DayNumber(FirstOfMonth(d)))
  }

  /** Each month's grid starts where the previous one left off: the blank
      cells of the next month are this month's blank cells plus its days,
      modulo a week. */
  lemma NextMonthLeadingCells(d: CivilDate)
    requires ValidDate(d)
    ensures LeadingEmptyCells(AddMonths(d, 1)) == (LeadingEmptyCells(d) + DaysInMonth(d.year, d.month)) % 7
  {
    var next := AddMonths(d, 1);
    FirstDayOneMonthOn(d);
    WeekdayAfter(DayNumber(FirstOfMonth(d)), DaysInMonth(d.year, d.month), DayNumber(FirstOfMonth(next)));
  }

  /** The blank cells of two known months: September 2024 began on a
      Sunday, March 2025 on a Saturday. */
  lemma KnownLeadingCells()
    ensures LeadingEmptyCells(CivilDate(2024, 9, 15)) == 0
    ensures LeadingEmptyCells(CivilDate(2025, 3, 10)) == 6
  {
    assert DayNumber(CivilDate(2024, 9, 1)) == 19967;
    assert DayNumber(CivilDate(2025, 3, 1)) == 20148;
  }

  /** The month's window of expirations; its emptiness is what the "No
      subscriptions expiring this month" message shows. */
  function MonthWindow(s: seq<Subscription>, d: CivilDate): (r: seq<Subscription>)
    requires ValidDate(d)
    ensures forall x :: x in r <==> x in s && InWindow(x, d)
    ensures r == [] <==> forall x :: x in s ==> !InWindow(x, d)
  {
    var r := Seqs.Filter((x: Subscription) => InWindow(x, d), s);
    assert r != [] ==> r[0] in r;
    r
  }

  function ByExpiration(sub: Subscription): int {
    sub.expirationDate
  }

  /** The upcoming list: the month's window, sorted by expiration, earliest
      first, in a new array. */
  method UpcomingExpirations(s: seq<Subscription>, d: CivilDate) returns (r: seq<Subscription>)
    requires ValidDate(d)
    ensures multiset(r) == multiset(MonthWindow(s, d))
    ensures forall x :: x in r <==> x in s && InWindow(x, d)
    ensures forall i, j :: 0 <= i < j < |r| ==> r[i].expirationDate <= r[j].expirationDate
  {
    var window := MonthWindow(s, d);
    var a := new Subscription[|window|](i requires 0 <= i < |window| => window[i]);
    assert a[..] == window;
    Sorting.SortByKey(a, ByExpiration);
    r := a[..];
    Seqs.SameMembers(r, window);
    assert forall i, j :: 0 <= i < j < |r| ==> ByExpiration(r[i]) <= ByExpiration(r[j]);
  }

  datatype Direction = Prev | Next

  /** The component's state: the month shown. */
  class Calendar {
    var currentMonth: CivilDate

    ghost predicate Valid()
      reads this
    {
      ValidDate(currentMonth)
    }

    /** Opens on today's month. */
    constructor (today: CivilDate)
      requires ValidDate(today)
      ensures Valid() && currentMonth == today
    {
      currentMonth := today;
    }

    /** `navigateMonth`: one month back or forward, the day clamped to the
        length of the new month. */
    method NavigateMonth(direction: Direction)
      requires Valid()
      modifies this
      ensures Valid()
      ensures currentMonth == AddMonths(old(currentMonth), if direction == Prev then -1 else 1)
      ensures MonthIndex(currentMonth) == MonthIndex(old(currentMonth)) + (if direction == Prev then -1 else 1)
    {
      currentMonth := AddMonths(currentMonth, if direction == Prev then -1 else 1);
    }
  }

  /** Back one month and forward again shows the same month: the same
      window, the same grid. */
  lemma PrevThenNextShowsSameMonth(d: CivilDate)
    requires ValidDate(d)
    ensures MonthStart(AddMonths(AddMonths(d, -1), 1)) == MonthStart(d)
    ensures MonthEnd(AddMonths(AddMonths(d, -1), 1)) == MonthEnd(d)
    ensures LeadingEmptyCells(AddMonths(AddMonths(d, -1), 1)) == LeadingEmptyCells(d)
  {
    PrevThenNextKeepsMonth(d);
  }
}
