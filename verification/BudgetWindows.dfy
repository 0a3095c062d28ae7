/**
  Budget windows: the start of the current budget period and its renewal time,
  on the proleptic Gregorian calendar in a zone with a fixed offset.

  An instant counts nanoseconds from midnight UTC of 1 January of year 1, the
  zero time of the original; day 0 is that day, a Monday.
 */
module BudgetWindows {
  import opened Wrappers

  type Instant = int

  datatype Renewal = Daily | Weekly | Monthly | Yearly | Never

  const DAY: int := 86_400_000_000_000

  predicate IsLeap(y: int) {
    y % 4 == 0 && (y % 100 != 0 || y % 400 == 0)
  }

  function DaysInYear(y: int): int {
    if IsLeap(y) then 366 else 365
  }

  // The day number of 1 January of year y.
  function YearStart(y: int): int
    decreases if y > 1 then y - 1 else 1 - y
  {
    if y > 1 then YearStart(y - 1) + DaysInYear(y - 1)
    else if y < 1 then YearStart(y + 1) - DaysInYear(y)
    else 0
  }

  lemma {:induction false} YearLength(y: int)
    ensures YearStart(y + 1) == YearStart(y) + DaysInYear(y)
  {
  }

  lemma {:induction false} DivUnique(y: int, n: int, q: int, r: int)
    requires n > 0 && y == q * n + r && 0 <= r < n
    ensures y / n == q && y % n == r
  {
    var d := y / n - q;
    assert d * n == r - y % n;
    assert d > 0 ==> d * n >= n;
    assert d < 0 ==> d * n <= -n;
  }

  // The year a day falls in, found by walking from year y.
  function YearBelow(day: int, y: int): int
    decreases YearStart(y) - day
  {
    if day < YearStart(y) then YearLength(y - 1); YearBelow(day, y - 1) else y
  }

  function YearAbove(day: int, y: int): int
    decreases day - YearStart(y)
  {
    YearLength(y);
    if day >= YearStart(y + 1) then YearAbove(day, y + 1) else y
  }

  function YearOf(day: int): int {
    YearAbove(day, YearBelow(day, 1))
  }

  function DaysInMonth(y: int, m: int): int {
    if m == 2 then if IsLeap(y) then 29 else 28
    else if m == 4 || m == 6 || m == 9 || m == 11 then 30
    else 31
  }

  // The day number of the first of month m (1 to 13) of year y.
  function MonthStart(y: int, m: int): int
    requires 1 <= m <= 13
    decreases m
  {
    if m == 1 then YearStart(y) else MonthStart(y, m - 1) + DaysInMonth(y, m - 1)
  }

  function MonthAbove(day: int, y: int, m: int): (r: int)
    requires 1 <= m <= 12
    ensures m <= r <= 12
    decreases 12 - m
  {
    if m == 12 || day < MonthStart(y, m + 1) then m else MonthAbove(day, y, m + 1)
  }

  function MonthOf(day: int): int {
    MonthAbove(day, YearOf(day), 1)
  }

  // The day of the month, from 1.
  function DayOf(day: int): int {
    day - MonthStart(YearOf(day), MonthOf(day)) + 1
  }

  // Sunday is 0.
  function Weekday(day: int): int {
    (day + 1) % 7
  }

  // The day number of year y, month m, day d, where m and d may lie outside
  // their usual ranges and carry over.
  function DateToDay(y: int, m: int, d: int): int {
    MonthStart(y + (m - 1) / 12, (m - 1) % 12 + 1) + d - 1
  }

  // Calendar addition on a date: fields are added, then normalized.
  function AddDate(day: int, years: int, months: int, days: int): int {
    DateToDay(YearOf(day) + years, MonthOf(day) + months, DayOf(day) + days)
  }

  function LocalDay(t: Instant, zone: int): int {
    (t + zone) / DAY
  }

  function Midnight(day: int, zone: int): Instant {
    day * DAY - zone
  }

  // The first day of the budget period that contains a day.
  function StartDay(renewal: Renewal, day: int): int
    requires renewal != Never
  {
    match renewal
    case Daily => DateToDay(YearOf(day), MonthOf(day), DayOf(day))
    case Weekly =>
      var weekday := Weekday(day);
      var startOfWeek := if weekday == 0 then AddDate(day, 0, 0, -6) else AddDate(day, 0, 0, -weekday + 1);
      DateToDay(YearOf(startOfWeek), MonthOf(startOfWeek), DayOf(startOfWeek))
    case Monthly => DateToDay(YearOf(day), MonthOf(day), 1)
    case Yearly => DateToDay(YearOf(day), 1, 1)
  }

  function StartOfBudget(renewal: Renewal, now: Instant, zone: int): Instant {
    if renewal == Never then 0
    else Midnight(StartDay(renewal, LocalDay(now, zone)), zone)
  }

  // The renewal day, by calendar addition on the local date of the start.
  function RenewalDay(renewal: Renewal, start: int): int
    requires renewal != Never
  {
    match renewal
    case Daily => AddDate(start, 0, 0, 1)
    case Weekly => AddDate(start, 0, 0, 7)
    case Monthly => AddDate(start, 0, 1, 0)
    case Yearly => AddDate(start, 1, 0, 0)
  }

  function BudgetRenewsAt(renewal: Renewal, now: Instant, zone: int): Option<Instant> {
    if renewal == Never then None
    else Some(Midnight(RenewalDay(renewal, LocalDay(StartOfBudget(renewal, now, zone), zone)), zone))
  }

  // ---------------------------------------------------------------- years and months

  lemma {:induction false} YearStartMonotone(a: int, b: int)
    requires a <= b
    ensures YearStart(a) + 365 * (b - a) <= YearStart(b)
    decreases b - a
  {
    if a == b {
    } else {
      YearStartMonotone(a, b - 1);
      YearLength(b - 1);
    }
  }

  lemma {:induction false} YearBelowAtMost(day: int, y: int)
    ensures YearStart(YearBelow(day, y)) <= day
    decreases YearStart(y) - day
  {
    if day < YearStart(y) {
      YearLength(y - 1);
      YearBelowAtMost(day, y - 1);
    }
  }

  lemma {:induction false} YearAboveBrackets(day: int, y: int)
    requires YearStart(y) <= day
    ensures YearStart(YearAbove(day, y)) <= day < YearStart(YearAbove(day, y) + 1)
    decreases day - YearStart(y)
  {
    YearLength(y);
    if day >= YearStart(y + 1) {
      YearAboveBrackets(day, y + 1);
    }
  }

  lemma {:induction false} YearOfBrackets(day: int)
    ensures YearStart(YearOf(day)) <= day < YearStart(YearOf(day) + 1)
  {
    YearBelowAtMost(day, 1);
    YearAboveBrackets(day, YearBelow(day, 1));
  }

  // A year is known by any day in it.
  lemma {:induction false} YearOfUnique(day: int, y: int)
    requires YearStart(y) <= day < YearStart(y + 1)
    ensures YearOf(day) == y
  {
    YearOfBrackets(day);
    var z := YearOf(day);
    if z < y {
      YearStartMonotone(z + 1, y);
    } else if y < z {
      YearStartMonotone(y + 1, z);
    }
  }

  lemma {:induction false} TwelveMonthsMakeAYear(y: int)
    ensures MonthStart(y, 13) == YearStart(y + 1)
  {
    YearLength(y);
    assert MonthStart(y, 4) == YearStart(y) + 59 + DaysInMonth(y, 2) - 28 + 31 by {
      assert MonthStart(y, 2) == YearStart(y) + 31;
    }
    assert MonthStart(y, 7) == MonthStart(y, 4) + 91;
    assert MonthStart(y, 10) == MonthStart(y, 7) + 92;
    assert MonthStart(y, 13) == MonthStart(y, 10) + 92;
  }

  lemma {:induction false} MonthStartMonotone(y: int, a: int, b: int)
    requires 1 <= a <= b <= 13
    ensures MonthStart(y, a) + 28 * (b - a) <= MonthStart(y, b)
    decreases b - a
  {
    if a == b {
    } else {
      MonthStartMonotone(y, a, b - 1);
    }
  }

  lemma {:induction false} MonthAboveBrackets(day: int, y: int, m: int)
    requires 1 <= m <= 12 && MonthStart(y, m) <= day < MonthStart(y, 13)
    ensures MonthStart(y, MonthAbove(day, y, m)) <= day < MonthStart(y, MonthAbove(day, y, m) + 1)
    decreases 12 - m
  {
    if m == 12 || day < MonthStart(y, m + 1) {
      assert MonthAbove(day, y, m) == m;
    } else {
      MonthAboveBrackets(day, y, m + 1);
      assert MonthAbove(day, y, m) == MonthAbove(day, y, m + 1);
    }
  }

  lemma {:induction false} CivilBrackets(day: int)
    ensures 1 <= MonthOf(day) <= 12
    ensures MonthStart(YearOf(day), MonthOf(day)) <= day < MonthStart(YearOf(day), MonthOf(day) + 1)
  {
    YearOfBrackets(day);
    TwelveMonthsMakeAYear(YearOf(day));
    MonthAboveBrackets(day, YearOf(day), 1);
  }

  // A month is known by any day in it.
  lemma {:induction false} CivilUnique(day: int, y: int, m: int)
    requires 1 <= m <= 12 && MonthStart(y, m) <= day < MonthStart(y, m + 1)
    ensures YearOf(day) == y && MonthOf(day) == m
  {
    TwelveMonthsMakeAYear(y);
    MonthStartMonotone(y, 1, m);
    MonthStartMonotone(y, m + 1, 13);
    YearOfUnique(day, y);
    CivilBrackets(day);
    var n := MonthOf(day);
    if n < m {
      MonthStartMonotone(y, n + 1, m);
    } else if m < n {
      MonthStartMonotone(y, m + 1, n);
    }
  }

  lemma {:induction false} DateWithinYear(y: int, m: int, d: int)
    requires 1 <= m <= 12
    ensures DateToDay(y, m, d) == MonthStart(y, m) + d - 1
  {
    DivUnique(m - 1, 12, 0, m - 1);
  }

  lemma {:induction false} DateAfterDecember(y: int, d: int)
    ensures DateToDay(y, 13, d) == MonthStart(y, 13) + d - 1
  {
    DivUnique(12, 12, 1, 0);
    TwelveMonthsMakeAYear(y);
    var year, month := y + 1, 1;
    assert DateToDay(y, 13, d) == MonthStart(year, month) + d - 1;
  }

  // Reading a day's date back gives the day, and adding days to it counts days.
  lemma {:induction false} AddDays(day: int, days: int)
    ensures AddDate(day, 0, 0, days) == day + days
    ensures DateToDay(YearOf(day), MonthOf(day), DayOf(day)) == day
  {
    CivilBrackets(day);
    var y, m, d := YearOf(day), MonthOf(day), DayOf(day);
    DateWithinYear(y, m, d + days);
    DateWithinYear(y, m, d);
  }

  // ---------------------------------------------------------------- windows

  function MondayOf(day: int): int {
    day - day % 7
  }

  lemma {:induction false} WeekdayOf(day: int)
    ensures Weekday(day) == if day % 7 == 6 then 0 else day % 7 + 1
  {
    if day % 7 == 6 {
      DivUnique(day + 1, 7, day / 7 + 1, 0);
    } else {
      DivUnique(day + 1, 7, day / 7, day % 7 + 1);
    }
  }

  lemma {:induction false} WeekStart(day: int)
    ensures StartDay(Weekly, day) == MondayOf(day)
  {
    BackToMonday(day);
    AddDays(MondayOf(day), 0);
  }

  lemma {:induction false} BackToMonday(day: int)
    ensures MondayOf(day) == if Weekday(day) == 0 then AddDate(day, 0, 0, -6) else AddDate(day, 0, 0, -Weekday(day) + 1)
  {
    WeekdayOf(day);
    AddDays(day, if Weekday(day) == 0 then -6 else -Weekday(day) + 1);
  }

  lemma {:induction false} SameWeek(day: int, other: int)
    requires MondayOf(day) <= other < MondayOf(day) + 7
    ensures MondayOf(other) == MondayOf(day)
  {
    DivUnique(other, 7, day / 7, other - MondayOf(day));
  }

  // The window of a day, as day numbers [first, end).
  lemma {:induction false} WindowOfDay(renewal: Renewal, day: int)
    requires renewal != Never
    ensures StartDay(renewal, day) <= day < RenewalDay(renewal, StartDay(renewal, day))
  {
    var y, m := YearOf(day), MonthOf(day);
    CivilBrackets(day);
    YearOfBrackets(day);
    match renewal
    case Daily =>
      AddDays(day, 1);
    case Weekly =>
      WeekStart(day);
      AddDays(MondayOf(day), 7);
    case Monthly =>
      FirstOfMonth(y, m);
    case Yearly =>
      FirstOfYear(y);
  }

  lemma {:induction false} FirstOfMonth(y: int, m: int)
    requires 1 <= m <= 12
    ensures DateToDay(y, m, 1) == MonthStart(y, m)
    ensures AddDate(MonthStart(y, m), 0, 1, 0) == MonthStart(y, m + 1)
  {
    DateWithinYear(y, m, 1);
    MonthAfter(y, m);
    if m == 12 {
      DateAfterDecember(y, 1);
    } else {
      DateWithinYear(y, m + 1, 1);
    }
  }

  lemma {:induction false} MonthAfter(y: int, m: int)
    requires 1 <= m <= 12
    ensures AddDate(MonthStart(y, m), 0, 1, 0) == DateToDay(y, m + 1, 1)
  {
    assert MonthStart(y, m + 1) == MonthStart(y, m) + DaysInMonth(y, m);
    CivilUnique(MonthStart(y, m), y, m);
    assert DayOf(MonthStart(y, m)) == 1;
  }

  lemma {:induction false} FirstOfYear(y: int)
    ensures DateToDay(y, 1, 1) == YearStart(y)
    ensures AddDate(YearStart(y), 1, 0, 0) == YearStart(y + 1)
  {
    CivilUnique(YearStart(y), y, 1);
  }

  // Every day of a window has that window's start.
  lemma {:induction false} WindowShared(renewal: Renewal, day: int, other: int)
    requires renewal != Never
    requires StartDay(renewal, day) <= other < RenewalDay(renewal, StartDay(renewal, day))
    ensures StartDay(renewal, other) == StartDay(renewal, day)
  {
    match renewal
    case Daily =>
      AddDays(day, 1);
      AddDays(other, 0);
    case Weekly =>
      WeekStart(day);
      WeekStart(other);
      AddDays(MondayOf(day), 7);
      SameWeek(day, other);
    case Monthly =>
      CivilBrackets(day);
      FirstOfMonth(YearOf(day), MonthOf(day));
      CivilUnique(other, YearOf(day), MonthOf(day));
    case Yearly =>
      FirstOfYear(YearOf(day));
      YearOfUnique(other, YearOf(day));
  }

  lemma {:induction false} LocalDayBrackets(t: Instant, zone: int)
    ensures Midnight(LocalDay(t, zone), zone) <= t < Midnight(LocalDay(t, zone) + 1, zone)
  {
  }

  lemma {:induction false} LocalDayOfMidnight(day: int, zone: int)
    ensures LocalDay(Midnight(day, zone), zone) == day
  {
    DivUnique(day * DAY, DAY, day, 0);
  }

  /** The current time lies in its budget window, and every time in the window has the same window. */
  lemma {:induction false} BudgetWindowsTile(renewal: Renewal, now: Instant, t: Instant, zone: int)
    requires renewal != Never
    ensures BudgetRenewsAt(renewal, now, zone).Some?
    ensures StartOfBudget(renewal, now, zone) <= now < BudgetRenewsAt(renewal, now, zone).value
    ensures StartOfBudget(renewal, now, zone) <= t < BudgetRenewsAt(renewal, now, zone).value
            <==> StartOfBudget(renewal, t, zone) == StartOfBudget(renewal, now, zone)
  {
    var day, other := LocalDay(now, zone), LocalDay(t, zone);
    var start := StartDay(renewal, day);
    LocalDayOfMidnight(start, zone);
    LocalDayOfMidnight(StartDay(renewal, other), zone);
    WindowOfDay(renewal, day);
    WindowOfDay(renewal, other);
    LocalDayBrackets(now, zone);
    LocalDayBrackets(t, zone);
    if start <= other < RenewalDay(renewal, start) {
      WindowShared(renewal, day, other);
    }
  }

  /** As time passes the start of the budget never moves back. */
  lemma {:induction false} StartOfBudgetMonotone(renewal: Renewal, earlier: Instant, later: Instant, zone: int)
    requires earlier <= later
    ensures StartOfBudget(renewal, earlier, zone) <= StartOfBudget(renewal, later, zone)
    ensures renewal == Never ==> StartOfBudget(renewal, earlier, zone) == 0 && StartOfBudget(renewal, later, zone) == 0
  {
    if renewal != Never {
      BudgetWindowsTile(renewal, earlier, later, zone);
      BudgetWindowsTile(renewal, later, earlier, zone);
    }
  }

  /** A budget that is never renewed has one window, from the zero time on, and no renewal. */
  lemma {:induction false} NeverStartsAtZero(now: Instant, zone: int)
    ensures StartOfBudget(Never, now, zone) == 0 && BudgetRenewsAt(Never, now, zone) == None
  {
  }

  // ---------------------------------------------------------------- the calendar is the Gregorian one

  lemma {:induction false} LeapDays(y: int)
    ensures y / 4 - y / 100 + y / 400 == (y - 1) / 4 - (y - 1) / 100 + (y - 1) / 400 + if IsLeap(y) then 1 else 0
  {
    MultiplesUpTo(y, 4);
    MultiplesUpTo(y, 100);
    MultiplesUpTo(y, 400);
    MultipleOfMultiple(y, 4, 25);
    MultipleOfMultiple(y, 100, 4);
  }

  lemma {:induction false} MultiplesUpTo(y: int, n: int)
    requires n > 0
    ensures y / n == (y - 1) / n + if y % n == 0 then 1 else 0
  {
    if y % n == 0 {
      DivUnique(y - 1, n, y / n - 1, n - 1);
    } else {
      DivUnique(y - 1, n, y / n, y % n - 1);
    }
  }

  lemma {:induction false} MultipleOfMultiple(y: int, n: int, k: int)
    requires n > 0 && k > 0
    ensures y % (n * k) == 0 ==> y % n == 0
  {
    if y % (n * k) == 0 {
      var q := y / (n * k);
      assert y == q * (n * k) == (q * k) * n;
      DivUnique(y, n, q * k, 0);
    }
  }

  /** The years before year y, of 365 days each and a leap day every fourth but for three centuries in four. */
  lemma {:induction false} YearStartClosed(y: int)
    ensures YearStart(y) == 365 * (y - 1) + (y - 1) / 4 - (y - 1) / 100 + (y - 1) / 400
    decreases if y > 1 then y - 1 else 1 - y
  {
    if y > 1 {
      YearStartClosed(y - 1);
      LeapDays(y - 1);
    } else if y < 1 {
      YearStartClosed(y + 1);
      LeapDays(y);
    }
  }

  /** Every other month is long, the count starting again in August, and February is short. */
  lemma {:induction false} MonthLengths(y: int, m: int)
    requires 1 <= m <= 12
    ensures DaysInMonth(y, m) == if m == 2 then 28 + DaysInYear(y) - 365 else 30 + (m + m / 8) % 2
  {
  }

  /** The weekday of the first of a year by the years before it; 1 January of year 1 is a Monday. */
  lemma {:induction false} FirstWeekday(y: int)
    ensures Weekday(YearStart(y)) == (y + (y - 1) / 4 - (y - 1) / 100 + (y - 1) / 400) % 7
  {
    YearStartClosed(y);
    var leaps := (y - 1) / 4 - (y - 1) / 100 + (y - 1) / 400;
    assert YearStart(y) + 1 == 7 * (52 * (y - 1)) + (y + leaps);
    SameRest(52 * (y - 1), y + leaps);
  }

  lemma {:induction false} SameRest(q: int, r: int)
    ensures (7 * q + r) % 7 == r % 7
  {
    DivUnique(7 * q + r, 7, q + r / 7, r % 7);
  }
}
