/** src/lib/utils.ts: the month-key parsing and month range of
    `getMonthDateRange`, the threshold classifier `getBudgetStatus` and the
    colour classes of `getStatusColor`. */
module Utils {
  import opened Seqs
  import opened Types
  import opened Dates
  import opened MonthKeys

  // ---------------------------------------------------------------------
  // Month ranges

  /** A date range with inclusive bounds; an Invalid Date bound is `None`. */
  datatype Range = Range(start: Option<int>, end: Option<int>)

  /** `t >= start && t <= end`; every comparison with an Invalid Date is false. */
  predicate Contains(r: Range, t: int)
  {
    r.start.Some? && r.end.Some? && r.start.value <= t <= r.end.value
  }

  /** `{ date: { $gte: start, $lte: end } }` and the file route's
      `date >= startDate && date <= endDate`, as a test on a transaction. */
  function InRange(r: Range): Transaction -> bool
  {
    (t: Transaction) => Contains(r, t.date)
  }

  /** `getMonthDateRange(monthStr)`: `startOfMonth`/`endOfMonth` of
      `new Date(year, month - 1, 1)`, i.e. day 1 at 00:00:00.000 and the last
      day at 23:59:59.999 of the (normalised) month. Both are Invalid Dates
      when the key does not parse or the date is out of range. */
  function MonthDateRange(monthStr: string): Range
  {
    var key := ParseMonthKey(monthStr);
    if key.None? then Range(None, None) else MonthRangeOf(key.value.0, key.value.1)
  }

  /** The range for a parsed year and 1-based month: `startOfMonth` and
      `endOfMonth` of `new Date(year, month - 1, 1)`; `endOfMonth` of an
      Invalid Date is an Invalid Date. date-fns rebuilds the bounds from
      `getFullYear()` and `getMonth()`, the month already carried into the
      year; MakeDay carries it the same way, so the bounds are stated here
      with the month as given (see `MonthRangeCarried`). */
  function MonthRangeOf(year: int, month: int): Range
  {
    var start := StartOfMonth(FullYear(year), month - 1);
    Range(start, if start.None? then None else EndOfMonth(FullYear(year), month - 1))
  }

  /** The bounds built from the normalised year and month, as date-fns
      builds them, are the same. */
  lemma MonthRangeCarried(year: int, month: int)
    ensures var y, m := FullYear(year) + (month - 1) / 12, (month - 1) % 12;
            MonthRangeOf(year, month) ==
              Range(StartOfMonth(y, m), if StartOfMonth(y, m).None? then None else EndOfMonth(y, m))
  {
    MonthStartCarry(FullYear(year), month - 1);
    MonthEndCarry(FullYear(year), month - 1);
  }

  /** The start of the range is `new Date(year, month - 1, 1)` itself. */
  lemma MonthRangeStart(year: int, month: int)
    ensures MonthRangeOf(year, month).start == NewDate(year, month - 1, 1, 0, 0, 0, 0)
  {
    NewDateIsMonthStart(year, month - 1);
  }

  /** A valid end of the range is `endOfMonth` of month `month - 1`. This is
      an unfolding step of `MonthRangeOf`; what that end means is stated by
      `MonthRangeIsMonth`, `MonthKeyRange` and `Dates.DayZeroBeforeEndOfMonth`. */
  lemma MonthRangeEnd(year: int, month: int)
    ensures MonthRangeOf(year, month).end.Some? ==>
              MonthRangeOf(year, month).end == EndOfMonth(FullYear(year), month - 1)
  {
  }

  /** The date-fns range is exactly month `month` (1-based, carried into the
      year when outside 1 to 12): from the first millisecond of its day 1 up
      to, not including, day 1 of the next month. */
  lemma MonthRangeIsMonth(year: int, month: int, t: int)
    requires MonthRangeOf(year, month).start.Some? && MonthRangeOf(year, month).end.Some?
    ensures Contains(MonthRangeOf(year, month), t) <==>
              MakeDate(MakeDay(FullYear(year), month - 1, 1), 0) <= t < MakeDate(MakeDay(FullYear(year), month, 1), 0)
  {
    MonthBounds(FullYear(year), month - 1);
  }

  /** For the key of a month of a year from 100 on, the range runs from
      day 1 of that month at midnight to the last millisecond of its last day. */
  lemma MonthKeyRange(year: nat, month: nat)
    requires 100 <= year < 10000 && 1 <= month <= 12
    ensures var r := MonthDateRange(FormatMonthKey(year, month));
            r.start == Some(MakeDate(MakeDay(year, month - 1, 1), 0)) &&
            r.end == Some(MakeDate(MakeDay(year, month - 1, DaysInMonth(year, month - 1)), 86399999))
  {
    MonthKeyRoundTrip(year, month);
    MonthRangeOfYear(year, month);
  }

  lemma MonthRangeOfYear(year: int, month: int)
    requires 100 <= year < 10000 && 1 <= month <= 12
    ensures MonthRangeOf(year, month).start == Some(MakeDate(MakeDay(year, month - 1, 1), 0))
    ensures MonthRangeOf(year, month).end ==
              Some(MakeDate(MakeDay(year, month - 1, DaysInMonth(year, month - 1)), 86399999))
  {
    var m := month - 1;
    FullYearFrom100(year);
    LastDayOfMonth(year, m);
    DaysInMonthBounds(year, m);
    ValidDay(year, m, 1, 0);
    ValidDay(year, m, DaysInMonth(year, m), 86399999);
  }

  /** Two-digit years: `new Date(24, 2, 1)` is March 1924, so the key
      "0024-03" selects March 1924, not March of year 24. */
  lemma TwoDigitYearKey()
    ensures MonthDateRange(FormatMonthKey(24, 3)).start == Some(MakeDate(MakeDay(1924, 2, 1), 0))
  {
    MonthKeyRoundTrip(24, 3);
    ValidDay(1924, 2, 1, 0);
  }

  // ---------------------------------------------------------------------
  // Budget status

  /** `getBudgetStatus(spent, budget)`: `percentage = spent / budget * 100`,
      'over' from 100 on, 'warning' from 80 on, otherwise 'safe'. There is
      no guard for a zero budget: in floating point `spent / 0` is +Infinity
      when `spent > 0` (so 'over'), and NaN or -Infinity otherwise, which
      fail both tests (so 'safe'). */
  function BudgetStatus(spent: real, budget: real): Status
  {
    if budget == 0.0 then
      (if spent > 0.0 then Over else Safe)
    else
      var percentage := spent / budget * 100.0;
      if percentage >= 100.0 then Over
      else if percentage >= 80.0 then Warning
      else Safe
  }

  /** Position of a status on the scale safe < warning < over. */
  function Severity(s: Status): nat
  {
    match s
    case Safe => 0
    case Warning => 1
    case Over => 2
  }

  /** With a positive budget the thresholds are inclusive: over exactly from
      `spent == budget`, warning exactly from `spent == 0.8 * budget`. */
  lemma StatusWithPositiveBudget(spent: real, budget: real)
    requires budget > 0.0
    ensures BudgetStatus(spent, budget) == Over <==> spent >= budget
    ensures BudgetStatus(spent, budget) == Warning <==> 0.8 * budget <= spent < budget
    ensures BudgetStatus(spent, budget) == Safe <==> spent < 0.8 * budget
  {
    var q := spent / budget;
    assert BudgetStatus(spent, budget) ==
             if q * 100.0 >= 100.0 then Over else if q * 100.0 >= 80.0 then Warning else Safe;
    QuotientAtLeast(spent, budget, 1.0);
    QuotientAtLeast(spent, budget, 0.8);
  }

  /** `x / c >= t` exactly when `x >= t * c`, for a positive `c`. */
  lemma QuotientAtLeast(x: real, c: real, t: real)
    requires c > 0.0
    ensures x / c >= t <==> x >= t * c
  {
    var q := x / c;
    assert q * c == x;
    ScaleByPositive(q, t, c);
  }

  lemma ScaleByPositive(a: real, b: real, c: real)
    requires c > 0.0
    ensures a >= b <==> a * c >= b * c
  {
    if a >= b {
      assert (a - b) * c >= 0.0;
    } else {
      assert (b - a) * c > 0.0;
    }
  }

  /** The unguarded zero budget: any spending is 'over', none is 'safe'. */
  lemma StatusWithZeroBudget(spent: real)
    ensures spent > 0.0 ==> BudgetStatus(spent, 0.0) == Over
    ensures spent <= 0.0 ==> BudgetStatus(spent, 0.0) == Safe
  {
  }

  /** For a fixed positive budget, spending more never lowers the status. */
  lemma StatusMonotone(spent1: real, spent2: real, budget: real)
    requires budget > 0.0 && spent1 <= spent2
    ensures Severity(BudgetStatus(spent1, budget)) <= Severity(BudgetStatus(spent2, budget))
  {
    StatusWithPositiveBudget(spent1, budget);
    StatusWithPositiveBudget(spent2, budget);
  }

  /** `getStatusColor(status)`: Tailwind classes per status. The `default`
      branch of the source's `switch` is unreachable for a `Status`. */
  function StatusColor(s: Status): string
  {
    match s
    case Over => "text-red-600 bg-red-50"
    case Warning => "text-yellow-600 bg-yellow-50"
    case Safe => "text-green-600 bg-green-50"
  }

  /** Each status has its own colour. */
  lemma StatusColorDistinct(s1: Status, s2: Status)
    ensures StatusColor(s1) == StatusColor(s2) <==> s1 == s2
  {
  }
}
