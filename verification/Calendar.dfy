/** The proleptic Gregorian calendar behind `IsoDate`, for the years 0 to 9999
    that the storage text `YYYY-MM-DD` can hold.  A date that would fall outside
    that range is `None`: the source reports an error there, or panics. */
module Calendar {
  import opened Wrappers

  const MAX_YEAR := 9999
  const MAX_DAY := 3652424 // the day number of 9999-12-31

  predicate IsLeap(y: int) {
    y % 4 == 0 && (y % 100 != 0 || y % 400 == 0)
  }

  function DaysIn(y: int, m: int): (n: int)
    requires 1 <= m <= 12
    ensures 28 <= n <= 31
  {
    if m == 2 then (if IsLeap(y) then 29 else 28)
    else if m == 4 || m == 6 || m == 9 || m == 11 then 30
    else 31
  }

  datatype Date = Date(y: int, m: int, d: int)

  predicate IsDate(date: Date) {
    && 0 <= date.y <= MAX_YEAR
    && 1 <= date.m <= 12
    && 1 <= date.d <= DaysIn(date.y, date.m)
  }

  type IsoDate = date: Date | IsDate(date) witness Date(1970, 1, 1)

  const FIRST_DATE: IsoDate := Date(0, 1, 1)
  const LAST_DATE: IsoDate := Date(MAX_YEAR, 12, 31)

  /** Calendar order, as the source derives it: year, then month, then day. */
  predicate Before(a: Date, b: Date) {
    a.y < b.y || (a.y == b.y && (a.m < b.m || (a.m == b.m && a.d < b.d)))
  }

  /** Days before 1 January of year `y`. */
  function YearStart(y: int): int {
    365 * y + (y + 3) / 4 - (y + 99) / 100 + (y + 399) / 400
  }

  /** Days of year `y` before the first of month `m`. */
  function MonthStart(y: int, m: int): int
    requires 1 <= m <= 12
  {
    [0, 31, 59, 90, 120, 151, 181, 212, 243, 273, 304, 334][m - 1]
    + (if 2 < m && IsLeap(y) then 1 else 0)
  }

  /** The number of days since 0000-01-01. */
  function Day(date: IsoDate): (n: int)
    ensures 0 <= n <= MAX_DAY
  {
    YearStartMonotone(0, date.y);
    YearStartMonotone(date.y + 1, MAX_YEAR + 1);
    YearLength(date.y);
    YearStart(date.y) + MonthStart(date.y, date.m) + date.d - 1
  }

  lemma YearLength(y: int)
    ensures YearStart(y + 1) == YearStart(y) + (if IsLeap(y) then 366 else 365)
  {
    var fours, hundreds, fourHundreds := (y + 3) / 4, (y + 99) / 100, (y + 399) / 400;
    FoursStep(y);
    HundredsStep(y);
    FourHundredsStep(y);
    CenturyMultiples(y);
    calc {
      YearStart(y + 1);
      365 * y + 365 + fours + (if y % 4 == 0 then 1 else 0)
        - (hundreds + (if y % 100 == 0 then 1 else 0))
        + (fourHundreds + (if y % 400 == 0 then 1 else 0));
    }
  }

  lemma CenturyMultiples(y: int)
    ensures y % 400 == 0 ==> y % 100 == 0
    ensures y % 100 == 0 ==> y % 4 == 0
  {
    if y % 100 == 0 {
      var q := y / 100;
      assert y == 4 * (25 * q);
    }
    if y % 400 == 0 {
      var q := y / 400;
      assert y == 100 * (4 * q);
    }
  }

  /** Stepping past `y` meets one more multiple exactly if `y` is one. */
  lemma FoursStep(y: int)
    ensures (y + 4) / 4 == (y + 3) / 4 + (if y % 4 == 0 then 1 else 0)
  {
  }

  lemma HundredsStep(y: int)
    ensures (y + 100) / 100 == (y + 99) / 100 + (if y % 100 == 0 then 1 else 0)
  {
  }

  lemma FourHundredsStep(y: int)
    ensures (y + 400) / 400 == (y + 399) / 400 + (if y % 400 == 0 then 1 else 0)
  {
  }

  lemma {:induction false} YearStartMonotone(a: int, b: int)
    requires a <= b
    ensures YearStart(a) + 365 * (b - a) <= YearStart(b)
    decreases b - a
  {
    if a < b {
      YearLength(a);
      YearStartMonotone(a + 1, b);
    }
  }

  /** The next day of the calendar, one carry at a time. */
  function Tomorrow(date: IsoDate): (next: IsoDate)
    requires date != LAST_DATE
  {
    if date.d < DaysIn(date.y, date.m) then Date(date.y, date.m, date.d + 1)
    else if date.m < 12 then Date(date.y, date.m + 1, 1)
    else Date(date.y + 1, 1, 1)
  }

  /** `Day` counts calendar days: a step to the next calendar day adds one. */
  lemma DayCountsDays(date: IsoDate)
    requires date != LAST_DATE
    ensures Day(Tomorrow(date)) == Day(date) + 1
  {
    if date.d == DaysIn(date.y, date.m) {
      if date.m < 12 { MonthLength(date.y, date.m); } else { YearLength(date.y); }
    }
  }

  /** ... from the first representable date to the last. */
  lemma DayBounds()
    ensures Day(FIRST_DATE) == 0 && Day(LAST_DATE) == MAX_DAY
  {
    assert YearStart(MAX_YEAR) == 3652060;
    assert MonthStart(MAX_YEAR, 12) == 334;
  }

  lemma MonthLength(y: int, m: int)
    requires 1 <= m < 12
    ensures MonthStart(y, m + 1) == MonthStart(y, m) + DaysIn(y, m)
  {
  }

  /** Calendar order and day-number order are the same order; hence two dates
      with one day number are one date. */
  lemma OrderIsDayOrder(a: IsoDate, b: IsoDate)
    ensures Before(a, b) <==> Day(a) < Day(b)
    ensures Day(a) == Day(b) <==> a == b
  {
    if a != b {
      if Before(a, b) { EarlierDay(a, b); } else { EarlierDay(b, a); }
    }
  }

  lemma EarlierDay(a: IsoDate, b: IsoDate)
    requires Before(a, b)
    ensures Day(a) < Day(b)
  {
    if a.y < b.y {
      YearLength(a.y);
      YearStartMonotone(a.y + 1, b.y);
    }
  }

  /** The date of a day number: the inverse of `Day`. */
  function OfDay(n: nat): (date: IsoDate)
    requires n <= MAX_DAY
    ensures Day(date) == n
  {
    if n == 0 then FIRST_DATE
    else
      var yesterday := OfDay(n - 1);
      DayCountsDaysOrEnds(yesterday);
      Tomorrow(yesterday)
  }

  lemma DayCountsDaysOrEnds(date: IsoDate)
    ensures date == LAST_DATE ==> Day(date) == MAX_DAY
    ensures date != LAST_DATE ==> Day(Tomorrow(date)) == Day(date) + 1
  {
    if date == LAST_DATE { DayBounds(); } else { DayCountsDays(date); }
  }

  lemma OfDayInvertsDay(date: IsoDate)
    ensures OfDay(Day(date)) == date
  {
    OrderIsDayOrder(OfDay(Day(date)), date);
  }

  // ---- the arithmetic of `IsoDate` ----

  function New(y: int, m: int, d: int): (r: Option<IsoDate>) {
    if IsDate(Date(y, m, d)) then Some(Date(y, m, d)) else None
  }

  function AddDays(date: IsoDate, days: int): (r: Option<IsoDate>)
    ensures r.Some? <==> 0 <= Day(date) + days <= MAX_DAY
    ensures r.Some? ==> Day(r.value) == Day(date) + days
  {
    var n := Day(date) + days;
    if 0 <= n <= MAX_DAY then Some(OfDay(n)) else None
  }

  function DaysUntil(earlier: IsoDate, later: IsoDate): int {
    Day(later) - Day(earlier)
  }

  function FirstOfMonth(date: IsoDate): (r: IsoDate)
    ensures Day(r) <= Day(date)
  {
    Date(date.y, date.m, 1)
  }

  function NextMonth(date: IsoDate): (r: Option<IsoDate>)
  {
    if date.m == 12 then New(date.y + 1, 1, 1) else New(date.y, date.m + 1, 1)
  }

  /** The day before the first of the next month. */
  function LastOfMonth(date: IsoDate): (r: Option<IsoDate>)
  {
    match NextMonth(date)
    case None => None
    case Some(firstNext) => AddDays(firstNext, -1)
  }

  function Clamp(n: int, lo: int, hi: int): int {
    if n < lo then lo else if hi < n then hi else n
  }

  function WithDayClamped(date: IsoDate, day: int): (r: Option<IsoDate>)
  {
    match LastOfMonth(date)
    case None => None
    case Some(last) =>
      LastOfMonthIsLastDay(date);
      Some(Date(date.y, date.m, Clamp(day, 1, last.d)))
  }

  function InYearClamped(date: IsoDate, year: int): (r: Option<IsoDate>)
  {
    match New(year, date.m, 1)
    case None => None
    case Some(first) => WithDayClamped(first, date.d)
  }

  /** A month has a computable last day unless it is December 9999, and that
      day is the month's length. */
  lemma LastOfMonthIsLastDay(date: IsoDate)
    ensures LastOfMonth(date).Some? <==> !InLastMonth(date)
    ensures LastOfMonth(date).Some? ==>
              LastOfMonth(date).value == Date(date.y, date.m, DaysIn(date.y, date.m))
  {
    if NextMonth(date).Some? {
      var last: IsoDate := Date(date.y, date.m, DaysIn(date.y, date.m));
      assert Tomorrow(last) == NextMonth(date).value;
      DayCountsDays(last);
      OrderIsDayOrder(LastOfMonth(date).value, last);
    }
  }

  predicate InLastMonth(date: IsoDate) {
    date.y == MAX_YEAR && date.m == 12
  }

  /** The first of the next month starts exactly one month length later. */
  lemma NextMonthStarts(date: IsoDate)
    ensures NextMonth(date).Some? <==> !InLastMonth(date)
    ensures NextMonth(date).Some? ==>
              Day(NextMonth(date).value) == Day(FirstOfMonth(date)) + DaysIn(date.y, date.m)
  {
    YearLength(date.y);
  }

  // ---- the calendar everyone knows ----

  /** Month lengths, with a leap day every fourth year, not in a century unless it
      is divisible by 400. */
  lemma MonthLengths(y: int, m: int)
    requires 1 <= m <= 12
    ensures DaysIn(y, m)
            == if m in {4, 6, 9, 11} then 30
               else if m != 2 then 31
               else if y % 4 == 0 && (y % 100 != 0 || y % 400 == 0) then 29 else 28
  {
  }

  /** Dates are the days of the months of the years 0 to 9999. */
  lemma DatesAreDays(y: int, m: int, d: int)
    ensures IsDate(Date(y, m, d)) <==> 0 <= y <= 9999 && 1 <= m <= 12 && 1 <= d && d <= DaysIn(y, m)
  {
  }
}
