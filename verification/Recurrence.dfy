/** Schedule recurrence: the rule a schedule promises, a day-by-day
    specification of a window, and the generators that jump from one candidate
    date to the next. */
module Recurrence {
  import opened Wrappers
  import opened Calendar

  datatype Frequency = Monthly | Semimonthly | Biweekly | Weekly | Annual | OneTime

  /** What a schedule's dates depend on: its start date anchors it. */
  datatype Rule = Rule(frequency: Frequency, anchor: IsoDate, dayOfMonth: Option<int>)

  datatype ScheduleError = MissingDayOfMonth | OutOfRange

  // ---- the promise ----

  /** The dates the rule names: clamped month days, both halves of a month,
      whole steps from the anchor, clamped anniversaries, or the anchor. */
  predicate Recurs(rule: Rule, date: IsoDate) {
    match rule.frequency
    case Monthly =>
      rule.dayOfMonth.Some? && date.d == Clamp(rule.dayOfMonth.value, 1, DaysIn(date.y, date.m))
    case Semimonthly => date.d == 15 || date.d == DaysIn(date.y, date.m)
    case Weekly => DaysUntil(rule.anchor, date) % 7 == 0
    case Biweekly => DaysUntil(rule.anchor, date) % 14 == 0
    case Annual =>
      date.m == rule.anchor.m && date.d == Clamp(rule.anchor.d, 1, DaysIn(date.y, date.m))
    case OneTime => date == rule.anchor
  }

  predicate Occurs(rule: Rule, from: IsoDate, through: IsoDate, date: IsoDate) {
    && Recurs(rule, date)
    && Day(rule.anchor) <= Day(date)
    && Day(from) <= Day(date) <= Day(through)
  }

  ghost predicate Increasing(dates: seq<IsoDate>) {
    forall i, j :: 0 <= i < j < |dates| ==> Day(dates[i]) < Day(dates[j])
  }

  /** Exactly the occurrences in the window, in strictly increasing order. */
  ghost predicate IsOccurrenceList(dates: seq<IsoDate>, rule: Rule, from: IsoDate, through: IsoDate) {
    Increasing(dates) && forall date: IsoDate :: date in dates <==> Occurs(rule, from, through, date)
  }

  /** Day by day: keep every day from `lo` to `hi` that the rule names. */
  function Scan(rule: Rule, lo: int, hi: int): (dates: seq<IsoDate>)
    requires 0 <= lo && hi <= MAX_DAY
    decreases hi - lo
  {
    if hi < lo then []
    else
      var before := Scan(rule, lo, hi - 1);
      var date := OfDay(hi);
      if Recurs(rule, date) && Day(rule.anchor) <= hi then before + [date] else before
  }

  function OccurrencesIn(rule: Rule, from: IsoDate, through: IsoDate): (dates: seq<IsoDate>)
  {
    Scan(rule, Day(from), Day(through))
  }

  lemma {:induction false} ScanIsExact(rule: Rule, lo: int, hi: int)
    requires 0 <= lo && hi <= MAX_DAY
    ensures Increasing(Scan(rule, lo, hi))
    ensures forall date: IsoDate :: date in Scan(rule, lo, hi) <==>
              lo <= Day(date) <= hi && Recurs(rule, date) && Day(rule.anchor) <= Day(date)
    decreases hi - lo
  {
    if lo <= hi {
      ScanIsExact(rule, lo, hi - 1);
      forall date: IsoDate | Day(date) == hi ensures date == OfDay(hi) {
        OfDayInvertsDay(date);
      }
    }
  }

  /** The specification meets the promise, and nothing else does. */
  lemma OccurrencesAreExact(rule: Rule, from: IsoDate, through: IsoDate, dates: seq<IsoDate>)
    ensures IsOccurrenceList(dates, rule, from, through) <==> dates == OccurrencesIn(rule, from, through)
  {
    ScanIsExact(rule, Day(from), Day(through));
    if IsOccurrenceList(dates, rule, from, through) {
      IncreasingIsUnique(dates, OccurrencesIn(rule, from, through));
    }
  }

  lemma {:induction false} IncreasingIsUnique(a: seq<IsoDate>, b: seq<IsoDate>)
    requires Increasing(a) && Increasing(b)
    requires forall date: IsoDate :: date in a <==> date in b
    ensures a == b
    decreases |a|
  {
    hide Day;
    if |a| == 0 {
      NonemptyHasMember(b);
    } else {
      DropLast(a);
      assert a[|a| - 1] in b;
      DropLast(b);
      assert b[|b| - 1] in a;
      OrderIsDayOrder(a[|a| - 1], b[|b| - 1]);
      var a', b' := a[..|a| - 1], b[..|b| - 1];
      forall date: IsoDate ensures date in a' <==> date in b' {
        assert date in a' <==> date in a && date != a[|a| - 1];
        assert date in b' <==> date in b && date != b[|b| - 1];
      }
      IncreasingIsUnique(a', b');
      assert a == a[..|a| - 1] + [a[|a| - 1]] && b == b[..|b| - 1] + [b[|b| - 1]];
    }
  }

  lemma NonemptyHasMember(dates: seq<IsoDate>)
    ensures dates != [] ==> exists date: IsoDate :: date in dates
  {
    if dates != [] { assert dates[0] in dates; }
  }

  /** The last date of an increasing list is the latest, and leaves the others. */
  lemma DropLast(dates: seq<IsoDate>)
    requires Increasing(dates) && |dates| > 0
    ensures dates[|dates| - 1] in dates
    ensures forall date: IsoDate :: date in dates ==> Day(date) <= Day(dates[|dates| - 1])
    ensures forall date: IsoDate :: date in dates[..|dates| - 1] <==>
              date in dates && date != dates[|dates| - 1]
  {
    hide Day;
    assert dates == dates[..|dates| - 1] + [dates[|dates| - 1]];
  }

  lemma {:induction false} ScansConcatenate(rule: Rule, lo: int, mid: int, hi: int)
    requires 0 <= lo <= mid + 1 && mid <= hi <= MAX_DAY
    ensures Scan(rule, lo, hi) == Scan(rule, lo, mid) + Scan(rule, mid + 1, hi)
    decreases hi - mid
  {
    hide Day, Recurs;
    if mid < hi {
      ScansConcatenate(rule, lo, mid, hi - 1);
      var left, right := Scan(rule, lo, mid), Scan(rule, mid + 1, hi - 1);
      assert (left + right) + [OfDay(hi)] == left + (right + [OfDay(hi)]);
    } else {
      assert Scan(rule, mid + 1, hi) == [] && Scan(rule, lo, mid) + [] == Scan(rule, lo, mid);
    }
  }

  // ---- when the generators stay inside the calendar ----

  function StepDays(frequency: Frequency): int {
    if frequency == Weekly then 7 else 14
  }

  /** The first day the step generator visits. */
  function FirstStep(anchor: IsoDate, from: IsoDate, step: int): int
    requires step > 0
  {
    if Day(anchor) < Day(from) then
      Day(anchor) + (DaysUntil(anchor, from) + step - 1) / step * step
    else Day(anchor)
  }

  /** The first of the days `first`, `first + step`, .. that lies after `through`. */
  function StopAfter(first: int, through: int, step: int): int
    requires step > 0
  {
    if through < first then first else first + ((through - first) / step + 1) * step
  }

  /** The day at which the step generator stops. */
  function StopStep(anchor: IsoDate, from: IsoDate, through: IsoDate, step: int): int
    requires step > 0
  {
    StopAfter(FirstStep(anchor, from, step), Day(through), step)
  }

  /** Every date the generator has to compute can be represented. */
  predicate Computable(rule: Rule, from: IsoDate, through: IsoDate) {
    match rule.frequency
    case Monthly | Semimonthly => !InLastMonth(through)
    case Weekly | Biweekly =>
      StopStep(rule.anchor, from, through, StepDays(rule.frequency)) <= MAX_DAY
    case Annual => !(rule.anchor.m == 12 && through.y == MAX_YEAR)
    case OneTime => true
  }

  function Occurrences(rule: Rule, from: IsoDate, through: IsoDate): (r: Result<seq<IsoDate>, ScheduleError>)
  {
    if Day(through) < Day(from) then Success([])
    else if rule.frequency == Monthly && rule.dayOfMonth.None? then Failure(MissingDayOfMonth)
    else if Computable(rule, from, through) then Success(OccurrencesIn(rule, from, through))
    else Failure(OutOfRange)
  }

  // ---- windows side by side ----

  /** Where the step generator stops is up to the end of the window alone. */
  lemma StopIsUpToTheEnd(anchor: int, from: int, through: int, frequency: Frequency)
    requires from <= through && (frequency == Weekly || frequency == Biweekly)
    ensures var step, limit := StepDays(frequency), if through + 1 < anchor then anchor else through + 1;
            var first := if anchor < from then anchor + (from - anchor + step - 1) / step * step else anchor;
            var stop := StopAfter(first, through, step);
            limit <= stop < limit + step && (stop - anchor) % step == 0
  {
  }

  lemma StopStepIs(rule: Rule, from: IsoDate, through: IsoDate)
    requires Day(from) <= Day(through) && (rule.frequency == Weekly || rule.frequency == Biweekly)
    ensures var step, anchor := StepDays(rule.frequency), Day(rule.anchor);
            var limit, stop := if Day(through) + 1 < anchor then anchor else Day(through) + 1,
                               StopStep(rule.anchor, from, through, step);
            limit <= stop < limit + step && (stop - anchor) % step == 0
  {
    hide Day, StopAfter;
    StopIsUpToTheEnd(Day(rule.anchor), Day(from), Day(through), rule.frequency);
  }

  lemma EarlierStopsEarlier(a: int, b: int, anchor: int, limit: int, limit': int, frequency: Frequency)
    requires var step := StepDays(frequency);
             && limit <= a < limit + step && (a - anchor) % step == 0
             && limit' <= b < limit' + step && (b - anchor) % step == 0
    ensures limit <= limit' ==> a <= b
  {
  }

  lemma ComputableAsItsEnd(rule: Rule, from: IsoDate, from': IsoDate, through: IsoDate, through': IsoDate)
    requires Day(from) <= Day(through) && Day(from') <= Day(through') && Day(through) <= Day(through')
    ensures Computable(rule, from', through') ==> Computable(rule, from, through)
  {
    hide Day, StopStep;
    OrderIsDayOrder(through, through');
    if rule.frequency == Weekly || rule.frequency == Biweekly {
      StopStepIs(rule, from, through);
      StopStepIs(rule, from', through');
      var step, anchor := StepDays(rule.frequency), Day(rule.anchor);
      EarlierStopsEarlier(
        StopStep(rule.anchor, from, through, step), StopStep(rule.anchor, from', through', step), anchor,
        if Day(through) + 1 < anchor then anchor else Day(through) + 1,
        if Day(through') + 1 < anchor then anchor else Day(through') + 1, rule.frequency);
    }
  }

  /** Splitting a window at any day: it fails exactly if one of the halves does,
      with that half's error, and otherwise its occurrences are those of the
      halves, one list after the other.  Either half may be empty. */
  lemma OccurrencesConcatenate(rule: Rule, from: IsoDate, mid: IsoDate, after: IsoDate, through: IsoDate)
    requires Day(from) <= Day(after) && Day(after) == Day(mid) + 1 && Day(mid) <= Day(through)
    ensures var whole, first, second :=
              Occurrences(rule, from, through), Occurrences(rule, from, mid), Occurrences(rule, after, through);
            && (whole.Failure? <==> first.Failure? || second.Failure?)
            && (whole.Failure? ==> whole == if first.Failure? then first else second)
            && (whole.Success? ==> whole.value == first.value + second.value)
  {
    hide Day, OccurrencesIn, Computable;
    if Day(mid) < Day(through) && Day(from) <= Day(mid) {
      ComputableAsItsEnd(rule, from, from, mid, through);
      ComputableAsItsEnd(rule, from, after, through, through);
      ComputableAsItsEnd(rule, after, from, through, through);
    }
    SameEnd(from, after);
    ScansAround(rule, from, mid, after, through);
    SameEnd(mid, through);
  }

  lemma SameEnd(mid: IsoDate, through: IsoDate)
    ensures Day(mid) == Day(through) ==> mid == through
  {
    OrderIsDayOrder(mid, through);
    OrderIsDayOrder(through, mid);
    hide Day;
  }

  lemma ScansAround(rule: Rule, from: IsoDate, mid: IsoDate, after: IsoDate, through: IsoDate)
    requires Day(from) <= Day(after) && Day(after) == Day(mid) + 1 && Day(mid) <= Day(through)
    ensures OccurrencesIn(rule, from, through)
            == (if Day(mid) < Day(from) then [] else OccurrencesIn(rule, from, mid))
               + (if Day(through) < Day(after) then [] else OccurrencesIn(rule, after, through))
  {
    hide Day;
    ScansConcatenate(rule, Day(from), Day(mid), Day(through));
  }

  // ---- the generators ----

  predicate Accepts(rule: Rule, from: IsoDate, through: IsoDate, candidate: IsoDate) {
    Day(rule.anchor) <= Day(candidate) && Day(from) <= Day(candidate) <= Day(through)
  }

  lemma SameMonthDays(month: IsoDate, date: IsoDate)
    requires month.d == 1 && date.y == month.y && date.m == month.m
    ensures Day(date) == Day(month) + date.d - 1
  {
  }

  /** The days from the first of a month to its length are that month's dates. */
  lemma InMonth(month: IsoDate, date: IsoDate)
    requires month.d == 1
    requires Day(month) <= Day(date) < Day(month) + DaysIn(month.y, month.m)
    ensures date.y == month.y && date.m == month.m && Day(date) == Day(month) + date.d - 1
  {
    hide Day;
    var last: IsoDate := Date(month.y, month.m, DaysIn(month.y, month.m));
    SameMonthDays(month, last);
    OrderIsDayOrder(date, month);
    OrderIsDayOrder(last, date);
    SameMonthDays(month, date);
  }

  /** The occurrences of the window dated before day `limit`, in order. */
  ghost predicate Generated(dates: seq<IsoDate>, rule: Rule, from: IsoDate, through: IsoDate, limit: int) {
    && Increasing(dates)
    && forall date: IsoDate :: date in dates <==> Occurs(rule, from, through, date) && Day(date) < limit
  }

  lemma NoneBefore(rule: Rule, from: IsoDate, through: IsoDate, limit: int)
    requires limit <= Day(from) || limit <= Day(rule.anchor)
    ensures Generated([], rule, from, through, limit)
  {
  }

  lemma AllGenerated(dates: seq<IsoDate>, rule: Rule, from: IsoDate, through: IsoDate, limit: int)
    requires Generated(dates, rule, from, through, limit) && Day(through) < limit
    ensures dates == OccurrencesIn(rule, from, through)
  {
    hide Day;
    OccurrencesAreExact(rule, from, through, dates);
  }

  /** A stretch of days with at most one date of the rule adds at most that date. */
  lemma Extend(dates: seq<IsoDate>, rule: Rule, from: IsoDate, through: IsoDate,
               candidate: IsoDate, limit: int, next: int)
    requires Generated(dates, rule, from, through, limit)
    requires limit <= Day(candidate) < next
    requires forall date: IsoDate | limit <= Day(date) < next :: Recurs(rule, date) <==> date == candidate
    ensures Generated(if Accepts(rule, from, through, candidate) then dates + [candidate] else dates,
                      rule, from, through, next)
  {
    hide Day, Recurs;
  }

  method MonthlyOccurrences(rule: Rule, from: IsoDate, through: IsoDate)
    returns (r: Result<seq<IsoDate>, ScheduleError>)
    requires rule.frequency == Monthly && Day(from) <= Day(through)
    ensures r == Occurrences(rule, from, through)
  {
    hide Day, Generated, OccurrencesIn, Recurs;
    if rule.dayOfMonth.None? { return Failure(MissingDayOfMonth); }
    var day := rule.dayOfMonth.value;
    var month := FirstOfMonth(from);
    var dates: seq<IsoDate> := [];
    NoneBefore(rule, from, through, Day(month));
    while Day(month) <= Day(through)
      invariant month.d == 1
      invariant Generated(dates, rule, from, through, Day(month))
      decreases Day(through) - Day(month)
    {
      var candidate := WithDayClamped(month, day);
      MonthReach(month, through);
      if candidate.None? { return Failure(OutOfRange); }
      var next := NextMonth(month);
      if next.None? { return Failure(OutOfRange); }
      MonthlyStretch(rule, month, candidate.value, next.value);
      Extend(dates, rule, from, through, candidate.value, Day(month), Day(next.value));
      if Accepts(rule, from, through, candidate.value) {
        dates := dates + [candidate.value];
      }
      month := next.value;
    }
    AllGenerated(dates, rule, from, through, Day(month));
    BeyondLastMonth(through, month);
    r := Success(dates);
  }

  /** A month that is reached ends the calendar only if the window ends in it. */
  lemma MonthReach(month: IsoDate, through: IsoDate)
    requires month.d == 1 && Day(month) <= Day(through)
    ensures InLastMonth(month) ==> InLastMonth(through)
    ensures LastOfMonth(month).None? <==> InLastMonth(month)
    ensures NextMonth(month).None? <==> InLastMonth(month)
    ensures NextMonth(month).Some? ==> NextMonth(month).value.d == 1 && Day(month) < Day(NextMonth(month).value)
  {
    hide Day;
    OrderIsDayOrder(through, month);
    NextMonthStarts(month);
    LastOfMonthIsLastDay(month);
  }

  lemma BeyondLastMonth(through: IsoDate, month: IsoDate)
    requires month.d == 1 && Day(through) < Day(month)
    ensures !InLastMonth(through)
  {
    hide Day;
    OrderIsDayOrder(through, month);
  }

  lemma MonthlyStretch(rule: Rule, month: IsoDate, candidate: IsoDate, next: IsoDate)
    requires rule.frequency == Monthly && rule.dayOfMonth.Some? && month.d == 1
    requires WithDayClamped(month, rule.dayOfMonth.value) == Some(candidate)
    requires NextMonth(month) == Some(next)
    ensures Day(month) <= Day(candidate) < Day(next)
    ensures forall date: IsoDate | Day(month) <= Day(date) < Day(next) ::
              Recurs(rule, date) <==> date == candidate
  {
    hide Day;
    NextMonthStarts(month);
    LastOfMonthIsLastDay(month);
    SameMonthDays(month, candidate);
    forall date: IsoDate | Day(month) <= Day(date) < Day(next)
      ensures Recurs(rule, date) <==> date == candidate
    {
      InMonth(month, date);
    }
  }

  method SemimonthlyOccurrences(rule: Rule, from: IsoDate, through: IsoDate)
    returns (r: Result<seq<IsoDate>, ScheduleError>)
    requires rule.frequency == Semimonthly && Day(from) <= Day(through)
    ensures r == Occurrences(rule, from, through)
  {
    hide Day, Generated, OccurrencesIn, Recurs;
    var month := FirstOfMonth(from);
    var dates: seq<IsoDate> := [];
    NoneBefore(rule, from, through, Day(month));
    while Day(month) <= Day(through)
      invariant month.d == 1
      invariant Generated(dates, rule, from, through, Day(month))
      decreases Day(through) - Day(month)
    {
      MonthReach(month, through);
      var middle := WithDayClamped(month, 15);
      if middle.None? { return Failure(OutOfRange); }
      var last := LastOfMonth(month);
      if last.None? { return Failure(OutOfRange); }
      var next := NextMonth(month);
      if next.None? { return Failure(OutOfRange); }
      HalfMonths(rule, month, middle.value, last.value, next.value);
      Extend(dates, rule, from, through, middle.value, Day(month), Day(middle.value) + 1);
      if Accepts(rule, from, through, middle.value) {
        dates := dates + [middle.value];
      }
      Extend(dates, rule, from, through, last.value, Day(middle.value) + 1, Day(next.value));
      if Accepts(rule, from, through, last.value) {
        dates := dates + [last.value];
      }
      month := next.value;
    }
    AllGenerated(dates, rule, from, through, Day(month));
    BeyondLastMonth(through, month);
    r := Success(dates);
  }

  lemma HalfMonths(rule: Rule, month: IsoDate, middle: IsoDate, last: IsoDate, next: IsoDate)
    requires rule.frequency == Semimonthly && month.d == 1
    requires WithDayClamped(month, 15) == Some(middle)
    requires LastOfMonth(month) == Some(last) && NextMonth(month) == Some(next)
    ensures Day(month) <= Day(middle) < Day(last) < Day(next)
    ensures forall date: IsoDate | Day(month) <= Day(date) <= Day(middle) ::
              Recurs(rule, date) <==> date == middle
    ensures forall date: IsoDate | Day(middle) < Day(date) < Day(next) ::
              Recurs(rule, date) <==> date == last
  {
    hide Day;
    NextMonthStarts(month);
    LastOfMonthIsLastDay(month);
    SameMonthDays(month, middle);
    SameMonthDays(month, last);
    forall date: IsoDate | Day(month) <= Day(date) < Day(next)
      ensures date.y == month.y && date.m == month.m && Day(date) == Day(month) + date.d - 1
    {
      InMonth(month, date);
    }
  }

  /** Weekly and biweekly schedules: whole steps from the anchor, starting at
      the first one on or after the window's start. */
  method StepOccurrences(rule: Rule, from: IsoDate, through: IsoDate, step: int)
    returns (r: Result<seq<IsoDate>, ScheduleError>)
    requires rule.frequency == Weekly || rule.frequency == Biweekly
    requires step == StepDays(rule.frequency) && Day(from) <= Day(through)
    ensures r == Occurrences(rule, from, through)
  {
    hide Day, FirstStep, StopStep, OnStep, Generated, OccurrencesIn, Recurs;
    var anchor := rule.anchor;
    var cursor := Some(anchor);
    StepAlign(rule, from, through, step);
    if Day(anchor) < Day(from) {
      var distance := DaysUntil(anchor, from);
      var steps := (distance + step - 1) / step;
      cursor := AddDays(anchor, steps * step);
    }
    if cursor.None? { return Failure(OutOfRange); }
    var at := cursor.value;
    var dates: seq<IsoDate> := [];
    while Day(at) <= Day(through)
      invariant OnStep(rule, from, step, Day(at))
      invariant Day(at) == FirstStep(anchor, from, step) || Day(at) - step <= Day(through)
      invariant Generated(dates, rule, from, through, Day(at))
      decreases Day(through) - Day(at)
    {
      StepReach(rule, from, through, step, Day(at));
      OneStep(rule, from, at, step);
      Extend(dates, rule, from, through, at, Day(at), Day(at) + step);
      dates := dates + [at];
      cursor := AddDays(at, step);
      if cursor.None? { return Failure(OutOfRange); }
      at := cursor.value;
    }
    StepReach(rule, from, through, step, Day(at));
    AllGenerated(dates, rule, from, through, Day(at));
    r := Success(dates);
  }

  /** A day the step generator can visit: in the window's reach, on a whole
      number of steps from the anchor. */
  predicate OnStep(rule: Rule, from: IsoDate, step: int, day: int)
    requires step > 0
  {
    && Day(rule.anchor) <= day && Day(from) <= day && FirstStep(rule.anchor, from, step) <= day
    && (day - Day(rule.anchor)) % step == 0
  }

  /** The first step visited is the earliest such day: no occurrence precedes it. */
  lemma StepAlign(rule: Rule, from: IsoDate, through: IsoDate, step: int)
    requires rule.frequency == Weekly || rule.frequency == Biweekly
    requires step == StepDays(rule.frequency)
    ensures FirstStep(rule.anchor, from, step) ==
            if Day(rule.anchor) < Day(from) then
              Day(rule.anchor) + (DaysUntil(rule.anchor, from) + step - 1) / step * step
            else Day(rule.anchor)
    ensures FirstStep(rule.anchor, from, step) <= StopStep(rule.anchor, from, through, step)
    ensures OnStep(rule, from, step, FirstStep(rule.anchor, from, step))
    ensures Generated([], rule, from, through, FirstStep(rule.anchor, from, step))
  {
    hide Day;
    var anchor, first := Day(rule.anchor), FirstStep(rule.anchor, from, step);
    if step == 7 { CeilSeven(anchor, Day(from)); } else { CeilFourteen(anchor, Day(from)); }
    NoneBeforeFirst(rule, from, through, step);
    hide Generated;
  }

  lemma NoneBeforeFirst(rule: Rule, from: IsoDate, through: IsoDate, step: int)
    requires rule.frequency == Weekly || rule.frequency == Biweekly
    requires step == StepDays(rule.frequency)
    ensures Generated([], rule, from, through, FirstStep(rule.anchor, from, step))
  {
    hide Day;
    var anchor, first := Day(rule.anchor), FirstStep(rule.anchor, from, step);
    if step == 7 { CeilSeven(anchor, Day(from)); } else { CeilFourteen(anchor, Day(from)); }
    forall date: IsoDate | Day(from) <= Day(date) < first && anchor <= Day(date) ensures !Recurs(rule, date) {
      if step == 7 { NoSeven(anchor, first, Day(date)); } else { NoFourteen(anchor, first, Day(date)); }
    }
  }

  lemma CeilSeven(anchor: int, from: int)
    ensures var first := anchor + (from - anchor + 6) / 7 * 7;
            from <= first < from + 7 && (first - anchor) % 7 == 0
  {
  }

  lemma CeilFourteen(anchor: int, from: int)
    ensures var first := anchor + (from - anchor + 13) / 14 * 14;
            from <= first < from + 14 && (first - anchor) % 14 == 0
  {
  }

  lemma NoSeven(anchor: int, first: int, day: int)
    requires first - 7 < day < first && (first - anchor) % 7 == 0
    ensures (day - anchor) % 7 != 0
  {
  }

  lemma NoFourteen(anchor: int, first: int, day: int)
    requires first - 14 < day < first && (first - anchor) % 14 == 0
    ensures (day - anchor) % 14 != 0
  {
  }

  lemma StepReach(rule: Rule, from: IsoDate, through: IsoDate, step: int, at: int)
    requires rule.frequency == Weekly || rule.frequency == Biweekly
    requires step == StepDays(rule.frequency) && OnStep(rule, from, step, at)
    ensures var stop := StopStep(rule.anchor, from, through, step);
            && (at <= Day(through) ==> at + step <= stop)
            && (Day(through) < at && (at == FirstStep(rule.anchor, from, step) || at - step <= Day(through)) ==>
                  at == stop)
  {
    hide Day, FirstStep, OnStep, StopStep;
    if step == 7 { ReachSeven(rule, from, through, at); } else { ReachFourteen(rule, from, through, at); }
  }

  lemma ReachSeven(rule: Rule, from: IsoDate, through: IsoDate, at: int)
    requires rule.frequency == Weekly && OnStep(rule, from, 7, at)
    ensures var stop := StopStep(rule.anchor, from, through, 7);
            && (at <= Day(through) ==> at + 7 <= stop)
            && (Day(through) < at && (at == FirstStep(rule.anchor, from, 7) || at - 7 <= Day(through)) ==> at == stop)
  {
    FirstOnStep(rule, from, through, 7);
    hide Day, FirstStep, StopAfter;
    StopSeven(Day(rule.anchor), FirstStep(rule.anchor, from, 7), Day(through), at);
  }

  lemma ReachFourteen(rule: Rule, from: IsoDate, through: IsoDate, at: int)
    requires rule.frequency == Biweekly && OnStep(rule, from, 14, at)
    ensures var stop := StopStep(rule.anchor, from, through, 14);
            && (at <= Day(through) ==> at + 14 <= stop)
            && (Day(through) < at && (at == FirstStep(rule.anchor, from, 14) || at - 14 <= Day(through)) ==> at == stop)
  {
    FirstOnStep(rule, from, through, 14);
    hide Day, FirstStep, StopAfter;
    StopFourteen(Day(rule.anchor), FirstStep(rule.anchor, from, 14), Day(through), at);
  }

  lemma FirstOnStep(rule: Rule, from: IsoDate, through: IsoDate, step: int)
    requires rule.frequency == Weekly || rule.frequency == Biweekly
    requires step == StepDays(rule.frequency)
    ensures OnStep(rule, from, step, FirstStep(rule.anchor, from, step))
  {
    StepAlign(rule, from, through, step);
    hide *;
  }

  lemma StopSeven(anchor: int, first: int, through: int, at: int)
    requires first <= at && (first - anchor) % 7 == 0 && (at - anchor) % 7 == 0
    ensures through < at && (at == first || at - 7 <= through) ==> at == StopAfter(first, through, 7)
    ensures at <= through ==> at + 7 <= StopAfter(first, through, 7)
  {
    var steps := (at - anchor) / 7 - (first - anchor) / 7;
    assert at == first + steps * 7;
  }

  lemma StopFourteen(anchor: int, first: int, through: int, at: int)
    requires first <= at && (first - anchor) % 14 == 0 && (at - anchor) % 14 == 0
    ensures through < at && (at == first || at - 14 <= through) ==> at == StopAfter(first, through, 14)
    ensures at <= through ==> at + 14 <= StopAfter(first, through, 14)
  {
    var steps := (at - anchor) / 14 - (first - anchor) / 14;
    assert at == first + steps * 14;
  }

  /** From one occurrence to the next the rule names nothing in between. */
  lemma OneStep(rule: Rule, from: IsoDate, at: IsoDate, step: int)
    requires rule.frequency == Weekly || rule.frequency == Biweekly
    requires step == StepDays(rule.frequency) && OnStep(rule, from, step, Day(at))
    ensures Day(rule.anchor) <= Day(at) && Day(from) <= Day(at)
    ensures OnStep(rule, from, step, Day(at) + step)
    ensures forall date: IsoDate | Day(at) <= Day(date) < Day(at) + step ::
              Recurs(rule, date) <==> date == at
  {
    hide Day, FirstStep, Recurs;
    if step == 7 { OneWeek(rule, at); } else { TwoWeeks(rule, at); }
  }

  lemma OneWeek(rule: Rule, at: IsoDate)
    requires rule.frequency == Weekly && (Day(at) - Day(rule.anchor)) % 7 == 0
    ensures forall date: IsoDate | Day(at) <= Day(date) < Day(at) + 7 :: Recurs(rule, date) <==> date == at
  {
    hide Day;
    forall date: IsoDate | Day(at) <= Day(date) < Day(at) + 7 ensures Recurs(rule, date) <==> date == at {
      OrderIsDayOrder(at, date);
    }
  }

  lemma TwoWeeks(rule: Rule, at: IsoDate)
    requires rule.frequency == Biweekly && (Day(at) - Day(rule.anchor)) % 14 == 0
    ensures forall date: IsoDate | Day(at) <= Day(date) < Day(at) + 14 :: Recurs(rule, date) <==> date == at
  {
    hide Day;
    forall date: IsoDate | Day(at) <= Day(date) < Day(at) + 14 ensures Recurs(rule, date) <==> date == at {
      OrderIsDayOrder(at, date);
    }
  }

  method AnnualOccurrences(rule: Rule, from: IsoDate, through: IsoDate)
    returns (r: Result<seq<IsoDate>, ScheduleError>)
    requires rule.frequency == Annual && Day(from) <= Day(through)
    ensures r == Occurrences(rule, from, through)
  {
    hide Day, YearStart, Generated, OccurrencesIn, Recurs;
    var dates: seq<IsoDate> := [];
    OrderIsDayOrder(through, from);
    YearDays(from, from.y);
    NoneBefore(rule, from, through, YearStart(from.y));
    for year := from.y to through.y + 1
      invariant Generated(dates, rule, from, through, YearStart(year))
      invariant year == from.y || !(rule.anchor.m == 12 && year == MAX_YEAR + 1)
    {
      LastOfMonthIsLastDay(Date(year, rule.anchor.m, 1));
      var candidate := InYearClamped(rule.anchor, year);
      if candidate.None? { return Failure(OutOfRange); }
      Anniversary(rule, year, candidate.value);
      Extend(dates, rule, from, through, candidate.value, YearStart(year), YearStart(year + 1));
      if Accepts(rule, from, through, candidate.value) {
        dates := dates + [candidate.value];
      }
    }
    YearDays(through, through.y);
    AllGenerated(dates, rule, from, through, YearStart(through.y + 1));
    r := Success(dates);
  }

  /** A date lies in the year whose days contain its day. */
  lemma YearDays(date: IsoDate, year: int)
    requires 0 <= year <= MAX_YEAR
    ensures date.y == year <==> YearStart(year) <= Day(date) < YearStart(year + 1)
  {
    YearLength(year);
    YearLength(date.y);
    if date.y < year { YearStartMonotone(date.y + 1, year); }
    if year < date.y { YearStartMonotone(year + 1, date.y); }
  }

  lemma Anniversary(rule: Rule, year: int, candidate: IsoDate)
    requires rule.frequency == Annual && 0 <= year <= MAX_YEAR
    requires InYearClamped(rule.anchor, year) == Some(candidate)
    ensures YearStart(year) <= Day(candidate) < YearStart(year + 1)
    ensures forall date: IsoDate | YearStart(year) <= Day(date) < YearStart(year + 1) ::
              Recurs(rule, date) <==> date == candidate
  {
    hide Day;
    hide YearStart;
    LastOfMonthIsLastDay(Date(year, rule.anchor.m, 1));
    YearDays(candidate, year);
    forall date: IsoDate | YearStart(year) <= Day(date) < YearStart(year + 1)
      ensures date.y == year
    {
      YearDays(date, year);
    }
  }

  /** All six frequencies. */
  method ScheduleOccurrences(rule: Rule, from: IsoDate, through: IsoDate)
    returns (r: Result<seq<IsoDate>, ScheduleError>)
    ensures r == Occurrences(rule, from, through)
  {
    hide Day;
    if Day(through) < Day(from) { return Success([]); }
    match rule.frequency
    case Monthly => r := MonthlyOccurrences(rule, from, through);
    case Semimonthly => r := SemimonthlyOccurrences(rule, from, through);
    case Weekly => r := StepOccurrences(rule, from, through, 7);
    case Biweekly => r := StepOccurrences(rule, from, through, 14);
    case Annual => r := AnnualOccurrences(rule, from, through);
    case OneTime =>
      OneTimeOccurrence(rule, from, through);
      if Accepts(rule, from, through, rule.anchor) {
        r := Success([rule.anchor]);
      } else {
        r := Success([]);
      }
  }

  lemma OneTimeOccurrence(rule: Rule, from: IsoDate, through: IsoDate)
    requires rule.frequency == OneTime
    ensures OccurrencesIn(rule, from, through) ==
            if Accepts(rule, from, through, rule.anchor) then [rule.anchor] else []
  {
    hide Day;
    OccurrencesAreExact(rule, from, through,
                        if Accepts(rule, from, through, rule.anchor) then [rule.anchor] else []);
  }

  // ---- the dates themselves ----

  /** The day of a month a due day falls on: the month's last if it is shorter. */
  function DueDay(y: int, m: int, day: int): int
    requires 1 <= m <= 12
  {
    if day > DaysIn(y, m) then DaysIn(y, m) else if day < 1 then 1 else day
  }

  /** The dates of a window, by frequency: the due day of each month, the 15th and
      the last of each month, every seventh or fourteenth day from the first, the
      anniversaries, or the one date; never before the first. */
  lemma DatesAre(rule: Rule, from: IsoDate, through: IsoDate, date: IsoDate)
    requires Occurrences(rule, from, through).Success?
    ensures date in Occurrences(rule, from, through).value <==>
              && Day(from) <= Day(date) <= Day(through) && Day(rule.anchor) <= Day(date)
              && match rule.frequency
                 case Monthly => rule.dayOfMonth.Some? && date.d == DueDay(date.y, date.m, rule.dayOfMonth.value)
                 case Semimonthly => date.d == 15 || date.d == DaysIn(date.y, date.m)
                 case Weekly => (Day(date) - Day(rule.anchor)) % 7 == 0
                 case Biweekly => (Day(date) - Day(rule.anchor)) % 14 == 0
                 case Annual => date.m == rule.anchor.m && date.d == DueDay(date.y, date.m, rule.anchor.d)
                 case OneTime => date == rule.anchor
  {
    if Day(from) <= Day(through) { OccurrencesAreExact(rule, from, through, OccurrencesIn(rule, from, through)); }
    hide Day, OccurrencesIn, Computable;
  }
}
