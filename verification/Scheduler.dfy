/** Deterministic sync slots, and the cron pass over the integrations. */
module Scheduler {
  import opened Wrappers
  import opened Text
  import opened Calendar
  import opened DateText
  import opened Operations
  import opened SyncLogSafety

  datatype SyncCadence = Hourly | Every6h | Every12h | Daily | OnDemand

  /** The cadence's period in seconds; 0 for manual synchronization. */
  function Period(cadence: SyncCadence): (p: nat)
    ensures p > 0 <==> cadence != OnDemand
  {
    match cadence
    case Hourly => 3600
    case Every6h => 21600
    case Every12h => 43200
    case Daily => 86400
    case OnDemand => 0
  }

  function Offset(cadence: SyncCadence): nat { if cadence == Daily then 21600 else 0 }

  // Unix seconds of the first and last representable instant.
  const MIN_SECONDS := -377705116800
  const MAX_SECONDS := 253402300799

  predicate Representable(seconds: int) { MIN_SECONDS <= seconds <= MAX_SECONDS }

  /** Rounding down: `/` with a positive divisor is the source's `div_euclid`. */
  function Floor(x: int, p: nat): int
    requires p > 0
  {
    x / p * p
  }

  function SlotSeconds(cadence: SyncCadence, now: int): int
    requires cadence != OnDemand
  {
    Floor(now - Offset(cadence), Period(cadence)) + Offset(cadence)
  }

  function MostRecentSlot(cadence: SyncCadence, now: int): Option<int> {
    if cadence == OnDemand then None
    else if Representable(SlotSeconds(cadence, now)) then Some(SlotSeconds(cadence, now))
    else None
  }

  function NextSlot(cadence: SyncCadence, now: int): Option<int> {
    match MostRecentSlot(cadence, now)
    case None => None
    case Some(slot) => if Representable(slot + Period(cadence)) then Some(slot + Period(cadence)) else None
  }

  // ---- slots ----

  predicate IsSlot(cadence: SyncCadence, t: int)
    requires cadence != OnDemand
  {
    (t - Offset(cadence)) % Period(cadence) == 0
  }

  lemma MultipleBounds(d: int, p: int)
    requires p > 0
    ensures d >= 1 ==> d * p >= p
    ensures d <= -1 ==> d * p <= -p
  {
    assert d >= 1 ==> (d - 1) * p >= 0;
    assert d <= -1 ==> (d + 1) * p <= 0;
  }

  lemma QuotientIsUnique(x: int, q: int, p: int)
    requires p > 0 && q * p <= x < q * p + p
    ensures x / p == q
  {
    assert x == x / p * p + x % p;
    assert (x / p - q) * p == x / p * p - q * p;
    MultipleBounds(x / p - q, p);
  }

  lemma MultipleHasNoRest(k: int, p: int)
    requires p > 0
    ensures k * p % p == 0
  {
    QuotientIsUnique(k * p, k, p);
  }

  /** Rounding down to a multiple, for every sign. */
  lemma FloorIsUnique(x: int, y: int, p: nat)
    requires p > 0
    ensures y == Floor(x, p) <==> y % p == 0 && y <= x < y + p
  {
    assert x == x / p * p + x % p;
    MultipleHasNoRest(x / p, p);
    if y % p == 0 && y <= x < y + p {
      assert y == y / p * p;
      QuotientIsUnique(x, y / p, p);
    }
  }

  lemma FloorsDiffer(x: int, x': int, p: nat)
    requires p > 0
    ensures (Floor(x', p) - Floor(x, p)) % p == 0
  {
    assert x' / p * p - x / p * p == (x' / p - x / p) * p;
    MultipleHasNoRest(x' / p - x / p, p);
  }

  lemma FloorIsMonotone(x: int, x': int, p: nat)
    requires p > 0 && x <= x'
    ensures Floor(x, p) <= Floor(x', p)
  {
    FloorIsUnique(x, Floor(x, p), p);
    FloorIsUnique(x', Floor(x', p), p);
    assert x' / p * p - x / p * p == (x' / p - x / p) * p;
    MultipleBounds(x' / p - x / p, p);
  }

  /** The slot is the only one in the last period: at or before `now`, whatever
      its sign, and the next one is after it. */
  lemma SlotIsTheLastBefore(cadence: SyncCadence, now: int, t: int)
    requires cadence != OnDemand
    ensures t == SlotSeconds(cadence, now) <==> IsSlot(cadence, t) && t <= now < t + Period(cadence)
  {
    hide Offset, Period, Floor;
    FloorIsUnique(now - Offset(cadence), t - Offset(cadence), Period(cadence));
  }

  /** The gap is a whole number of periods. */
  predicate WholePeriods(cadence: SyncCadence, gap: int)
    requires cadence != OnDemand
  {
    gap % Period(cadence) == 0
  }

  lemma SlotsAreIdempotentAndMonotone(cadence: SyncCadence, now: int, later: int)
    requires cadence != OnDemand
    ensures SlotSeconds(cadence, SlotSeconds(cadence, now)) == SlotSeconds(cadence, now)
    ensures now <= later ==> SlotSeconds(cadence, now) <= SlotSeconds(cadence, later)
    ensures WholePeriods(cadence, SlotSeconds(cadence, later) - SlotSeconds(cadence, now))
  {
    hide Offset, Period, Floor;
    var s := SlotSeconds(cadence, now);
    assert SlotSeconds(cadence, s) == s by {
      SlotIsTheLastBefore(cadence, now, s);
      SlotIsTheLastBefore(cadence, s, s);
    }
    FloorsDiffer(now - Offset(cadence), later - Offset(cadence), Period(cadence));
    if now <= later { FloorIsMonotone(now - Offset(cadence), later - Offset(cadence), Period(cadence)); }
  }

  /** A representable `now` has a slot unless it lies in the first period of
      representable time, and then a next slot unless in the last. */
  lemma SlotsExist(cadence: SyncCadence, now: int)
    requires cadence != OnDemand && Representable(now)
    ensures MostRecentSlot(cadence, now).Some? <==> SlotSeconds(cadence, now) >= MIN_SECONDS
    ensures NextSlot(cadence, now).Some? ==>
              MostRecentSlot(cadence, now).Some?
              && NextSlot(cadence, now).value == MostRecentSlot(cadence, now).value + Period(cadence)
              && MostRecentSlot(cadence, now).value <= now < NextSlot(cadence, now).value
  {
    SlotIsTheLastBefore(cadence, now, SlotSeconds(cadence, now));
  }

  // ---- the attempt bound ----

  /** Seconds whose UTC year lies in 0..9999, as the log's text needs. */
  predicate Printable(seconds: int) { -62167219200 <= seconds < 253402300800 }

  function SlotText(seconds: int): string
    requires Printable(seconds)
  {
    FormatUtcMillis(seconds * 1000)
  }

  predicate DeliveredAt(op: Op, cadence: SyncCadence, now: int)
    requires cadence != OnDemand && op.Scheduled?
  {
    Printable(SlotSeconds(cadence, now)) && op.slot == SlotText(SlotSeconds(cadence, now))
  }

  /** Every scheduled claim of the connection comes from a delivery at some time
      in [a, b] under the cadence; any other statement may come between. */
  ghost predicate FollowsCadence(ops: seq<Op>, slug: string, cadence: SyncCadence, a: int, b: int)
    requires cadence != OnDemand
  {
    forall k :: 0 <= k < |ops| && ops[k].Scheduled? && ops[k].slug == slug ==>
      exists now :: a <= now <= b && DeliveredAt(ops[k], cadence, now)
  }

  /** The texts of the slots from `first` to `last`. */
  function SlotTexts(cadence: SyncCadence, first: int, last: int): seq<string>
    requires cadence != OnDemand && -62167219200 <= first && last < 253402300800
    decreases last - first + Period(cadence)
  {
    if first > last then []
    else [SlotText(first)] + SlotTexts(cadence, first + Period(cadence), last)
  }

  lemma {:induction false} SlotTextsHas(cadence: SyncCadence, first: int, last: int, t: int)
    requires cadence != OnDemand && -62167219200 <= first && last < 253402300800
    requires first <= t <= last && WholePeriods(cadence, t - first)
    ensures SlotText(t) in SlotTexts(cadence, first, last)
    decreases last - first + Period(cadence)
  {
    hide FormatUtcMillis, WholePeriods, PeriodsIn;
    if t > first {
      SlotsAreApart(cadence, t - first);
      SlotTextsHas(cadence, first + Period(cadence), last, t);
    }
  }

  function PeriodsIn(cadence: SyncCadence, gap: int): int
    requires cadence != OnDemand
  {
    gap / Period(cadence)
  }

  lemma SlotsAreApart(cadence: SyncCadence, gap: int)
    requires cadence != OnDemand && gap > 0 && WholePeriods(cadence, gap)
    ensures gap >= Period(cadence) && WholePeriods(cadence, gap - Period(cadence))
    ensures PeriodsIn(cadence, gap) == PeriodsIn(cadence, gap - Period(cadence)) + 1
  {
    match cadence
    case Hourly =>
    case Every6h =>
    case Every12h =>
    case Daily =>
  }

  lemma NoPeriods(cadence: SyncCadence)
    requires cadence != OnDemand
    ensures PeriodsIn(cadence, 0) == 0
  {
  }

  lemma {:induction false} SlotTextsCount(cadence: SyncCadence, first: int, last: int)
    requires cadence != OnDemand && Printable(first) && Printable(last) && first <= last
    requires WholePeriods(cadence, last - first)
    ensures |SlotTexts(cadence, first, last)| == PeriodsIn(cadence, last - first) + 1
    decreases last - first
  {
    hide FormatUtcMillis, WholePeriods, PeriodsIn;
    if first < last {
      SlotsAreApart(cadence, last - first);
      SlotTextsCount(cadence, first + Period(cadence), last);
    } else {
      assert SlotTexts(cadence, first + Period(cadence), last) == [];
      assert PeriodsIn(cadence, 0) == 0 by { NoPeriods(cadence); }
    }
  }

  function ScheduledRows(runs: seq<SyncRun>, slug: string): nat {
    if runs == [] then 0
    else ScheduledRows(runs[..|runs| - 1], slug)
         + if runs[|runs| - 1].slug == slug && runs[|runs| - 1].slot.Some? then 1 else 0
  }

  function RowsInSlots(runs: seq<SyncRun>, slug: string, slots: seq<string>): nat {
    if slots == [] then 0 else SlotRows(runs, slug, slots[0]) + RowsInSlots(runs, slug, slots[1..])
  }

  lemma {:induction false} OneMoreRow(runs: seq<SyncRun>, slug: string, slots: seq<string>)
    requires runs != []
    ensures var last := runs[|runs| - 1];
            RowsInSlots(runs, slug, slots) >= RowsInSlots(runs[..|runs| - 1], slug, slots)
              + (if last.slug == slug && last.slot.Some? && last.slot.value in slots then 1 else 0)
  {
    if slots != [] { OneMoreRow(runs, slug, slots[1..]); }
  }

  ghost predicate AllInSlots(runs: seq<SyncRun>, slug: string, slots: seq<string>) {
    forall i :: 0 <= i < |runs| && runs[i].slug == slug && runs[i].slot.Some? ==> runs[i].slot.value in slots
  }

  /** The rows from `start` on are in the slots. */
  ghost predicate NewInSlots(runs: seq<SyncRun>, start: nat, slug: string, slots: seq<string>) {
    start <= |runs| &&
    forall i :: start <= i < |runs| && runs[i].slug == slug && runs[i].slot.Some? ==> runs[i].slot.value in slots
  }

  lemma {:induction false} RowsAreInSlots(runs: seq<SyncRun>, slug: string, slots: seq<string>)
    requires AllInSlots(runs, slug, slots)
    ensures ScheduledRows(runs, slug) <= RowsInSlots(runs, slug, slots)
  {
    if runs != [] {
      RowsAreInSlots(runs[..|runs| - 1], slug, slots);
      OneMoreRow(runs, slug, slots);
    }
  }

  lemma {:induction false} LaterRowsAreRows(runs: seq<SyncRun>, start: nat, slug: string, slot: string)
    requires start <= |runs|
    ensures SlotRows(runs[start..], slug, slot) <= SlotRows(runs, slug, slot)
  {
    if start < |runs| {
      var before := runs[..|runs| - 1];
      LaterRowsAreRows(before, start, slug, slot);
      assert runs[start..][..|runs| - start - 1] == before[start..];
    }
  }

  /** What a log without too many attempts can have added to the slots. */
  lemma {:induction false} SlotsCapRows(runs: seq<SyncRun>, start: nat, slug: string, slots: seq<string>)
    requires AttemptsCapped(runs) && start <= |runs|
    ensures RowsInSlots(runs[start..], slug, slots) <= MAX_SCHEDULED_ATTEMPTS * |slots|
  {
    if slots != [] {
      SlotsCapRows(runs, start, slug, slots[1..]);
      LaterRowsAreRows(runs, start, slug, slots[0]);
    }
  }

  lemma StepStaysInSlots(log: Log, op: Op, start: nat, slug: string, slots: seq<string>)
    requires NewInSlots(log.runs, start, slug, slots) && (op.Scheduled? && op.slug == slug ==> op.slot in slots)
    ensures NewInSlots(Step(log, op).runs, start, slug, slots)
  {
    hide ExplainScheduled, TextLess, IsCanonicalTimestamp, NonEmpty, SlotErrors, SomeCovers, CurrentRun;
    var runs' := Step(log, op).runs;
    forall i | start <= i < |runs'| && runs'[i].slug == slug && runs'[i].slot.Some?
      ensures runs'[i].slot.value in slots
    {
      if i < |log.runs| { assert runs'[i].slug == log.runs[i].slug && runs'[i].slot == log.runs[i].slot; }
    }
  }

  lemma {:induction false} RunStaysInSlots(log: Log, ops: seq<Op>, slug: string, slots: seq<string>)
    requires forall k :: 0 <= k < |ops| && ops[k].Scheduled? && ops[k].slug == slug ==> ops[k].slot in slots
    ensures NewInSlots(Run(log, ops).runs, |log.runs|, slug, slots)
  {
    if ops != [] {
      RunStaysInSlots(log, ops[..|ops| - 1], slug, slots);
      hide Step;
      StepStaysInSlots(Run(log, ops[..|ops| - 1]), ops[|ops| - 1], |log.runs|, slug, slots);
    }
  }

  lemma NewRowsAreInSlots(runs: seq<SyncRun>, start: nat, slug: string, slots: seq<string>)
    requires NewInSlots(runs, start, slug, slots)
    ensures AllInSlots(runs[start..], slug, slots)
  {
    var later := runs[start..];
    forall i | 0 <= i < |later| && later[i].slug == slug && later[i].slot.Some? ensures later[i].slot.value in slots {
      assert later[i] == runs[start + i];
    }
  }

  /** The number of slots from that of `a` to that of `b`. */
  function SlotCount(cadence: SyncCadence, a: int, b: int): int
    requires cadence != OnDemand
  {
    PeriodsIn(cadence, SlotSeconds(cadence, b) - SlotSeconds(cadence, a)) + 1
  }

  /** From any good log, whatever its history: however cron is delivered between
      `a` and `b`, and whatever else happens to the log meanwhile, at most three
      claims are added for each slot of that time. */
  lemma AttemptsAreBounded(log: Log, ops: seq<Op>, slug: string, cadence: SyncCadence, a: int, b: int)
    requires LogOk(log)
    requires cadence != OnDemand && a <= b && Printable(SlotSeconds(cadence, a)) && Printable(SlotSeconds(cadence, b))
    requires FollowsCadence(ops, slug, cadence, a, b)
    ensures |log.runs| <= |Run(log, ops).runs|
    ensures ScheduledRows(Run(log, ops).runs[|log.runs|..], slug)
            <= MAX_SCHEDULED_ATTEMPTS * SlotCount(cadence, a, b)
  {
    var slots := SlotTexts(cadence, SlotSeconds(cadence, a), SlotSeconds(cadence, b));
    hide *;
    SlotsBetween(cadence, a, b);
    DeliveriesAreInSlots(ops, slug, cadence, a, b);
    var runs := Run(log, ops).runs;
    CapOfRun(log, ops);
    RunStaysInSlots(log, ops, slug, slots);
    NewRowsAreInSlots(runs, |log.runs|, slug, slots);
    RowsAreInSlots(runs[|log.runs|..], slug, slots);
    SlotsCapRows(runs, |log.runs|, slug, slots);
  }

  lemma SlotsBetween(cadence: SyncCadence, a: int, b: int)
    requires cadence != OnDemand && a <= b && Printable(SlotSeconds(cadence, a)) && Printable(SlotSeconds(cadence, b))
    ensures |SlotTexts(cadence, SlotSeconds(cadence, a), SlotSeconds(cadence, b))| == SlotCount(cadence, a, b)
  {
    SlotsAreIdempotentAndMonotone(cadence, a, b);
    SlotTextsCount(cadence, SlotSeconds(cadence, a), SlotSeconds(cadence, b));
    hide SlotTexts, SlotSeconds, Period, PeriodsIn, WholePeriods;
  }

  lemma DeliveriesAreInSlots(ops: seq<Op>, slug: string, cadence: SyncCadence, a: int, b: int)
    requires cadence != OnDemand && a <= b && Printable(SlotSeconds(cadence, a)) && Printable(SlotSeconds(cadence, b))
    requires FollowsCadence(ops, slug, cadence, a, b)
    ensures forall k :: 0 <= k < |ops| && ops[k].Scheduled? && ops[k].slug == slug ==>
              ops[k].slot in SlotTexts(cadence, SlotSeconds(cadence, a), SlotSeconds(cadence, b))
  {
    hide SlotTexts, SlotSeconds, DeliveredAt, SlotText;
    forall k | 0 <= k < |ops| && ops[k].Scheduled? && ops[k].slug == slug
      ensures ops[k].slot in SlotTexts(cadence, SlotSeconds(cadence, a), SlotSeconds(cadence, b))
    {
      var now :| a <= now <= b && DeliveredAt(ops[k], cadence, now);
      DeliveryIsInSlots(ops[k], cadence, a, b, now);
    }
  }

  lemma CapOfRun(log: Log, ops: seq<Op>)
    requires LogOk(log)
    ensures |log.runs| <= |Run(log, ops).runs| && AttemptsCapped(Run(log, ops).runs)
  {
    RunKeeps(log, ops);
    hide Run;
  }

  lemma DeliveryIsInSlots(op: Op, cadence: SyncCadence, a: int, b: int, now: int)
    requires cadence != OnDemand && a <= b && Printable(SlotSeconds(cadence, a)) && Printable(SlotSeconds(cadence, b))
    requires a <= now <= b && op.Scheduled? && DeliveredAt(op, cadence, now)
    ensures op.slot in SlotTexts(cadence, SlotSeconds(cadence, a), SlotSeconds(cadence, b))
  {
    hide SlotSeconds, SlotText, SlotTexts, FormatUtcMillis, DeliveredAt, Period, WholePeriods;
    DeliveredSlot(op, cadence, now);
    SlotsAreIdempotentAndMonotone(cadence, a, now);
    SlotsAreIdempotentAndMonotone(cadence, now, b);
    SlotTextsHas(cadence, SlotSeconds(cadence, a), SlotSeconds(cadence, b), SlotSeconds(cadence, now));
  }

  lemma DeliveredSlot(op: Op, cadence: SyncCadence, now: int)
    requires cadence != OnDemand && op.Scheduled? && DeliveredAt(op, cadence, now)
    ensures Printable(SlotSeconds(cadence, now)) && op.slot == SlotText(SlotSeconds(cadence, now))
  {
    hide SlotSeconds, SlotText, Printable;
  }

  // ---- the hours of slots ----

  /** The times that can be represented: from the year -9999 to 9999. */
  lemma TimesAre(seconds: int)
    ensures Representable(seconds) <==> -377705116800 <= seconds < 253402300800
    ensures Printable(seconds) <==> -62167219200 <= seconds < 253402300800
  {
  }

  /** Slots are on the hour: every hour, at 0, 6, 12 and 18, at 0 and 12, or at
      6 o'clock UTC. */
  lemma SlotsAreAt(cadence: SyncCadence, t: int)
    requires cadence != OnDemand
    ensures SlotSeconds(cadence, t) == t <==>
              match cadence
              case Hourly => t % 3600 == 0
              case Every6h => t % 86400 in {0, 21600, 43200, 64800}
              case Every12h => t % 86400 in {0, 43200}
              case Daily => t % 86400 == 21600
  {
    SlotIsTheLastBefore(cadence, t, t);
    hide SlotSeconds;
    match cadence
    case Hourly =>
    case Every6h => QuarterDays(t);
    case Every12h => HalfDays(t);
    case Daily => SixOClock(t);
  }

  lemma QuarterDays(t: int)
    ensures t % 21600 == 0 <==> t % 86400 in {0, 21600, 43200, 64800}
  {
  }

  lemma HalfDays(t: int)
    ensures t % 43200 == 0 <==> t % 86400 in {0, 43200}
  {
  }

  lemma SixOClock(t: int)
    ensures (t - 21600) % 86400 == 0 <==> t % 86400 == 21600
  {
  }

  /** As text, a slot of a day is that day's date and one of those hours. */
  lemma SlotTextIs(cadence: SyncCadence, date: IsoDate, hour: nat)
    requires cadence != OnDemand && hour < 24
    ensures var t := (Day(date) - 719528) * 86400 + hour * 3600;
            && Printable(t)
            && SlotText(t) == PrintDate(date) + "T" + Clock(hour, 0, 0, 0) + "Z"
            && (SlotSeconds(cadence, t) == t <==>
                  match cadence
                  case Hourly => true
                  case Every6h => hour in {0, 6, 12, 18}
                  case Every12h => hour in {0, 12}
                  case Daily => hour == 6)
  {
    hide Day, FormatUtcMillis, SlotSeconds, PrintDate, Clock;
    var t := (Day(date) - 719528) * 86400 + hour * 3600;
    MomentText(date, hour, 0, 0, 0);
    assert t * 1000 == (Day(date) - 719528) * 86400000 + ((hour * 60 + 0) * 60 + 0) * 1000 + 0;
    SlotsAreAt(cadence, t);
    DayRest(Day(date) - 719528, hour);
  }

  lemma DayRest(days: int, hour: nat)
    requires hour < 24
    ensures (days * 86400 + hour * 3600) % 86400 == hour * 3600 && (days * 86400 + hour * 3600) % 3600 == 0
  {
  }
}
