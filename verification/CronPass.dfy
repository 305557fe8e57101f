/** One cron delivery: each integration's schedule is prepared and, when due,
    its sync is run. */
module CronPass {
  import opened Wrappers
  import opened Text
  import opened DateText
  import opened Operations
  import opened SyncLogSafety
  import opened Scheduler

  const SLUGS := ["tmo", "monarch"]

  /** Times at least one day into the calendar, so that slots are printable. */
  type CronTime = t: Millis | -62167132800000 <= t witness 0

  /** `cadence` is None when the stored text names no cadence. */
  datatype Integration = Integration(
    cadence: Option<SyncCadence>, nextScheduledAt: Option<string>, updatedAt: string)

  datatype Preparation = NotConfigured | OnlyManual | Due(scheduledFor: string, nextScheduledAt: string)

  datatype SchedulerError = InvalidCadence | Refused(error: OperationError) | Storage

  /** What a due sync answers, and the control row it leaves behind. */
  datatype Execution = Execution(status: int, needsRetry: bool, control: Control)

  datatype Outcome =
    | CadenceInvalid | Unconfigured | ByHand
    | Ran(scheduledFor: string, nextScheduledAt: string, execution: Execution)

  datatype Entry = Entry(slug: string, outcome: Outcome)

  datatype Response = Unavailable(code: string) | Report(status: int, entries: seq<Entry>, retryAfter: bool)

  function StatusOf(e: Entry): int {
    match e.outcome
    case CadenceInvalid => 409
    case Unconfigured => 200
    case ByHand => 200
    case Ran(_, _, execution) => execution.status
  }

  lemma SlotBrackets(cadence: SyncCadence, now: CronTime)
    requires cadence != OnDemand
    ensures var slot := SlotSeconds(cadence, now / 1000);
            && Printable(slot) && slot * 1000 <= now < (slot + Period(cadence)) * 1000
            && MostRecentSlot(cadence, now / 1000) == Some(slot)
            && (NextSlot(cadence, now / 1000).Some? <==> Printable(slot + Period(cadence)))
  {
    SlotIsTheLastBefore(cadence, now / 1000, SlotSeconds(cadence, now / 1000));
    hide SlotSeconds;
  }

  function CurrentText(cadence: SyncCadence, now: CronTime): string
    requires cadence != OnDemand
  {
    SlotBrackets(cadence, now);
    SlotText(SlotSeconds(cadence, now / 1000))
  }

  /** None for manual synchronization, and where the next slot is past the last
      year. */
  function NextText(cadence: SyncCadence, now: CronTime): Option<string> {
    if cadence == OnDemand then None
    else
      SlotBrackets(cadence, now);
      match NextSlot(cadence, now / 1000)
      case None => None
      case Some(next) => Some(SlotText(next))
  }

  /** As texts, the slot is at or before the time of delivery and the next slot
      after it: what the covering query compares. */
  lemma DueTextsBracketNow(cadence: SyncCadence, now: CronTime)
    requires cadence != OnDemand && NextText(cadence, now).Some?
    ensures !TextLess(FormatUtcMillis(now), CurrentText(cadence, now))
    ensures TextLess(FormatUtcMillis(now), NextText(cadence, now).value)
  {
    hide *;
    SlotBrackets(cadence, now);
    TextsAre(cadence, now);
    var slot := SlotSeconds(cadence, now / 1000);
    TimestampTextOrder(now, slot * 1000);
    TimestampTextOrder(now, (slot + Period(cadence)) * 1000);
  }

  lemma TextsAre(cadence: SyncCadence, now: CronTime)
    requires cadence != OnDemand && NextText(cadence, now).Some?
    ensures var slot := SlotSeconds(cadence, now / 1000);
            && -62167219200000 <= slot * 1000 && (slot + Period(cadence)) * 1000 < 253402300800000
            && CurrentText(cadence, now) == FormatUtcMillis(slot * 1000)
            && NextText(cadence, now).value == FormatUtcMillis((slot + Period(cadence)) * 1000)
  {
    hide FormatUtcMillis, SlotSeconds, Period;
    SlotBrackets(cadence, now);
  }

  /** What preparing makes of the row of an integration, and what it reports. */
  function Prepared(row: Integration, now: CronTime): (r: (Integration, Result<Preparation, SchedulerError>))
    ensures r.1 != Success(NotConfigured) && (r.1.Failure? ==> !r.1.error.Refused?)
  {
    match row.cadence
    case None =>
      (Noted(row, None, now), Failure(InvalidCadence))
    case Some(cadence) =>
      var next := NextText(cadence, now);
      (Noted(row, next, now),
       if cadence == OnDemand then Success(OnlyManual)
       else if next.None? then Failure(Storage)
       else Success(Due(CurrentText(cadence, now), next.value)))
  }

  /** The row's time moves only when its next slot does. */
  function Noted(row: Integration, next: Option<string>, now: CronTime): Integration {
    row.(nextScheduledAt := next,
         updatedAt := if row.nextScheduledAt == next then row.updatedAt else FormatUtcMillis(now))
  }

  /** A second delivery before the next slot prepares the same slot and leaves
      the row, its time included, as it is. */
  lemma RedeliveryPreparesTheSame(row: Integration, now: CronTime, later: CronTime)
    requires now <= later && row.cadence.Some? && row.cadence.value != OnDemand
    requires NextSlot(row.cadence.value, now / 1000).Some?
    requires later / 1000 < NextSlot(row.cadence.value, now / 1000).value
    ensures Prepared(Prepared(row, now).0, later) == Prepared(row, now)
  {
    var cadence := row.cadence.value;
    SameSlotUntilNext(cadence, now, later);
    SameTexts(cadence, now, later);
    hide CurrentText, NextText, FormatUtcMillis;
  }

  lemma SameSlotUntilNext(cadence: SyncCadence, now: CronTime, later: CronTime)
    requires cadence != OnDemand && now <= later && NextSlot(cadence, now / 1000).Some?
    requires later / 1000 < NextSlot(cadence, now / 1000).value
    ensures SlotSeconds(cadence, later / 1000) == SlotSeconds(cadence, now / 1000)
  {
    var slot := SlotSeconds(cadence, now / 1000);
    SlotIsTheLastBefore(cadence, now / 1000, slot);
    SlotIsTheLastBefore(cadence, later / 1000, slot);
    hide SlotSeconds, IsSlot, Period;
  }

  lemma SameTexts(cadence: SyncCadence, now: CronTime, later: CronTime)
    requires cadence != OnDemand && SlotSeconds(cadence, later / 1000) == SlotSeconds(cadence, now / 1000)
    ensures CurrentText(cadence, later) == CurrentText(cadence, now)
    ensures NextText(cadence, later) == NextText(cadence, now)
  {
    hide FormatUtcMillis, SlotSeconds, Period;
  }

  // ---- the attempts of cron ----

  /** What a delivery finds due is the slot of its time. */
  lemma DueIsDelivered(row: Integration, now: CronTime, slug: string, slot: string, next: string, startedAt: string)
    requires Prepared(row, now).1 == Success(Due(slot, next))
    ensures row.cadence.Some? && row.cadence.value != OnDemand
    ensures DeliveredAt(Scheduled(slug, slot, startedAt), row.cadence.value, now / 1000)
  {
    SlotBrackets(row.cadence.value, now);
    hide SlotSeconds, NextText, FormatUtcMillis;
  }

  /** Some delivery between `a` and `b` found the slot due. */
  ghost predicate FoundDue(slot: string, cadence: SyncCadence, a: CronTime, b: CronTime) {
    exists row: Integration, now: CronTime, next: string ::
      row.cadence == Some(cadence) && a <= now <= b && Prepared(row, now).1 == Success(Due(slot, next))
  }

  /** The connection's scheduled claims are those of cron, whatever its row says
      besides the cadence; any other statement may come between. */
  ghost predicate FromCron(ops: seq<Op>, slug: string, cadence: SyncCadence, a: CronTime, b: CronTime) {
    forall k :: 0 <= k < |ops| && ops[k].Scheduled? && ops[k].slug == slug ==> FoundDue(ops[k].slot, cadence, a, b)
  }

  lemma SecondsAreOrdered(a: int, b: int)
    requires a <= b
    ensures a / 1000 <= b / 1000
  {
  }

  lemma FoundDueIsDelivered(op: Op, cadence: SyncCadence, a: CronTime, b: CronTime)
    requires cadence != OnDemand && op.Scheduled? && FoundDue(op.slot, cadence, a, b)
    ensures exists now :: a / 1000 <= now <= b / 1000 && DeliveredAt(op, cadence, now)
  {
    hide Prepared, DeliveredAt;
    var row: Integration, now: CronTime, next: string :|
      row.cadence == Some(cadence) && a <= now <= b && Prepared(row, now).1 == Success(Due(op.slot, next));
    DueIsDelivered(row, now, op.slug, op.slot, next, op.startedAt);
    SecondsAreOrdered(a, now);
    SecondsAreOrdered(now, b);
    assert DeliveredAt(op, cadence, now / 1000);
  }

  /** However often cron is delivered between two times, it adds at most three
      claims for each slot of that time, to a log with any history. */
  lemma CronAttemptsAreBounded(
    log: Log, ops: seq<Op>, slug: string, cadence: SyncCadence, a: CronTime, b: CronTime)
    requires LogOk(log) && cadence != OnDemand && a <= b && FromCron(ops, slug, cadence, a, b)
    ensures |log.runs| <= |Run(log, ops).runs|
    ensures ScheduledRows(Run(log, ops).runs[|log.runs|..], slug)
            <= MAX_SCHEDULED_ATTEMPTS * SlotCount(cadence, a / 1000, b / 1000)
  {
    hide LogOk, Run, ScheduledRows, SlotCount, FoundDue, DeliveredAt, SlotSeconds, Period;
    SlotBrackets(cadence, a);
    SlotBrackets(cadence, b);
    SecondsAreOrdered(a, b);
    forall k | 0 <= k < |ops| && ops[k].Scheduled? && ops[k].slug == slug
      ensures exists now :: a / 1000 <= now <= b / 1000 && DeliveredAt(ops[k], cadence, now)
    {
      FoundDueIsDelivered(ops[k], cadence, a, b);
    }
    AttemptsAreBounded(log, ops, slug, cadence, a / 1000, b / 1000);
  }

  class CronService {
    var control: Control
    var integrations: map<string, Integration>

    constructor (control: Control, integrations: map<string, Integration>)
      ensures this.control == control && this.integrations == integrations
    {
      this.control, this.integrations := control, integrations;
    }

    /** The next slot is recorded in one transaction with the scheduler check,
        before an unknown or manual cadence is reported. */
    method PrepareSchedule(slug: string, now: CronTime) returns (r: Result<Preparation, SchedulerError>)
      modifies this`integrations
      ensures control.mode != Enabled ==> r == Failure(Refused(IsReadOnly)) && integrations == old(integrations)
      ensures control.mode == Enabled && !control.schedulerEnabled ==>
                r == Failure(Refused(SchedulerDisabled)) && integrations == old(integrations)
      ensures control.mode == Enabled && control.schedulerEnabled && slug !in old(integrations) ==>
                r == Success(NotConfigured) && integrations == old(integrations)
      ensures control.mode == Enabled && control.schedulerEnabled && slug in old(integrations) ==>
                var (row, result) := Prepared(old(integrations)[slug], now);
                r == result && integrations == old(integrations)[slug := row]
    {
      hide FormatUtcMillis, SlotSeconds;
      if control.mode != Enabled { return Failure(Refused(IsReadOnly)); }
      if !control.schedulerEnabled { return Failure(Refused(SchedulerDisabled)); }
      if slug !in integrations { return Success(NotConfigured); }
      var row := integrations[slug];
      var next := if row.cadence.Some? then NextText(row.cadence.value, now) else None;
      var updatedAt := if row.nextScheduledAt == next then row.updatedAt else FormatUtcMillis(now);
      integrations := integrations[slug := row.(nextScheduledAt := next, updatedAt := updatedAt)];
      if row.cadence.None? { return Failure(InvalidCadence); }
      if row.cadence.value == OnDemand { return Success(OnlyManual); }
      if next.None? { return Failure(Storage); }
      r := Success(Due(CurrentText(row.cadence.value, now), next.value));
    }

    /** One integration's turn: prepared, run when due, and reported. */
    method RunTurn(
      slug: string, now: CronTime, execute: (string, string) -> Execution)
      returns (r: Result<Entry, string>)
      modifies this
      ensures match TurnStop(old(control), old(integrations), slug, now)
              case Some(code) =>
                && r == Failure(code) && control == old(control)
                && integrations == if code == NO_SLOT then Noticed(old(integrations), slug, now) else old(integrations)
              case None =>
                && r.Success? && EntryFits(r.value, slug, old(integrations), now, execute)
                && control == ControlAfter(old(control), old(integrations), slug, now, execute)
                && integrations == Noticed(old(integrations), slug, now)
    {
      hide Prepared, FormatUtcMillis;
      var preparation := PrepareSchedule(slug, now);
      var outcome: Outcome;
      match preparation {
        case Failure(Refused(e)) =>
          return Failure(if e == IsReadOnly then "read_only" else if e == SchedulerDisabled then "scheduler_disabled"
                         else NO_SLOT);
        case Failure(Storage) => return Failure(NO_SLOT);
        case Failure(InvalidCadence) => outcome := CadenceInvalid;
        case Success(NotConfigured) => outcome := Unconfigured;
        case Success(OnlyManual) => outcome := ByHand;
        case Success(Due(slot, next)) =>
          var execution := execute(slug, slot);
          control := execution.control;
          outcome := Ran(slot, next, execution);
      }
      r := Success(Entry(slug, outcome));
    }

    /** One delivery.  It ends early exactly at the first integration where the
        scheduler is off by then or a slot cannot be computed; otherwise every
        integration gets its entry, one integration's failure never skips
        another, the status is the worst one and a retry is asked for as soon as
        one sync asks for it.  The rows prepared stay prepared either way. */
    method RunCronAt(now: CronTime, execute: (string, string) -> Execution) returns (response: Response)
      modifies this
      ensures response.Report? <==>
                forall k :: 0 <= k < |SLUGS| ==> StopAt(old(control), old(integrations), now, execute, k).None?
      ensures response.Report? ==>
                && integrations == PreparedRows(old(integrations), now, |SLUGS|)
                && control == ControlBefore(old(control), old(integrations), now, execute, |SLUGS|)
                && |response.entries| == |SLUGS|
                && (forall k :: 0 <= k < |SLUGS| ==>
                      && EntryFits(response.entries[k], SLUGS[k], old(integrations), now, execute)
                      && StatusOf(response.entries[k]) <= response.status)
                && (response.status == 200
                    || exists k :: 0 <= k < |SLUGS| && StatusOf(response.entries[k]) == response.status)
                && (response.retryAfter <==> exists k :: 0 <= k < |SLUGS| && WantsRetry(response.entries[k]))
      ensures response.Unavailable? ==>
                exists k :: 0 <= k < |SLUGS|
                  && StoppedAt(old(control), old(integrations), now, execute, k, integrations, response.code)
    {
      hide Prepared, TurnStop, ControlAfter, Noticed, EntryFits;
      var entries: seq<Entry> := [];
      var worst, retryAfter := 200, false;
      ghost var control0, rows0 := control, integrations;
      for k := 0 to |SLUGS|
        invariant |entries| == k && worst >= 200
        invariant forall j :: 0 <= j < k ==> EntryFits(entries[j], SLUGS[j], rows0, now, execute)
        invariant forall j :: 0 <= j < k ==> StatusOf(entries[j]) <= worst
        invariant worst == 200 || exists j :: 0 <= j < k && StatusOf(entries[j]) == worst
        invariant retryAfter <==> exists j :: 0 <= j < k && WantsRetry(entries[j])
        invariant integrations == PreparedRows(rows0, now, k)
        invariant control == ControlBefore(control0, rows0, now, execute, k)
        invariant forall j :: 0 <= j < k ==> StopAt(control0, rows0, now, execute, j).None?
      {
        TurnSeesItsRow(control, rows0, now, execute, k);
        var r := RunTurn(SLUGS[k], now, execute);
        if r.Failure? {
          assert StoppedAt(control0, rows0, now, execute, k, integrations, r.error);
          return Unavailable(r.error);
        }
        assert StopAt(control0, rows0, now, execute, k).None?;
        entries := entries + [r.value];
        worst := if StatusOf(r.value) > worst then StatusOf(r.value) else worst;
        retryAfter := retryAfter || WantsRetry(r.value);
      }
      response := Report(worst, entries, retryAfter);
    }
  }

  const NO_SLOT := "service_unavailable"

  /** Why an integration's turn ends the pass, if it does. */
  function TurnStop(
    control: Control, integrations: map<string, Integration>, slug: string, now: CronTime): Option<string> {
    if control.mode != Enabled then Some("read_only")
    else if !control.schedulerEnabled then Some("scheduler_disabled")
    else if slug in integrations && Prepared(integrations[slug], now).1 == Failure(Storage) then Some(NO_SLOT)
    else None
  }

  /** The control row after a turn: a sync that ran may have left another. */
  function ControlAfter(
    control: Control, integrations: map<string, Integration>, slug: string, now: CronTime,
    execute: (string, string) -> Execution): Control
  {
    if slug in integrations && Prepared(integrations[slug], now).1.Success?
       && Prepared(integrations[slug], now).1.value.Due?
    then execute(slug, Prepared(integrations[slug], now).1.value.scheduledFor).control
    else control
  }

  /** The rows after a turn: the integration's own row is prepared. */
  function Noticed(integrations: map<string, Integration>, slug: string, now: CronTime): map<string, Integration> {
    if slug in integrations then integrations[slug := Prepared(integrations[slug], now).0] else integrations
  }

  function ControlBefore(
    control: Control, integrations: map<string, Integration>, now: CronTime,
    execute: (string, string) -> Execution, k: nat): Control
    requires k <= |SLUGS|
  {
    if k == 0 then control
    else
      var before := ControlBefore(control, integrations, now, execute, k - 1);
      ControlAfter(before, integrations, SLUGS[k - 1], now, execute)
  }

  /** The rows of the first `n` integrations prepared. */
  function PreparedRows(integrations: map<string, Integration>, now: CronTime, n: nat): map<string, Integration>
    requires n <= |SLUGS|
  {
    if n == 0 then integrations else Noticed(PreparedRows(integrations, now, n - 1), SLUGS[n - 1], now)
  }

  /** Why the pass would stop at the `k`th integration, if it got there. */
  function StopAt(
    control: Control, integrations: map<string, Integration>, now: CronTime,
    execute: (string, string) -> Execution, k: nat): Option<string>
    requires k < |SLUGS|
  {
    TurnStop(ControlBefore(control, integrations, now, execute, k), integrations, SLUGS[k], now)
  }

  /** The pass stopped at the `k`th integration, not before, with this code; the
      rows before it are prepared, and its own if only the slot was missing. */
  ghost predicate StoppedAt(
    control: Control, integrations: map<string, Integration>, now: CronTime,
    execute: (string, string) -> Execution, k: nat, rows: map<string, Integration>, code: string)
    requires k < |SLUGS|
  {
    && StopAt(control, integrations, now, execute, k) == Some(code)
    && (forall j :: 0 <= j < k ==> StopAt(control, integrations, now, execute, j).None?)
    && rows == PreparedRows(integrations, now, if code == NO_SLOT then k + 1 else k)
  }

  /** Turns do not touch each other's rows: an integration meets its own row as
      it was before the pass. */
  lemma TurnSeesItsRow(
    turn: Control, integrations: map<string, Integration>, now: CronTime, execute: (string, string) -> Execution,
    k: nat)
    requires k < |SLUGS|
    ensures var rows, slug := PreparedRows(integrations, now, k), SLUGS[k];
            && SameAt(rows, integrations, slug)
            && TurnStop(turn, rows, slug, now) == TurnStop(turn, integrations, slug, now)
            && ControlAfter(turn, rows, slug, now, execute) == ControlAfter(turn, integrations, slug, now, execute)
            && forall e :: EntryFits(e, slug, rows, now, execute) <==> EntryFits(e, slug, integrations, now, execute)
  {
    hide Prepared;
    if k == 1 {
      assert "tmo"[0] != "monarch"[0];
      assert PreparedRows(integrations, now, 0) == integrations;
    }
  }

  ghost predicate SameAt(a: map<string, Integration>, b: map<string, Integration>, slug: string) {
    (slug in a <==> slug in b) && (slug in a ==> a[slug] == b[slug])
  }

  predicate WantsRetry(e: Entry) { e.outcome.Ran? && e.outcome.execution.needsRetry }

  /** The entry says what the integration's row, as it was, called for. */
  ghost predicate EntryFits(
    e: Entry, slug: string, integrations: map<string, Integration>, now: CronTime,
    execute: (string, string) -> Execution)
  {
    e.slug == slug &&
    match e.outcome
    case Unconfigured => slug !in integrations
    case CadenceInvalid => slug in integrations && Prepared(integrations[slug], now).1 == Failure(InvalidCadence)
    case ByHand => slug in integrations && Prepared(integrations[slug], now).1 == Success(OnlyManual)
    case Ran(slot, next, execution) =>
      slug in integrations && Prepared(integrations[slug], now).1 == Success(Due(slot, next))
      && execution == execute(slug, slot)
  }

  // ---- what a delivery shows ----

  /** Seconds from one slot to the next. */
  predicate IsGap(cadence: SyncCadence, gap: int) {
    match cadence
    case Hourly => gap == 3600
    case Every6h => gap == 6 * 3600
    case Every12h => gap == 12 * 3600
    case Daily => gap == 24 * 3600
    case OnDemand => false
  }

  /** Preparing a row: an unknown cadence is reported and a manual one noted, both
      without a next slot; otherwise the slot of this time is due and the next
      one is noted, unless that lies beyond the last year.  The row's time is that
      of the last change. */
  lemma PreparingShows(row: Integration, now: CronTime, gap: int)
    requires row.cadence.Some? && row.cadence.value != OnDemand ==> IsGap(row.cadence.value, gap)
    ensures var (row', r) := Prepared(row, now);
            && row'.cadence == row.cadence
            && row'.updatedAt == (if row'.nextScheduledAt == row.nextScheduledAt then row.updatedAt
                                  else FormatUtcMillis(now))
            && (row.cadence.None? ==> row'.nextScheduledAt == None && r == Failure(InvalidCadence))
            && (row.cadence == Some(OnDemand) ==> row'.nextScheduledAt == None && r == Success(OnlyManual))
            && (row.cadence.Some? && row.cadence.value != OnDemand ==>
                  var slot := SlotSeconds(row.cadence.value, now / 1000);
                  if slot + gap < 253402300800 then
                    && Printable(slot) && Printable(slot + gap)
                    && row'.nextScheduledAt == Some(SlotText(slot + gap))
                    && r == Success(Due(SlotText(slot), SlotText(slot + gap)))
                  else row'.nextScheduledAt == None && r == Failure(Storage))
  {
    hide SlotSeconds, FormatUtcMillis, Period, CurrentText, NextText, Printable, SlotText;
    if row.cadence.Some? && row.cadence.value != OnDemand { DueTextsAre(row.cadence.value, now, gap); }
    if row.cadence == Some(OnDemand) { NoneByHand(now); }
  }

  lemma NoneByHand(now: CronTime)
    ensures NextText(OnDemand, now) == None
  {
  }

  lemma DueTextsAre(cadence: SyncCadence, now: CronTime, gap: int)
    requires cadence != OnDemand && IsGap(cadence, gap)
    ensures var slot := SlotSeconds(cadence, now / 1000);
            && Printable(slot) && CurrentText(cadence, now) == SlotText(slot)
            && (Printable(slot + gap) <==> slot + gap < 253402300800)
            && NextText(cadence, now) == (if Printable(slot + gap) then Some(SlotText(slot + gap)) else None)
  {
    hide SlotSeconds, FormatUtcMillis;
    GapIsPeriod(cadence, gap);
    SlotBrackets(cadence, now);
    hide Period;
  }

  lemma GapIsPeriod(cadence: SyncCadence, gap: int)
    requires IsGap(cadence, gap)
    ensures Period(cadence) == gap
  {
  }

  /** Two integrations, in this order. */
  lemma IntegrationsAre()
    ensures SLUGS == ["tmo", "monarch"]
  {
  }

  /** An unknown cadence counts as a conflict, no connection and manual
      synchronization as fine, and a sync as it answered. */
  lemma StatusesAre(e: Entry)
    ensures e.outcome == CadenceInvalid ==> StatusOf(e) == 409
    ensures e.outcome == Unconfigured || e.outcome == ByHand ==> StatusOf(e) == 200
    ensures e.outcome.Ran? ==>
              StatusOf(e) == e.outcome.execution.status && (WantsRetry(e) <==> e.outcome.execution.needsRetry)
    ensures !e.outcome.Ran? ==> !WantsRetry(e)
  {
  }

  /** With which code a turn ends the pass. */
  lemma StopsAre(control: Control, integrations: map<string, Integration>, slug: string, now: CronTime)
    ensures control.mode == ReadOnly ==> TurnStop(control, integrations, slug, now) == Some("read_only")
    ensures control.mode == Enabled && !control.schedulerEnabled ==>
              TurnStop(control, integrations, slug, now) == Some("scheduler_disabled")
    ensures control.mode == Enabled && control.schedulerEnabled && slug !in integrations ==>
              TurnStop(control, integrations, slug, now) == None
    ensures control.mode == Enabled && control.schedulerEnabled && slug in integrations
            && Prepared(integrations[slug], now).1 == Failure(Storage) ==>
              TurnStop(control, integrations, slug, now) == Some("service_unavailable")
  {
    hide Prepared;
  }
}
