/** What every reachable sync log satisfies, whatever order coordinators run
    their statements in. */
module SyncLogSafety {
  import opened Wrappers
  import opened Text
  import opened DateText
  import opened Operations

  // ---- runs of statements ----

  datatype Op =
    | ControlSet(mode: Mode, schedulerEnabled: bool, at: string)
    | SchedulerSet(enabled: bool, at: string)
    | Manual(slug: string, startedAt: string)
    | Scheduled(slug: string, slot: string, startedAt: string)
    | Interrupt(slug: string, finishedAt: string, cutoff: string)
    | Finish(id: int, finishedAt: string, completion: Completion)
    | FinishError(id: int, finishedAt: string, message: string)

  function Apply(log: Log, op: Op): Result<Log, OperationError> {
    match op
    case ControlSet(mode, schedulerEnabled, at) => SetControl(log, mode, schedulerEnabled, at)
    case SchedulerSet(enabled, at) => SetSchedulerEnabled(log, enabled, at)
    case Manual(slug, startedAt) => LogOf(ClaimManual(log, slug, startedAt))
    case Scheduled(slug, slot, startedAt) => LogOf(ClaimScheduled(log, slug, slot, startedAt))
    case Interrupt(slug, finishedAt, cutoff) => InterruptStale(log, slug, finishedAt, cutoff)
    case Finish(id, finishedAt, completion) => CompleteSuccess(log, id, finishedAt, completion)
    case FinishError(id, finishedAt, message) => CompleteError(log, id, finishedAt, message)
  }

  function LogOf(r: Result<(Log, ClaimOutcome), OperationError>): Result<Log, OperationError> {
    match r
    case Success((log, _)) => Success(log)
    case Failure(e) => Failure(e)
  }

  /** A refused statement changes nothing. */
  function Step(log: Log, op: Op): Log {
    match Apply(log, op) case Success(log') => log' case Failure(_) => log
  }

  function Run(log: Log, ops: seq<Op>): Log {
    if ops == [] then log else Step(Run(log, ops[..|ops| - 1]), ops[|ops| - 1])
  }

  /** A new database: read-only, nothing run yet. */
  function Fresh(slugs: set<string>): Log { Log([], Control(ReadOnly, false, ""), slugs) }

  // ---- the invariant ----

  function SlotRows(runs: seq<SyncRun>, slug: string, slot: string): nat {
    if runs == [] then 0
    else SlotRows(runs[..|runs| - 1], slug, slot) + if InSlot(runs[|runs| - 1], slug, slot) then 1 else 0
  }

  ghost predicate OneRunning(runs: seq<SyncRun>) {
    forall i, j :: 0 <= i < j < |runs| && runs[i].slug == runs[j].slug ==>
      !(runs[i].status == Running && runs[j].status == Running)
  }

  /** Within a slot only the newest row can be running or a success. */
  ghost predicate LiveRowIsNewest(runs: seq<SyncRun>) {
    forall i, j :: 0 <= i < j < |runs| && runs[i].slug == runs[j].slug && runs[i].slot == runs[j].slot
                   && runs[i].slot.Some? ==>
      runs[i].status == Errored
  }

  ghost predicate AttemptsCapped(runs: seq<SyncRun>) {
    forall slug, slot :: SlotRows(runs, slug, slot) <= MAX_SCHEDULED_ATTEMPTS
  }

  predicate FinishedIffNotRunning(run: SyncRun) { run.status == Running <==> run.finishedAt.None? }

  ghost predicate LogOk(log: Log) {
    && OneRunning(log.runs) && LiveRowIsNewest(log.runs) && AttemptsCapped(log.runs)
    && (forall i :: 0 <= i < |log.runs| ==> FinishedIffNotRunning(log.runs[i]))
    && (log.control.mode == ReadOnly ==> !log.control.schedulerEnabled)
  }

  /** A row keeps its identity, and a terminal row everything. */
  predicate RunKept(run: SyncRun, run': SyncRun) {
    && run'.slug == run.slug && run'.slot == run.slot && run'.startedAt == run.startedAt
    && (run.status != Running ==> run' == run)
  }

  ghost predicate RunsKept(runs: seq<SyncRun>, runs': seq<SyncRun>) {
    |runs| <= |runs'| && forall i :: 0 <= i < |runs| ==> RunKept(runs[i], runs'[i])
  }

  // ---- counting rows ----

  lemma {:induction false} ErrorsAreRows(runs: seq<SyncRun>, slug: string, slot: string)
    ensures SlotErrors(runs, slug, slot) <= SlotRows(runs, slug, slot)
    ensures !SomeLive(runs, slug, slot) ==> SlotErrors(runs, slug, slot) == SlotRows(runs, slug, slot)
  {
    if runs != [] {
      var before := runs[..|runs| - 1];
      ErrorsAreRows(before, slug, slot);
      if !SomeLive(runs, slug, slot) {
        assert !IsLive(runs[|runs| - 1], slug, slot);
        forall i | 0 <= i < |before| ensures !IsLive(before[i], slug, slot) { assert before[i] == runs[i]; }
      }
    }
  }

  /** The count sees only slug and slot. */
  lemma {:induction false} SlotRowsSame(runs: seq<SyncRun>, runs': seq<SyncRun>, slug: string, slot: string)
    requires |runs| == |runs'|
    requires forall i :: 0 <= i < |runs| ==> runs'[i].slug == runs[i].slug && runs'[i].slot == runs[i].slot
    ensures SlotRows(runs', slug, slot) == SlotRows(runs, slug, slot)
  {
    if runs != [] { SlotRowsSame(runs[..|runs| - 1], runs'[..|runs| - 1], slug, slot); }
  }

  lemma SlotRowsAppend(runs: seq<SyncRun>, run: SyncRun, slug: string, slot: string)
    ensures SlotRows(runs + [run], slug, slot)
            == SlotRows(runs, slug, slot) + if InSlot(run, slug, slot) then 1 else 0
  {
    assert (runs + [run])[..|runs|] == runs;
  }

  // ---- each statement keeps the invariant ----

  /** Some running rows end; nothing else changes. */
  lemma EndingKeeps(log: Log, log': Log)
    requires LogOk(log) && log'.control == log.control && |log'.runs| == |log.runs|
    requires forall i :: 0 <= i < |log.runs| ==>
               RunKept(log.runs[i], log'.runs[i]) && FinishedIffNotRunning(log'.runs[i])
               && (log'.runs[i].status == Running ==> log.runs[i].status == Running)
    ensures LogOk(log') && RunsKept(log.runs, log'.runs)
  {
    forall slug, slot | true ensures SlotRows(log'.runs, slug, slot) <= MAX_SCHEDULED_ATTEMPTS {
      SlotRowsSame(log.runs, log'.runs, slug, slot);
    }
  }

  lemma InsertingKeeps(log: Log, slug: string, slot: Option<string>, startedAt: string)
    requires LogOk(log) && IndexesAllow(log.runs, slug, slot)
    requires slot.Some? ==> SlotErrors(log.runs, slug, slot.value) < MAX_SCHEDULED_ATTEMPTS
    ensures var (log', _) := Inserted(log, slug, slot, startedAt); LogOk(log') && RunsKept(log.runs, log'.runs)
  {
    var (log', _) := Inserted(log, slug, slot, startedAt);
    forall slug', slot' | true ensures SlotRows(log'.runs, slug', slot') <= MAX_SCHEDULED_ATTEMPTS {
      SlotRowsAppend(log.runs, NewRun(slug, slot, startedAt), slug', slot');
      if slot.Some? { ErrorsAreRows(log.runs, slug, slot.value); }
    }
    forall i, j | 0 <= i < j < |log'.runs| && log'.runs[i].slug == log'.runs[j].slug
      ensures !(log'.runs[i].status == Running && log'.runs[j].status == Running)
    { if j == |log.runs| { assert !IsRunning(log.runs[i], slug); } }
    forall i, j | 0 <= i < j < |log'.runs| && log'.runs[i].slug == log'.runs[j].slug
                  && log'.runs[i].slot == log'.runs[j].slot && log'.runs[i].slot.Some?
      ensures log'.runs[i].status == Errored
    { if j == |log.runs| { assert !IsLive(log.runs[i], slug, slot.value); } }
  }

  lemma StepKeeps(log: Log, op: Op)
    requires LogOk(log)
    ensures LogOk(Step(log, op)) && RunsKept(log.runs, Step(log, op).runs) && Step(log, op).slugs == log.slugs
  {
    hide ExplainScheduled, TextLess, IsCanonicalTimestamp, NonEmpty, AttemptsCapped, SlotErrors, SomeCovers,
         OneRunning, LiveRowIsNewest;
    var log' := Step(log, op);
    if log'.runs != log.runs {
      match op
      case Manual(slug, startedAt) => InsertingKeeps(log, slug, None, startedAt);
      case Scheduled(slug, slot, startedAt) => InsertingKeeps(log, slug, Some(slot), startedAt);
      case Interrupt(_, _, _) => EndingKeeps(log, log');
      case Finish(_, _, _) => EndingKeeps(log, log');
      case FinishError(_, _, _) => EndingKeeps(log, log');
      case ControlSet(_, _, _) =>
      case SchedulerSet(_, _) =>
    }
  }

  lemma RunsKeptComposes(a: seq<SyncRun>, b: seq<SyncRun>, c: seq<SyncRun>)
    requires RunsKept(a, b) && RunsKept(b, c)
    ensures RunsKept(a, c)
  {
    forall i | 0 <= i < |a| ensures RunKept(a[i], c[i]) { assert RunKept(a[i], b[i]) && RunKept(b[i], c[i]); }
  }

  /** From any good log, any statements in any order: the log stays good, and no
      row that has ended ever changes. */
  lemma {:induction false} RunKeeps(log: Log, ops: seq<Op>)
    requires LogOk(log)
    ensures LogOk(Run(log, ops)) && RunsKept(log.runs, Run(log, ops).runs) && Run(log, ops).slugs == log.slugs
  {
    if ops != [] {
      var before := Run(log, ops[..|ops| - 1]);
      RunKeeps(log, ops[..|ops| - 1]);
      StepKeeps(before, ops[|ops| - 1]);
      hide Step, LogOk, RunsKept;
      RunsKeptComposes(log.runs, before.runs, Run(log, ops).runs);
    }
  }

  lemma FreshIsOk(slugs: set<string>)
    ensures LogOk(Fresh(slugs))
  {
  }

  // ---- the promises ----

  /** In every reachable log: one running row a connection, one running or
      successful row a slot, at most three rows a slot, and a read-only
      database never schedules. */
  lemma ReachableLogs(slugs: set<string>, ops: seq<Op>)
    ensures var log := Run(Fresh(slugs), ops);
            && (forall i, j :: 0 <= i < j < |log.runs| && log.runs[i].slug == log.runs[j].slug ==>
                  log.runs[i].status != Running || log.runs[j].status != Running)
            && (forall i, j, slot :: 0 <= i < j < |log.runs| && InSlot(log.runs[i], log.runs[j].slug, slot)
                                     && InSlot(log.runs[j], log.runs[i].slug, slot) ==>
                  log.runs[i].status == Errored || log.runs[j].status == Errored)
            && (forall slug, slot :: SlotRows(log.runs, slug, slot) <= MAX_SCHEDULED_ATTEMPTS)
            && (log.control.mode == ReadOnly ==> !log.control.schedulerEnabled)
  {
    FreshIsOk(slugs);
    RunKeeps(Fresh(slugs), ops);
    hide Run;
  }

  /** A claim is inserted exactly when nothing stands against it; otherwise the
      log stays as it is and the outcome names a row that explains why. */
  lemma ScheduledClaimIsExplained(log: Log, slug: string, slot: string, startedAt: string)
    requires NonEmpty(slug) && IsCanonicalTimestamp(slot) && IsCanonicalTimestamp(startedAt)
    requires log.control == Control(Enabled, true, log.control.updatedAt) && slug in log.slugs
    ensures ClaimScheduled(log, slug, slot, startedAt).Success?
    ensures var (log', outcome) := ClaimScheduled(log, slug, slot, startedAt).value;
            match outcome
            case Claimed(id) =>
              && id == |log'.runs| && log' == log.(runs := log.runs + [NewRun(slug, Some(slot), startedAt)])
              && !SomeRunning(log.runs, slug) && !SomeLive(log.runs, slug, slot) && !SomeCovers(log.runs, slug, slot)
              && SlotErrors(log.runs, slug, slot) < MAX_SCHEDULED_ATTEMPTS
            case AlreadyRunning(id) =>
              log' == log && HasRun(log.runs, id) && IsRunning(log.runs[id - 1], slug)
              && log.runs[id - 1].slot != Some(slot)
            case CoveredBySuccess(id) =>
              log' == log && HasRun(log.runs, id) && Covers(log.runs[id - 1], slug, slot)
              && !SomeRunning(log.runs, slug)
            case AlreadyScheduled(id) =>
              log' == log && HasRun(log.runs, id) && InSlot(log.runs[id - 1], slug, slot)
  {
    hide TextLess, IsCanonicalTimestamp, NonEmpty;
    if !MayInsertScheduled(log, slug, slot) { RefusalHasACause(log, slug, slot); }
  }

  lemma NoRowsNoErrors(runs: seq<SyncRun>, slug: string, slot: string)
    requires forall i :: 0 <= i < |runs| ==> !InSlot(runs[i], slug, slot)
    ensures SlotErrors(runs, slug, slot) == 0
  {
  }

  lemma RefusalHasACause(log: Log, slug: string, slot: string)
    requires log.control.mode == Enabled && log.control.schedulerEnabled && slug in log.slugs
    requires !MayInsertScheduled(log, slug, slot)
    ensures CurrentRun(log.runs, slug) > 0 || CoveringRun(log.runs, slug, slot) > 0 || SlotRun(log.runs, slug, slot) > 0
  {
    hide TextLess, Covers;
    if SlotRun(log.runs, slug, slot) == 0 { NoRowsNoErrors(log.runs, slug, slot); }
  }

  /** A manual claim is inserted exactly when no run of the connection is going. */
  lemma ManualClaimIsExplained(log: Log, slug: string, startedAt: string)
    requires NonEmpty(slug) && IsCanonicalTimestamp(startedAt) && log.control.mode == Enabled && slug in log.slugs
    ensures ClaimManual(log, slug, startedAt).Success?
    ensures var (log', outcome) := ClaimManual(log, slug, startedAt).value;
            && (outcome.Claimed? <==> !SomeRunning(log.runs, slug))
            && (outcome.Claimed? ==>
                  outcome.id == |log'.runs| && log'.runs == log.runs + [NewRun(slug, None, startedAt)])
            && (!outcome.Claimed? ==> log' == log && outcome.AlreadyRunning? && HasRun(log.runs, outcome.id)
                                      && IsRunning(log.runs[outcome.id - 1], slug))
  {
    hide TextLess, IsCanonicalTimestamp, NonEmpty;
  }

  /** Neither claim, nor a control change, ever reports a coordination error. */
  lemma NoCoordinationErrors(log: Log, slug: string, slot: string, at: string, enabled: bool, mode: Mode)
    ensures ClaimManual(log, slug, at) != Failure(Coordination)
    ensures ClaimScheduled(log, slug, slot, at) != Failure(Coordination)
    ensures SetSchedulerEnabled(log, enabled, at) != Failure(Coordination)
  {
    hide TextLess, IsCanonicalTimestamp, NonEmpty;
    if log.control.mode == Enabled && log.control.schedulerEnabled && slug in log.slugs
       && !MayInsertScheduled(log, slug, slot) {
      RefusalHasACause(log, slug, slot);
    }
  }

  /** A slot refused with an error row has failed exactly three times. */
  lemma ErrorRowMeansExhausted(slugs: set<string>, ops: seq<Op>, slug: string, slot: string, startedAt: string)
    requires var r := ClaimScheduled(Run(Fresh(slugs), ops), slug, slot, startedAt);
             r.Success? && r.value.1.AlreadyScheduled?
    ensures var log := Run(Fresh(slugs), ops);
            var id := ClaimScheduled(log, slug, slot, startedAt).value.1.id;
            HasRun(log.runs, id) && (log.runs[id - 1].status == Errored ==>
              SlotErrors(log.runs, slug, slot) == MAX_SCHEDULED_ATTEMPTS
              && SlotRows(log.runs, slug, slot) == MAX_SCHEDULED_ATTEMPTS)
  {
    FreshIsOk(slugs);
    RunKeeps(Fresh(slugs), ops);
    var log := Run(Fresh(slugs), ops);
    hide Run, IsCanonicalTimestamp, NonEmpty, SlotErrors, SlotRows, LastStarted;
    var id := ClaimScheduled(log, slug, slot, startedAt).value.1.id;
    if log.runs[id - 1].status == Errored {
      assert id == SlotRun(log.runs, slug, slot);
      forall i | 0 <= i < |log.runs| ensures !IsLive(log.runs[i], slug, slot) {
        if InSlot(log.runs[i], slug, slot) && i < id - 1 { assert log.runs[i].slug == log.runs[id - 1].slug; }
      }
      ErrorsAreRows(log.runs, slug, slot);
      assert SlotRows(log.runs, slug, slot) <= MAX_SCHEDULED_ATTEMPTS;
    }
  }

  // ---- the order of the queries ----

  lemma {:induction false} TextOrderIsLinear(a: string, b: string, c: string)
    ensures TextLess(a, b) || a == b || TextLess(b, a)
    ensures TextLess(a, b) && TextLess(b, c) ==> TextLess(a, c)
  {
    if a != [] && b != [] {
      TextOrderIsLinear(a[1..], b[1..], if c == [] then [] else c[1..]);
      assert a == [a[0]] + a[1..] && b == [b[0]] + b[1..];
    }
  }

  /** The run found is the one that started last; of several, the newest. */
  lemma {:induction false} LastStartedIsLast(runs: seq<SyncRun>, pick: SyncRun -> bool, i: nat)
    requires i < |runs| && pick(runs[i])
    ensures var id := LastStarted(runs, pick);
            id > 0 && (TextLess(runs[i].startedAt, runs[id - 1].startedAt)
                       || (runs[i].startedAt == runs[id - 1].startedAt && i <= id - 1))
  {
    var last, rest := |runs| - 1, runs[..|runs| - 1];
    var before := LastStarted(rest, pick);
    if i < last { LastStartedIsLast(rest, pick, i); }
    if before > 0 {
      TextOrderIsLinear(runs[last].startedAt, runs[before - 1].startedAt, runs[i].startedAt);
      TextOrderIsLinear(runs[i].startedAt, runs[before - 1].startedAt, runs[last].startedAt);
    }
  }
}
