/** The durable sync log and the operation-control row, and every statement on
    them.  Log rows are never deleted: the run with id `i` is entry `i - 1`.
    Timestamps are stored text, compared as text. */
module Operations {
  import opened Wrappers
  import opened Text
  import opened DateText

  const MAX_SCHEDULED_ATTEMPTS := 3
  const STALE_EXECUTION_MESSAGE := "execution owner expired before recording completion"

  datatype Mode = ReadOnly | Enabled

  datatype Control = Control(mode: Mode, schedulerEnabled: bool, updatedAt: string)

  datatype Status = Running | Succeeded | Errored

  datatype Completion = Completion(endpointsHit: Option<string>, events: int, loans: int, snapshots: int)

  const NOTHING_YET := Completion(None, 0, 0, 0)

  datatype SyncRun = SyncRun(
    slug: string, slot: Option<string>, startedAt: string, finishedAt: Option<string>,
    status: Status, message: Option<string>, completion: Completion)

  datatype Log = Log(runs: seq<SyncRun>, control: Control, slugs: set<string>)

  datatype OperationError = Validation | IsReadOnly | SchedulerDisabled | ConnectionNotFound | Coordination

  /** The run that was claimed, or the run that explains the refusal. */
  datatype ClaimOutcome =
    | Claimed(id: int) | AlreadyRunning(id: int) | AlreadyScheduled(id: int) | CoveredBySuccess(id: int)

  predicate NonEmpty(s: string) { Trim(s) != "" }

  // ---- queries ----

  predicate HasRun(runs: seq<SyncRun>, id: int) { 1 <= id <= |runs| }

  predicate IsRunning(run: SyncRun, slug: string) { run.slug == slug && run.status == Running }

  predicate InSlot(run: SyncRun, slug: string, slot: string) { run.slug == slug && run.slot == Some(slot) }

  /** The rows the slot's unique index covers. */
  predicate IsLive(run: SyncRun, slug: string, slot: string) { InSlot(run, slug, slot) && run.status != Errored }

  predicate Covers(run: SyncRun, slug: string, slot: string) {
    run.slug == slug && run.status == Succeeded && !TextLess(run.startedAt, slot)
  }

  /** Of the runs picked, the one that started last, the later id on a tie; 0 if
      there is none. */
  function LastStarted(runs: seq<SyncRun>, pick: SyncRun -> bool): (id: int)
    ensures 0 <= id <= |runs|
    ensures id > 0 ==> pick(runs[id - 1])
    ensures id == 0 ==> forall i :: 0 <= i < |runs| ==> !pick(runs[i])
  {
    if runs == [] then 0
    else
      var last := runs[|runs| - 1];
      var before := LastStarted(runs[..|runs| - 1], pick);
      if pick(last) && (before == 0 || !TextLess(last.startedAt, runs[before - 1].startedAt)) then |runs| else before
  }

  function CurrentRun(runs: seq<SyncRun>, slug: string): (id: int)
    ensures 0 <= id <= |runs|
    ensures id > 0 ==> IsRunning(runs[id - 1], slug)
    ensures id == 0 ==> forall i :: 0 <= i < |runs| ==> !IsRunning(runs[i], slug)
  {
    LastStarted(runs, run => IsRunning(run, slug))
  }

  function CoveringRun(runs: seq<SyncRun>, slug: string, slot: string): (id: int)
    ensures 0 <= id <= |runs|
    ensures id > 0 ==> Covers(runs[id - 1], slug, slot)
    ensures id == 0 ==> forall i :: 0 <= i < |runs| ==> !Covers(runs[i], slug, slot)
  {
    LastStarted(runs, run => Covers(run, slug, slot))
  }

  /** The slot's newest row, or 0. */
  function SlotRun(runs: seq<SyncRun>, slug: string, slot: string): (id: int)
    ensures 0 <= id <= |runs|
    ensures id > 0 ==> InSlot(runs[id - 1], slug, slot)
    ensures forall i :: id <= i < |runs| ==> !InSlot(runs[i], slug, slot)
  {
    if runs == [] then 0
    else if InSlot(runs[|runs| - 1], slug, slot) then |runs|
    else SlotRun(runs[..|runs| - 1], slug, slot)
  }

  function SlotErrors(runs: seq<SyncRun>, slug: string, slot: string): nat {
    if runs == [] then 0
    else SlotErrors(runs[..|runs| - 1], slug, slot)
         + if InSlot(runs[|runs| - 1], slug, slot) && runs[|runs| - 1].status == Errored then 1 else 0
  }

  predicate SomeRunning(runs: seq<SyncRun>, slug: string) {
    exists i :: 0 <= i < |runs| && IsRunning(runs[i], slug)
  }

  predicate SomeLive(runs: seq<SyncRun>, slug: string, slot: string) {
    exists i :: 0 <= i < |runs| && IsLive(runs[i], slug, slot)
  }

  predicate SomeCovers(runs: seq<SyncRun>, slug: string, slot: string) {
    exists i :: 0 <= i < |runs| && Covers(runs[i], slug, slot)
  }

  // ---- operation control ----

  function SetControl(log: Log, mode: Mode, schedulerEnabled: bool, at: string): Result<Log, OperationError> {
    if !IsCanonicalTimestamp(at) || (mode == ReadOnly && schedulerEnabled) then Failure(Validation)
    else Success(log.(control := Control(mode, schedulerEnabled, at)))
  }

  function SetSchedulerEnabled(log: Log, enabled: bool, at: string): Result<Log, OperationError> {
    if !IsCanonicalTimestamp(at) then Failure(Validation)
    else if !enabled || log.control.mode == Enabled then
      Success(log.(control := Control(log.control.mode, enabled, at)))
    else if enabled && log.control.mode == ReadOnly then Failure(IsReadOnly)
    else Failure(Coordination)
  }

  // ---- claims ----

  function NewRun(slug: string, slot: Option<string>, startedAt: string): SyncRun {
    SyncRun(slug, slot, startedAt, None, Running, None, NOTHING_YET)
  }

  /** INSERT .. ON CONFLICT DO NOTHING, under the two unique indexes. */
  predicate IndexesAllow(runs: seq<SyncRun>, slug: string, slot: Option<string>) {
    !SomeRunning(runs, slug) && (slot.Some? ==> !SomeLive(runs, slug, slot.value))
  }

  function Inserted(log: Log, slug: string, slot: Option<string>, startedAt: string): (Log, ClaimOutcome) {
    (log.(runs := log.runs + [NewRun(slug, slot, startedAt)]), Claimed(|log.runs| + 1))
  }

  function ClaimManual(log: Log, slug: string, startedAt: string): Result<(Log, ClaimOutcome), OperationError> {
    if !NonEmpty(slug) || !IsCanonicalTimestamp(startedAt) then Failure(Validation)
    else if log.control.mode == Enabled && slug in log.slugs && IndexesAllow(log.runs, slug, None) then
      Success(Inserted(log, slug, None, startedAt))
    else if log.control.mode != Enabled then Failure(IsReadOnly)
    else if slug !in log.slugs then Failure(ConnectionNotFound)
    else
      var current := CurrentRun(log.runs, slug);
      if current > 0 then Success((log, AlreadyRunning(current))) else Failure(Coordination)
  }

  predicate MayInsertScheduled(log: Log, slug: string, slot: string) {
    && log.control.mode == Enabled && log.control.schedulerEnabled && slug in log.slugs
    && !SomeCovers(log.runs, slug, slot) && SlotErrors(log.runs, slug, slot) < MAX_SCHEDULED_ATTEMPTS
    && IndexesAllow(log.runs, slug, Some(slot))
  }

  /** A live run explains a refusal before the slot's history does. */
  function ExplainScheduled(log: Log, slug: string, slot: string): Result<ClaimOutcome, OperationError> {
    var current := CurrentRun(log.runs, slug);
    var covering := CoveringRun(log.runs, slug, slot);
    var existing := SlotRun(log.runs, slug, slot);
    if current > 0 then
      Success(if log.runs[current - 1].slot == Some(slot) then AlreadyScheduled(current) else AlreadyRunning(current))
    else if covering > 0 then Success(CoveredBySuccess(covering))
    else if existing > 0 then Success(AlreadyScheduled(existing))
    else Failure(Coordination)
  }

  function ClaimScheduled(log: Log, slug: string, slot: string, startedAt: string)
    : Result<(Log, ClaimOutcome), OperationError>
  {
    if !NonEmpty(slug) || !IsCanonicalTimestamp(slot) || !IsCanonicalTimestamp(startedAt) then Failure(Validation)
    else if MayInsertScheduled(log, slug, slot) then Success(Inserted(log, slug, Some(slot), startedAt))
    else if log.control.mode != Enabled then Failure(IsReadOnly)
    else if !log.control.schedulerEnabled then Failure(SchedulerDisabled)
    else if slug !in log.slugs then Failure(ConnectionNotFound)
    else
      match ExplainScheduled(log, slug, slot)
      case Success(outcome) => Success((log, outcome))
      case Failure(e) => Failure(e)
  }

  // ---- transitions of running rows ----

  predicate IsStale(run: SyncRun, slug: string, cutoff: string) {
    run.status == Running && TextLess(run.startedAt, cutoff) && run.slug == slug
  }

  function Interrupted(run: SyncRun, finishedAt: string): SyncRun {
    run.(status := Errored, finishedAt := Some(finishedAt), message := Some(STALE_EXECUTION_MESSAGE))
  }

  function InterruptAll(runs: seq<SyncRun>, slug: string, finishedAt: string, cutoff: string): (r: seq<SyncRun>)
    ensures |r| == |runs|
    ensures forall i :: 0 <= i < |r| ==>
              r[i] == if IsStale(runs[i], slug, cutoff) then Interrupted(runs[i], finishedAt) else runs[i]
  {
    seq(|runs|, i requires 0 <= i < |runs| =>
      if IsStale(runs[i], slug, cutoff) then Interrupted(runs[i], finishedAt) else runs[i])
  }

  function InterruptStale(log: Log, slug: string, finishedAt: string, cutoff: string): Result<Log, OperationError> {
    if !NonEmpty(slug) || !IsCanonicalTimestamp(finishedAt) || !IsCanonicalTimestamp(cutoff) then Failure(Validation)
    else if log.control.mode != Enabled then Failure(IsReadOnly)
    else Success(log.(runs := InterruptAll(log.runs, slug, finishedAt, cutoff)))
  }

  predicate CanFinish(runs: seq<SyncRun>, id: int) { HasRun(runs, id) && runs[id - 1].status == Running }

  function CompleteSuccess(log: Log, id: int, finishedAt: string, completion: Completion): Result<Log, OperationError> {
    if id <= 0 || !IsCanonicalTimestamp(finishedAt) then Failure(Validation)
    else if completion.events < 0 || completion.loans < 0 || completion.snapshots < 0 then Failure(Validation)
    else if CanFinish(log.runs, id) then
      Success(log.(runs := log.runs[id - 1 := log.runs[id - 1].(
        status := Succeeded, finishedAt := Some(finishedAt), message := None, completion := completion)]))
    else Failure(Coordination)
  }

  function CompleteError(log: Log, id: int, finishedAt: string, message: string): Result<Log, OperationError> {
    if id <= 0 || !IsCanonicalTimestamp(finishedAt) || !NonEmpty(message) then Failure(Validation)
    else if CanFinish(log.runs, id) then
      Success(log.(runs := log.runs[id - 1 := log.runs[id - 1].(
        status := Errored, finishedAt := Some(finishedAt), message := Some(message))]))
    else Failure(Coordination)
  }
}
