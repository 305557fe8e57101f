/** Monarch balance syncs: every owner interrupts stale runs, claims a run, asks
    the provider, and then publishes the balance and ends its run in a single
    transaction.  Owners interleave and may stop anywhere. */
module MonarchSync {
  import opened Wrappers
  import opened DateText
  import opened Operations
  import opened SyncLogSafety

  const MONARCH := "monarch"
  const STALE_AFTER := 1200000 // twenty minutes in milliseconds
  const MAX_METADATA_BYTES := 16384

  /** Clock times whose stale cutoff can still be written. */
  type Clock = t: Millis | -62167218000000 <= t witness 0

  /** A validated answer of the provider; the sizes are those of the two JSON
      texts that describe it. */
  datatype Capture = Capture(
    accountId: string, adjusted: int, updatedAt: string, metadataBytes: nat, sourceBytes: nat)

  datatype Account = Account(
    balance: int, asOf: string, sourceRef: string, balanceUpdatedAt: string, updatedAt: string)

  datatype Connection = Connection(
    active: bool, lastSyncedAt: Option<string>, lastError: Option<string>, updatedAt: string)

  /** The rows that a sync publishes to. */
  datatype Anchor = Anchor(
    primary: Option<Account>, currentCash: Option<(int, string)>, balanceSource: Option<(Capture, string, string)>,
    connection: Connection)

  // ---- the two closing transactions ----

  /** apply_monarch_balance: a missing primary account is created. */
  function ApplyBalance(anchor: Anchor, capture: Capture, asOf: string, at: string): Option<Anchor> {
    if capture.metadataBytes > MAX_METADATA_BYTES || capture.sourceBytes > MAX_METADATA_BYTES then None
    else Some(Anchor(
      Some(Account(capture.adjusted, asOf, capture.accountId, capture.updatedAt, at)),
      Some((capture.adjusted, at)), Some((capture, asOf, at)), Connection(true, Some(at), None, at)))
  }

  const COMPLETION := Completion(Some("account,pendingTransactions"), 0, 0, 0)

  /** Balance and completion commit together or not at all. */
  function Persist(
    log: Log, anchor: Anchor, run: int, capture: Capture, asOf: string, at: string): Option<(Log, Anchor)> {
    match ApplyBalance(anchor, capture, asOf, at)
    case None => None
    case Some(anchor') =>
      match CompleteSuccess(log, run, at, COMPLETION)
      case Failure(_) => None
      case Success(log') => Some((log', anchor'))
  }

  function RecordFailure(log: Log, anchor: Anchor, run: int, message: string, at: string): Option<(Log, Anchor)> {
    match CompleteError(log, run, at, message)
    case Failure(_) => None
    case Success(log') =>
      var connection := anchor.connection.(active := false, lastError := Some(message), updatedAt := at);
      Some((log', anchor.(connection := connection)))
  }

  // ---- owners ----

  datatype Pc =
    | Interrupting | Claiming
    | Capturing(run: int)
    | Persisting(run: int, capture: Capture)
    | Failing(run: int, message: string)
    | Stopped

  datatype Owner = Owner(startedAt: Clock, slot: Option<string>, asOf: string, pc: Pc)

  datatype Action =
    | Begin(slot: Option<string>, asOf: string)
    | InterruptOld(i: nat)
    | Claim(i: nat)
    | Answer(i: nat, capture: Option<Capture>, message: string)
    | Publish(i: nat, answered: bool, message: string) // an unanswered commit may still have happened
    | Report(i: nat)
    | Die(i: nat)
    | Tick(millis: nat)
    | Foreign(op: Op)           // other connections' runs, and operation control
    | Elsewhere(anchor: Anchor) // a user edits the cash anchor

  /** `applied` is a record of the committed balances, with their runs. */
  datatype World = World(
    log: Log, anchor: Anchor, owners: seq<Owner>, clock: Clock, applied: seq<(int, Capture)>)

  predicate IsForeign(log: Log, op: Op) {
    match op
    case ControlSet(_, _, _) => true
    case SchedulerSet(_, _) => true
    case Manual(slug, _) => slug != MONARCH
    case Scheduled(slug, _, _) => slug != MONARCH
    case Interrupt(slug, _, _) => slug != MONARCH
    case Finish(id, _, _) => HasRun(log.runs, id) && log.runs[id - 1].slug != MONARCH
    case FinishError(id, _, _) => HasRun(log.runs, id) && log.runs[id - 1].slug != MONARCH
  }

  function At(w: World, i: nat, pc: Pc): World
    requires i < |w.owners|
  {
    w.(owners := w.owners[i := w.owners[i].(pc := pc)])
  }

  function ClaimFor(log: Log, o: Owner): Result<(Log, ClaimOutcome), OperationError> {
    match o.slot
    case None => ClaimManual(log, MONARCH, FormatUtcMillis(o.startedAt))
    case Some(slot) => ClaimScheduled(log, MONARCH, slot, FormatUtcMillis(o.startedAt))
  }

  function InterruptOldBy(w: World, i: nat): World
    requires i < |w.owners|
  {
    var o := w.owners[i];
    match InterruptStale(w.log, MONARCH, FormatUtcMillis(o.startedAt), FormatUtcMillis(o.startedAt - STALE_AFTER))
    case Success(log) => At(w, i, Claiming).(log := log)
    case Failure(_) => At(w, i, Stopped)
  }

  function ClaimBy(w: World, i: nat): World
    requires i < |w.owners|
  {
    match ClaimFor(w.log, w.owners[i])
    case Success((log, outcome)) => At(w, i, if outcome.Claimed? then Capturing(outcome.id) else Stopped).(log := log)
    case Failure(_) => At(w, i, Stopped)
  }

  function PublishBy(w: World, i: nat, answered: bool, message: string): World
    requires i < |w.owners| && w.owners[i].pc.Persisting?
  {
    var o := w.owners[i];
    match Persist(w.log, w.anchor, o.pc.run, o.pc.capture, o.asOf, FormatUtcMillis(w.clock))
    case None => At(w, i, Failing(o.pc.run, message))
    case Some((log, anchor)) =>
      At(w, i, if answered then Stopped else Failing(o.pc.run, message))
        .(log := log, anchor := anchor, applied := w.applied + [(o.pc.run, o.pc.capture)])
  }

  function ReportBy(w: World, i: nat): World
    requires i < |w.owners| && w.owners[i].pc.Failing?
  {
    var o := w.owners[i];
    match RecordFailure(w.log, w.anchor, o.pc.run, o.pc.message, FormatUtcMillis(w.clock))
    case None => At(w, i, Stopped)
    case Some((log, anchor)) => At(w, i, Stopped).(log := log, anchor := anchor)
  }

  /** One action of anyone; an action that is not possible changes nothing. */
  function Next(w: World, a: Action): World {
    match a
    case Begin(slot, asOf) => w.(owners := w.owners + [Owner(w.clock, slot, asOf, Interrupting)])
    case InterruptOld(i) => if i < |w.owners| && w.owners[i].pc == Interrupting then InterruptOldBy(w, i) else w
    case Claim(i) => if i < |w.owners| && w.owners[i].pc == Claiming then ClaimBy(w, i) else w
    case Answer(i, capture, message) =>
      if i < |w.owners| && w.owners[i].pc.Capturing? then
        At(w, i, if capture.Some? then Persisting(w.owners[i].pc.run, capture.value)
                 else Failing(w.owners[i].pc.run, message))
      else w
    case Publish(i, answered, message) =>
      if i < |w.owners| && w.owners[i].pc.Persisting? then PublishBy(w, i, answered, message) else w
    case Report(i) => if i < |w.owners| && w.owners[i].pc.Failing? then ReportBy(w, i) else w
    case Die(i) => if i < |w.owners| then At(w, i, Stopped) else w
    case Tick(millis) => if w.clock + millis < 253402300800000 then w.(clock := w.clock + millis) else w
    case Foreign(op) => if IsForeign(w.log, op) then w.(log := Step(w.log, op)) else w
    case Elsewhere(anchor) => w.(anchor := anchor)
  }

  function Runs(w: World, actions: seq<Action>): World {
    if actions == [] then w else Next(Runs(w, actions[..|actions| - 1]), actions[|actions| - 1])
  }

  function Start(slugs: set<string>, anchor: Anchor, clock: Clock): World {
    World(Fresh(slugs), anchor, [], clock, [])
  }

  predicate Holds(o: Owner) { o.pc.Capturing? || o.pc.Persisting? || o.pc.Failing? }
}
