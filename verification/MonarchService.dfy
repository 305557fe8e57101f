/** The service that runs one Monarch sync, statement by statement. */
module MonarchService {
  import opened Wrappers
  import opened DateText
  import opened Operations
  import opened OperationStore
  import opened MonarchSync

  datatype Execution =
    | Completed(run: int) | Failed(run: int)
    | RefusedBy(id: int)          // a run that is going, or has gone, explains why
    | Error(error: OperationError)

  class MonarchBalanceService {
    const operations: OperationRepository
    var anchor: Anchor

    constructor (operations: OperationRepository, anchor: Anchor)
      ensures this.operations == operations && this.anchor == anchor
    {
      this.operations, this.anchor := operations, anchor;
    }

    /** Balance first, completion second; if the run is over, both roll back. */
    method FinishSuccess(run: int, capture: Capture, asOf: string, at: string) returns (ok: bool)
      modifies this, operations
      ensures match Persist(old(operations.Snapshot()), old(anchor), run, capture, asOf, at)
              case None => !ok && operations.Snapshot() == old(operations.Snapshot()) && anchor == old(anchor)
              case Some((log, anchor')) => ok && operations.Snapshot() == log && anchor == anchor'
    {
      var saved := anchor;
      if capture.metadataBytes > MAX_METADATA_BYTES { return false; }
      anchor := anchor.(primary := Some(Account(capture.adjusted, asOf, capture.accountId, capture.updatedAt, at)));
      anchor := anchor.(currentCash := Some((capture.adjusted, at)));
      if capture.sourceBytes > MAX_METADATA_BYTES {
        anchor := saved;
        return false;
      }
      anchor := anchor.(balanceSource := Some((capture, asOf, at)));
      anchor := anchor.(connection := Connection(true, Some(at), None, at));
      var completed := operations.CompleteSuccess(run, at, COMPLETION);
      if completed.Failure? {
        anchor := saved;
        return false;
      }
      ok := true;
    }

    method FinishFailure(run: int, message: string, at: string) returns (ok: bool)
      modifies this, operations
      ensures match RecordFailure(old(operations.Snapshot()), old(anchor), run, message, at)
              case None => !ok && operations.Snapshot() == old(operations.Snapshot()) && anchor == old(anchor)
              case Some((log, anchor')) => ok && operations.Snapshot() == log && anchor == anchor'
    {
      var saved := anchor;
      anchor := anchor.(connection := anchor.connection.(active := false, lastError := Some(message), updatedAt := at));
      var completed := operations.CompleteError(run, at, message);
      if completed.Failure? {
        anchor := saved;
        return false;
      }
      ok := true;
    }

    /** One sync from start to end; `answer` is the provider's. */
    method Run(
      startedAt: Clock, slot: Option<string>, asOf: string, answer: Option<Capture>, message: string, at: Clock)
      returns (execution: Execution)
      modifies this, operations
      ensures (operations.Snapshot(), anchor, execution)
              == RunAlone(old(operations.Snapshot()), old(anchor), startedAt, slot, asOf, answer, message, at)
    {
      hide FormatUtcMillis, Persist, RecordFailure, InterruptStale, ClaimManual, ClaimScheduled;
      var started := FormatUtcMillis(startedAt);
      var interrupted := operations.InterruptStale(MONARCH, started, FormatUtcMillis(startedAt - STALE_AFTER));
      if interrupted.Failure? { return Error(interrupted.error); }
      var claim;
      match slot {
        case None => claim := operations.ClaimManual(MONARCH, started);
        case Some(scheduledFor) => claim := operations.ClaimScheduled(MONARCH, scheduledFor, started);
      }
      if claim.Failure? { return Error(claim.error); }
      if !claim.value.Claimed? { return RefusedBy(claim.value.id); }
      var run := claim.value.id;
      if answer.Some? {
        var ok := FinishSuccess(run, answer.value, asOf, FormatUtcMillis(at));
        if ok { return Completed(run); }
      }
      var recorded := FinishFailure(run, message, FormatUtcMillis(at));
      execution := if recorded then Failed(run) else Error(Coordination);
    }
  }

  /** The run a sync gets, or how it ends without one. */
  function ClaimedAlone(log: Log, startedAt: Clock, slot: Option<string>, asOf: string): (Log, Result<int, Execution>) {
    match InterruptStale(log, MONARCH, FormatUtcMillis(startedAt), FormatUtcMillis(startedAt - STALE_AFTER))
    case Failure(e) => (log, Failure(Error(e)))
    case Success(log1) =>
      match ClaimFor(log1, Owner(startedAt, slot, asOf, Claiming))
      case Failure(e) => (log1, Failure(Error(e)))
      case Success((log2, outcome)) =>
        (log2, if outcome.Claimed? then Success(outcome.id) else Failure(RefusedBy(outcome.id)))
  }

  /** What one sync makes of the log and the anchor when nobody else acts. */
  function RunAlone(
    log: Log, anchor: Anchor, startedAt: Clock, slot: Option<string>, asOf: string,
    answer: Option<Capture>, message: string, at: Clock): (Log, Anchor, Execution)
  {
    match ClaimedAlone(log, startedAt, slot, asOf)
    case (log', Failure(execution)) => (log', anchor, execution)
    case (log', Success(run)) => Finished(log', anchor, run, asOf, answer, message, FormatUtcMillis(at))
  }

  function Finished(
    log: Log, anchor: Anchor, run: int, asOf: string, answer: Option<Capture>, message: string, at: string)
    : (Log, Anchor, Execution)
  {
    var published := if answer.Some? then Persist(log, anchor, run, answer.value, asOf, at) else None;
    match published
    case Some((log', anchor')) => (log', anchor', Completed(run))
    case None =>
      match RecordFailure(log, anchor, run, message, at)
      case Some((log', anchor')) => (log', anchor', Failed(run))
      case None => (log, anchor, Error(Coordination))
  }

  // ---- the service is an owner ----

  lemma RunsOfSeven(w: World, a0: Action, a1: Action, a2: Action, a3: Action, a4: Action, a5: Action, a6: Action)
    ensures Runs(w, [a0, a1, a2, a3, a4, a5, a6])
            == Next(Next(Next(Next(Next(Next(Next(w, a0), a1), a2), a3), a4), a5), a6)
  {
    hide Next;
    assert [a0][..0] == [];
    assert Runs(w, [a0]) == Next(w, a0);
    assert [a0, a1][..1] == [a0];
    assert Runs(w, [a0, a1]) == Next(Runs(w, [a0]), a1);
    assert [a0, a1, a2][..2] == [a0, a1];
    assert Runs(w, [a0, a1, a2]) == Next(Runs(w, [a0, a1]), a2);
    assert [a0, a1, a2, a3][..3] == [a0, a1, a2];
    assert Runs(w, [a0, a1, a2, a3]) == Next(Runs(w, [a0, a1, a2]), a3);
    assert [a0, a1, a2, a3, a4][..4] == [a0, a1, a2, a3];
    assert Runs(w, [a0, a1, a2, a3, a4]) == Next(Runs(w, [a0, a1, a2, a3]), a4);
    assert [a0, a1, a2, a3, a4, a5][..5] == [a0, a1, a2, a3, a4];
    assert Runs(w, [a0, a1, a2, a3, a4, a5]) == Next(Runs(w, [a0, a1, a2, a3, a4]), a5);
    assert [a0, a1, a2, a3, a4, a5, a6][..6] == [a0, a1, a2, a3, a4, a5];
  }

  /** The end of a sync, as the owner's moves. */
  lemma FinishIsOwned(w: World, i: nat, answer: Option<Capture>, message: string)
    requires i < |w.owners| && w.owners[i].pc.Capturing?
    ensures var o := w.owners[i];
            var (log, anchor, _) := Finished(w.log, w.anchor, o.pc.run, o.asOf, answer, message,
                FormatUtcMillis(w.clock));
            var w' := Next(Next(Next(w, Answer(i, answer, message)), Publish(i, true, message)), Report(i));
            w'.log == log && w'.anchor == anchor
  {
    hide FormatUtcMillis, Persist, RecordFailure;
  }

  /** The beginning of a sync, as the owner's moves. */
  lemma ClaimIsOwned(w: World, slot: Option<string>, asOf: string)
    ensures var i := |w.owners|;
            var w' := Next(Next(Next(w, Begin(slot, asOf)), InterruptOld(i)), Claim(i));
            var (log, claim) := ClaimedAlone(w.log, w.clock, slot, asOf);
            && w'.log == log && w'.anchor == w.anchor && w'.clock == w.clock
            && i < |w'.owners| && w'.owners[i].asOf == asOf
            && w'.owners[i].pc == if claim.Success? then Capturing(claim.value) else Stopped
  {
    hide FormatUtcMillis, InterruptStale, ClaimManual, ClaimScheduled;
  }

  lemma StoppedDoesNothing(w: World, i: nat, answer: Option<Capture>, message: string)
    requires i < |w.owners| && w.owners[i].pc == Stopped
    ensures Next(Next(Next(w, Answer(i, answer, message)), Publish(i, true, message)), Report(i)) == w
  {
  }

  lemma TickIs(w: World, millis: nat)
    requires w.clock + millis < 253402300800000
    ensures Next(w, Tick(millis)) == w.(clock := w.clock + millis)
  {
  }

  /** The service, run alone and taking any time over its answer, does what an
      owner's moves do. */
  lemma ServiceIsAnOwner(
    w: World, slot: Option<string>, asOf: string, answer: Option<Capture>, message: string, millis: nat)
    requires w.clock + millis < 253402300800000
    ensures var i := |w.owners|;
            var moves := [Begin(slot, asOf), InterruptOld(i), Claim(i), Tick(millis), Answer(i, answer, message),
                          Publish(i, true, message), Report(i)];
            var (log, anchor, _) := RunAlone(w.log, w.anchor, w.clock, slot, asOf, answer, message, w.clock + millis);
            Runs(w, moves).log == log && Runs(w, moves).anchor == anchor
  {
    hide *;
    var i := |w.owners|;
    RunsOfSeven(w, Begin(slot, asOf), InterruptOld(i), Claim(i), Tick(millis), Answer(i, answer, message),
                Publish(i, true, message), Report(i));
    ClaimIsOwned(w, slot, asOf);
    var w1 := Next(Next(Next(w, Begin(slot, asOf)), InterruptOld(i)), Claim(i));
    TickIs(w1, millis);
    var w2 := Next(w1, Tick(millis));
    if w2.owners[i].pc == Stopped { StoppedDoesNothing(w2, i, answer, message); }
    else { FinishIsOwned(w2, i, answer, message); }
    RunAloneIs(w, slot, asOf, answer, message, w.clock + millis);
  }

  lemma RunAloneIs(
    w: World, slot: Option<string>, asOf: string, answer: Option<Capture>, message: string, end: Clock)
    ensures var (log, claim) := ClaimedAlone(w.log, w.clock, slot, asOf);
            RunAlone(w.log, w.anchor, w.clock, slot, asOf, answer, message, end)
            == if claim.Success?
               then Finished(log, w.anchor, claim.value, asOf, answer, message, FormatUtcMillis(end))
               else (log, w.anchor, claim.error)
  {
    hide FormatUtcMillis, ClaimedAlone, Finished;
  }
}
