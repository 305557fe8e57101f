/** A stale owner publishes nothing, and every success publishes once. */
module MonarchSafety {
  import opened Wrappers
  import opened Text
  import opened DateText
  import opened Operations
  import opened SyncLogSafety
  import opened MonarchSync

  // ---- applications and success rows ----

  predicate IsSuccess(runs: seq<SyncRun>, id: int) {
    HasRun(runs, id) && runs[id - 1].slug == MONARCH && runs[id - 1].status == Succeeded
  }

  /** Committed balances and success rows correspond one to one. */
  ghost predicate AppliedAreSuccesses(runs: seq<SyncRun>, applied: seq<(int, Capture)>) {
    && (forall j, k :: 0 <= j < k < |applied| ==> applied[j].0 != applied[k].0)
    && (forall k :: 0 <= k < |applied| ==> IsSuccess(runs, applied[k].0))
    && (forall id :: IsSuccess(runs, id) ==> exists k :: 0 <= k < |applied| && applied[k].0 == id)
  }

  /** An owner's run is a Monarch run that it started. */
  ghost predicate OwnsItsRun(log: Log, o: Owner) {
    Holds(o) ==>
      HasRun(log.runs, o.pc.run) && log.runs[o.pc.run - 1].slug == MONARCH
      && log.runs[o.pc.run - 1].startedAt == FormatUtcMillis(o.startedAt)
  }

  ghost predicate Inv(w: World) {
    && LogOk(w.log) && AppliedAreSuccesses(w.log.runs, w.applied)
    && (forall i :: 0 <= i < |w.owners| ==> OwnsItsRun(w.log, w.owners[i]) && w.owners[i].startedAt <= w.clock)
    && (forall i, j :: 0 <= i < j < |w.owners| && Holds(w.owners[i]) && Holds(w.owners[j]) ==>
          w.owners[i].pc.run != w.owners[j].pc.run)
  }

  /** The statement changed no success row of the connection. */
  ghost predicate SameSuccesses(log: Log, log': Log) {
    forall id :: IsSuccess(log'.runs, id) <==> IsSuccess(log.runs, id)
  }

  lemma ForeignKeepsSuccesses(log: Log, op: Op)
    requires LogOk(log) && IsForeign(log, op)
    ensures SameSuccesses(log, Step(log, op))
    ensures forall i :: 0 <= i < |log.runs| && log.runs[i].slug == MONARCH ==>
              i < |Step(log, op).runs| && Step(log, op).runs[i] == log.runs[i]
  {
    hide ExplainScheduled, TextLess, IsCanonicalTimestamp, NonEmpty, SlotErrors, SomeCovers, CurrentRun, LogOk;
  }

  lemma InterruptKeepsSuccesses(log: Log, finishedAt: string, cutoff: string)
    requires InterruptStale(log, MONARCH, finishedAt, cutoff).Success?
    ensures SameSuccesses(log, InterruptStale(log, MONARCH, finishedAt, cutoff).value)
  {
    hide TextLess, IsCanonicalTimestamp, NonEmpty;
  }

  /** Changes that touch neither the successes nor the record of balances. */
  lemma QuietStep(w: World, log': Log, i: nat, pc: Pc)
    requires Inv(w) && i < |w.owners| && LogOk(log') && RunsKept(w.log.runs, log'.runs) && SameSuccesses(w.log, log')
    requires var o := w.owners[i].(pc := pc);
             Holds(o) ==> (Holds(w.owners[i]) && pc.run == w.owners[i].pc.run)
                          || (OwnsItsRun(log', o) && pc.run > |w.log.runs|)
    ensures Inv(At(w, i, pc).(log := log'))
  {
    hide LogOk, FormatUtcMillis;
    var w' := At(w, i, pc).(log := log');
    forall j | 0 <= j < |w'.owners| ensures OwnsItsRun(w'.log, w'.owners[j]) {
      assert OwnsItsRun(w.log, w.owners[j]);
      if Holds(w.owners[j]) { assert RunKept(w.log.runs[w.owners[j].pc.run - 1], log'.runs[w.owners[j].pc.run - 1]); }
    }
    forall j, k | 0 <= j < k < |w'.owners| && Holds(w'.owners[j]) && Holds(w'.owners[k])
      ensures w'.owners[j].pc.run != w'.owners[k].pc.run
    {
      assert OwnsItsRun(w.log, w.owners[j]) && OwnsItsRun(w.log, w.owners[k]);
    }
    assert AppliedAreSuccesses(log'.runs, w.applied);
  }

  lemma FinishAsOp(log: Log, id: int, at: string)
    requires LogOk(log) && CompleteSuccess(log, id, at, COMPLETION).Success?
    ensures var log' := CompleteSuccess(log, id, at, COMPLETION).value;
            LogOk(log') && RunsKept(log.runs, log'.runs) && CanFinish(log.runs, id)
            && (log.runs[id - 1].slug == MONARCH ==>
                  forall k :: IsSuccess(log'.runs, k) <==> IsSuccess(log.runs, k) || k == id)
  {
    StepKeeps(log, Finish(id, at, COMPLETION));
    hide IsCanonicalTimestamp, LogOk;
  }

  lemma FinishErrorAsOp(log: Log, id: int, at: string, message: string)
    requires LogOk(log) && CompleteError(log, id, at, message).Success?
    ensures var log' := CompleteError(log, id, at, message).value;
            LogOk(log') && RunsKept(log.runs, log'.runs) && SameSuccesses(log, log')
  {
    StepKeeps(log, FinishError(id, at, message));
    hide IsCanonicalTimestamp, LogOk, NonEmpty;
  }

  lemma InterruptAsOp(log: Log, finishedAt: string, cutoff: string)
    requires LogOk(log) && InterruptStale(log, MONARCH, finishedAt, cutoff).Success?
    ensures var log' := InterruptStale(log, MONARCH, finishedAt, cutoff).value;
            LogOk(log') && RunsKept(log.runs, log'.runs) && SameSuccesses(log, log')
  {
    StepKeeps(log, Interrupt(MONARCH, finishedAt, cutoff));
    InterruptKeepsSuccesses(log, finishedAt, cutoff);
    hide IsCanonicalTimestamp, LogOk, InterruptAll, NonEmpty;
  }

  lemma ManualInserts(log: Log, slug: string, at: string)
    requires ClaimManual(log, slug, at).Success?
    ensures var (log', outcome) := ClaimManual(log, slug, at).value;
            if outcome.Claimed? then (log', outcome) == Inserted(log, slug, None, at) else log' == log
  {
    hide IsCanonicalTimestamp, NonEmpty, SomeRunning, CurrentRun;
  }

  lemma ScheduledInserts(log: Log, slug: string, slot: string, at: string)
    requires ClaimScheduled(log, slug, slot, at).Success?
    ensures var (log', outcome) := ClaimScheduled(log, slug, slot, at).value;
            if outcome.Claimed? then (log', outcome) == Inserted(log, slug, Some(slot), at) else log' == log
  {
    hide IsCanonicalTimestamp, NonEmpty, MayInsertScheduled, CurrentRun, CoveringRun, SlotRun;
  }

  lemma InsertKeepsSuccesses(log: Log, slug: string, slot: Option<string>, at: string)
    ensures SameSuccesses(log, Inserted(log, slug, slot, at).0)
  {
  }

  lemma ClaimAsOp(log: Log, o: Owner)
    requires LogOk(log) && ClaimFor(log, o).Success?
    ensures var (log', outcome) := ClaimFor(log, o).value;
            && LogOk(log') && RunsKept(log.runs, log'.runs) && SameSuccesses(log, log')
            && (outcome.Claimed? ==>
                  && outcome.id == |log.runs| + 1 == |log'.runs|
                  && log'.runs[|log.runs|] == NewRun(MONARCH, o.slot, FormatUtcMillis(o.startedAt)))
  {
    hide FormatUtcMillis;
    var at := FormatUtcMillis(o.startedAt);
    hide LogOk, ClaimManual, ClaimScheduled;
    if o.slot.None? {
      StepKeeps(log, Manual(MONARCH, at));
      ManualInserts(log, MONARCH, at);
    } else {
      StepKeeps(log, Scheduled(MONARCH, o.slot.value, at));
      ScheduledInserts(log, MONARCH, o.slot.value, at);
    }
    InsertKeepsSuccesses(log, MONARCH, o.slot, at);
    hide SameSuccesses;
    SameSuccessesReflexive(log);
  }

  lemma SameSuccessesReflexive(log: Log)
    ensures SameSuccesses(log, log)
  {
  }

  // ---- each action keeps the invariant ----

  lemma OthersKeepTheirRuns(w: World, log': Log)
    requires Inv(w) && RunsKept(w.log.runs, log'.runs)
    ensures forall i :: 0 <= i < |w.owners| ==> OwnsItsRun(log', w.owners[i])
  {
    hide LogOk, FormatUtcMillis, AppliedAreSuccesses;
    forall i | 0 <= i < |w.owners| ensures OwnsItsRun(log', w.owners[i]) {
      assert OwnsItsRun(w.log, w.owners[i]);
      if Holds(w.owners[i]) {
        assert RunKept(w.log.runs[w.owners[i].pc.run - 1], log'.runs[w.owners[i].pc.run - 1]);
      }
    }
  }

  /** One more success row, one more application. */
  lemma OneMoreApplied(runs: seq<SyncRun>, runs': seq<SyncRun>, applied: seq<(int, Capture)>, id: int, capture: Capture)
    requires AppliedAreSuccesses(runs, applied) && !IsSuccess(runs, id)
    requires forall k :: IsSuccess(runs', k) <==> IsSuccess(runs, k) || k == id
    ensures AppliedAreSuccesses(runs', applied + [(id, capture)])
  {
    hide IsSuccess;
    var applied' := applied + [(id, capture)];
    forall k | IsSuccess(runs', k) ensures exists j :: 0 <= j < |applied'| && applied'[j].0 == k {
      if k == id { assert applied'[|applied|].0 == k; }
      else {
        var j :| 0 <= j < |applied| && applied[j].0 == k;
        assert applied'[j].0 == k;
      }
    }
  }

  lemma PublishKeeps(w: World, i: nat, answered: bool, message: string, log': Log, anchor': Anchor)
    requires Inv(w) && i < |w.owners| && w.owners[i].pc.Persisting?
    requires Persist(w.log, w.anchor, w.owners[i].pc.run, w.owners[i].pc.capture, w.owners[i].asOf,
        FormatUtcMillis(w.clock))
             == Some((log', anchor'))
    ensures Inv(PublishBy(w, i, answered, message))
  {
    hide FormatUtcMillis;
    var o, at := w.owners[i], FormatUtcMillis(w.clock);
    assert OwnsItsRun(w.log, o);
    assert !IsSuccess(w.log.runs, o.pc.run) && CompleteSuccess(w.log, o.pc.run, at, COMPLETION) == Success(log') by {
      hide FormatUtcMillis, ApplyBalance, IsCanonicalTimestamp, Inv;
    }
    FinishAsOp(w.log, o.pc.run, at);
    OneMoreApplied(w.log.runs, log'.runs, w.applied, o.pc.run, o.pc.capture);
    OthersKeepTheirRuns(w, log');
    hide LogOk, FormatUtcMillis, Persist, IsSuccess, AppliedAreSuccesses, RunsKept, OwnsItsRun;
    var w' := PublishBy(w, i, answered, message);
    forall j | 0 <= j < |w'.owners| ensures OwnsItsRun(w'.log, w'.owners[j]) {
      if j == i { SameRun(log', o, w'.owners[i].pc); }
    }
  }

  lemma SameRun(log: Log, o: Owner, pc: Pc)
    requires OwnsItsRun(log, o) && Holds(o) && (Holds(o.(pc := pc)) ==> pc.run == o.pc.run)
    ensures OwnsItsRun(log, o.(pc := pc))
  {
    hide FormatUtcMillis;
  }

  lemma SameRows(log: Log)
    ensures RunsKept(log.runs, log.runs) && SameSuccesses(log, log)
  {
  }

  lemma InterruptOldKeeps(w: World, i: nat)
    requires Inv(w) && i < |w.owners| && w.owners[i].pc == Interrupting
    ensures Inv(InterruptOldBy(w, i))
  {
    hide FormatUtcMillis;
    var at, cutoff := FormatUtcMillis(w.owners[i].startedAt), FormatUtcMillis(w.owners[i].startedAt - STALE_AFTER);
    var r := InterruptStale(w.log, MONARCH, at, cutoff);
    assert LogOk(w.log);
    hide Inv, FormatUtcMillis, InterruptStale, LogOk, RunsKept, SameSuccesses;
    if r.Success? { InterruptAsOp(w.log, at, cutoff); }
    SameRows(w.log);
    QuietStep(w, if r.Success? then r.value else w.log, i, if r.Success? then Claiming else Stopped);
  }

  lemma ClaimKeeps(w: World, i: nat)
    requires Inv(w) && i < |w.owners| && w.owners[i].pc == Claiming
    ensures Inv(ClaimBy(w, i))
  {
    hide FormatUtcMillis;
    var o := w.owners[i];
    var r := ClaimFor(w.log, o);
    assert LogOk(w.log);
    hide Inv, FormatUtcMillis, ClaimFor, LogOk, RunsKept, SameSuccesses;
    if r.Success? { ClaimAsOp(w.log, o); }
    SameRows(w.log);
    var pc := if r.Success? && r.value.1.Claimed? then Capturing(r.value.1.id) else Stopped;
    QuietStep(w, if r.Success? then r.value.0 else w.log, i, pc);
  }

  lemma ReportKeeps(w: World, i: nat)
    requires Inv(w) && i < |w.owners| && w.owners[i].pc.Failing?
    ensures Inv(ReportBy(w, i))
  {
    hide FormatUtcMillis;
    var o, at := w.owners[i], FormatUtcMillis(w.clock);
    var r := CompleteError(w.log, o.pc.run, at, o.pc.message);
    assert LogOk(w.log);
    hide Inv, FormatUtcMillis, CompleteError, LogOk, RunsKept, SameSuccesses;
    if r.Success? { FinishErrorAsOp(w.log, o.pc.run, at, o.pc.message); }
    SameRows(w.log);
    var log' := if r.Success? then r.value else w.log;
    QuietStep(w, log', i, Stopped);
    AnchorIsFree(At(w, i, Stopped).(log := log'), ReportBy(w, i).anchor);
  }

  lemma AnchorIsFree(w: World, anchor: Anchor)
    requires Inv(w)
    ensures Inv(w.(anchor := anchor))
  {
    hide FormatUtcMillis;
  }

  lemma ForeignKeeps(w: World, op: Op)
    requires Inv(w) && IsForeign(w.log, op)
    ensures Inv(w.(log := Step(w.log, op)))
  {
    hide FormatUtcMillis;
    StepKeeps(w.log, op);
    ForeignKeepsSuccesses(w.log, op);
    OthersKeepTheirRuns(w, Step(w.log, op));
    hide Step, LogOk, FormatUtcMillis, RunsKept, IsForeign, OwnsItsRun;
  }

  lemma OnlyPc(w: World, i: nat, pc: Pc)
    requires Inv(w) && i < |w.owners|
    requires Holds(w.owners[i].(pc := pc)) ==> Holds(w.owners[i]) && pc.run == w.owners[i].pc.run
    ensures Inv(At(w, i, pc))
  {
    SameRows(w.log);
    QuietStep(w, w.log, i, pc);
    hide Inv;
  }

  lemma BeginAndTickKeep(w: World, slot: Option<string>, asOf: string, clock: Clock)
    requires Inv(w) && w.clock <= clock
    ensures Inv(w.(owners := w.owners + [Owner(w.clock, slot, asOf, Interrupting)]))
    ensures Inv(w.(clock := clock))
  {
    hide FormatUtcMillis, LogOk, AppliedAreSuccesses, OwnsItsRun;
    var newcomer := Owner(w.clock, slot, asOf, Interrupting);
    assert OwnsItsRun(w.log, newcomer) by { NothingHeld(w.log, newcomer); }
  }

  lemma NothingHeld(log: Log, o: Owner)
    requires !Holds(o)
    ensures OwnsItsRun(log, o)
  {
    hide FormatUtcMillis;
  }

  lemma NextKeeps(w: World, a: Action)
    requires Inv(w)
    ensures Inv(Next(w, a))
  {
    hide FormatUtcMillis, Inv, IsForeign, InterruptOldBy, ClaimBy, ReportBy;
    match a
    case Begin(slot, asOf) => BeginAndTickKeep(w, slot, asOf, w.clock);
    case InterruptOld(i) => if i < |w.owners| && w.owners[i].pc == Interrupting { InterruptOldKeeps(w, i); }
    case Claim(i) => if i < |w.owners| && w.owners[i].pc == Claiming { ClaimKeeps(w, i); }
    case Answer(i, capture, message) =>
      if i < |w.owners| && w.owners[i].pc.Capturing? { OnlyPc(w, i, Next(w, a).owners[i].pc); }
    case Publish(i, answered, message) =>
      if i < |w.owners| && w.owners[i].pc.Persisting? {
        var o := w.owners[i];
        var r := Persist(w.log, w.anchor, o.pc.run, o.pc.capture, o.asOf, FormatUtcMillis(w.clock));
        hide Persist;
        if r.Some? { PublishKeeps(w, i, answered, message, r.value.0, r.value.1); }
        else { OnlyPc(w, i, Failing(o.pc.run, message)); }
      }
    case Report(i) => if i < |w.owners| && w.owners[i].pc.Failing? { ReportKeeps(w, i); }
    case Die(i) => if i < |w.owners| { OnlyPc(w, i, Stopped); }
    case Tick(millis) =>
      if w.clock + millis < 253402300800000 { BeginAndTickKeep(w, None, "", w.clock + millis); }
    case Foreign(op) => if IsForeign(w.log, op) { ForeignKeeps(w, op); }
    case Elsewhere(anchor) => AnchorIsFree(w, anchor);
  }
}
