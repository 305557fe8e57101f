/** The promises of Monarch syncs, over all runs. */
module MonarchTheorems {
  import opened Wrappers
  import opened Text
  import opened DateText
  import opened Operations
  import opened SyncLogSafety
  import opened MonarchSync
  import opened MonarchSafety

  // ---- one balance a success ----

  lemma {:induction false} RunsKeep(w: World, actions: seq<Action>)
    requires Inv(w)
    ensures Inv(Runs(w, actions))
  {
    hide Inv, Next;
    if actions != [] {
      RunsKeep(w, actions[..|actions| - 1]);
      NextKeeps(Runs(w, actions[..|actions| - 1]), actions[|actions| - 1]);
    }
  }

  lemma StartIsOk(slugs: set<string>, anchor: Anchor, clock: Clock)
    ensures Inv(Start(slugs, anchor, clock))
  {
    FreshIsOk(slugs);
    hide LogOk, FormatUtcMillis;
  }

  /** However owners interleave, die, or lose the answer to a commit: committed
      balances and success rows correspond one to one. */
  lemma EverySuccessAppliedOnce(slugs: set<string>, anchor: Anchor, clock: Clock, actions: seq<Action>)
    ensures var w := Runs(Start(slugs, anchor, clock), actions);
            && (forall j, k :: 0 <= j < k < |w.applied| ==> w.applied[j].0 != w.applied[k].0)
            && (forall id :: IsSuccess(w.log.runs, id) <==> exists k :: 0 <= k < |w.applied| && w.applied[k].0 == id)
  {
    StartIsOk(slugs, anchor, clock);
    RunsKeep(Start(slugs, anchor, clock), actions);
    hide Runs, Start, LogOk, FormatUtcMillis;
  }

  // ---- the cash anchor and the successes ----

  /** Account, cash setting and balance source all come from the capture. */
  predicate CashIs(anchor: Anchor, capture: Capture) {
    && anchor.primary.Some? && anchor.primary.value.balance == capture.adjusted
    && anchor.primary.value.sourceRef == capture.accountId
    && anchor.currentCash.Some? && anchor.currentCash.value.0 == capture.adjusted
    && anchor.balanceSource.Some? && anchor.balanceSource.value.0 == capture
    && anchor.balanceSource.value.1 == anchor.primary.value.asOf
  }

  /** The anchor was published, and the run ended, at that time. */
  predicate PublishedAt(w: World, run: int, at: string) {
    && w.anchor.currentCash.Some? && w.anchor.currentCash.value.1 == at
    && w.anchor.balanceSource.Some? && w.anchor.balanceSource.value.2 == at
    && w.anchor.connection == Connection(true, Some(at), None, at)
    && HasRun(w.log.runs, run) && w.log.runs[run - 1].finishedAt == Some(at)
  }

  predicate SameCash(anchor: Anchor, anchor': Anchor) {
    anchor'.primary == anchor.primary && anchor'.currentCash == anchor.currentCash
    && anchor'.balanceSource == anchor.balanceSource
  }

  /** What one action may do to the record of committed balances. */
  predicate CashStep(w: World, w': World) {
    if w'.applied == w.applied then SameCash(w.anchor, w'.anchor)
    else |w'.applied| == |w.applied| + 1 && w'.applied[..|w.applied|] == w.applied
         && CashIs(w'.anchor, w'.applied[|w.applied|].1)
         && PublishedAt(w', w'.applied[|w.applied|].0, FormatUtcMillis(w.clock))
  }

  lemma PublishOnCash(w: World, i: nat, answered: bool, message: string)
    requires i < |w.owners| && w.owners[i].pc.Persisting?
    ensures CashStep(w, PublishBy(w, i, answered, message))
  {
    hide FormatUtcMillis, IsCanonicalTimestamp;
  }

  lemma ActionOnCash(w: World, a: Action)
    requires !a.Elsewhere?
    ensures CashStep(w, Next(w, a))
  {
    hide FormatUtcMillis, InterruptStale, ClaimFor, IsForeign, Step, PublishBy, CompleteError;
    match a
    case Publish(i, answered, message) =>
      if i < |w.owners| && w.owners[i].pc.Persisting? { PublishOnCash(w, i, answered, message); }
    case _ =>
  }

  /** A Monarch run becomes a success exactly when a balance is committed: then
      it is one run, the whole cash anchor is that run's capture, and both bear
      the time of the commit; otherwise, no user being at it, the cash anchor is
      as it was. */
  lemma CashMovesWithSuccess(w: World, a: Action)
    requires Inv(w) && !a.Elsewhere?
    ensures var w' := Next(w, a);
            && (SameCash(w.anchor, w'.anchor) || exists id :: IsSuccess(w'.log.runs, id) && !IsSuccess(w.log.runs, id))
            && (forall id :: IsSuccess(w'.log.runs, id) && !IsSuccess(w.log.runs, id) ==>
                  && |w'.applied| == |w.applied| + 1 && w'.applied[|w.applied|].0 == id
                  && CashIs(w'.anchor, w'.applied[|w.applied|].1) && PublishedAt(w', id, FormatUtcMillis(w.clock)))
            && (forall id :: IsSuccess(w.log.runs, id) ==> IsSuccess(w'.log.runs, id))
  {
    hide FormatUtcMillis, Next, IsSuccess, CashIs, SameCash, PublishedAt, LogOk, AppliedAreSuccesses;
    ActionOnCash(w, a);
    NextKeeps(w, a);
    var w' := Next(w, a);
    var n := |w.applied|;
    if w'.applied != w.applied { assert w'.applied == w.applied + [w'.applied[n]]; }
    hide Inv;
    NewSuccessIsNewApplied(w.log.runs, w.applied, w'.log.runs, w'.applied);
  }

  /** Where both correspond, one more application is one more success. */
  lemma NewSuccessIsNewApplied(
    runs: seq<SyncRun>, applied: seq<(int, Capture)>, runs': seq<SyncRun>, applied': seq<(int, Capture)>)
    requires AppliedAreSuccesses(runs, applied) && AppliedAreSuccesses(runs', applied')
    requires applied' == applied || (|applied'| == |applied| + 1 && applied' == applied + [applied'[|applied|]])
    ensures applied' != applied ==> IsSuccess(runs', applied'[|applied|].0) && !IsSuccess(runs, applied'[|applied|].0)
    ensures forall id :: IsSuccess(runs', id) && !IsSuccess(runs, id) ==>
              applied' != applied && applied'[|applied|].0 == id
    ensures forall id :: IsSuccess(runs, id) ==> IsSuccess(runs', id)
  {
    hide IsSuccess;
    var n := |applied|;
    forall k | 0 <= k < n ensures applied'[k] == applied[k] {}
    forall id | IsSuccess(runs, id) ensures IsSuccess(runs', id) {
      var k :| 0 <= k < n && applied[k].0 == id;
      assert applied'[k].0 == id;
    }
    forall id | IsSuccess(runs', id) && !IsSuccess(runs, id) ensures applied' != applied && applied'[n].0 == id {
      var k :| 0 <= k < |applied'| && applied'[k].0 == id;
    }
  }

  /** Over every run in which no user edits the anchor: the cash shown is that
      of the last committed capture, and before the first it is untouched. */
  lemma {:induction false} CashIsTheLastSuccess(slugs: set<string>, anchor: Anchor, clock: Clock, actions: seq<Action>)
    requires forall k :: 0 <= k < |actions| ==> !actions[k].Elsewhere?
    ensures var w := Runs(Start(slugs, anchor, clock), actions);
            if w.applied == [] then SameCash(anchor, w.anchor)
            else CashIs(w.anchor, w.applied[|w.applied| - 1].1) && IsSuccess(w.log.runs, w.applied[|w.applied| - 1].0)
  {
    hide FormatUtcMillis, Next, CashIs, SameCash, PublishedAt, IsSuccess;
    var start := Start(slugs, anchor, clock);
    var w := Runs(start, actions);
    if actions == [] {
      CashOfSame(anchor, anchor);
    } else {
      var init, last := actions[..|actions| - 1], actions[|actions| - 1];
      CashIsTheLastSuccess(slugs, anchor, clock, init);
      var before := Runs(start, init);
      ActionOnCash(before, last);
      CashOfSame(before.anchor, w.anchor);
      LastAppliedIsSuccess(slugs, anchor, clock, actions);
      hide Start, Runs;
    }
  }

  lemma LastAppliedIsSuccess(slugs: set<string>, anchor: Anchor, clock: Clock, actions: seq<Action>)
    ensures var w := Runs(Start(slugs, anchor, clock), actions);
            w.applied != [] ==> IsSuccess(w.log.runs, w.applied[|w.applied| - 1].0)
  {
    EverySuccessAppliedOnce(slugs, anchor, clock, actions);
    hide Runs, Start, IsSuccess;
    var w := Runs(Start(slugs, anchor, clock), actions);
    if w.applied != [] { assert w.applied[|w.applied| - 1].0 == w.applied[|w.applied| - 1].0; }
  }

  lemma CashOfSame(anchor: Anchor, anchor': Anchor)
    ensures SameCash(anchor, anchor)
    ensures forall first :: SameCash(first, anchor) && SameCash(anchor, anchor') ==> SameCash(first, anchor')
    ensures forall capture :: CashIs(anchor, capture) && SameCash(anchor, anchor') ==> CashIs(anchor', capture)
  {
  }

  // ---- a stale owner publishes nothing ----

  lemma NextKeepsRows(w: World, a: Action)
    requires Inv(w)
    ensures RunsKept(w.log.runs, Next(w, a).log.runs)
  {
    hide FormatUtcMillis;
    SameRows(w.log);
    assert LogOk(w.log);
    hide Inv, LogOk, RunsKept, SameSuccesses, InterruptStale, ClaimFor, ApplyBalance, IsForeign, Step, CompleteSuccess,
         CompleteError;
    match a
    case Begin(slot, asOf) =>
    case InterruptOld(i) =>
      if i < |w.owners| {
        var at, cutoff := FormatUtcMillis(w.owners[i].startedAt), FormatUtcMillis(w.owners[i].startedAt - STALE_AFTER);
        if InterruptStale(w.log, MONARCH, at, cutoff).Success? { InterruptAsOp(w.log, at, cutoff); }
      }
    case Claim(i) => if i < |w.owners| && ClaimFor(w.log, w.owners[i]).Success? { ClaimAsOp(w.log, w.owners[i]); }
    case Answer(i, capture, message) =>
    case Publish(i, answered, message) =>
      if i < |w.owners| && w.owners[i].pc.Persisting? {
        var run, at := w.owners[i].pc.run, FormatUtcMillis(w.clock);
        if CompleteSuccess(w.log, run, at, COMPLETION).Success? { FinishAsOp(w.log, run, at); }
      }
    case Report(i) =>
      if i < |w.owners| && w.owners[i].pc.Failing? {
        var run, at, text := w.owners[i].pc.run, FormatUtcMillis(w.clock), w.owners[i].pc.message;
        if CompleteError(w.log, run, at, text).Success? { FinishErrorAsOp(w.log, run, at, text); }
      }
    case Die(i) =>
    case Tick(millis) =>
    case Foreign(op) => StepKeeps(w.log, op);
    case Elsewhere(anchor) =>
  }

  /** The owner has stopped, or holds a run that is over. */
  ghost predicate IsPowerless(w: World, i: nat) {
    i < |w.owners| &&
    (w.owners[i].pc == Stopped
     || (Holds(w.owners[i]) && HasRun(w.log.runs, w.owners[i].pc.run)
         && w.log.runs[w.owners[i].pc.run - 1].status != Running))
  }

  predicate Acts(a: Action, i: nat) {
    match a
    case InterruptOld(j) => j == i
    case Claim(j) => j == i
    case Answer(j, _, _) => j == i
    case Publish(j, _, _) => j == i
    case Report(j) => j == i
    case Die(j) => j == i
    case _ => false
  }

  lemma OwnerStep(w: World, a: Action, i: nat)
    requires i < |w.owners|
    ensures i < |Next(w, a).owners|
    ensures !Acts(a, i) ==> Next(w, a).owners[i] == w.owners[i]
    ensures w.owners[i].pc == Stopped ==> Next(w, a).owners[i].pc == Stopped
    ensures Holds(w.owners[i]) ==>
              Next(w, a).owners[i].pc == Stopped
              || (Holds(Next(w, a).owners[i]) && Next(w, a).owners[i].pc.run == w.owners[i].pc.run)
  {
    hide FormatUtcMillis, InterruptStale, ClaimFor, Persist, RecordFailure, IsForeign, Step;
  }

  lemma PowerlessStays(w: World, a: Action, i: nat)
    requires Inv(w) && IsPowerless(w, i)
    ensures IsPowerless(Next(w, a), i)
  {
    hide FormatUtcMillis, Inv, Next;
    NextKeepsRows(w, a);
    OwnerStep(w, a, i);
    if Holds(w.owners[i]) {
      var run := w.owners[i].pc.run;
      assert RunKept(w.log.runs[run - 1], Next(w, a).log.runs[run - 1]);
    }
  }

  lemma PowerlessChangesNothing(w: World, a: Action, i: nat)
    requires IsPowerless(w, i) && Acts(a, i)
    ensures Next(w, a).log == w.log && Next(w, a).anchor == w.anchor && Next(w, a).applied == w.applied
  {
    hide FormatUtcMillis, InterruptStale, ClaimFor, ApplyBalance, IsForeign, Step, NonEmpty, IsCanonicalTimestamp;
  }

  /** Once a run has ended, interrupted as stale or otherwise, nothing its owner
      does at any later time changes the log, the balance or the connection. */
  lemma {:induction false} StaleOwnerPublishesNothing(w: World, later: seq<Action>, i: nat, a: Action)
    requires Inv(w) && IsPowerless(w, i) && Acts(a, i)
    ensures var w' := Runs(w, later);
            IsPowerless(w', i) && Next(w', a).log == w'.log && Next(w', a).anchor == w'.anchor
            && Next(w', a).applied == w'.applied
  {
    if later == [] {
      PowerlessChangesNothing(w, a, i);
    } else {
      var before := later[..|later| - 1];
      StaleOwnerPublishesNothing(w, before, i, a);
      RunsKeep(w, before);
      PowerlessStays(Runs(w, before), later[|later| - 1], i);
      hide Inv, Next, IsPowerless;
      PowerlessChangesNothing(Runs(w, later), a, i);
    }
  }

  // ---- punctual owners are never interrupted ----

  ghost predicate OnTime(w: World) {
    forall i :: 0 <= i < |w.owners| && Holds(w.owners[i]) ==> w.clock - w.owners[i].startedAt <= 1200000
  }

  predicate Unharmed(log: Log, o: Owner) {
    Holds(o) ==>
      HasRun(log.runs, o.pc.run) && log.runs[o.pc.run - 1].status != Errored
      && (!o.pc.Failing? ==> log.runs[o.pc.run - 1].status == Running)
  }

  ghost predicate AllUnharmed(w: World) {
    forall i :: 0 <= i < |w.owners| ==> Unharmed(w.log, w.owners[i])
  }

  /** The cutoff that `other` uses leaves the run of `o` alone. */
  predicate Spares(log: Log, other: Owner, o: Owner) {
    Holds(o) && HasRun(log.runs, o.pc.run)
    && !IsStale(log.runs[o.pc.run - 1], MONARCH, FormatUtcMillis(other.startedAt - STALE_AFTER))
  }

  /** The stale cutoff of one owner never reaches another's run in time. */
  lemma PunctualRunIsNotStale(w: World, i: nat, j: nat)
    requires Inv(w) && OnTime(w) && i < |w.owners| && j < |w.owners| && Holds(w.owners[j])
    ensures Spares(w.log, w.owners[i], w.owners[j])
  {
    hide FormatUtcMillis, LogOk, AppliedAreSuccesses, IsStale;
    assert OwnsItsRun(w.log, w.owners[j]);
    assert w.owners[i].startedAt <= w.clock;
    StartedInTime(w.log.runs[w.owners[j].pc.run - 1], w.owners[j].startedAt, w.owners[i].startedAt);
  }

  lemma StartedInTime(run: SyncRun, startedAt: Clock, now: Clock)
    requires run.startedAt == FormatUtcMillis(startedAt) && now - startedAt <= STALE_AFTER
    ensures !IsStale(run, MONARCH, FormatUtcMillis(now - STALE_AFTER))
  {
    hide FormatUtcMillis, TextLess;
    TimestampTextOrder(startedAt, now - STALE_AFTER);
  }

  lemma InterruptHarmsNone(w: World, i: nat)
    requires Inv(w) && OnTime(w) && AllUnharmed(w) && i < |w.owners| && w.owners[i].pc == Interrupting
    ensures AllUnharmed(InterruptOldBy(w, i))
  {
    hide FormatUtcMillis, LogOk, AppliedAreSuccesses, TextLess, IsCanonicalTimestamp, NonEmpty, OwnsItsRun;
    forall j | 0 <= j < |w.owners| ensures Unharmed(InterruptOldBy(w, i).log, InterruptOldBy(w, i).owners[j]) {
      assert Unharmed(w.log, w.owners[j]);
      if Holds(w.owners[j]) { PunctualRunIsNotStale(w, i, j); }
    }
  }

  lemma ClaimHarmsNone(w: World, i: nat)
    requires Inv(w) && AllUnharmed(w) && i < |w.owners| && w.owners[i].pc == Claiming
    ensures AllUnharmed(ClaimBy(w, i))
  {
    hide FormatUtcMillis;
    var o := w.owners[i];
    assert LogOk(w.log);
    hide Inv, LogOk, ClaimManual, ClaimScheduled, SameSuccesses;
    if ClaimFor(w.log, o).Success? { ClaimAppends(w.log, o); }
    hide ClaimFor;
    forall j | 0 <= j < |w.owners| ensures Unharmed(ClaimBy(w, i).log, ClaimBy(w, i).owners[j]) {
      assert Unharmed(w.log, w.owners[j]);
    }
  }

  lemma ClaimAppends(log: Log, o: Owner)
    requires ClaimFor(log, o).Success?
    ensures var (log', outcome) := ClaimFor(log, o).value;
            if outcome.Claimed?
            then outcome.id == |log.runs| + 1
                && log'.runs == log.runs + [NewRun(MONARCH, o.slot, FormatUtcMillis(o.startedAt))]
            else log' == log
  {
    hide FormatUtcMillis;
    var at := FormatUtcMillis(o.startedAt);
    if o.slot.None? { ManualInserts(log, MONARCH, at); } else { ScheduledInserts(log, MONARCH, o.slot.value, at); }
    hide ClaimManual, ClaimScheduled;
  }

  lemma PublishHarmsNone(w: World, i: nat, answered: bool, message: string)
    requires Inv(w) && AllUnharmed(w) && i < |w.owners| && w.owners[i].pc.Persisting?
    ensures AllUnharmed(PublishBy(w, i, answered, message))
  {
    hide FormatUtcMillis, LogOk, AppliedAreSuccesses, IsCanonicalTimestamp, OwnsItsRun, ApplyBalance;
    var w' := PublishBy(w, i, answered, message);
    forall j | 0 <= j < |w.owners| ensures Unharmed(w'.log, w'.owners[j]) {
      assert Unharmed(w.log, w.owners[j]) && Unharmed(w.log, w.owners[i]);
      if Holds(w.owners[j]) && j != i { assert w.owners[i].pc.run != w.owners[j].pc.run; }
    }
  }

  lemma ReportHarmsNone(w: World, i: nat)
    requires Inv(w) && AllUnharmed(w) && i < |w.owners| && w.owners[i].pc.Failing?
    ensures AllUnharmed(ReportBy(w, i))
  {
    hide FormatUtcMillis, LogOk, AppliedAreSuccesses, IsCanonicalTimestamp, NonEmpty, OwnsItsRun;
    var w' := ReportBy(w, i);
    forall j | 0 <= j < |w.owners| ensures Unharmed(w'.log, w'.owners[j]) {
      assert Unharmed(w.log, w.owners[j]);
      if Holds(w.owners[j]) && j != i { assert w.owners[i].pc.run != w.owners[j].pc.run; }
    }
  }

  lemma ForeignHarmsNone(w: World, op: Op)
    requires Inv(w) && AllUnharmed(w) && IsForeign(w.log, op)
    ensures AllUnharmed(w.(log := Step(w.log, op)))
  {
    hide FormatUtcMillis;
    ForeignKeepsSuccesses(w.log, op);
    hide LogOk, AppliedAreSuccesses, Step, IsForeign, SameSuccesses;
    forall j | 0 <= j < |w.owners| ensures Unharmed(Step(w.log, op), w.owners[j]) {
      assert OwnsItsRun(w.log, w.owners[j]) && Unharmed(w.log, w.owners[j]);
    }
  }

  lemma NextHarmsNone(w: World, a: Action)
    requires Inv(w) && OnTime(w) && AllUnharmed(w)
    ensures AllUnharmed(Next(w, a))
  {
    hide FormatUtcMillis, Inv, OnTime, IsForeign, InterruptOldBy, ClaimBy, ReportBy, PublishBy, Step;
    match a
    case Begin(slot, asOf) =>
    case InterruptOld(i) => if i < |w.owners| && w.owners[i].pc == Interrupting { InterruptHarmsNone(w, i); }
    case Claim(i) => if i < |w.owners| && w.owners[i].pc == Claiming { ClaimHarmsNone(w, i); }
    case Answer(i, capture, message) =>
    case Publish(i, answered, message) =>
      if i < |w.owners| && w.owners[i].pc.Persisting? { PublishHarmsNone(w, i, answered, message); }
    case Report(i) => if i < |w.owners| && w.owners[i].pc.Failing? { ReportHarmsNone(w, i); }
    case Die(i) =>
    case Tick(millis) =>
    case Foreign(op) => if IsForeign(w.log, op) { ForeignHarmsNone(w, op); }
    case Elsewhere(anchor) =>
  }

  /** In every state before the last, each owner still holding a run began at
      most twenty minutes ago. */
  ghost predicate AlwaysOnTime(w: World, actions: seq<Action>) {
    forall n :: 0 <= n < |actions| ==> OnTime(Runs(w, actions[..n]))
  }

  /** If every owner stops within twenty minutes on a common clock, no live run
      is ever interrupted. */
  lemma {:induction false} PunctualRunsSurvive(slugs: set<string>, anchor: Anchor, clock: Clock, actions: seq<Action>)
    requires AlwaysOnTime(Start(slugs, anchor, clock), actions)
    ensures AllUnharmed(Runs(Start(slugs, anchor, clock), actions))
  {
    var w := Start(slugs, anchor, clock);
    if actions != [] {
      var n := |actions| - 1;
      var before := actions[..n];
      assert AlwaysOnTime(w, before) by {
        forall k | 0 <= k < |before| ensures OnTime(Runs(w, before[..k])) { assert before[..k] == actions[..k]; }
      }
      PunctualRunsSurvive(slugs, anchor, clock, before);
      StartIsOk(slugs, anchor, clock);
      RunsKeep(w, before);
      assert OnTime(Runs(w, actions[..n]));
      hide Inv, Next, OnTime, AllUnharmed, Start;
      NextHarmsNone(Runs(w, before), actions[n]);
    }
  }

  // ---- what a user sees of a sync ----

  predicate IsGoing(log: Log, id: int) { 1 <= id <= |log.runs| && log.runs[id - 1].status == Running }

  /** The run `id` ended with that status at that time. */
  predicate EndedWith(log: Log, id: int, status: Status, at: string) {
    1 <= id <= |log.runs| && log.runs[id - 1].status == status && log.runs[id - 1].finishedAt == Some(at)
  }

  /** Account, cash, source and connection show the capture, as of that date. */
  predicate AnchorShows(anchor: Anchor, c: Capture, asOf: string, at: string) {
    && anchor.primary == Some(Account(c.adjusted, asOf, c.accountId, c.updatedAt, at))
    && anchor.currentCash == Some((c.adjusted, at)) && anchor.balanceSource == Some((c, asOf, at))
    && anchor.connection == Connection(true, Some(at), None, at)
  }

  predicate SameRecords(w: World, w': World) {
    w'.log == w.log && w'.anchor == w.anchor && w'.applied == w.applied
  }

  /** A capture is published exactly while its run is going and its descriptions
      fit: then account, cash, source and connection show it, and the run is a
      success; otherwise log and anchor stay as they were. */
  lemma PublishingShows(w: World, i: nat, answered: bool, message: string, at: string)
    requires i < |w.owners| && w.owners[i].pc.Persisting? && at == FormatUtcMillis(w.clock)
    ensures var o, w' := w.owners[i], Next(w, Publish(i, answered, message));
            var id, c := o.pc.run, o.pc.capture;
            if IsGoing(w.log, id) && c.metadataBytes <= 16384 && c.sourceBytes <= 16384 then
              AnchorShows(w'.anchor, c, o.asOf, at) && EndedWith(w'.log, id, Succeeded, at)
              && w'.applied == w.applied + [(id, c)]
            else SameRecords(w, w')
  {
    FormattedIsCanonical(w.clock);
    NextPublishes(w, i, answered, message);
    hide FormatUtcMillis, IsCanonicalTimestamp, Next, EndedWith, AnchorShows, IsGoing;
    PersistShows(w.log, w.anchor, w.owners[i].pc.run, w.owners[i].pc.capture, w.owners[i].asOf, at);
    hide Persist;
  }

  lemma NextPublishes(w: World, i: nat, answered: bool, message: string)
    requires i < |w.owners| && w.owners[i].pc.Persisting?
    ensures Next(w, Publish(i, answered, message)) == PublishBy(w, i, answered, message)
  {
    hide PublishBy, FormatUtcMillis;
  }

  lemma NextReports(w: World, i: nat)
    requires i < |w.owners| && w.owners[i].pc.Failing?
    ensures Next(w, Report(i)) == ReportBy(w, i)
  {
    hide ReportBy, FormatUtcMillis;
  }

  lemma NextInterrupts(w: World, i: nat)
    requires i < |w.owners| && w.owners[i].pc == Interrupting
    ensures Next(w, InterruptOld(i)) == InterruptOldBy(w, i)
  {
    hide InterruptOldBy, FormatUtcMillis;
  }

  lemma PersistShows(log: Log, anchor: Anchor, id: int, c: Capture, asOf: string, at: string)
    requires IsCanonicalTimestamp(at)
    ensures var r := Persist(log, anchor, id, c, asOf, at);
            && (r.Some? <==> IsGoing(log, id) && c.metadataBytes <= 16384 && c.sourceBytes <= 16384)
            && (r.Some? ==> AnchorShows(r.value.1, c, asOf, at) && EndedWith(r.value.0, id, Succeeded, at))
  {
    hide IsCanonicalTimestamp;
  }

  predicate SaysMessage(log: Log, id: int, message: string) {
    1 <= id <= |log.runs| && log.runs[id - 1].message == Some(message)
  }

  /** A failure is recorded exactly while the run is going: the connection shows
      the message and is inactive, the run has failed, and the cash is untouched;
      otherwise nothing changes. */
  lemma FailureShows(w: World, i: nat, at: string)
    requires i < |w.owners| && w.owners[i].pc.Failing? && NonEmpty(w.owners[i].pc.message)
    requires at == FormatUtcMillis(w.clock)
    ensures var id, message, w' := w.owners[i].pc.run, w.owners[i].pc.message, Next(w, Report(i));
            if IsGoing(w.log, id) then
              && SameCash(w.anchor, w'.anchor) && EndedWith(w'.log, id, Errored, at)
              && w'.anchor.connection == Connection(false, w.anchor.connection.lastSyncedAt, Some(message), at)
              && SaysMessage(w'.log, id, message)
            else SameRecords(w, w')
  {
    hide FormatUtcMillis, IsCanonicalTimestamp, NonEmpty, Next, SameCash, IsGoing, EndedWith, SaysMessage;
    FormattedIsCanonical(w.clock);
    NextReports(w, i);
    RecordingFailureShows(w.log, w.anchor, w.owners[i].pc.run, w.owners[i].pc.message, at);
    hide RecordFailure;
  }

  lemma RecordingFailureShows(log: Log, anchor: Anchor, id: int, message: string, at: string)
    requires IsCanonicalTimestamp(at) && NonEmpty(message)
    ensures var r := RecordFailure(log, anchor, id, message, at);
            && (r.Some? <==> IsGoing(log, id))
            && (r.Some? ==>
                  && SameCash(anchor, r.value.1) && EndedWith(r.value.0, id, Errored, at)
                  && r.value.1.connection == Connection(false, anchor.connection.lastSyncedAt, Some(message), at)
                  && SaysMessage(r.value.0, id, message))
  {
    hide IsCanonicalTimestamp, NonEmpty;
  }

  /** The run after an owner that began at `now` has ended old runs: a Monarch
      run that started more than twenty minutes before has failed, and any other
      is as it was. */
  predicate EndedIfOld(run: SyncRun, run': SyncRun, started: Clock, now: Clock) {
    if run.slug == "monarch" && run.status == Running && now - started > 1200000
    then run'.status == Errored && run'.finishedAt.Some? else run' == run
  }

  lemma OldRunsEnd(w: World, i: nat, k: nat, started: Clock)
    requires i < |w.owners| && w.owners[i].pc == Interrupting && w.log.control.mode == Enabled
    requires k < |w.log.runs| && w.log.runs[k].startedAt == FormatUtcMillis(started)
    ensures var runs' := Next(w, InterruptOld(i)).log.runs;
            k < |runs'| && EndedIfOld(w.log.runs[k], runs'[k], started, w.owners[i].startedAt)
  {
    hide FormatUtcMillis, IsCanonicalTimestamp, NonEmpty, TextLess, Next;
    var now: Millis := w.owners[i].startedAt;
    var cutoff: Millis := now - 1200000;
    FormattedIsCanonical(now);
    FormattedIsCanonical(cutoff);
    TimestampTextOrder(started, cutoff);
    MonarchIsName();
    NextInterrupts(w, i);
    InterruptOne(w.log, FormatUtcMillis(now), FormatUtcMillis(cutoff), k);
    hide InterruptStale;
  }

  lemma InterruptOne(log: Log, at: string, cutoff: string, k: nat)
    requires NonEmpty("monarch") && IsCanonicalTimestamp(at) && IsCanonicalTimestamp(cutoff) && k < |log.runs|
    requires log.control.mode == Enabled
    ensures var r, run := InterruptStale(log, "monarch", at, cutoff), log.runs[k];
            && r.Success? && |r.value.runs| == |log.runs|
            && (if run.slug == "monarch" && run.status == Running && TextLess(run.startedAt, cutoff)
                then r.value.runs[k].status == Errored && r.value.runs[k].finishedAt.Some?
                else r.value.runs[k] == run)
  {
    hide IsCanonicalTimestamp, NonEmpty, TextLess;
  }

  lemma MonarchIsName()
    ensures NonEmpty("monarch")
  {
    TrimmedIsFixed("monarch");
  }
}
