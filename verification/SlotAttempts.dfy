/** How many runs a slot may have: exactly when another one enters it, and a log
    in which it has all three. */
module SlotAttempts {
  import opened Wrappers
  import opened Text
  import opened DateText
  import opened Operations
  import opened SyncLogSafety

  // ---- when a run enters a slot ----

  predicate AllErrored(runs: seq<SyncRun>, slug: string, slot: string) {
    forall i :: 0 <= i < |runs| && InSlot(runs[i], slug, slot) ==> runs[i].status == Errored
  }

  /** Everything a scheduled claim needs. */
  predicate MayEnter(log: Log, op: Op, slug: string, slot: string) {
    && op.Scheduled? && op.slug == slug && op.slot == slot
    && NonEmpty(slug) && IsCanonicalTimestamp(slot) && IsCanonicalTimestamp(op.startedAt) && slug in log.slugs
    && log.control.mode == Enabled && log.control.schedulerEnabled
    && SlotRows(log.runs, slug, slot) < MAX_SCHEDULED_ATTEMPTS && AllErrored(log.runs, slug, slot)
    && !SomeRunning(log.runs, slug) && !SomeCovers(log.runs, slug, slot)
  }

  lemma InsertAllowedIff(log: Log, op: Op, slug: string, slot: string)
    requires op.Scheduled? && op.slug == slug && op.slot == slot
    ensures MayEnter(log, op, slug, slot)
            <==> NonEmpty(slug) && IsCanonicalTimestamp(slot) && IsCanonicalTimestamp(op.startedAt)
                 && MayInsertScheduled(log, slug, slot) && SlotRows(log.runs, slug, slot) < MAX_SCHEDULED_ATTEMPTS
  {
    hide IsCanonicalTimestamp, NonEmpty, Covers, SlotRows, SlotErrors;
    ErrorsAreRows(log.runs, slug, slot);
  }

  /** Rows enter one at a time, only by a scheduled claim of that very slot. */
  lemma EntersIff(log: Log, op: Op, slug: string, slot: string)
    requires LogOk(log)
    ensures SlotRows(Step(log, op).runs, slug, slot)
            == SlotRows(log.runs, slug, slot) + if MayEnter(log, op, slug, slot) then 1 else 0
  {
    hide ExplainScheduled, TextLess, IsCanonicalTimestamp, NonEmpty, SlotRows, SlotErrors, Covers;
    var log' := Step(log, op);
    if |log'.runs| == |log.runs| {
      StepKeeps(log, op);
      forall i | 0 <= i < |log.runs| ensures RunKept(log.runs[i], log'.runs[i]) {}
      SlotRowsSame(log.runs, log'.runs, slug, slot);
      if op.Scheduled? && op.slug == slug && op.slot == slot { InsertAllowedIff(log, op, slug, slot); }
    } else {
      match op
      case Manual(other, startedAt) => SlotRowsAppend(log.runs, NewRun(other, None, startedAt), slug, slot);
      case Scheduled(other, otherSlot, startedAt) =>
        SlotRowsAppend(log.runs, NewRun(other, Some(otherSlot), startedAt), slug, slot);
        if other == slug && otherSlot == slot {
          ErrorsAreRows(log.runs, slug, slot);
          InsertAllowedIff(log, op, slug, slot);
        }
    }
  }

  // ---- a slot with three runs ----

  function FailedRun(slug: string, slot: string, at: string): SyncRun {
    NewRun(slug, Some(slot), at).(status := Errored, finishedAt := Some(at), message := Some("down"))
  }

  /** A log of nothing but `runs`, with the scheduler on. */
  function LogOfRuns(runs: seq<SyncRun>, slug: string, at: string): Log {
    Log(runs, Control(Enabled, true, at), {slug})
  }

  lemma {:induction false} FailuresOnly(runs: seq<SyncRun>, slug: string, slot: string, at: string)
    requires forall i :: 0 <= i < |runs| ==> runs[i] == FailedRun(slug, slot, at)
    ensures SlotErrors(runs, slug, slot) == |runs| == SlotRows(runs, slug, slot)
  {
    if runs != [] { FailuresOnly(runs[..|runs| - 1], slug, slot, at); }
  }

  lemma ClaimAfterFailures(runs: seq<SyncRun>, slug: string, slot: string, at: string)
    requires NonEmpty(slug) && IsCanonicalTimestamp(slot) && IsCanonicalTimestamp(at)
    requires |runs| < MAX_SCHEDULED_ATTEMPTS && forall i :: 0 <= i < |runs| ==> runs[i] == FailedRun(slug, slot, at)
    ensures Step(LogOfRuns(runs, slug, at), Scheduled(slug, slot, at))
            == LogOfRuns(runs + [NewRun(slug, Some(slot), at)], slug, at)
  {
    FailuresOnly(runs, slug, slot, at);
    hide IsCanonicalTimestamp, NonEmpty, SlotErrors;
  }

  lemma ClaimFails(runs: seq<SyncRun>, slug: string, slot: string, at: string)
    requires IsCanonicalTimestamp(at) && NonEmpty("down")
    ensures Step(LogOfRuns(runs + [NewRun(slug, Some(slot), at)], slug, at), FinishError(|runs| + 1, at, "down"))
            == LogOfRuns(runs + [FailedRun(slug, slot, at)], slug, at)
  {
    hide IsCanonicalTimestamp, NonEmpty;
    assert (runs + [NewRun(slug, Some(slot), at)])[|runs| := FailedRun(slug, slot, at)]
      == runs + [FailedRun(slug, slot, at)];
  }

  lemma RunOneMore(log: Log, ops: seq<Op>, op: Op)
    ensures Run(log, ops + [op]) == Step(Run(log, ops), op)
  {
    assert (ops + [op])[..|ops|] == ops;
  }

  function SwitchOn(at: string): seq<Op> { [ControlSet(Enabled, true, at)] }

  /** One more claim that fails; its run has that id. */
  function AndFails(ops: seq<Op>, id: int, slug: string, slot: string, at: string): seq<Op> {
    ops + [Scheduled(slug, slot, at)] + [FinishError(id, at, "down")]
  }

  function TwoFailures(slug: string, slot: string, at: string): seq<Op> {
    AndFails(AndFails(SwitchOn(at), 1, slug, slot, at), 2, slug, slot, at)
  }

  /** Claimed, failed, claimed, failed, and claimed again. */
  function ThreeClaims(slug: string, slot: string, at: string): seq<Op> {
    TwoFailures(slug, slot, at) + [Scheduled(slug, slot, at)]
  }

  lemma PlainTexts()
    ensures NonEmpty("tmo") && NonEmpty("down")
  {
    TrimmedIsFixed("tmo");
    TrimmedIsFixed("down");
  }

  /** Three rows in one slot, the last of them running: the index of the slot is
      not unique over all its rows. */
  lemma SlotTakesThreeRuns(at: Millis)
    ensures var slot := FormatUtcMillis(at);
            var log := Run(Fresh({"tmo"}), ThreeClaims("tmo", slot, slot));
            SlotRows(log.runs, "tmo", slot) == MAX_SCHEDULED_ATTEMPTS && |log.runs| == 3
            && log.runs[2].status == Running
  {
    FormattedIsCanonical(at);
    PlainTexts();
    hide FormatUtcMillis, IsCanonicalTimestamp, NonEmpty;
    ThreeRuns("tmo", FormatUtcMillis(at));
  }

  lemma ThreeRuns(slug: string, slot: string)
    requires NonEmpty(slug) && NonEmpty("down") && IsCanonicalTimestamp(slot)
    ensures var log := Run(Fresh({slug}), ThreeClaims(slug, slot, slot));
            SlotRows(log.runs, slug, slot) == MAX_SCHEDULED_ATTEMPTS && |log.runs| == 3
            && log.runs[2].status == Running
  {
    TwoRunsFail(slug, slot);
    hide Step, IsCanonicalTimestamp, NonEmpty, SlotRows, TwoFailures, FailedRun;
    var failed := FailedRun(slug, slot, slot);
    RunOneMore(Fresh({slug}), TwoFailures(slug, slot, slot), Scheduled(slug, slot, slot));
    ClaimAfterFailures([failed, failed], slug, slot, slot);
    FailuresOnly([failed, failed], slug, slot, slot);
    SlotRowsAppend([failed, failed], NewRun(slug, Some(slot), slot), slug, slot);
  }

  lemma TwoRunsFail(slug: string, slot: string)
    requires NonEmpty(slug) && NonEmpty("down") && IsCanonicalTimestamp(slot)
    ensures Run(Fresh({slug}), TwoFailures(slug, slot, slot))
            == LogOfRuns([FailedRun(slug, slot, slot), FailedRun(slug, slot, slot)], slug, slot)
  {
    SwitchesOn(slug, slot);
    hide Step, Run, IsCanonicalTimestamp, NonEmpty, AndFails, SwitchOn;
    ClaimThenFail(SwitchOn(slot), [], slug, slot);
    ClaimThenFail(AndFails(SwitchOn(slot), 1, slug, slot, slot), [FailedRun(slug, slot, slot)], slug, slot);
    assert [] + [FailedRun(slug, slot, slot)] == [FailedRun(slug, slot, slot)];
    assert [FailedRun(slug, slot, slot)] + [FailedRun(slug, slot, slot)]
      == [FailedRun(slug, slot, slot), FailedRun(slug, slot, slot)];
  }

  lemma ClaimThenFail(ops: seq<Op>, runs: seq<SyncRun>, slug: string, slot: string)
    requires NonEmpty(slug) && NonEmpty("down") && IsCanonicalTimestamp(slot)
    requires |runs| < MAX_SCHEDULED_ATTEMPTS && forall i :: 0 <= i < |runs| ==> runs[i] == FailedRun(slug, slot, slot)
    requires Run(Fresh({slug}), ops) == LogOfRuns(runs, slug, slot)
    ensures Run(Fresh({slug}), AndFails(ops, |runs| + 1, slug, slot, slot))
            == LogOfRuns(runs + [FailedRun(slug, slot, slot)], slug, slot)
  {
    hide Step, IsCanonicalTimestamp, NonEmpty;
    RunOneMore(Fresh({slug}), ops, Scheduled(slug, slot, slot));
    ClaimAfterFailures(runs, slug, slot, slot);
    RunOneMore(Fresh({slug}), ops + [Scheduled(slug, slot, slot)], FinishError(|runs| + 1, slot, "down"));
    ClaimFails(runs, slug, slot, slot);
  }

  lemma SwitchesOn(slug: string, at: string)
    requires IsCanonicalTimestamp(at)
    ensures Run(Fresh({slug}), SwitchOn(at)) == LogOfRuns([], slug, at)
  {
    hide IsCanonicalTimestamp;
    assert [] + SwitchOn(at) == SwitchOn(at);
    RunOneMore(Fresh({slug}), [], ControlSet(Enabled, true, at));
  }
}
