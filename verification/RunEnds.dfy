/** How runs end, and what the control row admits, in terms of times and texts. */
module RunEnds {
  import opened Wrappers
  import opened Text
  import opened DateText
  import opened Operations
  import opened SyncLogSafety
  import opened SlotCoverage

  /** Exactly the connection's running rows that started before the cutoff end,
      as failed and with the reason. */
  lemma InterruptingShows(log: Log, times: seq<Millis>, slug: string, at: Millis, cutoff: Millis)
    requires NonEmpty(slug) && StartsAt(log.runs, times)
    ensures var r := InterruptStale(log, slug, FormatUtcMillis(at), FormatUtcMillis(cutoff));
            if log.control.mode == ReadOnly then r == Failure(IsReadOnly)
            else
              && r.Success? && r.value.(runs := log.runs) == log && |r.value.runs| == |log.runs|
              && forall i :: 0 <= i < |log.runs| ==>
                   var run, run' := log.runs[i], r.value.runs[i];
                   if run.slug == slug && run.status == Running && times[i] < cutoff then
                     run' == run.(status := Errored, finishedAt := Some(FormatUtcMillis(at)),
                                  message := Some("execution owner expired before recording completion"))
                   else run' == run
  {
    FormattedIsCanonical(at);
    FormattedIsCanonical(cutoff);
    hide FormatUtcMillis, IsCanonicalTimestamp, NonEmpty, TextLess;
    forall i | 0 <= i < |log.runs|
      ensures IsStale(log.runs[i], slug, FormatUtcMillis(cutoff)) <==>
                log.runs[i].slug == slug && log.runs[i].status == Running && times[i] < cutoff
    {
      TimestampTextOrder(times[i], cutoff);
    }
  }

  /** Only the row `id` differs, and is `run`. */
  predicate OnlyRun(log: Log, log': Log, id: int, run: SyncRun) {
    && 1 <= id <= |log.runs| && |log'.runs| == |log.runs| && log'.(runs := log.runs) == log
    && log'.runs[id - 1] == run
    && forall i :: 0 <= i < |log.runs| && i != id - 1 ==> log'.runs[i] == log.runs[i]
  }

  /** A success is recorded exactly on a running row, with its counts. */
  lemma SucceedingShows(log: Log, id: int, at: Millis, completion: Completion)
    requires completion.events >= 0 && completion.loans >= 0 && completion.snapshots >= 0
    ensures var r := CompleteSuccess(log, id, FormatUtcMillis(at), completion);
            if 1 <= id <= |log.runs| && log.runs[id - 1].status == Running then
              r.Success?
              && OnlyRun(log, r.value, id,
                         log.runs[id - 1].(status := Succeeded, finishedAt := Some(FormatUtcMillis(at)),
                                           message := None, completion := completion))
            else r == Failure(if id <= 0 then Validation else Coordination)
  {
    FormattedIsCanonical(at);
    hide FormatUtcMillis, IsCanonicalTimestamp;
  }

  /** A failure is recorded exactly on a running row, with its message. */
  lemma FailingShows(log: Log, id: int, at: Millis, message: string)
    requires Trim(message) != ""
    ensures var r := CompleteError(log, id, FormatUtcMillis(at), message);
            if 1 <= id <= |log.runs| && log.runs[id - 1].status == Running then
              r.Success?
              && OnlyRun(log, r.value, id,
                         log.runs[id - 1].(status := Errored, finishedAt := Some(FormatUtcMillis(at)),
                                           message := Some(message)))
            else r == Failure(if id <= 0 then Validation else Coordination)
  {
    FormattedIsCanonical(at);
    hide FormatUtcMillis, IsCanonicalTimestamp, Trim;
  }

  /** The control row: never scheduling while read-only, and otherwise just what
      was asked. */
  lemma ControlShows(log: Log, mode: Mode, on: bool, at: Millis)
    ensures SetControl(log, mode, on, FormatUtcMillis(at))
            == if mode == ReadOnly && on then Failure(Validation)
               else Success(Log(log.runs, Control(mode, on, FormatUtcMillis(at)), log.slugs))
    ensures SetSchedulerEnabled(log, on, FormatUtcMillis(at))
            == if log.control.mode == ReadOnly && on then Failure(IsReadOnly)
               else Success(Log(log.runs, Control(log.control.mode, on, FormatUtcMillis(at)), log.slugs))
  {
    FormattedIsCanonical(at);
    hide FormatUtcMillis, IsCanonicalTimestamp;
  }

  /** Why a claim is refused, in the order of the reasons. */
  lemma RefusalsShow(log: Log, slug: string, slot: Millis, now: Millis)
    requires Trim(slug) != ""
    ensures var r := ClaimScheduled(log, slug, FormatUtcMillis(slot), FormatUtcMillis(now));
            && (log.control.mode == ReadOnly ==> r == Failure(IsReadOnly))
            && (log.control.mode == Enabled && !log.control.schedulerEnabled ==> r == Failure(SchedulerDisabled))
            && (log.control.mode == Enabled && log.control.schedulerEnabled && slug !in log.slugs ==>
                  r == Failure(ConnectionNotFound))
    ensures var r := ClaimManual(log, slug, FormatUtcMillis(now));
            && (log.control.mode == ReadOnly ==> r == Failure(IsReadOnly))
            && (log.control.mode == Enabled && slug !in log.slugs ==> r == Failure(ConnectionNotFound))
  {
    FormattedIsCanonical(slot);
    FormattedIsCanonical(now);
    hide FormatUtcMillis, IsCanonicalTimestamp, Trim, TextLess, SlotErrors, SomeCovers;
  }
}
