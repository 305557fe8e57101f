/** When a scheduled claim starts a run, in terms of times: which successes
    stand against it, and that nothing else does. */
module SlotCoverage {
  import opened Wrappers
  import opened Text
  import opened DateText
  import opened Operations
  import opened SyncLogSafety
  import opened SlotAttempts

  /** The starts of the log's runs, as times. */
  ghost predicate StartsAt(runs: seq<SyncRun>, times: seq<Millis>) {
    |times| == |runs| && forall i :: 0 <= i < |runs| ==> runs[i].startedAt == FormatUtcMillis(times[i])
  }

  /** Some success of the connection started at the slot's time or later. */
  ghost predicate LaterSuccess(runs: seq<SyncRun>, times: seq<Millis>, slug: string, slotTime: Millis)
    requires |times| == |runs|
  {
    exists i :: 0 <= i < |runs| && runs[i].slug == slug && runs[i].status == Succeeded && times[i] >= slotTime
  }

  /** No run of the connection is going, and the slot's runs so far are fewer
      than three and all failed. */
  ghost predicate SlotIsFree(runs: seq<SyncRun>, slug: string, slot: string) {
    && (forall i :: 0 <= i < |runs| && runs[i].slug == slug ==> runs[i].status != Running)
    && (forall i :: 0 <= i < |runs| && runs[i].slug == slug && runs[i].slot == Some(slot) ==>
          runs[i].status == Errored)
    && SlotRows(runs, slug, slot) < 3
  }

  lemma CoveringIsLater(runs: seq<SyncRun>, times: seq<Millis>, slug: string, slotTime: Millis, i: nat)
    requires StartsAt(runs, times) && i < |runs|
    ensures Covers(runs[i], slug, FormatUtcMillis(slotTime)) <==>
              runs[i].slug == slug && runs[i].status == Succeeded && times[i] >= slotTime
  {
    TimestampTextOrder(times[i], slotTime);
    hide FormatUtcMillis, TextLess;
  }

  /** A run is started exactly if no success of the connection started at or
      after the slot; otherwise such a success is named. */
  lemma ClaimStartsRunIff(log: Log, times: seq<Millis>, slug: string, slotTime: Millis, now: Millis)
    requires NonEmpty(slug) && slug in log.slugs && log.control.mode == Enabled && log.control.schedulerEnabled
    requires StartsAt(log.runs, times) && SlotIsFree(log.runs, slug, FormatUtcMillis(slotTime))
    ensures var r := ClaimScheduled(log, slug, FormatUtcMillis(slotTime), FormatUtcMillis(now));
            && r.Success?
            && (if LaterSuccess(log.runs, times, slug, slotTime) then
                  && r.value.0 == log && r.value.1.CoveredBySuccess? && HasRun(log.runs, r.value.1.id)
                  && log.runs[r.value.1.id - 1].slug == slug && log.runs[r.value.1.id - 1].status == Succeeded
                  && times[r.value.1.id - 1] >= slotTime
                else
                  && r.value.1 == Claimed(|log.runs| + 1)
                  && |r.value.0.runs| == |log.runs| + 1 && r.value.0.runs[..|log.runs|] == log.runs
                  && r.value.0.(runs := log.runs) == log
                  && var run := r.value.0.runs[|log.runs|];
                     && run.slug == slug && run.slot == Some(FormatUtcMillis(slotTime))
                     && run.startedAt == FormatUtcMillis(now) && run.status == Running && run.finishedAt == None)
  {
    FormattedIsCanonical(slotTime);
    FormattedIsCanonical(now);
    var slot := FormatUtcMillis(slotTime);
    hide FormatUtcMillis, IsCanonicalTimestamp, NonEmpty, TextLess, SlotRows, SlotErrors, Covers;
    forall i | 0 <= i < |log.runs|
      ensures Covers(log.runs[i], slug, slot) <==>
                log.runs[i].slug == slug && log.runs[i].status == Succeeded && times[i] >= slotTime
    {
      CoveringIsLater(log.runs, times, slug, slotTime, i);
    }
    ErrorsAreRows(log.runs, slug, slot);
    FreeSlotClaims(log, slug, slot, FormatUtcMillis(now));
    if LaterSuccess(log.runs, times, slug, slotTime) {
      var i :| 0 <= i < |log.runs| && log.runs[i].slug == slug && log.runs[i].status == Succeeded
        && times[i] >= slotTime;
      assert Covers(log.runs[i], slug, slot);
    }
    hide ClaimScheduled;
  }

  lemma FreeSlotClaims(log: Log, slug: string, slot: string, startedAt: string)
    requires NonEmpty(slug) && slug in log.slugs && log.control.mode == Enabled && log.control.schedulerEnabled
    requires SlotIsFree(log.runs, slug, slot) && IsCanonicalTimestamp(slot) && IsCanonicalTimestamp(startedAt)
    ensures var r := ClaimScheduled(log, slug, slot, startedAt);
            if SomeCovers(log.runs, slug, slot)
            then r.Success? && r.value.0 == log && r.value.1.CoveredBySuccess? && HasRun(log.runs, r.value.1.id)
                 && Covers(log.runs[r.value.1.id - 1], slug, slot)
            else r == Success((log.(runs := log.runs + [NewRun(slug, Some(slot), startedAt)]),
                               Claimed(|log.runs| + 1)))
  {
    hide IsCanonicalTimestamp, NonEmpty, TextLess, SlotRows, SlotErrors, Covers;
    ErrorsAreRows(log.runs, slug, slot);
  }

  /** While the database is read-only no statement starts a run, and with the
      scheduler off none starts a scheduled one. */
  lemma NoStartsWhenOff(log: Log, op: Op)
    ensures log.control.mode == ReadOnly ==> |Step(log, op).runs| == |log.runs|
    ensures !log.control.schedulerEnabled && |Step(log, op).runs| > |log.runs| ==>
              |Step(log, op).runs| == |log.runs| + 1 && Step(log, op).runs[|log.runs|].slot == None
  {
    hide IsCanonicalTimestamp, NonEmpty, TextLess, SlotErrors, SomeCovers;
  }

  /** A new database has run nothing, is read-only, and does not schedule. */
  lemma NewDatabaseIs(slugs: set<string>)
    ensures Fresh(slugs).runs == [] && Fresh(slugs).slugs == slugs
    ensures Fresh(slugs).control.mode == ReadOnly && !Fresh(slugs).control.schedulerEnabled
  {
  }
}
