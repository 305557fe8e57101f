/** Which commands on events and streams are taken, told from the tables and the
    command alone. */
module CommandRules {
  import opened Wrappers
  import opened Calendar
  import opened Recurrence
  import opened Text
  import opened StreamEvents
  import opened RefreshSpec
  import opened EventLifecycle
  import opened ProjectionValues

  // ---- single events ----

  /** A user may change the event: it is open, and no provider's. */
  predicate MayChange(b: Books, id: nat) {
    id in b.ledger.rows && b.ledger.rows[id].status in {Projected, Confirmed}
    && b.ledger.rows[id].sourceType in {Manual, StreamSchedule}
  }

  /** An event that is there but may not be changed is a conflict. */
  predicate RefusedAsIs(b: Books, id: nat, r: Result<(Books, nat), FinanceError>) {
    r == Failure(if id in b.ledger.rows then Conflict else NotFound)
  }

  lemma PatchIsTakenIff(b: Books, id: nat, p: EventPatch)
    ensures var r, sound := PatchEvent(b, id, p),
                (p.amount.Set? ==> p.amount.value > 0) && (p.title.Set? ==> Trim(p.title.value) != "");
            && (!sound ==> r == Failure(Validation))
            && (sound && p.accountId.Set? && p.accountId.value !in b.accounts ==> r == Failure(NotFound))
            && (sound && (p.accountId.Set? ==> p.accountId.value in b.accounts) ==>
                  if MayChange(b, id) then r.Success? && r.value.1 == id else RefusedAsIs(b, id, r))
  {
    hide Trim;
  }

  lemma RemoveIsTakenIff(b: Books, id: nat)
    ensures var r := RemoveEvent(b, id);
            if MayChange(b, id) then
              r.Success? && r.value.1 == id
              && (b.ledger.rows[id].sourceType == Manual <==> id !in r.value.0.ledger.rows)
            else RefusedAsIs(b, id, r)
  {
  }

  lemma RestoreIsTakenIff(b: Books, id: nat)
    ensures var r := RestoreEvent(b, id);
            if MayChange(b, id) && b.ledger.rows[id].sourceType == StreamSchedule
               && b.ledger.rows[id].exclusion == Some(ByUser)
            then r.Success? && r.value.1 == id && id in r.value.0.ledger.rows
                 && r.value.0.ledger.rows[id].exclusion == None
            else RefusedAsIs(b, id, r)
  {
  }

  lemma ReconcileIsTakenIff(b: Books, id: nat, date: IsoDate, amount: int)
    ensures var r := ReconcileEvent(b, id, date, amount);
            && (amount <= 0 ==> r == Failure(Validation))
            && (amount > 0 ==>
                  if MayChange(b, id) && b.ledger.rows[id].exclusion == None then r.Success? && r.value.1 == id
                  else RefusedAsIs(b, id, r))
  {
  }

  /** A manual event is taken with a label, a positive amount, a status that is
      not received, an active stream and an account that exists. */
  lemma CreateIsTakenIff(b: Books, d: EventDraft)
    ensures var r, sound := CreateManualEvent(b, d),
                Trim(d.title) != "" && d.amount > 0 && d.status in {Projected, Confirmed};
            && (r.Success? <==>
                  && sound && 1 <= d.streamId <= |b.streams| && b.streams[d.streamId - 1].active
                  && (d.accountId.Some? ==> d.accountId.value in b.accounts))
            && (r.Failure? ==> r.error == if sound then NotFound else Validation)
  {
    hide Trim;
  }

  // ---- provider events ----

  /** No sequence of commands changes or removes a provider's event. */
  lemma {:induction false} ProviderEventIsFinal(b: Books, commands: seq<Command>, id: nat)
    requires Sound(b) && id in b.ledger.rows && b.ledger.rows[id].sourceType.Provider?
    ensures id in Run(b, commands).ledger.rows && Run(b, commands).ledger.rows[id] == b.ledger.rows[id]
  {
    hide Step, Sound;
    if commands != [] {
      var init := commands[..|commands| - 1];
      ProviderEventIsFinal(b, init, id);
      RunIsSound(b, init);
      StepIsGood(Run(b, init), commands[|commands| - 1]);
      assert RowKept(Run(b, init), Run(b, commands), id, commands[|commands| - 1]);
    }
  }

  // ---- saving a stream ----

  /** A schedule's amount is not negative, a monthly one has a due day, due days
      are days of a month, and it does not end before it starts. */
  predicate SoundDraft(s: ScheduleDraft) {
    && s.amount >= 0 && (s.frequency == Monthly ==> s.dayOfMonth.Some?)
    && (s.dayOfMonth.Some? ==> 1 <= s.dayOfMonth.value && s.dayOfMonth.value <= 31)
    && (s.endDate.Some? ==> Day(s.endDate.value) >= Day(s.startDate))
  }

  predicate AllSound(d: StreamDraft) {
    Trim(d.name) != "" && forall i :: 0 <= i < |d.schedules| ==> SoundDraft(d.schedules[i])
  }

  predicate AccountsThere(b: Books, d: StreamDraft) {
    && (d.defaultAccountId.Some? ==> d.defaultAccountId.value in b.accounts)
    && (forall i :: 0 <= i < |d.schedules| && d.schedules[i].accountId.Some? ==>
          d.schedules[i].accountId.value in b.accounts)
  }

  /** The stream named, and a parent named, are active. */
  predicate StreamsThere(b: Books, d: StreamDraft) {
    && (d.id.Some? ==> 1 <= d.id.value <= |b.streams| && b.streams[d.id.value - 1].active)
    && (d.parentId.Some? ==> 1 <= d.parentId.value <= |b.streams| && b.streams[d.parentId.value - 1].active)
  }

  /** Every schedule named is the stream's, and none is named twice. */
  ghost predicate SchedulesThere(schedules: seq<Schedule>, streamId: nat, drafts: seq<ScheduleDraft>, n: nat)
    requires n <= |drafts|
  {
    && (forall i :: 0 <= i < n && drafts[i].id.Some? ==>
          && 1 <= drafts[i].id.value <= |schedules| && schedules[drafts[i].id.value - 1].streamId == streamId)
    && (forall i, j :: 0 <= i < j < n && drafts[i].id.Some? ==> drafts[i].id != drafts[j].id)
  }

  lemma SoundIsValid(d: StreamDraft)
    ensures AllSound(d) <==> ValidDraft(d)
  {
    hide Day, Trim;
  }

  /** The rows a save keeps: those it named, and its new ones. */
  ghost predicate KeptAre(schedules: seq<Schedule>, saved: seq<Schedule>, streamId: nat, drafts: seq<ScheduleDraft>,
                          n: nat, kept: seq<nat>)
    requires n <= |drafts|
  {
    && |schedules| <= |saved|
    && (forall id: nat :: 1 <= id <= |schedules| && id !in kept ==> saved[id - 1] == schedules[id - 1])
    && (forall id: nat :: 1 <= id <= |schedules| && id in kept ==>
          saved[id - 1].streamId == streamId && schedules[id - 1].streamId == streamId)
    && (forall id: nat :: |schedules| < id <= |saved| ==> id in kept)
    && (forall id: nat :: 1 <= id <= |schedules| ==> (id in kept <==> Names(drafts, n, id)))
  }

  ghost predicate Names(drafts: seq<ScheduleDraft>, n: nat, id: nat)
    requires n <= |drafts|
  {
    exists j :: 0 <= j < n && drafts[j].id == Some(id)
  }

  lemma {:induction false} SchedulesSaveIff(schedules: seq<Schedule>, streamId: nat, drafts: seq<ScheduleDraft>, n: nat)
    requires n <= |drafts| && forall i :: 0 <= i < |drafts| ==> ValidScheduleDraft(drafts[i])
    ensures var r := SaveSchedules(schedules, streamId, drafts, n);
            && (r.Success? <==> SchedulesThere(schedules, streamId, drafts, n))
            && (r.Success? ==> KeptAre(schedules, r.value.0, streamId, drafts, n, r.value.1))
  {
    hide Day, DraftRow, ValidScheduleDraft, SchedulesThere, KeptAre;
    if n == 0 {
      NoneThere(schedules, streamId, drafts);
    } else {
      SchedulesSaveIff(schedules, streamId, drafts, n - 1);
      OneMoreThere(schedules, streamId, drafts, n);
      var r := SaveSchedules(schedules, streamId, drafts, n - 1);
      if r.Success? { OneMoreKept(schedules, r.value.0, streamId, drafts, n, r.value.1); }
    }
  }

  lemma NoneThere(schedules: seq<Schedule>, streamId: nat, drafts: seq<ScheduleDraft>)
    ensures SchedulesThere(schedules, streamId, drafts, 0) && KeptAre(schedules, schedules, streamId, drafts, 0, [])
  {
  }

  predicate ThisOneThere(schedules: seq<Schedule>, streamId: nat, id: nat) {
    1 <= id <= |schedules| && schedules[id - 1].streamId == streamId
  }

  lemma OneMoreThere(schedules: seq<Schedule>, streamId: nat, drafts: seq<ScheduleDraft>, n: nat)
    requires 0 < n <= |drafts|
    ensures var id := drafts[n - 1].id;
            SchedulesThere(schedules, streamId, drafts, n) <==>
              && SchedulesThere(schedules, streamId, drafts, n - 1)
              && (id.Some? ==> ThisOneThere(schedules, streamId, id.value) && !Names(drafts, n - 1, id.value))
  {
    var id := drafts[n - 1].id;
    if id.Some? && Names(drafts, n - 1, id.value) {
      var j :| 0 <= j < n - 1 && drafts[j].id == Some(id.value);
      assert drafts[j].id == drafts[n - 1].id;
    }
  }

  lemma OneMoreKept(
    schedules: seq<Schedule>, saved: seq<Schedule>, streamId: nat, drafts: seq<ScheduleDraft>, n: nat, kept: seq<nat>)
    requires 0 < n <= |drafts| && ValidScheduleDraft(drafts[n - 1])
    requires KeptAre(schedules, saved, streamId, drafts, n - 1, kept)
    ensures var row, id := DraftRow(streamId, drafts[n - 1]), drafts[n - 1].id;
            && (id.None? ==> KeptAre(schedules, saved + [row], streamId, drafts, n, kept + [|saved| + 1]))
            && (id.Some? ==>
                  && (ThisOneThere(schedules, streamId, id.value) && !Names(drafts, n - 1, id.value) <==>
                        ThisOneThere(saved, streamId, id.value) && id.value !in kept)
                  && (ThisOneThere(schedules, streamId, id.value) && id.value !in kept ==>
                        KeptAre(schedules, saved[id.value - 1 := row], streamId, drafts, n, kept + [id.value])))
  {
    hide Day, Trim, CleanLabel;
    var row, id := DraftRow(streamId, drafts[n - 1]), drafts[n - 1].id;
    forall other: nat ensures Names(drafts, n, other) <==> Names(drafts, n - 1, other) || id == Some(other) {
      if id == Some(other) { assert drafts[n - 1].id == Some(other); }
    }
    if id.Some? {
      var kept' := kept + [id.value];
      assert kept'[|kept|] == id.value && forall other :: other in kept' <==> other in kept || other == id.value;
    } else {
      var kept' := kept + [|saved| + 1];
      assert kept'[|kept|] == |saved| + 1 && forall other :: other in kept' <==> other in kept || other == |saved| + 1;
    }
  }

  function SavedId(b: Books, d: StreamDraft): nat { if d.id.Some? then d.id.value else |b.streams| + 1 }

  /** A schedule of the draft reaches the window and cannot be computed there. */
  ghost predicate SomeBeyondCalendar(d: StreamDraft, w: Window) {
    exists j :: 0 <= j < |d.schedules|
      && CannotProject(ScheduleOf(d.schedules[j]), w)
  }

  /** A save is taken exactly if the draft is sound, everything it names is
      there, and its own schedules can be projected in the window; schedules it
      no longer has do not matter. */
  lemma SaveIsTakenIff(b: Books, d: StreamDraft, w: Window)
    ensures SaveStream(b, d, w).Success? <==>
              && AllSound(d) && AccountsThere(b, d) && StreamsThere(b, d)
              && SchedulesThere(b.schedules, SavedId(b, d), d.schedules, |d.schedules|)
              && !SomeBeyondCalendar(d, w)
    ensures !AllSound(d) ==> SaveStream(b, d, w) == Failure(Validation)
    ensures AllSound(d) && !(AccountsThere(b, d) && StreamsThere(b, d)) ==>
              SaveStream(b, d, w) == Failure(NotFound)
  {
    SoundIsValid(d);
    NamedAreThere(b, d);
    if AllSound(d) && AccountsThere(b, d) && StreamsThere(b, d) {
      ValidSchedules(d);
      SchedulesSaveIff(b.schedules, SavedId(b, d), d.schedules, |d.schedules|);
      hide Day, Trim, SaveSchedules, RefreshOn, DeactivateOthers, SomeBeyondCalendar, SchedulesThere, KeptAre, AllSound,
           ValidDraft, AccountsThere, StreamsThere, AccountsExist;
      if SchedulesThere(b.schedules, SavedId(b, d), d.schedules, |d.schedules|) {
        var (saved, kept) := SaveSchedules(b.schedules, SavedId(b, d), d.schedules, |d.schedules|).value;
        SavedCanProjectIff(b, d, w, saved, kept);
      }
    }
    hide Day, Trim, SaveSchedules, RefreshOn, DeactivateOthers, SomeBeyondCalendar, SchedulesThere, KeptAre, AllSound,
         ValidDraft, AccountsThere, AccountsExist;
  }

  lemma ValidSchedules(d: StreamDraft)
    requires ValidDraft(d)
    ensures forall i :: 0 <= i < |d.schedules| ==> ValidScheduleDraft(d.schedules[i])
  {
    hide Day, Trim;
  }

  lemma NamedAreThere(b: Books, d: StreamDraft)
    ensures AccountsThere(b, d) && StreamsThere(b, d) <==>
              AccountsExist(b, d) && (d.id.Some? ==> ActiveStream(b, d.id.value))
  {
  }

  lemma SavedCanProjectIff(b: Books, d: StreamDraft, w: Window, saved: seq<Schedule>, kept: seq<nat>)
    requires forall i :: 0 <= i < |d.schedules| ==> ValidScheduleDraft(d.schedules[i])
    requires SaveSchedules(b.schedules, SavedId(b, d), d.schedules, |d.schedules|) == Success((saved, kept))
    ensures forall b': Books, name: string :: b'.schedules == DeactivateOthers(saved, SavedId(b, d), kept) ==>
              (RefreshOn(b', SavedId(b, d), name, w).Failure? <==> SomeBeyondCalendar(d, w))
  {
    var streamId, rows := SavedId(b, d), DeactivateOthers(saved, SavedId(b, d), kept);
    SavedRows(b.schedules, streamId, d.schedules, |d.schedules|);
    BlockingIsBeyond(b.schedules, d, w, saved, kept, rows, streamId);
    hide Day, Plan, Upserts, Tombstone, SomeBeyondCalendar, Blocks, DeactivateOthers, SavedUpTo, SaveSchedules;
    forall b': Books, name: string | b'.schedules == rows
      ensures RefreshOn(b', streamId, name, w).Failure? <==> SomeBeyondCalendar(d, w)
    {
      PlanFailsIff(rows, |rows|, streamId, name, w);
    }
  }

  lemma BlockingIsBeyond(
    schedules: seq<Schedule>, d: StreamDraft, w: Window, saved: seq<Schedule>, kept: seq<nat>, rows: seq<Schedule>,
    streamId: nat)
    requires forall i :: 0 <= i < |d.schedules| ==> ValidScheduleDraft(d.schedules[i])
    requires SavedUpTo(schedules, streamId, d.schedules, |d.schedules|, saved, kept)
    requires rows == DeactivateOthers(saved, streamId, kept)
    ensures (exists k :: 0 <= k < |rows| && Blocks(rows[k], streamId, w)) <==> SomeBeyondCalendar(d, w)
  {
    hide Day, CannotProject, ValidScheduleDraft, IsDraftsRow;
    if k :| 0 <= k < |rows| && Blocks(rows[k], streamId, w) {
      assert k + 1 in kept;
      var j :| 0 <= j < |kept| && kept[j] == k + 1;
      SameProjection(rows[k], streamId, d.schedules[j], w);
    }
    if j :| 0 <= j < |d.schedules| && CannotProject(ScheduleOf(d.schedules[j]), w) {
      assert kept[j] in kept;
      SameProjection(rows[kept[j] - 1], streamId, d.schedules[j], w);
      assert Blocks(rows[kept[j] - 1], streamId, w);
    }
  }

  function ScheduleOf(d: ScheduleDraft): Schedule {
    Schedule(0, None, None, 0, d.frequency, d.dayOfMonth, d.startDate, d.endDate, true)
  }

  lemma SameProjection(s: Schedule, streamId: nat, d: ScheduleDraft, w: Window)
    requires IsDraftsRow(s, streamId, d)
    ensures s.streamId == streamId && s.active && (CannotProject(s, w) <==> CannotProject(ScheduleOf(d), w))
  {
    hide Day, Trim, Computable;
  }
}
