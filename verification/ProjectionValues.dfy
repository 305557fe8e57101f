/** What the projected rows of a stream show, told from its schedules and from
    the draft that saved it. */
module ProjectionValues {
  import opened Wrappers
  import opened Calendar
  import opened Recurrence
  import opened Text
  import opened StreamEvents
  import opened RefreshSpec
  import Slots

  // ---- what a row shows ----

  /** A projection of the stream in the window that is open, shown, and as the
      schedule made it. */
  predicate Shown(e: Event, streamId: nat, w: Window) {
    && e.streamId == streamId && e.sourceType == StreamSchedule && e.status != Received && e.exclusion == None
    && e.overrideDate == None && e.overrideAmount == None && !e.hasLabelOverride && !e.hasAccountOverride
    && Day(w.from) <= Day(e.expectedDate) <= Day(w.through)
  }

  /** The rule names the date, between the schedule's own bounds and the
      window's. */
  predicate FallsDue(rule: Rule, endDate: Option<IsoDate>, w: Window, date: IsoDate) {
    && Recurs(rule, date) && Day(rule.anchor) <= Day(date) && (endDate == None || Day(date) <= Day(endDate.value))
    && Day(w.from) <= Day(date) <= Day(w.through)
  }

  predicate IsDue(s: Schedule, streamId: nat, w: Window, date: IsoDate) {
    s.streamId == streamId && s.active && FallsDue(Rule(s.frequency, s.startDate, s.dayOfMonth), s.endDate, w, date)
  }

  /** The schedule's own label, or else the stream's name. */
  predicate ShowsSchedule(e: Event, s: Schedule, name: string, date: IsoDate) {
    e.expectedDate == date && e.amount == s.amount && e.accountId == s.accountId
    && (s.title.Some? ==> e.title == s.title) && (s.title.None? ==> e.title == Some(name + " due"))
  }

  /** The row says which schedule made it, under which name of the stream. */
  predicate MadeBy(e: Event, k: nat, name: string) { e.metadata == ScheduleMetadata(k + 1, name) }

  /** A row that was not there before: nothing has happened to it yet. */
  predicate IsNew(e: Event) {
    && e.status == Projected && e.actualDate == None && e.actualAmount == None && e.notes == None
    && e.exclusion == None && e.overrideLabel == None && e.overrideAccount == None
  }

  /** The occurrence has a row that is received, changed by the user, or removed
      by the user. */
  ghost predicate IsTaken(l: Ledger, streamId: nat, sourceId: string) {
    exists id :: id in l.rows && l.rows[id].streamId == streamId && l.rows[id].sourceType == StreamSchedule
      && l.rows[id].sourceId == sourceId
      && (l.rows[id].status == Received || l.rows[id].exclusion == Some(ByUser)
          || l.rows[id].overrideDate != None || l.rows[id].overrideAmount != None
          || l.rows[id].hasLabelOverride || l.rows[id].hasAccountOverride)
  }

  function SlotId(k: nat, s: Schedule, date: IsoDate): string {
    Slots.SourceId(k + 1, Slots.ProjectionSlot(s.frequency, s.startDate, date))
  }

  // ---- a refresh ----

  ghost predicate FromSchedules(e: Event, schedules: seq<Schedule>, streamId: nat, name: string, w: Window) {
    exists k: nat, date: IsoDate ::
      && k < |schedules| && IsDue(schedules[k], streamId, w, date) && ShowsSchedule(e, schedules[k], name, date)
      && MadeBy(e, k, name)
  }

  ghost predicate IsShown(l: Ledger, streamId: nat, w: Window, s: Schedule, name: string, date: IsoDate) {
    exists id :: id in l.rows && Shown(l.rows[id], streamId, w) && ShowsSchedule(l.rows[id], s, name, date)
  }

  lemma LiveIsShown(e: Event, streamId: nat, w: Window)
    ensures Live(e, streamId, w) <==> Shown(e, streamId, w)
  {
    hide Day;
  }

  lemma PlannedIsDue(
    schedules: seq<Schedule>, k: nat, streamId: nat, name: string, w: Window, date: IsoDate, seed: Seed, e: Event)
    requires k < |schedules| && PlannedAt(schedules, k, streamId, name, w, date, seed) && Carries(e, seed)
    ensures IsDue(schedules[k], streamId, w, date) && ShowsSchedule(e, schedules[k], name, date) && MadeBy(e, k, name)
  {
    hide Day, Recurs;
  }

  lemma DueIsPlanned(schedules: seq<Schedule>, k: nat, streamId: nat, name: string, w: Window, date: IsoDate)
    requires k < |schedules| && IsDue(schedules[k], streamId, w, date)
    ensures PlannedAt(schedules, k, streamId, name, w, date, SeedOf(k + 1, schedules[k], name, date))
    ensures SeedOf(k + 1, schedules[k], name, date).streamId == streamId
    ensures SeedOf(k + 1, schedules[k], name, date).sourceId == SlotId(k, schedules[k], date)
  {
    hide Day, Recurs;
  }

  lemma BlockedIsTaken(l: Ledger, seed: Seed)
    ensures Blocked(l, seed) ==> IsTaken(l, seed.streamId, seed.sourceId)
  {
  }

  /** After a refresh every shown row is an occurrence of an active schedule, with
      that schedule's amount, account and label; and every occurrence that is not
      taken is shown so. */
  lemma RefreshShowsSchedules(b: Books, streamId: nat, name: string, w: Window, b': Books, count: nat)
    requires WellKeyed(b.ledger) && RefreshOn(b, streamId, name, w) == Success((b', count))
    ensures forall id :: id in b'.ledger.rows && Shown(b'.ledger.rows[id], streamId, w) ==>
              FromSchedules(b'.ledger.rows[id], b.schedules, streamId, name, w)
    ensures forall k: nat, date: IsoDate ::
              k < |b.schedules| && IsDue(b.schedules[k], streamId, w, date)
              && !IsTaken(b.ledger, streamId, SlotId(k, b.schedules[k], date)) ==>
                IsShown(b'.ledger, streamId, w, b.schedules[k], name, date)
  {
    RefreshIsExact(b, streamId, name, w, b', count);
    hide Day, WellKeyed, RefreshOn, Shown, Live, Carries, IsDue, ShowsSchedule, IsTaken, Blocked, SeedOf, PlannedAt,
         SlotId;
    forall id | id in b'.ledger.rows && Shown(b'.ledger.rows[id], streamId, w)
      ensures FromSchedules(b'.ledger.rows[id], b.schedules, streamId, name, w)
    {
      var e := b'.ledger.rows[id];
      LiveIsShown(e, streamId, w);
      var seed :| Planned(b.schedules, |b.schedules|, streamId, name, w, seed) && Carries(e, seed);
      var k: nat, date: IsoDate :| k < |b.schedules| && PlannedAt(b.schedules, k, streamId, name, w, date, seed);
      PlannedIsDue(b.schedules, k, streamId, name, w, date, seed, e);
    }
    forall k: nat, date: IsoDate |
        k < |b.schedules| && IsDue(b.schedules[k], streamId, w, date)
        && !IsTaken(b.ledger, streamId, SlotId(k, b.schedules[k], date))
      ensures IsShown(b'.ledger, streamId, w, b.schedules[k], name, date)
    {
      var seed := SeedOf(k + 1, b.schedules[k], name, date);
      DueIsPlanned(b.schedules, k, streamId, name, w, date);
      BlockedIsTaken(b.ledger, seed);
      assert Planned(b.schedules, |b.schedules|, streamId, name, w, seed);
      var id :| id in b'.ledger.rows && Live(b'.ledger.rows[id], streamId, w) && Carries(b'.ledger.rows[id], seed);
      LiveIsShown(b'.ledger.rows[id], streamId, w);
      CarriesShows(b.schedules, k, streamId, name, w, date, b'.ledger.rows[id]);
    }
  }

  /** Rows that a refresh adds are new, and the stream's. */
  lemma AddedRowsAreNew(b: Books, streamId: nat, name: string, w: Window, b': Books, count: nat)
    requires WellKeyed(b.ledger) && RefreshOn(b, streamId, name, w) == Success((b', count))
    ensures forall id :: id in b'.ledger.rows && id !in b.ledger.rows ==>
              IsNew(b'.ledger.rows[id]) && b'.ledger.rows[id].streamId == streamId
              && b'.ledger.rows[id].sourceType == StreamSchedule
  {
    hide Day, Plan, Planned, WellKeyed;
    RefreshRows(b, streamId, name, w, b', count);
    hide RefreshOn;
  }

  /** A refresh hides no row but one that was shown as its schedule made it; all
      that a user changed, and all outside the window, stay as visible as they
      were, and a row without an occurrence keeps its values. */
  lemma RefreshHidesOnlyShown(b: Books, streamId: nat, name: string, w: Window, b': Books, count: nat, id: nat)
    requires WellKeyed(b.ledger) && RefreshOn(b, streamId, name, w) == Success((b', count)) && id in b.ledger.rows
    ensures id in b'.ledger.rows
    ensures var e, e' := b.ledger.rows[id], b'.ledger.rows[id];
            && (e.exclusion == None && e'.exclusion != None ==>
                  Shown(e, streamId, w) && e' == e.(exclusion := Some(BySchedule)))
            && (e'.exclusion == e.exclusion || e.exclusion == None
                || (e.exclusion == Some(BySchedule) && e'.exclusion == None))
  {
    hide Day, Plan, Planned, WellKeyed, After, Retire;
    RefreshRows(b, streamId, name, w, b', count);
    RowHidesOnlyShown(b.ledger.rows[id], streamId, w, Plan(b.schedules, |b.schedules|, streamId, name, w).value);
    hide RefreshOn, Refreshed;
  }

  lemma TwoReasons(exclusion: Option<Reason>)
    ensures exclusion == None || exclusion == Some(ByUser) || exclusion == Some(BySchedule)
  {
    match exclusion
    case None =>
    case Some(ByUser) =>
    case Some(BySchedule) =>
  }

  lemma RowHidesOnlyShown(e: Event, streamId: nat, w: Window, seeds: seq<Seed>)
    requires DistinctSlots(seeds, streamId)
    ensures var e' := Refreshed(e, streamId, w, seeds);
            && (e.exclusion == None && e'.exclusion != None ==>
                  Shown(e, streamId, w) && e' == e.(exclusion := Some(BySchedule)))
            && (e'.exclusion == e.exclusion || e.exclusion == None
                || (e.exclusion == Some(BySchedule) && e'.exclusion == None))
  {
    hide Day, After;
    var retired := Retire(e, streamId, w);
    AfterKeepsKey(retired, seeds);
    TwoReasons(e.exclusion);
    if i :| 0 <= i < |seeds| && Takes(retired, seeds[i]) {
      AfterIsItsSeed(retired, seeds, streamId, i);
      assert Reseed(retired, seeds[i]).exclusion in {retired.exclusion, None};
    }
  }

  lemma CarriesShows(schedules: seq<Schedule>, k: nat, streamId: nat, name: string, w: Window, date: IsoDate, e: Event)
    requires k < |schedules| && IsDue(schedules[k], streamId, w, date)
    requires Carries(e, SeedOf(k + 1, schedules[k], name, date))
    ensures ShowsSchedule(e, schedules[k], name, date)
  {
    DueIsPlanned(schedules, k, streamId, name, w, date);
    PlannedIsDue(schedules, k, streamId, name, w, date, SeedOf(k + 1, schedules[k], name, date), e);
  }

  // ---- a save ----

  /** What the draft says of the row. */
  predicate IsDraftsRow(s: Schedule, streamId: nat, d: ScheduleDraft) {
    && s.streamId == streamId && s.active && s.amount == d.amount && s.accountId == d.accountId
    && s.frequency == d.frequency && s.dayOfMonth == d.dayOfMonth && s.startDate == d.startDate
    && s.endDate == d.endDate
    && s.title == (if d.title.Some? && Trim(d.title.value) != "" then Some(Trim(d.title.value)) else None)
  }

  lemma DraftRowIsDrafts(streamId: nat, d: ScheduleDraft)
    requires ValidScheduleDraft(d)
    ensures IsDraftsRow(DraftRow(streamId, d), streamId, d)
  {
    hide Day, Trim;
  }

  /** Where the schedules of a save end up: the named ones in their rows, the new
      ones in rows of their own, the others where they were. */
  lemma {:induction false} SavedRows(schedules: seq<Schedule>, streamId: nat, drafts: seq<ScheduleDraft>, n: nat)
    requires n <= |drafts| && forall i :: 0 <= i < |drafts| ==> ValidScheduleDraft(drafts[i])
    requires SaveSchedules(schedules, streamId, drafts, n).Success?
    ensures var (saved, kept) := SaveSchedules(schedules, streamId, drafts, n).value;
            SavedUpTo(schedules, streamId, drafts, n, saved, kept)
  {
    hide Day, DraftRow, ValidScheduleDraft, SavedUpTo, IsDraftsRow;
    if n > 0 {
      SavedRows(schedules, streamId, drafts, n - 1);
      var (saved, kept) := SaveSchedules(schedules, streamId, drafts, n - 1).value;
      if drafts[n - 1].id.None? { NewRowSaved(schedules, streamId, drafts, n, saved, kept); }
      else { NamedRowSaved(schedules, streamId, drafts, n, saved, kept); }
    } else {
      NoRowSaved(schedules, streamId, drafts);
    }
  }

  /** The draft is row `id` now: the row it named, or a new one. */
  predicate RowIsSaved(before: nat, saved: seq<Schedule>, streamId: nat, d: ScheduleDraft, id: nat) {
    && 1 <= id <= |saved| && IsDraftsRow(saved[id - 1], streamId, d)
    && (d.id.Some? ==> id == d.id.value) && (d.id.None? ==> id > before)
  }

  ghost predicate RowsAreSaved(
    before: nat, saved: seq<Schedule>, streamId: nat, drafts: seq<ScheduleDraft>, n: nat, kept: seq<nat>)
    requires n <= |drafts|
  {
    |kept| == n && forall j :: 0 <= j < n ==> RowIsSaved(before, saved, streamId, drafts[j], kept[j])
  }

  ghost predicate AllDiffer(ids: seq<nat>) { forall i, j :: 0 <= i < j < |ids| ==> ids[i] != ids[j] }

  ghost predicate OthersStay(schedules: seq<Schedule>, saved: seq<Schedule>, kept: seq<nat>) {
    && |schedules| <= |saved|
    && forall id: nat :: 1 <= id <= |saved| && id !in kept ==>
         id <= |schedules| && saved[id - 1] == schedules[id - 1]
  }

  ghost predicate SavedUpTo(
    schedules: seq<Schedule>, streamId: nat, drafts: seq<ScheduleDraft>, n: nat, saved: seq<Schedule>, kept: seq<nat>)
    requires n <= |drafts|
  {
    && RowsAreSaved(|schedules|, saved, streamId, drafts, n, kept) && AllDiffer(kept)
    && OthersStay(schedules, saved, kept) && forall id :: id in kept ==> 1 <= id <= |saved|
  }

  lemma NoRowSaved(schedules: seq<Schedule>, streamId: nat, drafts: seq<ScheduleDraft>)
    ensures SavedUpTo(schedules, streamId, drafts, 0, schedules, [])
  {
    hide IsDraftsRow;
  }

  lemma OneMoreId(kept: seq<nat>, id: nat)
    requires AllDiffer(kept) && id !in kept
    ensures AllDiffer(kept + [id])
    ensures forall other :: other in kept + [id] <==> other in kept || other == id
  {
    forall i | 0 <= i < |kept| ensures kept[i] != id { assert kept[i] in kept; }
  }

  /** One more row, the old ones as they were but for row `id`. */
  lemma OneMoreRow(
    before: nat, saved: seq<Schedule>, saved': seq<Schedule>, streamId: nat, drafts: seq<ScheduleDraft>, n: nat,
    kept: seq<nat>, id: nat)
    requires 0 < n <= |drafts| && RowsAreSaved(before, saved, streamId, drafts, n - 1, kept) && id !in kept
    requires |saved| <= |saved'| && forall i :: 0 <= i < |saved| && i != id - 1 ==> saved'[i] == saved[i]
    requires RowIsSaved(before, saved', streamId, drafts[n - 1], id)
    ensures RowsAreSaved(before, saved', streamId, drafts, n, kept + [id])
  {
    hide IsDraftsRow;
    forall j | 0 <= j < n ensures RowIsSaved(before, saved', streamId, drafts[j], (kept + [id])[j]) {
      if j < n - 1 {
        assert kept[j] in kept && RowIsSaved(before, saved, streamId, drafts[j], kept[j]);
        assert saved'[kept[j] - 1] == saved[kept[j] - 1];
      }
    }
  }

  lemma NewRowSaved(
    schedules: seq<Schedule>, streamId: nat, drafts: seq<ScheduleDraft>, n: nat, saved: seq<Schedule>, kept: seq<nat>)
    requires 0 < n <= |drafts| && ValidScheduleDraft(drafts[n - 1])
    requires SavedUpTo(schedules, streamId, drafts, n - 1, saved, kept) && drafts[n - 1].id.None?
    ensures SavedUpTo(schedules, streamId, drafts, n, saved + [DraftRow(streamId, drafts[n - 1])],
                      kept + [|saved| + 1])
  {
    DraftRowIsDrafts(streamId, drafts[n - 1]);
    var row := DraftRow(streamId, drafts[n - 1]);
    var saved' := saved + [row];
    hide Day, DraftRow, IsDraftsRow, ValidScheduleDraft;
    assert saved'[|saved|] == row;
    OneMoreId(kept, |saved| + 1);
    OneMoreRow(|schedules|, saved, saved', streamId, drafts, n, kept, |saved| + 1);
    hide RowsAreSaved, AllDiffer, RowIsSaved;
  }

  lemma NamedRowSaved(
    schedules: seq<Schedule>, streamId: nat, drafts: seq<ScheduleDraft>, n: nat, saved: seq<Schedule>, kept: seq<nat>)
    requires 0 < n <= |drafts| && ValidScheduleDraft(drafts[n - 1])
    requires SavedUpTo(schedules, streamId, drafts, n - 1, saved, kept) && drafts[n - 1].id.Some?
    requires 1 <= drafts[n - 1].id.value <= |saved| && drafts[n - 1].id.value !in kept
    ensures var id := drafts[n - 1].id.value;
            SavedUpTo(schedules, streamId, drafts, n, saved[id - 1 := DraftRow(streamId, drafts[n - 1])], kept + [id])
  {
    DraftRowIsDrafts(streamId, drafts[n - 1]);
    var id, row := drafts[n - 1].id.value, DraftRow(streamId, drafts[n - 1]);
    var saved' := saved[id - 1 := row];
    hide Day, DraftRow, IsDraftsRow, ValidScheduleDraft;
    OneMoreId(kept, id);
    OneMoreRow(|schedules|, saved, saved', streamId, drafts, n, kept, id);
    hide RowsAreSaved, AllDiffer, RowIsSaved;
  }

  /** The schedules of a saved stream: `ids` names the row of each draft, and no
      other schedule of the stream is active. */
  ghost predicate SchedulesAre(b: Books, b1: Books, streamId: nat, d: StreamDraft, ids: seq<nat>) {
    && |ids| == |d.schedules|
    && (forall j :: 0 <= j < |ids| ==>
          && 1 <= ids[j] <= |b1.schedules| && IsDraftsRow(b1.schedules[ids[j] - 1], streamId, d.schedules[j])
          && (d.schedules[j].id.Some? ==> ids[j] == d.schedules[j].id.value)
          && (d.schedules[j].id.None? ==> ids[j] > |b.schedules|))
    && (forall i, j :: 0 <= i < j < |ids| ==> ids[i] != ids[j])
    && (forall k :: 0 <= k < |b1.schedules| && b1.schedules[k].streamId == streamId && b1.schedules[k].active ==>
          k + 1 in ids)
    && (forall k :: 0 <= k < |b.schedules| && b.schedules[k].streamId != streamId && k + 1 !in ids ==>
          k < |b1.schedules| && b1.schedules[k] == b.schedules[k])
  }

  lemma SavedSchedulesAre(b: Books, d: StreamDraft, w: Window, b1: Books, streamId: nat)
    requires SaveStream(b, d, w) == Success((b1, streamId))
    ensures exists ids :: SchedulesAre(b, b1, streamId, d, ids)
  {
    hide Day, Trim, RefreshOn, IsDraftsRow;
    var (streams, _) := SaveStreamRow(b.streams, d).value;
    var (saved, kept) := SaveSchedules(b.schedules, streamId, d.schedules, |d.schedules|).value;
    SavedRows(b.schedules, streamId, d.schedules, |d.schedules|);
    var mid := b.(streams := streams, schedules := DeactivateOthers(saved, streamId, kept));
    RefreshKeepsSchedules(mid, streamId, d.name, w);
    assert b1.schedules == DeactivateOthers(saved, streamId, kept);
    KeptSchedulesAre(b, b1, d, streamId, saved, kept);
  }

  lemma KeptSchedulesAre(
    b: Books, b1: Books, d: StreamDraft, streamId: nat, saved: seq<Schedule>, kept: seq<nat>)
    requires forall i :: 0 <= i < |d.schedules| ==> ValidScheduleDraft(d.schedules[i])
    requires SavedUpTo(b.schedules, streamId, d.schedules, |d.schedules|, saved, kept)
    requires b1.schedules == DeactivateOthers(saved, streamId, kept)
    ensures SchedulesAre(b, b1, streamId, d, kept)
  {
    hide Day, Trim, IsDraftsRow, DraftRow;
    forall j | 0 <= j < |kept| ensures IsDraftsRow(b1.schedules[kept[j] - 1], streamId, d.schedules[j]) {
      assert kept[j] in kept;
    }
  }

  lemma RefreshKeepsSchedules(b: Books, streamId: nat, name: string, w: Window)
    ensures RefreshOn(b, streamId, name, w).Success? ==>
              RefreshOn(b, streamId, name, w).value.0.schedules == b.schedules
  {
    hide Day, Plan, Upserts, Tombstone;
  }

  predicate ShowsDraft(e: Event, d: ScheduleDraft, name: string, date: IsoDate) {
    && e.expectedDate == date && e.amount == d.amount && e.accountId == d.accountId
    && e.title == Some(if d.title.Some? && Trim(d.title.value) != "" then Trim(d.title.value) else name + " due")
  }

  predicate DraftIsDue(d: ScheduleDraft, w: Window, date: IsoDate) {
    FallsDue(Rule(d.frequency, d.startDate, d.dayOfMonth), d.endDate, w, date)
  }

  lemma DraftsRowShows(s: Schedule, streamId: nat, d: ScheduleDraft, e: Event, name: string, date: IsoDate)
    requires IsDraftsRow(s, streamId, d)
    ensures ShowsSchedule(e, s, name, date) <==> ShowsDraft(e, d, name, date)
  {
    hide Trim;
  }

  lemma DraftsRowIsDue(s: Schedule, streamId: nat, d: ScheduleDraft, w: Window, date: IsoDate)
    requires IsDraftsRow(s, streamId, d)
    ensures IsDue(s, streamId, w, date) <==> DraftIsDue(d, w, date)
    ensures forall k: nat ::
              SlotId(k, s, date) == Slots.SourceId(k + 1, Slots.ProjectionSlot(d.frequency, d.startDate, date))
  {
    hide FallsDue, Trim;
  }

  ghost predicate FromDrafts(e: Event, d: StreamDraft, w: Window) {
    exists j: nat, date: IsoDate ::
      j < |d.schedules| && DraftIsDue(d.schedules[j], w, date) && ShowsDraft(e, d.schedules[j], d.name, date)
  }

  ghost predicate DraftIsShown(l: Ledger, streamId: nat, w: Window, d: ScheduleDraft, name: string, date: IsoDate) {
    exists id :: id in l.rows && Shown(l.rows[id], streamId, w) && ShowsDraft(l.rows[id], d, name, date)
  }

  /** The occurrences of the draft's `j`th schedule, in its row `id`, are shown
      unless they are taken. */
  ghost predicate ScheduleIsShown(b: Books, b1: Books, streamId: nat, d: StreamDraft, j: nat, id: nat, w: Window)
    requires j < |d.schedules|
  {
    var s := d.schedules[j];
    forall date: IsoDate ::
      DraftIsDue(s, w, date)
      && !IsTaken(b.ledger, streamId,
                  Slots.SourceId(id, Slots.ProjectionSlot(s.frequency, s.startDate, date))) ==>
        DraftIsShown(b1.ledger, streamId, w, s, d.name, date)
  }

  /** After a save every shown row of the stream is an occurrence of one of the
      draft's schedules, with the draft's own amount, account and label, and none
      of a schedule that the draft no longer has; and every occurrence of the
      draft that is not taken is shown so. */
  lemma SaveShowsDrafts(b: Books, d: StreamDraft, w: Window, b1: Books, streamId: nat)
    requires WellKeyed(b.ledger) && SaveStream(b, d, w) == Success((b1, streamId))
    ensures forall id :: id in b1.ledger.rows && Shown(b1.ledger.rows[id], streamId, w) ==>
              FromDrafts(b1.ledger.rows[id], d, w)
    ensures exists ids :: SchedulesAre(b, b1, streamId, d, ids)
              && forall j :: 0 <= j < |d.schedules| ==> ScheduleIsShown(b, b1, streamId, d, j, ids[j], w)
  {
    SavedSchedulesAre(b, d, w, b1, streamId);
    var ids :| SchedulesAre(b, b1, streamId, d, ids);
    var mid := SavedBooks(b, d, w, b1, streamId);
    var count :| RefreshOn(mid, streamId, d.name, w) == Success((b1, count));
    RefreshShowsSchedules(mid, streamId, d.name, w, b1, count);
    hide Day, WellKeyed, RefreshOn, SaveStream, Shown, IsDue, ShowsSchedule, DraftIsDue, ShowsDraft, IsTaken,
         IsDraftsRow, SchedulesAre, FromDrafts, FromSchedules, IsShown, ScheduleIsShown;
    forall id | id in b1.ledger.rows && Shown(b1.ledger.rows[id], streamId, w)
      ensures FromDrafts(b1.ledger.rows[id], d, w)
    {
      ShownIsDrafts(b, mid, d, w, b1, streamId, ids, b1.ledger.rows[id]);
    }
    SavedIds(b, b1, streamId, d, ids);
    forall j | 0 <= j < |d.schedules| ensures ScheduleIsShown(b, b1, streamId, d, j, ids[j], w) {
      DraftScheduleIsShown(b, mid, d, w, b1, streamId, ids, j);
    }
  }

  lemma SavedIds(b: Books, b1: Books, streamId: nat, d: StreamDraft, ids: seq<nat>)
    requires SchedulesAre(b, b1, streamId, d, ids)
    ensures |ids| == |d.schedules|
  {
  }

  lemma ShownIsDrafts(
    b: Books, mid: Books, d: StreamDraft, w: Window, b1: Books, streamId: nat, ids: seq<nat>, e: Event)
    requires SchedulesAre(b, b1, streamId, d, ids) && mid.schedules == b1.schedules
    requires FromSchedules(e, mid.schedules, streamId, d.name, w)
    ensures FromDrafts(e, d, w)
  {
    hide Day, IsDue, ShowsSchedule, DraftIsDue, ShowsDraft, IsDraftsRow;
    var k: nat, date: IsoDate :|
      && k < |mid.schedules| && IsDue(mid.schedules[k], streamId, w, date)
      && ShowsSchedule(e, mid.schedules[k], d.name, date) && MadeBy(e, k, d.name);
    DueIsActive(mid.schedules[k], streamId, w, date);
    assert k + 1 in ids;
    var j :| 0 <= j < |ids| && ids[j] == k + 1;
    DraftsRowIsDue(mid.schedules[k], streamId, d.schedules[j], w, date);
    DraftsRowShows(mid.schedules[k], streamId, d.schedules[j], e, d.name, date);
  }

  lemma DueIsActive(s: Schedule, streamId: nat, w: Window, date: IsoDate)
    requires IsDue(s, streamId, w, date)
    ensures s.streamId == streamId && s.active
  {
    hide FallsDue;
  }

  /** The books a save refreshes. */
  lemma SavedBooks(b: Books, d: StreamDraft, w: Window, b1: Books, streamId: nat) returns (mid: Books)
    requires SaveStream(b, d, w) == Success((b1, streamId))
    ensures mid.ledger == b.ledger && mid.schedules == b1.schedules
    ensures exists count :: RefreshOn(mid, streamId, d.name, w) == Success((b1, count))
  {
    hide Day, Trim, RefreshOn, DeactivateOthers;
    var (streams, _) := SaveStreamRow(b.streams, d).value;
    var (saved, kept) := SaveSchedules(b.schedules, streamId, d.schedules, |d.schedules|).value;
    mid := b.(streams := streams, schedules := DeactivateOthers(saved, streamId, kept));
    RefreshKeepsSchedules(mid, streamId, d.name, w);
    var count := RefreshOn(mid, streamId, d.name, w).value.1;
    assert RefreshOn(mid, streamId, d.name, w) == Success((b1, count));
  }

  lemma DraftScheduleIsShown(
    b: Books, mid: Books, d: StreamDraft, w: Window, b1: Books, streamId: nat, ids: seq<nat>, j: nat)
    requires SchedulesAre(b, b1, streamId, d, ids) && j < |d.schedules|
    requires mid.ledger == b.ledger && mid.schedules == b1.schedules
    requires forall k: nat, date: IsoDate ::
               k < |mid.schedules| && IsDue(mid.schedules[k], streamId, w, date)
               && !IsTaken(mid.ledger, streamId, SlotId(k, mid.schedules[k], date)) ==>
                 IsShown(b1.ledger, streamId, w, mid.schedules[k], d.name, date)
    ensures ScheduleIsShown(b, b1, streamId, d, j, ids[j], w)
  {
    hide Day, Shown, IsDue, ShowsSchedule, DraftIsDue, ShowsDraft, IsTaken, IsDraftsRow, SlotId;
    var s, draft, k := mid.schedules[ids[j] - 1], d.schedules[j], ids[j] - 1;
    forall date: IsoDate | DraftIsDue(draft, w, date)
        && !IsTaken(b.ledger, streamId,
                    Slots.SourceId(ids[j], Slots.ProjectionSlot(draft.frequency, draft.startDate, date)))
      ensures DraftIsShown(b1.ledger, streamId, w, draft, d.name, date)
    {
      DraftsRowIsDue(s, streamId, draft, w, date);
      assert IsDue(s, streamId, w, date) && !IsTaken(mid.ledger, streamId, SlotId(k, s, date));
      var id :| id in b1.ledger.rows && Shown(b1.ledger.rows[id], streamId, w)
        && ShowsSchedule(b1.ledger.rows[id], s, d.name, date);
      DraftsRowShows(s, streamId, draft, b1.ledger.rows[id], d.name, date);
    }
  }
}
