/** Saving a stream and refreshing it afterwards. */
module SaveRefresh {
  import opened Wrappers
  import opened Calendar
  import opened Recurrence
  import opened Text
  import opened StreamEvents
  import opened RefreshSpec
  import opened EventLifecycle
  import Slots

  // ---- a due day edited ----

  /** The row is the projection of one month of a monthly schedule. */
  predicate IsMonthRow(e: Event, streamId: nat, scheduleId: nat, month: IsoDate) {
    IsProjection(e, streamId)
    && e.sourceId == Slots.SourceId(scheduleId, Slots.ProjectionSlot(Monthly, month, month))
  }

  /** `id` is the one row of that month. */
  ghost predicate OnlyMonthRow(l: Ledger, streamId: nat, scheduleId: nat, month: IsoDate, id: nat) {
    && id in l.rows && IsMonthRow(l.rows[id], streamId, scheduleId, month)
    && forall other :: other in l.rows && IsMonthRow(l.rows[other], streamId, scheduleId, month) ==> other == id
  }

  /** A saved schedule is the row of its draft: no later draft of the same save
      can name it again. */
  lemma {:induction false} SavedIsDraft(
    schedules: seq<Schedule>, streamId: nat, drafts: seq<ScheduleDraft>, n: nat, j: nat)
    requires j < n <= |drafts| && forall i :: 0 <= i < |drafts| ==> ValidScheduleDraft(drafts[i])
    requires drafts[j].id.Some? && SaveSchedules(schedules, streamId, drafts, n).Success?
    ensures var (saved, kept) := SaveSchedules(schedules, streamId, drafts, n).value;
            && drafts[j].id.value in kept && 1 <= drafts[j].id.value <= |saved|
            && saved[drafts[j].id.value - 1] == DraftRow(streamId, drafts[j])
  {
    hide Day, DraftRow;
    if j < n - 1 { SavedIsDraft(schedules, streamId, drafts, n - 1, j); }
  }

  lemma SaveIsRefresh(b: Books, d: StreamDraft, w: Window, b1: Books, streamId: nat)
    requires SaveStream(b, d, w) == Success((b1, streamId))
    ensures exists mid: Books, count: nat ::
              mid.ledger == b.ledger && mid.schedules == b1.schedules && mid.streams == b1.streams
              && RefreshOn(mid, streamId, d.name, w) == Success((b1, count))
  {
    hide Day, Trim, SaveSchedules, DeactivateOthers, Plan, Tombstone, Upserts;
    var (streams, _) := SaveStreamRow(b.streams, d).value;
    var (saved, kept) := SaveSchedules(b.schedules, streamId, d.schedules, |d.schedules|).value;
    var mid := b.(streams := streams, schedules := DeactivateOthers(saved, streamId, kept));
    var count := RefreshOn(mid, streamId, d.name, w).value.1;
    assert RefreshOn(mid, streamId, d.name, w) == Success((b1, count));
  }

  lemma SavedScheduleIs(b: Books, d: StreamDraft, w: Window, b1: Books, streamId: nat, j: nat)
    requires SaveStream(b, d, w) == Success((b1, streamId)) && j < |d.schedules| && d.schedules[j].id.Some?
    ensures ValidScheduleDraft(d.schedules[j]) && 1 <= d.schedules[j].id.value <= |b1.schedules|
    ensures b1.schedules[d.schedules[j].id.value - 1] == DraftRow(streamId, d.schedules[j])
  {
    SavedIsDraft(b.schedules, streamId, d.schedules, |d.schedules|, j);
    hide Day, Trim, SaveSchedules, Plan, Tombstone, Upserts, DraftRow;
  }

  lemma SeedDate(scheduleId: nat, s: Schedule, name: string, date: IsoDate)
    ensures SeedOf(scheduleId, s, name, date).date == date
  {
    hide Slots.ProjectionSlot;
  }

  /** A refresh keeps a month's row the only one, and fills it when the month's
      new date is in its window. */
  lemma RefreshKeepsMonthRow(b: Books, streamId: nat, name: string, w: Window, b': Books, count: nat,
                             k: nat, month: IsoDate, id: nat)
    requires Sound(b) && RefreshOn(b, streamId, name, w) == Success((b', count))
    requires k < |b.schedules| && id in b.ledger.rows && IsMonthRow(b.ledger.rows[id], streamId, k + 1, month)
    ensures Sound(b') && OnlyMonthRow(b'.ledger, streamId, k + 1, month, id)
    ensures b'.ledger.rows[id].status == b.ledger.rows[id].status
    ensures forall date: IsoDate ::
              b.schedules[k].frequency == Monthly && b.schedules[k].streamId == streamId && b.schedules[k].active
              && date.y == month.y && date.m == month.m && InReach(b.schedules[k], w, date)
              && Open(b.ledger.rows[id]) ==>
              b'.ledger.rows[id].expectedDate == date
  {
    RefreshRespectsRows(b, streamId, name, w, b', count);
    RefreshOnStep(b, streamId, name, w, b', count, RefreshCmd(streamId, w));
    hide Day, RefreshOn, InReach, SeedOf;
    assert Respected(b.ledger.rows[id], b'.ledger.rows[id], streamId);
    forall other | other in b'.ledger.rows && IsMonthRow(b'.ledger.rows[other], streamId, k + 1, month)
      ensures other == id
    {
      assert SameKey(b'.ledger.rows[other], b'.ledger.rows[id]);
    }
    hide WellKeyed, RowIsSound;
    forall date: IsoDate |
        b.schedules[k].frequency == Monthly && b.schedules[k].streamId == streamId && b.schedules[k].active
        && date.y == month.y && date.m == month.m && InReach(b.schedules[k], w, date) && Open(b.ledger.rows[id])
      ensures b'.ledger.rows[id].expectedDate == date
    {
      SeedDate(k + 1, b.schedules[k], name, date);
      DueDayEditReusesRow(b, streamId, name, w, b', count, k, month, month, date, id);
    }
  }

  /** Saving a monthly schedule anew, with another due day or whatever else, and
      then refreshing, keeps each month's row the only one of its month, and
      shows the new due day in it wherever the windows reach. */
  lemma DueDayEditKeepsOneRowAMonth(
    b: Books, d: StreamDraft, w: Window, b1: Books, streamId: nat, w2: Window, b2: Books, count: nat,
    j: nat, month: IsoDate, id: nat)
    requires Sound(b) && SaveStream(b, d, w) == Success((b1, streamId))
    requires Refresh(b1, streamId, w2) == Success((b2, count))
    requires j < |d.schedules| && d.schedules[j].id.Some? && d.schedules[j].frequency == Monthly
    requires id in b.ledger.rows && IsMonthRow(b.ledger.rows[id], streamId, d.schedules[j].id.value, month)
    ensures OnlyMonthRow(b1.ledger, streamId, d.schedules[j].id.value, month, id)
    ensures OnlyMonthRow(b2.ledger, streamId, d.schedules[j].id.value, month, id)
    ensures ValidScheduleDraft(d.schedules[j])
    ensures var s := DraftRow(streamId, d.schedules[j]);
            forall date: IsoDate :: date.y == month.y && date.m == month.m && Open(b.ledger.rows[id]) ==>
              && (InReach(s, w, date) ==> b1.ledger.rows[id].expectedDate == date)
              && (InReach(s, w2, date) ==> b2.ledger.rows[id].expectedDate == date)
  {
    SavedScheduleIs(b, d, w, b1, streamId, j);
    SaveIsRefresh(b, d, w, b1, streamId);
    hide Day, Trim, SaveStream, RefreshOn, InReach, OnlyMonthRow, IsMonthRow, ValidScheduleDraft;
    var mid: Books, c1: nat :| mid.ledger == b.ledger && mid.schedules == b1.schedules && mid.streams == b1.streams
                               && RefreshOn(mid, streamId, d.name, w) == Success((b1, c1));
    var k := d.schedules[j].id.value - 1;
    assert Sound(mid);
    hide Sound;
    RefreshKeepsMonthRow(mid, streamId, d.name, w, b1, c1, k, month, id);
    OnlyRowIsRow(b1.ledger, streamId, k + 1, month, id);
    RefreshKeepsMonthRow(b1, streamId, b1.streams[streamId - 1].name, w2, b2, count, k, month, id);
    forall date: IsoDate | date.y == month.y && date.m == month.m && Open(b.ledger.rows[id])
      ensures InReach(b1.schedules[k], w, date) ==> b1.ledger.rows[id].expectedDate == date
      ensures InReach(b1.schedules[k], w2, date) ==> b2.ledger.rows[id].expectedDate == date
    {}
  }

  lemma OnlyRowIsRow(l: Ledger, streamId: nat, scheduleId: nat, month: IsoDate, id: nat)
    requires OnlyMonthRow(l, streamId, scheduleId, month, id)
    ensures id in l.rows && IsMonthRow(l.rows[id], streamId, scheduleId, month)
  {
  }

  // ---- a name saved with a space in front ----

  function OneDayDraft(name: string, date: IsoDate): StreamDraft {
    StreamDraft(None, name, None, None, [ScheduleDraft(None, None, None, 5, OneTime, None, date, None)])
  }

  function OneDay(date: IsoDate): Window { Window(date, date) }

  function OneDaySchedule(date: IsoDate): Schedule { Schedule(1, None, None, 5, OneTime, None, date, None, true) }

  lemma OneDate(date: IsoDate)
    ensures ScheduleDates(OneDaySchedule(date), OneDay(date)) == Success([date])
  {
    var rule := RuleOf(OneDaySchedule(date));
    assert IsOccurrenceList([date], rule, date, date) by { hide Day; }
    OccurrencesAreExact(rule, date, date, [date]);
    hide Day, OccurrencesIn;
  }

  lemma OneSeed(name: string, date: IsoDate)
    ensures Plan([OneDaySchedule(date)], 1, 1, name, OneDay(date))
            == Success([SeedOf(1, OneDaySchedule(date), name, date)])
  {
    OneDate(date);
    hide Day, ScheduleDates, SeedOf;
    var s := OneDaySchedule(date);
    assert Plan([s], 0, 1, name, OneDay(date)) == Success([]);
    assert [date][..0] == [];
    assert SeedsOf(1, s, name, []) == [];
    assert SeedsOf(1, s, name, [date]) == [SeedOf(1, s, name, date)];
  }

  const NO_BOOKS := Books({}, [], [], Ledger(map[], 1))

  function SavedBooks(name: string, shown: string, date: IsoDate): Books {
    Books({}, [Stream(name, true)], [OneDaySchedule(date)],
          Ledger(map[1 := SeedRow(SeedOf(1, OneDaySchedule(date), shown, date))], 2))
  }

  lemma OneUpsert(name: string, date: IsoDate)
    ensures RefreshOn(Books({}, [Stream("n", true)], [OneDaySchedule(date)], Ledger(map[], 1)), 1, name, OneDay(date))
            == Success((SavedBooks("n", name, date), 1))
  {
    OneSeed(name, date);
    hide Day, Plan, SeedOf;
    var seed := SeedOf(1, OneDaySchedule(date), name, date);
    var none := Ledger(map[], 1);
    assert Tombstone(none, 1, OneDay(date)) == none;
    assert [seed][..0] == [];
    assert Upserts(none, []) == none;
    assert Upserts(none, [seed]) == Upsert(none, seed);
  }

  lemma PaddedNameIsTrimmed()
    ensures Trim(" n") == "n"
  {
    assert " n"[1..] == "n";
    TrimmedIsFixed("n");
  }

  lemma OneDraftSaves(name: string, date: IsoDate)
    requires Trim(name) != ""
    ensures ValidDraft(OneDayDraft(name, date)) && AccountsExist(NO_BOOKS, OneDayDraft(name, date))
    ensures SaveSchedules([], 1, OneDayDraft(name, date).schedules, 1) == Success(([OneDaySchedule(date)], [1]))
  {
    hide Trim, Day;
    var drafts := OneDayDraft(name, date).schedules;
    assert SaveSchedules([], 1, drafts, 0) == Success(([], []));
    assert SaveSchedules([], 1, drafts, 1) == Success(([] + [DraftRow(1, drafts[0])], [] + [1]));
    assert [] + [OneDaySchedule(date)] == [OneDaySchedule(date)] && [] + [1] == [1];
  }

  lemma KeptStaysActive(row: Schedule)
    ensures DeactivateOthers([row], 1, [1]) == [row]
  {
  }

  /** A save put together from its parts. */
  lemma SaveOfParts(b: Books, d: StreamDraft, w: Window, row: (seq<Stream>, nat), rows: (seq<Schedule>, seq<nat>),
                    result: (Books, nat))
    requires ValidDraft(d) && AccountsExist(b, d) && SaveStreamRow(b.streams, d) == Success(row)
    requires SaveSchedules(b.schedules, row.1, d.schedules, |d.schedules|) == Success(rows)
    requires RefreshOn(b.(streams := row.0, schedules := DeactivateOthers(rows.0, row.1, rows.1)), row.1, d.name, w)
             == Success(result)
    ensures SaveStream(b, d, w) == Success((result.0, row.1))
  {
    hide ValidDraft, AccountsExist, SaveStreamRow, SaveSchedules, RefreshOn, DeactivateOthers;
  }

  lemma NewRowOf(d: StreamDraft)
    requires d.id.None?
    ensures SaveStreamRow([], d) == Success(([Stream(Trim(d.name), true)], 1))
  {
    hide Trim;
    assert [] + [Stream(Trim(d.name), true)] == [Stream(Trim(d.name), true)];
  }

  lemma SaveOfOneDay(date: IsoDate)
    ensures SaveStream(NO_BOOKS, OneDayDraft(" n", date), OneDay(date)) == Success((SavedBooks("n", " n", date), 1))
  {
    PaddedNameIsTrimmed();
    OneDraftSaves(" n", date);
    OneUpsert(" n", date);
    KeptStaysActive(OneDaySchedule(date));
    NewRowOf(OneDayDraft(" n", date));
    hide Trim, RefreshOn, Day, SaveSchedules, SaveStream, SaveStreamRow, ValidDraft, AccountsExist, DeactivateOthers,
         SavedBooks, OneDaySchedule;
    SaveOfParts(NO_BOOKS, OneDayDraft(" n", date), OneDay(date), ([Stream("n", true)], 1),
                ([OneDaySchedule(date)], [1]), (SavedBooks("n", " n", date), 1));
  }

  lemma PaddedLabelsDiffer()
    ensures " n" + " due" != "n" + " due"
  {
    assert |" n" + " due"| == 6 && |"n" + " due"| == 5;
  }

  /** A stream saved as " n", with one event on one day: the save labels the
      event " n due", and the refresh right after it relabels it "n due". */
  lemma PaddedNameIsRelabelled(date: IsoDate)
    ensures var saved := SaveStream(NO_BOOKS, OneDayDraft(" n", date), OneDay(date));
            && saved.Success? && saved.value.1 == 1
            && var b' := saved.value.0;
               && 1 in b'.ledger.rows && b'.ledger.rows[1].title == Some(" n" + " due")
               && var refreshed := Refresh(b', 1, OneDay(date));
                  refreshed.Success? && 1 in refreshed.value.0.ledger.rows
                  && refreshed.value.0.ledger.rows[1].title == Some("n" + " due") != b'.ledger.rows[1].title
  {
    SaveOfOneDay(date);
    PaddedLabelsDiffer();
    OneSeed("n", date);
    hide Day, SaveStream, Plan;
    var b' := SavedBooks("n", " n", date);
    var seed, seed' := SeedOf(1, OneDaySchedule(date), " n", date), SeedOf(1, OneDaySchedule(date), "n", date);
    var put := Tombstone(b'.ledger, 1, OneDay(date));
    assert 1 in put.rows && Takes(put.rows[1], seed');
    assert [seed'][..0] == [];
    assert Upserts(put, []) == put;
    assert Upserts(put, [seed']) == Upsert(put, seed');
  }
}
