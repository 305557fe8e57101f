/** The repository over the finance tables: each method is one transaction. */
module FinanceStore {
  import opened Wrappers
  import opened Calendar
  import opened Recurrence
  import opened StreamEvents
  import opened Text

  class FinanceRepository {
    var accounts: set<int>
    var streams: seq<Stream>
    var schedules: seq<Schedule>
    var events: map<nat, Event>
    var nextEventId: nat

    function Tables(): Books
      reads this
    {
      Books(accounts, streams, schedules, Ledger(events, nextEventId))
    }

    constructor (accounts: set<int>)
      ensures Tables() == Books(accounts, [], [], Ledger(map[], 1))
    {
      this.accounts := accounts;
      streams, schedules, events, nextEventId := [], [], map[], 1;
    }

    /** Upsert one occurrence on (stream, source type, source id). */
    method UpsertEvent(seed: Seed)
      modifies this`events, this`nextEventId
      ensures Ledger(events, nextEventId) == Upsert(old(Ledger(events, nextEventId)), seed)
    {
      if exists id :: id in events && Takes(events[id], seed) {
        events := map id | id in events :: Reseed(events[id], seed);
      } else {
        events := events[nextEventId := SeedRow(seed)];
        nextEventId := nextEventId + 1;
      }
    }

    /** The occurrences of one schedule, in order. */
    method UpsertOccurrences(scheduleId: nat, s: Schedule, streamName: string, dates: seq<IsoDate>)
      modifies this`events, this`nextEventId
      ensures Ledger(events, nextEventId) ==
              Upserts(old(Ledger(events, nextEventId)), SeedsOf(scheduleId, s, streamName, dates))
    {
      hide Day, Upsert, SeedOf;
      ghost var start := Ledger(events, nextEventId);
      for i := 0 to |dates|
        invariant Ledger(events, nextEventId) == Upserts(start, SeedsOf(scheduleId, s, streamName, dates[..i]))
      {
        SeedsExtend(scheduleId, s, streamName, dates, i);
        var seed := SeedOf(scheduleId, s, streamName, dates[i]);
        UpsertsExtend(start, SeedsOf(scheduleId, s, streamName, dates[..i]), seed);
        UpsertEvent(seed);
      }
      assert dates[..|dates|] == dates;
    }

    lemma SeedsExtend(id: nat, s: Schedule, name: string, dates: seq<IsoDate>, i: nat)
      requires i < |dates|
      ensures SeedsOf(id, s, name, dates[..i + 1]) ==
              SeedsOf(id, s, name, dates[..i]) + [SeedOf(id, s, name, dates[i])]
    {
      assert dates[..i + 1][..i] == dates[..i];
    }

    lemma UpsertsExtend(l: Ledger, seeds: seq<Seed>, seed: Seed)
      ensures Upserts(l, seeds + [seed]) == Upsert(Upserts(l, seeds), seed)
    {
      assert (seeds + [seed])[..|seeds|] == seeds;
    }

    lemma {:induction false} UpsertsInTwoParts(l: Ledger, a: seq<Seed>, b: seq<Seed>)
      ensures Upserts(Upserts(l, a), b) == Upserts(l, a + b)
    {
      hide Upsert;
      if b == [] {
        assert a + b == a;
      } else {
        UpsertsInTwoParts(l, a, b[..|b| - 1]);
        assert a + b == a + b[..|b| - 1] + [b[|b| - 1]];
        UpsertsExtend(l, a + b[..|b| - 1], b[|b| - 1]);
      }
    }

    /** Put untouched projections aside, then upsert every occurrence of every
        active schedule.  On an error the caller's transaction is dropped. */
    method RefreshStreamScheduleEventsOn(streamId: nat, streamName: string, w: Window)
      returns (r: Result<nat, FinanceError>)
      modifies this`events, this`nextEventId
      ensures match RefreshOn(old(Tables()), streamId, streamName, w)
              case Success((b, n)) => r == Success(n) && Tables() == b
              case Failure(e) => r == Failure(e)
    {
      hide Day, Upserts, SeedsOf, Occurrences, Retire;
      ghost var tombstoned := Tombstone(Ledger(events, nextEventId), streamId, w);
      events := map id | id in events :: Retire(events[id], streamId, w);
      ghost var planned: seq<Seed> := [];
      var projected := 0;
      assert tombstoned == Upserts(tombstoned, planned) by { UpsertsOfNone(tombstoned); }
      for n := 0 to |schedules|
        invariant Plan(schedules, n, streamId, streamName, w) == Success(planned)
        invariant projected == |planned|
        invariant Ledger(events, nextEventId) == Upserts(tombstoned, planned)
      {
        var s := schedules[n];
        if s.streamId == streamId && s.active {
          var occurrences := ScheduleOccurrences(RuleOf(s), RangeStart(s, w), RangeEnd(s, w));
          if occurrences.Failure? {
            PlanFails(schedules, n + 1, streamId, streamName, w);
            return Failure(Storage(occurrences.error));
          }
          UpsertOccurrences(n + 1, s, streamName, occurrences.value);
          UpsertsInTwoParts(tombstoned, planned, SeedsOf(n + 1, s, streamName, occurrences.value));
          planned := planned + SeedsOf(n + 1, s, streamName, occurrences.value);
          projected := projected + |occurrences.value|;
        }
      }
      r := Success(projected);
    }

    lemma UpsertsOfNone(l: Ledger)
      ensures Upserts(l, []) == l
    {
    }

    lemma {:induction false} PlanFails(schedules: seq<Schedule>, n: nat, streamId: nat, name: string, w: Window)
      requires n <= |schedules| && Plan(schedules, n, streamId, name, w).Failure?
      ensures Plan(schedules, |schedules|, streamId, name, w) == Plan(schedules, n, streamId, name, w)
      decreases |schedules| - n
    {
      if n < |schedules| { PlanFails(schedules, n + 1, streamId, name, w); }
    }

    method RefreshStreamScheduleEvents(streamId: nat, w: Window) returns (r: Result<nat, FinanceError>)
      modifies this`events, this`nextEventId
      ensures match Refresh(old(Tables()), streamId, w)
              case Success((b, n)) => r == Success(n) && Tables() == b
              case Failure(e) => r == Failure(e) && Tables() == old(Tables())
    {
      if !ActiveStream(Tables(), streamId) { return Failure(NotFound); }
      var savedEvents, savedNext := events, nextEventId;
      r := RefreshStreamScheduleEventsOn(streamId, streams[streamId - 1].name, w);
      if r.Failure? {
        events, nextEventId := savedEvents, savedNext;
      }
    }

    /** Insert or replace the schedules of a draft; the ids it keeps. */
    method SaveScheduleDrafts(streamId: nat, drafts: seq<ScheduleDraft>) returns (r: Result<seq<nat>, FinanceError>)
      requires forall i :: 0 <= i < |drafts| ==> ValidScheduleDraft(drafts[i])
      modifies this`schedules
      ensures match SaveSchedules(old(schedules), streamId, drafts, |drafts|)
              case Success((saved, kept)) => r == Success(kept) && schedules == saved
              case Failure(e) => r == Failure(e)
    {
      hide Day;
      ghost var start := schedules;
      var kept: seq<nat> := [];
      for n := 0 to |drafts|
        invariant SaveSchedules(start, streamId, drafts, n) == Success((schedules, kept))
      {
        var d := drafts[n];
        var row := DraftRow(streamId, d);
        if d.id.None? {
          kept := kept + [|schedules| + 1];
          schedules := schedules + [row];
        } else {
          var id := d.id.value;
          if !(1 <= id <= |schedules| && schedules[id - 1].streamId == streamId) {
            SaveFails(start, streamId, drafts, n + 1);
            return Failure(NotFound);
          }
          if id in kept {
            SaveFails(start, streamId, drafts, n + 1);
            return Failure(Validation);
          }
          schedules := schedules[id - 1 := row];
          kept := kept + [id];
        }
      }
      r := Success(kept);
    }

    lemma {:induction false} SaveFails(rows: seq<Schedule>, streamId: nat, drafts: seq<ScheduleDraft>, n: nat)
      requires n <= |drafts| && forall i :: 0 <= i < |drafts| ==> ValidScheduleDraft(drafts[i])
      requires SaveSchedules(rows, streamId, drafts, n).Failure?
      ensures SaveSchedules(rows, streamId, drafts, |drafts|) == SaveSchedules(rows, streamId, drafts, n)
      decreases |drafts| - n
    {
      if n < |drafts| { SaveFails(rows, streamId, drafts, n + 1); }
    }

    method SaveStreamDraft(d: StreamDraft, w: Window) returns (r: Result<nat, FinanceError>)
      modifies this
      ensures match SaveStream(old(Tables()), d, w)
              case Success((b, id)) => r == Success(id) && Tables() == b
              case Failure(e) => r == Failure(e) && Tables() == old(Tables())
    {
      hide Day, Trim, SaveSchedules, RefreshOn, DeactivateOthers;
      if !ValidDraft(d) { return Failure(Validation); }
      if !AccountsExist(Tables(), d) { return Failure(NotFound); }
      var row := SaveStreamRow(streams, d);
      if row.Failure? { return Failure(row.error); }
      var before := Tables();
      var streamId := row.value.1;
      streams := row.value.0;
      var kept := SaveScheduleDrafts(streamId, d.schedules);
      if kept.Failure? {
        Rollback(before);
        return Failure(kept.error);
      }
      schedules := DeactivateOthers(schedules, streamId, kept.value);
      var refreshed := RefreshStreamScheduleEventsOn(streamId, d.name, w);
      if refreshed.Failure? {
        Rollback(before);
        return Failure(refreshed.error);
      }
      r := Success(streamId);
    }

    method Rollback(before: Books)
      modifies this
      ensures Tables() == before
    {
      accounts, streams, schedules := before.accounts, before.streams, before.schedules;
      events, nextEventId := before.ledger.rows, before.ledger.nextId;
    }

    method DeleteStreamById(streamId: nat) returns (r: Result<(), FinanceError>)
      modifies this
      ensures match DeleteStream(old(Tables()), streamId)
              case Success((b, _)) => r == Success(()) && Tables() == b
              case Failure(e) => r == Failure(e) && Tables() == old(Tables())
    {
      if !ActiveStream(Tables(), streamId) { return Failure(NotFound); }
      streams := streams[streamId - 1 := streams[streamId - 1].(active := false)];
      schedules := DeactivateOthers(schedules, streamId, []);
      events := map id | id in events :: DropProjection(events[id], streamId);
      r := Success(());
    }

    method CreateEvent(d: EventDraft) returns (r: Result<nat, FinanceError>)
      modifies this`events, this`nextEventId
      ensures match CreateManualEvent(old(Tables()), d)
              case Success((b, id)) => r == Success(id) && Tables() == b
              case Failure(e) => r == Failure(e) && Tables() == old(Tables())
    {
      if Trim(d.title) == "" || d.amount <= 0 || d.status == Received { return Failure(Validation); }
      if !ActiveStream(Tables(), d.streamId) { return Failure(NotFound); }
      if d.accountId.Some? && d.accountId.value !in accounts { return Failure(NotFound); }
      var id := nextEventId;
      events := events[id := ManualRow(id, d)];
      nextEventId := nextEventId + 1;
      r := Success(id);
    }

    method EditEvent(id: nat, p: EventPatch) returns (r: Result<(), FinanceError>)
      modifies this`events
      ensures match PatchEvent(old(Tables()), id, p)
              case Success((b, _)) => r == Success(()) && Tables() == b
              case Failure(e) => r == Failure(e) && Tables() == old(Tables())
    {
      if p.amount.Set? && p.amount.value <= 0 { return Failure(Validation); }
      if p.title.Set? && Trim(p.title.value) == "" { return Failure(Validation); }
      if p.accountId.Set? && p.accountId.value !in accounts { return Failure(NotFound); }
      if !Editable(Tables(), id) { return Failure(Rejected(Tables(), id)); }
      events := events[id := Patched(events[id], p)];
      r := Success(());
    }

    /** Delete a manual event; exclude a projection durably. */
    method DiscardEvent(id: nat) returns (r: Result<(), FinanceError>)
      modifies this`events
      ensures match RemoveEvent(old(Tables()), id)
              case Success((b, _)) => r == Success(()) && Tables() == b
              case Failure(e) => r == Failure(e) && Tables() == old(Tables())
    {
      if id in events && events[id].sourceType == Manual && Open(events[id]) {
        events := events - {id};
        return Success(());
      }
      if id in events && events[id].sourceType == StreamSchedule && Open(events[id]) {
        events := events[id := events[id].(exclusion := Some(ByUser))];
        return Success(());
      }
      r := Failure(Rejected(Tables(), id));
    }

    method RestoreScheduledEvent(id: nat) returns (r: Result<(), FinanceError>)
      modifies this`events
      ensures match RestoreEvent(old(Tables()), id)
              case Success((b, _)) => r == Success(()) && Tables() == b
              case Failure(e) => r == Failure(e) && Tables() == old(Tables())
    {
      if id in events && events[id].sourceType == StreamSchedule && Open(events[id])
         && events[id].exclusion == Some(ByUser) {
        events := events[id := events[id].(exclusion := None)];
        return Success(());
      }
      r := Failure(Rejected(Tables(), id));
    }

    method Reconcile(id: nat, date: IsoDate, amount: int) returns (r: Result<(), FinanceError>)
      modifies this`events
      ensures match ReconcileEvent(old(Tables()), id, date, amount)
              case Success((b, _)) => r == Success(()) && Tables() == b
              case Failure(e) => r == Failure(e) && Tables() == old(Tables())
    {
      if amount <= 0 { return Failure(Validation); }
      if Editable(Tables(), id) && events[id].exclusion == None {
        events := events[id := events[id].(actualDate := Some(date), actualAmount := Some(amount), status := Received)];
        return Success(());
      }
      r := Failure(Rejected(Tables(), id));
    }
  }
}
