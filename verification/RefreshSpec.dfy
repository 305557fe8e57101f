/** What a schedule refresh achieves, stated row by row and occurrence by
    occurrence. */
module RefreshSpec {
  import opened Wrappers
  import opened Calendar
  import opened Recurrence
  import opened StreamEvents
  import Slots

  // ---- the state the statements rely on ----

  predicate SameKey(a: Event, b: Event) {
    a.streamId == b.streamId && a.sourceType == b.sourceType && a.sourceId == b.sourceId
  }

  /** Every id was issued, and (stream, source type, source id) is unique. */
  ghost predicate WellKeyed(l: Ledger) {
    && (forall id :: id in l.rows ==> id < l.nextId)
    && (forall i, j :: i in l.rows && j in l.rows && SameKey(l.rows[i], l.rows[j]) ==> i == j)
  }

  ghost predicate DistinctSlots(seeds: seq<Seed>, streamId: nat) {
    && (forall i :: 0 <= i < |seeds| ==> seeds[i].streamId == streamId)
    && (forall i, j :: 0 <= i < j < |seeds| ==> seeds[i].sourceId != seeds[j].sourceId)
  }

  // ---- one upsert after another, seen from one row ----

  /** The row after all upserts: the seed of its slot, if there is one. */
  function After(e: Event, seeds: seq<Seed>): Event {
    if seeds == [] then e else Reseed(After(e, seeds[..|seeds| - 1]), seeds[|seeds| - 1])
  }

  lemma {:induction false} AfterKeepsKey(e: Event, seeds: seq<Seed>)
    ensures SameKey(After(e, seeds), e) && After(e, seeds).status == e.status
    ensures Overridden(After(e, seeds)) == Overridden(e)
    ensures (After(e, seeds).exclusion == Some(ByUser)) == (e.exclusion == Some(ByUser))
    ensures (forall i :: 0 <= i < |seeds| ==> !Takes(e, seeds[i])) ==> After(e, seeds) == e
  {
    if seeds != [] { AfterKeepsKey(e, seeds[..|seeds| - 1]); }
  }

  lemma {:induction false} AfterIsItsSeed(e: Event, seeds: seq<Seed>, streamId: nat, i: nat)
    requires DistinctSlots(seeds, streamId) && i < |seeds| && Takes(e, seeds[i])
    ensures After(e, seeds) == Reseed(e, seeds[i])
  {
    var init := seeds[..|seeds| - 1];
    if i == |seeds| - 1 {
      AfterKeepsKey(e, init);
    } else {
      AfterIsItsSeed(e, init, streamId, i);
    }
  }

  /** `l'` is `l` with every row's slot seeded and the missing slots added. */
  ghost predicate Upserted(l: Ledger, l': Ledger, seeds: seq<Seed>) {
    && l.nextId <= l'.nextId
    && (forall id :: id in l.rows ==> id in l'.rows && l'.rows[id] == After(l.rows[id], seeds))
    && (forall id :: id in l'.rows && id !in l.rows ==>
          l.nextId <= id < l'.nextId && Fresh(l, l'.rows[id], seeds))
    && (forall i :: 0 <= i < |seeds| ==> Occupied(l', seeds[i]))
  }

  ghost predicate Fresh(l: Ledger, e: Event, seeds: seq<Seed>) {
    exists i :: 0 <= i < |seeds| && e == SeedRow(seeds[i]) && !Occupied(l, seeds[i])
  }

  ghost predicate Occupied(l: Ledger, seed: Seed) {
    exists id :: id in l.rows && Takes(l.rows[id], seed)
  }

  lemma {:induction false} UpsertsAreUpserted(l: Ledger, seeds: seq<Seed>, streamId: nat)
    requires WellKeyed(l) && DistinctSlots(seeds, streamId)
    ensures WellKeyed(Upserts(l, seeds)) && Upserted(l, Upserts(l, seeds), seeds)
  {
    hide Upsert, Reseed, SeedRow, Takes, WellKeyed, SameKey;
    if seeds != [] {
      var init, seed := seeds[..|seeds| - 1], seeds[|seeds| - 1];
      UpsertsAreUpserted(l, init, streamId);
      UpsertOne(l, Upserts(l, init), seeds, streamId);
    }
  }

  lemma UpsertOne(l: Ledger, mid: Ledger, seeds: seq<Seed>, streamId: nat)
    requires seeds != [] && DistinctSlots(seeds, streamId)
    requires WellKeyed(l) && WellKeyed(mid) && Upserted(l, mid, seeds[..|seeds| - 1])
    ensures WellKeyed(Upsert(mid, seeds[|seeds| - 1])) && Upserted(l, Upsert(mid, seeds[|seeds| - 1]), seeds)
  {
    hide Upsert, Reseed, SeedRow, Takes, WellKeyed, SameKey, Occupied, Fresh;
    var init, seed := seeds[..|seeds| - 1], seeds[|seeds| - 1];
    var l' := Upsert(mid, seed);
    UpsertRows(mid, seed);
    UpsertKeepsKeys(mid, seed);
    forall id | id in l'.rows && id !in l.rows
      ensures l.nextId <= id < l'.nextId && Fresh(l, l'.rows[id], seeds)
    {
      NewRowIsFresh(l, mid, seeds, id);
    }
    forall i | 0 <= i < |seeds| ensures Occupied(l', seeds[i]) {
      if i < |init| {
        assert seeds[i] == init[i];
        StaysOccupied(mid, seed, seeds[i]);
      }
    }
  }

  lemma NewRowIsFresh(l: Ledger, mid: Ledger, seeds: seq<Seed>, id: nat)
    requires seeds != [] && WellKeyed(mid) && Upserted(l, mid, seeds[..|seeds| - 1])
    requires forall i, j :: 0 <= i < j < |seeds| ==> seeds[i].sourceId != seeds[j].sourceId
    requires id in Upsert(mid, seeds[|seeds| - 1]).rows && id !in l.rows
    ensures Fresh(l, Upsert(mid, seeds[|seeds| - 1]).rows[id], seeds)
  {
    hide Upsert, Reseed, SeedRow, Takes, WellKeyed, SameKey;
    var init, seed := seeds[..|seeds| - 1], seeds[|seeds| - 1];
    UpsertRows(mid, seed);
    if id in mid.rows {
      var i :| 0 <= i < |init| && mid.rows[id] == SeedRow(init[i]) && !Occupied(l, init[i]);
      assert init[i] == seeds[i];
      OtherSeedLeaves(seeds[i], seed);
    } else {
      if Occupied(l, seed) { OccupiedAfter(l, mid, init, seed); }
      assert Upsert(mid, seed).rows[id] == SeedRow(seeds[|seeds| - 1]);
    }
  }

  lemma OccupiedAfter(l: Ledger, l': Ledger, seeds: seq<Seed>, seed: Seed)
    requires Occupied(l, seed)
    requires forall id :: id in l.rows ==> id in l'.rows && l'.rows[id] == After(l.rows[id], seeds)
    ensures Occupied(l', seed)
  {
    var id :| id in l.rows && Takes(l.rows[id], seed);
    AfterKeepsKey(l.rows[id], seeds);
    assert Takes(l'.rows[id], seed);
  }

  lemma StaysOccupied(l: Ledger, other: Seed, seed: Seed)
    requires WellKeyed(l) && Occupied(l, seed)
    ensures Occupied(Upsert(l, other), seed)
  {
    UpsertRows(l, other);
    var id :| id in l.rows && Takes(l.rows[id], seed);
    assert Takes(Upsert(l, other).rows[id], seed);
  }

  lemma UpsertRows(l: Ledger, seed: Seed)
    requires WellKeyed(l)
    ensures var l' := Upsert(l, seed);
            && l.nextId <= l'.nextId
            && (forall id :: id in l.rows ==> id in l'.rows && l'.rows[id] == Reseed(l.rows[id], seed))
            && (forall id :: id in l'.rows && id !in l.rows ==>
                  l.nextId <= id < l'.nextId && !Occupied(l, seed) && l'.rows[id] == SeedRow(seed))
            && Occupied(l', seed)
  {
    var l' := Upsert(l, seed);
    if Occupied(l, seed) {
      var id :| id in l.rows && Takes(l.rows[id], seed);
      assert Takes(l'.rows[id], seed);
    } else {
      assert Takes(l'.rows[l.nextId], seed);
    }
  }

  lemma OtherSeedLeaves(seed: Seed, other: Seed)
    requires seed.sourceId != other.sourceId
    ensures Reseed(SeedRow(seed), other) == SeedRow(seed)
  {
  }

  lemma UpsertKeepsKeys(l: Ledger, seed: Seed)
    requires WellKeyed(l)
    ensures WellKeyed(Upsert(l, seed))
  {
    var l' := Upsert(l, seed);
    forall i, j | i in l'.rows && j in l'.rows && SameKey(l'.rows[i], l'.rows[j]) ensures i == j {
      if i in l.rows && j in l.rows {
        assert SameKey(l.rows[i], l.rows[j]);
      }
    }
  }

  // ---- the plan is exactly the occurrences of the active schedules ----

  /** The schedule's own promise for the window. */
  predicate InReach(s: Schedule, w: Window, date: IsoDate) {
    && Recurs(RuleOf(s), date) && Day(s.startDate) <= Day(date)
    && (s.endDate.Some? ==> Day(date) <= Day(s.endDate.value))
    && InWindow(date, w)
  }

  predicate PlannedAt(schedules: seq<Schedule>, k: nat, streamId: nat, name: string, w: Window,
                      date: IsoDate, seed: Seed)
    requires k < |schedules|
  {
    && schedules[k].streamId == streamId && schedules[k].active && InReach(schedules[k], w, date)
    && seed == SeedOf(k + 1, schedules[k], name, date)
  }

  ghost predicate Planned(schedules: seq<Schedule>, n: nat, streamId: nat, name: string, w: Window, seed: Seed)
    requires n <= |schedules|
  {
    exists k: nat, date: IsoDate :: k < n && PlannedAt(schedules, k, streamId, name, w, date, seed)
  }

  lemma ScheduleDatesAreInReach(s: Schedule, w: Window, dates: seq<IsoDate>)
    requires ScheduleDates(s, w) == Success(dates)
    ensures Increasing(dates) && forall date: IsoDate :: date in dates <==> InReach(s, w, date)
  {
    hide Day;
    OccurrencesAreExact(RuleOf(s), RangeStart(s, w), RangeEnd(s, w), dates);
  }

  lemma SeedsAreDistinct(id: nat, s: Schedule, name: string, a: IsoDate, b: IsoDate)
    requires Recurs(RuleOf(s), a) && Day(s.startDate) <= Day(a)
    requires Recurs(RuleOf(s), b) && Day(s.startDate) <= Day(b)
    requires SeedOf(id, s, name, a).sourceId == SeedOf(id, s, name, b).sourceId
    ensures a == b
  {
    hide Day;
    Slots.SourceIdIsInjective(id, Slots.ProjectionSlot(s.frequency, s.startDate, a),
                              id, Slots.ProjectionSlot(s.frequency, s.startDate, b));
    Slots.SlotsAreDistinct(RuleOf(s), a, b);
  }

  lemma OtherScheduleOtherSlot(id: nat, s: Schedule, a: IsoDate, id': nat, s': Schedule, b: IsoDate, name: string)
    requires id != id'
    ensures SeedOf(id, s, name, a).sourceId != SeedOf(id', s', name, b).sourceId
  {
    if SeedOf(id, s, name, a).sourceId == SeedOf(id', s', name, b).sourceId {
      Slots.SourceIdIsInjective(id, Slots.ProjectionSlot(s.frequency, s.startDate, a),
                                id', Slots.ProjectionSlot(s'.frequency, s'.startDate, b));
    }
  }

  lemma {:induction false} PlanIsExact(schedules: seq<Schedule>, n: nat, streamId: nat, name: string, w: Window,
                                       seeds: seq<Seed>)
    requires n <= |schedules| && Plan(schedules, n, streamId, name, w) == Success(seeds)
    ensures forall seed :: seed in seeds <==> Planned(schedules, n, streamId, name, w, seed)
    ensures DistinctSlots(seeds, streamId)
  {
    hide Day, SeedOf, InReach, SeedsOf, ScheduleDates;
    if n > 0 {
      var before := Plan(schedules, n - 1, streamId, name, w).value;
      PlanIsExact(schedules, n - 1, streamId, name, w, before);
      var s := schedules[n - 1];
      if s.streamId == streamId && s.active {
        var dates := ScheduleDates(s, w).value;
        ScheduleDatesAreInReach(s, w, dates);
        PlanOneSchedule(schedules, n, streamId, name, w, before, dates);
      } else {
        forall seed ensures Planned(schedules, n, streamId, name, w, seed) <==>
                            Planned(schedules, n - 1, streamId, name, w, seed) {
          if Planned(schedules, n, streamId, name, w, seed) {
            var k: nat, date: IsoDate :| k < n && PlannedAt(schedules, k, streamId, name, w, date, seed);
            assert k < n - 1;
          }
        }
      }
    }
  }

  lemma PlanOneSchedule(schedules: seq<Schedule>, n: nat, streamId: nat, name: string, w: Window,
                        before: seq<Seed>, dates: seq<IsoDate>)
    requires 0 < n <= |schedules| && schedules[n - 1].streamId == streamId && schedules[n - 1].active
    requires forall seed :: seed in before <==> Planned(schedules, n - 1, streamId, name, w, seed)
    requires DistinctSlots(before, streamId)
    requires Increasing(dates) && forall date: IsoDate :: date in dates <==> InReach(schedules[n - 1], w, date)
    ensures var seeds := before + SeedsOf(n, schedules[n - 1], name, dates);
            && (forall seed :: seed in seeds <==> Planned(schedules, n, streamId, name, w, seed))
            && DistinctSlots(seeds, streamId)
  {
    hide Day, SeedOf, InReach, SeedsOf;
    var s := schedules[n - 1];
    var added := SeedsOf(n, s, name, dates);
    var seeds := before + added;
    PlanOneMore(schedules, n, streamId, name, w, before, dates);
    hide Planned;
    forall i | 0 <= i < |added| ensures added[i].streamId == streamId {
      SeedStream(n, s, name, dates[i]);
    }
    forall i | 0 <= i < |before| ensures Planned(schedules, n - 1, streamId, name, w, before[i]) {
      assert before[i] in before;
    }
    forall i, j | 0 <= i < j < |seeds| ensures seeds[i].sourceId != seeds[j].sourceId {
      if j >= |before| {
        var date := dates[j - |before|];
        assert date in dates && seeds[j] == SeedOf(n, s, name, date);
        if i < |before| {
          PlannedElsewhere(schedules, n, streamId, name, w, before[i], date);
        } else {
          var other := dates[i - |before|];
          assert other in dates && seeds[i] == SeedOf(n, s, name, other);
          ReachRecurs(s, w, date);
          ReachRecurs(s, w, other);
          if seeds[i].sourceId == seeds[j].sourceId { SeedsAreDistinct(n, s, name, other, date); }
        }
      }
    }
  }

  lemma PlannedElsewhere(
    schedules: seq<Schedule>, n: nat, streamId: nat, name: string, w: Window, seed: Seed, date: IsoDate)
    requires 0 < n <= |schedules| && Planned(schedules, n - 1, streamId, name, w, seed)
    ensures seed.sourceId != SeedOf(n, schedules[n - 1], name, date).sourceId
  {
    hide Day, InReach, SeedOf;
    var k: nat, other: IsoDate :| k < n - 1 && PlannedAt(schedules, k, streamId, name, w, other, seed);
    OtherScheduleOtherSlot(k + 1, schedules[k], other, n, schedules[n - 1], date, name);
  }

  lemma PlanOneMore(schedules: seq<Schedule>, n: nat, streamId: nat, name: string, w: Window,
                    before: seq<Seed>, dates: seq<IsoDate>)
    requires 0 < n <= |schedules| && schedules[n - 1].streamId == streamId && schedules[n - 1].active
    requires forall seed :: seed in before <==> Planned(schedules, n - 1, streamId, name, w, seed)
    requires forall date: IsoDate :: date in dates <==> InReach(schedules[n - 1], w, date)
    ensures forall seed :: seed in before + SeedsOf(n, schedules[n - 1], name, dates) <==>
                           Planned(schedules, n, streamId, name, w, seed)
  {
    hide Day, SeedOf, InReach, SeedsOf;
    var s := schedules[n - 1];
    var added := SeedsOf(n, s, name, dates);
    var seeds := before + added;
    forall seed ensures seed in seeds <==> Planned(schedules, n, streamId, name, w, seed) {
      if seed in added {
        var i :| 0 <= i < |added| && added[i] == seed;
        assert dates[i] in dates;
        assert PlannedAt(schedules, n - 1, streamId, name, w, dates[i], seed);
      }
      if seed in before {
        var k: nat, date: IsoDate :| k < n - 1 && PlannedAt(schedules, k, streamId, name, w, date, seed);
      }
      if Planned(schedules, n, streamId, name, w, seed) {
        var k: nat, date: IsoDate :| k < n && PlannedAt(schedules, k, streamId, name, w, date, seed);
        if k == n - 1 {
          assert date in dates;
          var i :| 0 <= i < |dates| && dates[i] == date;
          assert added[i] == seed && seeds[|before| + i] == seed;
        } else {
          assert seed in before;
        }
      }
    }
  }

  lemma SeedStream(id: nat, s: Schedule, name: string, date: IsoDate)
    ensures SeedOf(id, s, name, date).streamId == s.streamId && SeedOf(id, s, name, date).date == date
  {
  }

  lemma ReachRecurs(s: Schedule, w: Window, date: IsoDate)
    requires InReach(s, w, date)
    ensures Recurs(RuleOf(s), date) && Day(s.startDate) <= Day(date) && InWindow(date, w)
  {
  }

  // ---- the refresh ----

  lemma TombstoneKeepsKeys(l: Ledger, streamId: nat, w: Window)
    requires WellKeyed(l)
    ensures WellKeyed(Tombstone(l, streamId, w))
  {
    hide Day;
    var l' := Tombstone(l, streamId, w);
    forall i, j | i in l'.rows && j in l'.rows && SameKey(l'.rows[i], l'.rows[j]) ensures i == j {
      assert SameKey(l.rows[i], l.rows[j]);
    }
  }

  /** What becomes of a row that existed before the refresh. */
  function Refreshed(e: Event, streamId: nat, w: Window, seeds: seq<Seed>): Event {
    After(Retire(e, streamId, w), seeds)
  }

  /** The whole refresh, row by row. */
  lemma RefreshRows(b: Books, streamId: nat, name: string, w: Window, b': Books, count: nat)
    requires WellKeyed(b.ledger) && RefreshOn(b, streamId, name, w) == Success((b', count))
    ensures var seeds := Plan(b.schedules, |b.schedules|, streamId, name, w).value;
            && count == |seeds| && DistinctSlots(seeds, streamId)
            && (forall seed :: seed in seeds <==> Planned(b.schedules, |b.schedules|, streamId, name, w, seed))
            && b' == b.(ledger := b'.ledger) && WellKeyed(b'.ledger)
            && (forall id :: id in b.ledger.rows ==>
                  id in b'.ledger.rows && b'.ledger.rows[id] == Refreshed(b.ledger.rows[id], streamId, w, seeds))
            && (forall id :: id in b'.ledger.rows && id !in b.ledger.rows ==>
                  id >= b.ledger.nextId && Fresh(b.ledger, b'.ledger.rows[id], seeds))
            && (forall i :: 0 <= i < |seeds| ==> Occupied(b'.ledger, seeds[i]))
  {
    hide Day, WellKeyed, After, Retire, Occupied;
    var seeds := Plan(b.schedules, |b.schedules|, streamId, name, w).value;
    PlanIsExact(b.schedules, |b.schedules|, streamId, name, w, seeds);
    TombstoneKeepsKeys(b.ledger, streamId, w);
    UpsertsAreUpserted(Tombstone(b.ledger, streamId, w), seeds, streamId);
    forall i | 0 <= i < |seeds|
      ensures Occupied(Tombstone(b.ledger, streamId, w), seeds[i]) <==> Occupied(b.ledger, seeds[i])
    {
      TombstoneOccupies(b.ledger, streamId, w, seeds[i]);
    }
  }

  lemma TombstoneOccupies(l: Ledger, streamId: nat, w: Window, seed: Seed)
    ensures Occupied(Tombstone(l, streamId, w), seed) <==> Occupied(l, seed)
  {
    hide Day;
    var l' := Tombstone(l, streamId, w);
    assert forall id :: id in l.rows ==> (Takes(l'.rows[id], seed) <==> Takes(l.rows[id], seed));
  }

  /** A shown projection that the user has not touched. */
  predicate Live(e: Event, streamId: nat, w: Window) {
    IsProjection(e, streamId) && Open(e) && !Overridden(e) && e.exclusion == None && InWindow(e.expectedDate, w)
  }

  /** A row the refresh must leave to its owner. */
  predicate Reserved(e: Event) {
    !Open(e) || Overridden(e) || e.exclusion == Some(ByUser)
  }

  ghost predicate Blocked(l: Ledger, seed: Seed) {
    exists id :: id in l.rows && Takes(l.rows[id], seed) && Reserved(l.rows[id])
  }

  predicate Carries(e: Event, seed: Seed) {
    && Takes(e, seed) && e.accountId == seed.accountId && e.title == Some(seed.title) && e.expectedDate == seed.date
    && e.amount == seed.amount && e.metadata == ScheduleMetadata(seed.scheduleId, seed.streamName)
  }

  /** Refresh refines the simple specification: the live projections in the
      window are exactly the planned occurrences whose slots are not reserved,
      with the schedule's values. */
  lemma RefreshIsExact(b: Books, streamId: nat, name: string, w: Window, b': Books, count: nat)
    requires WellKeyed(b.ledger) && RefreshOn(b, streamId, name, w) == Success((b', count))
    ensures forall id :: id in b'.ledger.rows && Live(b'.ledger.rows[id], streamId, w) ==>
              exists seed :: Planned(b.schedules, |b.schedules|, streamId, name, w, seed)
                             && !Blocked(b.ledger, seed) && Carries(b'.ledger.rows[id], seed)
    ensures forall seed :: Planned(b.schedules, |b.schedules|, streamId, name, w, seed) && !Blocked(b.ledger, seed) ==>
              exists id :: id in b'.ledger.rows && Live(b'.ledger.rows[id], streamId, w)
                           && Carries(b'.ledger.rows[id], seed)
  {
    hide Day, Plan, WellKeyed, Planned, SeedRow, Live, Carries, Blocked;
    RefreshRows(b, streamId, name, w, b', count);
    var seeds := Plan(b.schedules, |b.schedules|, streamId, name, w).value;
    forall id | id in b'.ledger.rows && Live(b'.ledger.rows[id], streamId, w)
      ensures exists seed :: Planned(b.schedules, |b.schedules|, streamId, name, w, seed)
                             && !Blocked(b.ledger, seed) && Carries(b'.ledger.rows[id], seed)
    {
      var i := LiveRowIsPlanned(b, streamId, name, w, b', seeds, id);
      assert seeds[i] in seeds;
    }
    forall seed | Planned(b.schedules, |b.schedules|, streamId, name, w, seed) && !Blocked(b.ledger, seed)
      ensures exists id :: id in b'.ledger.rows && Live(b'.ledger.rows[id], streamId, w)
                           && Carries(b'.ledger.rows[id], seed)
    {
      assert seed in seeds;
      var i :| 0 <= i < |seeds| && seeds[i] == seed;
      PlannedInWindow(b.schedules, |b.schedules|, streamId, name, w, seed);
      var id := PlannedSlotIsLive(b, streamId, name, w, b', seeds, i);
    }
  }

  lemma PlannedInWindow(schedules: seq<Schedule>, n: nat, streamId: nat, name: string, w: Window, seed: Seed)
    requires n <= |schedules| && Planned(schedules, n, streamId, name, w, seed)
    ensures InWindow(seed.date, w)
  {
    hide Day, SeedOf;
    var k: nat, date: IsoDate :| k < n && PlannedAt(schedules, k, streamId, name, w, date, seed);
    SeedStream(k + 1, schedules[k], name, date);
  }

  ghost predicate RowsRefreshed(b: Books, streamId: nat, w: Window, b': Books, seeds: seq<Seed>) {
    && DistinctSlots(seeds, streamId) && WellKeyed(b.ledger)
    && (forall id :: id in b.ledger.rows ==>
          id in b'.ledger.rows && b'.ledger.rows[id] == Refreshed(b.ledger.rows[id], streamId, w, seeds))
    && (forall id :: id in b'.ledger.rows && id !in b.ledger.rows ==> Fresh(b.ledger, b'.ledger.rows[id], seeds))
    && (forall i :: 0 <= i < |seeds| ==> Occupied(b'.ledger, seeds[i]))
  }

  lemma LiveRowIsPlanned(b: Books, streamId: nat, name: string, w: Window, b': Books, seeds: seq<Seed>, id: nat)
    returns (i: nat)
    requires RowsRefreshed(b, streamId, w, b', seeds)
    requires id in b'.ledger.rows && Live(b'.ledger.rows[id], streamId, w)
    ensures i < |seeds| && !Blocked(b.ledger, seeds[i]) && Carries(b'.ledger.rows[id], seeds[i])
  {
    hide Day;
    if id in b.ledger.rows {
      i := KeptLiveRow(b.ledger.rows[id], streamId, w, seeds);
      forall other | other in b.ledger.rows && Takes(b.ledger.rows[other], seeds[i])
        ensures !Reserved(b.ledger.rows[other])
      {
        assert SameKey(b.ledger.rows[id], b.ledger.rows[other]);
      }
    } else {
      i :| 0 <= i < |seeds| && b'.ledger.rows[id] == SeedRow(seeds[i]) && !Occupied(b.ledger, seeds[i]);
    }
  }

  /** An old row that ends up live took a seed: an untouched row that no seed
      claims was put aside. */
  lemma KeptLiveRow(e: Event, streamId: nat, w: Window, seeds: seq<Seed>) returns (i: nat)
    requires DistinctSlots(seeds, streamId) && Live(Refreshed(e, streamId, w, seeds), streamId, w)
    ensures i < |seeds| && Takes(e, seeds[i]) && !Reserved(e) && Carries(Refreshed(e, streamId, w, seeds), seeds[i])
  {
    hide Day;
    var retired := Retire(e, streamId, w);
    AfterKeepsKey(retired, seeds);
    assert exists i :: 0 <= i < |seeds| && Takes(retired, seeds[i]);
    i :| 0 <= i < |seeds| && Takes(retired, seeds[i]);
    AfterIsItsSeed(retired, seeds, streamId, i);
  }

  lemma PlannedSlotIsLive(b: Books, streamId: nat, name: string, w: Window, b': Books, seeds: seq<Seed>, i: nat)
    returns (id: nat)
    requires RowsRefreshed(b, streamId, w, b', seeds)
    requires i < |seeds| && InWindow(seeds[i].date, w) && !Blocked(b.ledger, seeds[i])
    ensures id in b'.ledger.rows && Live(b'.ledger.rows[id], streamId, w) && Carries(b'.ledger.rows[id], seeds[i])
  {
    hide Day, After, Retire, Live, Carries, InWindow;
    id := OccupantOf(b'.ledger, seeds[i]);
    if id in b.ledger.rows {
      var e := b.ledger.rows[id];
      AfterKeepsKey(Retire(e, streamId, w), seeds);
      RetireKeepsKey(e, streamId, w);
      assert Takes(e, seeds[i]);
      assert !Reserved(e);
      OpenSlotIsLive(e, streamId, w, seeds, i);
    } else {
      var j :| 0 <= j < |seeds| && b'.ledger.rows[id] == SeedRow(seeds[j]) && !Occupied(b.ledger, seeds[j]);
      assert i == j;
      SeedRowIsLive(seeds[i], streamId, w);
    }
  }

  lemma OccupantOf(l: Ledger, seed: Seed) returns (id: nat)
    requires Occupied(l, seed)
    ensures id in l.rows && Takes(l.rows[id], seed)
  {
    hide Takes;
    id :| id in l.rows && Takes(l.rows[id], seed);
  }

  lemma RetireKeepsKey(e: Event, streamId: nat, w: Window)
    ensures SameKey(Retire(e, streamId, w), e)
  {
    hide Day;
  }

  /** The occurrence of an open slot that nobody reserved is shown. */
  lemma OpenSlotIsLive(e: Event, streamId: nat, w: Window, seeds: seq<Seed>, i: nat)
    requires DistinctSlots(seeds, streamId) && i < |seeds| && Takes(e, seeds[i]) && !Reserved(e)
    requires InWindow(seeds[i].date, w)
    ensures var e' := Refreshed(e, streamId, w, seeds); Live(e', streamId, w) && Carries(e', seeds[i])
  {
    hide Day, After, InWindow;
    RetireKeepsKey(e, streamId, w);
    AfterIsItsSeed(Retire(e, streamId, w), seeds, streamId, i);
  }

  lemma SeedRowIsLive(seed: Seed, streamId: nat, w: Window)
    requires seed.streamId == streamId && InWindow(seed.date, w)
    ensures Live(SeedRow(seed), streamId, w) && Carries(SeedRow(seed), seed)
  {
    hide InWindow;
  }

  /** What no refresh may change in a row that existed. */
  predicate Respected(e: Event, e': Event, streamId: nat) {
    && SameKey(e, e') && e'.status == e.status && e'.actualDate == e.actualDate && e'.actualAmount == e.actualAmount
    && e'.overrideLabel == e.overrideLabel && e'.hasLabelOverride == e.hasLabelOverride
    && e'.overrideDate == e.overrideDate && e'.overrideAmount == e.overrideAmount
    && e'.overrideAccount == e.overrideAccount && e'.hasAccountOverride == e.hasAccountOverride
    && e'.notes == e.notes
    && (e'.exclusion == Some(ByUser) <==> e.exclusion == Some(ByUser))
    && (!IsProjection(e, streamId) || !Open(e) ==> e' == e)
  }

  /** Rows of other streams and other sources, received rows, override columns
      and user exclusions survive every refresh; no row disappears. */
  lemma RefreshRespectsRows(b: Books, streamId: nat, name: string, w: Window, b': Books, count: nat)
    requires WellKeyed(b.ledger) && RefreshOn(b, streamId, name, w) == Success((b', count))
    ensures forall id :: id in b.ledger.rows ==>
              id in b'.ledger.rows && Respected(b.ledger.rows[id], b'.ledger.rows[id], streamId)
    ensures forall id :: id in b'.ledger.rows && id !in b.ledger.rows ==>
              id >= b.ledger.nextId && IsProjection(b'.ledger.rows[id], streamId)
  {
    hide Day, Plan, Planned, After;
    RefreshRows(b, streamId, name, w, b', count);
    var seeds := Plan(b.schedules, |b.schedules|, streamId, name, w).value;
    forall id | id in b.ledger.rows ensures Respected(b.ledger.rows[id], b'.ledger.rows[id], streamId) {
      RefreshRespectsRow(b.ledger.rows[id], streamId, w, seeds);
    }
  }

  lemma RefreshRespectsRow(e: Event, streamId: nat, w: Window, seeds: seq<Seed>)
    requires DistinctSlots(seeds, streamId)
    ensures Respected(e, Refreshed(e, streamId, w, seeds), streamId)
  {
    hide Day, After;
    var retired := Retire(e, streamId, w);
    AfterKeepsKey(retired, seeds);
    if i :| 0 <= i < |seeds| && Takes(retired, seeds[i]) {
      AfterIsItsSeed(retired, seeds, streamId, i);
    }
  }

  /** Refreshing again with the same schedules and window changes nothing. */
  lemma RefreshIsIdempotent(b: Books, streamId: nat, name: string, w: Window, b': Books, count: nat)
    requires WellKeyed(b.ledger) && RefreshOn(b, streamId, name, w) == Success((b', count))
    ensures RefreshOn(b', streamId, name, w) == Success((b', count))
  {
    hide Day, Plan, Planned, After, WellKeyed, Retire, Upserts, Occupied;
    RefreshRows(b, streamId, name, w, b', count);
    var seeds := Plan(b.schedules, |b.schedules|, streamId, name, w).value;
    var b'' := RefreshOn(b', streamId, name, w).value.0;
    RefreshRows(b', streamId, name, w, b'', count);
    forall id | id in b'.ledger.rows ensures b''.ledger.rows[id] == b'.ledger.rows[id] {
      if id in b.ledger.rows {
        OldRowIsStable(b.ledger.rows[id], streamId, w, seeds);
      } else {
        var i :| 0 <= i < |seeds| && b'.ledger.rows[id] == SeedRow(seeds[i]) && !Occupied(b.ledger, seeds[i]);
        NewRowIsStable(streamId, w, seeds, i);
      }
    }
    assert b''.ledger.rows.Keys == b'.ledger.rows.Keys;
    assert b''.ledger.rows == b'.ledger.rows;
    forall i | 0 <= i < |seeds| ensures Occupied(Tombstone(b'.ledger, streamId, w), seeds[i]) {
      TombstoneOccupies(b'.ledger, streamId, w, seeds[i]);
    }
    TombstoneKeepsKeys(b'.ledger, streamId, w);
    OccupiedSlotsInsertNothing(Tombstone(b'.ledger, streamId, w), seeds, streamId);
  }

  lemma OldRowIsStable(e: Event, streamId: nat, w: Window, seeds: seq<Seed>)
    requires DistinctSlots(seeds, streamId)
    ensures var e' := Refreshed(e, streamId, w, seeds); Refreshed(e', streamId, w, seeds) == e'
  {
    hide Day, After;
    var retired, e' := Retire(e, streamId, w), Refreshed(e, streamId, w, seeds);
    AfterKeepsKey(retired, seeds);
    AfterKeepsKey(Retire(e', streamId, w), seeds);
    if i :| 0 <= i < |seeds| && Takes(retired, seeds[i]) {
      AfterIsItsSeed(retired, seeds, streamId, i);
      AfterIsItsSeed(Retire(e', streamId, w), seeds, streamId, i);
    }
  }

  lemma NewRowIsStable(streamId: nat, w: Window, seeds: seq<Seed>, i: nat)
    requires DistinctSlots(seeds, streamId) && i < |seeds|
    ensures Refreshed(SeedRow(seeds[i]), streamId, w, seeds) == SeedRow(seeds[i])
  {
    hide Day, After;
    AfterIsItsSeed(Retire(SeedRow(seeds[i]), streamId, w), seeds, streamId, i);
  }

  lemma {:induction false} OccupiedSlotsInsertNothing(l: Ledger, seeds: seq<Seed>, streamId: nat)
    requires WellKeyed(l) && DistinctSlots(seeds, streamId)
    requires forall i :: 0 <= i < |seeds| ==> Occupied(l, seeds[i])
    ensures Upserts(l, seeds).nextId == l.nextId
  {
    hide WellKeyed, Takes, Reseed, SeedRow, After;
    if seeds != [] {
      var init := seeds[..|seeds| - 1];
      OccupiedSlotsInsertNothing(l, init, streamId);
      UpsertsAreUpserted(l, init, streamId);
      OccupiedAfter(l, Upserts(l, init), init, seeds[|seeds| - 1]);
    }
  }

  /** The window reaches the schedule, which lacks its due day or would have to
      leave the calendar there. */
  predicate CannotProject(s: Schedule, w: Window) {
    var from, through := RangeStart(s, w), RangeEnd(s, w);
    Day(from) <= Day(through)
    && ((s.frequency == Monthly && s.dayOfMonth.None?) || !Computable(RuleOf(s), from, through))
  }

  predicate Blocks(s: Schedule, streamId: nat, w: Window) { s.streamId == streamId && s.active && CannotProject(s, w) }

  /** A refresh is refused exactly when the window reaches an active schedule of
      the stream that cannot be projected there. */
  lemma {:induction false} PlanFailsIff(schedules: seq<Schedule>, n: nat, streamId: nat, name: string, w: Window)
    requires n <= |schedules|
    ensures Plan(schedules, n, streamId, name, w).Failure? <==>
              exists k :: 0 <= k < n && Blocks(schedules[k], streamId, w)
  {
    hide Blocks, Plan;
    if n > 0 {
      PlanFailsIff(schedules, n - 1, streamId, name, w);
      PlanOneFailsIff(schedules, n, streamId, name, w);
    } else {
      NoPlan(schedules, streamId, name, w);
    }
  }

  lemma NoPlan(schedules: seq<Schedule>, streamId: nat, name: string, w: Window)
    ensures Plan(schedules, 0, streamId, name, w) == Success([])
  {
    hide ScheduleDates, SeedsOf;
  }

  lemma PlanOneFailsIff(schedules: seq<Schedule>, n: nat, streamId: nat, name: string, w: Window)
    requires 0 < n <= |schedules|
    ensures Plan(schedules, n, streamId, name, w).Failure? <==>
              Plan(schedules, n - 1, streamId, name, w).Failure?
              || Blocks(schedules[n - 1], streamId, w)
  {
    hide ScheduleDates, CannotProject, SeedsOf;
    ScheduleFailsIff(schedules[n - 1], w);
  }

  lemma ScheduleFailsIff(s: Schedule, w: Window)
    ensures ScheduleDates(s, w).Failure? <==> CannotProject(s, w)
  {
    hide Day, OccurrencesIn, Computable, RangeStart, RangeEnd;
  }

  /** A monthly schedule fails exactly in windows that reach into December 9999. */
  lemma MonthlyFailsInLastMonth(s: Schedule, w: Window)
    requires s.frequency == Monthly && s.dayOfMonth.Some?
    ensures CannotProject(s, w) <==> Day(RangeStart(s, w)) <= Day(RangeEnd(s, w)) && InLastMonth(RangeEnd(s, w))
  {
    hide Day, RangeStart, RangeEnd;
  }

  /** Editing the due day of a monthly schedule (in whatever way) reuses each
      month's row: an existing row of that month takes the new occurrence's
      seed, it is the only row that does, and the refresh adds none beside it. */
  lemma DueDayEditReusesRow(b: Books, streamId: nat, name: string, w: Window, b': Books, count: nat,
                            k: nat, anchor: IsoDate, earlier: IsoDate, date: IsoDate, id: nat)
    requires WellKeyed(b.ledger) && RefreshOn(b, streamId, name, w) == Success((b', count))
    requires k < |b.schedules| && b.schedules[k].frequency == Monthly
    requires b.schedules[k].streamId == streamId && b.schedules[k].active && InReach(b.schedules[k], w, date)
    requires earlier.y == date.y && earlier.m == date.m
    requires id in b.ledger.rows && IsProjection(b.ledger.rows[id], streamId)
    requires b.ledger.rows[id].sourceId == Slots.SourceId(k + 1, Slots.ProjectionSlot(Monthly, anchor, earlier))
    ensures id in b'.ledger.rows
    ensures Open(b.ledger.rows[id]) ==> Carries(b'.ledger.rows[id], SeedOf(k + 1, b.schedules[k], name, date))
    ensures var seed := SeedOf(k + 1, b.schedules[k], name, date);
            forall other :: other in b'.ledger.rows && Takes(b'.ledger.rows[other], seed) ==>
              other == id
  {
    hide Day, Plan, After;
    var seed := SeedOf(k + 1, b.schedules[k], name, date);
    Slots.MonthlySlotIsTheMonth(anchor, earlier, b.schedules[k].startDate, date);
    RefreshRows(b, streamId, name, w, b', count);
    var seeds := Plan(b.schedules, |b.schedules|, streamId, name, w).value;
    assert PlannedAt(b.schedules, k, streamId, name, w, date, seed);
    assert seed in seeds;
    var i :| 0 <= i < |seeds| && seeds[i] == seed;
    var retired := Retire(b.ledger.rows[id], streamId, w);
    AfterKeepsKey(retired, seeds);
    AfterIsItsSeed(retired, seeds, streamId, i);
    forall other | other in b'.ledger.rows && Takes(b'.ledger.rows[other], seed) ensures other == id {
      assert SameKey(b'.ledger.rows[other], b'.ledger.rows[id]);
    }
  }
}
