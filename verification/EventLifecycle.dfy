/** The life of an event over every sequence of commands. */
module EventLifecycle {
  import opened Wrappers
  import opened Calendar
  import opened StreamEvents
  import opened RefreshSpec
  import opened Text

  datatype Command =
    | SaveStreamCmd(draft: StreamDraft, window: Window)
    | RefreshCmd(streamId: nat, window: Window)
    | DeleteStreamCmd(streamId: nat)
    | CreateCmd(event: EventDraft)
    | PatchCmd(id: nat, patch: EventPatch)
    | RemoveCmd(id: nat)
    | RestoreCmd(id: nat)
    | ReconcileCmd(id: nat, date: IsoDate, amount: int)

  function Execute(b: Books, c: Command): Result<(Books, nat), FinanceError> {
    match c
    case SaveStreamCmd(draft, window) => SaveStream(b, draft, window)
    case RefreshCmd(streamId, window) => Refresh(b, streamId, window)
    case DeleteStreamCmd(streamId) => DeleteStream(b, streamId)
    case CreateCmd(event) => CreateManualEvent(b, event)
    case PatchCmd(id, patch) => PatchEvent(b, id, patch)
    case RemoveCmd(id) => RemoveEvent(b, id)
    case RestoreCmd(id) => RestoreEvent(b, id)
    case ReconcileCmd(id, date, amount) => ReconcileEvent(b, id, date, amount)
  }

  /** A refused command leaves the tables as they were. */
  function Step(b: Books, c: Command): Books {
    match Execute(b, c)
    case Success((b', _)) => b'
    case Failure(_) => b
  }

  function Run(b: Books, commands: seq<Command>): Books {
    if commands == [] then b else Step(Run(b, commands[..|commands| - 1]), commands[|commands| - 1])
  }

  /** The constraints the event table declares. */
  predicate RowIsSound(id: nat, e: Event) {
    && (e.status == Received ==> e.actualDate.Some? && e.actualAmount.Some? && e.exclusion == None)
    && (e.overrideLabel.Some? ==> e.hasLabelOverride)
    && (e.overrideAccount.Some? ==> e.hasAccountOverride)
    && (e.sourceType == Manual ==> e.sourceId == ManualSourceId(id))
  }

  ghost predicate Sound(b: Books) {
    WellKeyed(b.ledger) && forall id :: id in b.ledger.rows ==> RowIsSound(id, b.ledger.rows[id])
  }

  /** What one command may do to an existing row that the user or a schedule
      owns: received rows are final, as are a provider's, and an exclusion by the
      user ends only with its restoration. */
  ghost predicate RowKept(b: Books, b': Books, id: nat, c: Command) {
    id in b.ledger.rows ==>
      && var e := b.ledger.rows[id];
      && (e.status == Received ==> id in b'.ledger.rows && b'.ledger.rows[id] == e)
      && (e.exclusion == Some(ByUser) && e.sourceType == StreamSchedule && c != RestoreCmd(id) ==>
            id in b'.ledger.rows && b'.ledger.rows[id].exclusion == Some(ByUser)
            && SameKey(b'.ledger.rows[id], e))
      && (e.sourceType == StreamSchedule ==> id in b'.ledger.rows)
      && (e.sourceType.Provider? ==> id in b'.ledger.rows && b'.ledger.rows[id] == e)
  }

  ghost predicate GoodStep(b: Books, b': Books, c: Command) {
    && Sound(b') && b.ledger.nextId <= b'.ledger.nextId
    && forall id :: RowKept(b, b', id, c)
  }

  lemma RefreshOnStep(b: Books, streamId: nat, name: string, w: Window, b': Books, count: nat, c: Command)
    requires Sound(b) && RefreshOn(b, streamId, name, w) == Success((b', count))
    ensures GoodStep(b, b', c)
  {
    hide Day, Plan, WellKeyed, Upserts, Tombstone, Planned, Refreshed, Occupied;
    RefreshRespectsRows(b, streamId, name, w, b', count);
    RefreshRows(b, streamId, name, w, b', count);
    RefreshGrows(b, streamId, name, w);
    hide RefreshOn;
    var seeds := Plan(b.schedules, |b.schedules|, streamId, name, w).value;
    forall id | id in b'.ledger.rows ensures RowIsSound(id, b'.ledger.rows[id]) {
      if id in b.ledger.rows {
        RespectedIsSound(id, b.ledger.rows[id], b'.ledger.rows[id], streamId);
      } else {
        var i :| 0 <= i < |seeds| && b'.ledger.rows[id] == SeedRow(seeds[i]);
      }
    }
    hide RowIsSound, SeedRow;
    forall id | id in b.ledger.rows ensures RowKept(b, b', id, c) {
      assert Respected(b.ledger.rows[id], b'.ledger.rows[id], streamId);
    }
  }

  lemma RespectedIsSound(id: nat, e: Event, e': Event, streamId: nat)
    requires RowIsSound(id, e) && Respected(e, e', streamId)
    ensures RowIsSound(id, e')
  {
  }

  lemma RefreshGrows(b: Books, streamId: nat, name: string, w: Window)
    requires RefreshOn(b, streamId, name, w).Success?
    ensures b.ledger.nextId <= RefreshOn(b, streamId, name, w).value.0.ledger.nextId
  {
    UpsertsGrow(Tombstone(b.ledger, streamId, w), Plan(b.schedules, |b.schedules|, streamId, name, w).value);
  }

  lemma {:induction false} UpsertsGrow(l: Ledger, seeds: seq<Seed>)
    ensures l.nextId <= Upserts(l, seeds).nextId
  {
    if seeds != [] { UpsertsGrow(l, seeds[..|seeds| - 1]); }
  }

  /** An update of rows that keeps keys keeps the table sound. */
  lemma RowUpdateStep(b: Books, b': Books, c: Command)
    requires Sound(b) && b'.ledger.nextId == b.ledger.nextId && b'.ledger.rows.Keys <= b.ledger.rows.Keys
    requires forall id :: id in b'.ledger.rows ==>
               SameKey(b.ledger.rows[id], b'.ledger.rows[id]) && RowIsSound(id, b'.ledger.rows[id])
    requires forall id :: RowKept(b, b', id, c)
    ensures GoodStep(b, b', c)
  {
    forall i, j | i in b'.ledger.rows && j in b'.ledger.rows && SameKey(b'.ledger.rows[i], b'.ledger.rows[j])
      ensures i == j
    {
      assert SameKey(b.ledger.rows[i], b.ledger.rows[j]);
    }
  }

  lemma CreateStep(b: Books, d: EventDraft)
    requires Sound(b) && CreateManualEvent(b, d).Success?
    ensures GoodStep(b, CreateManualEvent(b, d).value.0, CreateCmd(d))
  {
    var id, b' := b.ledger.nextId, CreateManualEvent(b, d).value.0;
    forall i, j | i in b'.ledger.rows && j in b'.ledger.rows && SameKey(b'.ledger.rows[i], b'.ledger.rows[j])
      ensures i == j
    {
      if i == id && j != id { ManualIdsDiffer(id, j, b'.ledger.rows[j]); }
      if j == id && i != id { ManualIdsDiffer(id, i, b'.ledger.rows[i]); }
      if i != id && j != id { assert SameKey(b.ledger.rows[i], b.ledger.rows[j]); }
    }
  }

  lemma ManualIdsDiffer(id: nat, other: nat, e: Event)
    requires id != other && e.sourceType == Manual && e.sourceId == ManualSourceId(other)
    ensures e.sourceId != ManualSourceId(id)
  {
    if e.sourceId == ManualSourceId(id) {
      assert Decimal(id) == ManualSourceId(id)[7..] && Decimal(other) == ManualSourceId(other)[7..];
      DecimalIsInjective(id, other);
    }
  }

  lemma DeleteStep(b: Books, streamId: nat)
    requires Sound(b) && DeleteStream(b, streamId).Success?
    ensures GoodStep(b, DeleteStream(b, streamId).value.0, DeleteStreamCmd(streamId))
  {
    hide Day, WellKeyed, DeactivateOthers;
    RowUpdateStep(b, DeleteStream(b, streamId).value.0, DeleteStreamCmd(streamId));
  }

  /** A command that replaces one open row the user or a schedule owns. */
  lemma ReplaceStep(b: Books, id: nat, e: Event, c: Command)
    requires Sound(b) && Editable(b, id) && SameKey(b.ledger.rows[id], e) && RowIsSound(id, e)
    requires b.ledger.rows[id].exclusion == Some(ByUser) && c != RestoreCmd(id) ==> e.exclusion == Some(ByUser)
    ensures GoodStep(b, Replace(b, id, e), c)
  {
    hide Day, WellKeyed;
    RowUpdateStep(b, Replace(b, id, e), c);
  }

  lemma EventStep(b: Books, c: Command)
    requires Sound(b) && Execute(b, c).Success?
    requires c.PatchCmd? || c.RemoveCmd? || c.RestoreCmd? || c.ReconcileCmd?
    ensures GoodStep(b, Step(b, c), c)
  {
    hide Day, WellKeyed, Trim, GoodStep;
    var b' := Step(b, c);
    if c.RemoveCmd? && b.ledger.rows[c.id].sourceType == Manual {
      RowUpdateStep(b, b', c);
    } else {
      ReplaceStep(b, c.id, b'.ledger.rows[c.id], c);
    }
  }

  /** Every command, accepted or refused, keeps the table sound and every row
      its due. */
  lemma StepIsGood(b: Books, c: Command)
    requires Sound(b)
    ensures GoodStep(b, Step(b, c), c)
  {
    hide Day, RefreshOn, Trim, Plan, WellKeyed, GoodStep, SaveStream, CreateManualEvent, DeleteStream;
    hide PatchEvent, RemoveEvent, RestoreEvent, ReconcileEvent;
    match Execute(b, c)
    case Failure(_) =>
      RefusedStep(b, c);
    case Success((b', n)) =>
      match c
      case SaveStreamCmd(draft, window) => SaveStreamStep(b, draft, window);
      case RefreshCmd(streamId, window) =>
        var result := RefreshOn(b, streamId, b.streams[streamId - 1].name, window).value;
        RefreshOnStep(b, streamId, b.streams[streamId - 1].name, window, result.0, result.1, c);
      case CreateCmd(event) => CreateStep(b, event);
      case DeleteStreamCmd(streamId) => DeleteStep(b, streamId);
      case PatchCmd(_, _) => EventStep(b, c);
      case RemoveCmd(_) => EventStep(b, c);
      case RestoreCmd(_) => EventStep(b, c);
      case ReconcileCmd(_, _, _) => EventStep(b, c);
  }

  lemma RefusedStep(b: Books, c: Command)
    requires Sound(b)
    ensures GoodStep(b, b, c)
  {
    hide WellKeyed, Day;
  }

  lemma SaveStreamStep(b: Books, d: StreamDraft, w: Window)
    requires Sound(b) && SaveStream(b, d, w).Success?
    ensures GoodStep(b, SaveStream(b, d, w).value.0, SaveStreamCmd(d, w))
  {
    hide Day, RefreshOn, Trim, Plan, WellKeyed, SaveSchedules;
    var (streams, streamId) := SaveStreamRow(b.streams, d).value;
    var (saved, kept) := SaveSchedules(b.schedules, streamId, d.schedules, |d.schedules|).value;
    var mid := b.(streams := streams, schedules := DeactivateOthers(saved, streamId, kept));
    var result := RefreshOn(mid, streamId, d.name, w).value;
    RefreshOnStep(mid, streamId, d.name, w, result.0, result.1, SaveStreamCmd(d, w));
    forall id ensures RowKept(b, result.0, id, SaveStreamCmd(d, w)) {
      assert RowKept(mid, result.0, id, SaveStreamCmd(d, w));
    }
  }

  // ---- over whole runs ----

  lemma {:induction false} RunIsSound(b: Books, commands: seq<Command>)
    requires Sound(b)
    ensures Sound(Run(b, commands))
  {
    if commands != [] {
      RunIsSound(b, commands[..|commands| - 1]);
      StepIsGood(Run(b, commands[..|commands| - 1]), commands[|commands| - 1]);
    }
  }

  /** A received event is final: no sequence of commands changes, deletes or
      excludes it. */
  lemma {:induction false} ReceivedIsFinal(b: Books, commands: seq<Command>, id: nat)
    requires Sound(b) && id in b.ledger.rows && b.ledger.rows[id].status == Received
    ensures id in Run(b, commands).ledger.rows && Run(b, commands).ledger.rows[id] == b.ledger.rows[id]
  {
    if commands != [] {
      var init := commands[..|commands| - 1];
      ReceivedIsFinal(b, init, id);
      RunIsSound(b, init);
      StepIsGood(Run(b, init), commands[|commands| - 1]);
      assert RowKept(Run(b, init), Run(b, commands), id, commands[|commands| - 1]);
    }
  }

  /** An exclusion by the user outlives every sequence of commands that does
      not restore that very event. */
  lemma {:induction false} UserExclusionLasts(b: Books, commands: seq<Command>, id: nat)
    requires Sound(b) && id in b.ledger.rows
    requires b.ledger.rows[id].sourceType == StreamSchedule && b.ledger.rows[id].exclusion == Some(ByUser)
    requires forall i :: 0 <= i < |commands| ==> commands[i] != RestoreCmd(id)
    ensures id in Run(b, commands).ledger.rows && Run(b, commands).ledger.rows[id].exclusion == Some(ByUser)
    ensures SameKey(Run(b, commands).ledger.rows[id], b.ledger.rows[id])
  {
    if commands != [] {
      var init := commands[..|commands| - 1];
      UserExclusionLasts(b, init, id);
      RunIsSound(b, init);
      StepIsGood(Run(b, init), commands[|commands| - 1]);
      assert RowKept(Run(b, init), Run(b, commands), id, commands[|commands| - 1]);
    }
  }

  /** From empty tables every run is sound: in particular no two rows ever
      share (stream, source type, source id), so no statement can hit the
      uniqueness constraint. */
  lemma RunsFromEmptyAreSound(accounts: set<int>, commands: seq<Command>)
    ensures Sound(Run(Books(accounts, [], [], Ledger(map[], 1)), commands))
  {
    RunIsSound(Books(accounts, [], [], Ledger(map[], 1)), commands);
  }

  /** Removing and restoring a projection is the identity on the table unless
      a schedule had excluded it: then restoring shows it again. */
  lemma RemoveThenRestore(b: Books, id: nat)
    requires Sound(b) && Editable(b, id) && b.ledger.rows[id].sourceType == StreamSchedule
    ensures Run(b, [RemoveCmd(id), RestoreCmd(id)]) == Replace(b, id, b.ledger.rows[id].(exclusion := None))
    ensures Run(b, [RemoveCmd(id), RestoreCmd(id)]) == b <==> b.ledger.rows[id].exclusion == None
  {
    hide Day, Sound;
    var removed := Replace(b, id, b.ledger.rows[id].(exclusion := Some(ByUser)));
    RunTwo(b, RemoveCmd(id), RestoreCmd(id));
    assert Step(b, RemoveCmd(id)) == removed;
    assert Step(removed, RestoreCmd(id)) == Replace(removed, id, b.ledger.rows[id].(exclusion := None));
    assert removed.ledger.rows[id := b.ledger.rows[id].(exclusion := None)]
        == b.ledger.rows[id := b.ledger.rows[id].(exclusion := None)];
    if b.ledger.rows[id].exclusion == None {
      assert b.ledger.rows[id := b.ledger.rows[id]] == b.ledger.rows;
    }
  }

  lemma RunTwo(b: Books, c: Command, d: Command)
    ensures Run(b, [c, d]) == Step(Step(b, c), d)
  {
    hide Step;
    assert [c, d][..1] == [c] && [c][..0] == [];
    assert Run(b, [c]) == Step(Run(b, []), c);
  }

  // ---- saving, then refreshing ----

  /** The stream's name reaches a plan only as text: the slots are the same. */
  lemma {:induction false} PlanSlotsIgnoreName(schedules: seq<Schedule>, n: nat, streamId: nat,
                                               name: string, name': string, w: Window)
    requires n <= |schedules| && Plan(schedules, n, streamId, name, w).Success?
    ensures Plan(schedules, n, streamId, name', w).Success?
    ensures var seeds := Plan(schedules, n, streamId, name, w).value;
            var seeds' := Plan(schedules, n, streamId, name', w).value;
            |seeds| == |seeds'| && forall i :: 0 <= i < |seeds| ==> SameSlot(seeds[i], seeds'[i], name, name')
  {
    hide ScheduleDates, Slots.ProjectionSlot;
    if n > 0 {
      PlanSlotsIgnoreName(schedules, n - 1, streamId, name, name', w);
    }
  }

  predicate SameSlot(a: Seed, b: Seed, name: string, name': string) {
    a.streamId == b.streamId && a.sourceId == b.sourceId && a.streamName == name && b.streamName == name'
  }

  /** An open projection whose slot a seed fills again. */
  ghost predicate Reseeded(b: Books, seeds: seq<Seed>, id: nat) {
    id in b.ledger.rows && Open(b.ledger.rows[id]) && exists i :: 0 <= i < |seeds| && Takes(b.ledger.rows[id], seeds[i])
  }

  /** A refresh right after a save adds no row, and changes nothing at all
      exactly if the name was saved as it was given or no open projection
      carries it: the save projects with the name as given but stores it
      trimmed. */
  lemma SaveThenRefresh(b: Books, d: StreamDraft, w: Window, b': Books, streamId: nat)
    requires Sound(b) && SaveStream(b, d, w) == Success((b', streamId))
    ensures Refresh(b', streamId, w).Success?
    ensures Refresh(b', streamId, w).value.0.ledger.rows.Keys == b'.ledger.rows.Keys
    ensures Plan(b'.schedules, |b'.schedules|, streamId, d.name, w).Success?
    ensures Refresh(b', streamId, w).value.0 == b' <==>
              Trim(d.name) == d.name ||
              !exists id :: Reseeded(b', Plan(b'.schedules, |b'.schedules|, streamId, d.name, w).value, id)
  {
    hide Day, Trim, Plan, WellKeyed, SaveSchedules, RefreshOn, DeactivateOthers;
    var (streams, _) := SaveStreamRow(b.streams, d).value;
    var (saved, kept) := SaveSchedules(b.schedules, streamId, d.schedules, |d.schedules|).value;
    var mid := b.(streams := streams, schedules := DeactivateOthers(saved, streamId, kept));
    var count := RefreshOn(mid, streamId, d.name, w).value.1;
    assert mid.streams[streamId - 1] == Stream(Trim(d.name), true);
    RefreshUnderNewName(mid, streamId, d.name, Trim(d.name), w, b', count);
  }

  lemma RefreshUnderNewName(mid: Books, streamId: nat, name: string, name': string, w: Window, b': Books, count: nat)
    requires WellKeyed(mid.ledger) && RefreshOn(mid, streamId, name, w) == Success((b', count))
    ensures b' == mid.(ledger := b'.ledger)
    ensures Plan(b'.schedules, |b'.schedules|, streamId, name, w).Success?
    ensures RefreshOn(b', streamId, name', w).Success?
    ensures var again := RefreshOn(b', streamId, name', w).value.0;
            && again.ledger.rows.Keys == b'.ledger.rows.Keys
            && (again == b' <==>
                  name == name' ||
                  !exists id :: Reseeded(b', Plan(b'.schedules, |b'.schedules|, streamId, name, w).value, id))
  {
    hide Day, Plan, WellKeyed, Upserts, Refreshed, Planned, Tombstone, Occupied, Fresh, DistinctSlots, Reseeded;
    RefreshRows(mid, streamId, name, w, b', count);
    PlanSlotsIgnoreName(b'.schedules, |b'.schedules|, streamId, name, name', w);
    var again := RefreshOn(b', streamId, name', w).value;
    RefreshRows(b', streamId, name', w, again.0, again.1);
    var seeds := Plan(b'.schedules, |b'.schedules|, streamId, name, w).value;
    var seeds' := Plan(b'.schedules, |b'.schedules|, streamId, name', w).value;
    forall i | 0 <= i < |seeds'| ensures Occupied(b'.ledger, seeds'[i]) {
      SameSlotOccupied(b'.ledger, seeds[i], seeds'[i], name, name');
    }
    forall id | id in again.0.ledger.rows ensures id in b'.ledger.rows {
      if id !in b'.ledger.rows { NoneIsFresh(b'.ledger, again.0.ledger.rows[id], seeds'); }
    }
    SameRowsSameBooks(b', again.0, streamId, w, seeds');
    if name == name' {
      RefreshIsIdempotent(mid, streamId, name, w, b', count);
    } else {
      forall id | id in b'.ledger.rows
        ensures again.0.ledger.rows[id] == b'.ledger.rows[id] <==> !Reseeded(b', seeds, id)
      {
        RowUnderNewName(mid, b', streamId, w, seeds, seeds', name, name', id);
      }
      NotReseeded(b', seeds);
    }
  }

  lemma NoneIsFresh(l: Ledger, e: Event, seeds: seq<Seed>)
    requires forall i :: 0 <= i < |seeds| ==> Occupied(l, seeds[i])
    ensures !Fresh(l, e, seeds)
  {
    hide Occupied, SeedRow;
  }

  lemma NotReseeded(b: Books, seeds: seq<Seed>)
    ensures forall id :: Reseeded(b, seeds, id) ==> id in b.ledger.rows
  {
    hide Takes;
  }

  lemma SameSlotOccupied(l: Ledger, a: Seed, b: Seed, name: string, name': string)
    requires SameSlot(a, b, name, name') && Occupied(l, a)
    ensures Occupied(l, b)
  {
    var id := OccupantOf(l, a);
    assert Takes(l.rows[id], b);
  }

  /** One row, old or new, refreshed again under another name. */
  lemma RowUnderNewName(mid: Books, b': Books, streamId: nat, w: Window, seeds: seq<Seed>, seeds': seq<Seed>,
                        name: string, name': string, id: nat)
    requires name != name' && |seeds| == |seeds'| && id in b'.ledger.rows
    requires forall i :: 0 <= i < |seeds| ==> SameSlot(seeds[i], seeds'[i], name, name')
    requires DistinctSlots(seeds, streamId) && DistinctSlots(seeds', streamId)
    requires id in mid.ledger.rows ==> b'.ledger.rows[id] == Refreshed(mid.ledger.rows[id], streamId, w, seeds)
    requires id !in mid.ledger.rows ==> Fresh(mid.ledger, b'.ledger.rows[id], seeds)
    ensures Refreshed(b'.ledger.rows[id], streamId, w, seeds') == b'.ledger.rows[id] <==> !Reseeded(b', seeds, id)
  {
    hide Refreshed, DistinctSlots, Takes, SameSlot, Occupied;
    if id in mid.ledger.rows {
      RenamedRow(mid.ledger.rows[id], streamId, w, seeds, seeds', name, name');
    } else {
      hide SeedRow;
      var i :| 0 <= i < |seeds| && b'.ledger.rows[id] == SeedRow(seeds[i]) && !Occupied(mid.ledger, seeds[i]);
      RenamedNewRow(streamId, w, seeds, seeds', name, name', i);
    }
  }

  /** An old row, seeded under one name and then another, is unchanged the
      second time exactly if it is not an open row that a seed fills. */
  lemma RenamedRow(e: Event, streamId: nat, w: Window, seeds: seq<Seed>, seeds': seq<Seed>, name: string, name': string)
    requires name != name' && |seeds| == |seeds'|
    requires forall i :: 0 <= i < |seeds| ==> SameSlot(seeds[i], seeds'[i], name, name')
    requires DistinctSlots(seeds, streamId) && DistinctSlots(seeds', streamId)
    ensures var e' := Refreshed(e, streamId, w, seeds);
            Refreshed(e', streamId, w, seeds') == e' <==>
              !(Open(e') && exists i :: 0 <= i < |seeds| && Takes(e', seeds[i]))
  {
    hide Day, After, Takes, SameSlot;
    var e' := Refreshed(e, streamId, w, seeds);
    if i :| 0 <= i < |seeds| && Takes(e', seeds[i]) {
      TakenRowIsRenamed(e, streamId, w, seeds, seeds', name, name', i);
    } else {
      UntakenRowIsStable(e, streamId, w, seeds, seeds', name, name');
    }
  }

  lemma TakenRowIsRenamed(e: Event, streamId: nat, w: Window, seeds: seq<Seed>, seeds': seq<Seed>,
                          name: string, name': string, i: nat)
    requires name != name' && |seeds| == |seeds'| && i < |seeds| && SameSlot(seeds[i], seeds'[i], name, name')
    requires DistinctSlots(seeds, streamId) && DistinctSlots(seeds', streamId)
    requires Takes(Refreshed(e, streamId, w, seeds), seeds[i])
    ensures var e' := Refreshed(e, streamId, w, seeds); Refreshed(e', streamId, w, seeds') == e' <==> !Open(e')
  {
    hide Day, After;
    var e' := Refreshed(e, streamId, w, seeds);
    AfterKeepsKey(Retire(e, streamId, w), seeds);
    RetireKeepsKey(e, streamId, w);
    RetireKeepsKey(e', streamId, w);
    AfterIsItsSeed(Retire(e, streamId, w), seeds, streamId, i);
    AfterIsItsSeed(Retire(e', streamId, w), seeds', streamId, i);
  }

  lemma UntakenRowIsStable(e: Event, streamId: nat, w: Window, seeds: seq<Seed>, seeds': seq<Seed>,
                           name: string, name': string)
    requires |seeds| == |seeds'| && DistinctSlots(seeds, streamId) && DistinctSlots(seeds', streamId)
    requires forall i :: 0 <= i < |seeds| ==> SameSlot(seeds[i], seeds'[i], name, name')
    requires forall i :: 0 <= i < |seeds| ==> !Takes(Refreshed(e, streamId, w, seeds), seeds[i])
    ensures var e' := Refreshed(e, streamId, w, seeds); Refreshed(e', streamId, w, seeds') == e'
  {
    hide Day, After;
    var e' := Refreshed(e, streamId, w, seeds);
    AfterKeepsKey(Retire(e, streamId, w), seeds);
    AfterKeepsKey(Retire(e', streamId, w), seeds');
  }

  lemma RenamedNewRow(
    streamId: nat, w: Window, seeds: seq<Seed>, seeds': seq<Seed>, name: string, name': string, i: nat)
    requires name != name' && |seeds| == |seeds'| && i < |seeds|
    requires forall i :: 0 <= i < |seeds| ==> SameSlot(seeds[i], seeds'[i], name, name')
    requires DistinctSlots(seeds', streamId)
    ensures Refreshed(SeedRow(seeds[i]), streamId, w, seeds') != SeedRow(seeds[i])
    ensures Takes(SeedRow(seeds[i]), seeds[i]) && Open(SeedRow(seeds[i]))
  {
    hide Day, After;
    AfterIsItsSeed(Retire(SeedRow(seeds[i]), streamId, w), seeds', streamId, i);
  }

  lemma SameRowsSameBooks(b: Books, b': Books, streamId: nat, w: Window, seeds: seq<Seed>)
    requires WellKeyed(b.ledger) && DistinctSlots(seeds, streamId)
    requires b' == b.(ledger := Upserts(Tombstone(b.ledger, streamId, w), seeds))
    requires b'.ledger.rows.Keys == b.ledger.rows.Keys
    requires forall i :: 0 <= i < |seeds| ==> Occupied(b.ledger, seeds[i])
    ensures b' == b <==> forall id :: id in b.ledger.rows ==> b'.ledger.rows[id] == b.ledger.rows[id]
  {
    hide Day, WellKeyed, Upserts, Retire, Occupied;
    forall i | 0 <= i < |seeds| ensures Occupied(Tombstone(b.ledger, streamId, w), seeds[i]) {
      TombstoneOccupies(b.ledger, streamId, w, seeds[i]);
    }
    TombstoneKeepsKeys(b.ledger, streamId, w);
    OccupiedSlotsInsertNothing(Tombstone(b.ledger, streamId, w), seeds, streamId);
    if forall id :: id in b.ledger.rows ==> b'.ledger.rows[id] == b.ledger.rows[id] {
      assert b'.ledger.rows == b.ledger.rows;
    }
  }
}
