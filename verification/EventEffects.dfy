/** What the commands on streams and events mean to a user. */
module EventEffects {
  import opened Wrappers
  import opened Calendar
  import opened Text
  import opened StreamEvents
  import opened RefreshSpec
  import opened EventLifecycle

  // ---- what a user sees of an event ----

  function ShownLabel(e: Event): Option<string> { if e.hasLabelOverride then e.overrideLabel else e.title }

  function ShownAccount(e: Event): Option<int> { if e.hasAccountOverride then e.overrideAccount else e.accountId }

  /** The date and amount expected: the user's, or else the seed's. */
  function ExpectedDate(e: Event): IsoDate { if e.overrideDate.Some? then e.overrideDate.value else e.expectedDate }

  function ExpectedAmount(e: Event): nat { if e.overrideAmount.Some? then e.overrideAmount.value else e.amount }

  function ShownDate(e: Event): IsoDate { if e.actualDate.Some? then e.actualDate.value else ExpectedDate(e) }

  function ShownAmount(e: Event): nat { if e.actualAmount.Some? then e.actualAmount.value else ExpectedAmount(e) }

  /** Apart from the row `id`, nothing in the books differs. */
  ghost predicate OnlyRow(b: Books, b': Books, id: nat) {
    && b'.(ledger := b.ledger) == b && b'.ledger.nextId == b.ledger.nextId
    && b'.ledger.rows.Keys == b.ledger.rows.Keys && id in b.ledger.rows
    && forall other :: other in b.ledger.rows && other != id ==> b'.ledger.rows[other] == b.ledger.rows[other]
  }

  /** Apart from the columns a patch may write, nothing in the row differs. */
  predicate OnlyOverrides(e: Event, e': Event) {
    && SameKey(e, e') && e'.accountId == e.accountId && e'.title == e.title && e'.expectedDate == e.expectedDate
    && e'.amount == e.amount && e'.actualDate == e.actualDate && e'.actualAmount == e.actualAmount
    && e'.status == e.status && e'.exclusion == e.exclusion && e'.metadata == e.metadata
  }

  // ---- patches ----

  /** A patch changes what is shown of exactly the columns it names: a value set
      is shown, and a date, an amount or an account cleared shows the seed's
      again.  A label cleared is shown as none. */
  lemma PatchShowsItsValues(b: Books, id: nat, p: EventPatch, b': Books, n: nat)
    requires PatchEvent(b, id, p) == Success((b', n))
    ensures n == id && OnlyRow(b, b', id)
    ensures var e, e' := b.ledger.rows[id], b'.ledger.rows[id];
            && OnlyOverrides(e, e')
            && ExpectedDate(e') == (match p.expectedDate
                                    case Keep => ExpectedDate(e) case Clear => e.expectedDate case Set(date) => date)
            && ExpectedAmount(e') == (match p.amount
                                      case Keep => ExpectedAmount(e) case Clear => e.amount case Set(amount) => amount)
            && ShownAccount(e') == (match p.accountId
                                    case Keep => ShownAccount(e) case Clear => e.accountId case Set(a) => Some(a))
            && ShownLabel(e') == (match p.title
                                  case Keep => ShownLabel(e) case Clear => None case Set(text) => Some(Trim(text)))
            && e'.notes == (match p.notes case Keep => e.notes case Clear => None case Set(text) => Some(Trim(text)))
  {
    hide Trim;
  }

  /** The patch that clears what `p` touches. */
  function Cleared<T>(p: Patch<T>): Patch<T> { if p.Keep? then Keep else Clear }

  function ClearOf(p: EventPatch): EventPatch {
    EventPatch(Cleared(p.title), Cleared(p.expectedDate), Cleared(p.amount), Cleared(p.accountId), Cleared(p.notes))
  }

  /** Nothing that the patch touches was overridden before; a label, once
      touched, counts as overridden for good. */
  predicate Untouched(e: Event, p: EventPatch) {
    && (p.title.Keep? || (e.hasLabelOverride && e.overrideLabel.None?))
    && (p.expectedDate.Keep? || e.overrideDate.None?)
    && (p.amount.Keep? || e.overrideAmount.None?)
    && (p.accountId.Keep? || !e.hasAccountOverride)
    && (p.notes.Keep? || e.notes.None?)
  }

  /** Clearing undoes a patch exactly if nothing it touched was overridden. */
  lemma ClearUndoesPatch(b: Books, id: nat, p: EventPatch, b': Books, n: nat)
    requires Sound(b) && PatchEvent(b, id, p) == Success((b', n))
    ensures PatchEvent(b', id, ClearOf(p)).Success?
    ensures PatchEvent(b', id, ClearOf(p)).value.0 == b <==> Untouched(b.ledger.rows[id], p)
  {
    hide Trim, WellKeyed;
    var e := b.ledger.rows[id];
    assert RowIsSound(id, e);
    var e'' := Patched(Patched(e, p), ClearOf(p));
    assert PatchEvent(b', id, ClearOf(p)).value.0 == Replace(b', id, e'');
    assert b'.ledger.rows[id := e''] == b.ledger.rows[id := e''];
    assert Untouched(e, p) <==> e'' == e;
    if e'' == e { assert b.ledger.rows[id := e] == b.ledger.rows; }
    if b.ledger.rows[id := e''] == b.ledger.rows { assert b.ledger.rows[id := e''][id] == e; }
  }

  /** A cleared label shows the seed's exactly if the seed has none.  Rows of
      schedules and of manual entry always have one. */
  lemma ClearedLabelShowsSeedIff(b: Books, id: nat, p: EventPatch, b': Books, n: nat)
    requires PatchEvent(b, id, p) == Success((b', n)) && p.title.Clear?
    ensures ShownLabel(b'.ledger.rows[id]) == b.ledger.rows[id].title <==> b.ledger.rows[id].title.None?
  {
    hide Trim;
  }

  const CLEAR_LABEL := EventPatch(Clear, Keep, Keep, Keep, Keep)

  /** So for a manual event: created as "rent", its label cleared, it shows no
      label, and not "rent" again. */
  lemma ClearedLabelIsLost(date: IsoDate)
    ensures var b := Books({}, [Stream("home", true)], [], Ledger(map[], 1));
            var rent := EventDraft(1, None, "rent", date, 5, Projected, None, None);
            var commands := [CreateCmd(rent), PatchCmd(1, CLEAR_LABEL)];
            var rows := Run(b, commands).ledger.rows;
            1 in rows && rows[1].title == Some("rent") && ShownLabel(rows[1]) == None
  {
    TrimmedIsFixed("rent");
    hide Trim;
    var b := Books({}, [Stream("home", true)], [], Ledger(map[], 1));
    var draft := EventDraft(1, None, "rent", date, 5, Projected, None, None);
    RunTwo(b, CreateCmd(draft), PatchCmd(1, CLEAR_LABEL));
    var created := b.(ledger := Ledger(map[1 := ManualRow(1, draft)], 2));
    assert Step(b, CreateCmd(draft)) == created;
    assert PatchEvent(created, 1, CLEAR_LABEL).Success?;
  }

  // ---- manual events ----

  /** A new manual event takes an id and a source id that no row has, shows what
      was entered, and leaves every other row alone. */
  lemma CreatedEventIsNew(b: Books, d: EventDraft, b': Books, id: nat)
    requires Sound(b) && CreateManualEvent(b, d) == Success((b', id))
    ensures id !in b.ledger.rows && b'.ledger.rows.Keys == b.ledger.rows.Keys + {id} && b'.(ledger := b.ledger) == b
    ensures forall other :: other in b.ledger.rows ==>
              b'.ledger.rows[other] == b.ledger.rows[other]
              && !(b.ledger.rows[other].sourceType == Manual
                   && b.ledger.rows[other].sourceId == b'.ledger.rows[id].sourceId)
    ensures var e := b'.ledger.rows[id];
            && Open(e) && e.exclusion == None && e.streamId == d.streamId && e.sourceType == Manual
            && ShownLabel(e) == Some(Trim(d.title)) && ShownDate(e) == d.expectedDate && ShownAmount(e) == d.amount
            && ShownAccount(e) == d.accountId
            && e.status == d.status && !Overridden(e) && e.actualDate == None && e.actualAmount == None
            && e.notes == (if d.notes.Some? && Trim(d.notes.value) != "" then Some(Trim(d.notes.value)) else None)
            && e.metadata == (if d.metadata.Some? then OtherMetadata(d.metadata.value) else NoMetadata)
            && e.sourceId == "manual:" + Decimal(id)
  {
    hide Trim;
    forall other | other in b.ledger.rows && b.ledger.rows[other].sourceType == Manual
      ensures b.ledger.rows[other].sourceId != b'.ledger.rows[id].sourceId
    {
      assert RowIsSound(other, b.ledger.rows[other]);
      ManualIdsDiffer(id, other, b.ledger.rows[other]);
    }
  }

  /** Creating and removing leaves the table as it was, with the id used up. */
  lemma CreateThenRemove(b: Books, d: EventDraft, b': Books, id: nat)
    requires Sound(b) && CreateManualEvent(b, d) == Success((b', id))
    ensures RemoveEvent(b', id) == Success((b.(ledger := Ledger(b.ledger.rows, id + 1)), id))
  {
    hide Trim;
    assert b'.ledger.rows - {id} == b.ledger.rows;
  }

  // ---- reconciliation ----

  /** A reconciled event shows what happened, keeps what was expected, and no
      sequence of commands changes it again. */
  lemma ReconciledShowsActuals(b: Books, id: nat, date: IsoDate, amount: int, b': Books, n: nat, later: seq<Command>)
    requires Sound(b) && ReconcileEvent(b, id, date, amount) == Success((b', n))
    ensures n == id && OnlyRow(b, b', id)
    ensures var e, e' := b.ledger.rows[id], b'.ledger.rows[id];
            && ShownDate(e') == date && ShownAmount(e') == amount && e'.status == Received && e.status != Received
            && ExpectedDate(e') == ExpectedDate(e) && ExpectedAmount(e') == ExpectedAmount(e)
            && ShownLabel(e') == ShownLabel(e) && ShownAccount(e') == ShownAccount(e)
            && e'.(actualDate := e.actualDate, actualAmount := e.actualAmount, status := e.status) == e
    ensures id in Run(b', later).ledger.rows && Run(b', later).ledger.rows[id] == b'.ledger.rows[id]
  {
    hide Run;
    StepIsGood(b, ReconcileCmd(id, date, amount));
    assert Step(b, ReconcileCmd(id, date, amount)) == b';
    ReceivedIsFinal(b', later, id);
  }

  /** Every further command on a received event is refused; a patch that another
      row could take, as a conflict. */
  lemma ReceivedRefusesCommands(b: Books, id: nat, date: IsoDate, amount: int)
    requires id in b.ledger.rows && b.ledger.rows[id].status == Received
    ensures RemoveEvent(b, id) == Failure(Conflict) && RestoreEvent(b, id) == Failure(Conflict)
    ensures amount > 0 ==> ReconcileEvent(b, id, date, amount) == Failure(Conflict)
    ensures forall p :: PatchEvent(b, id, p).Failure?
    ensures forall p, other :: PatchEvent(b, other, p).Success? ==> PatchEvent(b, id, p) == Failure(Conflict)
  {
    assert !Editable(b, id);
  }

  // ---- deleted streams ----

  predicate Gone(b: Books, streamId: nat) { 1 <= streamId <= |b.streams| && !b.streams[streamId - 1].active }

  /** An open projection of the stream is hidden, by the user or a schedule. */
  predicate IsHidden(e: Event, streamId: nat) { IsProjection(e, streamId) && Open(e) ==> e.exclusion.Some? }

  /** Deleting a stream hides its open projections, whatever overrides they
      have, and changes no other row; then nothing is live for it in any window,
      and neither a refresh, a save, a new event nor a second deletion is let
      in. */
  lemma DeletedStreamIsHidden(b: Books, streamId: nat, b': Books, n: nat)
    requires DeleteStream(b, streamId) == Success((b', n))
    ensures Gone(b', streamId) && b'.ledger.rows.Keys == b.ledger.rows.Keys && b'.ledger.nextId == b.ledger.nextId
    ensures forall id :: id in b.ledger.rows ==>
              && IsHidden(b'.ledger.rows[id], streamId)
              && b'.ledger.rows[id].(exclusion := b.ledger.rows[id].exclusion) == b.ledger.rows[id]
              && (IsHidden(b.ledger.rows[id], streamId) ==> b'.ledger.rows[id] == b.ledger.rows[id])
              && (!IsHidden(b.ledger.rows[id], streamId) ==> b'.ledger.rows[id].exclusion == Some(BySchedule))
    ensures forall id, w :: id in b'.ledger.rows ==> !Live(b'.ledger.rows[id], streamId, w)
    ensures forall w :: Refresh(b', streamId, w) == Failure(NotFound)
    ensures forall d: StreamDraft, w :: d.id == Some(streamId) ==> SaveStream(b', d, w).Failure?
    ensures forall d: EventDraft :: d.streamId == streamId ==> CreateManualEvent(b', d).Failure?
    ensures DeleteStream(b', streamId) == Failure(NotFound)
  {
    DeletedRows(b, streamId, b', n);
    GoneRefusesCommands(b', streamId);
    hide DeleteStream, Day, RefreshOn, SaveStream, CreateManualEvent;
  }

  lemma GoneRefusesCommands(b: Books, streamId: nat)
    requires Gone(b, streamId)
    ensures forall w :: Refresh(b, streamId, w) == Failure(NotFound)
    ensures forall d: StreamDraft, w :: d.id == Some(streamId) ==> SaveStream(b, d, w).Failure?
    ensures forall d: EventDraft :: d.streamId == streamId ==> CreateManualEvent(b, d).Failure?
    ensures DeleteStream(b, streamId) == Failure(NotFound)
  {
    hide Day, RefreshOn, Trim, ValidDraft, AccountsExist, SaveSchedules, DeactivateOthers;
  }

  lemma DeletedRows(b: Books, streamId: nat, b': Books, n: nat)
    requires DeleteStream(b, streamId) == Success((b', n))
    ensures Gone(b', streamId) && b'.ledger.rows.Keys == b.ledger.rows.Keys && b'.ledger.nextId == b.ledger.nextId
    ensures forall id :: id in b.ledger.rows ==> b'.ledger.rows[id] == DropProjection(b.ledger.rows[id], streamId)
  {
    hide DeactivateOthers, Day, DropProjection;
  }

  /** A stream that is gone stays gone, takes no new projection, and none of its
      open ones is shown but those a user restores. */
  ghost predicate StaysHidden(b: Books, b': Books, streamId: nat, c: Command) {
    && Gone(b', streamId)
    && forall id :: id in b'.ledger.rows && IsProjection(b'.ledger.rows[id], streamId) ==>
         && id in b.ledger.rows && IsProjection(b.ledger.rows[id], streamId)
         && (IsHidden(b.ledger.rows[id], streamId) && c != RestoreCmd(id) ==> IsHidden(b'.ledger.rows[id], streamId))
  }

  lemma NothingHappens(b: Books, streamId: nat, c: Command)
    requires Gone(b, streamId)
    ensures StaysHidden(b, b, streamId, c)
  {
  }

  lemma RefreshElsewhere(b: Books, mid: Books, other: nat, name: string, w: Window, streamId: nat, c: Command)
    requires Sound(b) && Gone(mid, streamId) && mid.ledger == b.ledger && other != streamId
    requires RefreshOn(mid, other, name, w).Success?
    ensures StaysHidden(b, RefreshOn(mid, other, name, w).value.0, streamId, c)
  {
    hide Day, Plan;
    var (b', count) := RefreshOn(mid, other, name, w).value;
    RefreshRespectsRows(mid, other, name, w, b', count);
    hide RefreshOn, WellKeyed, RowIsSound;
    forall id | id in b'.ledger.rows && IsProjection(b'.ledger.rows[id], streamId)
      ensures id in b.ledger.rows && b'.ledger.rows[id] == b.ledger.rows[id]
    {
      if id in mid.ledger.rows { assert Respected(mid.ledger.rows[id], b'.ledger.rows[id], other); }
    }
  }

  lemma SaveElsewhere(b: Books, d: StreamDraft, w: Window, streamId: nat)
    requires Sound(b) && Gone(b, streamId) && SaveStream(b, d, w).Success?
    ensures StaysHidden(b, SaveStream(b, d, w).value.0, streamId, SaveStreamCmd(d, w))
  {
    hide Day, RefreshOn, Trim, Plan, Sound, SaveSchedules, DeactivateOthers;
    var (streams, other) := SaveStreamRow(b.streams, d).value;
    var (saved, kept) := SaveSchedules(b.schedules, other, d.schedules, |d.schedules|).value;
    var mid := b.(streams := streams, schedules := DeactivateOthers(saved, other, kept));
    RefreshElsewhere(b, mid, other, d.name, w, streamId, SaveStreamCmd(d, w));
  }

  lemma StepStaysHidden(b: Books, streamId: nat, c: Command)
    requires Sound(b) && Gone(b, streamId)
    ensures StaysHidden(b, Step(b, c), streamId, c)
  {
    hide Day, RefreshOn, Trim, Sound, SaveStream, DeactivateOthers, StaysHidden;
    NothingHappens(b, streamId, c);
    match Execute(b, c)
    case Failure(_) =>
    case Success((b', n)) =>
      match c
      case SaveStreamCmd(draft, window) => SaveElsewhere(b, draft, window, streamId);
      case RefreshCmd(other, window) =>
        RefreshElsewhere(b, b, other, b.streams[other - 1].name, window, streamId, c);
      case _ => RowStepStaysHidden(b, streamId, c, b', n);
  }

  lemma RowStepStaysHidden(b: Books, streamId: nat, c: Command, b': Books, n: nat)
    requires Gone(b, streamId) && !c.SaveStreamCmd? && !c.RefreshCmd? && Execute(b, c) == Success((b', n))
    ensures StaysHidden(b, b', streamId, c)
  {
    hide Day, Trim, DeleteStream, PatchEvent, RemoveEvent, RestoreEvent, ReconcileEvent, StaysHidden;
    match c
    case DeleteStreamCmd(other) =>
      DeletedRows(b, other, b', n);
      DeleteStaysHidden(b, streamId, other, b', n);
    case CreateCmd(event) => CreateStaysHidden(b, streamId, event, b', n);
    case PatchCmd(id, patch) => OneRowStaysHidden(b, streamId, c, b', n, id);
    case RemoveCmd(id) => OneRowStaysHidden(b, streamId, c, b', n, id);
    case RestoreCmd(id) => OneRowStaysHidden(b, streamId, c, b', n, id);
    case ReconcileCmd(id, date, amount) => OneRowStaysHidden(b, streamId, c, b', n, id);
  }

  lemma DeleteStaysHidden(b: Books, streamId: nat, other: nat, b': Books, n: nat)
    requires Gone(b, streamId) && DeleteStream(b, other) == Success((b', n))
    ensures StaysHidden(b, b', streamId, DeleteStreamCmd(other))
  {
    DeletedRows(b, other, b', n);
    assert Gone(b', streamId) by { hide DeactivateOthers, Day; }
    hide DeleteStream, Gone;
  }

  lemma CreateStaysHidden(b: Books, streamId: nat, d: EventDraft, b': Books, id: nat)
    requires Gone(b, streamId) && CreateManualEvent(b, d) == Success((b', id))
    ensures StaysHidden(b, b', streamId, CreateCmd(d))
  {
    hide Trim;
  }

  lemma OneRowStaysHidden(b: Books, streamId: nat, c: Command, b': Books, n: nat, id: nat)
    requires Gone(b, streamId) && Execute(b, c) == Success((b', n))
    requires c.PatchCmd? || c.RemoveCmd? || c.RestoreCmd? || c.ReconcileCmd?
    requires id == (match c case PatchCmd(i, _) => i case RemoveCmd(i) => i case RestoreCmd(i) => i
                            case ReconcileCmd(i, _, _) => i)
    ensures StaysHidden(b, b', streamId, c)
  {
    hide Trim;
    assert b'.streams == b.streams;
    hide Gone;
    forall other | other in b'.ledger.rows && other != id
      ensures other in b.ledger.rows && b'.ledger.rows[other] == b.ledger.rows[other]
    {}
  }

  /** Over all runs: once a stream is deleted, it is never active again, and
      none of its open projections is shown unless a user restores that one. */
  lemma {:induction false} DeletedStreamStaysHidden(b: Books, streamId: nat, commands: seq<Command>)
    requires Sound(b) && Gone(b, streamId)
    requires forall id :: id in b.ledger.rows ==> IsHidden(b.ledger.rows[id], streamId)
    ensures Gone(Run(b, commands), streamId)
    ensures forall id ::
              id in Run(b, commands).ledger.rows && IsProjection(Run(b, commands).ledger.rows[id], streamId) ==>
                id in b.ledger.rows && IsProjection(b.ledger.rows[id], streamId)
    ensures forall id :: id in Run(b, commands).ledger.rows && RestoreCmd(id) !in commands ==>
              IsHidden(Run(b, commands).ledger.rows[id], streamId)
  {
    hide Step, Sound, Gone;
    if commands != [] {
      var init, c := commands[..|commands| - 1], commands[|commands| - 1];
      DeletedStreamStaysHidden(b, streamId, init);
      RunIsSound(b, init);
      var before, after := Run(b, init), Run(b, commands);
      StepStaysHidden(before, streamId, c);
      forall id | id in after.ledger.rows && RestoreCmd(id) !in commands
        ensures IsHidden(after.ledger.rows[id], streamId)
      {
        assert commands[|commands| - 1] != RestoreCmd(id);
        assert RestoreCmd(id) !in init;
      }
    }
  }
}
