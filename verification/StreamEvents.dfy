/** The tables of streams, schedules and events, and every statement that
    changes an event.  A statement `UPDATE .. WHERE` is a map over the rows;
    an aborted transaction is a `Failure`, which changes nothing. */
module StreamEvents {
  import opened Wrappers
  import opened Calendar
  import opened Recurrence
  import opened Text
  import Slots

  datatype Status = Projected | Confirmed | Received

  datatype Reason = ByUser | BySchedule

  datatype SourceType = Manual | StreamSchedule | Provider(name: string)

  datatype Metadata = NoMetadata | ScheduleMetadata(scheduleId: nat, streamName: string) | OtherMetadata(text: string)

  /** A row of `stream_event`.  `title` is the column `label`; `exclusion` is the pair of columns
      (is_excluded, exclusion_reason), which the table keeps in step. */
  datatype Event = Event(
    streamId: nat, accountId: Option<int>, title: Option<string>, expectedDate: IsoDate, amount: nat,
    overrideLabel: Option<string>, hasLabelOverride: bool,
    overrideDate: Option<IsoDate>, overrideAmount: Option<nat>,
    overrideAccount: Option<int>, hasAccountOverride: bool,
    actualDate: Option<IsoDate>, actualAmount: Option<nat>,
    status: Status, exclusion: Option<Reason>,
    sourceType: SourceType, sourceId: string, metadata: Metadata, notes: Option<string>)

  datatype Stream = Stream(name: string, active: bool)

  datatype Schedule = Schedule(
    streamId: nat, accountId: Option<int>, title: Option<string>, amount: nat,
    frequency: Frequency, dayOfMonth: Option<int>,
    startDate: IsoDate, endDate: Option<IsoDate>, active: bool)

  datatype Window = Window(from: IsoDate, through: IsoDate)

  /** The event table with its AUTOINCREMENT counter. */
  datatype Ledger = Ledger(rows: map<nat, Event>, nextId: nat)

  /** Streams and schedules are never deleted: the row with id `i` is entry
      `i - 1`. */
  datatype Books = Books(accounts: set<int>, streams: seq<Stream>, schedules: seq<Schedule>, ledger: Ledger)

  datatype FinanceError = Validation | NotFound | Conflict | Storage(cause: ScheduleError)

  predicate Open(e: Event) { e.status != Received }

  predicate Overridden(e: Event) {
    e.overrideDate.Some? || e.overrideAmount.Some? || e.hasLabelOverride || e.hasAccountOverride
  }

  predicate InWindow(date: IsoDate, w: Window) {
    Day(w.from) <= Day(date) <= Day(w.through)
  }

  predicate IsProjection(e: Event, streamId: nat) {
    e.streamId == streamId && e.sourceType == StreamSchedule
  }

  // ---- refresh ----

  /** The rows a refresh first puts aside: untouched open projections. */
  predicate Obsolete(e: Event, streamId: nat, w: Window) {
    IsProjection(e, streamId) && InWindow(e.expectedDate, w) && Open(e) && !Overridden(e) && e.exclusion != Some(ByUser)
  }

  function Retire(e: Event, streamId: nat, w: Window): Event {
    if Obsolete(e, streamId, w) then e.(exclusion := Some(BySchedule)) else e
  }

  function Tombstone(l: Ledger, streamId: nat, w: Window): Ledger {
    l.(rows := map id | id in l.rows :: Retire(l.rows[id], streamId, w))
  }

  /** The values the upsert of one occurrence carries. */
  datatype Seed = Seed(
    streamId: nat, accountId: Option<int>, title: string, date: IsoDate, amount: nat,
    sourceId: string, scheduleId: nat, streamName: string)

  function SeedOf(scheduleId: nat, s: Schedule, streamName: string, date: IsoDate): Seed {
    Seed(s.streamId, s.accountId,
         if s.title.Some? then s.title.value else streamName + " due",
         date, s.amount,
         Slots.SourceId(scheduleId, Slots.ProjectionSlot(s.frequency, s.startDate, date)),
         scheduleId, streamName)
  }

  function SeedRow(seed: Seed): Event {
    Event(seed.streamId, seed.accountId, Some(seed.title), seed.date, seed.amount,
          None, false, None, None, None, false, None, None, Projected, None,
          StreamSchedule, seed.sourceId, ScheduleMetadata(seed.scheduleId, seed.streamName), None)
  }

  /** The row occupies the slot of the seed: the conflict target of the upsert. */
  predicate Takes(e: Event, seed: Seed) {
    IsProjection(e, seed.streamId) && e.sourceId == seed.sourceId
  }

  function Reseed(e: Event, seed: Seed): Event {
    if Takes(e, seed) && Open(e) then
      e.(accountId := seed.accountId, title := Some(seed.title), expectedDate := seed.date, amount := seed.amount,
         metadata := ScheduleMetadata(seed.scheduleId, seed.streamName),
         exclusion := if e.exclusion == Some(ByUser) then Some(ByUser) else None)
    else e
  }

  function Upsert(l: Ledger, seed: Seed): Ledger {
    if exists id :: id in l.rows && Takes(l.rows[id], seed) then
      l.(rows := map id | id in l.rows :: Reseed(l.rows[id], seed))
    else
      Ledger(l.rows[l.nextId := SeedRow(seed)], l.nextId + 1)
  }

  function Upserts(l: Ledger, seeds: seq<Seed>): Ledger {
    if seeds == [] then l else Upsert(Upserts(l, seeds[..|seeds| - 1]), seeds[|seeds| - 1])
  }

  function Later(a: IsoDate, b: IsoDate): IsoDate { if Day(a) < Day(b) then b else a }

  function Earlier(a: IsoDate, b: IsoDate): IsoDate { if Day(b) < Day(a) then b else a }

  function RangeStart(s: Schedule, w: Window): IsoDate { Later(s.startDate, w.from) }

  function RangeEnd(s: Schedule, w: Window): IsoDate {
    Earlier(if s.endDate.Some? then s.endDate.value else w.through, w.through)
  }

  function RuleOf(s: Schedule): Rule { Rule(s.frequency, s.startDate, s.dayOfMonth) }

  function ScheduleDates(s: Schedule, w: Window): Result<seq<IsoDate>, ScheduleError> {
    Occurrences(RuleOf(s), RangeStart(s, w), RangeEnd(s, w))
  }

  function SeedsOf(scheduleId: nat, s: Schedule, streamName: string, dates: seq<IsoDate>): (seeds: seq<Seed>)
    ensures |seeds| == |dates|
    ensures forall i :: 0 <= i < |dates| ==> seeds[i] == SeedOf(scheduleId, s, streamName, dates[i])
  {
    if dates == [] then []
    else
      SeedsOf(scheduleId, s, streamName, dates[..|dates| - 1])
      + [SeedOf(scheduleId, s, streamName, dates[|dates| - 1])]
  }

  /** The seeds of the first `n` schedules, in id order. */
  function Plan(schedules: seq<Schedule>, n: nat, streamId: nat, streamName: string, w: Window)
    : Result<seq<Seed>, FinanceError>
    requires n <= |schedules|
  {
    if n == 0 then Success([])
    else
      match Plan(schedules, n - 1, streamId, streamName, w)
      case Failure(e) => Failure(e)
      case Success(seeds) =>
        var s := schedules[n - 1];
        if !(s.streamId == streamId && s.active) then Success(seeds)
        else
          match ScheduleDates(s, w)
          case Failure(cause) => Failure(Storage(cause))
          case Success(dates) => Success(seeds + SeedsOf(n, s, streamName, dates))
  }

  function RefreshOn(b: Books, streamId: nat, streamName: string, w: Window): Result<(Books, nat), FinanceError> {
    match Plan(b.schedules, |b.schedules|, streamId, streamName, w)
    case Failure(e) => Failure(e)
    case Success(seeds) =>
      Success((b.(ledger := Upserts(Tombstone(b.ledger, streamId, w), seeds)), |seeds|))
  }

  predicate ActiveStream(b: Books, id: nat) {
    1 <= id <= |b.streams| && b.streams[id - 1].active
  }

  function Refresh(b: Books, streamId: nat, w: Window): Result<(Books, nat), FinanceError> {
    if !ActiveStream(b, streamId) then Failure(NotFound)
    else RefreshOn(b, streamId, b.streams[streamId - 1].name, w)
  }

  // ---- save and delete a stream ----

  datatype ScheduleDraft = ScheduleDraft(
    id: Option<nat>, accountId: Option<int>, title: Option<string>, amount: int,
    frequency: Frequency, dayOfMonth: Option<int>, startDate: IsoDate, endDate: Option<IsoDate>)

  datatype StreamDraft = StreamDraft(
    id: Option<nat>, name: string, defaultAccountId: Option<int>, parentId: Option<nat>,
    schedules: seq<ScheduleDraft>)

  predicate ValidScheduleDraft(s: ScheduleDraft) {
    && 0 <= s.amount
    && (s.frequency == Monthly ==> s.dayOfMonth.Some?)
    && (s.dayOfMonth.Some? ==> 1 <= s.dayOfMonth.value <= 31)
    && (s.endDate.Some? ==> Day(s.startDate) <= Day(s.endDate.value))
  }

  predicate ValidDraft(d: StreamDraft) {
    Trim(d.name) != "" && forall i :: 0 <= i < |d.schedules| ==> ValidScheduleDraft(d.schedules[i])
  }

  predicate AccountsExist(b: Books, d: StreamDraft) {
    && (d.defaultAccountId.Some? ==> d.defaultAccountId.value in b.accounts)
    && (d.parentId.Some? ==> ActiveStream(b, d.parentId.value))
    && forall i :: 0 <= i < |d.schedules| && d.schedules[i].accountId.Some? ==>
         d.schedules[i].accountId.value in b.accounts
  }

  function CleanLabel(title: Option<string>): Option<string> {
    if title.Some? && Trim(title.value) != "" then Some(Trim(title.value)) else None
  }

  function DraftRow(streamId: nat, d: ScheduleDraft): Schedule
    requires 0 <= d.amount
  {
    Schedule(streamId, d.accountId, CleanLabel(d.title), d.amount, d.frequency, d.dayOfMonth,
             d.startDate, d.endDate, true)
  }

  /** Save the first `n` schedule drafts; the ids kept, in order. */
  function SaveSchedules(schedules: seq<Schedule>, streamId: nat, drafts: seq<ScheduleDraft>, n: nat)
    : Result<(seq<Schedule>, seq<nat>), FinanceError>
    requires n <= |drafts| && forall i :: 0 <= i < |drafts| ==> ValidScheduleDraft(drafts[i])
  {
    if n == 0 then Success((schedules, []))
    else
      match SaveSchedules(schedules, streamId, drafts, n - 1)
      case Failure(e) => Failure(e)
      case Success((saved, kept)) =>
        var d := drafts[n - 1];
        var row := DraftRow(streamId, d);
        if d.id.None? then Success((saved + [row], kept + [|saved| + 1]))
        else
          var id := d.id.value;
          if !(1 <= id <= |saved| && saved[id - 1].streamId == streamId) then Failure(NotFound)
          else if id in kept then Failure(Validation)
          else Success((saved[id - 1 := row], kept + [id]))
  }

  function DeactivateOthers(schedules: seq<Schedule>, streamId: nat, kept: seq<nat>): (r: seq<Schedule>)
    ensures |r| == |schedules|
    ensures forall i :: 0 <= i < |schedules| ==>
              r[i] == if schedules[i].streamId == streamId && i + 1 !in kept
                      then schedules[i].(active := false) else schedules[i]
  {
    seq(|schedules|, i requires 0 <= i < |schedules| =>
      if schedules[i].streamId == streamId && i + 1 !in kept then schedules[i].(active := false) else schedules[i])
  }

  /** The stream row the draft names or creates. */
  function SaveStreamRow(streams: seq<Stream>, d: StreamDraft): Result<(seq<Stream>, nat), FinanceError> {
    if d.id.None? then Success((streams + [Stream(Trim(d.name), true)], |streams| + 1))
    else if !(1 <= d.id.value <= |streams| && streams[d.id.value - 1].active) then Failure(NotFound)
    else Success((streams[d.id.value - 1 := Stream(Trim(d.name), true)], d.id.value))
  }

  /** The refresh uses the draft's name as given, while the row keeps it trimmed. */
  function SaveStream(b: Books, d: StreamDraft, w: Window): Result<(Books, nat), FinanceError> {
    if !ValidDraft(d) then Failure(Validation)
    else if !AccountsExist(b, d) then Failure(NotFound)
    else
      match SaveStreamRow(b.streams, d)
      case Failure(e) => Failure(e)
      case Success((streams, streamId)) =>
        match SaveSchedules(b.schedules, streamId, d.schedules, |d.schedules|)
        case Failure(e) => Failure(e)
        case Success((saved, kept)) =>
          var b' := b.(streams := streams, schedules := DeactivateOthers(saved, streamId, kept));
          match RefreshOn(b', streamId, d.name, w)
          case Failure(e) => Failure(e)
          case Success((refreshed, _)) => Success((refreshed, streamId))
  }

  function DropProjection(e: Event, streamId: nat): Event {
    if IsProjection(e, streamId) && Open(e) && e.exclusion == None then e.(exclusion := Some(BySchedule)) else e
  }

  function DeleteStream(b: Books, streamId: nat): Result<(Books, nat), FinanceError> {
    if !ActiveStream(b, streamId) then Failure(NotFound)
    else
      Success((b.(
        streams := b.streams[streamId - 1 := b.streams[streamId - 1].(active := false)],
        schedules := DeactivateOthers(b.schedules, streamId, []),
        ledger := b.ledger.(rows := map id | id in b.ledger.rows :: DropProjection(b.ledger.rows[id], streamId))),
        streamId))
  }

  // ---- single events ----

  datatype EventDraft = EventDraft(
    streamId: nat, accountId: Option<int>, title: string, expectedDate: IsoDate, amount: int,
    status: Status, metadata: Option<string>, notes: Option<string>)

  function ManualSourceId(id: nat): string { "manual:" + Decimal(id) }

  function ManualRow(id: nat, d: EventDraft): Event
    requires 0 <= d.amount
  {
    Event(d.streamId, d.accountId, Some(Trim(d.title)), d.expectedDate, d.amount,
          None, false, None, None, None, false, None, None, d.status, None,
          Manual, ManualSourceId(id),
          if d.metadata.Some? then OtherMetadata(d.metadata.value) else NoMetadata, CleanLabel(d.notes))
  }

  function CreateManualEvent(b: Books, d: EventDraft): Result<(Books, nat), FinanceError> {
    if Trim(d.title) == "" || d.amount <= 0 || d.status == Received then Failure(Validation)
    else if !ActiveStream(b, d.streamId) then Failure(NotFound)
    else if d.accountId.Some? && d.accountId.value !in b.accounts then Failure(NotFound)
    else
      var id := b.ledger.nextId;
      Success((b.(ledger := Ledger(b.ledger.rows[id := ManualRow(id, d)], id + 1)), id))
  }

  datatype Patch<T> = Keep | Clear | Set(value: T)

  datatype EventPatch = EventPatch(
    title: Patch<string>, expectedDate: Patch<IsoDate>, amount: Patch<int>, accountId: Patch<int>, notes: Patch<string>)

  predicate UserOwned(e: Event) { e.sourceType == Manual || e.sourceType == StreamSchedule }

  function PatchedText(p: Patch<string>, kept: Option<string>): Option<string> {
    match p case Keep => kept case Clear => None case Set(v) => Some(Trim(v))
  }

  /** Clearing a label still marks it overridden; clearing an account does not. */
  function Patched(e: Event, p: EventPatch): Event
    requires p.amount.Set? ==> 0 <= p.amount.value
  {
    e.(overrideLabel := PatchedText(p.title, e.overrideLabel),
       hasLabelOverride := if p.title.Keep? then e.hasLabelOverride else true,
       overrideDate := match p.expectedDate case Keep => e.overrideDate case Clear => None case Set(d) => Some(d),
       overrideAmount := match p.amount case Keep => e.overrideAmount case Clear => None case Set(a) => Some(a),
       overrideAccount := match p.accountId case Keep => e.overrideAccount case Clear => None case Set(a) => Some(a),
       hasAccountOverride :=
         match p.accountId case Keep => e.hasAccountOverride case Clear => false case Set(_) => true,
       notes := PatchedText(p.notes, e.notes))
  }

  /** Why a statement found no row to change. */
  function Rejected(b: Books, id: nat): FinanceError {
    if id in b.ledger.rows then Conflict else NotFound
  }

  function Replace(b: Books, id: nat, e: Event): Books {
    b.(ledger := b.ledger.(rows := b.ledger.rows[id := e]))
  }

  predicate Editable(b: Books, id: nat) {
    id in b.ledger.rows && Open(b.ledger.rows[id]) && UserOwned(b.ledger.rows[id])
  }

  function PatchEvent(b: Books, id: nat, p: EventPatch): Result<(Books, nat), FinanceError> {
    if p.amount.Set? && p.amount.value <= 0 then Failure(Validation)
    else if p.title.Set? && Trim(p.title.value) == "" then Failure(Validation)
    else if p.accountId.Set? && p.accountId.value !in b.accounts then Failure(NotFound)
    else if !Editable(b, id) then Failure(Rejected(b, id))
    else Success((Replace(b, id, Patched(b.ledger.rows[id], p)), id))
  }

  function RemoveEvent(b: Books, id: nat): Result<(Books, nat), FinanceError> {
    if !Editable(b, id) then Failure(Rejected(b, id))
    else if b.ledger.rows[id].sourceType == Manual then
      Success((b.(ledger := b.ledger.(rows := b.ledger.rows - {id})), id))
    else
      Success((Replace(b, id, b.ledger.rows[id].(exclusion := Some(ByUser))), id))
  }

  function RestoreEvent(b: Books, id: nat): Result<(Books, nat), FinanceError> {
    if Editable(b, id) && b.ledger.rows[id].sourceType == StreamSchedule
       && b.ledger.rows[id].exclusion == Some(ByUser) then
      Success((Replace(b, id, b.ledger.rows[id].(exclusion := None)), id))
    else Failure(Rejected(b, id))
  }

  function ReconcileEvent(b: Books, id: nat, date: IsoDate, amount: int): Result<(Books, nat), FinanceError> {
    if amount <= 0 then Failure(Validation)
    else if Editable(b, id) && b.ledger.rows[id].exclusion == None then
      Success((Replace(b, id, b.ledger.rows[id].(actualDate := Some(date), actualAmount := Some(amount),
                                                 status := Received)), id))
    else Failure(Rejected(b, id))
  }
}
