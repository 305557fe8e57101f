/** The tables of the TMO import, and the statements that replace a snapshot.
    A table with a unique key is a map from that key; the row carries its id.
    Deleting an event or a payment deletes its links. */
module TmoTables {
  import opened Wrappers
  import opened Text
  import opened DateText

  // ---- rows ----

  datatype SourceType = TmoHistory | LegacySchedule | OtherSource(name: string)

  datatype Status = Projected | Confirmed | Received

  /** A number of the provider, in hundredths. */
  datatype Number = Finite(hundredths: int) | NotFinite

  /** What the provider reports of one payment. */
  datatype Payment = Payment(
    loanAccount: string, borrowerName: string, propertyName: string, checkNumber: string, checkDate: string,
    amount: Number, parts: seq<Number>)

  datatype PaymentKey = PaymentKey(connection: int, externalId: string)

  datatype PaymentRow = PaymentRow(id: int, payment: Payment, checkNumber: Option<string>, stale: bool)

  datatype EventKey = EventKey(stream: int, source: SourceType, sourceId: string)

  /** The columns a sync writes. */
  datatype Imported = Imported(title: string, date: string, amount: nat, actual: Option<(string, nat)>, status: Status)

  /** `kept` stands for the columns no sync writes: overrides, exclusion, notes. */
  datatype EventRow = EventRow(id: int, imported: Imported, kept: string)

  datatype LoanKey = LoanKey(connection: int, account: string)

  datatype Columns = FromSummary(text: string) | FromDetail(text: string)

  datatype LoanRow = LoanRow(
    id: int, stream: Option<int>, columns: Columns, summary: string, detail: Option<string>, active: bool)

  datatype Tables = Tables(
    payments: map<PaymentKey, PaymentRow>, nextPayment: int,
    events: map<EventKey, EventRow>, nextEvent: int,
    links: map<int, int>,
    loans: map<LoanKey, LoanRow>, nextLoan: int)

  // ---- identities and dates ----

  function BeforeT(s: string): string {
    if s == "" || s[0] == 'T' then "" else [s[0]] + BeforeT(s[1..])
  }

  /** The date part of a provider's date or date-time. */
  function RequiredDate(raw: string): Option<string> {
    var s := Trim(BeforeT(raw));
    if ParseDate(s).Some? then Some(s) else None
  }

  function Cents(n: int): string { if n < 0 then "-" + Decimal(-n) else Decimal(n) }

  const MIN_CENTS := -9223372036854775808
  const MAX_CENTS := 9223372036854775808 // the limit as a floating-point number

  /** The amount has cents that can be written. */
  predicate HasCents(amount: Number) { amount.Finite? && MIN_CENTS <= amount.hundredths <= MAX_CENTS }

  /** The conversion to 64 bits takes the limit to the greatest integer below. */
  function CentsOf(amount: Number): int {
    if amount == NotFinite then 0
    else if amount.hundredths == MAX_CENTS then MAX_CENTS - 1 else amount.hundredths
  }

  function ExternalId(loanAccount: string, date: string, cents: int): string {
    "history:" + loanAccount + ":" + date + ":" + Cents(cents)
  }

  predicate Dated(p: Payment) { RequiredDate(p.checkDate).Some? }

  function CheckDate(p: Payment): string
    requires Dated(p)
  {
    RequiredDate(p.checkDate).value
  }

  function IdOf(p: Payment): string
    requires Dated(p)
  {
    ExternalId(p.loanAccount, CheckDate(p), CentsOf(p.amount))
  }

  function Lower(c: char): char { if 'A' <= c <= 'Z' then (c as int + 32) as char else c }

  function LowerAll(s: string): string { seq(|s|, i requires 0 <= i < |s| => Lower(s[i])) }

  predicate Contains(s: string, word: string) {
    |s| >= |word| && (s[..|word|] == word || (s != "" && Contains(s[1..], word)))
  }

  /** A payment still to be printed has no check number. */
  function NormalizeCheckNumber(raw: string): Option<string> {
    var s := Trim(raw);
    if s == "" || Contains(LowerAll(s), "print") then None else Some(s)
  }

  function Abs(n: Number): nat {
    if n == NotFinite then 0 else if n.hundredths < 0 then -n.hundredths else n.hundredths
  }

  // ---- the snapshot of payments ----

  function MarkStale(t: Tables, connection: int): Tables {
    t.(payments := map k | k in t.payments ::
      if k.connection == connection then t.payments[k].(stale := true) else t.payments[k])
  }

  function ImportedOf(p: Payment): Imported
    requires Dated(p)
  {
    var received := NormalizeCheckNumber(p.checkNumber).Some?;
    Imported(p.borrowerName + " - " + p.propertyName, CheckDate(p), Abs(p.amount),
             if received then Some((CheckDate(p), Abs(p.amount))) else None,
             if received then Received else Confirmed)
  }

  /** One captured payment: its row, its event, and the link between them, each
      inserted or updated under its unique key. */
  function UpsertPayment(t: Tables, connection: int, stream: int, p: Payment): Tables
    requires Dated(p)
  {
    var pk, ek := PaymentKey(connection, IdOf(p)), EventKey(stream, TmoHistory, IdOf(p));
    var paymentId := if pk in t.payments then t.payments[pk].id else t.nextPayment;
    var eventId := if ek in t.events then t.events[ek].id else t.nextEvent;
    t.(payments := t.payments[pk := PaymentRow(paymentId, p, NormalizeCheckNumber(p.checkNumber), false)],
       nextPayment := if pk in t.payments then t.nextPayment else t.nextPayment + 1,
       events := t.events[ek := EventRow(eventId, ImportedOf(p), if ek in t.events then t.events[ek].kept else "")],
       nextEvent := if ek in t.events then t.nextEvent else t.nextEvent + 1,
       links := t.links[paymentId := eventId])
  }

  predicate AllDated(payments: seq<Payment>) { forall i :: 0 <= i < |payments| ==> Dated(payments[i]) }

  function UpsertPayments(t: Tables, connection: int, stream: int, payments: seq<Payment>): Tables
    requires AllDated(payments)
  {
    if payments == [] then t
    else
      UpsertPayment(UpsertPayments(t, connection, stream, payments[..|payments| - 1]), connection, stream,
                    payments[|payments| - 1])
  }

  function DeleteEvents(t: Tables, doomed: set<EventKey>): Tables {
    var ids := set e | e in doomed && e in t.events :: t.events[e].id;
    t.(events := t.events - doomed, links := map p | p in t.links && t.links[p] !in ids :: t.links[p])
  }

  function DeletePayments(t: Tables, doomed: set<PaymentKey>): Tables {
    var ids := set k | k in doomed && k in t.payments :: t.payments[k].id;
    t.(payments := t.payments - doomed, links := t.links - ids)
  }

  predicate Linked(t: Tables, k: PaymentKey, e: EventKey) {
    k in t.payments && e in t.events && t.payments[k].id in t.links && t.links[t.payments[k].id] == t.events[e].id
  }

  function StalePayments(t: Tables, connection: int): set<PaymentKey> {
    set k | k in t.payments && k.connection == connection && t.payments[k].stale
  }

  /** Events linked to a payment the snapshot no longer has. */
  function EventsOfStale(t: Tables, connection: int): set<EventKey> {
    set e | e in t.events && exists k :: k in StalePayments(t, connection) && Linked(t, k, e)
  }

  /** History events of the stream that no payment of the connection is linked to. */
  function Orphans(t: Tables, connection: int, stream: int): set<EventKey> {
    set e | e in t.events && e.stream == stream && e.source == TmoHistory
            && !(exists k :: k in t.payments && k.connection == connection && Linked(t, k, e))
  }

  function LegacyProjections(t: Tables): set<EventKey> {
    set e | e in t.events && e.source == LegacySchedule && t.events[e].imported.status == Projected
  }

  function Sweep(t: Tables, connection: int, stream: int): Tables {
    var t1 := DeleteEvents(t, EventsOfStale(t, connection));
    var t2 := DeletePayments(t1, StalePayments(t1, connection));
    var t3 := DeleteEvents(t2, Orphans(t2, connection, stream));
    DeleteEvents(t3, LegacyProjections(t3))
  }

  function ReplacePayments(t: Tables, connection: int, stream: int, payments: seq<Payment>): Tables
    requires AllDated(payments)
  {
    Sweep(UpsertPayments(MarkStale(t, connection), connection, stream, payments), connection, stream)
  }

  // ---- the snapshot of loans ----

  /** The dates of a loan, as the provider writes them. */
  datatype LoanDates = LoanDates(maturity: string, nextPayment: string, interestPaidTo: string)

  datatype Loan = Loan(
    account: string, summary: string, numbers: seq<Number>, dates: LoanDates, billedThrough: Option<string>)

  /** `optional` holds the numbers that may be missing. */
  datatype Detail = Detail(
    account: string, text: string, numbers: seq<Number>, optional: seq<Option<Number>>, dates: LoanDates)

  predicate DatesValid(d: LoanDates) {
    RequiredDate(d.maturity).Some? && RequiredDate(d.nextPayment).Some? && RequiredDate(d.interestPaidTo).Some?
  }

  /** A blank optional date is no date. */
  predicate LoanDated(loan: Loan) {
    && DatesValid(loan.dates)
    && (loan.billedThrough.Some? && Trim(loan.billedThrough.value) != "" ==>
          RequiredDate(Trim(loan.billedThrough.value)).Some?)
  }

  function Deactivate(t: Tables, connection: int): Tables {
    t.(loans := map k | k in t.loans :: if k.connection == connection then t.loans[k].(active := false) else t.loans[k])
  }

  /** A loan keeps the stream it was first given. */
  function UpsertLoan(t: Tables, connection: int, stream: int, loan: Loan): Tables {
    var k := LoanKey(connection, loan.account);
    if k in t.loans then
      t.(loans := t.loans[k := t.loans[k].(
        stream := if t.loans[k].stream.Some? then t.loans[k].stream else Some(stream),
        columns := FromSummary(loan.summary), summary := loan.summary, active := true)])
    else
      t.(loans := t.loans[k := LoanRow(t.nextLoan, Some(stream), FromSummary(loan.summary), loan.summary, None, true)],
         nextLoan := t.nextLoan + 1)
  }

  function UpsertLoans(t: Tables, connection: int, stream: int, loans: seq<Loan>): Tables {
    if loans == [] then t
    else UpsertLoan(UpsertLoans(t, connection, stream, loans[..|loans| - 1]), connection, stream, loans[|loans| - 1])
  }

  /** An update of no row is an error. */
  function ApplyDetail(t: Tables, connection: int, detail: Detail): Option<Tables> {
    var k := LoanKey(connection, detail.account);
    if k !in t.loans then None
    else Some(t.(loans := t.loans[k := t.loans[k].(columns := FromDetail(detail.text), detail := Some(detail.text))]))
  }

  function ApplyDetails(t: Tables, connection: int, details: seq<Detail>): Option<Tables> {
    if details == [] then Some(t)
    else
      match ApplyDetails(t, connection, details[..|details| - 1])
      case None => None
      case Some(t') => ApplyDetail(t', connection, details[|details| - 1])
  }

  // ---- a whole capture ----

  datatype User = User(companyId: string, account: string, sourceRecId: string, name: string, email: string)

  datatype Overview = Overview(portfolioCount: int, numbers: seq<Number>)

  datatype Capture = Capture(
    connection: int, capturedAt: string, companyId: string, account: string, snapshotDate: string, user: User,
    overview: Overview, loans: seq<Loan>, details: seq<Detail>, detailFailures: int, payments: seq<Payment>)

  datatype SyncError = Validation | Storage | Configuration

  predicate AllFinite(numbers: seq<Number>) { forall i :: 0 <= i < |numbers| ==> numbers[i].Finite? }

  predicate NoneInfinite(numbers: seq<Option<Number>>) {
    forall i :: 0 <= i < |numbers| && numbers[i].Some? ==> numbers[i].value.Finite?
  }

  predicate DetailFinite(d: Detail) { AllFinite(d.numbers) && NoneInfinite(d.optional) }

  predicate PaymentFinite(p: Payment) { HasCents(p.amount) && AllFinite(p.parts) }

  predicate DistinctAccounts(loans: seq<Loan>) {
    forall i, j :: 0 <= i < j < |loans| ==> loans[i].account != loans[j].account
  }

  predicate DistinctIds(payments: seq<Payment>)
    requires AllDated(payments)
  {
    forall i, j :: 0 <= i < j < |payments| ==> IdOf(payments[i]) != IdOf(payments[j])
  }

  predicate HasAccount(loans: seq<Loan>, account: string) {
    exists i :: 0 <= i < |loans| && loans[i].account == account
  }

  /** A capture is whole: every loan once, every detail among them, every detail
      request accounted for, no two payments of one identity, and every number
      finite. */
  predicate ValidCapture(c: Capture) {
    && c.connection > 0 && Trim(c.companyId) != "" && Trim(c.account) != "" && RequiredDate(c.snapshotDate).Some?
    && c.overview.portfolioCount == |c.loans| && AllFinite(c.overview.numbers)
    && (forall i :: 0 <= i < |c.loans| ==> AllFinite(c.loans[i].numbers))
    && (forall i :: 0 <= i < |c.details| ==> DetailFinite(c.details[i]))
    && (forall i :: 0 <= i < |c.payments| ==> PaymentFinite(c.payments[i]))
    && (forall i :: 0 <= i < |c.loans| ==> Trim(c.loans[i].account) != "") && DistinctAccounts(c.loans)
    && (forall i :: 0 <= i < |c.details| ==> HasAccount(c.loans, c.details[i].account))
    && c.detailFailures >= 0 && |c.details| + c.detailFailures == |c.loans|
    && (forall i :: 0 <= i < |c.payments| ==> Trim(c.payments[i].loanAccount) != "")
    && AllDated(c.payments) && DistinctIds(c.payments)
  }

  predicate LoanDatesValid(c: Capture) {
    (forall i :: 0 <= i < |c.loans| ==> LoanDated(c.loans[i]))
    && forall i :: 0 <= i < |c.details| ==> DatesValid(c.details[i].dates)
  }

  /** `tmo` is the id of the TMO connection, `stream` the trust-deed stream. */
  function ApplySync(t: Tables, tmo: Option<int>, stream: Option<int>, c: Capture): Result<Tables, SyncError> {
    if !ValidCapture(c) then Failure(Validation)
    else if tmo != Some(c.connection) then Failure(Storage)
    else if stream.None? then Failure(Configuration)
    else if !LoanDatesValid(c) then Failure(Validation)
    else
      match ApplyDetails(UpsertLoans(Deactivate(t, c.connection), c.connection, stream.value, c.loans), c.connection,
          c.details)
      case None => Failure(Validation)
      case Some(t') => Success(ReplacePayments(t', c.connection, stream.value, c.payments))
  }
}
