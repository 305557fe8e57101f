/** A whole TMO sync: what it makes of the tables, and the repository that runs
    it statement by statement. */
module TmoSync {
  import opened Wrappers
  import opened Text
  import opened TmoTables
  import opened TmoSafety
  import opened TmoLoans
  import opened TmoRecord

  // ---- one sync ----

  /** A sync is refused exactly for these reasons; a detail never misses. */
  lemma SyncSucceedsIff(t: Tables, tmo: Option<int>, stream: Option<int>, c: Capture)
    ensures ApplySync(t, tmo, stream, c).Success? <==>
              ValidCapture(c) && tmo == Some(c.connection) && stream.Some? && LoanDatesValid(c)
  {
    hide LoanDatesValid;
    if ValidCapture(c) && stream.Some? {
      assert forall i :: 0 <= i < |c.details| ==> HasAccount(c.loans, c.details[i].account);
      hide ValidCapture, ApplyDetails, UpsertLoans, HasAccount;
      ReplacingEachLoan(t, c.connection, stream.value, c.loans, c.details);
    }
  }

  lemma CaptureParts(c: Capture)
    requires ValidCapture(c)
    ensures AllDated(c.payments) && DistinctIds(c.payments)
    ensures forall i :: 0 <= i < |c.details| ==> HasAccount(c.loans, c.details[i].account)
  {
  }

  /** A successful sync is a replacement of loans, then of payments. */
  lemma SyncParts(t: Tables, tmo: Option<int>, stream: Option<int>, c: Capture, t': Tables)
    requires ApplySync(t, tmo, stream, c) == Success(t')
    ensures ValidCapture(c) && tmo == Some(c.connection) && stream.Some? && LoanDatesValid(c)
    ensures AllDated(c.payments) && DistinctIds(c.payments)
    ensures forall i :: 0 <= i < |c.details| ==> HasAccount(c.loans, c.details[i].account)
    ensures var loans := ReplaceLoans(t, c.connection, stream.value, c.loans, c.details);
            loans.Some? && t' == ReplacePayments(loans.value, c.connection, stream.value, c.payments)
  {
    hide ValidCapture, LoanDatesValid, HasAccount, AllDated, DistinctIds, ReplacePayments, UpsertLoans, ApplyDetails;
    CaptureParts(c);
  }

  lemma SyncOfParts(t: Tables, tmo: Option<int>, stream: Option<int>, c: Capture, t1: Tables)
    requires ValidCapture(c) && tmo == Some(c.connection) && stream.Some? && LoanDatesValid(c)
    requires AllDated(c.payments) && ReplaceLoans(t, c.connection, stream.value, c.loans, c.details) == Some(t1)
    ensures ApplySync(t, tmo, stream, c) == Success(ReplacePayments(t1, c.connection, stream.value, c.payments))
  {
    hide ValidCapture, LoanDatesValid, AllDated, ReplacePayments, UpsertLoans, ApplyDetails;
  }

  lemma LoansLeaveTheRest(t: Tables, t1: Tables)
    requires TablesOk(t) && t1.(loans := t.loans, nextLoan := t.nextLoan) == t
    ensures TablesOk(t1)
  {
    assert forall k, e :: Linked(t1, k, e) <==> Linked(t, k, e);
  }

  /** After a successful sync the connection's payments, history events and
      active loans are exactly the captured ones. */
  lemma SyncIsReplacement(t: Tables, tmo: Option<int>, stream: Option<int>, c: Capture, t': Tables)
    requires TablesOk(t) && ApplySync(t, tmo, stream, c) == Success(t')
    ensures AllDated(c.payments) && stream.Some? && TablesOk(t')
    ensures forall id :: PaymentKey(c.connection, id) in t'.payments <==> Captured(c.payments, id)
    ensures forall id :: EventKey(stream.value, TmoHistory, id) in t'.events <==> Captured(c.payments, id)
    ensures forall id :: Captured(c.payments, id) ==>
              Linked(t', PaymentKey(c.connection, id), EventKey(stream.value, TmoHistory, id))
    ensures forall account :: IsActive(t', c.connection, account) <==> HasAccount(c.loans, account)
    ensures forall k :: k in t.payments && k in t'.payments ==> t'.payments[k].id == t.payments[k].id
    ensures forall e :: e in t.events && e in t'.events ==>
              t'.events[e].id == t.events[e].id && t'.events[e].kept == t.events[e].kept
    ensures forall k :: k in t.loans ==> k in t'.loans && t'.loans[k].id == t.loans[k].id
  {
    hide ValidCapture, LoanDatesValid, HasAccount, AllDated, DistinctIds, ApplySync, ReplacePayments, TablesOk,
         Captured;
    SyncParts(t, tmo, stream, c, t');
    ReplacingLoans(t, c.connection, stream.value, c.loans, c.details);
    var t1 := ReplaceLoans(t, c.connection, stream.value, c.loans, c.details).value;
    ActiveIffCaptured(t, t1, c, stream.value);
    hide ReplaceLoans;
    LoansLeaveTheRest(t, t1);
    ReplacingIsReplacement(t1, c.connection, stream.value, c.payments);
    hide AllWritten, LostItsPayment, Linked;
    forall id | Captured(c.payments, id)
      ensures Linked(t', PaymentKey(c.connection, id), EventKey(stream.value, TmoHistory, id))
    {
      CapturedAreWritten(t', c.connection, stream.value, c.payments, id);
    }
  }

  predicate IsActive(t: Tables, connection: int, account: string) {
    LoanKey(connection, account) in t.loans && t.loans[LoanKey(connection, account)].active
  }

  lemma ActiveIffCaptured(t: Tables, t1: Tables, c: Capture, stream: int)
    requires forall i :: 0 <= i < |c.details| ==> HasAccount(c.loans, c.details[i].account)
    requires ReplaceLoans(t, c.connection, stream, c.loans, c.details) == Some(t1)
    ensures forall account :: IsActive(t1, c.connection, account) <==> HasAccount(c.loans, account)
  {
    hide ReplaceLoans, HasAccount;
    ReplacingLoans(t, c.connection, stream, c.loans, c.details);
    ReplacingEachLoan(t, c.connection, stream, c.loans, c.details);
    forall account | true ensures IsActive(t1, c.connection, account) <==> HasAccount(c.loans, account) {
      var k := LoanKey(c.connection, account);
      assert LoanReplaced(
          t, t1, c.connection, stream, SummaryOf(c.loans, k.account), LastDetail(c.details, k.account), k);
      SummaryIffCaptured(c.loans, account);
    }
  }

  /** Applying one capture twice is applying it once. */
  lemma SyncIsIdempotent(t: Tables, tmo: Option<int>, stream: Option<int>, c: Capture, t': Tables)
    requires TablesOk(t) && ApplySync(t, tmo, stream, c) == Success(t')
    ensures ApplySync(t', tmo, stream, c) == Success(t')
  {
    hide ValidCapture, LoanDatesValid, HasAccount, AllDated, DistinctIds, ApplySync, ReplacePayments, TablesOk,
         ReplaceLoans;
    SyncParts(t, tmo, stream, c, t');
    ReplacingLoans(t, c.connection, stream.value, c.loans, c.details);
    var t1 := ReplaceLoans(t, c.connection, stream.value, c.loans, c.details).value;
    LoansLeaveTheRest(t, t1);
    ReplacingIsReplacement(t1, c.connection, stream.value, c.payments);
    ReplacingIsIdempotent(t1, c.connection, stream.value, c.payments);
    ReplacingLoansIsIdempotent(t, t', c.connection, stream.value, c.loans, c.details);
    SyncOfParts(t', tmo, stream, c, t');
  }

  // ---- the record beside them ----

  /** Payments, loans and the record change together or not at all. */
  function SyncAll(t: Tables, r: Record, stream: Option<int>, c: Capture): Result<(Tables, Record), SyncError> {
    match ApplySync(t, if IsTmo(r, c.connection) then Some(c.connection) else None, stream, c)
    case Failure(e) => Failure(e)
    case Success(t') => if IsTmo(r, c.connection) then Success((t', RecordSync(r, c))) else Failure(Storage)
  }

  lemma SyncAllIs(t: Tables, r: Record, stream: Option<int>, c: Capture)
    ensures SyncAll(t, r, stream, c)
            == if !ValidCapture(c) then Failure(Validation)
               else if !IsTmo(r, c.connection) then Failure(Storage)
               else if stream.None? then Failure(Configuration)
               else
                 var loans := ReplaceLoans(t, c.connection, stream.value, c.loans, c.details);
                 if !LoanDatesValid(c) || loans.None? then Failure(Validation)
                 else Success((ReplacePayments(loans.value, c.connection, stream.value, c.payments), RecordSync(r, c)))
  {
    hide ValidCapture, LoanDatesValid, AllDated, ReplacePayments, UpsertLoans, ApplyDetails, RecordSync, IsTmo;
    if ValidCapture(c) { CaptureParts(c); }
  }

  lemma SyncAllIsIdempotent(t: Tables, r: Record, stream: Option<int>, c: Capture, t': Tables, r': Record)
    requires TablesOk(t) && SyncAll(t, r, stream, c) == Success((t', r'))
    ensures SyncAll(t', r', stream, c) == Success((t', r'))
  {
    hide TablesOk, ApplySync, RecordSync;
    SyncIsIdempotent(t, Some(c.connection), stream, c, t');
    RecordingIsIdempotent(r, c);
  }

  // ---- syncs in a row ----

  datatype Attempt = Attempt(tmo: Option<int>, stream: Option<int>, capture: Capture)

  function AfterSyncs(t: Tables, attempts: seq<Attempt>): Tables {
    if attempts == [] then t
    else
      var before := AfterSyncs(t, attempts[..|attempts| - 1]);
      var a := attempts[|attempts| - 1];
      match ApplySync(before, a.tmo, a.stream, a.capture) case Success(t') => t' case Failure(_) => before
  }

  /** Ids stay unique, foreign keys hold, and links join equal external ids,
      after any syncs, whatever streams they resolve to. */
  lemma {:induction false} SyncsKeepTables(t: Tables, attempts: seq<Attempt>)
    requires TablesOk(t)
    ensures TablesOk(AfterSyncs(t, attempts))
  {
    if attempts != [] {
      SyncsKeepTables(t, attempts[..|attempts| - 1]);
      var before, a := AfterSyncs(t, attempts[..|attempts| - 1]), attempts[|attempts| - 1];
      hide TablesOk, ApplySync;
      var r := ApplySync(before, a.tmo, a.stream, a.capture);
      if r.Success? { SyncIsReplacement(before, a.tmo, a.stream, a.capture, r.value); }
    }
  }

  // ---- the repository ----

  class IntegrationWriteRepository {
    var payments: map<PaymentKey, PaymentRow>
    var nextPayment: int
    var events: map<EventKey, EventRow>
    var nextEvent: int
    var links: map<int, int>
    var loans: map<LoanKey, LoanRow>
    var nextLoan: int
    var connections: map<int, Connection>
    var account: Option<AccountRow>
    var overviews: map<OverviewKey, OverviewRow>
    var snapshots: map<string, SnapshotRow>

    function Recorded(): Record
      reads this
    {
      Record(connections, account, overviews, snapshots)
    }

    function Snapshot(): Tables
      reads this
    {
      Tables(payments, nextPayment, events, nextEvent, links, loans, nextLoan)
    }

    constructor (t: Tables, r: Record)
      ensures Snapshot() == t && Recorded() == r
    {
      connections, account, overviews, snapshots := r.connections, r.account, r.overviews, r.snapshots;
      payments, nextPayment, events, nextEvent := t.payments, t.nextPayment, t.events, t.nextEvent;
      links, loans, nextLoan := t.links, t.loans, t.nextLoan;
    }

    method Rollback(t: Tables, r: Record)
      modifies this
      ensures Snapshot() == t && Recorded() == r
    {
      connections, account, overviews, snapshots := r.connections, r.account, r.overviews, r.snapshots;
      payments, nextPayment, events, nextEvent := t.payments, t.nextPayment, t.events, t.nextEvent;
      links, loans, nextLoan := t.links, t.loans, t.nextLoan;
    }

    method UpsertPaymentRow(connection: int, stream: int, p: Payment)
      requires Dated(p)
      modifies this`payments, this`nextPayment, this`events, this`nextEvent, this`links
      ensures Snapshot() == UpsertPayment(old(Snapshot()), connection, stream, p)
    {
      hide Dated, IdOf, NormalizeCheckNumber;
      var externalId := IdOf(p);
      var pk, ek := PaymentKey(connection, externalId), EventKey(stream, TmoHistory, externalId);
      var paymentId := nextPayment;
      if pk in payments { paymentId := payments[pk].id; } else { nextPayment := nextPayment + 1; }
      payments := payments[pk := PaymentRow(paymentId, p, NormalizeCheckNumber(p.checkNumber), false)];
      var eventId, kept := nextEvent, "";
      if ek in events { eventId, kept := events[ek].id, events[ek].kept; } else { nextEvent := nextEvent + 1; }
      events := events[ek := EventRow(eventId, ImportedOf(p), kept)];
      links := links[paymentId := eventId];
    }

    method DeleteEventRows(doomed: set<EventKey>)
      modifies this`events, this`links
      ensures Snapshot() == DeleteEvents(old(Snapshot()), doomed)
    {
      var ids := set e | e in doomed && e in events :: events[e].id;
      events := events - doomed;
      links := map p | p in links && links[p] !in ids :: links[p];
    }

    method DeletePaymentRows(doomed: set<PaymentKey>)
      modifies this`payments, this`links
      ensures Snapshot() == DeletePayments(old(Snapshot()), doomed)
    {
      var ids := set k | k in doomed && k in payments :: payments[k].id;
      payments := payments - doomed;
      links := links - ids;
    }

    /** Mark, upsert, sweep. */
    method ReplacePaymentProjection(connection: int, stream: int, captured: seq<Payment>)
      requires AllDated(captured)
      modifies this`payments, this`nextPayment, this`events, this`nextEvent, this`links
      ensures Snapshot() == ReplacePayments(old(Snapshot()), connection, stream, captured)
    {
      hide UpsertPayment, DeleteEvents, DeletePayments, Dated, EventsOfStale, StalePayments, Orphans, LegacyProjections;
      payments := map k | k in payments ::
        if k.connection == connection then payments[k].(stale := true) else payments[k];
      ghost var marked := Snapshot();
      assert marked == MarkStale(old(Snapshot()), connection);
      for i := 0 to |captured|
        invariant Snapshot() == UpsertPayments(marked, connection, stream, captured[..i])
      {
        assert captured[..i + 1][..i] == captured[..i];
        UpsertPaymentRow(connection, stream, captured[i]);
      }
      assert captured[..|captured|] == captured;
      DeleteEventRows(EventsOfStale(Snapshot(), connection));
      DeletePaymentRows(StalePayments(Snapshot(), connection));
      DeleteEventRows(Orphans(Snapshot(), connection, stream));
      DeleteEventRows(LegacyProjections(Snapshot()));
    }

    method UpsertLoanRow(connection: int, stream: int, loan: Loan)
      modifies this`loans, this`nextLoan
      ensures Snapshot() == UpsertLoan(old(Snapshot()), connection, stream, loan)
    {
      var k := LoanKey(connection, loan.account);
      if k in loans {
        var row := loans[k];
        var owner := if row.stream.Some? then row.stream else Some(stream);
        loans := loans[k := row.(
          stream := owner, columns := FromSummary(loan.summary), summary := loan.summary, active := true)];
      } else {
        loans := loans[k := LoanRow(nextLoan, Some(stream), FromSummary(loan.summary), loan.summary, None, true)];
        nextLoan := nextLoan + 1;
      }
    }

    method UpsertLoanRows(connection: int, stream: int, captured: seq<Loan>) returns (ok: bool)
      modifies this`loans, this`nextLoan
      ensures ok <==> forall i :: 0 <= i < |captured| ==> LoanDated(captured[i])
      ensures ok ==> Snapshot() == UpsertLoans(old(Snapshot()), connection, stream, captured)
    {
      hide UpsertLoan, LoanDated;
      for i := 0 to |captured|
        invariant Snapshot() == UpsertLoans(old(Snapshot()), connection, stream, captured[..i])
        invariant forall j :: 0 <= j < i ==> LoanDated(captured[j])
      {
        if !LoanDated(captured[i]) { return false; }
        assert captured[..i + 1][..i] == captured[..i];
        UpsertLoanRow(connection, stream, captured[i]);
      }
      assert captured[..|captured|] == captured;
      ok := true;
    }

    /** Stops at the first detail that has no row or no valid dates. */
    method ApplyDetailRows(connection: int, details: seq<Detail>) returns (ok: bool)
      modifies this`loans
      ensures ok ==> ApplyDetails(old(Snapshot()), connection, details) == Some(Snapshot())
      ensures ok <==> ApplyDetails(old(Snapshot()), connection, details).Some?
                      && forall i :: 0 <= i < |details| ==> DatesValid(details[i].dates)
    {
      hide ApplyDetail, DatesValid;
      ghost var start := Snapshot();
      for i := 0 to |details|
        invariant ApplyDetails(start, connection, details[..i]) == Some(Snapshot())
        invariant forall j :: 0 <= j < i ==> DatesValid(details[j].dates)
      {
        assert details[..i + 1][..i] == details[..i];
        if !DatesValid(details[i].dates) { return false; }
        ghost var before := Snapshot();
        ApplyDetailIs(before, connection, details[i]);
        var k := LoanKey(connection, details[i].account);
        if k !in loans {
          MissStays(start, connection, details, i + 1);
          return false;
        }
        loans := loans[k := loans[k].(columns := FromDetail(details[i].text), detail := Some(details[i].text))];
        assert ApplyDetail(before, connection, details[i]) == Some(Snapshot());
      }
      assert details[..|details|] == details;
      ok := true;
    }

    /** Loans are put aside, upserted, and completed by their details. */
    method ReplaceLoanRows(connection: int, stream: int, captured: seq<Loan>, details: seq<Detail>) returns (ok: bool)
      modifies this`loans, this`nextLoan
      ensures var t := ReplaceLoans(old(Snapshot()), connection, stream, captured, details);
              && (ok <==> t.Some? && (forall i :: 0 <= i < |captured| ==> LoanDated(captured[i]))
                          && forall i :: 0 <= i < |details| ==> DatesValid(details[i].dates))
              && (ok ==> Some(Snapshot()) == t)
    {
      hide UpsertLoans, ApplyDetails, LoanDated, DatesValid;
      ghost var start := Snapshot();
      loans := map k | k in loans :: if k.connection == connection then loans[k].(active := false) else loans[k];
      assert Snapshot() == Deactivate(start, connection);
      ok := UpsertLoanRows(connection, stream, captured);
      if ok { ok := ApplyDetailRows(connection, details); }
    }

    /** The connection's row, the account, and the overview and snapshot of the
        day, each inserted or updated under its key. */
    method WriteRecord(c: Capture)
      requires IsTmo(Recorded(), c.connection)
      modifies this`connections, this`account, this`overviews, this`snapshots
      ensures Recorded() == RecordSync(old(Recorded()), c)
    {
      hide Decimal;
      var warning := DetailWarning(c.detailFailures);
      connections := connections[c.connection := connections[c.connection].(
        metadata := (c.companyId, c.account), status := if warning.Some? then "degraded" else "active",
        lastError := warning, lastSyncedAt := Some(c.capturedAt), updatedAt := c.capturedAt)];
      if account.Some? {
        account := Some(account.value.(user := c.user, lastLoginAt := c.capturedAt, updatedAt := c.capturedAt));
      } else {
        account := Some(AccountRow(c.user, c.capturedAt, c.capturedAt, c.capturedAt));
      }
      var k := OverviewKey(c.connection, c.snapshotDate);
      if k in overviews {
        overviews := overviews[k := overviews[k].(overview := c.overview, updatedAt := c.capturedAt)];
      } else {
        overviews := overviews[k := OverviewRow(c.overview, c.capturedAt, c.capturedAt)];
      }
      snapshots := snapshots[c.snapshotDate := SnapshotRow(c.overview, c.capturedAt)];
    }

    /** Validation, then the record, loans, details and payments; an error on the
        way rolls everything back. */
    method ApplyTmoSync(stream: Option<int>, c: Capture) returns (r: Result<(nat, nat), SyncError>)
      modifies this
      ensures match SyncAll(old(Snapshot()), old(Recorded()), stream, c)
              case Failure(e) => r == Failure(e) && Snapshot() == old(Snapshot()) && Recorded() == old(Recorded())
              case Success((t, record)) =>
                r == Success((|c.payments|, |c.loans|)) && Snapshot() == t && Recorded() == record
    {
      hide RecordSync, IsTmo, UpsertLoans, UpsertLoan, ApplyDetails, ReplacePayments, DistinctIds, AllDated,
           ValidCapture, Deactivate, ApplySync, SyncAll, ReplaceLoans, DatesValid, LoanDated;
      SyncAllIs(Snapshot(), Recorded(), stream, c);
      var valid := ValidateCapture(c);
      if !valid { return Failure(Validation); }
      CaptureParts(c);
      if !IsTmo(Recorded(), c.connection) { return Failure(Storage); }
      if stream.None? { return Failure(Configuration); }
      var saved, savedRecord := Snapshot(), Recorded();
      WriteRecord(c);
      var ok := ReplaceLoanRows(c.connection, stream.value, c.loans, c.details);
      if !ok {
        Rollback(saved, savedRecord);
        return Failure(Validation);
      }
      ReplacePaymentProjection(c.connection, stream.value, c.payments);
      r := Success((|c.payments|, |c.loans|));
    }
  }

  lemma ApplyDetailIs(t: Tables, connection: int, detail: Detail)
    ensures ApplyDetail(t, connection, detail)
            == var k := LoanKey(connection, detail.account);
               if k !in t.loans then None
               else Some(t.(loans := t.loans[k := t.loans[k].(columns := FromDetail(detail.text),
                   detail := Some(detail.text))]))
  {
  }

  lemma {:induction false} MissStays(t: Tables, connection: int, details: seq<Detail>, n: nat)
    requires n <= |details| && ApplyDetails(t, connection, details[..n]) == None
    ensures ApplyDetails(t, connection, details) == None
    decreases |details| - n
  {
    hide ApplyDetail;
    if n < |details| {
      assert details[..n + 1][..n] == details[..n];
      MissStays(t, connection, details, n + 1);
    } else {
      assert details[..n] == details;
    }
  }

  // ---- validation ----

  /** The loops that grow the sets of loan accounts and payment identities. */
  method ValidateCapture(c: Capture) returns (ok: bool)
    ensures ok <==> ValidCapture(c)
  {
    hide Dated, IdOf, Trim, RequiredDate;
    if c.connection <= 0 || Trim(c.companyId) == "" || Trim(c.account) == "" { return false; }
    if RequiredDate(c.snapshotDate).None? { return false; }
    if c.overview.portfolioCount < 0 || c.overview.portfolioCount != |c.loans| { return false; }
    if !AllFinite(c.overview.numbers) { return false; }
    var accounts := DistinctLoans(c.loans);
    if accounts.None? { return false; }
    for i := 0 to |c.details|
      invariant forall j :: 0 <= j < i ==> HasAccount(c.loans, c.details[j].account) && DetailFinite(c.details[j])
    {
      if c.details[i].account !in accounts.value { return false; }
      if !AllFinite(c.details[i].numbers) || !NoneInfinite(c.details[i].optional) { return false; }
    }
    if c.detailFailures < 0 || |c.details| + c.detailFailures != |c.loans| { return false; }
    ok := DistinctPayments(c.payments);
  }

  method DistinctLoans(loans: seq<Loan>) returns (accounts: Option<set<string>>)
    ensures accounts.Some? <==>
              DistinctAccounts(loans)
              && forall i :: 0 <= i < |loans| ==> Trim(loans[i].account) != "" && AllFinite(loans[i].numbers)
    ensures accounts.Some? ==> forall account :: account in accounts.value <==> HasAccount(loans, account)
  {
    hide Trim;
    var seen: set<string> := {};
    for i := 0 to |loans|
      invariant forall j :: 0 <= j < i ==> Trim(loans[j].account) != "" && loans[j].account in seen
      invariant forall j :: 0 <= j < i ==> AllFinite(loans[j].numbers)
      invariant forall account :: account in seen ==> exists j :: 0 <= j < i && loans[j].account == account
      invariant forall j, k :: 0 <= j < k < i ==> loans[j].account != loans[k].account
    {
      if Trim(loans[i].account) == "" || loans[i].account in seen { return None; }
      if !AllFinite(loans[i].numbers) { return None; }
      seen := seen + {loans[i].account};
    }
    accounts := Some(seen);
  }

  method DistinctPayments(payments: seq<Payment>) returns (ok: bool)
    ensures ok <==> (forall i :: 0 <= i < |payments| ==>
                       Trim(payments[i].loanAccount) != "" && PaymentFinite(payments[i]))
                    && AllDated(payments) && DistinctIds(payments)
  {
    hide Trim, IdOf, Dated;
    var seen: set<string> := {};
    for i := 0 to |payments|
      invariant forall j :: 0 <= j < i ==>
                  Trim(payments[j].loanAccount) != "" && PaymentFinite(payments[j]) && Dated(payments[j])
      invariant forall j :: 0 <= j < i ==> IdOf(payments[j]) in seen
      invariant forall id :: id in seen ==> exists j :: 0 <= j < i && IdOf(payments[j]) == id
      invariant forall j, k :: 0 <= j < k < i ==> IdOf(payments[j]) != IdOf(payments[k])
    {
      if Trim(payments[i].loanAccount) == "" { return false; }
      if !payments[i].amount.Finite? || !AllFinite(payments[i].parts) { return false; }
      if !Dated(payments[i]) { return false; }
      if !HasCents(payments[i].amount) { return false; }
      var externalId := IdOf(payments[i]);
      if externalId in seen { return false; }
      seen := seen + {externalId};
    }
    ok := true;
  }
}
