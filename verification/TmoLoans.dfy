/** Replacing the snapshot of loans: the captured ones are active, the others
    stay, inactive. */
module TmoLoans {
  import opened Wrappers
  import opened TmoTables

  /** The detail that counts: the last one of the account. */
  function LastDetail(details: seq<Detail>, account: string): Option<string> {
    if details == [] then None
    else if details[|details| - 1].account == account then Some(details[|details| - 1].text)
    else LastDetail(details[..|details| - 1], account)
  }

  function SummaryOf(loans: seq<Loan>, account: string): Option<string> {
    if loans == [] then None
    else if loans[|loans| - 1].account == account then Some(loans[|loans| - 1].summary)
    else SummaryOf(loans[..|loans| - 1], account)
  }

  lemma {:induction false} SummaryIffCaptured(loans: seq<Loan>, account: string)
    ensures SummaryOf(loans, account).Some? <==> HasAccount(loans, account)
  {
    if loans != [] {
      var n, before := |loans| - 1, loans[..|loans| - 1];
      SummaryIffCaptured(before, account);
      if HasAccount(before, account) {
        var i :| 0 <= i < n && before[i].account == account;
        assert loans[i].account == account;
      }
      if HasAccount(loans, account) && loans[n].account != account {
        var i :| 0 <= i <= n && loans[i].account == account;
        assert before[i].account == account;
      }
    }
  }

  /** A row after the summary of its loan was written. */
  function Summarized(row: LoanRow, stream: int, summary: string): LoanRow {
    row.(stream := if row.stream.Some? then row.stream else Some(stream),
         columns := FromSummary(summary), summary := summary, active := true)
  }

  const BLANK := LoanRow(0, None, FromSummary(""), "", None, true)

  /** What the summaries make of one row: it is updated, new, or as it was. */
  predicate SummaryApplied(t: Tables, t': Tables, connection: int, stream: int, summary: Option<string>, k: LoanKey) {
    var captured := k.connection == connection && summary.Some?;
    && (k in t'.loans <==> k in t.loans || captured)
    && (k in t.loans ==> t'.loans[k] == if captured then Summarized(t.loans[k], stream, summary.value) else t.loans[k])
    && (k in t'.loans && k !in t.loans ==>
          && t.nextLoan <= t'.loans[k].id < t'.nextLoan
          && t'.loans[k] == Summarized(BLANK.(id := t'.loans[k].id), stream, summary.value))
  }

  ghost predicate SummariesApplied(t: Tables, t': Tables, connection: int, stream: int, loans: seq<Loan>) {
    && t'.(loans := t.loans, nextLoan := t.nextLoan) == t && t.nextLoan <= t'.nextLoan
    && (forall k: LoanKey :: SummaryApplied(t, t', connection, stream, SummaryOf(loans, k.account), k))
    && (t'.loans.Keys == t.loans.Keys ==> t'.nextLoan == t.nextLoan)
  }

  lemma OneMoreSummary(t: Tables, t1: Tables, connection: int, stream: int, loans: seq<Loan>)
    requires loans != [] && SummariesApplied(t, t1, connection, stream, loans[..|loans| - 1])
    ensures SummariesApplied(t, UpsertLoan(t1, connection, stream, loans[|loans| - 1]), connection, stream, loans)
  {
    var before, loan := loans[..|loans| - 1], loans[|loans| - 1];
    var t2 := UpsertLoan(t1, connection, stream, loan);
    forall k: LoanKey | true ensures SummaryApplied(t, t2, connection, stream, SummaryOf(loans, k.account), k) {
      assert SummaryApplied(t, t1, connection, stream, SummaryOf(before, k.account), k);
    }
    if t2.loans.Keys == t.loans.Keys { KeysOnlyGrow(t, t1, connection, stream, before, loan); }
  }

  lemma KeysOnlyGrow(t: Tables, t1: Tables, connection: int, stream: int, before: seq<Loan>, loan: Loan)
    requires SummariesApplied(t, t1, connection, stream, before)
    requires UpsertLoan(t1, connection, stream, loan).loans.Keys == t.loans.Keys
    ensures t1.nextLoan == t.nextLoan && LoanKey(connection, loan.account) in t1.loans
  {
    var t2, key := UpsertLoan(t1, connection, stream, loan), LoanKey(connection, loan.account);
    forall k | k in t.loans ensures k in t1.loans {
      assert SummaryApplied(t, t1, connection, stream, SummaryOf(before, k.account), k);
    }
    assert key in t2.loans.Keys;
    assert key in t.loans;
    assert t2.loans.Keys == t1.loans.Keys;
  }

  lemma {:induction false} UpsertLoansApplies(t: Tables, connection: int, stream: int, loans: seq<Loan>)
    ensures SummariesApplied(t, UpsertLoans(t, connection, stream, loans), connection, stream, loans)
  {
    if loans != [] {
      UpsertLoansApplies(t, connection, stream, loans[..|loans| - 1]);
      hide SummariesApplied, UpsertLoan;
      OneMoreSummary(t, UpsertLoans(t, connection, stream, loans[..|loans| - 1]), connection, stream, loans);
    }
  }

  function Detailed(row: LoanRow, detail: Option<string>): LoanRow {
    match detail
    case None => row
    case Some(text) => row.(columns := FromDetail(text), detail := Some(text))
  }

  ghost predicate DetailsApplied(t: Tables, t': Tables, connection: int, details: seq<Detail>) {
    && t'.(loans := t.loans) == t && t'.loans.Keys == t.loans.Keys
    && forall k :: k in t.loans ==>
         t'.loans[k]
         == if k.connection == connection then Detailed(t.loans[k], LastDetail(details, k.account)) else t.loans[k]
  }

  /** Details of captured loans never miss their row. */
  lemma {:induction false} DetailsNeverMiss(t: Tables, connection: int, details: seq<Detail>)
    requires forall i :: 0 <= i < |details| ==> LoanKey(connection, details[i].account) in t.loans
    ensures ApplyDetails(t, connection, details).Some?
    ensures DetailsApplied(t, ApplyDetails(t, connection, details).value, connection, details)
  {
    if details != [] {
      var before, detail := details[..|details| - 1], details[|details| - 1];
      assert forall i :: 0 <= i < |before| ==> before[i] == details[i];
      DetailsNeverMiss(t, connection, before);
      var t1 := ApplyDetails(t, connection, before).value;
      var key := LoanKey(connection, detail.account);
      assert key in t.loans.Keys && key in t1.loans;
      var t' := ApplyDetails(t, connection, details).value;
      assert t' == ApplyDetail(t1, connection, detail).value;
      assert t'.loans.Keys == t1.loans.Keys;
    }
  }

  // ---- replacement ----

  function ReplaceLoans(
    t: Tables, connection: int, stream: int, loans: seq<Loan>, details: seq<Detail>): Option<Tables> {
    ApplyDetails(UpsertLoans(Deactivate(t, connection), connection, stream, loans), connection, details)
  }

  /** The row of a loan after a capture. */
  function LoanAfter(row: LoanRow, stream: int, summary: Option<string>, detail: Option<string>): LoanRow {
    match summary
    case None => row.(active := false)
    case Some(text) => Detailed(Summarized(row, stream, text), detail)
  }

  /** What a capture makes of one row. */
  predicate LoanReplaced(
    t: Tables, t': Tables, connection: int, stream: int, summary: Option<string>, detail: Option<string>, k: LoanKey)
  {
    && (k in t'.loans <==> k in t.loans || (k.connection == connection && summary.Some?))
    && (k in t.loans ==>
          t'.loans[k]
          == if k.connection == connection then LoanAfter(t.loans[k], stream, summary, detail) else t.loans[k])
    && (k in t'.loans && k !in t.loans ==>
          t.nextLoan <= t'.loans[k].id
          && t'.loans[k] == LoanAfter(BLANK.(id := t'.loans[k].id), stream, summary, detail))
  }

  ghost predicate LoansReplaced(
    t: Tables, t': Tables, connection: int, stream: int, loans: seq<Loan>, details: seq<Detail>) {
    && t'.(loans := t.loans, nextLoan := t.nextLoan) == t
    && (forall k: LoanKey ::
          LoanReplaced(t, t', connection, stream, SummaryOf(loans, k.account), LastDetail(details, k.account), k))
    && (t'.loans.Keys == t.loans.Keys ==> t'.nextLoan == t.nextLoan)
  }

  lemma ReplacingEachLoan(t: Tables, connection: int, stream: int, loans: seq<Loan>, details: seq<Detail>)
    requires forall i :: 0 <= i < |details| ==> HasAccount(loans, details[i].account)
    ensures ReplaceLoans(t, connection, stream, loans, details).Some?
    ensures var t' := ReplaceLoans(t, connection, stream, loans, details).value;
            LoansReplaced(t, t', connection, stream, loans, details)
  {
    var t0 := Deactivate(t, connection);
    var t1 := UpsertLoans(t0, connection, stream, loans);
    UpsertLoansApplies(t0, connection, stream, loans);
    forall i | 0 <= i < |details| ensures LoanKey(connection, details[i].account) in t1.loans {
      var k := LoanKey(connection, details[i].account);
      SummaryIffCaptured(loans, details[i].account);
      assert SummaryApplied(t0, t1, connection, stream, SummaryOf(loans, k.account), k);
    }
    DetailsNeverMiss(t1, connection, details);
    hide SummaryOf, LastDetail, HasAccount, UpsertLoans, ApplyDetails, SummaryApplied, LoanReplaced;
    var t' := ReplaceLoans(t, connection, stream, loans, details).value;
    forall k: LoanKey | true
      ensures LoanReplaced(t, t', connection, stream, SummaryOf(loans, k.account), LastDetail(details, k.account), k)
    {
      DetailIsCaptured(loans, details, k.account);
      EachLoan(t, t1, t', connection, stream, loans, details, k);
    }
    assert t0.loans.Keys == t.loans.Keys;
  }

  lemma {:induction false} DetailIsCaptured(loans: seq<Loan>, details: seq<Detail>, account: string)
    requires forall i :: 0 <= i < |details| ==> HasAccount(loans, details[i].account)
    ensures LastDetail(details, account).Some? ==> SummaryOf(loans, account).Some?
  {
    if details != [] {
      var before := details[..|details| - 1];
      assert forall i :: 0 <= i < |before| ==> before[i] == details[i];
      DetailIsCaptured(loans, before, account);
      SummaryIffCaptured(loans, account);
    }
  }

  lemma EachLoan(
    t: Tables, t1: Tables, t': Tables, connection: int, stream: int, loans: seq<Loan>, details: seq<Detail>, k: LoanKey)
    requires SummaryApplied(Deactivate(t, connection), t1, connection, stream, SummaryOf(loans, k.account), k)
    requires DetailsApplied(t1, t', connection, details)
    requires LastDetail(details, k.account).Some? ==> SummaryOf(loans, k.account).Some?
    ensures LoanReplaced(t, t', connection, stream, SummaryOf(loans, k.account), LastDetail(details, k.account), k)
  {
    hide SummaryOf, LastDetail;
    assert k in t'.loans.Keys <==> k in t1.loans.Keys;
  }

  /** Afterwards the connection's active loans are exactly the captured ones;
      every row keeps its id and the stream it was given, and loans that are
      gone keep all they had but their activity. */
  lemma ReplacingLoans(t: Tables, connection: int, stream: int, loans: seq<Loan>, details: seq<Detail>)
    requires forall i :: 0 <= i < |details| ==> HasAccount(loans, details[i].account)
    ensures ReplaceLoans(t, connection, stream, loans, details).Some?
    ensures var t' := ReplaceLoans(t, connection, stream, loans, details).value;
            && (forall k :: k in t'.loans && k.connection == connection ==>
                  (t'.loans[k].active <==> HasAccount(loans, k.account)))
            && (forall k :: k in t.loans ==>
                  && k in t'.loans && t'.loans[k].id == t.loans[k].id
                  && (t.loans[k].stream.Some? ==> t'.loans[k].stream == t.loans[k].stream))
            && (forall k :: k in t.loans && (k.connection != connection || !HasAccount(loans, k.account)) ==>
                  t'.loans[k] == t.loans[k].(active := t.loans[k].active && k.connection != connection))
            && t'.(loans := t.loans, nextLoan := t.nextLoan) == t
  {
    ReplacingEachLoan(t, connection, stream, loans, details);
    var t' := ReplaceLoans(t, connection, stream, loans, details).value;
    hide ReplaceLoans, SummaryOf, LastDetail, HasAccount;
    forall k: LoanKey | true
      ensures LoanReplaced(t, t', connection, stream, SummaryOf(loans, k.account), LastDetail(details, k.account), k)
      ensures SummaryOf(loans, k.account).Some? <==> HasAccount(loans, k.account)
    {
      SummaryIffCaptured(loans, k.account);
    }
  }

  /** The same capture again changes nothing, whatever happened to the other
      tables in between. */
  lemma ReplacingLoansIsIdempotent(
    t: Tables, t': Tables, connection: int, stream: int, loans: seq<Loan>, details: seq<Detail>)
    requires forall i :: 0 <= i < |details| ==> HasAccount(loans, details[i].account)
    requires ReplaceLoans(t, connection, stream, loans, details).Some?
    requires t'.loans == ReplaceLoans(t, connection, stream, loans, details).value.loans
    ensures ReplaceLoans(t', connection, stream, loans, details) == Some(t')
  {
    ReplacingEachLoan(t, connection, stream, loans, details);
    var t1 := ReplaceLoans(t, connection, stream, loans, details).value;
    ReplacingEachLoan(t', connection, stream, loans, details);
    var t'' := ReplaceLoans(t', connection, stream, loans, details).value;
    hide *;
    LoansSettle(t, t1, t', t'', connection, stream, loans, details);
  }

  lemma LoansSettle(
    t: Tables, t1: Tables, t': Tables, t'': Tables, connection: int, stream: int, loans: seq<Loan>,
    details: seq<Detail>)
    requires t'.loans == t1.loans
    requires LoansReplaced(t, t1, connection, stream, loans, details)
    requires LoansReplaced(t', t'', connection, stream, loans, details)
    ensures t'' == t'
  {
    hide SummaryOf, LastDetail, LoanReplaced;
    forall k: LoanKey | true
      ensures k in t''.loans <==> k in t'.loans
      ensures k in t'.loans ==> t''.loans[k] == t'.loans[k]
    {
      SameLoan(t, t1, t', t'', connection, stream, SummaryOf(loans, k.account), LastDetail(details, k.account), k);
    }
    assert t''.loans == t'.loans;
    assert t''.loans.Keys == t'.loans.Keys;
  }

  lemma SameLoan(
    t: Tables, t1: Tables, t': Tables, t'': Tables, connection: int, stream: int,
    summary: Option<string>, detail: Option<string>, k: LoanKey)
    requires t'.loans == t1.loans
    requires LoanReplaced(t, t1, connection, stream, summary, detail, k)
    requires LoanReplaced(t', t'', connection, stream, summary, detail, k)
    ensures k in t''.loans <==> k in t'.loans
    ensures k in t'.loans ==> t''.loans[k] == t'.loans[k]
  {
  }

  // ---- what a loan's row shows ----

  /** The position of the last loan or detail of an account. */
  lemma {:induction false} SummaryIsLast(loans: seq<Loan>, account: string, i: nat)
    requires i < |loans| && loans[i].account == account
    requires forall j :: i < j < |loans| ==> loans[j].account != account
    ensures SummaryOf(loans, account) == Some(loans[i].summary)
  {
    if i < |loans| - 1 { SummaryIsLast(loans[..|loans| - 1], account, i); }
  }

  lemma {:induction false} DetailIsLast(details: seq<Detail>, account: string, i: nat)
    requires i < |details| && details[i].account == account
    requires forall j :: i < j < |details| ==> details[j].account != account
    ensures LastDetail(details, account) == Some(details[i].text)
  {
    if i < |details| - 1 { DetailIsLast(details[..|details| - 1], account, i); }
  }

  lemma {:induction false} NoDetail(details: seq<Detail>, account: string)
    requires forall j :: 0 <= j < |details| ==> details[j].account != account
    ensures LastDetail(details, account) == None
  {
    if details != [] { NoDetail(details[..|details| - 1], account); }
  }

  lemma ReplacedShows(
    t: Tables, t': Tables, connection: int, stream: int, summary: string, detail: Option<string>, k: LoanKey)
    requires LoanReplaced(t, t', connection, stream, Some(summary), detail, k) && k.connection == connection
    ensures k in t'.loans
    ensures var row := t'.loans[k];
            && row.active && row.summary == summary
            && row.stream == (if k in t.loans && t.loans[k].stream.Some? then t.loans[k].stream else Some(stream))
            && (k in t.loans ==> row.id == t.loans[k].id)
            && (detail.Some? ==> row.columns == FromDetail(detail.value) && row.detail == detail)
            && (detail.None? ==>
                  row.columns == FromSummary(summary)
                  && row.detail == (if k in t.loans then t.loans[k].detail else None))
  {
  }

  /** After a capture with one summary for each loan, the row of a captured loan
      is active, has its summary, and shows its detail if one came, or else the
      summary; an earlier detail is kept, as are its id and stream, and a new
      loan gets the stream. */
  lemma CapturedLoanShows(
    t: Tables, connection: int, stream: int, loans: seq<Loan>, details: seq<Detail>, i: nat)
    requires forall j :: 0 <= j < |details| ==> HasAccount(loans, details[j].account)
    requires DistinctAccounts(loans) && i < |loans|
    ensures ReplaceLoans(t, connection, stream, loans, details).Some?
    ensures var t', k := ReplaceLoans(t, connection, stream, loans, details).value,
                LoanKey(connection, loans[i].account);
            && k in t'.loans
            && var row := t'.loans[k];
            && row.active && row.summary == loans[i].summary
            && row.stream == (if k in t.loans && t.loans[k].stream.Some? then t.loans[k].stream else Some(stream))
            && (k in t.loans ==> row.id == t.loans[k].id)
            && (forall j :: 0 <= j < |details| && details[j].account == loans[i].account
                            && (forall m :: j < m < |details| ==> details[m].account != loans[i].account) ==>
                  row.columns == FromDetail(details[j].text) && row.detail == Some(details[j].text))
            && ((forall j :: 0 <= j < |details| ==> details[j].account != loans[i].account) ==>
                  row.columns == FromSummary(loans[i].summary)
                  && row.detail == (if k in t.loans then t.loans[k].detail else None))
  {
    var account := loans[i].account;
    var k := LoanKey(connection, account);
    ReplacingEachLoan(t, connection, stream, loans, details);
    SummaryIsLast(loans, account, i);
    var t' := ReplaceLoans(t, connection, stream, loans, details).value;
    hide ReplaceLoans, SummaryOf, LastDetail, HasAccount, LoanReplaced, LoanAfter;
    assert LoanReplaced(t, t', connection, stream, SummaryOf(loans, account), LastDetail(details, account), k);
    hide LoansReplaced;
    ReplacedShows(t, t', connection, stream, loans[i].summary, LastDetail(details, account), k);
    forall j | 0 <= j < |details| && details[j].account == account
               && (forall m :: j < m < |details| ==> details[m].account != account)
      ensures LastDetail(details, account) == Some(details[j].text)
    {
      DetailIsLast(details, account, j);
    }
    if forall j :: 0 <= j < |details| ==> details[j].account != account { NoDetail(details, account); }
  }
}
