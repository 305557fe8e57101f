/** Which captures are accepted, told from their numbers and texts alone. */
module TmoCaptures {
  import opened Wrappers
  import opened Text
  import opened TmoTables
  import opened TmoSafety

  predicate NumbersAreFinite(numbers: seq<Number>) {
    forall i :: 0 <= i < |numbers| ==> numbers[i] != NotFinite
  }

  predicate OverviewIsWhole(c: Capture) {
    c.overview.portfolioCount == |c.loans| && NumbersAreFinite(c.overview.numbers)
  }

  /** Loans have accounts of their own. */
  predicate LoansAreWhole(loans: seq<Loan>) {
    && (forall i :: 0 <= i < |loans| ==> Trim(loans[i].account) != "" && NumbersAreFinite(loans[i].numbers))
    && (forall i, j :: 0 <= i < j < |loans| ==> loans[i].account != loans[j].account)
  }

  ghost predicate DetailIsWhole(loans: seq<Loan>, d: Detail) {
    && NumbersAreFinite(d.numbers)
    && (forall k :: 0 <= k < |d.optional| ==> d.optional[k] != Some(NotFinite))
    && exists j :: 0 <= j < |loans| && loans[j].account == d.account
  }

  /** Details are of captured loans, and with the failures one for each loan. */
  ghost predicate DetailsAreWhole(c: Capture) {
    && c.detailFailures >= 0 && |c.details| + c.detailFailures == |c.loans|
    && (forall i :: 0 <= i < |c.details| ==> DetailIsWhole(c.loans, c.details[i]))
  }

  /** A payment has a loan, a date, and an amount in 64-bit cents. */
  predicate PaymentIsWhole(p: Payment) {
    && Trim(p.loanAccount) != "" && RequiredDate(p.checkDate).Some? && NumbersAreFinite(p.parts)
    && p.amount != NotFinite && -9223372036854775808 <= p.amount.hundredths <= 9223372036854775808
  }

  /** No two payments agree in loan, date and cents. */
  predicate PaymentsAreWhole(payments: seq<Payment>) {
    && (forall i :: 0 <= i < |payments| ==> PaymentIsWhole(payments[i]))
    && (forall i, j :: 0 <= i < j < |payments| && PaymentIsWhole(payments[i]) && PaymentIsWhole(payments[j]) ==>
          payments[i].loanAccount != payments[j].loanAccount
          || RequiredDate(payments[i].checkDate) != RequiredDate(payments[j].checkDate)
          || CentsOf(payments[i].amount) != CentsOf(payments[j].amount))
  }

  ghost predicate IsWhole(c: Capture) {
    && c.connection >= 1 && Trim(c.companyId) != "" && Trim(c.account) != "" && RequiredDate(c.snapshotDate).Some?
    && OverviewIsWhole(c) && LoansAreWhole(c.loans) && DetailsAreWhole(c) && PaymentsAreWhole(c.payments)
  }

  lemma FiniteIs(numbers: seq<Number>)
    ensures NumbersAreFinite(numbers) <==> AllFinite(numbers)
  {
  }

  lemma DetailsIff(c: Capture)
    ensures DetailsAreWhole(c) <==>
              && c.detailFailures >= 0 && |c.details| + c.detailFailures == |c.loans|
              && (forall i :: 0 <= i < |c.details| ==> HasAccount(c.loans, c.details[i].account))
              && (forall i :: 0 <= i < |c.details| ==> DetailFinite(c.details[i]))
  {
    forall i | 0 <= i < |c.details|
      ensures DetailIsWhole(c.loans, c.details[i]) <==>
                HasAccount(c.loans, c.details[i].account) && DetailFinite(c.details[i])
    {
      DetailIff(c.loans, c.details[i]);
    }
    hide DetailIsWhole, HasAccount, DetailFinite;
  }

  lemma DetailIff(loans: seq<Loan>, d: Detail)
    ensures DetailIsWhole(loans, d) <==> HasAccount(loans, d.account) && DetailFinite(d)
  {
  }

  lemma LoansIff(loans: seq<Loan>)
    ensures LoansAreWhole(loans) <==>
              && (forall i :: 0 <= i < |loans| ==> Trim(loans[i].account) != "") && DistinctAccounts(loans)
              && (forall i :: 0 <= i < |loans| ==> AllFinite(loans[i].numbers))
  {
    hide Trim;
  }

  lemma PaymentsIff(payments: seq<Payment>)
    ensures PaymentsAreWhole(payments) <==>
              && (forall i :: 0 <= i < |payments| ==> Trim(payments[i].loanAccount) != "")
              && (forall i :: 0 <= i < |payments| ==> PaymentFinite(payments[i]))
              && AllDated(payments) && DistinctIds(payments)
  {
    hide Trim, RequiredDate, CentsOf;
    forall i | 0 <= i < |payments|
      ensures PaymentIsWhole(payments[i]) <==>
                Trim(payments[i].loanAccount) != "" && PaymentFinite(payments[i]) && Dated(payments[i])
    {
      FiniteIs(payments[i].parts);
    }
    if AllDated(payments) {
      forall i, j | 0 <= i < j < |payments|
        ensures IdOf(payments[i]) == IdOf(payments[j]) <==>
                  payments[i].loanAccount == payments[j].loanAccount
                  && RequiredDate(payments[i].checkDate) == RequiredDate(payments[j].checkDate)
                  && CentsOf(payments[i].amount) == CentsOf(payments[j].amount)
      {
        SameIdIff(payments[i], payments[j]);
      }
      hide IdOf, Dated, PaymentFinite;
    }
  }

  lemma SameIdIff(p: Payment, q: Payment)
    requires Dated(p) && Dated(q)
    ensures IdOf(p) == IdOf(q) <==>
              p.loanAccount == q.loanAccount && RequiredDate(p.checkDate) == RequiredDate(q.checkDate)
              && CentsOf(p.amount) == CentsOf(q.amount)
  {
    ExternalIdIsInjective(p, q);
    hide IdOf, RequiredDate, CentsOf;
  }

  /** A capture is accepted exactly if it is whole. */
  lemma AcceptedIffWhole(c: Capture)
    ensures ValidCapture(c) <==> IsWhole(c)
  {
    FiniteIs(c.overview.numbers);
    LoansIff(c.loans);
    DetailsIff(c);
    PaymentsIff(c.payments);
    hide Trim, RequiredDate, AllFinite, NumbersAreFinite, LoansAreWhole, DetailsAreWhole, PaymentsAreWhole, AllDated,
         DistinctAccounts, HasAccount, DetailFinite, PaymentFinite, DistinctIds;
  }

  /** Cents are the hundredths, but for the one value beyond 64 bits. */
  lemma CentsAre(hundredths: int)
    ensures CentsOf(Finite(hundredths))
            == if hundredths == 9223372036854775808 then 9223372036854775807 else hundredths
  {
  }

  /** The external id of a payment, as it is on record. */
  lemma IdTexts(p: Payment)
    requires Dated(p) && CentsOf(p.amount) >= 0
    ensures IdOf(p) == "history:" + p.loanAccount + ":" + RequiredDate(p.checkDate).value + ":"
                       + Decimal(CentsOf(p.amount))
  {
    hide RequiredDate, Decimal, CentsOf;
  }
}
