/** Replacing a snapshot is set replacement: afterwards the connection has
    exactly the captured payments, loans and events. */
module TmoSafety {
  import opened Text
  import opened DateText
  import opened TmoTables

  // ---- identities ----

  lemma LastSeparator(a: string, sep: char, rest: string)
    requires sep !in rest
    ensures var s := a + [sep] + rest;
            s[|a|] == sep && s[..|a|] == a && s[|a| + 1..] == rest && forall k :: |a| < k < |s| ==> s[k] != sep
  {
    var s := a + [sep] + rest;
    forall k | |a| < k < |s| ensures s[k] != sep { assert s[k] == rest[k - |a| - 1]; }
  }

  lemma SplitsAtLast(a: string, b: string, sep: char, restA: string, restB: string)
    requires a + [sep] + restA == b + [sep] + restB && sep !in restA && sep !in restB
    ensures a == b && restA == restB
  {
    LastSeparator(a, sep, restA);
    LastSeparator(b, sep, restB);
  }

  lemma SignOfCents(n: int)
    ensures Cents(n)[0] == '-' <==> n < 0
    ensures n < 0 ==> Cents(n)[1..] == Decimal(-n)
    ensures ':' !in Cents(n)
  {
  }

  lemma CentsIsInjective(n: int, m: int)
    ensures Cents(n) == Cents(m) <==> n == m
  {
    SignOfCents(n);
    SignOfCents(m);
    if Cents(n) == Cents(m) {
      if n < 0 { DecimalIsInjective(-n, -m); } else { DecimalIsInjective(n, m); }
    }
  }

  lemma DateHasNoColon(p: Payment)
    requires Dated(p)
    ensures ':' !in CheckDate(p)
  {
    assert HasDateShape(CheckDate(p));
  }

  /** The external id is the loan, the date and the amount, whatever characters
      the loan account has. */
  lemma ExternalIdIsInjective(p: Payment, q: Payment)
    requires Dated(p) && Dated(q)
    ensures IdOf(p) == IdOf(q) <==>
              p.loanAccount == q.loanAccount && CheckDate(p) == CheckDate(q) && CentsOf(p.amount) == CentsOf(q.amount)
  {
    if IdOf(p) == IdOf(q) {
      DateHasNoColon(p);
      DateHasNoColon(q);
      var m, n := CentsOf(p.amount), CentsOf(q.amount);
      CentsIsInjective(m, n);
      SignOfCents(m);
      SignOfCents(n);
      hide Cents, CheckDate, Dated;
      SplitsAtLast("history:" + p.loanAccount + ":" + CheckDate(p), "history:" + q.loanAccount + ":" + CheckDate(q),
                   ':', Cents(m), Cents(n));
      SplitsAtLast("history:" + p.loanAccount, "history:" + q.loanAccount, ':', CheckDate(p), CheckDate(q));
      assert p.loanAccount == ("history:" + p.loanAccount)[8..] && q.loanAccount == ("history:" + q.loanAccount)[8..];
    }
  }

  // ---- the invariant of the tables ----

  ghost predicate IdsOk(t: Tables) {
    && (forall k :: k in t.payments ==> t.payments[k].id < t.nextPayment)
    && (forall j, k :: j in t.payments && k in t.payments && t.payments[j].id == t.payments[k].id ==> j == k)
    && (forall e :: e in t.events ==> t.events[e].id < t.nextEvent)
    && (forall d, e :: d in t.events && e in t.events && t.events[d].id == t.events[e].id ==> d == e)
  }

  /** Foreign keys hold. */
  ghost predicate LinksOk(t: Tables) {
    forall p :: p in t.links ==>
      && (exists k :: k in t.payments && t.payments[k].id == p)
      && (exists e :: e in t.events && t.events[e].id == t.links[p])
  }

  /** A link joins a payment to the history event of the same identity. */
  ghost predicate LinksJoinEqualIds(t: Tables) {
    forall k, e :: Linked(t, k, e) ==> e.source == TmoHistory && e.sourceId == k.externalId
  }

  ghost predicate TablesOk(t: Tables) { IdsOk(t) && LinksOk(t) && LinksJoinEqualIds(t) }

  // ---- marking ----

  lemma MarkStaleKeeps(t: Tables, connection: int)
    requires TablesOk(t)
    ensures TablesOk(MarkStale(t, connection))
  {
    var t' := MarkStale(t, connection);
    assert forall k :: k in t'.payments ==> t'.payments[k].id == t.payments[k].id;
    forall p | p in t'.links ensures exists k :: k in t'.payments && t'.payments[k].id == p {
      var k :| k in t.payments && t.payments[k].id == p;
      assert k in t'.payments && t'.payments[k].id == p;
    }
    forall k, e | Linked(t', k, e) ensures e.source == TmoHistory && e.sourceId == k.externalId {
      assert Linked(t, k, e);
    }
  }

  // ---- upserting ----

  predicate Captured(payments: seq<Payment>, externalId: string)
    requires AllDated(payments)
  {
    exists i :: 0 <= i < |payments| && IdOf(payments[i]) == externalId
  }

  /** Rows keep their ids and unwritten columns; only captured ones are written. */
  ghost predicate PaymentsUpserted(t: Tables, t': Tables, connection: int, payments: seq<Payment>)
    requires AllDated(payments)
  {
    && t.nextPayment <= t'.nextPayment && t'.loans == t.loans && t'.nextLoan == t.nextLoan
    && (forall k :: k in t.payments ==> k in t'.payments && t'.payments[k].id == t.payments[k].id)
    && (forall k :: k in t'.payments && !(k.connection == connection && Captured(payments, k.externalId)) ==>
          k in t.payments && t'.payments[k] == t.payments[k])
    && (forall k :: k in t'.payments && k !in t.payments ==> t'.payments[k].id >= t.nextPayment)
  }

  ghost predicate EventsUpserted(t: Tables, t': Tables, stream: int, payments: seq<Payment>)
    requires AllDated(payments)
  {
    && t.nextEvent <= t'.nextEvent
    && (forall e :: e in t.events ==>
          e in t'.events && t'.events[e].id == t.events[e].id && t'.events[e].kept == t.events[e].kept)
    && (forall e ::
          e in t'.events && !(e.stream == stream && e.source == TmoHistory && Captured(payments, e.sourceId)) ==>
          e in t.events && t'.events[e] == t.events[e])
    && (forall e :: e in t'.events && e !in t.events ==> t'.events[e].id >= t.nextEvent && t'.events[e].kept == "")
  }

  ghost predicate OtherLinksSame(t: Tables, t': Tables, connection: int, payments: seq<Payment>)
    requires AllDated(payments)
  {
    forall k: PaymentKey, e: EventKey :: !(k.connection == connection && Captured(payments, k.externalId)) ==>
      (Linked(t', k, e) <==> Linked(t, k, e))
  }

  ghost predicate AllWritten(t: Tables, connection: int, stream: int, payments: seq<Payment>)
    requires AllDated(payments)
  {
    forall i :: 0 <= i < |payments| ==> Written(t, connection, stream, payments[i])
  }

  /** What upserting a list of payments has done so far. */
  ghost predicate Upserted(t: Tables, t': Tables, connection: int, stream: int, payments: seq<Payment>)
    requires AllDated(payments)
  {
    PaymentsUpserted(t, t', connection, payments) && EventsUpserted(t, t', stream, payments)
    && OtherLinksSame(t, t', connection, payments) && AllWritten(t', connection, stream, payments)
  }

  ghost predicate Written(t: Tables, connection: int, stream: int, p: Payment)
    requires Dated(p)
  {
    var k, e := PaymentKey(connection, IdOf(p)), EventKey(stream, TmoHistory, IdOf(p));
    && k in t.payments && !t.payments[k].stale && t.payments[k].payment == p
    && t.payments[k].checkNumber == NormalizeCheckNumber(p.checkNumber)
    && e in t.events && t.events[e].imported == ImportedOf(p) && Linked(t, k, e)
  }

  lemma UpsertPaymentKeepsIds(t: Tables, connection: int, stream: int, p: Payment)
    requires Dated(p) && IdsOk(t) && LinksOk(t)
    ensures IdsOk(UpsertPayment(t, connection, stream, p)) && LinksOk(UpsertPayment(t, connection, stream, p))
  {
    hide Dated, IdOf, NormalizeCheckNumber, ImportedOf;
    var t' := UpsertPayment(t, connection, stream, p);
    var pk, ek := PaymentKey(connection, IdOf(p)), EventKey(stream, TmoHistory, IdOf(p));
    forall q | q in t'.links
      ensures exists k :: k in t'.payments && t'.payments[k].id == q
      ensures exists e :: e in t'.events && t'.events[e].id == t'.links[q]
    {
      if q == t'.payments[pk].id {
        assert ek in t'.events && t'.events[ek].id == t'.links[q];
      } else {
        var k :| k in t.payments && t.payments[k].id == q;
        assert k in t'.payments && t'.payments[k].id == q;
        var e :| e in t.events && t.events[e].id == t.links[q];
        assert e in t'.events && t'.events[e].id == t'.links[q];
      }
    }
  }

  /** The links of other payments are not touched. */
  lemma UpsertPaymentLinks(t: Tables, connection: int, stream: int, p: Payment, k: PaymentKey, e: EventKey)
    requires Dated(p) && IdsOk(t) && LinksOk(t)
    ensures var t' := UpsertPayment(t, connection, stream, p);
            Linked(t', k, e) <==>
              if k == PaymentKey(connection, IdOf(p)) then e == EventKey(stream, TmoHistory, IdOf(p))
              else Linked(t, k, e)
  {
    hide Dated, IdOf, NormalizeCheckNumber, ImportedOf;
    var t' := UpsertPayment(t, connection, stream, p);
    UpsertPaymentKeepsIds(t, connection, stream, p);
    var pk, ek := PaymentKey(connection, IdOf(p)), EventKey(stream, TmoHistory, IdOf(p));
    assert Linked(t', pk, ek);
  }

  lemma UpsertPaymentKeeps(t: Tables, connection: int, stream: int, p: Payment)
    requires Dated(p) && TablesOk(t)
    ensures TablesOk(UpsertPayment(t, connection, stream, p))
  {
    UpsertPaymentKeepsIds(t, connection, stream, p);
    forall k, e | Linked(UpsertPayment(t, connection, stream, p), k, e)
      ensures e.source == TmoHistory && e.sourceId == k.externalId
    {
      UpsertPaymentLinks(t, connection, stream, p, k, e);
    }
  }

  // ---- upserting them all ----

  lemma NothingUpserted(t: Tables, connection: int, stream: int)
    ensures Upserted(t, t, connection, stream, [])
  {
  }

  /** A payment written earlier stays written when one of another identity is
      upserted. */
  lemma WrittenStays(t: Tables, connection: int, stream: int, p: Payment, q: Payment)
    requires Dated(p) && Dated(q) && TablesOk(t) && Written(t, connection, stream, p) && IdOf(p) != IdOf(q)
    ensures Written(UpsertPayment(t, connection, stream, q), connection, stream, p)
  {
    var pk, ek := PaymentKey(connection, IdOf(p)), EventKey(stream, TmoHistory, IdOf(p));
    UpsertPaymentLinks(t, connection, stream, q, pk, ek);
    hide Dated, IdOf, NormalizeCheckNumber, ImportedOf, TablesOk;
  }

  lemma UpsertWrites(t: Tables, connection: int, stream: int, p: Payment)
    requires Dated(p) && TablesOk(t)
    ensures Written(UpsertPayment(t, connection, stream, p), connection, stream, p)
  {
    hide Dated, IdOf, NormalizeCheckNumber, ImportedOf, TablesOk;
  }

  predicate IsLast(payments: seq<Payment>, externalId: string)
    requires AllDated(payments) && payments != []
  {
    externalId == IdOf(payments[|payments| - 1])
  }

  lemma CapturedSplits(payments: seq<Payment>, externalId: string)
    requires AllDated(payments) && payments != []
    ensures AllDated(payments[..|payments| - 1])
    ensures Captured(payments, externalId) <==>
              Captured(payments[..|payments| - 1], externalId) || IsLast(payments, externalId)
  {
    hide IdOf, Dated;
    var n, before := |payments| - 1, payments[..|payments| - 1];
    if Captured(before, externalId) {
      var i :| 0 <= i < n && IdOf(before[i]) == externalId;
      assert IdOf(payments[i]) == externalId;
    }
    if Captured(payments, externalId) && !IsLast(payments, externalId) {
      var i :| 0 <= i <= n && IdOf(payments[i]) == externalId;
      assert IdOf(before[i]) == externalId;
    }
  }

  lemma OneMorePayment(
    t: Tables, t1: Tables, connection: int, stream: int, payments: seq<Payment>, before: seq<Payment>, p: Payment)
    requires AllDated(payments) && AllDated(before) && Dated(p)
    requires forall id :: Captured(payments, id) <==> Captured(before, id) || id == IdOf(p)
    requires PaymentsUpserted(t, t1, connection, before)
    ensures PaymentsUpserted(t, UpsertPayment(t1, connection, stream, p), connection, payments)
  {
    hide IdOf, Dated, AllDated, Captured, NormalizeCheckNumber, ImportedOf;
  }

  lemma OneMoreEvent(
    t: Tables, t1: Tables, connection: int, stream: int, payments: seq<Payment>, before: seq<Payment>, p: Payment)
    requires AllDated(payments) && AllDated(before) && Dated(p)
    requires forall id :: Captured(payments, id) <==> Captured(before, id) || id == IdOf(p)
    requires EventsUpserted(t, t1, stream, before)
    ensures EventsUpserted(t, UpsertPayment(t1, connection, stream, p), stream, payments)
  {
    hide IdOf, Dated, AllDated, Captured, NormalizeCheckNumber, ImportedOf;
  }

  lemma OneMoreLink(
    t: Tables, t1: Tables, connection: int, stream: int, payments: seq<Payment>, before: seq<Payment>, p: Payment)
    requires AllDated(payments) && AllDated(before) && Dated(p) && IdsOk(t1) && LinksOk(t1)
    requires forall id :: Captured(payments, id) <==> Captured(before, id) || id == IdOf(p)
    requires OtherLinksSame(t, t1, connection, before)
    ensures OtherLinksSame(t, UpsertPayment(t1, connection, stream, p), connection, payments)
  {
    hide IdOf, Dated, AllDated, Captured, IdsOk, LinksOk, UpsertPayment, Linked;
    var t2 := UpsertPayment(t1, connection, stream, p);
    forall k: PaymentKey, e: EventKey | !(k.connection == connection && Captured(payments, k.externalId))
      ensures Linked(t2, k, e) <==> Linked(t, k, e)
    {
      UpsertPaymentLinks(t1, connection, stream, p, k, e);
    }
  }

  lemma OneMoreWritten(t1: Tables, connection: int, stream: int, payments: seq<Payment>)
    requires AllDated(payments) && DistinctIds(payments) && payments != [] && TablesOk(t1)
    requires AllDated(payments[..|payments| - 1]) && AllWritten(t1, connection, stream, payments[..|payments| - 1])
    requires Dated(payments[|payments| - 1])
    ensures AllWritten(UpsertPayment(t1, connection, stream, payments[|payments| - 1]), connection, stream, payments)
  {
    hide IdOf, Dated, TablesOk, UpsertPayment, Written;
    var n, before := |payments| - 1, payments[..|payments| - 1];
    var t2 := UpsertPayment(t1, connection, stream, payments[n]);
    forall i | 0 <= i < |payments| ensures Dated(payments[i]) && Written(t2, connection, stream, payments[i]) {
      if i < n {
        assert payments[i] == before[i] && IdOf(payments[i]) != IdOf(payments[n]);
        WrittenStays(t1, connection, stream, payments[i], payments[n]);
      } else {
        UpsertWrites(t1, connection, stream, payments[n]);
      }
    }
  }

  lemma UpsertOneMore(t: Tables, t1: Tables, connection: int, stream: int, payments: seq<Payment>)
    requires AllDated(payments) && DistinctIds(payments) && payments != [] && TablesOk(t1)
    requires AllDated(payments[..|payments| - 1]) && Dated(payments[|payments| - 1])
    requires Upserted(t, t1, connection, stream, payments[..|payments| - 1])
    ensures Upserted(t, UpsertPayment(t1, connection, stream, payments[|payments| - 1]), connection, stream, payments)
  {
    hide IdOf, Dated, Captured, UpsertPayment, PaymentsUpserted, EventsUpserted, OtherLinksSame, AllWritten, IdsOk,
         LinksOk, LinksJoinEqualIds, DistinctIds, AllDated;
    var before, p := payments[..|payments| - 1], payments[|payments| - 1];
    forall id | true ensures Captured(payments, id) <==> Captured(before, id) || id == IdOf(p) {
      CapturedSplits(payments, id);
    }
    OneMorePayment(t, t1, connection, stream, payments, before, p);
    OneMoreEvent(t, t1, connection, stream, payments, before, p);
    OneMoreLink(t, t1, connection, stream, payments, before, p);
    OneMoreWritten(t1, connection, stream, payments);
  }

  lemma {:induction false} UpsertsKeep(t: Tables, connection: int, stream: int, payments: seq<Payment>)
    requires AllDated(payments) && DistinctIds(payments) && TablesOk(t)
    ensures var t' := UpsertPayments(t, connection, stream, payments);
            TablesOk(t') && Upserted(t, t', connection, stream, payments)
  {
    if payments == [] {
      NothingUpserted(t, connection, stream);
    } else {
      var before := payments[..|payments| - 1];
      assert AllDated(before) && DistinctIds(before);
      UpsertsKeep(t, connection, stream, before);
      var t1 := UpsertPayments(t, connection, stream, before);
      assert Dated(payments[|payments| - 1]);
      hide TablesOk, Upserted, UpsertPayment, IdOf, Dated;
      UpsertOneMore(t, t1, connection, stream, payments);
      UpsertPaymentKeeps(t1, connection, stream, payments[|payments| - 1]);
    }
  }

  // ---- deleting ----

  lemma DeletingEvents(t: Tables, doomed: set<EventKey>)
    requires IdsOk(t)
    ensures var t' := DeleteEvents(t, doomed);
            && IdsOk(t') && t'.payments == t.payments && t'.events == t.events - doomed
            && t'.(events := t.events, links := t.links) == t
            && forall k, e :: Linked(t', k, e) <==> Linked(t, k, e) && e !in doomed
  {
    var t' := DeleteEvents(t, doomed);
    forall k, e | Linked(t, k, e) && e !in doomed ensures Linked(t', k, e) {
      assert forall d :: d in doomed && d in t.events ==> t.events[d].id != t.events[e].id;
    }
  }

  lemma DeletingEventsKeeps(t: Tables, doomed: set<EventKey>)
    requires TablesOk(t)
    ensures TablesOk(DeleteEvents(t, doomed))
  {
    DeletingEvents(t, doomed);
    var t' := DeleteEvents(t, doomed);
    forall p | p in t'.links
      ensures exists k :: k in t'.payments && t'.payments[k].id == p
      ensures exists e :: e in t'.events && t'.events[e].id == t'.links[p]
    {
      var k :| k in t.payments && t.payments[k].id == p;
      assert k in t'.payments && t'.payments[k].id == p;
      var e :| e in t.events && t.events[e].id == t.links[p];
      assert e in t'.events && t'.events[e].id == t'.links[p];
    }
  }

  lemma DeletingPayments(t: Tables, doomed: set<PaymentKey>)
    requires IdsOk(t)
    ensures var t' := DeletePayments(t, doomed);
            && IdsOk(t') && t'.payments == t.payments - doomed && t'.events == t.events
            && t'.(payments := t.payments, links := t.links) == t
            && forall k, e :: Linked(t', k, e) <==> Linked(t, k, e) && k !in doomed
  {
    var t' := DeletePayments(t, doomed);
    forall k, e | Linked(t, k, e) && k !in doomed ensures Linked(t', k, e) {
      assert forall d :: d in doomed && d in t.payments ==> t.payments[d].id != t.payments[k].id;
    }
  }

  lemma DeletingPaymentsKeeps(t: Tables, doomed: set<PaymentKey>)
    requires TablesOk(t)
    ensures TablesOk(DeletePayments(t, doomed))
  {
    DeletingPayments(t, doomed);
    var t' := DeletePayments(t, doomed);
    forall p | p in t'.links
      ensures exists k :: k in t'.payments && t'.payments[k].id == p
      ensures exists e :: e in t'.events && t'.events[e].id == t'.links[p]
    {
      var k :| k in t.payments && t.payments[k].id == p;
      assert k in t'.payments && t'.payments[k].id == p;
      var e :| e in t.events && t.events[e].id == t.links[p];
      assert e in t'.events && t'.events[e].id == t'.links[p];
    }
  }

  /** What the sweep removes. */
  predicate Swept(t: Tables, connection: int, stream: int, e: EventKey)
    requires e in t.events
  {
    || e in EventsOfStale(t, connection)
    || (e.stream == stream && e.source == TmoHistory
        && !exists k :: k in t.payments && k.connection == connection && !t.payments[k].stale && Linked(t, k, e))
    || (e.source == LegacySchedule && t.events[e].imported.status == Projected)
  }

  lemma SweepIs(t: Tables, connection: int, stream: int)
    requires TablesOk(t)
    ensures var t' := Sweep(t, connection, stream);
            && TablesOk(t') && t'.payments == t.payments - StalePayments(t, connection)
            && t'.(payments := t.payments, events := t.events, links := t.links) == t
            && (forall e :: e in t'.events <==> e in t.events && !Swept(t, connection, stream, e))
            && (forall e :: e in t'.events ==> t'.events[e] == t.events[e])
            && (forall k, e :: Linked(t', k, e) <==>
                  Linked(t, k, e) && k !in StalePayments(t, connection) && e in t'.events)
  {
    hide TablesOk, Linked, DeleteEvents, DeletePayments, EventsOfStale, Orphans, StalePayments, LegacyProjections,
         IdsOk, Swept;
    IdsOfTables(t);
    LinkedRowsExist(t);
    var stale := StalePayments(t, connection);
    var t1 := DeleteEvents(t, EventsOfStale(t, connection));
    DeletingEvents(t, EventsOfStale(t, connection));
    DeletingEventsKeeps(t, EventsOfStale(t, connection));
    StaleOfSame(t, t1, connection);
    var t2 := DeletePayments(t1, stale);
    DeletingPayments(t1, stale);
    DeletingPaymentsKeeps(t1, stale);
    var t3 := DeleteEvents(t2, Orphans(t2, connection, stream));
    DeletingEvents(t2, Orphans(t2, connection, stream));
    DeletingEventsKeeps(t2, Orphans(t2, connection, stream));
    DeletingEvents(t3, LegacyProjections(t3));
    DeletingEventsKeeps(t3, LegacyProjections(t3));
    forall e | e in t.events
      ensures Swept(t, connection, stream, e) <==>
                e in EventsOfStale(t, connection) || e in Orphans(t2, connection, stream) || e in LegacyProjections(t3)
    {
      SweptSplits(t, t2, t3, connection, stream, e);
    }
  }

  lemma StaleOfSame(t: Tables, t1: Tables, connection: int)
    requires t1.payments == t.payments
    ensures StalePayments(t1, connection) == StalePayments(t, connection)
  {
  }

  /** An event is swept by the first delete that finds it. */
  lemma SweptSplits(t: Tables, t2: Tables, t3: Tables, connection: int, stream: int, e: EventKey)
    requires e in t.events && t2.payments == t.payments - StalePayments(t, connection)
    requires t2.events == t.events - EventsOfStale(t, connection)
    requires t3.events == t2.events - Orphans(t2, connection, stream)
    requires forall k :: Linked(t2, k, e) <==>
               Linked(t, k, e) && e !in EventsOfStale(t, connection) && k !in StalePayments(t, connection)
    ensures Swept(t, connection, stream, e) <==>
              e in EventsOfStale(t, connection) || e in Orphans(t2, connection, stream) || e in LegacyProjections(t3)
  {
    hide Linked, EventsOfStale, StalePayments;
    if e !in EventsOfStale(t, connection) { OrphanIs(t, t2, connection, e); }
  }

  lemma LinkedRowsExist(t: Tables)
    ensures forall k, e :: Linked(t, k, e) ==> k in t.payments && e in t.events
  {
  }

  lemma IdsOfTables(t: Tables)
    requires TablesOk(t)
    ensures IdsOk(t)
  {
  }

  lemma OrphanIs(t: Tables, t2: Tables, connection: int, e: EventKey)
    requires t2.payments == t.payments - StalePayments(t, connection) && e !in EventsOfStale(t, connection)
    requires forall k :: Linked(t2, k, e) <==> Linked(t, k, e) && k !in StalePayments(t, connection)
    ensures (exists k :: k in t2.payments && k.connection == connection && Linked(t2, k, e)) <==>
            (exists k :: k in t.payments && k.connection == connection && !t.payments[k].stale && Linked(t, k, e))
  {
    hide Linked, EventsOfStale;
    if k :| k in t2.payments && k.connection == connection && Linked(t2, k, e) {
      assert k in t.payments && !t.payments[k].stale && Linked(t, k, e);
    }
    if k :| k in t.payments && k.connection == connection && !t.payments[k].stale && Linked(t, k, e) {
      assert k in t2.payments && Linked(t2, k, e);
    }
  }

  // ---- set replacement ----

  /** The event's payment is gone from the snapshot. */
  ghost predicate LostItsPayment(t: Tables, connection: int, payments: seq<Payment>, e: EventKey)
    requires AllDated(payments)
  {
    exists k: PaymentKey :: k.connection == connection && !Captured(payments, k.externalId) && Linked(t, k, e)
  }

  ghost predicate PaymentsReplaced(t: Tables, t': Tables, connection: int, payments: seq<Payment>)
    requires AllDated(payments)
  {
    && (forall k :: k in t'.payments <==>
          if k.connection == connection then Captured(payments, k.externalId) else k in t.payments)
    && (forall k :: k in t'.payments && k in t.payments ==> t'.payments[k].id == t.payments[k].id)
    && (forall k :: k in t'.payments && k !in t.payments ==> t'.payments[k].id >= t.nextPayment)
    && (forall k :: k in t'.payments && k.connection != connection ==> t'.payments[k] == t.payments[k])
  }

  ghost predicate EventsReplaced(t: Tables, t': Tables, connection: int, stream: int, payments: seq<Payment>)
    requires AllDated(payments)
  {
    && (forall id :: EventKey(stream, TmoHistory, id) in t'.events <==> Captured(payments, id))
    && (forall e :: e in t'.events && e in t.events ==>
          t'.events[e].id == t.events[e].id && t'.events[e].kept == t.events[e].kept)
    && (forall e :: e in t'.events && e !in t.events ==> t'.events[e].id >= t.nextEvent)
    && (forall e: EventKey :: e.stream != stream || e.source != TmoHistory ==>
          && (e in t'.events <==>
                e in t.events && !LostItsPayment(t, connection, payments, e)
                && !(e.source == LegacySchedule && t.events[e].imported.status == Projected))
          && (e in t'.events ==> t'.events[e] == t.events[e]))
  }

  lemma UpsertedStale(t: Tables, connection: int, stream: int, payments: seq<Payment>)
    requires AllDated(payments) && DistinctIds(payments) && TablesOk(t)
    ensures var t2 := UpsertPayments(MarkStale(t, connection), connection, stream, payments);
            && TablesOk(t2) && Upserted(MarkStale(t, connection), t2, connection, stream, payments)
            && (forall k :: k in t2.payments && k.connection == connection ==>
                  (t2.payments[k].stale <==> !Captured(payments, k.externalId)))
  {
    MarkStaleKeeps(t, connection);
    var t1 := MarkStale(t, connection);
    var t2 := UpsertPayments(t1, connection, stream, payments);
    UpsertsKeep(t1, connection, stream, payments);
    hide UpsertPayments, TablesOk, IdOf, Dated, NormalizeCheckNumber, ImportedOf, EventsUpserted, OtherLinksSame,
         Linked;
    forall k | k in t2.payments && k.connection == connection
      ensures t2.payments[k].stale <==> !Captured(payments, k.externalId)
    {
      if Captured(payments, k.externalId) {
        var i :| 0 <= i < |payments| && IdOf(payments[i]) == k.externalId;
        assert Written(t2, connection, stream, payments[i]);
      }
    }
  }

  lemma ReplacedPayments(t: Tables, t1: Tables, t2: Tables, t': Tables, connection: int, payments: seq<Payment>)
    requires AllDated(payments) && t1 == MarkStale(t, connection) && PaymentsUpserted(t1, t2, connection, payments)
    requires forall id :: Captured(payments, id) ==> PaymentKey(connection, id) in t2.payments
    requires forall k :: k in t2.payments && k.connection == connection ==>
               (t2.payments[k].stale <==> !Captured(payments, k.externalId))
    requires t'.payments == t2.payments - StalePayments(t2, connection)
    ensures PaymentsReplaced(t, t', connection, payments)
  {
    hide Captured, IdOf, Dated;
    forall k: PaymentKey | k.connection == connection ensures k in t'.payments <==> Captured(payments, k.externalId) {
      assert k == PaymentKey(connection, k.externalId);
    }
  }

  lemma CapturedAreWritten(t: Tables, connection: int, stream: int, payments: seq<Payment>, id: string)
    requires AllDated(payments) && AllWritten(t, connection, stream, payments) && Captured(payments, id)
    ensures PaymentKey(connection, id) in t.payments && !t.payments[PaymentKey(connection, id)].stale
    ensures EventKey(stream, TmoHistory, id) in t.events
    ensures Linked(t, PaymentKey(connection, id), EventKey(stream, TmoHistory, id))
  {
    hide IdOf, Dated, NormalizeCheckNumber, ImportedOf, Linked;
    var i :| 0 <= i < |payments| && IdOf(payments[i]) == id;
    assert Written(t, connection, stream, payments[i]);
  }

  /** Which events the sweep takes, in terms of the capture. */
  lemma SweptIs(t: Tables, t2: Tables, connection: int, stream: int, payments: seq<Payment>, e: EventKey)
    requires AllDated(payments) && TablesOk(t2) && AllWritten(t2, connection, stream, payments)
    requires OtherLinksSame(MarkStale(t, connection), t2, connection, payments)
    requires forall k :: k in t2.payments && k.connection == connection ==>
               (t2.payments[k].stale <==> !Captured(payments, k.externalId))
    requires e in t2.events
    ensures e.stream == stream && e.source == TmoHistory ==>
              (Swept(t2, connection, stream, e) <==> !Captured(payments, e.sourceId))
    ensures e.stream != stream || e.source != TmoHistory ==>
              (Swept(t2, connection, stream, e) <==>
                 LostItsPayment(t, connection, payments, e)
                 || (e.source == LegacySchedule && t2.events[e].imported.status == Projected))
  {
    hide Captured, IdOf, Dated, AllWritten, AllDated, IdsOk, LinksOk;
    assert forall k :: Linked(MarkStale(t, connection), k, e) <==> Linked(t, k, e) by { SameLinks(t, connection, e); }
    assert e in EventsOfStale(t2, connection) <==> LostItsPayment(t, connection, payments, e) by {
      hide LinksJoinEqualIds, MarkStale;
      LinkedRowsExist(t2);
      hide Linked;
      if e in EventsOfStale(t2, connection) {
        var k :| k in StalePayments(t2, connection) && Linked(t2, k, e);
        assert k.connection == connection && !Captured(payments, k.externalId) && Linked(t, k, e);
      }
      if LostItsPayment(t, connection, payments, e) {
        var k: PaymentKey :| k.connection == connection && !Captured(payments, k.externalId) && Linked(t, k, e);
        assert k in StalePayments(t2, connection) && Linked(t2, k, e);
      }
    }
    if e.stream == stream && e.source == TmoHistory {
      if Captured(payments, e.sourceId) {
        CapturedAreWritten(t2, connection, stream, payments, e.sourceId);
        assert e == EventKey(stream, TmoHistory, e.sourceId);
      }
    }
  }

  lemma SameLinks(t: Tables, connection: int, e: EventKey)
    ensures forall k :: Linked(MarkStale(t, connection), k, e) <==> Linked(t, k, e)
  {
  }

  lemma ReplacedEvents(
    t: Tables, t1: Tables, t2: Tables, t': Tables, connection: int, stream: int, payments: seq<Payment>)
    requires AllDated(payments) && t1 == MarkStale(t, connection) && TablesOk(t2)
    requires EventsUpserted(t1, t2, stream, payments) && AllWritten(t2, connection, stream, payments)
    requires OtherLinksSame(t1, t2, connection, payments)
    requires forall k :: k in t2.payments && k.connection == connection ==>
               (t2.payments[k].stale <==> !Captured(payments, k.externalId))
    requires forall e :: e in t'.events <==> e in t2.events && !Swept(t2, connection, stream, e)
    requires forall e :: e in t'.events ==> t'.events[e] == t2.events[e]
    ensures EventsReplaced(t, t', connection, stream, payments)
  {
    hide TablesOk, Swept, LostItsPayment, OtherLinksSame, Captured, IdOf, Dated, AllDated, AllWritten;
    forall e | e in t2.events
      ensures e.stream == stream && e.source == TmoHistory ==>
                (Swept(t2, connection, stream, e) <==> !Captured(payments, e.sourceId))
      ensures e.stream != stream || e.source != TmoHistory ==>
                (Swept(t2, connection, stream, e) <==>
                   LostItsPayment(t, connection, payments, e)
                   || (e.source == LegacySchedule && t2.events[e].imported.status == Projected))
    {
      SweptIs(t, t2, connection, stream, payments, e);
    }
    forall id | true ensures EventKey(stream, TmoHistory, id) in t'.events <==> Captured(payments, id) {
      if Captured(payments, id) { CapturedAreWritten(t2, connection, stream, payments, id); }
    }
  }

  lemma WrittenSurvives(t2: Tables, t': Tables, connection: int, stream: int, payments: seq<Payment>)
    requires AllDated(payments) && AllWritten(t2, connection, stream, payments)
    requires t'.payments == t2.payments - StalePayments(t2, connection)
    requires forall e :: e in t'.events ==> e in t2.events && t'.events[e] == t2.events[e]
    requires forall id :: Captured(payments, id) ==> EventKey(stream, TmoHistory, id) in t'.events
    requires forall k, e ::
               Linked(t', k, e) <==> Linked(t2, k, e) && k !in StalePayments(t2, connection) && e in t'.events
    ensures AllWritten(t', connection, stream, payments)
  {
    hide IdOf, Dated, Linked, NormalizeCheckNumber, ImportedOf;
    forall i | 0 <= i < |payments| ensures Dated(payments[i]) && Written(t', connection, stream, payments[i]) {
      assert Written(t2, connection, stream, payments[i]);
      assert Captured(payments, IdOf(payments[i]));
    }
  }

  /** After a sync the connection has exactly the captured payments and the
      stream exactly their events, one linked to each; rows that stay keep their
      ids and what users wrote; everything else is as it was, but for events
      that lost their payment and projections of the retired kind. */
  lemma ReplacingIsReplacement(t: Tables, connection: int, stream: int, payments: seq<Payment>)
    requires AllDated(payments) && DistinctIds(payments) && TablesOk(t)
    ensures var t' := ReplacePayments(t, connection, stream, payments);
            && TablesOk(t') && PaymentsReplaced(t, t', connection, payments)
            && EventsReplaced(t, t', connection, stream, payments) && AllWritten(t', connection, stream, payments)
            && t'.loans == t.loans && t'.nextLoan == t.nextLoan
  {
    hide IdOf, Dated, Linked, NormalizeCheckNumber, ImportedOf, TablesOk, Sweep, UpsertPayments, Swept, EventsUpserted,
         OtherLinksSame, AllDated, DistinctIds;
    var t1 := MarkStale(t, connection);
    var t2 := UpsertPayments(t1, connection, stream, payments);
    UpsertedStale(t, connection, stream, payments);
    SweepIs(t2, connection, stream);
    var t' := Sweep(t2, connection, stream);
    forall id | Captured(payments, id) ensures PaymentKey(connection, id) in t2.payments {
      CapturedAreWritten(t2, connection, stream, payments, id);
    }
    hide MarkStale, PaymentsUpserted, StalePayments, Captured, AllWritten;
    ReplacedPayments(t, t1, t2, t', connection, payments);
    ReplacedEvents(t, t1, t2, t', connection, stream, payments);
    assert forall id :: Captured(payments, id) ==> EventKey(stream, TmoHistory, id) in t'.events;
    WrittenSurvives(t2, t', connection, stream, payments);
    LoansOfMarked(t, t2, connection, payments);
  }

  lemma LoansOfMarked(t: Tables, t2: Tables, connection: int, payments: seq<Payment>)
    requires AllDated(payments) && PaymentsUpserted(MarkStale(t, connection), t2, connection, payments)
    ensures t2.loans == t.loans && t2.nextLoan == t.nextLoan
  {
  }

  /** One event a payment: among the connection's payments, an event of the
      stream is linked to exactly the one of its identity. */
  lemma OneEventAPayment(t: Tables, connection: int, stream: int, payments: seq<Payment>, id: string, k: PaymentKey)
    requires AllDated(payments) && DistinctIds(payments) && TablesOk(t) && Captured(payments, id)
             && k.connection == connection
    ensures Linked(ReplacePayments(t, connection, stream, payments), k, EventKey(stream, TmoHistory, id)) <==>
              k == PaymentKey(connection, id)
  {
    ReplacingIsReplacement(t, connection, stream, payments);
    var t' := ReplacePayments(t, connection, stream, payments);
    hide ReplacePayments, PaymentsReplaced, EventsReplaced, IdsOk, LinksOk, IdOf, Dated;
    CapturedAreWritten(t', connection, stream, payments, id);
    hide Captured, AllWritten, AllDated;
  }

  // ---- once is enough ----

  /** The tables already are the snapshot. */
  ghost predicate Settled(t: Tables, connection: int, stream: int, payments: seq<Payment>)
    requires AllDated(payments)
  {
    && AllWritten(t, connection, stream, payments)
    && (forall k :: k in t.payments && k.connection == connection ==> Captured(payments, k.externalId))
    && (forall e :: e in t.events && e.stream == stream && e.source == TmoHistory ==> Captured(payments, e.sourceId))
    && (forall e :: e in t.events && e.source == LegacySchedule ==> t.events[e].imported.status != Projected)
  }

  /** The payments of the connection are stale but for those of the prefix. */
  function HalfMarked(t: Tables, connection: int, prefix: seq<Payment>): Tables
    requires AllDated(prefix)
  {
    t.(payments := map k | k in t.payments ::
      if k.connection == connection && !Captured(prefix, k.externalId) then t.payments[k].(stale := true)
      else t.payments[k])
  }

  lemma UpsertOfWritten(t: Tables, connection: int, stream: int, prefix: seq<Payment>, before: seq<Payment>, p: Payment)
    requires Dated(p) && AllDated(prefix) && AllDated(before) && Written(t, connection, stream, p)
    requires forall id :: Captured(prefix, id) <==> Captured(before, id) || id == IdOf(p)
    ensures UpsertPayment(HalfMarked(t, connection, before), connection, stream, p) == HalfMarked(t, connection, prefix)
  {
    hide IdOf, Dated, NormalizeCheckNumber, ImportedOf, Captured, AllDated;
    var t1, t2 := HalfMarked(t, connection, before), HalfMarked(t, connection, prefix);
    var t' := UpsertPayment(t1, connection, stream, p);
    var pk, ek := PaymentKey(connection, IdOf(p)), EventKey(stream, TmoHistory, IdOf(p));
    assert t1.payments[pk].id == t.payments[pk].id;
    assert t'.payments[pk] == t.payments[pk];
    assert t'.payments == t2.payments;
    assert t'.events == t.events;
    assert t'.links == t.links;
  }

  lemma {:induction false} UpsertsOfWritten(t: Tables, connection: int, stream: int, payments: seq<Payment>)
    requires AllDated(payments) && AllWritten(t, connection, stream, payments)
    ensures UpsertPayments(MarkStale(t, connection), connection, stream, payments)
            == HalfMarked(t, connection, payments)
  {
    if payments == [] {
      assert MarkStale(t, connection).payments == HalfMarked(t, connection, payments).payments;
    } else {
      var before, p := payments[..|payments| - 1], payments[|payments| - 1];
      assert AllDated(before) && AllWritten(t, connection, stream, before) && Dated(p)
          && Written(t, connection, stream, p);
      UpsertsOfWritten(t, connection, stream, before);
      hide IdOf, Dated, Captured, HalfMarked, MarkStale, UpsertPayment, Written;
      forall id | true ensures Captured(payments, id) <==> Captured(before, id) || id == IdOf(p) {
        CapturedSplits(payments, id);
      }
      UpsertOfWritten(t, connection, stream, payments, before, p);
    }
  }

  lemma DeletingNothing(t: Tables)
    ensures DeleteEvents(t, {}) == t && DeletePayments(t, {}) == t
  {
    assert DeleteEvents(t, {}).links == t.links;
    assert DeletePayments(t, {}).links == t.links;
  }

  lemma SweepOfSettled(t: Tables, connection: int, stream: int, payments: seq<Payment>)
    requires AllDated(payments) && Settled(t, connection, stream, payments)
    ensures Sweep(t, connection, stream) == t
  {
    hide IdOf, Dated, NormalizeCheckNumber, ImportedOf, Linked, DeleteEvents, DeletePayments, AllDated;
    DeletingNothing(t);
    forall k | k in t.payments && k.connection == connection ensures !t.payments[k].stale {
      CapturedAreWritten(t, connection, stream, payments, k.externalId);
      assert k == PaymentKey(connection, k.externalId);
    }
    assert StalePayments(t, connection) == {};
    assert EventsOfStale(t, connection) == {};
    forall e | e in t.events && e.stream == stream && e.source == TmoHistory
      ensures exists k :: k in t.payments && k.connection == connection && Linked(t, k, e)
    {
      CapturedAreWritten(t, connection, stream, payments, e.sourceId);
      assert e == EventKey(stream, TmoHistory, e.sourceId);
    }
    assert Orphans(t, connection, stream) == {};
    assert LegacyProjections(t) == {};
  }

  lemma ReplacedIsSettled(t: Tables, t': Tables, connection: int, stream: int, payments: seq<Payment>)
    requires AllDated(payments) && PaymentsReplaced(t, t', connection, payments)
    requires EventsReplaced(t, t', connection, stream, payments) && AllWritten(t', connection, stream, payments)
    ensures Settled(t', connection, stream, payments)
  {
    hide IdOf, Dated, AllWritten, Captured, AllDated, LostItsPayment;
    forall e | e in t'.events && e.stream == stream && e.source == TmoHistory ensures Captured(payments, e.sourceId) {
      assert e == EventKey(stream, TmoHistory, e.sourceId);
    }
  }

  /** Applying the same snapshot again changes nothing at all. */
  lemma ReplacingIsIdempotent(t: Tables, connection: int, stream: int, payments: seq<Payment>)
    requires AllDated(payments) && DistinctIds(payments) && TablesOk(t)
    ensures var t' := ReplacePayments(t, connection, stream, payments);
            ReplacePayments(t', connection, stream, payments) == t'
  {
    ReplacingIsReplacement(t, connection, stream, payments);
    hide *;
    var t' := ReplacePayments(t, connection, stream, payments);
    ReplacedIsSettled(t, t', connection, stream, payments);
    SettledStays(t', connection, stream, payments);
  }

  lemma FullyMarked(t: Tables, connection: int, stream: int, payments: seq<Payment>)
    requires AllDated(payments) && Settled(t, connection, stream, payments)
    ensures HalfMarked(t, connection, payments) == t
  {
    hide Captured, AllWritten, AllDated;
    assert HalfMarked(t, connection, payments).payments == t.payments;
  }

  lemma ReplaceIs(t: Tables, connection: int, stream: int, payments: seq<Payment>)
    requires AllDated(payments)
    ensures ReplacePayments(t, connection, stream, payments)
            == Sweep(UpsertPayments(MarkStale(t, connection), connection, stream, payments), connection, stream)
  {
    hide Sweep, UpsertPayments, MarkStale, AllDated;
  }

  lemma SettledStays(t: Tables, connection: int, stream: int, payments: seq<Payment>)
    requires AllDated(payments) && Settled(t, connection, stream, payments)
    ensures ReplacePayments(t, connection, stream, payments) == t
  {
    assert AllWritten(t, connection, stream, payments);
    hide *;
    UpsertsOfWritten(t, connection, stream, payments);
    FullyMarked(t, connection, stream, payments);
    SweepOfSettled(t, connection, stream, payments);
    ReplaceIs(t, connection, stream, payments);
  }
}
