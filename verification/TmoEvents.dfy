/** What the history event of a captured payment shows, told from the payment. */
module TmoEvents {
  import opened Wrappers
  import opened Calendar
  import opened Text
  import opened DateText
  import opened TmoTables
  import opened TmoSafety

  /** "print" in any case, from position `i` on. */
  predicate PrintAt(s: string, i: nat) {
    && i + 5 <= |s|
    && s[i] in {'p', 'P'} && s[i + 1] in {'r', 'R'} && s[i + 2] in {'i', 'I'} && s[i + 3] in {'n', 'N'}
    && s[i + 4] in {'t', 'T'}
  }

  ghost predicate SaysPrint(s: string) { exists i: nat :: PrintAt(s, i) }

  /** A check was issued: its number is neither blank nor still to be printed. */
  ghost predicate IsIssued(checkNumber: string) { Trim(checkNumber) != "" && !SaysPrint(Trim(checkNumber)) }

  lemma LowersTo(c: char, lower: char, upper: char)
    requires 'a' <= lower <= 'z' && upper as int == lower as int - 32
    ensures Lower(c) == lower <==> c in {lower, upper}
  {
  }

  lemma StartsWithPrint(s: string)
    ensures |s| >= 5 && LowerAll(s)[..5] == "print" <==> PrintAt(s, 0)
  {
    if |s| >= 5 {
      var l := LowerAll(s)[..5];
      LowersTo(s[0], 'p', 'P');
      LowersTo(s[1], 'r', 'R');
      LowersTo(s[2], 'i', 'I');
      LowersTo(s[3], 'n', 'N');
      LowersTo(s[4], 't', 'T');
      hide Lower;
      assert l[0] == Lower(s[0]) && l[1] == Lower(s[1]) && l[2] == Lower(s[2]) && l[3] == Lower(s[3])
        && l[4] == Lower(s[4]);
      assert l == "print" <==> l[0] == 'p' && l[1] == 'r' && l[2] == 'i' && l[3] == 'n' && l[4] == 't';
    }
  }

  lemma {:induction false} ContainsIsSays(s: string)
    ensures Contains(LowerAll(s), "print") <==> SaysPrint(s)
  {
    hide PrintAt;
    if |s| < 5 {
      NoRoomForPrint(s);
    } else {
      StartsWithPrint(s);
      ContainsIsSays(s[1..]);
      LowerRest(s);
      PrintMoves(s);
    }
  }

  lemma NoRoomForPrint(s: string)
    requires |s| < 5
    ensures !SaysPrint(s)
  {
  }

  lemma LowerRest(s: string)
    requires s != ""
    ensures LowerAll(s)[1..] == LowerAll(s[1..])
  {
    hide Lower;
  }

  lemma PrintMoves(s: string)
    requires s != ""
    ensures SaysPrint(s) <==> PrintAt(s, 0) || SaysPrint(s[1..])
  {
    if SaysPrint(s) && !PrintAt(s, 0) {
      var i: nat :| PrintAt(s, i);
      assert PrintAt(s[1..], i - 1);
    }
    if SaysPrint(s[1..]) {
      var i: nat :| PrintAt(s[1..], i);
      assert PrintAt(s, i + 1);
    }
  }

  lemma IssuedIff(checkNumber: string)
    ensures NormalizeCheckNumber(checkNumber).Some? <==> IsIssued(checkNumber)
    ensures NormalizeCheckNumber(checkNumber).Some? ==> NormalizeCheckNumber(checkNumber).value == Trim(checkNumber)
  {
    hide Trim, LowerAll, Contains;
    ContainsIsSays(Trim(checkNumber));
  }

  /** The event of a payment: its date, its amount without sign, and its title;
      received, with what happened, exactly if its check was issued. */
  ghost predicate ShowsPayment(e: EventRow, p: Payment)
    requires Dated(p) && p.amount.Finite?
  {
    var magnitude := if p.amount.hundredths < 0 then -p.amount.hundredths else p.amount.hundredths;
    && e.imported.date == CheckDate(p) && e.imported.amount == magnitude
    && e.imported.title == p.borrowerName + " - " + p.propertyName
    && (if IsIssued(p.checkNumber)
        then e.imported.status == Received && e.imported.actual == Some((CheckDate(p), magnitude))
        else e.imported.status == Confirmed && e.imported.actual == None)
  }

  lemma ImportedShows(p: Payment, e: EventRow)
    requires Dated(p) && p.amount.Finite? && e.imported == ImportedOf(p)
    ensures ShowsPayment(e, p)
  {
    IssuedIff(p.checkNumber);
    hide Dated, NormalizeCheckNumber, IsIssued;
  }

  /** After a replacement the event of every captured payment shows it, and its
      row has the check number if one was issued. */
  lemma EventsShowPayments(t: Tables, connection: int, stream: int, payments: seq<Payment>, i: nat)
    requires TablesOk(t) && AllDated(payments) && DistinctIds(payments) && i < |payments|
    requires payments[i].amount.Finite?
    ensures var t', p := ReplacePayments(t, connection, stream, payments), payments[i];
            && PaymentKey(connection, IdOf(p)) in t'.payments && EventKey(stream, TmoHistory, IdOf(p)) in t'.events
            && ShowsPayment(t'.events[EventKey(stream, TmoHistory, IdOf(p))], p)
            && t'.payments[PaymentKey(connection, IdOf(p))].checkNumber
               == (if IsIssued(p.checkNumber) then Some(Trim(p.checkNumber)) else None)
  {
    ReplacingIsReplacement(t, connection, stream, payments);
    IssuedIff(payments[i].checkNumber);
    hide TablesOk, ReplacePayments, ShowsPayment, IdOf, Dated, ImportedOf, NormalizeCheckNumber, IsIssued, Linked;
    var t', p := ReplacePayments(t, connection, stream, payments), payments[i];
    assert Written(t', connection, stream, p);
    ImportedShows(p, t'.events[EventKey(stream, TmoHistory, IdOf(p))]);
  }

  // ---- dates ----

  lemma {:induction false} BeforeTOf(front: string, back: string)
    requires 'T' !in front && (back == "" || back[0] == 'T')
    ensures BeforeT(front + back) == front
  {
    if front == "" {
      assert front + back == back;
    } else {
      assert (front + back)[1..] == front[1..] + back && front == [front[0]] + front[1..];
      BeforeTOf(front[1..], back);
    }
  }

  lemma PrintedHasNoT(date: IsoDate)
    ensures 'T' !in PrintDate(date) && PrintDate(date) != "" && Trim(PrintDate(date)) == PrintDate(date)
  {
    var s := PrintDate(date);
    PrintThenParse(date);
    assert HasDateShape(s);
    TrimmedIsFixed(s);
    hide Trim;
  }

  /** A stored date is read as it is, and a time after it is dropped. */
  lemma DateIsRead(date: IsoDate, time: string)
    requires time == "" || time[0] == 'T'
    ensures RequiredDate(PrintDate(date) + time) == Some(PrintDate(date))
  {
    PrintedHasNoT(date);
    BeforeTOf(PrintDate(date), time);
    PrintThenParse(date);
    hide Trim, BeforeT, PrintDate, ParseDate;
  }

  // ---- one payment of each kind ----

  /** 500.00 paid out on a date, under a check number. */
  function Paid(checkNumber: string, date: IsoDate): Payment {
    Payment("L1", "Ada", "Main St", checkNumber, PrintDate(date), Finite(-50000), [])
  }

  lemma PaidIsDated(checkNumber: string, date: IsoDate)
    ensures Dated(Paid(checkNumber, date)) && CheckDate(Paid(checkNumber, date)) == PrintDate(date)
  {
    assert PrintDate(date) + "" == PrintDate(date);
    DateIsRead(date, "");
    hide RequiredDate, PrintDate;
  }

  lemma OnePaymentShows(t: Tables, connection: int, stream: int, p: Payment)
    requires TablesOk(t) && Dated(p) && p.amount.Finite?
    ensures AllDated([p])
    ensures var t', k := ReplacePayments(t, connection, stream, [p]), EventKey(stream, TmoHistory, IdOf(p));
            k in t'.events && ShowsPayment(t'.events[k], p)
  {
    hide Dated, IdOf, ReplacePayments, TablesOk, ShowsPayment;
    assert [p][0] == p;
    EventsShowPayments(t, connection, stream, [p], 0);
  }

  /** Check 1043 of 500.00: received on its date. */
  lemma IssuedCheckIsReceived(t: Tables, connection: int, stream: int, date: IsoDate)
    requires TablesOk(t)
    ensures var p := Paid("1043", date);
            && AllDated([p]) && Dated(p)
            && var t', k := ReplacePayments(t, connection, stream, [p]), EventKey(stream, TmoHistory, IdOf(p));
               && k in t'.events && t'.events[k].imported.status == Received
               && t'.events[k].imported.actual == Some((PrintDate(date), 50000))
  {
    PaidIsDated("1043", date);
    OnePaymentShows(t, connection, stream, Paid("1043", date));
    TrimmedIsFixed("1043");
    NoRoomForPrint("1043");
    hide Dated, Trim, SaysPrint, IdOf, ReplacePayments, TablesOk, PrintDate, CheckDate;
  }

  /** A check still to be printed: confirmed, and nothing has happened. */
  lemma UnprintedCheckIsConfirmed(t: Tables, connection: int, stream: int, date: IsoDate)
    requires TablesOk(t)
    ensures var p := Paid("To PRINT", date);
            && AllDated([p]) && Dated(p)
            && var t', k := ReplacePayments(t, connection, stream, [p]), EventKey(stream, TmoHistory, IdOf(p));
               && k in t'.events && t'.events[k].imported.status == Confirmed
               && t'.events[k].imported.actual == None && t'.events[k].imported.amount == 50000
  {
    PaidIsDated("To PRINT", date);
    OnePaymentShows(t, connection, stream, Paid("To PRINT", date));
    UnprintedIsNotIssued();
    hide Dated, IsIssued, IdOf, ReplacePayments, TablesOk, PrintDate, CheckDate;
  }

  lemma UnprintedIsNotIssued()
    ensures !IsIssued("To PRINT")
  {
    TrimmedIsFixed("To PRINT");
    assert PrintAt("To PRINT", 3);
    hide Trim;
  }
}
