/** Stored emails have only stored attachments: exactly which deliveries keep
    that, over whole runs. */
module InboundWhole {
  import opened Wrappers
  import opened Text
  import opened ObjectStore
  import opened InboundTables
  import opened InboundProtocol
  import opened InboundInvariant
  import opened InboundStatements
  import opened InboundSafety
  import opened InboundTheorems

  // ---- stored emails are whole ----

  ghost predicate StoredIsWhole(t: Tables) {
    forall id :: HasEmail(t, id) && EmailAt(t, id).state == Processing.Stored ==> AllStored(t.attachments, id)
  }

  predicate StoredAlready(t: Tables, d: EmailDraft) {
    var found := FindEmail(t.emails, d.resendId);
    found > 0 && EmailAt(t, found).state == Processing.Stored
  }

  /** The draft lists no attachment that its already stored email lacks. */
  predicate ListsNothingNew(t: Tables, d: EmailDraft) {
    StoredAlready(t, d) ==> Lists(t.attachments, FindEmail(t.emails, d.resendId), d.attachments, |d.attachments|)
  }

  lemma WholeStays(t: Tables, t': Tables)
    requires StoredIsWhole(t) && RowsKept(t, t') && |t'.attachments| == |t.attachments|
    requires forall id :: HasEmail(t', id) && EmailAt(t', id).state == Processing.Stored ==>
               (HasEmail(t, id) && EmailAt(t, id).state == Processing.Stored) || AllStored(t'.attachments, id)
    ensures StoredIsWhole(t')
  {
    forall id | HasEmail(t', id) && EmailAt(t', id).state == Processing.Stored ensures AllStored(t'.attachments, id) {
      if HasEmail(t, id) && EmailAt(t, id).state == Processing.Stored {
        assert AllStored(t.attachments, id);
        forall i | 0 <= i < |t.attachments| ensures AttachmentKept(t.attachments[i], t'.attachments[i]) {}
      }
    }
  }

  lemma MoveStoresWhole(s: System, i: nat, move: Move)
    requires i < |s.owners|
    ensures var t' := MoveOwner(s, i, move).tables;
            && |t'.attachments| == |s.tables.attachments| && |t'.emails| == |s.tables.emails|
            && forall id :: HasEmail(t', id) && EmailAt(t', id).state == Processing.Stored ==>
                 EmailAt(s.tables, id).state == Processing.Stored || AllStored(t'.attachments, id)
  {
    hide BodyKey, AttachmentKey, Matches, Puttable, ConfirmStored, ValidToken, ValidContentType, ValidPublicError,
         AllStored;
  }

  lemma ClaimOnStoresNothing(t: Tables, emailId: int, token: string, now: int)
    requires HasEmail(t, emailId) && !TokenInUse(t.leases, token)
    ensures var t' := ClaimOn(t, emailId, token, now).0;
            && |t'.attachments| == |t.attachments| && |t'.emails| == |t.emails|
            && (forall id :: HasEmail(t, id) ==>
                  (EmailAt(t', id).state == Processing.Stored <==> EmailAt(t, id).state == Processing.Stored))
            && (forall i :: 0 <= i < |t.attachments| ==>
                  t'.attachments[i].emailId == t.attachments[i].emailId
                  && (t'.attachments[i].state == Processing.Stored <==> t.attachments[i].state == Processing.Stored))
  {
    ClaimOnDecides(t, emailId, token, now);
    hide ClaimOn, AttachmentsOf;
  }

  lemma ClaimOnWholeIff(t: Tables, emailId: int, token: string, now: int)
    requires HasEmail(t, emailId) && !TokenInUse(t.leases, token)
    ensures StoredIsWhole(ClaimOn(t, emailId, token, now).0) <==> StoredIsWhole(t)
  {
    ClaimOnStoresNothing(t, emailId, token, now);
    hide ClaimOn;
    var t' := ClaimOn(t, emailId, token, now).0;
    forall id | HasEmail(t, id) ensures AllStored(t'.attachments, id) <==> AllStored(t.attachments, id) {}
    assert forall id :: HasEmail(t', id) <==> HasEmail(t, id);
    hide AllStored;
    if StoredIsWhole(t') {
      forall id | HasEmail(t, id) && EmailAt(t, id).state == Processing.Stored ensures AllStored(t.attachments, id) {
        assert HasEmail(t', id) && EmailAt(t', id).state == Processing.Stored;
      }
    }
    if StoredIsWhole(t) {
      forall id | HasEmail(t', id) && EmailAt(t', id).state == Processing.Stored ensures AllStored(t'.attachments, id) {
        assert HasEmail(t, id);
      }
    }
  }

  lemma AddedRowsWholeIff(t: Tables, d: EmailDraft, rows: seq<Attachment>)
    requires TablesOk(t) && ValidProviderId(d.resendId) && StoredIsWhole(t) && t.attachments <= rows
    requires forall i :: |t.attachments| <= i < |rows| ==>
               rows[i].emailId == EmailIdOf(t, d) && rows[i].state == Pending
    ensures StoredIsWhole(Inserted(t, d).(attachments := rows)) <==>
              (StoredAlready(t, d) ==> rows == t.attachments)
  {
    InsertedIsAlmostOk(t, d);
    hide IsWord, UniqueAttachments, UniqueEmails, UniqueTokens, ValidProviderId, RowsKept, BodiesKept, NothingRecorded;
    var t2, emailId := Inserted(t, d).(attachments := rows), EmailIdOf(t, d);
    if |rows| > |t.attachments| {
      assert rows[|t.attachments|].emailId == emailId;
      assert !AllStored(rows, emailId);
    } else {
      assert rows == t.attachments;
    }
    forall id | HasEmail(t, id) && id != emailId ensures AllStored(rows, id) <==> AllStored(t.attachments, id) {}
    forall id | HasEmail(t2, id) && EmailAt(t2, id).state == Processing.Stored
      ensures HasEmail(t, id) && EmailAt(t, id).state == Processing.Stored
    {}
  }

  /** Exactly when a delivery keeps stored emails whole. */
  lemma WebhookKeepsWholeIff(t: Tables, d: EmailDraft, token: string, now: int)
    requires TablesOk(t) && !TokenInUse(t.leases, token) && StoredIsWhole(t)
    requires ClaimWebhook(t, d, token, now).Success?
    ensures StoredIsWhole(ClaimWebhook(t, d, token, now).value.0) <==> ListsNothingNew(t, d)
  {
    WebhookIsClaim(t, d, token, now);
    var emailId := EmailIdOf(t, d);
    var rows := AddAttachments(t.attachments, emailId, d.attachments, |d.attachments|).value;
    AddAttachmentsAppends(t.attachments, emailId, d.attachments, |d.attachments|);
    AddAttachmentsLists(t.attachments, emailId, d.attachments, |d.attachments|);
    InsertedIsAlmostOk(t, d);
    AddedRowsWholeIff(t, d, rows);
    hide ClaimOn, TablesOk, StoredIsWhole, AddAttachments, ClaimWebhook, AlmostOk, RowsKept, NothingRecorded,
         BodiesKept, ValidProviderId, FindEmail, TokenInUse;
    ClaimOnWholeIff(Inserted(t, d).(attachments := rows), emailId, token, now);
  }

  /** The delivery is let in: its token is new and the tables take its draft. */
  predicate Accepted(s: System, a: Action): (accepted: bool)
    ensures accepted ==> a.Webhook?
  {
    a.Webhook? && a.token !in s.used && ClaimWebhook(s.tables, a.draft, a.token, a.now).Success?
  }

  /** Exactly when one action of anyone keeps stored emails whole. */
  lemma StepKeepsWholeIff(s: System, a: Action)
    requires Inv(s) && StoredIsWhole(s.tables)
    ensures StoredIsWhole(Step(s, a).tables) <==> (Accepted(s, a) ==> ListsNothingNew(s.tables, a.draft))
  {
    StepKeeps(s, a);
    assert TablesOk(s.tables);
    forall token | token !in s.used ensures !TokenInUse(s.tables.leases, token) { FreshTokenIsNotLeased(s, token); }
    hide Inv, TablesOk, StoredIsWhole, ListsNothingNew, MoveOwner, Bind, ClaimWebhook;
    match a
    case Webhook(draft, token, now) => if Accepted(s, a) { WebhookKeepsWholeIff(s.tables, draft, token, now); }
    case Retry(id, token, now) =>
      if token !in s.used && ClaimRetry(s.tables, id, token, now).Success? {
        ClaimOnWholeIff(s.tables, id, token, now);
      }
    case Arrive(key, blob) =>
    case Act(i, move) =>
      if i < |s.owners| {
        MoveStoresWhole(s, i, move);
        WholeStays(s.tables, Step(s, a).tables);
      }
  }

  // ---- over whole runs ----

  lemma NextState(actions: seq<Action>, n: nat)
    requires n < |actions|
    ensures After(actions[..n + 1]) == Step(After(actions[..n]), actions[n])
  {
    hide Step;
    assert actions[..n + 1][..n] == actions[..n];
  }

  /** In every state of the run, stored emails have only stored attachments. */
  ghost predicate WholeThroughout(actions: seq<Action>) {
    forall n :: 0 <= n <= |actions| ==> StoredIsWhole(After(actions[..n]).tables)
  }

  /** No delivery that is let in lists an attachment that its email, already
      stored when it comes, lacks. */
  ghost predicate NothingNewForStored(actions: seq<Action>) {
    forall n :: 0 <= n < |actions| && Accepted(After(actions[..n]), actions[n]) ==>
      ListsNothingNew(After(actions[..n]).tables, actions[n].draft)
  }

  lemma {:induction false} WholeUpTo(actions: seq<Action>, n: nat)
    requires NothingNewForStored(actions) && n <= |actions|
    ensures StoredIsWhole(After(actions[..n]).tables)
  {
    if n > 0 {
      WholeUpTo(actions, n - 1);
      Reachable(actions[..n - 1]);
      NextState(actions, n - 1);
      hide Inv, Step, After, StoredIsWhole, ListsNothingNew, Accepted;
      StepKeepsWholeIff(After(actions[..n - 1]), actions[n - 1]);
    }
  }

  /** Exactly when stored emails stay whole over a run. */
  lemma WholeThroughoutIff(actions: seq<Action>)
    ensures WholeThroughout(actions) <==> NothingNewForStored(actions)
  {
    hide Inv, Step, After, StoredIsWhole, ListsNothingNew, Accepted;
    if NothingNewForStored(actions) {
      forall n | 0 <= n <= |actions| ensures StoredIsWhole(After(actions[..n]).tables) { WholeUpTo(actions, n); }
    }
    if WholeThroughout(actions) {
      forall n | 0 <= n < |actions| && Accepted(After(actions[..n]), actions[n])
        ensures ListsNothingNew(After(actions[..n]).tables, actions[n].draft)
      {
        Reachable(actions[..n]);
        NextState(actions, n);
        assert StoredIsWhole(After(actions[..n]).tables) && StoredIsWhole(After(actions[..n + 1]).tables);
        StepKeepsWholeIff(After(actions[..n]), actions[n]);
      }
    }
  }

  // ---- redeliveries that list no more than the first ----

  function Ids(drafts: seq<AttachmentDraft>): set<string> { set k | 0 <= k < |drafts| :: drafts[k].resendId }

  /** The first delivery of its email that is let in: it creates the row. */
  ghost predicate IsFirst(actions: seq<Action>, i: nat): (first: bool)
    ensures first ==> i < |actions| && actions[i].Webhook?
  {
    i < |actions| && Accepted(After(actions[..i]), actions[i])
    && FindEmail(After(actions[..i]).tables.emails, actions[i].draft.resendId) == 0
  }

  /** Redeliveries list only attachments of the first delivery, maybe fewer. */
  ghost predicate RedeliveriesListNoMore(actions: seq<Action>) {
    forall i, j :: 0 <= i < j < |actions| && IsFirst(actions, i) && Accepted(After(actions[..j]), actions[j])
                   && actions[i].draft.resendId == actions[j].draft.resendId ==>
      Ids(actions[j].draft.attachments) <= Ids(actions[i].draft.attachments)
  }

  /** The email has every attachment of its first delivery, which is the `i`th action. */
  ghost predicate ListedByFirst(actions: seq<Action>, t: Tables, id: int, i: nat)
    requires HasEmail(t, id)
  {
    IsFirst(actions, i) && actions[i].draft.resendId == EmailAt(t, id).resendId
    && Lists(t.attachments, id, actions[i].draft.attachments, |actions[i].draft.attachments|)
  }

  ghost predicate FirstsListed(actions: seq<Action>, n: nat)
    requires n <= |actions|
  {
    EachListed(actions, After(actions[..n]).tables, n)
  }

  ghost predicate EachListed(actions: seq<Action>, t: Tables, n: nat) {
    forall id :: HasEmail(t, id) ==> exists i :: 0 <= i < n && ListedByFirst(actions, t, id, i)
  }

  lemma ListsStays(t: Tables, t': Tables, id: int, drafts: seq<AttachmentDraft>)
    requires RowsKept(t, t') && Lists(t.attachments, id, drafts, |drafts|)
    ensures Lists(t'.attachments, id, drafts, |drafts|)
  {
    forall k | 0 <= k < |drafts| ensures FindAttachment(t'.attachments, id, drafts[k].resendId) > 0 {
      var found := FindAttachment(t.attachments, id, drafts[k].resendId);
      assert AttachmentKept(t.attachments[found - 1], t'.attachments[found - 1]);
    }
  }

  lemma ListsSameIds(rows: seq<Attachment>, id: int, drafts: seq<AttachmentDraft>, drafts': seq<AttachmentDraft>)
    requires Lists(rows, id, drafts, |drafts|) && Ids(drafts') <= Ids(drafts)
    ensures Lists(rows, id, drafts', |drafts'|)
  {
    forall k | 0 <= k < |drafts'| ensures FindAttachment(rows, id, drafts'[k].resendId) > 0 {
      assert drafts'[k].resendId in Ids(drafts');
      var j :| 0 <= j < |drafts| && drafts[j].resendId == drafts'[k].resendId;
      assert FindAttachment(rows, id, drafts[j].resendId) > 0;
    }
  }

  lemma ClaimListsDraft(t: Tables, emailId: int, token: string, now: int, drafts: seq<AttachmentDraft>)
    requires HasEmail(t, emailId) && AlmostOk(t, emailId) && !TokenInUse(t.leases, token)
    requires TablesOk(t) || (EmailAt(t, emailId).state != Processing.Stored && emailId !in t.leases)
    requires Lists(t.attachments, emailId, drafts, |drafts|)
    ensures var t' := ClaimOn(t, emailId, token, now).0;
            && |t'.emails| == |t.emails| && EmailAt(t', emailId).resendId == EmailAt(t, emailId).resendId
            && Lists(t'.attachments, emailId, drafts, |drafts|)
  {
    ClaimOnKeeps(t, emailId, token, now);
    ClaimOnStoresNothing(t, emailId, token, now);
    hide ClaimOn, TablesOk, AlmostOk, TokenInUse, NothingRecorded, BodiesKept, Lists, RowsKept;
    var t' := ClaimOn(t, emailId, token, now).0;
    ListsStays(t, t', emailId, drafts);
    EmailStays(t, t', emailId);
  }

  lemma WebhookListsItsDraft(t: Tables, d: EmailDraft, token: string, now: int)
    requires TablesOk(t) && !TokenInUse(t.leases, token) && ClaimWebhook(t, d, token, now).Success?
    ensures var t', emailId := ClaimWebhook(t, d, token, now).value.0, EmailIdOf(t, d);
            && HasEmail(t', emailId) && EmailAt(t', emailId).resendId == d.resendId
            && |t'.emails| == (if emailId > |t.emails| then emailId else |t.emails|) <= |t.emails| + 1
            && Lists(t'.attachments, emailId, d.attachments, |d.attachments|)
  {
    WebhookIsClaim(t, d, token, now);
    InsertedIsAlmostOk(t, d);
    var t1, emailId := Inserted(t, d), EmailIdOf(t, d);
    var rows := AddAttachments(t.attachments, emailId, d.attachments, |d.attachments|).value;
    AddAttachmentsLists(t.attachments, emailId, d.attachments, |d.attachments|);
    AddAttachmentsAppends(t.attachments, emailId, d.attachments, |d.attachments|);
    hide TablesOk, AlmostOk, ClaimOn, AddAttachments, ClaimWebhook, TokenInUse, NothingRecorded, BodiesKept, Lists,
         RowsKept, ValidProviderId, ValidAttachmentDraft, UniqueAttachments, Inserted, EmailIdOf, FindEmail;
    RowsAddedAreAlmostOk(t1, emailId, rows);
    ClaimListsDraft(t1.(attachments := rows), emailId, token, now, d.attachments);
  }

  lemma EmailStays(t: Tables, t': Tables, id: int)
    requires HasEmail(t, id) && RowsKept(t, t')
    ensures HasEmail(t', id) && EmailAt(t', id).resendId == EmailAt(t, id).resendId
  {
    assert EmailKept(t.emails[id - 1], t'.emails[id - 1]);
  }

  /** Only a first delivery adds an email, and it adds what it lists. */
  lemma NewEmailIsListed(s: System, a: Action)
    requires Inv(s) && |Step(s, a).tables.emails| > |s.tables.emails|
    ensures Accepted(s, a) && FindEmail(s.tables.emails, a.draft.resendId) == 0
    ensures var t', id := Step(s, a).tables, |s.tables.emails| + 1;
            |t'.emails| == id && EmailAt(t', id).resendId == a.draft.resendId
            && Lists(t'.attachments, id, a.draft.attachments, |a.draft.attachments|)
  {
    assert TablesOk(s.tables);
    forall token | token !in s.used ensures !TokenInUse(s.tables.leases, token) { FreshTokenIsNotLeased(s, token); }
    hide Inv, TablesOk, MoveOwner, Bind, ClaimOn, TokenInUse;
    match a
    case Webhook(draft, token, now) =>
      if Accepted(s, a) {
        WebhookListsItsDraft(s.tables, draft, token, now);
        hide ClaimWebhook, Lists;
      }
    case Retry(id, token, now) =>
      if token !in s.used && ClaimRetry(s.tables, id, token, now).Success? {
        ClaimOnStoresNothing(s.tables, id, token, now);
      }
    case Arrive(key, blob) =>
    case Act(i, move) => if i < |s.owners| { MoveStoresWhole(s, i, move); }
  }

  lemma FirstsStayListed(actions: seq<Action>, n: nat)
    requires n < |actions| && FirstsListed(actions, n)
    ensures FirstsListed(actions, n + 1)
  {
    hide Step, Accepted, Lists, RowsKept, TablesOk, IsFirst;
    var s, s' := After(actions[..n]), After(actions[..n + 1]);
    NextState(actions, n);
    Reachable(actions[..n]);
    StepKeeps(s, actions[n]);
    var t, t' := s.tables, s'.tables;
    assert RowsKept(t, t');
    hide After, Inv;
    forall id | HasEmail(t', id) ensures exists i :: 0 <= i < n + 1 && ListedByFirst(actions, t', id, i) {
      if HasEmail(t, id) {
        var i :| 0 <= i < n && ListedByFirst(actions, t, id, i);
        EmailStays(t, t', id);
        ListsStays(t, t', id, actions[i].draft.attachments);
        assert ListedByFirst(actions, t', id, i);
      } else {
        NewEmailIsListed(s, actions[n]);
        assert IsFirst(actions, n) by { FirstIs(actions, n); }
        assert ListedByFirst(actions, t', id, n);
      }
    }
  }

  lemma FirstIs(actions: seq<Action>, n: nat)
    requires n < |actions| && Accepted(After(actions[..n]), actions[n])
    requires FindEmail(After(actions[..n]).tables.emails, actions[n].draft.resendId) == 0
    ensures IsFirst(actions, n)
  {
  }

  lemma {:induction false} FirstsAreListed(actions: seq<Action>, n: nat)
    requires n <= |actions|
    ensures FirstsListed(actions, n)
  {
    hide Step, ListedByFirst;
    if n > 0 {
      FirstsAreListed(actions, n - 1);
      FirstsStayListed(actions, n - 1);
    }
  }

  /** When redeliveries of an email list no more than its first delivery did, a
      stored email has only stored attachments, in every reachable state. */
  lemma StoredEmailsAreWhole(actions: seq<Action>)
    requires RedeliveriesListNoMore(actions)
    ensures WholeThroughout(actions)
  {
    hide After, Accepted, Lists, Ids;
    forall n | 0 <= n < |actions| && Accepted(After(actions[..n]), actions[n])
      ensures ListsNothingNew(After(actions[..n]).tables, actions[n].draft)
    {
      var t, draft := After(actions[..n]).tables, actions[n].draft;
      if StoredAlready(t, draft) {
        var id := FindEmail(t.emails, draft.resendId);
        FirstsAreListed(actions, n);
        assert HasEmail(t, id);
        var i :| 0 <= i < n && ListedByFirst(actions, t, id, i);
        ListsSameIds(t.attachments, id, actions[i].draft.attachments, draft.attachments);
      }
    }
    hide WholeThroughout;
    WholeThroughoutIff(actions);
  }

  // ---- a delivery that lists more ----

  const FIRST_TOKEN: string := seq(32, _ => '1')
  const SECOND_TOKEN: string := seq(32, _ => '2')

  function Delivery(attachments: seq<AttachmentDraft>): EmailDraft {
    EmailDraft("e", Header("a", ["b"], None, "t"), "p", attachments)
  }

  lemma LateIsValid()
    ensures ValidAttachmentDraft(AttachmentDraft("x", "f", "t/p"))
  {
    assert Trim("f") == "f";
    assert "t/p"[1..] == "/p" && "/p"[1..] == "p" && "p"[1..] == "";
  }

  lemma DeliveryIsValid(attachments: seq<AttachmentDraft>)
    requires |attachments| <= 64
    requires forall i :: 0 <= i < |attachments| ==> ValidAttachmentDraft(attachments[i])
    ensures ValidEmailDraft(Delivery(attachments))
  {
    hide ValidAttachmentDraft;
    assert Trim("a") == "a" && Trim("t") == "t";
  }

  lemma DeliveriesAreValid()
    ensures ValidToken(FIRST_TOKEN) && ValidToken(SECOND_TOKEN) && ValidContentType("text/plain")
    ensures ValidEmailDraft(Delivery([])) && ValidEmailDraft(Delivery([AttachmentDraft("x", "f", "t/p")]))
  {
    hide *;
    TokensAreValid();
    PlainIsValid();
    LateIsValid();
    DeliveryIsValid([]);
    DeliveryIsValid([AttachmentDraft("x", "f", "t/p")]);
  }

  lemma TokensAreValid()
    ensures ValidToken(FIRST_TOKEN) && ValidToken(SECOND_TOKEN)
  {
  }

  lemma PlainIsValid()
    ensures ValidContentType("text/plain")
  {
    BodyTypesAreValid(false);
    assert BodyType(false) == "text/plain";
  }

  lemma FirstDelivery(e: Email, o: Owner)
    requires e == NewEmail(Delivery([])) && o == Owner(Claim(1, e, [], FIRST_TOKEN), [], Start)
    ensures Step(INITIAL, Webhook(Delivery([]), FIRST_TOKEN, 0))
            == System(Tables([e], [], map[1 := Lease(FIRST_TOKEN, 0)]), map[], {}, [o], {FIRST_TOKEN})
  {
    DeliveriesAreValid();
    hide ValidEmailDraft, ValidToken, ValidContentType;
    assert ReopenAll([], 1) == [];
  }

  /** One email, one owner, one token drawn. */
  function Lonely(e: Email, leases: map<int, Lease>, o: Owner, token: string): System {
    System(Tables([e], [], leases), map[], {}, [o], {token})
  }

  lemma NoBodyIsRecorded(e: Email, o: Owner, token: string)
    requires e.state == Pending && o.claim.emailId == 1 && o.claim.token == token && ValidToken(token)
    requires o.claim.email.bodyType.None? && o.pc == Start
    ensures var s := Lonely(e, map[1 := Lease(token, 0)], o, token);
            Step(Step(s, Act(0, GetBody(None))), Act(0, Record))
            == Lonely(e.(bodyKey := None, bodyType := Some("text/plain")), map[1 := Lease(token, 0)],
                      o.(pc := Storing(0)), token)
  {
    PlainIsValid();
    hide ValidToken, ValidContentType;
    var leases := map[1 := Lease(token, 0)];
    var s := Lonely(e, leases, o, token);
    assert Step(s, Act(0, GetBody(None))) == Lonely(e, leases, o.(pc := RecordingBody(None)), token);
  }

  lemma NothingPendingCompletes(e: Email, o: Owner, token: string)
    requires e.state == Pending && e.error.None? && o.claim.emailId == 1 && o.claim.token == token && ValidToken(token)
    requires o.pc == Storing(0) && o.pending == []
    ensures var s := Lonely(e, map[1 := Lease(token, 0)], o, token);
            Step(Step(s, Act(0, NoneLeft)), Act(0, Finish))
            == Lonely(e.(state := Processing.Stored), map[], o.(pc := Stopped), token)
  {
    hide ValidToken;
    var leases := map[1 := Lease(token, 0)];
    assert Step(Lonely(e, leases, o, token), Act(0, NoneLeft)) == Lonely(e, leases, o.(pc := Completing), token);
    assert leases - {1} == map[];
    assert [e][0 := e.(state := Processing.Stored)] == [e.(state := Processing.Stored)];
  }

  lemma FirstOwnerCompletes(e: Email, o: Owner)
    requires e == NewEmail(Delivery([])) && o == Owner(Claim(1, e, [], FIRST_TOKEN), [], Start)
    ensures var s := System(Tables([e], [], map[1 := Lease(FIRST_TOKEN, 0)]), map[], {}, [o], {FIRST_TOKEN});
            Step(Step(Step(Step(s, Act(0, GetBody(None))), Act(0, Record)), Act(0, NoneLeft)), Act(0, Finish))
            == System(Tables([e.(bodyType := Some("text/plain"), state := Processing.Stored)], [], map[]), map[], {},
                      [o.(pc := Stopped)], {FIRST_TOKEN})
  {
    TokensAreValid();
    hide Step, ValidToken;
    NoBodyIsRecorded(e, o, FIRST_TOKEN);
    NothingPendingCompletes(e.(bodyKey := None, bodyType := Some("text/plain")), o.(pc := Storing(0)), FIRST_TOKEN);
  }

  lemma SecondDelivery(e: Email, o: Owner, late: AttachmentDraft)
    requires e == NewEmail(Delivery([])).(bodyType := Some("text/plain"), state := Processing.Stored)
    requires late == AttachmentDraft("x", "f", "t/p")
    ensures Step(System(Tables([e], [], map[]), map[], {}, [o], {FIRST_TOKEN}),
                 Webhook(Delivery([late]), SECOND_TOKEN, 1)).tables
            == Tables([e], [NewAttachment(1, late)], map[])
  {
    DeliveriesAreValid();
    hide ValidEmailDraft, ValidToken, ValidContentType;
    assert FIRST_TOKEN[0] != SECOND_TOKEN[0];
    assert AddAttachments([], 1, [late], 0) == Success([]);
    assert [] + [NewAttachment(1, late)] == [NewAttachment(1, late)];
    assert AddAttachments([], 1, [late], 1) == Success([NewAttachment(1, late)]);
    assert FindEmail([e], "e") == 1;
  }

  lemma RunOfSix(a0: Action, a1: Action, a2: Action, a3: Action, a4: Action, a5: Action)
    ensures After([a0, a1, a2, a3, a4, a5])
            == Step(Step(Step(Step(Step(Step(INITIAL, a0), a1), a2), a3), a4), a5)
  {
    hide Step;
    assert [a0][..0] == [];
    assert Run(INITIAL, [a0]) == Step(INITIAL, a0);
    assert [a0, a1][..1] == [a0];
    assert Run(INITIAL, [a0, a1]) == Step(Run(INITIAL, [a0]), a1);
    assert [a0, a1, a2][..2] == [a0, a1];
    assert Run(INITIAL, [a0, a1, a2]) == Step(Run(INITIAL, [a0, a1]), a2);
    assert [a0, a1, a2, a3][..3] == [a0, a1, a2];
    assert Run(INITIAL, [a0, a1, a2, a3]) == Step(Run(INITIAL, [a0, a1, a2]), a3);
    assert [a0, a1, a2, a3, a4][..4] == [a0, a1, a2, a3];
    assert Run(INITIAL, [a0, a1, a2, a3, a4]) == Step(Run(INITIAL, [a0, a1, a2, a3]), a4);
    assert [a0, a1, a2, a3, a4, a5][..5] == [a0, a1, a2, a3, a4];
  }

  /** Without that condition it is false: a redelivery that lists one more
      attachment leaves a stored email with a pending attachment. */
  lemma LateAttachmentStaysPending(late: AttachmentDraft)
    requires late == AttachmentDraft("x", "f", "t/p")
    ensures var actions := [Webhook(Delivery([]), FIRST_TOKEN, 0), Act(0, GetBody(None)), Act(0, Record),
                            Act(0, NoneLeft), Act(0, Finish), Webhook(Delivery([late]), SECOND_TOKEN, 1)];
            var t := After(actions).tables;
            HasEmail(t, 1) && EmailAt(t, 1).state == Processing.Stored && !AllStored(t.attachments, 1)
  {
    var a0, a1, a2, a3, a4, a5 := Webhook(Delivery([]), FIRST_TOKEN, 0), Act(0, GetBody(None)), Act(0, Record),
      Act(0, NoneLeft), Act(0, Finish), Webhook(Delivery([late]), SECOND_TOKEN, 1);
    RunOfSix(a0, a1, a2, a3, a4, a5);
    var e := NewEmail(Delivery([]));
    var o := Owner(Claim(1, e, [], FIRST_TOKEN), [], Start);
    hide Step, After, Delivery;
    FirstDelivery(e, o);
    FirstOwnerCompletes(e, o);
    SecondDelivery(e.(bodyType := Some("text/plain"), state := Processing.Stored), o.(pc := Stopped), late);
    assert [NewAttachment(1, late)][0].emailId == 1;
  }
}
