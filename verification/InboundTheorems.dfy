/** The promises of inbound-email processing, over all runs. */
module InboundTheorems {
  import opened Wrappers
  import opened Text
  import opened MediaKey
  import opened ObjectStore
  import opened InboundTables
  import opened InboundProtocol
  import opened InboundInvariant
  import opened InboundStatements
  import opened InboundSafety

  function After(actions: seq<Action>): System { Run(INITIAL, actions) }

  lemma Reachable(actions: seq<Action>)
    ensures Inv(After(actions))
  {
    InitialIsOk();
    RunKeeps(INITIAL, actions);
  }

  // ---- recorded objects exist ----

  /** The object's media type, without parameters. */
  function TypeOf(blob: Blob): string { Trim(BeforeSemicolon(blob.contentType)) }

  /** A recorded body key is bound to an object of the recorded type, and a
      stored attachment's key to exactly as many bytes as its row says. */
  lemma RecordedObjectsExist(actions: seq<Action>)
    ensures var s := After(actions);
            && (forall i :: 0 <= i < |s.tables.emails| && s.tables.emails[i].bodyKey.Some? ==>
                  var e := s.tables.emails[i];
                  e.bodyKey.value in s.store && e.bodyType == Some(TypeOf(s.store[e.bodyKey.value])))
            && (forall i :: 0 <= i < |s.tables.attachments| && s.tables.attachments[i].state == Processing.Stored ==>
                  var a := s.tables.attachments[i];
                  a.key.Some? && a.key.value in s.store && a.size == Some(|s.store[a.key.value].bytes|))
  {
    Reachable(actions);
    var s := After(actions);
    hide After, BodyKey, AttachmentKey, OwnerOk, IsWord, Trim, BeforeSemicolon;
    assert Backed(s.tables, s.store);
    forall i | 0 <= i < |s.tables.emails| && s.tables.emails[i].bodyKey.Some?
      ensures s.tables.emails[i].bodyKey.value in s.store
      ensures s.tables.emails[i].bodyType == Some(TypeOf(s.store[s.tables.emails[i].bodyKey.value]))
    {
      assert BodyBacked(s.tables.emails[i], s.store);
    }
    forall i | 0 <= i < |s.tables.attachments| && s.tables.attachments[i].state == Processing.Stored
      ensures s.tables.attachments[i].key.Some? && s.tables.attachments[i].key.value in s.store
      ensures s.tables.attachments[i].size == Some(|s.store[s.tables.attachments[i].key.value].bytes|)
    {
      assert HasEmail(s.tables, s.tables.attachments[i].emailId);
      assert AttachmentBacked(s.tables, s.tables.attachments[i], s.store);
    }
  }

  /** No object is recorded twice: bodies, stored attachments, and one of each
      never share a key. */
  lemma RecordedKeysDiffer(actions: seq<Action>)
    ensures var t := After(actions).tables;
            && (forall i, j :: 0 <= i < j < |t.emails| && t.emails[i].bodyKey.Some? ==>
                  t.emails[i].bodyKey != t.emails[j].bodyKey)
            && (forall i, j :: 0 <= i < j < |t.attachments| && t.attachments[i].state == Processing.Stored
                               && t.attachments[j].state == Processing.Stored ==>
                  t.attachments[i].key != t.attachments[j].key)
            && (forall i, j :: 0 <= i < |t.emails| && t.emails[i].bodyKey.Some? && 0 <= j < |t.attachments|
                               && t.attachments[j].state == Processing.Stored ==>
                  t.emails[i].bodyKey != t.attachments[j].key)
  {
    Reachable(actions);
    var s := After(actions);
    var t := s.tables;
    hide After, BodyKey, AttachmentKey, OwnerOk, IsWord;
    assert TablesOk(t) && Backed(t, s.store);
    forall i | 0 <= i < |t.emails| ensures BodyBacked(t.emails[i], s.store) && IsWord(t.emails[i].resendId) {}
    forall i | 0 <= i < |t.attachments|
      ensures HasEmail(t, t.attachments[i].emailId) && AttachmentBacked(t, t.attachments[i], s.store)
    {}
    forall i, j | 0 <= i < j < |t.emails| && t.emails[i].bodyKey.Some?
      ensures t.emails[i].bodyKey != t.emails[j].bodyKey
    {
      BodiesDiffer(t.emails[i], t.emails[j], s.store);
    }
    forall i, j | 0 <= i < j < |t.attachments| && t.attachments[i].state == Processing.Stored
                  && t.attachments[j].state == Processing.Stored
      ensures t.attachments[i].key != t.attachments[j].key
    {
      assert !SameProvider(t.attachments[i], t.attachments[j]);
      AttachmentsDiffer(t, t.attachments[i], t.attachments[j], s.store);
    }
    forall i, j | 0 <= i < |t.emails| && t.emails[i].bodyKey.Some? && 0 <= j < |t.attachments|
                  && t.attachments[j].state == Processing.Stored
      ensures t.emails[i].bodyKey != t.attachments[j].key
    {
      BodyIsNoAttachment(t, t.emails[i], t.attachments[j], s.store);
    }
  }

  lemma BodiesDiffer(e: Email, e': Email, store: Objects)
    requires BodyBacked(e, store) && BodyBacked(e', store) && IsWord(e.resendId) && IsWord(e'.resendId)
    requires e.resendId != e'.resendId && e.bodyKey.Some?
    ensures e.bodyKey != e'.bodyKey
  {
    hide BodyKey, IsWord;
    forall html, html' | true ensures BodyKey(e.resendId, html) != BodyKey(e'.resendId, html') {
      BodyKeysDiffer(e.resendId, e'.resendId, html, html');
    }
  }

  lemma AttachmentsDiffer(t: Tables, a: Attachment, b: Attachment, store: Objects)
    requires TablesOk(t) && HasEmail(t, a.emailId) && HasEmail(t, b.emailId) && !SameProvider(a, b)
    requires a.state == Processing.Stored && b.state == Processing.Stored
    requires AttachmentBacked(t, a, store) && AttachmentBacked(t, b, store)
    ensures a.key != b.key
  {
    hide AttachmentKey, IsWord;
    AttachmentKeysDiffer(EmailAt(t, a.emailId).resendId, EmailAt(t, b.emailId).resendId, a.resendId, b.resendId);
  }

  lemma BodyIsNoAttachment(t: Tables, e: Email, a: Attachment, store: Objects)
    requires TablesOk(t) && HasEmail(t, a.emailId) && IsWord(e.resendId) && e.bodyKey.Some?
    requires a.state == Processing.Stored && BodyBacked(e, store) && AttachmentBacked(t, a, store)
    ensures e.bodyKey != a.key
  {
    hide AttachmentKey, BodyKey, IsWord;
    BodyKeyIsNoAttachmentKey(e.resendId, EmailAt(t, a.emailId).resendId, true, a.resendId);
    BodyKeyIsNoAttachmentKey(e.resendId, EmailAt(t, a.emailId).resendId, false, a.resendId);
  }

  // ---- what a run never undoes ----

  function StoredCount(attachments: seq<Attachment>): nat {
    if attachments == [] then 0
    else StoredCount(attachments[..|attachments| - 1])
         + if attachments[|attachments| - 1].state == Processing.Stored then 1 else 0
  }

  lemma {:induction false} StoredCountGrows(rows: seq<Attachment>, rows': seq<Attachment>)
    requires |rows| <= |rows'|
    requires forall i :: 0 <= i < |rows| && rows[i].state == Processing.Stored ==> rows'[i].state == Processing.Stored
    ensures StoredCount(rows) <= StoredCount(rows')
  {
    if |rows| < |rows'| {
      StoredCountGrows(rows, rows'[..|rows'| - 1]);
    } else if rows != [] {
      StoredCountGrows(rows[..|rows| - 1], rows'[..|rows'| - 1]);
    }
  }

  lemma {:induction false} RunSplits(s: System, first: seq<Action>, second: seq<Action>)
    ensures Run(s, first + second) == Run(Run(s, first), second)
  {
    hide Step;
    if second == [] {
      assert first + second == first;
    } else {
      assert (first + second)[..|first + second| - 1] == first + second[..|second| - 1];
      RunSplits(s, first, second[..|second| - 1]);
    }
  }

  /** Between any two moments of a run: bindings, stored rows and written body
      columns are the same, and no fewer attachments are stored. */
  lemma NothingStoredIsUndone(first: seq<Action>, later: seq<Action>)
    ensures var s, s' := After(first), After(first + later);
            && StoreKept(s.store, s'.store)
            && |s.tables.emails| <= |s'.tables.emails| && |s.tables.attachments| <= |s'.tables.attachments|
            && (forall i :: 0 <= i < |s.tables.emails| ==>
                  && (s.tables.emails[i].state == Processing.Stored ==> s'.tables.emails[i] == s.tables.emails[i])
                  && (s.tables.emails[i].bodyType.Some? ==>
                        s'.tables.emails[i].bodyType == s.tables.emails[i].bodyType
                        && s'.tables.emails[i].bodyKey == s.tables.emails[i].bodyKey))
            && (forall i :: 0 <= i < |s.tables.attachments| && s.tables.attachments[i].state == Processing.Stored ==>
                  s'.tables.attachments[i] == s.tables.attachments[i])
            && StoredCount(s.tables.attachments) <= StoredCount(s'.tables.attachments)
  {
    Reachable(first);
    RunSplits(INITIAL, first, later);
    RunKeeps(After(first), later);
    var s, s' := After(first), After(first + later);
    hide Run, Inv;
    forall i | 0 <= i < |s.tables.emails| ensures EmailKept(s.tables.emails[i], s'.tables.emails[i]) {}
    forall i | 0 <= i < |s.tables.attachments|
      ensures AttachmentKept(s.tables.attachments[i], s'.tables.attachments[i])
    {}
    StoredCountGrows(s.tables.attachments, s'.tables.attachments);
  }

  // ---- fencing ----

  /** Without the lease every statement is refused, and so changes nothing. */
  lemma WithoutLeaseAllConflict(
    t: Tables, emailId: int, id: int, token: string, key: string, contentType: string, size: nat, message: string)
    requires !Owns(t, emailId, token)
    requires ValidToken(token) && ValidObjectKey(key) && ValidContentType(contentType) && ValidPublicError(message)
    ensures RecordBody(t, emailId, token, Some(key), contentType) == Failure(Conflict)
    ensures RecordBody(t, emailId, token, None, contentType) == Failure(Conflict)
    ensures MarkAttachmentStored(t, emailId, id, token, key, size) == Failure(Conflict)
    ensures MarkAttachmentError(t, emailId, id, token) == Failure(Conflict)
    ensures Complete(t, emailId, token) == Failure(Conflict)
    ensures Fail(t, emailId, token, message) == Failure(Conflict)
  {
  }

  ghost predicate LeasesShrink(t: Tables, t': Tables) {
    forall id :: id in t'.leases ==> id in t.leases && t'.leases[id] == t.leases[id]
  }

  /** An owner's move changes tables only while it holds the lease, and never
      takes or refreshes a lease. */
  lemma OnlyTheHolderMoves(s: System, i: nat, move: Move)
    requires i < |s.owners|
    ensures MoveOwner(s, i, move).tables != s.tables ==>
              Owns(s.tables, s.owners[i].claim.emailId, s.owners[i].claim.token)
    ensures LeasesShrink(s.tables, MoveOwner(s, i, move).tables)
    ensures MoveOwner(s, i, move).used == s.used
  {
    hide BodyKey, AttachmentKey, Matches, Puttable, ConfirmStored, ValidToken, ValidContentType, ValidPublicError,
         AllStored;
  }

  /** At any time at most one of an email's owners can change anything. */
  lemma OneHolderPerEmail(actions: seq<Action>, i: nat, j: nat, move: Move, move': Move)
    requires var s := After(actions);
             && i < |s.owners| && j < |s.owners| && s.owners[i].claim.emailId == s.owners[j].claim.emailId
             && MoveOwner(s, i, move).tables != s.tables && MoveOwner(s, j, move').tables != s.tables
    ensures i == j
  {
    Reachable(actions);
    var s := After(actions);
    hide After, MoveOwner;
    OnlyTheHolderMoves(s, i, move);
    OnlyTheHolderMoves(s, j, move');
  }

  /** What one step does to the leases: a claim may put a lease with a new token
      where there was none or a stale one, and a holder's move may end its own. */
  ghost predicate LeasesStep(s: System, t': Tables, a: Action) {
    match a
    case Webhook(_, token, now) => LeaseTaken(s, t', token, now)
    case Retry(_, token, now) => LeaseTaken(s, t', token, now)
    case Arrive(_, _) => t' == s.tables
    case Act(i, move) =>
      && LeasesShrink(s.tables, t')
      && forall id :: id in s.tables.leases && id !in t'.leases ==>
           (move.Finish? || move.ReportFailure?) && i < |s.owners| && id == s.owners[i].claim.emailId
           && Owns(s.tables, id, s.owners[i].claim.token)
  }

  ghost predicate LeaseTaken(s: System, t': Tables, token: string, now: int) {
    t'.leases == s.tables.leases
    || exists id :: token !in s.used && t'.leases == s.tables.leases[id := Lease(token, now)]
                    && (id in s.tables.leases ==> IsStale(s.tables.leases[id], now))
  }

  lemma ClaimTakesLease(s: System, t': Tables, outcome: ClaimOutcome, token: string, now: int)
    requires token !in s.used && ClaimEffect(s.tables, t', outcome, token, now)
    ensures LeaseTaken(s, t', token, now)
  {
    hide TablesKept, NothingRecorded, AttachmentsOf, IsStale;
    if outcome.Acquired? {
      var id := outcome.claim.emailId;
      assert t'.leases == s.tables.leases[id := Lease(token, now)];
    }
  }

  lemma StepOnLeases(s: System, a: Action)
    requires Inv(s)
    ensures LeasesStep(s, Step(s, a).tables, a)
    ensures s.used <= Step(s, a).used
  {
    hide MoveOwner, ClaimEffect, TablesOk, Backed, OwnerOk, LeasesShrink;
    match a
    case Webhook(draft, token, now) =>
      if token !in s.used {
        FreshTokenIsNotLeased(s, token);
        var result := ClaimWebhook(s.tables, draft, token, now);
        hide ClaimWebhook;
        if result.Success? {
          WebhookKeeps(s.tables, draft, token, now);
          ClaimTakesLease(s, result.value.0, result.value.1, token, now);
        }
      }
    case Retry(id, token, now) =>
      if token !in s.used {
        FreshTokenIsNotLeased(s, token);
        var result := ClaimRetry(s.tables, id, token, now);
        hide ClaimRetry;
        if result.Success? {
          RetryKeeps(s.tables, id, token, now);
          ClaimTakesLease(s, result.value.0, result.value.1, token, now);
        }
      }
    case Arrive(key, blob) =>
    case Act(owner, move) =>
      if owner < |s.owners| {
        OnlyTheHolderMoves(s, owner, move);
        OnlyReleaseEndsLease(s, owner, move);
      } else {
        assert LeasesShrink(s.tables, s.tables) by { LeasesShrinkReflexive(s.tables); }
      }
  }

  lemma LeasesShrinkReflexive(t: Tables)
    ensures LeasesShrink(t, t)
  {
  }

  lemma StepNeverRevives(s: System, a: Action, emailId: int, token: string)
    requires Inv(s) && token in s.used && !Owns(s.tables, emailId, token)
    ensures token in Step(s, a).used && !Owns(Step(s, a).tables, emailId, token)
  {
    StepOnLeases(s, a);
    hide Inv, Step, IsStale;
  }

  lemma {:induction false} LostLeaseStaysLost(s: System, actions: seq<Action>, emailId: int, token: string)
    requires Inv(s) && token in s.used && !Owns(s.tables, emailId, token)
    ensures token in Run(s, actions).used && !Owns(Run(s, actions).tables, emailId, token)
  {
    if actions != [] {
      LostLeaseStaysLost(s, actions[..|actions| - 1], emailId, token);
      RunKeeps(s, actions[..|actions| - 1]);
      hide Inv, Step, Owns;
      StepNeverRevives(Run(s, actions[..|actions| - 1]), actions[|actions| - 1], emailId, token);
    }
  }

  lemma {:induction false} OwnersStay(s: System, actions: seq<Action>)
    ensures |s.owners| <= |Run(s, actions).owners|
    ensures forall i :: 0 <= i < |s.owners| ==> Run(s, actions).owners[i].claim == s.owners[i].claim
  {
    if actions != [] {
      OwnersStay(s, actions[..|actions| - 1]);
      OwnersStayOneStep(Run(s, actions[..|actions| - 1]), actions[|actions| - 1]);
    }
  }

  lemma OwnersStayOneStep(s: System, a: Action)
    ensures |s.owners| <= |Step(s, a).owners|
    ensures forall i :: 0 <= i < |s.owners| ==> Step(s, a).owners[i].claim == s.owners[i].claim
  {
    if a.Act? && a.owner < |s.owners| { MoveKeepsClaims(s, a.owner, a.move); }
    hide MoveOwner, ClaimWebhook, ClaimRetry;
  }

  lemma MoveKeepsClaims(s: System, i: nat, move: Move)
    requires i < |s.owners|
    ensures |MoveOwner(s, i, move).owners| == |s.owners|
    ensures forall j :: 0 <= j < |s.owners| ==> MoveOwner(s, i, move).owners[j].claim == s.owners[j].claim
  {
    hide BodyKey, AttachmentKey, Matches, Puttable, ConfirmStored, RecordBody, MarkAttachmentError, Complete, Fail;
    assert exists pc :: MoveOwner(s, i, move).owners == At(s, i, pc).owners by {
      assert MoveOwner(s, i, move).owners == At(s, i, MoveOwner(s, i, move).owners[i].pc).owners;
    }
  }

  /** Fencing: once its lease is gone or another's, nothing an owner does, at
      any later time, changes a table. */
  lemma StaleOwnerChangesNothing(s: System, later: seq<Action>, i: nat, move: Move)
    requires Inv(s) && i < |s.owners| && !Owns(s.tables, s.owners[i].claim.emailId, s.owners[i].claim.token)
    ensures i < |Run(s, later).owners| && MoveOwner(Run(s, later), i, move).tables == Run(s, later).tables
  {
    assert OwnerOk(s, s.owners[i]);
    OwnersStay(s, later);
    LostLeaseStaysLost(s, later, s.owners[i].claim.emailId, s.owners[i].claim.token);
    hide MoveOwner, Inv;
    OnlyTheHolderMoves(Run(s, later), i, move);
  }

  // ---- taking and keeping leases ----

  /** The email is free for a claim made at `now`. */
  predicate Claimable(t: Tables, emailId: int, now: int) {
    HasEmail(t, emailId) && EmailAt(t, emailId).state != Processing.Stored
    && (emailId in t.leases ==> now - t.leases[emailId].claimedAt >= LEASE_STALE_MILLIS)
  }

  /** A retry with a new token takes the lease exactly when the email is not
      stored and no claim took its lease in the last two minutes. */
  lemma RetryAcquiresExactlyWhenClaimable(s: System, emailId: int, token: string, now: int)
    requires Inv(s) && token !in s.used && ValidToken(token)
    ensures var s' := Step(s, Retry(emailId, token, now));
            && (Owns(s'.tables, emailId, token) <==> Claimable(s.tables, emailId, now))
            && (!Claimable(s.tables, emailId, now) ==> s'.tables == s.tables && s'.owners == s.owners)
            && (Claimable(s.tables, emailId, now) ==>
                  && s'.tables.leases == s.tables.leases[emailId := Lease(token, now)]
                  && EmailAt(s'.tables, emailId).state == Pending
                  && |s'.owners| == |s.owners| + 1 && s'.owners[|s.owners|].claim.emailId == emailId
                  && s'.owners[|s.owners|].claim.token == token)
  {
    FreshTokenIsNotLeased(s, token);
    if HasEmail(s.tables, emailId) {
      ClaimOnDecides(s.tables, emailId, token, now);
      hide ClaimOn, TablesOk, Backed, OwnerOk, AttachmentsOf, ReopenAll, ValidToken;
      assert token != "";
    }
  }

  lemma WebhookDecides(t: Tables, d: EmailDraft, token: string, now: int)
    requires TablesOk(t) && !TokenInUse(t.leases, token) && ClaimWebhook(t, d, token, now).Success?
    ensures var (t', outcome), emailId := ClaimWebhook(t, d, token, now).value, EmailIdOf(t, d);
            && (outcome.Acquired? <==> emailId > |t.emails| || Claimable(t, emailId, now))
            && t'.leases == (if outcome.Acquired? then t.leases[emailId := Lease(token, now)] else t.leases)
            && (outcome.Acquired? ==> outcome.claim.emailId == emailId && outcome.claim.token == token)
            && (outcome.AlreadyStored? <==>
                  emailId <= |t.emails| && HasEmail(t, emailId) && EmailAt(t, emailId).state == Processing.Stored)
            && (outcome.AlreadyStored? || outcome.Busy? ==> outcome.emailId == emailId)
  {
    WebhookIsClaim(t, d, token, now);
    InsertedIsAlmostOk(t, d);
    var emailId := EmailIdOf(t, d);
    var rows := AddAttachments(t.attachments, emailId, d.attachments, |d.attachments|).value;
    ClaimOnDecides(Inserted(t, d).(attachments := rows), emailId, token, now);
    hide ClaimOn, TablesOk, AttachmentsOf, ReopenAll, ValidToken, AddAttachments, ClaimWebhook,
         AlmostOk, RowsKept, NothingRecorded, BodiesKept, ValidProviderId;
  }

  /** A delivery that the tables take decides the same way, a new email being
      always claimable: it takes the lease and starts an owner, or it leaves the
      leases and the owners as they are. */
  lemma WebhookAcquiresExactlyWhenClaimable(s: System, d: EmailDraft, token: string, now: int)
    requires Inv(s) && token !in s.used && ClaimWebhook(s.tables, d, token, now).Success?
    ensures var s', id := Step(s, Webhook(d, token, now)), EmailIdOf(s.tables, d);
            var free := id > |s.tables.emails| || Claimable(s.tables, id, now);
            && (Owns(s'.tables, id, token) <==> free)
            && (free ==>
                  && s'.tables.leases == s.tables.leases[id := Lease(token, now)]
                  && |s'.owners| == |s.owners| + 1 && s'.owners[..|s.owners|] == s.owners
                  && s'.owners[|s.owners|].claim.emailId == id && s'.owners[|s.owners|].claim.token == token)
            && (!free ==> s'.tables.leases == s.tables.leases && s'.owners == s.owners)
  {
    FreshTokenIsNotLeased(s, token);
    WebhookDecides(s.tables, d, token, now);
    hide TablesOk, Backed, OwnerOk, ClaimWebhook, FindEmail;
  }

  /** What a claim answers for an email, told from its row and its lease alone:
      it was stored, or a claim was made less than two minutes before, or it is
      the caller's now. */
  predicate AnswersFor(t: Tables, id: int, now: int, outcome: ClaimOutcome)
    requires HasEmail(t, id)
  {
    var stored := t.emails[id - 1].state == Processing.Stored;
    var young := id in t.leases && now - t.leases[id].claimedAt < 120000;
    && (outcome == AlreadyStored(id) <==> stored)
    && (outcome == Busy(id) <==> !stored && young)
    && (outcome.Acquired? <==> !stored && !young)
    && (outcome.Acquired? ==> outcome.claim.emailId == id)
  }

  /** An accepted delivery answers for the email with its provider id; one that
      no email has yet is acquired, under the next id. */
  lemma DeliveryAnswers(s: System, d: EmailDraft, token: string, now: int)
    requires Inv(s) && token !in s.used && ClaimWebhook(s.tables, d, token, now).Success?
    ensures var t, outcome := s.tables, ClaimWebhook(s.tables, d, token, now).value.1;
            && (forall id :: HasEmail(t, id) && t.emails[id - 1].resendId == d.resendId ==>
                  AnswersFor(t, id, now, outcome))
            && ((forall id :: HasEmail(t, id) ==> t.emails[id - 1].resendId != d.resendId) ==>
                  outcome.Acquired? && outcome.claim.emailId == |t.emails| + 1)
  {
    FreshTokenIsNotLeased(s, token);
    WebhookDecides(s.tables, d, token, now);
    var t := s.tables;
    forall id | HasEmail(t, id) && t.emails[id - 1].resendId == d.resendId ensures id == EmailIdOf(t, d) {
      DeliveryIsOf(t, d, id);
    }
    if forall id :: HasEmail(t, id) ==> t.emails[id - 1].resendId != d.resendId { NoDeliveryBefore(t, d); }
    hide ClaimWebhook, Inv, EmailIdOf, ReferencesHold, StatesAgree, UniqueEmails, UniqueAttachments, UniqueTokens;
  }

  lemma DeliveryIsOf(t: Tables, d: EmailDraft, id: int)
    requires UniqueEmails(t.emails) && HasEmail(t, id) && t.emails[id - 1].resendId == d.resendId
    ensures EmailIdOf(t, d) == id
  {
    var found := FindEmail(t.emails, d.resendId);
    hide FindEmail;
  }

  lemma NoDeliveryBefore(t: Tables, d: EmailDraft)
    requires forall id :: HasEmail(t, id) ==> t.emails[id - 1].resendId != d.resendId
    ensures EmailIdOf(t, d) == |t.emails| + 1
  {
    var found := FindEmail(t.emails, d.resendId);
    hide FindEmail;
    assert found > 0 ==> HasEmail(t, found);
  }

  /** A retry answers for the email it names, or finds none. */
  lemma RetryAnswers(s: System, emailId: int, token: string, now: int)
    requires Inv(s) && token !in s.used && ValidToken(token)
    ensures var t, r := s.tables, ClaimRetry(s.tables, emailId, token, now);
            && (1 <= emailId <= |t.emails| <==> r.Success?)
            && (r.Success? ==> AnswersFor(t, emailId, now, r.value.1))
            && (emailId <= 0 ==> r == Failure(Validation)) && (emailId > |t.emails| ==> r == Failure(NotFound))
  {
    FreshTokenIsNotLeased(s, token);
    if HasEmail(s.tables, emailId) { ClaimOnDecides(s.tables, emailId, token, now); }
    hide ClaimOn, TablesOk, Backed, OwnerOk, AttachmentsOf, ReopenAll, ValidToken;
  }

  /** A delivery that the tables refuse changes no table and starts no owner. */
  lemma RefusedWebhookChangesNothing(s: System, d: EmailDraft, token: string, now: int)
    requires token in s.used || ClaimWebhook(s.tables, d, token, now).Failure?
    ensures var s' := Step(s, Webhook(d, token, now));
            s'.tables == s.tables && s'.owners == s.owners && s'.store == s.store
  {
    hide ClaimWebhook;
  }

  /** No action of `actions` releases the lease of owner `i`, and no claim in it
      is made at or after `until`. */
  ghost predicate LeavesAlone(actions: seq<Action>, i: nat, until: int) {
    forall k :: 0 <= k < |actions| ==>
      match actions[k]
      case Webhook(_, _, now) => now < until
      case Retry(_, _, now) => now < until
      case Arrive(_, _) => true
      case Act(owner, move) => owner != i || !(move.Finish? || move.ReportFailure?)
  }

  lemma StepKeepsYoungLease(s: System, a: Action, i: nat, claimedAt: int)
    requires Inv(s) && i < |s.owners| && LeavesAlone([a], i, claimedAt + LEASE_STALE_MILLIS)
    requires s.owners[i].claim.emailId in s.tables.leases
    requires s.tables.leases[s.owners[i].claim.emailId] == Lease(s.owners[i].claim.token, claimedAt)
    ensures s.owners[i].claim.emailId in Step(s, a).tables.leases
    ensures Step(s, a).tables.leases[s.owners[i].claim.emailId] == Lease(s.owners[i].claim.token, claimedAt)
  {
    StepOnLeases(s, a);
    assert [a][0] == a;
    assert TokensDrawn(s);
    assert OwnerOk(s, s.owners[i]);
    if a.Act? && a.owner < |s.owners| && a.owner != i {
      assert s.owners[a.owner].claim.token != s.owners[i].claim.token;
    }
    hide Inv, Step, OwnerOk;
  }

  lemma OnlyReleaseEndsLease(s: System, i: nat, move: Move)
    requires i < |s.owners|
    ensures var t' := MoveOwner(s, i, move).tables;
            forall id :: id in s.tables.leases ==>
              (id in t'.leases && t'.leases[id] == s.tables.leases[id])
              || ((move.Finish? || move.ReportFailure?) && id == s.owners[i].claim.emailId
                  && Owns(s.tables, id, s.owners[i].claim.token))
  {
    hide BodyKey, AttachmentKey, Matches, Puttable, ConfirmStored, ValidToken, ValidContentType, ValidPublicError,
         AllStored;
  }

  /** For two minutes a lease ends only when its own owner completes or fails. */
  lemma {:induction false} YoungLeaseHolds(s: System, actions: seq<Action>, i: nat, claimedAt: int)
    requires Inv(s) && i < |s.owners| && LeavesAlone(actions, i, claimedAt + LEASE_STALE_MILLIS)
    requires s.owners[i].claim.emailId in s.tables.leases
    requires s.tables.leases[s.owners[i].claim.emailId] == Lease(s.owners[i].claim.token, claimedAt)
    ensures Owns(Run(s, actions).tables, s.owners[i].claim.emailId, s.owners[i].claim.token)
    ensures Run(s, actions).tables.leases[s.owners[i].claim.emailId].claimedAt == claimedAt
  {
    if actions != [] {
      var before, last := actions[..|actions| - 1], actions[|actions| - 1];
      YoungLeaseHolds(s, before, i, claimedAt);
      RunKeeps(s, before);
      OwnersStay(s, before);
      assert LeavesAlone([last], i, claimedAt + LEASE_STALE_MILLIS);
      hide Inv, Step, LeavesAlone;
      StepKeepsYoungLease(Run(s, before), last, i, claimedAt);
    }
  }

  // ---- pending, failed and stored ----

  lemma PendingIsLeased(actions: seq<Action>, id: int)
    requires HasEmail(After(actions).tables, id)
    ensures var t := After(actions).tables;
            && (EmailAt(t, id).state == Pending <==> id in t.leases)
            && (EmailAt(t, id).state == Processing.Stored ==> id !in t.leases && EmailAt(t, id).error.None?)
            && (EmailAt(t, id).state == Failed <==> EmailAt(t, id).error.Some?)
  {
    Reachable(actions);
    hide After;
  }

  /** Were a token ever drawn twice, this would fail in one way: a claim whose
      token another email's lease holds expires a stale lease without taking it. */
  lemma ClaimKeepsPendingLeasedIff(t: Tables, emailId: int, token: string, now: int)
    requires TablesOk(t) && HasEmail(t, emailId)
    ensures StatesAgree(ClaimOn(t, emailId, token, now).0) <==>
              !(emailId in t.leases && IsStale(t.leases[emailId], now) && TokenInUse(t.leases - {emailId}, token))
  {
    var leases := ExpireLease(t.leases, emailId, now);
    var (t', outcome) := ClaimOn(t, emailId, token, now);
    hide IsStale, ReopenAll, AttachmentsOf, IsWord, UniqueEmails, UniqueAttachments, UniqueTokens;
    assert EmailAt(t, emailId).state == Pending <==> emailId in t.leases;
    forall id | HasEmail(t, id) && id != emailId ensures EmailAt(t', id) == EmailAt(t, id) {}
    if outcome.Acquired? {
      assert t'.leases == leases[emailId := Lease(token, now)];
      assert EmailAt(t', emailId).state == Pending;
    } else {
      assert t'.emails == t.emails;
      if emailId !in t'.leases && emailId in t.leases { assert HasEmail(t', emailId); }
    }
  }

  function PendingEmail(resendId: string): Email {
    Email(resendId, Header("a", ["b"], None, "t"), "p", None, None, Pending, None)
  }

  /** Such a claim, were it made: the second email's token is used again for the
      first, whose lease is stale.  The claim is refused, and leaves the first
      email pending without a lease. */
  lemma SharedTokenLosesLease(token: string, now: int)
    requires now >= LEASE_STALE_MILLIS
    ensures var t := Tables([PendingEmail("e"), PendingEmail("f")], [],
                            map[1 := Lease("other", 0), 2 := Lease(token, now)]);
            token != "other" ==>
              && TablesOk(t)
              && var (t', outcome) := ClaimOn(t, 1, token, now);
                 outcome == Busy(1) && EmailAt(t', 1).state == Pending && 1 !in t'.leases && !StatesAgree(t')
  {
    var t := Tables([PendingEmail("e"), PendingEmail("f")], [], map[1 := Lease("other", 0), 2 := Lease(token, now)]);
    if token != "other" {
      assert "e"[0] != "f"[0];
      forall id | HasEmail(t, id) ensures id == 1 || id == 2 {}
      assert IsStale(t.leases[1], now) && t.leases - {1} == map[2 := Lease(token, now)];
      assert (t.leases - {1})[2].token == token;
      assert TokenInUse(t.leases - {1}, token);
      var t' := ClaimOn(t, 1, token, now).0;
      assert t'.leases == t.leases - {1};
      assert HasEmail(t', 1);
    }
  }
}
