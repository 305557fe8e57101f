/** What each statement on the inbound tables keeps. */
module InboundStatements {
  import opened Wrappers
  import opened Text
  import opened MediaKey
  import opened ObjectStore
  import opened InboundTables
  import opened InboundProtocol
  import opened InboundInvariant

  /** Everything a statement must keep, whoever issues it. */
  ghost predicate TablesKept(t: Tables, t': Tables) {
    TablesOk(t') && RowsKept(t, t') && BodiesKept(t, t')
  }

  /** Stored attachments and body columns of `t'` were already those of `t`. */
  ghost predicate NothingRecorded(t: Tables, t': Tables) {
    && |t.emails| <= |t'.emails|
    && (forall i :: 0 <= i < |t.emails| ==>
          t'.emails[i].bodyKey == t.emails[i].bodyKey && t'.emails[i].bodyType == t.emails[i].bodyType
          && t'.emails[i].resendId == t.emails[i].resendId)
    && (forall i :: |t.emails| <= i < |t'.emails| ==> t'.emails[i].bodyKey.None?)
    && (forall i :: 0 <= i < |t'.attachments| && t'.attachments[i].state == Processing.Stored ==>
          i < |t.attachments| && t'.attachments[i] == t.attachments[i])
  }

  lemma BackedStays(t: Tables, t': Tables, store: Objects)
    requires ReferencesHold(t) && ReferencesHold(t') && Backed(t, store) && NothingRecorded(t, t')
    ensures Backed(t', store)
  {
    hide BodyKey, AttachmentKey, Trim, BeforeSemicolon, IsWord;
    forall i | 0 <= i < |t'.emails| ensures BodyBacked(t'.emails[i], store) {
      if i < |t.emails| { assert BodyBacked(t.emails[i], store); }
    }
    forall i | 0 <= i < |t'.attachments| ensures AttachmentBacked(t', t'.attachments[i], store) {
      if t'.attachments[i].state == Processing.Stored { assert AttachmentBacked(t, t.attachments[i], store); }
    }
  }

  // ---- one email row, one attachment row ----

  lemma EmailRowKept(t: Tables, emailId: int, e: Email, leases: map<int, Lease>)
    requires TablesOk(t) && HasEmail(t, emailId) && EmailKept(EmailAt(t, emailId), e)
    requires EmailAt(t, emailId).bodyType.Some? ==>
               e.bodyType == EmailAt(t, emailId).bodyType && e.bodyKey == EmailAt(t, emailId).bodyKey
    requires leases.Keys <= t.leases.Keys + {emailId}
    requires forall id :: id in t.leases && id != emailId ==> id in leases && leases[id] == t.leases[id]
    requires UniqueTokens(leases)
    requires (e.state == Pending <==> emailId in leases) && (e.state == Failed <==> e.error.Some?)
    ensures TablesKept(t, t.(emails := t.emails[emailId - 1 := e], leases := leases))
  {
    hide IsWord;
    var t' := t.(emails := t.emails[emailId - 1 := e], leases := leases);
    forall i, j | 0 <= i < j < |t'.emails| ensures t'.emails[i].resendId != t'.emails[j].resendId {
      assert t.emails[i].resendId != t.emails[j].resendId;
    }
    forall id | HasEmail(t', id)
      ensures EmailAt(t', id).state == Pending <==> id in t'.leases
      ensures EmailAt(t', id).state == Failed <==> EmailAt(t', id).error.Some?
    {
      if id != emailId { assert EmailAt(t', id) == EmailAt(t, id); }
    }
  }

  lemma AttachmentRowKept(t: Tables, id: int, a: Attachment)
    requires TablesOk(t) && HasAttachment(t, id) && AttachmentKept(AttachmentAt(t, id), a)
    ensures TablesKept(t, t.(attachments := t.attachments[id - 1 := a]))
  {
    hide IsWord;
    var t' := t.(attachments := t.attachments[id - 1 := a]);
    forall i, j | 0 <= i < j < |t'.attachments| ensures !SameProvider(t'.attachments[i], t'.attachments[j]) {
      assert !SameProvider(t.attachments[i], t.attachments[j]);
    }
    assert StatesAgree(t') by {
      forall e | HasEmail(t', e)
        ensures EmailAt(t', e).state == Pending <==> e in t'.leases
        ensures EmailAt(t', e).state == Failed <==> EmailAt(t', e).error.Some?
      { assert EmailAt(t', e) == EmailAt(t, e); }
    }
  }

  // ---- the owner's statements ----

  lemma RecordBodyKeeps(t: Tables, emailId: int, token: string, key: Option<string>, contentType: string)
    requires TablesOk(t) && RecordBody(t, emailId, token, key, contentType).Success?
    requires EmailAt(t, emailId).bodyType.None?
    ensures TablesKept(t, RecordBody(t, emailId, token, key, contentType).value)
  {
    hide IsWord, ValidToken, ValidContentType;
    var e := EmailAt(t, emailId).(bodyKey := key, bodyType := Some(contentType));
    EmailRowKept(t, emailId, e, t.leases);
  }

  lemma RecordedIsBacked(
    t: Tables, emailId: int, token: string, key: Option<string>, contentType: string, store: Objects)
    requires TablesOk(t) && Backed(t, store) && RecordBody(t, emailId, token, key, contentType).Success?
    requires BodyBacked(EmailAt(t, emailId).(bodyKey := key, bodyType := Some(contentType)), store)
    ensures ReferencesHold(RecordBody(t, emailId, token, key, contentType).value)
    ensures Backed(RecordBody(t, emailId, token, key, contentType).value, store)
  {
    hide BodyKey, AttachmentKey, Trim, BeforeSemicolon, IsWord, ValidToken, ValidContentType;
    var t' := RecordBody(t, emailId, token, key, contentType).value;
    forall i | 0 <= i < |t'.emails| ensures BodyBacked(t'.emails[i], store) {
      assert BodyBacked(t.emails[i], store);
    }
    forall i | 0 <= i < |t'.attachments| ensures AttachmentBacked(t', t'.attachments[i], store) {
      assert AttachmentBacked(t, t.attachments[i], store);
      assert HasEmail(t, t.attachments[i].emailId);
    }
  }

  lemma MarkedKeeps(t: Tables, id: int, key: string, size: nat)
    requires TablesOk(t) && HasAttachment(t, id) && AttachmentAt(t, id).state != Processing.Stored
    ensures TablesKept(t, Marked(t, id, key, size))
  {
    AttachmentRowKept(t, id, AttachmentAt(t, id).(state := Processing.Stored, key := Some(key), size := Some(size)));
  }

  lemma MarkedIsBacked(t: Tables, id: int, key: string, store: Objects)
    requires TablesOk(t) && Backed(t, store) && HasAttachment(t, id) && key in store
    requires HasEmail(t, AttachmentAt(t, id).emailId)
    requires key == AttachmentKey(EmailAt(t, AttachmentAt(t, id).emailId).resendId, AttachmentAt(t, id).resendId)
    ensures ReferencesHold(Marked(t, id, key, |store[key].bytes|))
    ensures Backed(Marked(t, id, key, |store[key].bytes|), store)
  {
    hide BodyKey, AttachmentKey, BodyBacked, IsWord;
    var t' := Marked(t, id, key, |store[key].bytes|);
    assert ReferencesHold(t') by {
      forall i | 0 <= i < |t'.attachments| ensures HasEmail(t', t'.attachments[i].emailId) {
        assert HasEmail(t, t.attachments[i].emailId);
      }
    }
    forall i | 0 <= i < |t'.attachments| ensures AttachmentBacked(t', t'.attachments[i], store) {
      assert AttachmentBacked(t, t.attachments[i], store);
    }
  }

  lemma MarkAttachmentErrorKeeps(t: Tables, emailId: int, id: int, token: string)
    requires TablesOk(t) && MarkAttachmentError(t, emailId, id, token).Success?
    ensures TablesKept(t, MarkAttachmentError(t, emailId, id, token).value)
    ensures NothingRecorded(t, MarkAttachmentError(t, emailId, id, token).value)
  {
    hide ValidToken;
    AttachmentRowKept(t, id, AttachmentAt(t, id).(state := Failed));
  }

  lemma CompleteKeeps(t: Tables, emailId: int, token: string)
    requires TablesOk(t) && Complete(t, emailId, token).Success?
    ensures TablesKept(t, Complete(t, emailId, token).value)
    ensures NothingRecorded(t, Complete(t, emailId, token).value)
  {
    hide ValidToken;
    EmailRowKept(t, emailId, EmailAt(t, emailId).(state := Processing.Stored, error := None), t.leases - {emailId});
  }

  lemma FailKeeps(t: Tables, emailId: int, token: string, message: string)
    requires TablesOk(t) && Fail(t, emailId, token, message).Success?
    ensures TablesKept(t, Fail(t, emailId, token, message).value)
    ensures NothingRecorded(t, Fail(t, emailId, token, message).value)
  {
    hide ValidToken, ValidPublicError;
    EmailRowKept(t, emailId, EmailAt(t, emailId).(state := Failed, error := Some(message)), t.leases - {emailId});
  }

  // ---- claims ----

  /** The states agree but for one email, which is new or about to be claimed. */
  ghost predicate AlmostOk(t: Tables, emailId: int) {
    && UniqueEmails(t.emails) && UniqueAttachments(t.attachments) && UniqueTokens(t.leases) && ReferencesHold(t)
    && forall id :: HasEmail(t, id) && id != emailId ==>
         && (EmailAt(t, id).state == Pending <==> id in t.leases)
         && (EmailAt(t, id).state == Failed <==> EmailAt(t, id).error.Some?)
  }

  function Acquire(t: Tables, emailId: int, token: string, now: int): Tables
    requires HasEmail(t, emailId)
  {
    Tables(t.emails[emailId - 1 := EmailAt(t, emailId).(state := Pending, error := None)],
           ReopenAll(t.attachments, emailId), t.leases[emailId := Lease(token, now)])
  }

  /** A claim whose token is in no lease either acquires the email or finds the
      tables as they were. */
  lemma ClaimOnDecides(t: Tables, emailId: int, token: string, now: int)
    requires HasEmail(t, emailId) && !TokenInUse(t.leases, token)
    ensures var (t', outcome) := ClaimOn(t, emailId, token, now);
            && (outcome.Acquired? <==> EmailAt(t, emailId).state != Processing.Stored
                                       && (emailId in t.leases ==> IsStale(t.leases[emailId], now)))
            && (outcome.Acquired? ==>
                  && t' == Acquire(t, emailId, token, now)
                  && outcome.claim
                     == Claim(emailId, EmailAt(t', emailId), AttachmentsOf(t'.attachments, emailId), token))
            && (!outcome.Acquired? ==> t' == t)
            && (outcome.AlreadyStored? <==> EmailAt(t, emailId).state == Processing.Stored)
            && (outcome.AlreadyStored? ==> outcome.emailId == emailId)
            && (outcome.Busy? ==> outcome.emailId == emailId)
  {
    hide ReopenAll, AttachmentsOf;
    assert ExpireLease(t.leases, emailId, now)[emailId := Lease(token, now)] == t.leases[emailId := Lease(token, now)];
  }

  lemma AcquireLeases(t: Tables, emailId: int, token: string, now: int)
    requires UniqueTokens(t.leases) && !TokenInUse(t.leases, token)
    ensures UniqueTokens(t.leases[emailId := Lease(token, now)])
  {
  }

  lemma AcquireRows(t: Tables, emailId: int, token: string, now: int)
    requires HasEmail(t, emailId) && AlmostOk(t, emailId) && EmailAt(t, emailId).state != Processing.Stored
    ensures var t' := Acquire(t, emailId, token, now);
            UniqueEmails(t'.emails) && UniqueAttachments(t'.attachments) && ReferencesHold(t') && StatesAgree(t')
  {
    hide IsWord;
    var t' := Acquire(t, emailId, token, now);
    var rows := t'.attachments;
    forall i, j | 0 <= i < j < |rows| ensures !SameProvider(rows[i], rows[j]) {
      assert !SameProvider(t.attachments[i], t.attachments[j]);
    }
    assert ReferencesHold(t') by {
      forall i | 0 <= i < |rows| ensures HasEmail(t', rows[i].emailId) {
        assert HasEmail(t, t.attachments[i].emailId);
      }
    }
    assert StatesAgree(t') by {
      forall id | HasEmail(t', id)
        ensures EmailAt(t', id).state == Pending <==> id in t'.leases
        ensures EmailAt(t', id).state == Failed <==> EmailAt(t', id).error.Some?
      { if id != emailId { assert EmailAt(t', id) == EmailAt(t, id); } }
    }
  }

  lemma AcquireKeeps(t: Tables, emailId: int, token: string, now: int)
    requires HasEmail(t, emailId) && AlmostOk(t, emailId) && !TokenInUse(t.leases, token)
    requires EmailAt(t, emailId).state != Processing.Stored
    ensures var t' := Acquire(t, emailId, token, now); TablesKept(t, t') && NothingRecorded(t, t')
  {
    AcquireLeases(t, emailId, token, now);
    AcquireRows(t, emailId, token, now);
    hide IsWord, UniqueTokens, UniqueEmails, UniqueAttachments, ReferencesHold, StatesAgree;
  }

  lemma OkIsAlmostOk(t: Tables, emailId: int)
    requires TablesOk(t)
    ensures AlmostOk(t, emailId)
  {
    hide IsWord;
  }

  // ---- webhooks ----

  lemma AppendKeepsUnique(rows: seq<Attachment>, a: Attachment)
    requires UniqueAttachments(rows) && FindAttachment(rows, a.emailId, a.resendId) == 0
    ensures UniqueAttachments(rows + [a])
  {
  }

  lemma FoundStaysFound(rows: seq<Attachment>, a: Attachment, emailId: int, resendId: string)
    ensures FindAttachment(rows + [a], emailId, resendId) > 0 <==>
              FindAttachment(rows, emailId, resendId) > 0 || (a.emailId == emailId && a.resendId == resendId)
  {
    var found := FindAttachment(rows, emailId, resendId);
    if found > 0 { assert (rows + [a])[found - 1] == rows[found - 1]; }
    var found' := FindAttachment(rows + [a], emailId, resendId);
    assert (rows + [a])[|rows|] == a;
  }

  lemma AddOne(rows: seq<Attachment>, emailId: int, drafts: seq<AttachmentDraft>, n: nat)
    requires 0 < n <= |drafts| && AddAttachments(rows, emailId, drafts, n).Success?
    ensures AddAttachments(rows, emailId, drafts, n - 1).Success?
    ensures var before := AddAttachments(rows, emailId, drafts, n - 1).value;
            AddAttachments(rows, emailId, drafts, n).value
            == if FindAttachment(before, emailId, drafts[n - 1].resendId) == 0
               then before + [NewAttachment(emailId, drafts[n - 1])] else before
  {
    hide FindAttachment;
  }

  lemma {:induction false} AddAttachmentsAppends(
    rows: seq<Attachment>, emailId: int, drafts: seq<AttachmentDraft>, n: nat)
    requires n <= |drafts| && UniqueAttachments(rows) && AddAttachments(rows, emailId, drafts, n).Success?
    ensures var rows' := AddAttachments(rows, emailId, drafts, n).value;
            && UniqueAttachments(rows') && rows <= rows'
            && (forall i :: |rows| <= i < |rows'| ==> rows'[i].emailId == emailId && rows'[i].state == Pending)
  {
    if n > 0 {
      AddOne(rows, emailId, drafts, n);
      AddAttachmentsAppends(rows, emailId, drafts, n - 1);
      var before := AddAttachments(rows, emailId, drafts, n - 1).value;
      hide AddAttachments, UniqueAttachments;
      if FindAttachment(before, emailId, drafts[n - 1].resendId) == 0 {
        AppendKeepsUnique(before, NewAttachment(emailId, drafts[n - 1]));
      }
    }
  }

  predicate Lists(rows: seq<Attachment>, emailId: int, drafts: seq<AttachmentDraft>, n: nat)
    requires n <= |drafts|
  {
    forall k :: 0 <= k < n ==> FindAttachment(rows, emailId, drafts[k].resendId) > 0
  }

  lemma {:induction false} AddAttachmentsLists(
    rows: seq<Attachment>, emailId: int, drafts: seq<AttachmentDraft>, n: nat)
    requires n <= |drafts| && AddAttachments(rows, emailId, drafts, n).Success?
    ensures Lists(AddAttachments(rows, emailId, drafts, n).value, emailId, drafts, n)
    ensures |rows| <= |AddAttachments(rows, emailId, drafts, n).value|
    ensures |AddAttachments(rows, emailId, drafts, n).value| == |rows| ==>
              AddAttachments(rows, emailId, drafts, n).value == rows
    ensures Lists(rows, emailId, drafts, n) ==> AddAttachments(rows, emailId, drafts, n).value == rows
  {
    if n > 0 {
      AddOne(rows, emailId, drafts, n);
      AddAttachmentsLists(rows, emailId, drafts, n - 1);
      var before := AddAttachments(rows, emailId, drafts, n - 1).value;
      hide AddAttachments, FindAttachment;
      if FindAttachment(before, emailId, drafts[n - 1].resendId) == 0 {
        ListsOneMore(before, emailId, drafts, n);
      }
    }
  }

  lemma ListsOneMore(before: seq<Attachment>, emailId: int, drafts: seq<AttachmentDraft>, n: nat)
    requires 0 < n <= |drafts| && Lists(before, emailId, drafts, n - 1)
    ensures Lists(before + [NewAttachment(emailId, drafts[n - 1])], emailId, drafts, n)
  {
    hide FindAttachment;
    var a := NewAttachment(emailId, drafts[n - 1]);
    forall k | 0 <= k < n ensures FindAttachment(before + [a], emailId, drafts[k].resendId) > 0 {
      FoundStaysFound(before, a, emailId, drafts[k].resendId);
    }
  }

  /** The tables between a webhook's inserts and its claim. */
  function Inserted(t: Tables, d: EmailDraft): Tables {
    if FindEmail(t.emails, d.resendId) == 0 then t.(emails := t.emails + [NewEmail(d)]) else t
  }

  function EmailIdOf(t: Tables, d: EmailDraft): int {
    var found := FindEmail(t.emails, d.resendId); if found == 0 then |t.emails| + 1 else found
  }

  lemma InsertedIsAlmostOk(t: Tables, d: EmailDraft)
    requires TablesOk(t) && ValidProviderId(d.resendId)
    ensures var t1, emailId := Inserted(t, d), EmailIdOf(t, d);
            && HasEmail(t1, emailId) && AlmostOk(t1, emailId) && RowsKept(t, t1) && BodiesKept(t, t1)
            && NothingRecorded(t, t1) && t1.attachments == t.attachments && t1.leases == t.leases
            && (t1 == t || (EmailAt(t1, emailId).state != Processing.Stored && emailId !in t1.leases))
            && EmailAt(t1, emailId).resendId == d.resendId
            && |t1.emails| == (if emailId > |t.emails| then emailId else |t.emails|) <= |t.emails| + 1
  {
    hide FindEmail, ValidProviderId;
    var t1 := Inserted(t, d);
    if t1 != t { NewEmailIsAlmostOk(t, d); }
    else {
      OkIsAlmostOk(t, EmailIdOf(t, d));
      hide TablesOk, AlmostOk;
      FoundEmail(t, d);
    }
  }

  lemma FoundEmail(t: Tables, d: EmailDraft)
    ensures FindEmail(t.emails, d.resendId) > 0 ==>
              HasEmail(t, EmailIdOf(t, d)) && EmailAt(t, EmailIdOf(t, d)).resendId == d.resendId
  {
  }

  lemma NewEmailIsAlmostOk(t: Tables, d: EmailDraft)
    requires TablesOk(t) && ValidProviderId(d.resendId) && FindEmail(t.emails, d.resendId) == 0
    ensures var t1 := t.(emails := t.emails + [NewEmail(d)]);
            AlmostOk(t1, |t1.emails|) && RowsKept(t, t1) && BodiesKept(t, t1) && NothingRecorded(t, t1)
            && |t1.emails| !in t1.leases
  {
    var t1 := t.(emails := t.emails + [NewEmail(d)]);
    forall i | 0 <= i < |t1.emails| ensures IsWord(t1.emails[i].resendId) {
      if i < |t.emails| { assert IsWord(t.emails[i].resendId); }
    }
    hide IsWord;
    forall id | HasEmail(t1, id) && id <= |t.emails| ensures EmailAt(t1, id) == EmailAt(t, id) {}
    forall i | 0 <= i < |t.attachments| ensures HasEmail(t1, t.attachments[i].emailId) {
      assert HasEmail(t, t.attachments[i].emailId);
    }
    forall id | id in t.leases ensures HasEmail(t1, id) && id <= |t.emails| { assert HasEmail(t, id); }
  }

  lemma {:induction false} WebhookIsClaim(t: Tables, d: EmailDraft, token: string, now: int)
    requires ClaimWebhook(t, d, token, now).Success?
    ensures ValidProviderId(d.resendId) && HasEmail(Inserted(t, d), EmailIdOf(t, d))
    ensures AddAttachments(t.attachments, EmailIdOf(t, d), d.attachments, |d.attachments|).Success?
    ensures var rows := AddAttachments(t.attachments, EmailIdOf(t, d), d.attachments, |d.attachments|).value;
            ClaimWebhook(t, d, token, now).value
            == ClaimOn(Inserted(t, d).(attachments := rows), EmailIdOf(t, d), token, now)
  {
    hide ClaimOn, AddAttachments, ValidToken, ValidAttachmentDraft, ValidText;
  }

  lemma RowsAddedAreAlmostOk(t: Tables, emailId: int, rows: seq<Attachment>)
    requires AlmostOk(t, emailId) && HasEmail(t, emailId) && UniqueAttachments(rows) && t.attachments <= rows
    requires forall i :: |t.attachments| <= i < |rows| ==> rows[i].emailId == emailId && rows[i].state == Pending
    ensures var t' := t.(attachments := rows);
            AlmostOk(t', emailId) && RowsKept(t, t') && BodiesKept(t, t') && NothingRecorded(t, t')
            && (TablesOk(t) ==> TablesOk(t'))
  {
    hide IsWord, UniqueAttachments, UniqueEmails, UniqueTokens;
    var t' := t.(attachments := rows);
    forall i | 0 <= i < |rows| ensures HasEmail(t', rows[i].emailId) {
      if i < |t.attachments| {
        assert rows[i] == t.attachments[i];
        assert HasEmail(t, t.attachments[i].emailId);
      }
    }
    forall id | HasEmail(t', id) ensures HasEmail(t, id) && EmailAt(t', id) == EmailAt(t, id) {}
    assert StatesAgree(t) ==> StatesAgree(t');
  }

  /** What a claim, fresh or not, makes of the tables. */
  ghost predicate ClaimEffect(t: Tables, t': Tables, outcome: ClaimOutcome, token: string, now: int) {
    && TablesKept(t, t') && NothingRecorded(t, t')
    && (outcome.Acquired? ==>
          && outcome.claim.token == token && HasEmail(t', outcome.claim.emailId)
          && outcome.claim.email == EmailAt(t', outcome.claim.emailId)
          && outcome.claim.attachments == AttachmentsOf(t'.attachments, outcome.claim.emailId)
          && t'.leases == t.leases[outcome.claim.emailId := Lease(token, now)]
          && (outcome.claim.emailId in t.leases ==> IsStale(t.leases[outcome.claim.emailId], now)))
    && (!outcome.Acquired? ==> t'.leases == t.leases)
  }

  lemma ClaimOnKeeps(t: Tables, emailId: int, token: string, now: int)
    requires HasEmail(t, emailId) && AlmostOk(t, emailId) && !TokenInUse(t.leases, token)
    requires TablesOk(t) || (EmailAt(t, emailId).state != Processing.Stored && emailId !in t.leases)
    ensures ClaimEffect(t, ClaimOn(t, emailId, token, now).0, ClaimOn(t, emailId, token, now).1, token, now)
  {
    ClaimOnDecides(t, emailId, token, now);
    if EmailAt(t, emailId).state != Processing.Stored { AcquireKeeps(t, emailId, token, now); }
    hide ClaimOn, AlmostOk, TablesOk, IsStale, AttachmentsOf, ReopenAll, TokenInUse;
  }

  lemma RetryKeeps(t: Tables, emailId: int, token: string, now: int)
    requires TablesOk(t) && !TokenInUse(t.leases, token) && ClaimRetry(t, emailId, token, now).Success?
    ensures var (t', outcome) := ClaimRetry(t, emailId, token, now).value; ClaimEffect(t, t', outcome, token, now)
  {
    OkIsAlmostOk(t, emailId);
    ClaimOnKeeps(t, emailId, token, now);
    hide ClaimOn, TablesOk, AlmostOk, ClaimEffect, TokenInUse;
  }

  lemma EffectComposes(t: Tables, t1: Tables, t2: Tables, t': Tables, outcome: ClaimOutcome, token: string, now: int)
    requires RowsKept(t, t1) && BodiesKept(t, t1) && NothingRecorded(t, t1) && t1.leases == t.leases
    requires RowsKept(t1, t2) && BodiesKept(t1, t2) && NothingRecorded(t1, t2) && t2.leases == t.leases
    requires ClaimEffect(t2, t', outcome, token, now)
    ensures ClaimEffect(t, t', outcome, token, now)
  {
    hide TablesOk, IsStale, AttachmentsOf;
  }

  lemma WebhookKeeps(t: Tables, d: EmailDraft, token: string, now: int)
    requires TablesOk(t) && !TokenInUse(t.leases, token) && ClaimWebhook(t, d, token, now).Success?
    ensures var (t', outcome) := ClaimWebhook(t, d, token, now).value; ClaimEffect(t, t', outcome, token, now)
  {
    WebhookIsClaim(t, d, token, now);
    InsertedIsAlmostOk(t, d);
    var t1, emailId := Inserted(t, d), EmailIdOf(t, d);
    AddAttachmentsAppends(t.attachments, emailId, d.attachments, |d.attachments|);
    var rows := AddAttachments(t.attachments, emailId, d.attachments, |d.attachments|).value;
    RowsAddedAreAlmostOk(t1, emailId, rows);
    var t2 := t1.(attachments := rows);
    ClaimOnKeeps(t2, emailId, token, now);
    hide ClaimOn, ClaimEffect, TablesOk, AlmostOk, ClaimWebhook, AddAttachments;
    var (t', outcome) := ClaimOn(t2, emailId, token, now);
    EffectComposes(t, t1, t2, t', outcome, token, now);
  }
}
