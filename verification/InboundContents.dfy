/** What deliveries and claims put into the tables, told from the delivery and
    the rows alone. */
module InboundContents {
  import opened Wrappers
  import opened Text
  import opened InboundTables
  import opened InboundProtocol
  import opened InboundInvariant
  import opened InboundStatements
  import opened InboundSafety

  // ---- attachments of a delivery ----

  predicate SameMetadata(a: Attachment, d: AttachmentDraft) {
    a.filename == d.filename && a.contentType == d.contentType
  }

  predicate IsRowOf(a: Attachment, emailId: int, d: AttachmentDraft) {
    a.emailId == emailId && a.resendId == d.resendId
  }

  /** A row as announced, with nothing stored yet. */
  predicate IsFresh(a: Attachment, emailId: int, d: AttachmentDraft) {
    && IsRowOf(a, emailId, d) && SameMetadata(a, d) && a.size == None && a.key == None
    && a.state == Processing.Pending
  }

  /** The first `n` drafts agree with the rows there are, and with each other. */
  ghost predicate Agree(rows: seq<Attachment>, emailId: int, drafts: seq<AttachmentDraft>, n: nat)
    requires n <= |drafts|
  {
    && (forall i, j :: 0 <= i < |rows| && 0 <= j < n && IsRowOf(rows[i], emailId, drafts[j]) ==>
          SameMetadata(rows[i], drafts[j]))
    && (forall j, k :: 0 <= j < k < n && drafts[j].resendId == drafts[k].resendId ==>
          drafts[j].filename == drafts[k].filename && drafts[j].contentType == drafts[k].contentType)
  }

  ghost predicate HasRowFor(rows: seq<Attachment>, emailId: int, d: AttachmentDraft) {
    exists i :: 0 <= i < |rows| && IsRowOf(rows[i], emailId, d) && SameMetadata(rows[i], d)
  }

  ghost predicate IsFreshOfSome(a: Attachment, emailId: int, drafts: seq<AttachmentDraft>, n: nat)
    requires n <= |drafts|
  {
    exists j :: 0 <= j < n && IsFresh(a, emailId, drafts[j])
  }

  /** The rows after the first `n` drafts. */
  ghost predicate AsListed(
    rows: seq<Attachment>, rows': seq<Attachment>, emailId: int, drafts: seq<AttachmentDraft>, n: nat)
    requires n <= |drafts|
  {
    && rows <= rows'
    && (forall i :: |rows| <= i < |rows'| ==> IsFreshOfSome(rows'[i], emailId, drafts, n))
    && (forall j :: 0 <= j < n ==> HasRowFor(rows', emailId, drafts[j]))
  }

  lemma {:induction false} DraftsAreTakenIff(
    rows: seq<Attachment>, emailId: int, drafts: seq<AttachmentDraft>, n: nat)
    requires n <= |drafts| && UniqueAttachments(rows)
    ensures AddAttachments(rows, emailId, drafts, n).Success? <==> Agree(rows, emailId, drafts, n)
    ensures AddAttachments(rows, emailId, drafts, n).Success? ==>
              AsListed(rows, AddAttachments(rows, emailId, drafts, n).value, emailId, drafts, n)
    ensures AddAttachments(rows, emailId, drafts, n).Failure? ==>
              AddAttachments(rows, emailId, drafts, n) == Failure(Conflict)
  {
    hide FindAttachment, UniqueAttachments, Agree, AsListed;
    if n == 0 {
      NoneTaken(rows, emailId, drafts);
    } else {
      DraftsAreTakenIff(rows, emailId, drafts, n - 1);
      var r := AddAttachments(rows, emailId, drafts, n - 1);
      FewerAgree(rows, emailId, drafts, n);
      if r.Success? {
        AddAttachmentsAppends(rows, emailId, drafts, n - 1);
        OneMoreTaken(rows, r.value, emailId, drafts, n);
      }
    }
  }

  lemma NoneTaken(rows: seq<Attachment>, emailId: int, drafts: seq<AttachmentDraft>)
    ensures Agree(rows, emailId, drafts, 0) && AsListed(rows, rows, emailId, drafts, 0)
  {
  }

  lemma FewerAgree(rows: seq<Attachment>, emailId: int, drafts: seq<AttachmentDraft>, n: nat)
    requires 0 < n <= |drafts|
    ensures Agree(rows, emailId, drafts, n) ==> Agree(rows, emailId, drafts, n - 1)
  {
  }

  /** The draft agrees with the rows so far exactly if it agrees with all that
      came before it. */
  lemma OneMoreTaken(
    rows: seq<Attachment>, before: seq<Attachment>, emailId: int, drafts: seq<AttachmentDraft>, n: nat)
    requires 0 < n <= |drafts| && Agree(rows, emailId, drafts, n - 1) && UniqueAttachments(before)
    requires AsListed(rows, before, emailId, drafts, n - 1)
    ensures var d := drafts[n - 1];
            var found := FindAttachment(before, emailId, d.resendId);
            && (found == 0 ==>
                  && Agree(rows, emailId, drafts, n)
                  && AsListed(rows, before + [NewAttachment(emailId, d)], emailId, drafts, n))
            && (found > 0 ==>
                  && (SameMetadata(before[found - 1], d) <==> Agree(rows, emailId, drafts, n))
                  && (SameMetadata(before[found - 1], d) ==> AsListed(rows, before, emailId, drafts, n)))
  {
    var d := drafts[n - 1];
    var found := FindAttachment(before, emailId, d.resendId);
    if found == 0 {
      NewDraftAgrees(rows, before, emailId, drafts, n);
      NewDraftIsAnnounced(rows, before, emailId, drafts, n);
    } else {
      KnownDraftAgreesIff(rows, before, emailId, drafts, n, found);
      if SameMetadata(before[found - 1], d) { KnownDraftIsAnnounced(rows, before, emailId, drafts, n, found); }
    }
  }

  lemma NewDraftAgrees(
    rows: seq<Attachment>, before: seq<Attachment>, emailId: int, drafts: seq<AttachmentDraft>, n: nat)
    requires 0 < n <= |drafts| && Agree(rows, emailId, drafts, n - 1) && AsListed(rows, before, emailId, drafts, n - 1)
    requires forall i :: 0 <= i < |before| ==> !IsRowOf(before[i], emailId, drafts[n - 1])
    ensures Agree(rows, emailId, drafts, n)
  {
    forall i | 0 <= i < |rows| ensures !IsRowOf(rows[i], emailId, drafts[n - 1]) { assert before[i] == rows[i]; }
    forall j | 0 <= j < n - 1 ensures drafts[j].resendId != drafts[n - 1].resendId {
      assert HasRowFor(before, emailId, drafts[j]);
    }
  }

  lemma NewDraftIsAnnounced(
    rows: seq<Attachment>, before: seq<Attachment>, emailId: int, drafts: seq<AttachmentDraft>, n: nat)
    requires 0 < n <= |drafts| && AsListed(rows, before, emailId, drafts, n - 1)
    ensures AsListed(rows, before + [NewAttachment(emailId, drafts[n - 1])], emailId, drafts, n)
  {
    var a := NewAttachment(emailId, drafts[n - 1]);
    var rows' := before + [a];
    forall i | |rows| <= i < |rows'| ensures IsFreshOfSome(rows'[i], emailId, drafts, n) {
      if i < |before| {
        assert IsFreshOfSome(before[i], emailId, drafts, n - 1);
        var j :| 0 <= j < n - 1 && IsFresh(before[i], emailId, drafts[j]);
        assert IsFresh(rows'[i], emailId, drafts[j]);
      } else {
        assert IsFresh(rows'[i], emailId, drafts[n - 1]);
      }
    }
    forall j | 0 <= j < n ensures HasRowFor(rows', emailId, drafts[j]) {
      if j < n - 1 {
        assert HasRowFor(before, emailId, drafts[j]);
        var i :| 0 <= i < |before| && IsRowOf(before[i], emailId, drafts[j]) && SameMetadata(before[i], drafts[j]);
        assert rows'[i] == before[i];
      } else {
        assert rows'[|before|] == a;
      }
    }
  }

  lemma KnownDraftAgreesIff(
    rows: seq<Attachment>, before: seq<Attachment>, emailId: int, drafts: seq<AttachmentDraft>, n: nat, found: int)
    requires 0 < n <= |drafts| && Agree(rows, emailId, drafts, n - 1) && AsListed(rows, before, emailId, drafts, n - 1)
    requires UniqueAttachments(before) && 1 <= found <= |before| && IsRowOf(before[found - 1], emailId, drafts[n - 1])
    ensures SameMetadata(before[found - 1], drafts[n - 1]) <==> Agree(rows, emailId, drafts, n)
  {
    var d := drafts[n - 1];
    EarlierDraftsAreTheRow(rows, before, emailId, drafts, n, found);
    forall i | 0 <= i < |before| && IsRowOf(before[i], emailId, d) ensures i == found - 1 {}
    forall i | 0 <= i < |rows| ensures before[i] == rows[i] {}
    hide AsListed, UniqueAttachments;
    if found - 1 >= |rows| {
      assert IsFreshOfSome(before[found - 1], emailId, drafts, n - 1);
      var j :| 0 <= j < n - 1 && IsFresh(before[found - 1], emailId, drafts[j]);
      assert drafts[j].resendId == d.resendId;
    } else {
      assert rows[found - 1] == before[found - 1];
    }
  }

  lemma EarlierDraftsAreTheRow(
    rows: seq<Attachment>, before: seq<Attachment>, emailId: int, drafts: seq<AttachmentDraft>, n: nat, found: int)
    requires 0 < n <= |drafts| && AsListed(rows, before, emailId, drafts, n - 1)
    requires UniqueAttachments(before) && 1 <= found <= |before| && IsRowOf(before[found - 1], emailId, drafts[n - 1])
    ensures forall j :: 0 <= j < n - 1 && drafts[j].resendId == drafts[n - 1].resendId ==>
              SameMetadata(before[found - 1], drafts[j])
  {
    var d := drafts[n - 1];
    forall j | 0 <= j < n - 1 && drafts[j].resendId == d.resendId
      ensures SameMetadata(before[found - 1], drafts[j])
    {
      assert HasRowFor(before, emailId, drafts[j]);
      var i :| 0 <= i < |before| && IsRowOf(before[i], emailId, drafts[j]) && SameMetadata(before[i], drafts[j]);
      assert IsRowOf(before[i], emailId, d);
    }
  }

  lemma KnownDraftIsAnnounced(
    rows: seq<Attachment>, before: seq<Attachment>, emailId: int, drafts: seq<AttachmentDraft>, n: nat, found: int)
    requires 0 < n <= |drafts| && AsListed(rows, before, emailId, drafts, n - 1)
    requires 1 <= found <= |before| && IsRowOf(before[found - 1], emailId, drafts[n - 1])
    requires SameMetadata(before[found - 1], drafts[n - 1])
    ensures AsListed(rows, before, emailId, drafts, n)
  {
    forall i | |rows| <= i < |before| ensures IsFreshOfSome(before[i], emailId, drafts, n) {
      assert IsFreshOfSome(before[i], emailId, drafts, n - 1);
      var j :| 0 <= j < n - 1 && IsFresh(before[i], emailId, drafts[j]);
      assert IsFresh(before[i], emailId, drafts[j]);
    }
  }

  // ---- deliveries ----

  /** Sender, recipients, subject and time are those on record. */
  ghost predicate HeaderAgrees(t: Tables, d: EmailDraft) {
    forall id :: HasEmail(t, id) && t.emails[id - 1].resendId == d.resendId ==> t.emails[id - 1].header == d.header
  }

  /** A sound delivery is taken exactly if an email with its provider id has its
      header, and every attachment it lists is as announced before. */
  lemma DeliveryIsTakenIff(t: Tables, d: EmailDraft, token: string, now: int)
    requires TablesOk(t) && ValidEmailDraft(d) && ValidToken(token)
    ensures ClaimWebhook(t, d, token, now).Success? <==>
              HeaderAgrees(t, d) && Agree(t.attachments, EmailIdOf(t, d), d.attachments, |d.attachments|)
    ensures ClaimWebhook(t, d, token, now).Failure? ==> ClaimWebhook(t, d, token, now) == Failure(Conflict)
  {
    hide ValidEmailDraft, ValidToken, ClaimOn, Agree, AddAttachments, FindEmail;
    DraftsAreTakenIff(t.attachments, EmailIdOf(t, d), d.attachments, |d.attachments|);
    var found := FindEmail(t.emails, d.resendId);
    if found > 0 {
      assert HasEmail(t, found);
      forall id | HasEmail(t, id) && t.emails[id - 1].resendId == d.resendId ensures id == found {}
    }
  }

  /** What the tables hold of a delivery that was taken: the email, new with just
      what was delivered or as it was; a row for every attachment listed; and no
      other new row. */
  lemma DeliveryIsOnRecord(t: Tables, d: EmailDraft, token: string, now: int)
    requires TablesOk(t) && !TokenInUse(t.leases, token) && ClaimWebhook(t, d, token, now).Success?
    ensures var t', id := ClaimWebhook(t, d, token, now).value.0, EmailIdOf(t, d);
            && HasEmail(t', id) && |t.attachments| <= |t'.attachments|
            && (id > |t.emails| ==>
                  && |t'.emails| == id == |t.emails| + 1
                  && t'.emails[id - 1]
                     == Email(d.resendId, d.header, d.payload, None, None, Processing.Pending, None))
            && t'.emails[id - 1].resendId == d.resendId && t'.emails[id - 1].header == d.header
            && (forall j :: 0 <= j < |d.attachments| ==> HasRowFor(t'.attachments, id, d.attachments[j]))
            && (forall i :: |t.attachments| <= i < |t'.attachments| ==>
                  IsFreshOfSome(t'.attachments[i], id, d.attachments, |d.attachments|))
  {
    WebhookIsClaim(t, d, token, now);
    InsertedIsAlmostOk(t, d);
    var t1, id := Inserted(t, d), EmailIdOf(t, d);
    DraftsAreTakenIff(t.attachments, id, d.attachments, |d.attachments|);
    var rows := AddAttachments(t.attachments, id, d.attachments, |d.attachments|).value;
    var t2 := t1.(attachments := rows);
    TakenHeader(t, d, token, now);
    ClaimShows(t2, id, token, now);
    hide ClaimOn, ClaimWebhook, AddAttachments, TablesOk, AlmostOk, RowsKept, BodiesKept, NothingRecorded, FindEmail,
         ValidProviderId, HasRowFor, IsFreshOfSome;
    var t' := ClaimWebhook(t, d, token, now).value.0;
    forall j | 0 <= j < |d.attachments| ensures HasRowFor(t'.attachments, id, d.attachments[j]) {
      RowStaysFor(rows, t'.attachments, id, d.attachments[j]);
    }
    forall i | |t.attachments| <= i < |t'.attachments|
      ensures IsFreshOfSome(t'.attachments[i], id, d.attachments, |d.attachments|)
    {
      FreshStays(rows[i], t'.attachments[i], id, d.attachments);
    }
  }

  lemma TakenHeader(t: Tables, d: EmailDraft, token: string, now: int)
    requires ClaimWebhook(t, d, token, now).Success?
    ensures var id := EmailIdOf(t, d); id <= |t.emails| ==> HasEmail(t, id) && t.emails[id - 1].header == d.header
  {
    hide ValidEmailDraft, ValidToken, ClaimOn, AddAttachments;
  }

  /** What a claim shows of its email and attachments. */
  lemma ClaimShows(t: Tables, id: int, token: string, now: int)
    requires HasEmail(t, id) && !TokenInUse(t.leases, token)
    ensures var (t', outcome) := ClaimOn(t, id, token, now);
            && |t'.emails| == |t.emails| && |t'.attachments| == |t.attachments|
            && t'.emails[id - 1].(state := t.emails[id - 1].state, error := t.emails[id - 1].error) == t.emails[id - 1]
            && (t.emails[id - 1].state == Processing.Pending && t.emails[id - 1].error == None ==>
                  t'.emails[id - 1] == t.emails[id - 1])
            && (forall other :: HasEmail(t, other) && other != id ==> t'.emails[other - 1] == t.emails[other - 1])
            && (forall i :: 0 <= i < |t.attachments| ==>
                  t'.attachments[i].(state := t.attachments[i].state) == t.attachments[i]
                  && (t.attachments[i].state == Processing.Pending ==> t'.attachments[i] == t.attachments[i]))
            && (outcome.Acquired? ==>
                  && t'.emails[id - 1].state == Processing.Pending && t'.emails[id - 1].error == None
                  && (forall i :: 0 <= i < |t.attachments| && t.attachments[i].emailId == id ==>
                        t'.attachments[i].state
                        == if t.attachments[i].state == Processing.Stored then Processing.Stored
                           else Processing.Pending))
  {
    ClaimOnDecides(t, id, token, now);
    hide ClaimOn, TokenInUse, AttachmentsOf;
  }

  lemma RowStaysFor(rows: seq<Attachment>, rows': seq<Attachment>, emailId: int, d: AttachmentDraft)
    requires |rows'| == |rows| && HasRowFor(rows, emailId, d)
    requires forall i :: 0 <= i < |rows| ==> rows'[i].(state := rows[i].state) == rows[i]
    ensures HasRowFor(rows', emailId, d)
  {
    var i :| 0 <= i < |rows| && IsRowOf(rows[i], emailId, d) && SameMetadata(rows[i], d);
    assert rows'[i].(state := rows[i].state) == rows[i];
    assert IsRowOf(rows'[i], emailId, d) && SameMetadata(rows'[i], d);
  }

  lemma FreshStays(a: Attachment, a': Attachment, emailId: int, drafts: seq<AttachmentDraft>)
    requires IsFreshOfSome(a, emailId, drafts, |drafts|)
    requires a.state == Processing.Pending ==> a' == a
    ensures IsFreshOfSome(a', emailId, drafts, |drafts|)
  {
    var j :| 0 <= j < |drafts| && IsFresh(a, emailId, drafts[j]);
    assert IsFresh(a', emailId, drafts[j]);
  }

  // ---- what an owner sets out to store ----

  /** Exactly the rows that are not stored yet. */
  lemma {:induction false} PendingOfIsExact(rows: seq<(int, Attachment)>, row: (int, Attachment))
    ensures row in PendingOf(rows) <==> row in rows && row.1.state != Processing.Stored
  {
    if rows != [] {
      var init, last := rows[..|rows| - 1], rows[|rows| - 1];
      PendingOfIsExact(init, row);
      assert rows == init + [last];
    }
  }

  /** The rows of the email, with their ids. */
  lemma {:induction false} AttachmentsOfIsExact(attachments: seq<Attachment>, emailId: int, id: int, a: Attachment)
    ensures (id, a) in AttachmentsOf(attachments, emailId) <==>
              1 <= id <= |attachments| && attachments[id - 1] == a && a.emailId == emailId
  {
    if attachments != [] {
      var n := |attachments|;
      AttachmentsOfIsExact(attachments[..n - 1], emailId, id, a);
    }
  }

  // ---- statements of an owner ----

  /** The lease on the email is held by this token, and by no other. */
  predicate IsHeld(t: Tables, emailId: int, token: string) {
    emailId in t.leases && t.leases[emailId].token == token
  }

  predicate IsPending(t: Tables, emailId: int) {
    1 <= emailId <= |t.emails| && t.emails[emailId - 1].state == Processing.Pending
  }

  /** Only this email's row differs, and is `e`. */
  predicate OnlyEmail(t: Tables, t': Tables, emailId: int, e: Email) {
    && 1 <= emailId <= |t.emails| && |t'.emails| == |t.emails| && t'.emails[emailId - 1] == e
    && t'.attachments == t.attachments
    && (forall i :: 0 <= i < |t.emails| && i != emailId - 1 ==> t'.emails[i] == t.emails[i])
  }

  /** Only this attachment's row differs, and is `a`. */
  predicate OnlyAttachment(t: Tables, t': Tables, id: int, a: Attachment) {
    && 1 <= id <= |t.attachments| && |t'.attachments| == |t.attachments| && t'.attachments[id - 1] == a
    && t'.emails == t.emails && t'.leases == t.leases
    && (forall i :: 0 <= i < |t.attachments| && i != id - 1 ==> t'.attachments[i] == t.attachments[i])
  }

  /** A body is recorded exactly while the lease is held and the email pending,
      under the key and type given. */
  lemma RecordingShows(t: Tables, emailId: int, token: string, key: Option<string>, contentType: string)
    requires ValidToken(token) && ValidContentType(contentType) && (key.Some? ==> 0 < |key.value| <= 1024)
    ensures var r := RecordBody(t, emailId, token, key, contentType);
            if IsHeld(t, emailId, token) && IsPending(t, emailId) then
              r.Success? && r.value.leases == t.leases
              && OnlyEmail(t, r.value, emailId,
                           t.emails[emailId - 1].(bodyKey := key, bodyType := Some(contentType)))
            else r == Failure(Conflict)
  {
    hide ValidToken, ValidContentType;
  }

  /** An attachment is marked stored exactly while the lease is held: a row not
      stored takes key and size, and a stored one is accepted only with the very
      same. */
  lemma MarkingShows(t: Tables, emailId: int, id: int, token: string, key: string, size: nat)
    requires ValidToken(token) && 0 < |key| <= 1024 && 1 <= id <= |t.attachments|
    requires t.attachments[id - 1].emailId == emailId
    ensures var r, a := MarkAttachmentStored(t, emailId, id, token, key, size), t.attachments[id - 1];
            if !IsHeld(t, emailId, token) then r == Failure(Conflict)
            else if a.state != Processing.Stored then
              r.Success?
              && OnlyAttachment(t, r.value, id, a.(state := Processing.Stored, key := Some(key), size := Some(size)))
            else r == if a.key == Some(key) && a.size == Some(size) then Success(t) else Failure(Conflict)
  {
    hide ValidToken;
  }

  /** An attachment of another email, or none, is never marked. */
  lemma OtherAttachmentIsNotMarked(t: Tables, emailId: int, id: int, token: string, key: string, size: nat)
    requires 1 <= id <= |t.attachments| ==> t.attachments[id - 1].emailId != emailId
    ensures MarkAttachmentStored(t, emailId, id, token, key, size).Failure?
    ensures MarkAttachmentError(t, emailId, id, token).Failure?
  {
    hide ValidToken;
  }

  /** An email is completed exactly while the lease is held, it is pending, and
      all its attachments are stored; then it is stored without an error and
      nobody's. */
  lemma CompletingShows(t: Tables, emailId: int, token: string)
    requires ValidToken(token)
    ensures var r := Complete(t, emailId, token);
            if IsHeld(t, emailId, token) && IsPending(t, emailId)
               && (forall i :: 0 <= i < |t.attachments| && t.attachments[i].emailId == emailId ==>
                     t.attachments[i].state == Processing.Stored)
            then
              r.Success? && r.value.leases == t.leases - {emailId}
              && OnlyEmail(t, r.value, emailId,
                           t.emails[emailId - 1].(state := Processing.Stored, error := None))
            else r == Failure(Conflict)
  {
    hide ValidToken;
  }

  /** A failure is recorded, with its message, exactly while the lease is held
      and the email pending; then the email is nobody's. */
  lemma FailingShows(t: Tables, emailId: int, token: string, message: string)
    requires ValidToken(token) && ValidPublicError(message)
    ensures var r := Fail(t, emailId, token, message);
            if IsHeld(t, emailId, token) && IsPending(t, emailId) then
              r.Success? && r.value.leases == t.leases - {emailId}
              && OnlyEmail(t, r.value, emailId,
                           t.emails[emailId - 1].(state := Processing.Failed, error := Some(message)))
            else r == Failure(Conflict)
  {
    hide ValidToken, ValidPublicError;
  }

  /** A failed attachment is marked exactly while it is pending and the lease is
      held, and then nothing but its state changes. */
  lemma AttachmentErrorShows(t: Tables, emailId: int, id: int, token: string)
    requires ValidToken(token)
    ensures var r := MarkAttachmentError(t, emailId, id, token);
            if IsHeld(t, emailId, token) && 1 <= id <= |t.attachments| && t.attachments[id - 1].emailId == emailId
               && t.attachments[id - 1].state == Processing.Pending
            then r.Success? && OnlyAttachment(t, r.value, id, t.attachments[id - 1].(state := Processing.Failed))
            else r == Failure(Conflict)
  {
    hide ValidToken;
  }

  // ---- the texts of keys and types ----

  /** Where objects of an email are, and of what types its bodies are. */
  lemma ObjectTexts(e: string, a: string)
    ensures BodyKey(e, true) == "emails/" + e + "/body.html" && BodyKey(e, false) == "emails/" + e + "/body.txt"
    ensures AttachmentKey(e, a) == "emails/" + e + "/attachments/" + a
    ensures BodyType(true) == "text/html" && BodyType(false) == "text/plain"
  {
    assert "/body." + "html" == "/body.html" && "/body." + "txt" == "/body.txt";
    assert "emails/" + e + "/body." + "html" == "emails/" + e + ("/body." + "html");
    assert "emails/" + e + "/body." + "txt" == "emails/" + e + ("/body." + "txt");
  }

  // ---- what a delivery may be ----

  predicate IsIdText(s: string, least: nat) {
    least <= |s| <= 128 && forall i :: 0 <= i < |s| ==>
      'a' <= s[i] <= 'z' || 'A' <= s[i] <= 'Z' || '0' <= s[i] <= '9' || s[i] == '-' || s[i] == '_'
  }

  predicate IsLine(s: string, most: nat) { Trim(s) != "" && |s| <= most && '\0' !in s }

  /** Provider ids, tokens, and the limits of a delivery. */
  lemma DeliveryLimits(d: EmailDraft, token: string)
    ensures ValidToken(token) <==> IsIdText(token, 32)
    ensures ValidEmailDraft(d) ==>
              && IsIdText(d.resendId, 1) && IsLine(d.header.sender, 1024) && IsLine(d.header.receivedAt, 128)
              && 1 <= |d.header.recipients| <= 100 && |d.attachments| <= 64 && 1 <= |d.payload| <= 256 * 1024
              && (d.header.subject.Some? ==> |d.header.subject.value| <= 2048 && '\0' !in d.header.subject.value)
              && (forall i :: 0 <= i < |d.header.recipients| ==> 1 <= |d.header.recipients[i]| <= 1024)
              && (forall i :: 0 <= i < |d.attachments| ==>
                    && IsIdText(d.attachments[i].resendId, 1) && IsLine(d.attachments[i].filename, 512)
                    && 1 <= |d.attachments[i].contentType| <= 255)
  {
    hide Trim, CountChar, IsTypeChar;
  }

  /** Content types have one slash, and no white space or parameters. */
  lemma TypesAre(s: string)
    ensures ValidContentType(s) <==>
              && 1 <= |s| <= 255 && CountChar(s, '/') == 1
              && forall i :: 0 <= i < |s| ==>
                   'a' <= s[i] <= 'z' || 'A' <= s[i] <= 'Z' || '0' <= s[i] <= '9'
                   || s[i] in {'-', '_', '/', '!', '#', '$', '&', '^', '.', '+'}
  {
    hide CountChar, IsTypeChar;
    forall i | 0 <= i < |s|
      ensures IsTypeChar(s[i]) <==>
                'a' <= s[i] <= 'z' || 'A' <= s[i] <= 'Z' || '0' <= s[i] <= '9'
                || s[i] in {'-', '_', '/', '!', '#', '$', '&', '^', '.', '+'}
    {
      TypeCharIs(s[i]);
    }
  }

  lemma TypeCharIs(c: char)
    ensures IsTypeChar(c) <==>
              'a' <= c <= 'z' || 'A' <= c <= 'Z' || '0' <= c <= '9'
              || c in {'-', '_', '/', '!', '#', '$', '&', '^', '.', '+'}
  {
    var marks := "/!#$&^.+";
    assert c in marks <==> exists i :: 0 <= i < |marks| && marks[i] == c;
    assert marks[0] == '/' && marks[1] == '!' && marks[2] == '#' && marks[3] == '$' && marks[4] == '&'
      && marks[5] == '^' && marks[6] == '.' && marks[7] == '+';
  }
}
