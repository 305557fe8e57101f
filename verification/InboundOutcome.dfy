/** What the provider, the network and the deadline may do to a claim, and
    exactly when they let it complete. */
module InboundOutcome {
  import opened Wrappers
  import opened Text
  import opened MediaKey
  import opened ObjectStore
  import opened InboundTables
  import opened InboundProtocol
  import opened InboundInvariant
  import opened InboundStatements
  import opened InboundSafety
  import opened InboundContents

  datatype WorkflowFailure = Transient | Permanent

  /** Why the processing ended early: an error, or the deadline, which drops it
      wherever it waits. */
  datatype Ended = Because(failure: WorkflowFailure) | TimedOut

  /** Where the program waits for an answer; `next` counts pending attachments. */
  datatype Await =
    | Beginning | Fetching | PuttingBody | Recording | ListingAttachments
    | Downloading(next: nat) | Putting(next: nat) | MarkingStored(next: nat) | MarkingError(next: nat)
    | Finishing

  datatype Content = Content(html: Option<string>, text: Option<string>)

  datatype ProviderAttachment = ProviderAttachment(
    id: string, filename: string, contentType: string, downloadUrl: Option<string>)

  /** What the provider answers, what becomes of the PUT for each key, and at
      which waits the deadline comes first: what was waited for has then
      happened, but its answer is not seen. */
  datatype Outside = Outside(
    content: Result<Content, WorkflowFailure>,
    listing: Result<seq<ProviderAttachment>, WorkflowFailure>,
    download: string -> Result<Blob, WorkflowFailure>,
    network: string -> (PutReply, bool),
    deadline: Await -> bool)

  function ChosenBody(content: Content): Option<Body> {
    if content.html.Some? && content.html.value != "" then Some(Body(content.html.value, true))
    else if content.text.Some? && content.text.value != "" then Some(Body(content.text.value, false))
    else None
  }

  // ---- when the outside lets a claim through ----

  predicate PutGoes(store: Objects, outside: Outside, key: string, blob: Blob) {
    Puttable(key, blob) && PutSucceeds(store, key, blob, outside.network(key).0, outside.network(key).1)
  }

  /** The body was recorded before, or it comes and is stored, or there is none. */
  predicate BodyGoes(store: Objects, outside: Outside, claim: Claim) {
    claim.email.bodyType.Some? ||
    (&& !outside.deadline(Fetching) && outside.content.Success? && !outside.deadline(Recording)
     && match ChosenBody(outside.content.value)
        case None => true
        case Some(body) =>
          !outside.deadline(PuttingBody)
          && PutGoes(store, outside, BodyKey(claim.email.resendId, body.html), BodyBlob(body)))
  }

  /** The provider still lists the attachment as it was announced, with a URL. */
  predicate Announced(metadata: ProviderAttachment, a: Attachment) {
    metadata.filename == a.filename && metadata.contentType == a.contentType && metadata.downloadUrl.Some?
  }

  /** It comes with an accepted type, and is stored. */
  predicate AttachmentGoes(
    store: Objects, outside: Outside, claim: Claim, metadata: ProviderAttachment, next: nat, a: Attachment)
  {
    && Announced(metadata, a) && !outside.deadline(Downloading(next))
    && var download := outside.download(metadata.downloadUrl.value);
    && download.Success?
    && (download.value.contentType == a.contentType || download.value.contentType == "application/octet-stream")
    && !outside.deadline(Putting(next))
    && PutGoes(store, outside, AttachmentKey(claim.email.resendId, a.resendId),
               Blob(download.value.bytes, a.contentType))
    && !outside.deadline(MarkingStored(next))
  }

  /** A download may have the announced type or the general one, and no other. */
  lemma DownloadTypes(
    store: Objects, outside: Outside, claim: Claim, metadata: ProviderAttachment, next: nat, a: Attachment, blob: Blob)
    requires metadata.downloadUrl.Some? && outside.download(metadata.downloadUrl.value) == Success(blob)
    requires metadata.filename == a.filename && metadata.contentType == a.contentType
    requires forall at: Await :: !outside.deadline(at)
    ensures blob.contentType == a.contentType || blob.contentType == "application/octet-stream" ==>
              (AttachmentGoes(store, outside, claim, metadata, next, a) <==>
                 PutGoes(store, outside, "emails/" + claim.email.resendId + "/attachments/" + a.resendId,
                         Blob(blob.bytes, a.contentType)))
    ensures blob.contentType != a.contentType && blob.contentType != "application/octet-stream" ==>
              !AttachmentGoes(store, outside, claim, metadata, next, a)
              && AttachmentFaulty(store, outside, claim, metadata, next, a)
  {
    ObjectTexts(claim.email.resendId, a.resendId);
    hide PutGoes, PutFaulty, AttachmentKey;
  }

  predicate ListsOnce(remote: seq<ProviderAttachment>) {
    forall j, k :: 0 <= j < k < |remote| ==> remote[j].id != remote[k].id
  }

  predicate ListingGoes(store: Objects, outside: Outside, claim: Claim, pending: seq<(int, Attachment)>) {
    pending == [] ||
    (&& !outside.deadline(ListingAttachments) && outside.listing.Success? && ListsOnce(outside.listing.value)
     && forall k :: 0 <= k < |pending| ==> IsListed(store, outside, claim, outside.listing.value, k, pending[k].1))
  }

  predicate IsListed(
    store: Objects, outside: Outside, claim: Claim, remote: seq<ProviderAttachment>, next: nat, a: Attachment)
  {
    exists j :: 0 <= j < |remote| && remote[j].id == a.resendId
      && AttachmentGoes(store, outside, claim, remote[j], next, a)
  }

  /** Whatever the claim needs of others: every answer comes, in time, and no
      object in the way differs. */
  predicate OutsideGoes(store: Objects, outside: Outside, claim: Claim) {
    && !outside.deadline(Beginning) && BodyGoes(store, outside, claim)
    && ListingGoes(store, outside, claim, PendingOf(claim.attachments))
  }

  /** No attachment was announced since the claim that is still to be stored. */
  predicate Covers(t: Tables, emailId: int, pending: seq<(int, Attachment)>) {
    forall i :: 0 <= i < |t.attachments| && t.attachments[i].emailId == emailId
                && t.attachments[i].state != Processing.Stored ==>
      exists k :: 0 <= k < |pending| && pending[k].0 == i + 1
  }

  predicate HoldsLease(t: Tables, claim: Claim) { ValidToken(claim.token) && Owns(t, claim.emailId, claim.token) }

  /** Exactly when a claim completes. */
  predicate Completes(s: System, outside: Outside, claim: Claim) {
    && HoldsLease(s.tables, claim) && Covers(s.tables, claim.emailId, PendingOf(claim.attachments))
    && OutsideGoes(s.store, outside, claim)
  }

  // ---- when a claim fails for good ----

  /** The object is out of bounds, or another is seen in its place. */
  predicate PutFaulty(store: Objects, outside: Outside, key: string, blob: Blob) {
    var (reply, headAnswers) := outside.network(key);
    !Puttable(key, blob)
    || ((reply.Answered? || reply.Contended?) && headAnswers && key in Arrived(store, key, blob, reply)
        && !Matches(Arrived(store, key, blob, reply)[key], blob))
  }

  predicate BodyFaulty(store: Objects, outside: Outside, claim: Claim) {
    && claim.email.bodyType.None? && !outside.deadline(Fetching)
    && match outside.content
       case Failure(e) => e == Permanent
       case Success(content) =>
         var body := ChosenBody(content);
         body.Some? && !outside.deadline(PuttingBody)
         && PutFaulty(store, outside, BodyKey(claim.email.resendId, body.value.html), BodyBlob(body.value))
  }

  /** It is not announced any more, its download is refused or of another type,
      or its object is faulty. */
  predicate AttachmentFaulty(
    store: Objects, outside: Outside, claim: Claim, metadata: ProviderAttachment, next: nat, a: Attachment)
  {
    !Announced(metadata, a)
    || (&& !outside.deadline(Downloading(next))
        && match outside.download(metadata.downloadUrl.value)
           case Failure(e) => e == Permanent
           case Success(blob) =>
             (blob.contentType != a.contentType && blob.contentType != "application/octet-stream")
             || (!outside.deadline(Putting(next))
                 && PutFaulty(store, outside, AttachmentKey(claim.email.resendId, a.resendId),
                              Blob(blob.bytes, a.contentType))))
  }

  /** Whatever the listing has under its id is faulty, or there is nothing. */
  predicate ListedFaulty(
    store: Objects, outside: Outside, claim: Claim, remote: seq<ProviderAttachment>, next: nat, a: Attachment)
  {
    forall j :: 0 <= j < |remote| && remote[j].id == a.resendId ==>
      AttachmentFaulty(store, outside, claim, remote[j], next, a)
  }

  /** The first attachment that does not go through is faulty. */
  predicate FaultyAt(
    s: System, outside: Outside, claim: Claim, remote: seq<ProviderAttachment>, pending: seq<(int, Attachment)>, k: nat)
  {
    && k < |pending| && !outside.deadline(MarkingError(k))
    && ListedFaulty(s.store, outside, claim, remote, k, pending[k].1)
    && (k > 0 ==> HoldsLease(s.tables, claim))
    && forall j :: 0 <= j < k ==> IsListed(s.store, outside, claim, remote, j, pending[j].1)
  }

  predicate ListingFaulty(s: System, outside: Outside, claim: Claim, pending: seq<(int, Attachment)>) {
    && pending != [] && !outside.deadline(ListingAttachments)
    && match outside.listing
       case Failure(e) => e == Permanent
       case Success(remote) =>
         !ListsOnce(remote) || exists k :: 0 <= k < |pending| && FaultyAt(s, outside, claim, remote, pending, k)
  }

  /** Exactly when the failure is for good: what the provider answered, or an
      object in the way, and neither the deadline nor a lost lease came first. */
  predicate FailsForGood(s: System, outside: Outside, claim: Claim) {
    && !outside.deadline(Beginning)
    && (BodyFaulty(s.store, outside, claim)
        || (&& BodyGoes(s.store, outside, claim) && (claim.email.bodyType.Some? || HoldsLease(s.tables, claim))
            && ListingFaulty(s, outside, claim, PendingOf(claim.attachments))))
  }

  /** With time enough, a claim fails for good on a refusal of the provider or a
      repeated id, and not for good on an answer that may come later. */
  lemma ProviderFailures(s: System, outside: Outside, claim: Claim)
    requires forall at: Await :: !outside.deadline(at)
    ensures claim.email.bodyType.None? && outside.content.Failure? ==>
              (FailsForGood(s, outside, claim) <==> outside.content.error == Permanent)
    ensures claim.email.bodyType.Some? && PendingOf(claim.attachments) != [] && outside.listing.Failure? ==>
              (FailsForGood(s, outside, claim) <==> outside.listing.error == Permanent)
    ensures claim.email.bodyType.Some? && PendingOf(claim.attachments) != [] && outside.listing.Success?
            && (exists j, k :: 0 <= j < k < |outside.listing.value|
                               && outside.listing.value[j].id == outside.listing.value[k].id) ==>
              FailsForGood(s, outside, claim)
    ensures claim.email.bodyType.Some? && PendingOf(claim.attachments) == [] ==> !FailsForGood(s, outside, claim)
  {
    hide PutGoes, PutFaulty, FaultyAt, IsListed, PendingOf;
  }

  // ---- what a claim that completes has stored ----

  /** The body's columns and its object: the html if there is any, or else the
      text, or else none. */
  predicate BodyIs(e: Email, store: Objects, resendId: string, content: Content) {
    var html := content.html.Some? && content.html.value != "";
    var text := content.text.Some? && content.text.value != "";
    if html then
      var key := "emails/" + resendId + "/body.html";
      e.bodyKey == Some(key) && e.bodyType == Some("text/html") && key in store
      && store[key].bytes == content.html.value
    else if text then
      var key := "emails/" + resendId + "/body.txt";
      e.bodyKey == Some(key) && e.bodyType == Some("text/plain") && key in store
      && store[key].bytes == content.text.value
    else e.bodyKey == None && e.bodyType == Some("text/plain")
  }

  ghost predicate BodyOnRecord(t: Tables, store: Objects, outside: Outside, claim: Claim) {
    claim.email.bodyType.None? && outside.content.Success? ==>
      && HasEmail(t, claim.emailId)
      && BodyIs(EmailAt(t, claim.emailId), store, claim.email.resendId, outside.content.value)
  }

  lemma RecordedBodyIs(s: System, claim: Claim, outside: Outside, body: Option<Body>)
    requires outside.content.Success? && body == ChosenBody(outside.content.value)
    requires body.Some? ==>
               var key := BodyKey(claim.email.resendId, body.value.html);
               key in s.store && Matches(s.store[key], BodyBlob(body.value))
    ensures var r := if body.Some?
                     then RecordBody(s.tables, claim.emailId, claim.token,
                                     Some(BodyKey(claim.email.resendId, body.value.html)), BodyType(body.value.html))
                     else RecordBody(s.tables, claim.emailId, claim.token, None, "text/plain");
            r.Success? ==> BodyOnRecord(r.value, s.store, outside, claim)
  {
    ObjectTexts(claim.email.resendId, "");
    hide ValidToken, ValidContentType, BodyKey, BodyType;
  }

  lemma BodyStaysOnRecord(s: System, s': System, outside: Outside, claim: Claim)
    requires BodyOnRecord(s.tables, s.store, outside, claim) && Kept(s, s')
    ensures BodyOnRecord(s'.tables, s'.store, outside, claim)
  {
    if claim.email.bodyType.None? && outside.content.Success? {
      var i := claim.emailId - 1;
      assert s'.tables.emails[i].bodyType == s.tables.emails[i].bodyType
        && s'.tables.emails[i].bodyKey == s.tables.emails[i].bodyKey;
    }
  }

  /** The object of an attachment holds what was downloaded for it. */
  ghost predicate HoldsDownload(store: Objects, outside: Outside, claim: Claim, url: string, a: Attachment) {
    var key := "emails/" + claim.email.resendId + "/attachments/" + a.resendId;
    key in store && outside.download(url).Success? && store[key].bytes == outside.download(url).value.bytes
  }

  /** Every attachment the claim set out to store is there, as the provider's
      listing has it. */
  ghost predicate AllDownloaded(store: Objects, outside: Outside, claim: Claim, pending: seq<(int, Attachment)>, n: nat)
    requires n <= |pending|
  {
    n > 0 ==>
      && outside.listing.Success?
      && forall k :: 0 <= k < n ==> IsDownloaded(store, outside, claim, outside.listing.value, pending[k].1)
  }

  ghost predicate IsDownloaded(
    store: Objects, outside: Outside, claim: Claim, remote: seq<ProviderAttachment>, a: Attachment)
  {
    exists j :: 0 <= j < |remote| && remote[j].id == a.resendId && remote[j].downloadUrl.Some?
      && HoldsDownload(store, outside, claim, remote[j].downloadUrl.value, a)
  }

  lemma DownloadsStay(
    store: Objects, store': Objects, outside: Outside, claim: Claim, pending: seq<(int, Attachment)>, n: nat)
    requires n <= |pending| && AllDownloaded(store, outside, claim, pending, n) && StoreKept(store, store')
    ensures AllDownloaded(store', outside, claim, pending, n)
  {
    forall k | 0 <= k < n ensures IsDownloaded(store', outside, claim, outside.listing.value, pending[k].1) {
      assert IsDownloaded(store, outside, claim, outside.listing.value, pending[k].1);
      var remote, a := outside.listing.value, pending[k].1;
      var j :| 0 <= j < |remote| && remote[j].id == a.resendId && remote[j].downloadUrl.Some?
        && HoldsDownload(store, outside, claim, remote[j].downloadUrl.value, a);
      assert HoldsDownload(store', outside, claim, remote[j].downloadUrl.value, a);
    }
  }

  lemma OneMoreDownload(
    store: Objects, outside: Outside, claim: Claim, byId: map<string, ProviderAttachment>,
    pending: seq<(int, Attachment)>, n: nat)
    requires n < |pending| && AllDownloaded(store, outside, claim, pending, n) && outside.listing.Success?
    requires forall id :: id in byId ==>
               exists j :: 0 <= j < |outside.listing.value| && outside.listing.value[j] == byId[id]
                 && outside.listing.value[j].id == id
    requires pending[n].1.resendId in byId && byId[pending[n].1.resendId].downloadUrl.Some?
    requires HoldsDownload(store, outside, claim, byId[pending[n].1.resendId].downloadUrl.value, pending[n].1)
    ensures AllDownloaded(store, outside, claim, pending, n + 1)
  {
    hide HoldsDownload;
    var remote, a := outside.listing.value, pending[n].1;
    var j :| 0 <= j < |remote| && remote[j] == byId[a.resendId] && remote[j].id == a.resendId;
    assert IsDownloaded(store, outside, claim, remote, a);
  }

  // ---- objects in the way ----

  predicate SameAt(store: Objects, store': Objects, key: string) {
    (key in store <==> key in store') && (key in store ==> store'[key] == store[key])
  }

  /** Nothing but `key` changes. */
  ghost predicate OnlyKey(store: Objects, store': Objects, key: string) {
    forall other :: other != key ==> SameAt(store, store', other)
  }

  lemma PutGoesAlike(store: Objects, store': Objects, outside: Outside, key: string, blob: Blob)
    requires SameAt(store, store', key)
    ensures PutGoes(store, outside, key, blob) <==> PutGoes(store', outside, key, blob)
    ensures PutFaulty(store, outside, key, blob) <==> PutFaulty(store', outside, key, blob)
  {
    hide Puttable, Matches;
  }

  lemma AttachmentGoesAlike(
    store: Objects, store': Objects, outside: Outside, claim: Claim, metadata: ProviderAttachment, next: nat,
    a: Attachment)
    requires SameAt(store, store', AttachmentKey(claim.email.resendId, a.resendId))
    ensures AttachmentGoes(store, outside, claim, metadata, next, a)
            <==> AttachmentGoes(store', outside, claim, metadata, next, a)
    ensures AttachmentFaulty(store, outside, claim, metadata, next, a)
            <==> AttachmentFaulty(store', outside, claim, metadata, next, a)
  {
    hide PutGoes, PutFaulty, AttachmentKey, SameAt;
    if Announced(metadata, a) && outside.download(metadata.downloadUrl.value).Success? {
      PutGoesAlike(store, store', outside, AttachmentKey(claim.email.resendId, a.resendId),
                   Blob(outside.download(metadata.downloadUrl.value).value.bytes, a.contentType));
    }
  }

  /** Pending attachments have keys of their own. */
  lemma PendingKeysDiffer(s: System, i: nat, j: nat, k: nat)
    requires Inv(s) && i < |s.owners| && j < |s.owners[i].pending| && k < |s.owners[i].pending| && j != k
    ensures KeyOf(s.owners[i], j) != KeyOf(s.owners[i], k)
  {
    var o := s.owners[i];
    assert OwnerOk(s, o);
    hide AttachmentKey, BodyKey, Backed, UniqueEmails, UniqueTokens, StatesAgree, TokensDrawn, Verified, InBodyStage,
         IsWord;
    assert IsWord(o.claim.email.resendId);
    AttachmentKeysDiffer(o.claim.email.resendId, o.claim.email.resendId,
                         o.pending[j].1.resendId, o.pending[k].1.resendId);
    assert o.pending[j].0 != o.pending[k].0;
    var a, b := o.pending[j].0 - 1, o.pending[k].0 - 1;
    assert SameProvider(s.tables.attachments[a], o.pending[j].1);
    assert SameProvider(s.tables.attachments[b], o.pending[k].1);
    if a < b { assert !SameProvider(s.tables.attachments[a], s.tables.attachments[b]); }
    if b < a { assert !SameProvider(s.tables.attachments[b], s.tables.attachments[a]); }
  }

  lemma BodyKeyIsNoPendingKey(s: System, i: nat, html: bool, j: nat)
    requires Inv(s) && i < |s.owners| && j < |s.owners[i].pending|
    ensures BodyKey(s.owners[i].claim.email.resendId, html) != KeyOf(s.owners[i], j)
  {
    var o := s.owners[i];
    assert OwnerOk(s, o);
    hide AttachmentKey, BodyKey, Backed, UniqueEmails, UniqueTokens, StatesAgree, TokensDrawn, Verified, InBodyStage,
         IsWord;
    assert IsWord(o.claim.email.resendId);
    BodyKeyIsNoAttachmentKey(o.claim.email.resendId, o.claim.email.resendId, html, o.pending[j].1.resendId);
  }

  // ---- rows ----

  /** No row but `id` changes. */
  ghost predicate OnlyRow(rows: seq<Attachment>, rows': seq<Attachment>, id: int) {
    |rows'| == |rows| && forall i :: 0 <= i < |rows| && i != id - 1 ==> rows'[i] == rows[i]
  }

  predicate IsStored(rows: seq<Attachment>, id: int) { 1 <= id <= |rows| && rows[id - 1].state == Processing.Stored }

  /** With an object as recorded in the bucket, marking needs just the lease. */
  lemma MarkSucceeds(s: System, i: nat, next: nat, blob: Blob)
    requires Inv(s) && i < |s.owners| && s.owners[i].pc == Marking(next, blob)
    requires next < |s.owners[i].pending| && ValidObjectKey(KeyOf(s.owners[i], next))
    ensures var o := s.owners[i];
            var id := o.pending[next].0;
            var result := MarkAttachmentStored(s.tables, o.claim.emailId, id, o.claim.token, KeyOf(o, next),
                                               |blob.bytes|);
            && (result.Success? <==> HoldsLease(s.tables, o.claim))
            && (result.Success? ==>
                  && OnlyRow(s.tables.attachments, result.value.attachments, id)
                  && IsStored(result.value.attachments, id))
  {
    hide AttachmentKey, BodyKey, BodyBacked, UniqueEmails, UniqueTokens, UniqueAttachments, StatesAgree, TokensDrawn,
         InBodyStage, IsWord, ValidToken, Trim, BeforeSemicolon;
    var o := s.owners[i];
    assert OwnerOk(s, o);
    assert SameProvider(AttachmentAt(s.tables, o.pending[next].0), o.pending[next].1);
    assert AttachmentBacked(s.tables, AttachmentAt(s.tables, o.pending[next].0), s.store);
  }

  /** With the first `n` pending rows stored and no other row changed. */
  ghost predicate StoredUpTo(rows: seq<Attachment>, rows': seq<Attachment>, pending: seq<(int, Attachment)>, n: nat)
    requires n <= |pending|
  {
    && |rows'| == |rows|
    && (forall j :: 0 <= j < n ==> IsStored(rows', pending[j].0))
    && (forall i :: 0 <= i < |rows| && rows'[i] != rows[i] ==> exists j :: 0 <= j < n && pending[j].0 == i + 1)
  }

  lemma StoredOneMore(
    rows: seq<Attachment>, rows1: seq<Attachment>, rows2: seq<Attachment>, pending: seq<(int, Attachment)>, n: nat)
    requires n < |pending| && IdsDiffer(pending) && StoredUpTo(rows, rows1, pending, n)
    requires OnlyRow(rows1, rows2, pending[n].0) && IsStored(rows2, pending[n].0)
    ensures StoredUpTo(rows, rows2, pending, n + 1)
  {
    forall j | 0 <= j < n ensures IsStored(rows2, pending[j].0) {
      assert IsStored(rows1, pending[j].0) && pending[j].0 != pending[n].0;
    }
    forall i | 0 <= i < |rows| && rows2[i] != rows[i] ensures exists j :: 0 <= j < n + 1 && pending[j].0 == i + 1 {
      if i == pending[n].0 - 1 {
        assert pending[n].0 == i + 1;
      } else {
        var j :| 0 <= j < n && pending[j].0 == i + 1;
        assert pending[j].0 == i + 1;
      }
    }
  }

  /** All pending rows stored, the email is whole exactly if they were all. */
  lemma AllStoredIff(t: Tables, t': Tables, emailId: int, pending: seq<(int, Attachment)>)
    requires StoredUpTo(t.attachments, t'.attachments, pending, |pending|) && RowsKept(t, t')
    ensures AllStored(t'.attachments, emailId) <==> Covers(t, emailId, pending)
  {
    forall i | 0 <= i < |t.attachments| ensures AttachmentKept(t.attachments[i], t'.attachments[i]) {}
    if Covers(t, emailId, pending) {
      forall i | 0 <= i < |t'.attachments| && t'.attachments[i].emailId == emailId
        ensures t'.attachments[i].state == Processing.Stored
      {
        if t.attachments[i].state != Processing.Stored {
          var k :| 0 <= k < |pending| && pending[k].0 == i + 1;
          assert IsStored(t'.attachments, pending[k].0);
        }
      }
    }
    if AllStored(t'.attachments, emailId) {
      forall i | 0 <= i < |t.attachments| && t.attachments[i].emailId == emailId
                 && t.attachments[i].state != Processing.Stored
        ensures exists k :: 0 <= k < |pending| && pending[k].0 == i + 1
      {
        assert t'.attachments[i] != t.attachments[i];
      }
    }
  }

  /** A leased email can be completed as soon as its attachments are stored. */
  lemma CompleteSucceeds(s: System, claim: Claim)
    requires Inv(s)
    ensures Complete(s.tables, claim.emailId, claim.token).Success?
            <==> HoldsLease(s.tables, claim) && AllStored(s.tables.attachments, claim.emailId)
  {
    hide ValidToken, AllStored;
  }

  lemma RecordSucceeds(s: System, claim: Claim, key: Option<string>, html: bool)
    requires Inv(s) && (key.Some? ==> ValidObjectKey(key.value))
    ensures RecordBody(s.tables, claim.emailId, claim.token, key, BodyType(html)).Success?
            <==> HoldsLease(s.tables, claim)
  {
    BodyTypesAreValid(html);
    hide ValidToken, ValidContentType;
  }

  /** The listing by id says the same as the listing. */
  lemma ListedById(
    store: Objects, outside: Outside, claim: Claim, remote: seq<ProviderAttachment>,
    byId: map<string, ProviderAttachment>, next: nat, a: Attachment)
    requires forall j :: 0 <= j < |remote| ==> remote[j].id in byId && byId[remote[j].id] == remote[j]
    requires forall id :: id in byId ==> exists j :: 0 <= j < |remote| && remote[j].id == id
    ensures IsListed(store, outside, claim, remote, next, a)
            <==> a.resendId in byId && AttachmentGoes(store, outside, claim, byId[a.resendId], next, a)
    ensures ListedFaulty(store, outside, claim, remote, next, a)
            <==> (a.resendId in byId ==> AttachmentFaulty(store, outside, claim, byId[a.resendId], next, a))
  {
    hide AttachmentGoes, AttachmentFaulty;
    if a.resendId in byId && ListedFaulty(store, outside, claim, remote, next, a) {
      var j :| 0 <= j < |remote| && remote[j].id == a.resendId;
      assert byId[remote[j].id] == remote[j] && AttachmentFaulty(store, outside, claim, remote[j], next, a);
    }
    if a.resendId in byId && AttachmentGoes(store, outside, claim, byId[a.resendId], next, a) {
      var j :| 0 <= j < |remote| && remote[j].id == a.resendId;
      assert byId[remote[j].id] == remote[j];
    }
  }

  // ---- a claim just made ----

  lemma {:induction false} PendingOfIsUnstored(rows: seq<(int, Attachment)>, k: nat)
    requires k < |rows| && rows[k].1.state != Processing.Stored
    ensures rows[k] in PendingOf(rows)
  {
    if k < |rows| - 1 { PendingOfIsUnstored(rows[..|rows| - 1], k); }
  }

  lemma {:induction false} AttachmentsOfAll(attachments: seq<Attachment>, emailId: int, i: nat)
    requires i < |attachments| && attachments[i].emailId == emailId
    ensures (i + 1, attachments[i]) in AttachmentsOf(attachments, emailId)
  {
    if i < |attachments| - 1 { AttachmentsOfAll(attachments[..|attachments| - 1], emailId, i); }
  }

  lemma NewClaimCovers(t: Tables, emailId: int)
    ensures Covers(t, emailId, PendingOf(AttachmentsOf(t.attachments, emailId)))
  {
    var rows := AttachmentsOf(t.attachments, emailId);
    forall i | 0 <= i < |t.attachments| && t.attachments[i].emailId == emailId
               && t.attachments[i].state != Processing.Stored
      ensures exists k :: 0 <= k < |PendingOf(rows)| && PendingOf(rows)[k].0 == i + 1
    {
      AttachmentsOfAll(t.attachments, emailId, i);
      var k :| 0 <= k < |rows| && rows[k] == (i + 1, t.attachments[i]);
      PendingOfIsUnstored(rows, k);
      var j :| 0 <= j < |PendingOf(rows)| && PendingOf(rows)[j] == rows[k];
      assert PendingOf(rows)[j].0 == i + 1;
    }
  }

  lemma ClaimedCompletesIff(t: Tables, s: System, claim: Claim, token: string, now: int, outside: Outside)
    requires ValidToken(token) && ClaimEffect(t, s.tables, Acquired(claim), token, now)
    ensures Completes(s, outside, claim) <==> OutsideGoes(s.store, outside, claim)
  {
    NewClaimCovers(s.tables, claim.emailId);
    hide OutsideGoes, Covers, PendingOf, AttachmentsOf, ValidToken, TablesKept, NothingRecorded, IsStale;
  }

  /** Whether a claim just made, by a delivery or a retry, completes is up to the
      outside alone. */
  lemma NewClaimCompletesIff(s: System, a: Action, outside: Outside)
    requires Inv(s) && |Step(s, a).owners| == |s.owners| + 1
    ensures var s' := Step(s, a);
            var o := s'.owners[|s.owners|];
            && o == Owner(o.claim, PendingOf(o.claim.attachments), Start)
            && (Completes(s', outside, o.claim) <==> OutsideGoes(s'.store, outside, o.claim))
  {
    hide OutsideGoes, Completes, PendingOf, ValidToken, ClaimEffect, ClaimOn, ValidEmailDraft, TablesOk, FindEmail,
         AddAttachments, MoveOwner;
    var s' := Step(s, a);
    match a
    case Webhook(draft, token, now) =>
      FreshTokenIsNotLeased(s, token);
      WebhookKeeps(s.tables, draft, token, now);
      ClaimedCompletesIff(s.tables, s', s'.owners[|s.owners|].claim, token, now, outside);
    case Retry(emailId, token, now) =>
      FreshTokenIsNotLeased(s, token);
      RetryKeeps(s.tables, emailId, token, now);
      ClaimedCompletesIff(s.tables, s', s'.owners[|s.owners|].claim, token, now, outside);
    case Arrive(_, _) =>
    case Act(owner, move) => MoveKeepsOwners(s, owner, move);
  }

  lemma MoveKeepsOwners(s: System, i: nat, move: Move)
    ensures |Step(s, Act(i, move)).owners| == |s.owners|
  {
    hide RecordBody, CanMark, ConfirmStored, MarkAttachmentError, Complete, Fail, Puttable, Matches, BodyKey,
         AttachmentKey;
  }
}
