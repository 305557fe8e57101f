/** The invariant of the inbound-email system, and what every step keeps of the
    state before it. */
module InboundInvariant {
  import opened Wrappers
  import opened Text
  import opened MediaKey
  import opened ObjectStore
  import opened InboundTables
  import opened InboundProtocol

  // ---- keys never collide ----

  lemma WordHasNoSlash(s: string)
    requires IsWord(s)
    ensures '/' !in s
  {
  }

  lemma SamePrefix(p: string, a: string, b: string)
    requires p + a == p + b
    ensures a == b
  {
    assert a == (p + a)[|p|..] && b == (p + b)[|p|..];
  }

  lemma BodyKeyParts(e: string, html: bool)
    ensures BodyKey(e, html) == "emails/" + (e + ['/'] + ("body." + BodyExtension(html)))
  {
  }

  lemma AttachmentKeyParts(e: string, a: string)
    ensures AttachmentKey(e, a) == "emails/" + (e + ['/'] + ("attachments/" + a))
  {
  }

  lemma EmailOfKey(e: string, e': string, rest: string, rest': string)
    requires IsWord(e) && IsWord(e') && "emails/" + (e + ['/'] + rest) == "emails/" + (e' + ['/'] + rest')
    ensures e == e' && rest == rest'
  {
    WordHasNoSlash(e);
    WordHasNoSlash(e');
    SamePrefix("emails/", e + ['/'] + rest, e' + ['/'] + rest');
    SplitsOnce(e, e', '/', rest, rest');
  }

  /** Different emails have different body keys, and one email's html and text
      keys differ. */
  lemma BodyKeysDiffer(e: string, e': string, html: bool, html': bool)
    requires IsWord(e) && IsWord(e')
    ensures BodyKey(e, html) == BodyKey(e', html') <==> e == e' && html == html'
  {
    if BodyKey(e, html) == BodyKey(e', html') {
      hide BodyKey, IsWord;
      BodyKeyParts(e, html);
      BodyKeyParts(e', html');
      EmailOfKey(e, e', "body." + BodyExtension(html), "body." + BodyExtension(html'));
      assert ("body." + BodyExtension(html))[5] == ("body." + BodyExtension(html'))[5];
    }
  }

  lemma AttachmentKeysDiffer(e: string, e': string, a: string, a': string)
    requires IsWord(e) && IsWord(e')
    ensures AttachmentKey(e, a) == AttachmentKey(e', a') <==> e == e' && a == a'
  {
    if AttachmentKey(e, a) == AttachmentKey(e', a') {
      hide AttachmentKey, IsWord;
      AttachmentKeyParts(e, a);
      AttachmentKeyParts(e', a');
      EmailOfKey(e, e', "attachments/" + a, "attachments/" + a');
      SamePrefix("attachments/", a, a');
    }
  }

  lemma BodyKeyIsNoAttachmentKey(e: string, e': string, html: bool, a: string)
    requires IsWord(e) && IsWord(e')
    ensures BodyKey(e, html) != AttachmentKey(e', a)
  {
    hide BodyKey, AttachmentKey, IsWord;
    BodyKeyParts(e, html);
    AttachmentKeyParts(e', a);
    var body, att := "body." + BodyExtension(html), "attachments/" + a;
    assert body[0] == 'b' && att[0] == 'a';
    if BodyKey(e, html) == AttachmentKey(e', a) {
      EmailOfKey(e, e', body, att);
    }
  }

  // ---- body types ----

  lemma SlashesIn(front: string, back: string)
    requires '/' !in front && '/' !in back
    ensures CountChar(front + ['/'] + back, '/') == 1
  {
    if front == "" {
      NoneIn(back);
      assert (front + ['/'] + back)[1..] == back;
    } else {
      SlashesIn(front[1..], back);
      assert (front + ['/'] + back)[1..] == front[1..] + ['/'] + back;
    }
  }

  lemma NoneIn(s: string)
    requires '/' !in s
    ensures CountChar(s, '/') == 0
  {
  }

  lemma BodyTypesAreValid(html: bool)
    ensures ValidContentType(BodyType(html))
  {
    var back := if html then "html" else "plain";
    SlashesIn("text", back);
    assert BodyType(html) == "text" + ['/'] + back;
  }

  // ---- the tables ----

  ghost predicate UniqueEmails(emails: seq<Email>) {
    forall i, j :: 0 <= i < j < |emails| ==> emails[i].resendId != emails[j].resendId
  }

  predicate SameProvider(a: Attachment, b: Attachment) {
    a.emailId == b.emailId && a.resendId == b.resendId
  }

  ghost predicate UniqueAttachments(attachments: seq<Attachment>) {
    forall i, j :: 0 <= i < j < |attachments| ==> !SameProvider(attachments[i], attachments[j])
  }

  ghost predicate UniqueTokens(leases: map<int, Lease>) {
    forall i, j :: i in leases && j in leases && leases[i].token == leases[j].token ==> i == j
  }

  ghost predicate ReferencesHold(t: Tables) {
    && (forall i :: 0 <= i < |t.attachments| ==> HasEmail(t, t.attachments[i].emailId))
    && (forall id :: id in t.leases ==> HasEmail(t, id))
    && (forall i :: 0 <= i < |t.emails| ==> IsWord(t.emails[i].resendId))
  }

  /** Pending is leased, failed carries its error, stored carries none. */
  ghost predicate StatesAgree(t: Tables) {
    forall id :: HasEmail(t, id) ==>
      && (EmailAt(t, id).state == Pending <==> id in t.leases)
      && (EmailAt(t, id).state == Failed <==> EmailAt(t, id).error.Some?)
  }

  ghost predicate TablesOk(t: Tables) {
    && UniqueEmails(t.emails) && UniqueAttachments(t.attachments) && UniqueTokens(t.leases)
    && ReferencesHold(t) && StatesAgree(t)
  }

  /** What no statement may undo: rows stay, identities stay, stored rows are
      final. */
  predicate EmailKept(e: Email, e': Email) {
    && e'.resendId == e.resendId && e'.header == e.header && e'.payload == e.payload
    && (e.state == Processing.Stored ==> e' == e)
  }

  predicate AttachmentKept(a: Attachment, a': Attachment) {
    && SameProvider(a, a') && a'.filename == a.filename && a'.contentType == a.contentType
    && (a.state == Processing.Stored ==> a' == a)
  }

  ghost predicate RowsKept(t: Tables, t': Tables) {
    && |t.emails| <= |t'.emails| && |t.attachments| <= |t'.attachments|
    && (forall i :: 0 <= i < |t.emails| ==> EmailKept(t.emails[i], t'.emails[i]))
    && (forall i :: 0 <= i < |t.attachments| ==> AttachmentKept(t.attachments[i], t'.attachments[i]))
  }

  /** The body columns, once written, are final. */
  ghost predicate BodiesKept(t: Tables, t': Tables) {
    |t.emails| <= |t'.emails| &&
    forall i :: 0 <= i < |t.emails| && t.emails[i].bodyType.Some? ==>
      t'.emails[i].bodyType == t.emails[i].bodyType && t'.emails[i].bodyKey == t.emails[i].bodyKey
  }

  // ---- what is backed by the object store ----

  predicate BodyBacked(e: Email, store: Objects) {
    match e.bodyKey
    case None => true
    case Some(key) =>
      exists html :: html in {true, false} && key == BodyKey(e.resendId, html)
        && e.bodyType == Some(BodyType(html)) && key in store
        && Trim(BeforeSemicolon(store[key].contentType)) == BodyType(html)
  }

  predicate AttachmentBacked(t: Tables, a: Attachment, store: Objects)
    requires HasEmail(t, a.emailId)
  {
    a.state == Processing.Stored ==>
      var key := AttachmentKey(EmailAt(t, a.emailId).resendId, a.resendId);
      a.key == Some(key) && key in store && a.size == Some(|store[key].bytes|)
  }

  ghost predicate Backed(t: Tables, store: Objects)
    requires ReferencesHold(t)
  {
    && (forall i :: 0 <= i < |t.emails| ==> BodyBacked(t.emails[i], store))
    && (forall i :: 0 <= i < |t.emails| && t.emails[i].bodyKey.Some? ==> t.emails[i].bodyType.Some?)
    && (forall i :: 0 <= i < |t.attachments| ==> AttachmentBacked(t, t.attachments[i], store))
  }

  ghost predicate StoreKept(store: Objects, store': Objects) {
    forall key :: key in store ==> key in store' && store'[key] == store[key]
  }

  // ---- the owners ----

  predicate InBodyStage(o: Owner) {
    || (o.pc.Start? && o.claim.email.bodyType.None?)
    || o.pc.SendBody? || o.pc.CheckBody? || o.pc.RecordingBody?
  }

  predicate IdsDiffer(rows: seq<(int, Attachment)>) {
    forall i, j :: 0 <= i < j < |rows| ==> rows[i].0 != rows[j].0
  }

  /** The owner's rows are rows of its email, none of them twice. */
  ghost predicate ClaimFits(t: Tables, o: Owner) {
    && HasEmail(t, o.claim.emailId) && EmailAt(t, o.claim.emailId).resendId == o.claim.email.resendId
    && IdsDiffer(o.pending)
    && forall i :: 0 <= i < |o.pending| ==>
         && HasAttachment(t, o.pending[i].0)
         && SameProvider(AttachmentAt(t, o.pending[i].0), o.pending[i].1)
         && o.pending[i].1.emailId == o.claim.emailId
  }

  /** Nothing is recorded before it was seen in the bucket. */
  predicate Verified(o: Owner, store: Objects) {
    match o.pc
    case RecordingBody(Some(body)) =>
      var key := BodyKey(o.claim.email.resendId, body.html);
      key in store && Matches(store[key], BodyBlob(body))
    case Marking(next, blob) =>
      next < |o.pending| && KeyOf(o, next) in store && Matches(store[KeyOf(o, next)], blob)
    case Confirming(next, blob) =>
      next < |o.pending| && KeyOf(o, next) in store && Matches(store[KeyOf(o, next)], blob)
    case _ => true
  }

  ghost predicate OwnerOk(s: System, o: Owner) {
    && ClaimFits(s.tables, o) && o.claim.token in s.used && Verified(o, s.store)
    && (Owns(s.tables, o.claim.emailId, o.claim.token) && InBodyStage(o) ==>
          EmailAt(s.tables, o.claim.emailId).bodyType.None?)
  }

  ghost predicate TokensDrawn(s: System) {
    && (forall id :: id in s.tables.leases ==> s.tables.leases[id].token in s.used)
    && (forall i, j :: 0 <= i < j < |s.owners| ==> s.owners[i].claim.token != s.owners[j].claim.token)
  }

  ghost predicate Inv(s: System) {
    && TablesOk(s.tables) && Backed(s.tables, s.store) && TokensDrawn(s)
    && forall i :: 0 <= i < |s.owners| ==> OwnerOk(s, s.owners[i])
  }

  /** Everything one step must keep of the state before it. */
  ghost predicate Kept(s: System, s': System) {
    RowsKept(s.tables, s'.tables) && BodiesKept(s.tables, s'.tables) && StoreKept(s.store, s'.store)
    && s.used <= s'.used
  }

  // ---- monotonicity ----

  lemma BackedGrows(t: Tables, store: Objects, store': Objects)
    requires ReferencesHold(t) && Backed(t, store) && StoreKept(store, store')
    ensures Backed(t, store')
  {
    hide BodyKey, AttachmentKey, Trim, BeforeSemicolon, IsWord;
    forall i | 0 <= i < |t.emails| ensures BodyBacked(t.emails[i], store') {
      assert BodyBacked(t.emails[i], store);
    }
    forall i | 0 <= i < |t.attachments| ensures AttachmentBacked(t, t.attachments[i], store') {
      assert AttachmentBacked(t, t.attachments[i], store);
    }
  }

  lemma VerifiedGrows(o: Owner, store: Objects, store': Objects)
    requires Verified(o, store) && StoreKept(store, store')
    ensures Verified(o, store')
  {
    hide BodyKey, AttachmentKey, Matches;
  }

  lemma ClaimFitsGrows(t: Tables, t': Tables, o: Owner)
    requires ClaimFits(t, o) && RowsKept(t, t')
    ensures ClaimFits(t', o)
  {
    forall i | 0 <= i < |o.pending| ensures HasAttachment(t', o.pending[i].0)
      && SameProvider(AttachmentAt(t', o.pending[i].0), o.pending[i].1)
    {
      assert AttachmentKept(t.attachments[o.pending[i].0 - 1], t'.attachments[o.pending[i].0 - 1]);
    }
    assert EmailKept(t.emails[o.claim.emailId - 1], t'.emails[o.claim.emailId - 1]);
  }
}
