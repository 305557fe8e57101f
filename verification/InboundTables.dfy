/** The inbound-email tables and every statement on them.  Rows are never
    deleted: the row with id `i` is entry `i - 1`.  A failed call changes no
    table. */
module InboundTables {
  import opened Wrappers
  import opened Text

  const LEASE_STALE_MILLIS := 120000

  datatype Processing = Pending | Stored | Failed

  datatype Header = Header(sender: string, recipients: seq<string>, subject: Option<string>, receivedAt: string)

  datatype Email = Email(
    resendId: string, header: Header, payload: string,
    bodyKey: Option<string>, bodyType: Option<string>, state: Processing, error: Option<string>)

  datatype Attachment = Attachment(
    emailId: int, resendId: string, filename: string, contentType: string,
    size: Option<nat>, key: Option<string>, state: Processing)

  datatype Lease = Lease(token: string, claimedAt: int)

  datatype Tables = Tables(emails: seq<Email>, attachments: seq<Attachment>, leases: map<int, Lease>)

  datatype AttachmentDraft = AttachmentDraft(resendId: string, filename: string, contentType: string)

  datatype EmailDraft = EmailDraft(resendId: string, header: Header, payload: string, attachments: seq<AttachmentDraft>)

  datatype InboxError = Validation | Conflict | NotFound

  /** The owner's view of a claim: the email and its attachments, with their
      ids, as they were when the lease was taken. */
  datatype Claim = Claim(emailId: int, email: Email, attachments: seq<(int, Attachment)>, token: string)

  datatype ClaimOutcome = Acquired(claim: Claim) | AlreadyStored(emailId: int) | Busy(emailId: int)

  const NO_TABLES := Tables([], [], map[])

  // ---- validation ----

  predicate IsWordChar(c: char) {
    'a' <= c <= 'z' || 'A' <= c <= 'Z' || '0' <= c <= '9' || c == '-' || c == '_'
  }

  predicate IsWord(s: string) { forall i :: 0 <= i < |s| ==> IsWordChar(s[i]) }

  predicate ValidProviderId(s: string) { s != "" && |s| <= 128 && IsWord(s) }

  predicate ValidToken(s: string) { 32 <= |s| <= 128 && IsWord(s) }

  predicate ValidText(s: string, maxBytes: nat) {
    Trim(s) != "" && |s| <= maxBytes && '\0' !in s
  }

  predicate IsTypeChar(c: char) { IsWordChar(c) || c in "/!#$&^.+" }

  function CountChar(s: string, c: char): nat {
    if s == "" then 0 else (if s[0] == c then 1 else 0) + CountChar(s[1..], c)
  }

  predicate ValidContentType(s: string) {
    s != "" && |s| <= 255 && CountChar(s, '/') == 1 && forall i :: 0 <= i < |s| ==> IsTypeChar(s[i])
  }

  predicate ValidAttachmentDraft(d: AttachmentDraft) {
    ValidProviderId(d.resendId) && ValidText(d.filename, 512) && ValidContentType(d.contentType)
  }

  predicate ValidEmailDraft(d: EmailDraft) {
    && ValidProviderId(d.resendId) && ValidText(d.header.sender, 1024) && ValidText(d.header.receivedAt, 128)
    && (d.header.subject.Some? ==> |d.header.subject.value| <= 2048 && '\0' !in d.header.subject.value)
    && d.payload != "" && |d.payload| <= 262144 && |d.attachments| <= 64
    && 0 < |d.header.recipients| <= 100
    && (forall i :: 0 <= i < |d.header.recipients| ==> 0 < |d.header.recipients[i]| <= 1024)
    && (forall i :: 0 <= i < |d.attachments| ==> ValidAttachmentDraft(d.attachments[i]))
  }

  predicate ValidObjectKey(key: string) { 0 < |key| <= 1024 }

  predicate ValidPublicError(s: string) {
    Trim(s) != "" && |s| <= 512 && forall i :: 0 <= i < |s| ==> !(s[i] as int < 32 || s[i] as int == 127)
  }

  // ---- lookups ----

  predicate HasEmail(t: Tables, id: int) { 1 <= id <= |t.emails| }

  function EmailAt(t: Tables, id: int): Email
    requires HasEmail(t, id)
  {
    t.emails[id - 1]
  }

  predicate HasAttachment(t: Tables, id: int) { 1 <= id <= |t.attachments| }

  function AttachmentAt(t: Tables, id: int): Attachment
    requires HasAttachment(t, id)
  {
    t.attachments[id - 1]
  }

  /** The id of the email with a provider id, or 0. */
  function FindEmail(emails: seq<Email>, resendId: string): (id: int)
    ensures 0 <= id <= |emails|
    ensures id > 0 ==> emails[id - 1].resendId == resendId
    ensures id == 0 ==> forall i :: 0 <= i < |emails| ==> emails[i].resendId != resendId
  {
    if emails == [] then 0
    else if emails[|emails| - 1].resendId == resendId then |emails|
    else FindEmail(emails[..|emails| - 1], resendId)
  }

  /** The id of the attachment of an email with a provider id, or 0. */
  function FindAttachment(attachments: seq<Attachment>, emailId: int, resendId: string): (id: int)
    ensures 0 <= id <= |attachments|
    ensures id > 0 ==> attachments[id - 1].emailId == emailId && attachments[id - 1].resendId == resendId
    ensures id == 0 ==> forall i :: 0 <= i < |attachments| ==>
              !(attachments[i].emailId == emailId && attachments[i].resendId == resendId)
  {
    if attachments == [] then 0
    else if attachments[|attachments| - 1].emailId == emailId && attachments[|attachments| - 1].resendId == resendId
    then |attachments|
    else FindAttachment(attachments[..|attachments| - 1], emailId, resendId)
  }

  function AttachmentsOf(attachments: seq<Attachment>, emailId: int): (r: seq<(int, Attachment)>)
    ensures forall i :: 0 <= i < |r| ==>
              1 <= r[i].0 <= |attachments| && attachments[r[i].0 - 1] == r[i].1 && r[i].1.emailId == emailId
  {
    if attachments == [] then []
    else
      var before := AttachmentsOf(attachments[..|attachments| - 1], emailId);
      var last := attachments[|attachments| - 1];
      if last.emailId == emailId then before + [(|attachments|, last)] else before
  }

  predicate Owns(t: Tables, emailId: int, token: string) {
    emailId in t.leases && t.leases[emailId].token == token
  }

  predicate TokenInUse(leases: map<int, Lease>, token: string) {
    exists id :: id in leases && leases[id].token == token
  }

  // ---- claims ----

  predicate IsStale(lease: Lease, now: int) { lease.claimedAt <= now - LEASE_STALE_MILLIS }

  function ExpireLease(leases: map<int, Lease>, emailId: int, now: int): map<int, Lease> {
    if emailId in leases && IsStale(leases[emailId], now) then leases - {emailId} else leases
  }

  function Reopen(a: Attachment, emailId: int): Attachment {
    if a.emailId == emailId && a.state != Stored then a.(state := Pending) else a
  }

  function ReopenAll(attachments: seq<Attachment>, emailId: int): (r: seq<Attachment>)
    ensures |r| == |attachments|
    ensures forall i :: 0 <= i < |r| ==> r[i] == Reopen(attachments[i], emailId)
  {
    seq(|attachments|, i requires 0 <= i < |attachments| => Reopen(attachments[i], emailId))
  }

  /** A refused claim still commits: the stale lease it expired is gone. */
  function ClaimOn(t: Tables, emailId: int, token: string, now: int): (Tables, ClaimOutcome)
    requires HasEmail(t, emailId)
  {
    if EmailAt(t, emailId).state == Stored then (t, AlreadyStored(emailId))
    else
      var leases := ExpireLease(t.leases, emailId, now);
      if emailId in leases || TokenInUse(leases, token) then (t.(leases := leases), Busy(emailId))
      else
        var email := EmailAt(t, emailId).(state := Pending, error := None);
        var t' := Tables(t.emails[emailId - 1 := email], ReopenAll(t.attachments, emailId),
                         leases[emailId := Lease(token, now)]);
        (t', Acquired(Claim(emailId, email, AttachmentsOf(t'.attachments, emailId), token)))
  }

  function NewEmail(d: EmailDraft): Email {
    Email(d.resendId, d.header, d.payload, None, None, Pending, None)
  }

  function NewAttachment(emailId: int, d: AttachmentDraft): Attachment {
    Attachment(emailId, d.resendId, d.filename, d.contentType, None, None, Pending)
  }

  /** Insert the first `n` attachment drafts that are new; refuse changed metadata. */
  function AddAttachments(attachments: seq<Attachment>, emailId: int, drafts: seq<AttachmentDraft>, n: nat)
    : Result<seq<Attachment>, InboxError>
    requires n <= |drafts|
  {
    if n == 0 then Success(attachments)
    else
      match AddAttachments(attachments, emailId, drafts, n - 1)
      case Failure(e) => Failure(e)
      case Success(rows) =>
        var d := drafts[n - 1];
        var found := FindAttachment(rows, emailId, d.resendId);
        if found == 0 then Success(rows + [NewAttachment(emailId, d)])
        else if rows[found - 1].filename != d.filename || rows[found - 1].contentType != d.contentType
        then Failure(Conflict)
        else Success(rows)
  }

  function ClaimWebhook(t: Tables, d: EmailDraft, token: string, now: int): Result<(Tables, ClaimOutcome), InboxError> {
    if !ValidEmailDraft(d) || !ValidToken(token) then Failure(Validation)
    else
      var found := FindEmail(t.emails, d.resendId);
      var emails := if found == 0 then t.emails + [NewEmail(d)] else t.emails;
      var emailId := if found == 0 then |emails| else found;
      if emails[emailId - 1].header != d.header then Failure(Conflict)
      else
        match AddAttachments(t.attachments, emailId, d.attachments, |d.attachments|)
        case Failure(e) => Failure(e)
        case Success(attachments) => Success(ClaimOn(Tables(emails, attachments, t.leases), emailId, token, now))
  }

  function ClaimRetry(t: Tables, emailId: int, token: string, now: int): Result<(Tables, ClaimOutcome), InboxError> {
    if emailId <= 0 || !ValidToken(token) then Failure(Validation)
    else if !HasEmail(t, emailId) then Failure(NotFound)
    else Success(ClaimOn(t, emailId, token, now))
  }

  // ---- the owner's statements, all guarded by the lease ----

  function RecordBody(t: Tables, emailId: int, token: string, key: Option<string>, contentType: string)
    : Result<Tables, InboxError>
  {
    if !ValidToken(token) || !ValidContentType(contentType) || (key.Some? && !ValidObjectKey(key.value))
    then Failure(Validation)
    else if HasEmail(t, emailId) && EmailAt(t, emailId).state == Pending && Owns(t, emailId, token) then
      Success(t.(emails := t.emails[emailId - 1 :=
        EmailAt(t, emailId).(bodyKey := key, bodyType := Some(contentType))]))
    else Failure(Conflict)
  }

  predicate StoredAs(a: Attachment, emailId: int, key: string, size: int) {
    a.emailId == emailId && a.state == Stored && a.key == Some(key) && a.size.Some? && a.size.value == size
  }

  predicate CanMark(t: Tables, emailId: int, attachmentId: int, token: string) {
    HasAttachment(t, attachmentId) && AttachmentAt(t, attachmentId).emailId == emailId
    && AttachmentAt(t, attachmentId).state != Stored && Owns(t, emailId, token)
  }

  function Marked(t: Tables, attachmentId: int, key: string, size: nat): Tables
    requires HasAttachment(t, attachmentId)
  {
    t.(attachments := t.attachments[attachmentId - 1 :=
      AttachmentAt(t, attachmentId).(state := Stored, key := Some(key), size := Some(size))])
  }

  /** The answer when the update found no row: only a row stored with the very
      same metadata, under a lease still held, is accepted. */
  function ConfirmStored(t: Tables, emailId: int, attachmentId: int, token: string, key: string, size: int)
    : Result<(), InboxError>
  {
    if !Owns(t, emailId, token) then Failure(Conflict)
    else if !HasAttachment(t, attachmentId) then Failure(NotFound)
    else if StoredAs(AttachmentAt(t, attachmentId), emailId, key, size) then Success(())
    else Failure(Conflict)
  }

  function MarkAttachmentStored(t: Tables, emailId: int, attachmentId: int, token: string, key: string, size: int)
    : Result<Tables, InboxError>
  {
    if !ValidToken(token) || !ValidObjectKey(key) || size < 0 then Failure(Validation)
    else if CanMark(t, emailId, attachmentId, token) then Success(Marked(t, attachmentId, key, size))
    else
      match ConfirmStored(t, emailId, attachmentId, token, key, size)
      case Success(_) => Success(t)
      case Failure(e) => Failure(e)
  }

  function MarkAttachmentError(t: Tables, emailId: int, attachmentId: int, token: string): Result<Tables, InboxError> {
    if !ValidToken(token) then Failure(Validation)
    else if HasAttachment(t, attachmentId) && AttachmentAt(t, attachmentId).emailId == emailId
            && AttachmentAt(t, attachmentId).state == Pending && Owns(t, emailId, token) then
      Success(t.(attachments := t.attachments[attachmentId - 1 := AttachmentAt(t, attachmentId).(state := Failed)]))
    else Failure(Conflict)
  }

  predicate AllStored(attachments: seq<Attachment>, emailId: int) {
    forall i :: 0 <= i < |attachments| && attachments[i].emailId == emailId ==> attachments[i].state == Stored
  }

  function Complete(t: Tables, emailId: int, token: string): Result<Tables, InboxError> {
    if !ValidToken(token) then Failure(Validation)
    else if !Owns(t, emailId, token) || !AllStored(t.attachments, emailId) then Failure(Conflict)
    else if !(HasEmail(t, emailId) && EmailAt(t, emailId).state == Pending) then Failure(Conflict)
    else Success(t.(emails := t.emails[emailId - 1 := EmailAt(t, emailId).(state := Stored, error := None)],
                    leases := t.leases - {emailId}))
  }

  function Fail(t: Tables, emailId: int, token: string, publicError: string): Result<Tables, InboxError> {
    if !ValidToken(token) || !ValidPublicError(publicError) then Failure(Validation)
    else if !Owns(t, emailId, token) then Failure(Conflict)
    else if !(HasEmail(t, emailId) && EmailAt(t, emailId).state == Pending) then Failure(Conflict)
    else Success(t.(emails := t.emails[emailId - 1 :=
                              EmailAt(t, emailId).(state := Failed, error := Some(publicError))],
                    leases := t.leases - {emailId}))
  }
}
