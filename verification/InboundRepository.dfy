/** The repository of inbound email: each method runs its statements in the
    order of the source, and is proved to be the one step that `InboundTables`
    says it is.  A refused call rolls back. */
module InboundRepository {
  import opened Wrappers
  import opened InboundTables

  class InboundEmailRepository {
    var emails: seq<Email>
    var attachments: seq<Attachment>
    var leases: map<int, Lease>

    function Snapshot(): Tables
      reads this
    {
      Tables(emails, attachments, leases)
    }

    constructor ()
      ensures Snapshot() == NO_TABLES
    {
      emails, attachments, leases := [], [], map[];
    }

    method ClaimWebhook(draft: EmailDraft, token: string, now: int) returns (r: Result<ClaimOutcome, InboxError>)
      modifies this
      ensures match InboundTables.ClaimWebhook(old(Snapshot()), draft, token, now)
              case Failure(e) => r == Failure(e) && Snapshot() == old(Snapshot())
              case Success((t, outcome)) => r == Success(outcome) && Snapshot() == t
    {
      hide AddAttachments, ClaimOn, ValidAttachmentDraft, ValidText, ValidToken;
      if !ValidEmailDraft(draft) || !ValidToken(token) { return Failure(Validation); }
      var savedEmails, savedAttachments := emails, attachments;
      var emailId := FindEmail(emails, draft.resendId);
      if emailId == 0 {
        emails := emails + [NewEmail(draft)];
        emailId := |emails|;
      }
      if emails[emailId - 1].header != draft.header {
        emails := savedEmails;
        return Failure(Conflict);
      }
      var accepted := UpsertAttachments(emailId, draft.attachments);
      if !accepted {
        emails, attachments := savedEmails, savedAttachments;
        return Failure(Conflict);
      }
      var outcome := ClaimRow(emailId, token, now);
      r := Success(outcome);
    }

    method UpsertAttachments(emailId: int, drafts: seq<AttachmentDraft>) returns (accepted: bool)
      modifies this`attachments
      ensures match AddAttachments(old(attachments), emailId, drafts, |drafts|)
              case Failure(e) => !accepted && e == Conflict
              case Success(rows) => accepted && attachments == rows
    {
      ghost var rows := attachments;
      for i := 0 to |drafts|
        invariant AddAttachments(rows, emailId, drafts, i) == Success(attachments)
      {
        var d := drafts[i];
        var found := FindAttachment(attachments, emailId, d.resendId);
        if found == 0 {
          attachments := attachments + [NewAttachment(emailId, d)];
        } else if attachments[found - 1].filename != d.filename || attachments[found - 1].contentType != d.contentType {
          FailureStays(rows, emailId, drafts, i + 1, |drafts|);
          return false;
        }
      }
      accepted := true;
    }

    method ClaimRetry(emailId: int, token: string, now: int) returns (r: Result<ClaimOutcome, InboxError>)
      modifies this
      ensures match InboundTables.ClaimRetry(old(Snapshot()), emailId, token, now)
              case Failure(e) => r == Failure(e) && Snapshot() == old(Snapshot())
              case Success((t, outcome)) => r == Success(outcome) && Snapshot() == t
    {
      if emailId <= 0 || !ValidToken(token) { return Failure(Validation); }
      if emailId > |emails| { return Failure(NotFound); }
      var outcome := ClaimRow(emailId, token, now);
      r := Success(outcome);
    }

    method ClaimRow(emailId: int, token: string, now: int) returns (outcome: ClaimOutcome)
      requires HasEmail(Snapshot(), emailId)
      modifies this
      ensures (Snapshot(), outcome) == ClaimOn(old(Snapshot()), emailId, token, now)
    {
      if emails[emailId - 1].state == Stored { return AlreadyStored(emailId); }
      if emailId in leases && leases[emailId].claimedAt <= now - LEASE_STALE_MILLIS {
        leases := leases - {emailId};
      }
      if emailId in leases || TokenInUse(leases, token) { return Busy(emailId); }
      leases := leases[emailId := Lease(token, now)];
      emails := emails[emailId - 1 := emails[emailId - 1].(state := Pending, error := None)];
      attachments := ReopenAll(attachments, emailId);
      outcome := Acquired(Claim(emailId, emails[emailId - 1], AttachmentsOf(attachments, emailId), token));
    }

    method RecordBody(emailId: int, token: string, key: Option<string>, contentType: string)
      returns (r: Result<(), InboxError>)
      modifies this`emails
      ensures match InboundTables.RecordBody(old(Snapshot()), emailId, token, key, contentType)
              case Failure(e) => r == Failure(e) && Snapshot() == old(Snapshot())
              case Success(t) => r == Success(()) && Snapshot() == t
    {
      if !ValidToken(token) || !ValidContentType(contentType) { return Failure(Validation); }
      if key.Some? && (key.value == "" || |key.value| > 1024) { return Failure(Validation); }
      var changed := 0;
      if 1 <= emailId <= |emails| && emails[emailId - 1].state == Pending && LeaseIsOwned(emailId, token) {
        emails := emails[emailId - 1 := emails[emailId - 1].(bodyKey := key, bodyType := Some(contentType))];
        changed := 1;
      }
      r := if changed == 1 then Success(()) else Failure(Conflict);
    }

    predicate LeaseIsOwned(emailId: int, token: string)
      reads this
    {
      emailId in leases && leases[emailId].token == token
    }

    method MarkAttachmentStored(emailId: int, attachmentId: int, token: string, key: string, size: int)
      returns (r: Result<(), InboxError>)
      modifies this`attachments
      ensures match InboundTables.MarkAttachmentStored(old(Snapshot()), emailId, attachmentId, token, key, size)
              case Failure(e) => r == Failure(e) && Snapshot() == old(Snapshot())
              case Success(t) => r == Success(()) && Snapshot() == t
    {
      if !ValidToken(token) { return Failure(Validation); }
      if key == "" || |key| > 1024 || size < 0 { return Failure(Validation); }
      if 1 <= attachmentId <= |attachments| && attachments[attachmentId - 1].emailId == emailId
         && attachments[attachmentId - 1].state != Stored && LeaseIsOwned(emailId, token) {
        attachments := attachments[attachmentId - 1 :=
          attachments[attachmentId - 1].(state := Stored, key := Some(key), size := Some(size))];
        return Success(());
      }
      if !LeaseIsOwned(emailId, token) { return Failure(Conflict); }
      if !(1 <= attachmentId <= |attachments|) { return Failure(NotFound); }
      var a := attachments[attachmentId - 1];
      if a.emailId == emailId && a.state == Stored && a.key == Some(key) && a.size.Some? && a.size.value == size {
        return Success(());
      }
      r := Failure(Conflict);
    }

    method MarkAttachmentError(emailId: int, attachmentId: int, token: string) returns (r: Result<(), InboxError>)
      modifies this`attachments
      ensures match InboundTables.MarkAttachmentError(old(Snapshot()), emailId, attachmentId, token)
              case Failure(e) => r == Failure(e) && Snapshot() == old(Snapshot())
              case Success(t) => r == Success(()) && Snapshot() == t
    {
      if !ValidToken(token) { return Failure(Validation); }
      var changed := 0;
      if 1 <= attachmentId <= |attachments| && attachments[attachmentId - 1].emailId == emailId
         && attachments[attachmentId - 1].state == Pending && LeaseIsOwned(emailId, token) {
        attachments := attachments[attachmentId - 1 := attachments[attachmentId - 1].(state := Failed)];
        changed := 1;
      }
      r := if changed == 1 then Success(()) else Failure(Conflict);
    }

    method Complete(emailId: int, token: string) returns (r: Result<Email, InboxError>)
      modifies this`emails, this`leases
      ensures match InboundTables.Complete(old(Snapshot()), emailId, token)
              case Failure(e) => r == Failure(e) && Snapshot() == old(Snapshot())
              case Success(t) => HasEmail(t, emailId) && r == Success(EmailAt(t, emailId)) && Snapshot() == t
    {
      if !ValidToken(token) { return Failure(Validation); }
      if !LeaseIsOwned(emailId, token) { return Failure(Conflict); }
      if !AllStored(attachments, emailId) { return Failure(Conflict); }
      if !(1 <= emailId <= |emails| && emails[emailId - 1].state == Pending) { return Failure(Conflict); }
      emails := emails[emailId - 1 := emails[emailId - 1].(state := Stored, error := None)];
      leases := leases - {emailId};
      r := Success(emails[emailId - 1]);
    }

    method Fail(emailId: int, token: string, publicError: string) returns (r: Result<(), InboxError>)
      modifies this`emails, this`leases
      ensures match InboundTables.Fail(old(Snapshot()), emailId, token, publicError)
              case Failure(e) => r == Failure(e) && Snapshot() == old(Snapshot())
              case Success(t) => r == Success(()) && Snapshot() == t
    {
      if !ValidToken(token) || !ValidPublicError(publicError) { return Failure(Validation); }
      if !LeaseIsOwned(emailId, token) { return Failure(Conflict); }
      if !(1 <= emailId <= |emails| && emails[emailId - 1].state == Pending) { return Failure(Conflict); }
      emails := emails[emailId - 1 := emails[emailId - 1].(state := Failed, error := Some(publicError))];
      leases := leases - {emailId};
      r := Success(());
    }
  }

  /** A draft that is refused stays refused, whatever follows it. */
  lemma {:induction false} FailureStays(
    rows: seq<Attachment>, emailId: int, drafts: seq<AttachmentDraft>, k: nat, n: nat)
    requires k <= n <= |drafts| && AddAttachments(rows, emailId, drafts, k) == Failure(Conflict)
    ensures AddAttachments(rows, emailId, drafts, n) == Failure(Conflict)
  {
    if k < n { FailureStays(rows, emailId, drafts, k, n - 1); }
  }
}
