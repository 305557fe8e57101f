/** All invocations that process inbound email, interleaved: webhook deliveries
    and retries that race for leases, owners that run their program one
    external effect at a time and may stop anywhere, and PUT requests that
    reach the bucket late, twice, or after their sender is gone. */
module InboundProtocol {
  import opened Wrappers
  import opened MediaKey
  import opened ObjectStore
  import opened InboundTables

  // ---- keys ----

  datatype Body = Body(bytes: string, html: bool)

  function BodyExtension(html: bool): string { if html then "html" else "txt" }

  function BodyType(html: bool): string { if html then "text/html" else "text/plain" }

  function BodyKey(resendId: string, html: bool): string {
    "emails/" + resendId + "/body." + BodyExtension(html)
  }

  function AttachmentKey(resendId: string, attachmentId: string): string {
    "emails/" + resendId + "/attachments/" + attachmentId
  }

  function BodyBlob(body: Body): Blob { Blob(body.bytes, BodyType(body.html)) }

  // ---- owners ----

  /** Where an owner's program stands; `next` counts pending attachments. */
  datatype Pc =
    | Start
    | SendBody(body: Body) | CheckBody(body: Body) | RecordingBody(found: Option<Body>)
    | Storing(next: nat)
    | SendAttachment(next: nat, blob: Blob) | CheckAttachment(next: nat, blob: Blob)
    | Marking(next: nat, blob: Blob) | Confirming(next: nat, blob: Blob)
    | AttachmentFailed(next: nat)
    | Completing | Failing | Stopped

  datatype Owner = Owner(claim: Claim, pending: seq<(int, Attachment)>, pc: Pc)

  function PendingOf(attachments: seq<(int, Attachment)>): (r: seq<(int, Attachment)>)
    ensures forall i :: 0 <= i < |r| ==> r[i] in attachments
  {
    if attachments == [] then []
    else
      var rest := PendingOf(attachments[..|attachments| - 1]);
      var last := attachments[|attachments| - 1];
      if last.1.state != Processing.Stored then rest + [last] else rest
  }

  function KeyOf(o: Owner, next: nat): string
    requires next < |o.pending|
  {
    AttachmentKey(o.claim.email.resendId, o.pending[next].1.resendId)
  }

  /** What an owner does next; the values are the provider's and the network's
      answers. */
  datatype Move =
    | GetBody(body: Option<Body>)   // the provider's answer, if any body is not empty
    | KeepBody                      // the body was recorded before the claim
    | Put                           // hand a PUT request to the network
    | Head                          // look at the object after the PUT
    | Record                        // record_body
    | Download(bytes: string)       // one attachment, already checked against the metadata
    | NoneLeft                      // every pending attachment is stored
    | Mark                          // mark_attachment_stored: the update
    | Confirm                       // mark_attachment_stored: the answer when the update found no row
    | Abandon                       // this attachment failed
    | MarkError                     // mark_attachment_error
    | Finish                        // complete
    | GiveUp                        // an error or the deadline, at any point
    | ReportFailure(message: string) // fail

  datatype Action =
    | Webhook(draft: EmailDraft, token: string, now: int)
    | Retry(emailId: int, token: string, now: int)
    | Arrive(key: string, blob: Blob)
    | Act(owner: nat, move: Move)

  /** `wire` holds every PUT request ever sent: each may reach the bucket at
      any later time.  `used` holds every lease token ever drawn. */
  datatype System = System(
    tables: Tables, store: Objects, wire: set<(string, Blob)>, owners: seq<Owner>, used: set<string>)

  const INITIAL := System(NO_TABLES, map[], {}, [], {})

  // ---- steps ----

  function Claimed(s: System, token: string, result: Result<(Tables, ClaimOutcome), InboxError>): System {
    match result
    case Failure(_) => s.(used := s.used + {token})
    case Success((tables, outcome)) =>
      s.(tables := tables, used := s.used + {token},
         owners := if outcome.Acquired?
                   then s.owners + [Owner(outcome.claim, PendingOf(outcome.claim.attachments), Start)]
                   else s.owners)
  }

  function At(s: System, i: nat, pc: Pc): System
    requires i < |s.owners|
  {
    s.(owners := s.owners[i := s.owners[i].(pc := pc)])
  }

  function MoveOwner(s: System, i: nat, move: Move): System
    requires i < |s.owners|
  {
    var o := s.owners[i];
    var emailId, token := o.claim.emailId, o.claim.token;
    match (o.pc, move)
    case (Start, KeepBody) => if o.claim.email.bodyType.Some? then At(s, i, Storing(0)) else s
    case (Start, GetBody(body)) =>
      if o.claim.email.bodyType.Some? then s
      else if body.Some? then At(s, i, SendBody(body.value)) else At(s, i, RecordingBody(None))
    case (SendBody(body), Put) =>
      var key := BodyKey(o.claim.email.resendId, body.html);
      if !Puttable(key, BodyBlob(body)) then At(s, i, Failing)
      else At(s, i, CheckBody(body)).(wire := s.wire + {(key, BodyBlob(body))})
    case (CheckBody(body), Head) =>
      var key := BodyKey(o.claim.email.resendId, body.html);
      if key in s.store && Matches(s.store[key], BodyBlob(body)) then At(s, i, RecordingBody(Some(body)))
      else At(s, i, Failing)
    case (RecordingBody(found), Record) =>
      var result := match found
        case None => RecordBody(s.tables, emailId, token, None, "text/plain")
        case Some(body) =>
          RecordBody(s.tables, emailId, token, Some(BodyKey(o.claim.email.resendId, body.html)), BodyType(body.html));
      if result.Success? then At(s, i, Storing(0)).(tables := result.value) else At(s, i, Failing)
    case (Storing(next), Download(bytes)) =>
      if next < |o.pending| then At(s, i, SendAttachment(next, Blob(bytes, o.pending[next].1.contentType))) else s
    case (Storing(next), NoneLeft) => if next == |o.pending| then At(s, i, Completing) else s
    case (SendAttachment(next, blob), Put) =>
      if !(next < |o.pending|) then s
      else if !Puttable(KeyOf(o, next), blob) then At(s, i, AttachmentFailed(next))
      else At(s, i, CheckAttachment(next, blob)).(wire := s.wire + {(KeyOf(o, next), blob)})
    case (CheckAttachment(next, blob), Head) =>
      if !(next < |o.pending|) then s
      else if KeyOf(o, next) in s.store && Matches(s.store[KeyOf(o, next)], blob) then At(s, i, Marking(next, blob))
      else At(s, i, AttachmentFailed(next))
    case (Marking(next, blob), Mark) =>
      if !(next < |o.pending|) then s
      else if CanMark(s.tables, emailId, o.pending[next].0, token) then
        At(s, i, Storing(next + 1)).(tables := Marked(s.tables, o.pending[next].0, KeyOf(o, next), |blob.bytes|))
      else At(s, i, Confirming(next, blob))
    case (Confirming(next, blob), Confirm) =>
      if !(next < |o.pending|) then s
      else if ConfirmStored(s.tables, emailId, o.pending[next].0, token, KeyOf(o, next), |blob.bytes|).Success?
      then At(s, i, Storing(next + 1))
      else At(s, i, AttachmentFailed(next))
    case (Storing(next), Abandon) => if next < |o.pending| then At(s, i, AttachmentFailed(next)) else s
    case (SendAttachment(next, _), Abandon) => At(s, i, AttachmentFailed(next))
    case (CheckAttachment(next, _), Abandon) => At(s, i, AttachmentFailed(next))
    case (Marking(next, _), Abandon) => At(s, i, AttachmentFailed(next))
    case (Confirming(next, _), Abandon) => At(s, i, AttachmentFailed(next))
    case (AttachmentFailed(next), MarkError) =>
      if !(next < |o.pending|) then s
      else
        var result := MarkAttachmentError(s.tables, emailId, o.pending[next].0, token);
        if result.Success? then At(s, i, Failing).(tables := result.value) else At(s, i, Failing)
    case (Completing, Finish) =>
      var result := Complete(s.tables, emailId, token);
      if result.Success? then At(s, i, Stopped).(tables := result.value) else At(s, i, Failing)
    case (Failing, ReportFailure(message)) =>
      var result := Fail(s.tables, emailId, token, message);
      if result.Success? then At(s, i, Stopped).(tables := result.value) else At(s, i, Stopped)
    case (Stopped, _) => s
    case (_, GiveUp) => At(s, i, Failing)
    case _ => s
  }

  /** An action that the system does not allow changes nothing.  Tokens are
      drawn at random from 256 bits: a new claim never reuses one. */
  function Step(s: System, a: Action): System {
    match a
    case Webhook(draft, token, now) =>
      if token in s.used then s else Claimed(s, token, ClaimWebhook(s.tables, draft, token, now))
    case Retry(emailId, token, now) =>
      if token in s.used then s else Claimed(s, token, ClaimRetry(s.tables, emailId, token, now))
    case Arrive(key, blob) =>
      if (key, blob) in s.wire then s.(store := Bind(s.store, key, blob)) else s
    case Act(owner, move) =>
      if owner < |s.owners| then MoveOwner(s, owner, move) else s
  }

  function Run(s: System, actions: seq<Action>): System {
    if actions == [] then s else Step(Run(s, actions[..|actions| - 1]), actions[|actions| - 1])
  }
}
