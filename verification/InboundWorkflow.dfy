/** The owner's program, step by step, against the repository and the bucket.
    Each effect is one action of the protocol: the program run by itself is one
    of the runs that `InboundProtocol` interleaves. */
module InboundWorkflow {
  import opened Wrappers
  import opened Text
  import opened MediaKey
  import opened ObjectStore
  import opened InboundTables
  import opened InboundProtocol
  import opened InboundInvariant
  import opened InboundSafety
  import opened InboundTheorems
  import opened InboundRepository
  import opened InboundContents
  import opened InboundOutcome

  // The two messages, in halves.
  function TransientFront(): (r: string) ensures Plain(r) { "Email provider or object storage is temp" }
  function TransientBack(): (r: string) ensures Plain(r) { "orarily unavailable. Retry is available." }
  function PermanentFront(): (r: string) ensures Plain(r) { "Email content could not be stored becaus" }
  function PermanentBack(): (r: string) ensures Plain(r) { "e the provider response was invalid." }

  function PublicError(failure: WorkflowFailure): string {
    match failure
    case Transient => TransientFront() + TransientBack()
    case Permanent => PermanentFront() + PermanentBack()
  }

  /** Whether a retry makes sense is what the message says. */
  lemma PublicErrorTexts()
    ensures PublicError(Transient)
            == "Email provider or object storage is temp" + "orarily unavailable. Retry is available."
    ensures PublicError(Permanent)
            == "Email content could not be stored becaus" + "e the provider response was invalid."
  {
  }

  /** Printable, at most forty characters, no space at either end. */
  predicate Plain(s: string) {
    0 < |s| <= 40 && !IsSpace(s[0]) && !IsSpace(s[|s| - 1]) && forall k :: 0 <= k < |s| ==> 32 <= s[k] as int < 127
  }

  lemma PlainPairIsValid(a: string, b: string)
    requires Plain(a) && Plain(b)
    ensures ValidPublicError(a + b)
  {
    TrimmedIsFixed(a + b);
    hide Trim;
  }

  lemma PublicErrorIsValid(failure: WorkflowFailure)
    ensures ValidPublicError(PublicError(failure))
  {
    hide Plain, TransientFront, TransientBack, PermanentFront, PermanentBack;
    PlainPairIsValid(TransientFront(), TransientBack());
    PlainPairIsValid(PermanentFront(), PermanentBack());
  }

  function FromMedia(e: MediaError): WorkflowFailure {
    if e in {InvalidInput, InvalidKey, ObjectMismatch} then Permanent else Transient
  }

  /** Bad keys, bad input and another object in the way are for good; storage that
      does not answer, or has lost the object, may be tried again. */
  lemma MediaFailures()
    ensures FromMedia(InvalidInput) == Permanent && FromMedia(InvalidKey) == Permanent
    ensures FromMedia(ObjectMismatch) == Permanent
    ensures FromMedia(ObjectMissing) == Transient && FromMedia(StorageUnavailable) == Transient
  {
  }

  // ---- the trace ----

  /** The system as the program sees it: its tables, its bucket, itself. */
  ghost predicate Sees(s: System, i: nat, repository: InboundEmailRepository, bucket: Bucket)
    reads repository, bucket
  {
    s.tables == repository.Snapshot() && s.store == bucket.objects && i < |s.owners|
  }

  ghost predicate AtPc(s: System, i: nat, o: Owner, pc: Pc) {
    i < |s.owners| && s.owners[i] == o.(pc := pc)
  }

  /** `s'` is reached from `s` by moves of owner `i` and arrivals of PUTs. */
  ghost predicate Reaches(s: System, s': System, i: nat) {
    exists actions :: Run(s, actions) == s' && OwnActions(actions, i)
  }

  ghost predicate OwnActions(actions: seq<Action>, i: nat) {
    forall k :: 0 <= k < |actions| ==> actions[k].Arrive? || (actions[k].Act? && actions[k].owner == i)
  }

  lemma ReachesItself(s: System, i: nat)
    ensures Reaches(s, s, i)
  {
    assert Run(s, []) == s && OwnActions([], i);
  }

  lemma ReachesOneMore(s: System, s': System, i: nat, a: Action)
    requires Reaches(s, s', i) && (a.Arrive? || (a.Act? && a.owner == i))
    ensures Reaches(s, Step(s', a), i)
  {
    hide Step;
    var actions :| Run(s, actions) == s' && OwnActions(actions, i);
    var longer := actions + [a];
    assert longer[..|longer| - 1] == actions;
    assert Run(s, longer) == Step(s', a) && OwnActions(longer, i);
  }

  lemma ReachesComposes(s: System, s1: System, s2: System, i: nat)
    requires Reaches(s, s1, i) && Reaches(s1, s2, i)
    ensures Reaches(s, s2, i)
  {
    hide Step;
    var first :| Run(s, first) == s1 && OwnActions(first, i);
    var second :| Run(s1, second) == s2 && OwnActions(second, i);
    RunSplits(s, first, second);
    assert Run(s, first + second) == s2 && OwnActions(first + second, i);
  }

  /** One move of the owner. */
  ghost function Did(s: System, i: nat, move: Move): System { Step(s, Act(i, move)) }

  lemma DidIsOwn(s: System, s': System, i: nat, move: Move)
    requires Reaches(s, s', i)
    ensures Reaches(s, Did(s', i, move), i)
  {
    hide Step;
    ReachesOneMore(s, s', i, Act(i, move));
  }

  /** Where the owner stands when a part of its program has ended so. */
  function PcAfter(r: Result<(), Ended>, done: Pc, failed: Pc): Pc {
    match r
    case Success(_) => done
    case Failure(Because(_)) => failed
    case Failure(TimedOut) => Failing
  }

  lemma GiveUpIs(s: System, i: nat)
    requires i < |s.owners| && s.owners[i].pc != Stopped
    ensures Did(s, i, GiveUp) == At(s, i, Failing)
  {
  }

  // ---- storing one object ----

  /** Put an object: on success it is in the bucket. */
  method PutObject(bucket: Bucket, outside: Outside, key: string, blob: Blob, ghost s: System, ghost i: nat)
    returns (r: Result<Blob, MediaError>, ghost s': System)
    requires s.store == bucket.objects && (Puttable(key, blob) ==> (key, blob) in s.wire)
    modifies bucket
    ensures Reaches(s, s', i) && s' == s.(store := bucket.objects)
    ensures r.Success? ==> Puttable(key, blob) && key in bucket.objects && Matches(bucket.objects[key], blob)
    ensures r.Success? <==> PutGoes(s.store, outside, key, blob)
    ensures r.Failure? ==> (FromMedia(r.error) == Permanent <==> PutFaulty(s.store, outside, key, blob))
    ensures OnlyKey(s.store, s'.store, key)
  {
    s' := s;
    ReachesItself(s, i);
    var reply, headAnswers := outside.network(key).0, outside.network(key).1;
    r := bucket.PutCanonicalIfAbsent(key, blob, reply, headAnswers);
    if bucket.objects != s.store {
      ReachesOneMore(s, s, i, Arrive(key, blob));
      s' := Step(s, Arrive(key, blob));
    }
  }

  /** One attachment: it is stored exactly if the lease is held and the outside
      lets it through, and otherwise the owner stands at its failure.  An
      attachment the provider no longer lists is a permanent failure that leaves
      no trace.  At the deadline the owner gives up. */
  method StoreAttachment(
      repository: InboundEmailRepository, bucket: Bucket, outside: Outside, claim: Claim,
      id: int, attachment: Attachment, remote: map<string, ProviderAttachment>, next: nat,
      ghost s: System, ghost i: nat, ghost o: Owner)
    returns (r: Result<(), Ended>, ghost s': System)
    requires Sees(s, i, repository, bucket) && AtPc(s, i, o, Storing(next)) && Inv(s)
    requires o.claim == claim && next < |o.pending| && o.pending[next] == (id, attachment)
    modifies repository`attachments, bucket
    ensures Sees(s', i, repository, bucket) && Reaches(s, s', i)
    ensures AtPc(s', i, o, PcAfter(r, Storing(next + 1), AttachmentFailed(next)))
    ensures !(attachment.resendId in remote && Announced(remote[attachment.resendId], attachment)) ==>
              r == Failure(Because(Permanent)) && s'.tables == s.tables && s'.store == s.store
    ensures r.Success? <==>
              && HoldsLease(s.tables, claim) && attachment.resendId in remote
              && AttachmentGoes(s.store, outside, claim, remote[attachment.resendId], next, attachment)
    ensures r == Failure(Because(Permanent)) <==>
              (attachment.resendId in remote ==>
                 AttachmentFaulty(s.store, outside, claim, remote[attachment.resendId], next, attachment))
    ensures OnlyKey(s.store, s'.store, KeyOf(o, next))
    ensures r.Success? ==>
              attachment.resendId in remote && remote[attachment.resendId].downloadUrl.Some?
              && HoldsDownload(s'.store, outside, claim, remote[attachment.resendId].downloadUrl.value, attachment)
    ensures r.Success? ==> OnlyRow(s.tables.attachments, s'.tables.attachments, id)
                           && IsStored(s'.tables.attachments, id)
  {
    hide AttachmentKey, Puttable, Matches, Reaches, ConfirmStored, Marked, Inv, HoldsLease, PutGoes, PutSucceeds,
         PutFaulty;
    ReachesItself(s, i);
    if attachment.resendId !in remote {
      DidIsOwn(s, s, i, Abandon);
      return Failure(Because(Permanent)), Did(s, i, Abandon);
    }
    var metadata := remote[attachment.resendId];
    if metadata.filename != attachment.filename || metadata.contentType != attachment.contentType
       || metadata.downloadUrl.None? {
      DidIsOwn(s, s, i, Abandon);
      return Failure(Because(Permanent)), Did(s, i, Abandon);
    }
    var download := outside.download(metadata.downloadUrl.value);
    if outside.deadline(Downloading(next)) {
      DidIsOwn(s, s, i, GiveUp);
      return Failure(TimedOut), Did(s, i, GiveUp);
    }
    if download.Failure? {
      DidIsOwn(s, s, i, Abandon);
      return Failure(Because(download.error)), Did(s, i, Abandon);
    }
    if download.value.contentType != attachment.contentType
       && download.value.contentType != "application/octet-stream" {
      DidIsOwn(s, s, i, Abandon);
      return Failure(Because(Permanent)), Did(s, i, Abandon);
    }
    ObjectTexts(claim.email.resendId, attachment.resendId);
    var key := AttachmentKey(claim.email.resendId, attachment.resendId);
    var blob := Blob(download.value.bytes, attachment.contentType);
    ghost var s1 := Did(s, i, Download(blob.bytes));
    DidIsOwn(s, s, i, Download(blob.bytes));
    assert s1 == At(s, i, SendAttachment(next, blob));
    ReachableKeeps(s, s1, i);
    r, s' := StoreDownloaded(repository, bucket, outside, claim, id, key, blob, next, s1, i, o);
    ReachesComposes(s, s1, s', i);
  }

  lemma AttachmentPutIs(s: System, i: nat, o: Owner, next: nat, blob: Blob)
    requires AtPc(s, i, o, SendAttachment(next, blob)) && next < |o.pending|
    ensures Did(s, i, Move.Put)
            == if Puttable(KeyOf(o, next), blob)
               then At(s, i, CheckAttachment(next, blob)).(wire := s.wire + {(KeyOf(o, next), blob)})
               else At(s, i, AttachmentFailed(next))
  {
    hide AttachmentKey, Puttable;
  }

  lemma AttachmentHeadIs(s: System, i: nat, o: Owner, next: nat, blob: Blob)
    requires AtPc(s, i, o, CheckAttachment(next, blob)) && next < |o.pending|
    ensures Did(s, i, Head)
            == At(s, i, if KeyOf(o, next) in s.store && Matches(s.store[KeyOf(o, next)], blob)
                        then Marking(next, blob) else AttachmentFailed(next))
    ensures Did(s, i, Abandon) == At(s, i, AttachmentFailed(next))
  {
    hide AttachmentKey, Matches;
  }

  method StoreDownloaded(
      repository: InboundEmailRepository, bucket: Bucket, outside: Outside, claim: Claim,
      id: int, key: string, blob: Blob, next: nat, ghost s: System, ghost i: nat, ghost o: Owner)
    returns (r: Result<(), Ended>, ghost s': System)
    requires Sees(s, i, repository, bucket) && AtPc(s, i, o, SendAttachment(next, blob)) && Inv(s)
    requires o.claim == claim && next < |o.pending| && o.pending[next].0 == id && key == KeyOf(o, next)
    modifies repository`attachments, bucket
    ensures Sees(s', i, repository, bucket) && Reaches(s, s', i)
    ensures AtPc(s', i, o, PcAfter(r, Storing(next + 1), AttachmentFailed(next)))
    ensures r.Success? <==>
              && HoldsLease(s.tables, claim) && !outside.deadline(Putting(next))
              && PutGoes(s.store, outside, key, blob) && !outside.deadline(MarkingStored(next))
    ensures r == Failure(Because(Permanent)) <==>
              !outside.deadline(Putting(next)) && PutFaulty(s.store, outside, key, blob)
    ensures OnlyKey(s.store, s'.store, key)
    ensures r.Success? ==> key in s'.store && s'.store[key].bytes == blob.bytes
    ensures r.Success? ==> OnlyRow(s.tables.attachments, s'.tables.attachments, id)
                           && IsStored(s'.tables.attachments, id)
  {
    hide AttachmentKey, Puttable, Matches, Reaches, Did, Step, MarkAttachmentStored, AfterMark, PutGoes, PutFaulty,
         IsCanonical, Inv, HoldsLease, OwnerOk;
    GoesOrFaulty(s.store, outside, key, blob);
    ReachesItself(s, i);
    AttachmentPutIs(s, i, o, next, blob);
    ghost var s1 := Did(s, i, Move.Put);
    DidIsOwn(s, s, i, Move.Put);
    var put;
    ghost var s2;
    put, s2 := PutObject(bucket, outside, key, blob, s1, i);
    ReachesComposes(s, s1, s2, i);
    if outside.deadline(Putting(next)) {
      GiveUpIs(s2, i);
      DidIsOwn(s, s2, i, GiveUp);
      return Failure(TimedOut), Did(s2, i, GiveUp);
    }
    if put.Failure? {
      if Puttable(key, blob) {
        AttachmentHeadIs(s2, i, o, next, blob);
        DidIsOwn(s, s2, i, Abandon);
        s2 := Did(s2, i, Abandon);
      }
      return Failure(Because(FromMedia(put.error))), s2;
    }
    MatchingBytes(s2.store[key], blob);
    AttachmentHeadIs(s2, i, o, next, blob);
    DidIsOwn(s, s2, i, Head);
    ghost var s3 := Did(s2, i, Head);
    assert AtPc(s3, i, o, Marking(next, blob));
    ReachableKeeps(s, s3, i);
    PuttableKeyIsValid(key, blob);
    MarkSucceeds(s3, i, next, blob);
    var size := |blob.bytes|;
    var marked := repository.MarkAttachmentStored(claim.emailId, id, claim.token, key, size);
    r, s' := if marked.Success? then Success(()) else Failure(Because(Transient)), AfterMark(s3, i, marked);
    MarkIsTraced(s, s3, i, o, next, blob, marked);
    if outside.deadline(MarkingStored(next)) {
      GiveUpIs(s', i);
      DidIsOwn(s, s', i, GiveUp);
      r, s' := Failure(TimedOut), Did(s', i, GiveUp);
    }
  }

  lemma GoesOrFaulty(store: Objects, outside: Outside, key: string, blob: Blob)
    ensures PutGoes(store, outside, key, blob) ==> !PutFaulty(store, outside, key, blob)
  {
    hide Puttable, Matches;
  }

  lemma MatchingBytes(existing: Blob, wanted: Blob)
    requires Matches(existing, wanted)
    ensures existing.bytes == wanted.bytes
  {
  }

  lemma PuttableKeyIsValid(key: string, blob: Blob)
    ensures Puttable(key, blob) ==> ValidObjectKey(key)
  {
  }

  /** What the mark statement did, as moves. */
  ghost function AfterMark(s: System, i: nat, marked: Result<(), InboxError>): System {
    if marked == Failure(Validation) then Did(s, i, Abandon)
    else
      var s1 := Did(s, i, Mark);
      if i < |s1.owners| && s1.owners[i].pc.Confirming? then Did(s1, i, Confirm) else s1
  }

  lemma MarkIsTraced(s0: System, s: System, i: nat, o: Owner, next: nat, blob: Blob, marked: Result<(), InboxError>)
    requires Reaches(s0, s, i) && AtPc(s, i, o, Marking(next, blob)) && next < |o.pending|
    requires match MarkAttachmentStored(s.tables, o.claim.emailId, o.pending[next].0, o.claim.token,
                                        KeyOf(o, next), |blob.bytes|)
             case Failure(e) => marked == Failure(e)
             case Success(_) => marked == Success(())
    ensures Reaches(s0, AfterMark(s, i, marked), i)
    ensures AtPc(AfterMark(s, i, marked), i, o, if marked.Success? then Storing(next + 1) else AttachmentFailed(next))
    ensures AfterMark(s, i, marked).store == s.store
    ensures marked.Failure? ==> AfterMark(s, i, marked).tables == s.tables
    ensures marked.Success? ==>
              MarkAttachmentStored(s.tables, o.claim.emailId, o.pending[next].0, o.claim.token,
                                   KeyOf(o, next), |blob.bytes|)
              == Success(AfterMark(s, i, marked).tables)
  {
    hide AttachmentKey, Reaches, ValidToken;
    DidIsOwn(s0, s, i, Abandon);
    DidIsOwn(s0, s, i, Mark);
    DidIsOwn(s0, Did(s, i, Mark), i, Confirm);
  }

  // ---- the whole claim ----

  lemma BodyStartIs(s: System, i: nat, o: Owner, body: Option<Body>)
    requires AtPc(s, i, o, Start)
    ensures o.claim.email.bodyType.Some? ==> Did(s, i, KeepBody) == At(s, i, Storing(0))
    ensures o.claim.email.bodyType.None? ==>
              Did(s, i, GetBody(body)) == At(s, i, if body.Some? then SendBody(body.value) else RecordingBody(None))
  {
  }

  lemma BodyPutIs(s: System, i: nat, o: Owner, body: Body)
    requires AtPc(s, i, o, SendBody(body))
    ensures var key, blob := BodyKey(o.claim.email.resendId, body.html), BodyBlob(body);
            Did(s, i, Move.Put)
            == if Puttable(key, blob) then At(s, i, CheckBody(body)).(wire := s.wire + {(key, blob)})
               else At(s, i, Failing)
  {
    hide BodyKey, Puttable;
  }

  lemma BodyHeadIs(s: System, i: nat, o: Owner, body: Body)
    requires AtPc(s, i, o, CheckBody(body))
    ensures var key := BodyKey(o.claim.email.resendId, body.html);
            Did(s, i, Head) == At(s, i, if key in s.store && Matches(s.store[key], BodyBlob(body))
                                        then RecordingBody(Some(body)) else Failing)
  {
    hide BodyKey, Matches;
  }

  lemma BodyRecordIs(s: System, i: nat, o: Owner, found: Option<Body>)
    requires AtPc(s, i, o, RecordingBody(found))
    ensures var owner := o.(pc := RecordingBody(found));
            var result := RecordBody(s.tables, o.claim.emailId, o.claim.token, RecordedKey(owner), RecordedType(owner));
            Did(s, i, Record)
            == if result.Success? then At(s, i, Storing(0)).(tables := result.value) else At(s, i, Failing)
  {
    RecordMoveIs(s, i);
    hide RecordBody, BodyKey, MoveOwner;
  }

  /** The body: fetched, stored and recorded unless an earlier claim did. */
  method StoreBody(
      repository: InboundEmailRepository, bucket: Bucket, outside: Outside, claim: Claim,
      ghost s: System, ghost i: nat, ghost o: Owner)
    returns (r: Result<(), Ended>, ghost s': System)
    requires Sees(s, i, repository, bucket) && AtPc(s, i, o, Start) && o.claim == claim && Inv(s)
    modifies repository`emails, bucket
    ensures Sees(s', i, repository, bucket) && Reaches(s, s', i)
    ensures AtPc(s', i, o, PcAfter(r, Storing(0), Failing))
    ensures r.Success? ==> BodyGoes(s.store, outside, claim)
    ensures BodyGoes(s.store, outside, claim) && (claim.email.bodyType.Some? || HoldsLease(s.tables, claim)) ==>
              r.Success?
    ensures r == Failure(Because(Permanent)) <==> BodyFaulty(s.store, outside, claim)
    ensures r.Success? ==> claim.email.bodyType.Some? || HoldsLease(s.tables, claim)
    ensures r.Success? ==> BodyOnRecord(s'.tables, s'.store, outside, claim)
    ensures forall k :: 0 <= k < |o.pending| ==> SameAt(s.store, s'.store, KeyOf(o, k))
  {
    hide BodyKey, AttachmentKey, Puttable, Matches, Reaches, RecordBody, Did, Step, PutGoes, PutFaulty,
         IsCanonical, Inv, HoldsLease, OwnerOk;
    ReachesItself(s, i);
    BodyStartIs(s, i, o, None);
    GiveUpIs(s, i);
    if claim.email.bodyType.Some? {
      DidIsOwn(s, s, i, KeepBody);
      return Success(()), Did(s, i, KeepBody);
    }
    if outside.deadline(Fetching) || outside.content.Failure? {
      DidIsOwn(s, s, i, GiveUp);
      return Failure(if outside.deadline(Fetching) then TimedOut else Because(outside.content.error)),
        Did(s, i, GiveUp);
    }
    var body := ChosenBody(outside.content.value);
    BodyStartIs(s, i, o, body);
    ghost var s1 := Did(s, i, GetBody(body));
    DidIsOwn(s, s, i, GetBody(body));
    var recorded;
    ghost var beforeRecord;
    if body.Some? {
      var key := BodyKey(claim.email.resendId, body.value.html);
      ghost var s2 := Did(s1, i, Move.Put);
      BodyPutIs(s1, i, o, body.value);
      DidIsOwn(s, s1, i, Move.Put);
      var put;
      ghost var s3;
      put, s3 := PutObject(bucket, outside, key, BodyBlob(body.value), s2, i);
      ReachesComposes(s, s2, s3, i);
      forall k | 0 <= k < |o.pending| ensures SameAt(s.store, s3.store, KeyOf(o, k)) {
        BodyKeyIsNoPendingKey(s, i, body.value.html, k);
      }
      GoesOrFaulty(s.store, outside, key, BodyBlob(body.value));
      if outside.deadline(PuttingBody) || put.Failure? {
        GiveUpIs(s3, i);
        DidIsOwn(s, s3, i, GiveUp);
        return Failure(if outside.deadline(PuttingBody) then TimedOut else Because(FromMedia(put.error))),
          Did(s3, i, GiveUp);
      }
      PuttableKeyIsValid(key, BodyBlob(body.value));
      BodyHeadIs(s3, i, o, body.value);
      DidIsOwn(s, s3, i, Head);
      s1 := Did(s3, i, Head);
      ReachableKeeps(s, s1, i);
      beforeRecord := s1;
      RecordSucceeds(s1, claim, Some(key), body.value.html);
      recorded := repository.RecordBody(claim.emailId, claim.token, Some(key), BodyType(body.value.html));
    } else {
      ReachableKeeps(s, s1, i);
      beforeRecord := s1;
      RecordSucceeds(s1, claim, None, false);
      recorded := repository.RecordBody(claim.emailId, claim.token, None, "text/plain");
    }
    RecordedBodyIs(beforeRecord, claim, outside, body);
    BodyRecordIs(s1, i, o, if body.Some? then body else None);
    DidIsOwn(s, s1, i, Record);
    r, s' := if recorded.Success? then Success(()) else Failure(Because(Transient)), Did(s1, i, Record);
    if outside.deadline(Recording) {
      GiveUpIs(s', i);
      DidIsOwn(s, s', i, GiveUp);
      r, s' := Failure(TimedOut), Did(s', i, GiveUp);
    }
  }

  /** The provider's listing by id; a repeated id is refused. */
  method ById(remote: seq<ProviderAttachment>) returns (r: Option<map<string, ProviderAttachment>>)
    ensures r.None? <==> exists j, k :: 0 <= j < k < |remote| && remote[j].id == remote[k].id
    ensures r.Some? ==> forall j :: 0 <= j < |remote| ==> remote[j].id in r.value && r.value[remote[j].id] == remote[j]
    ensures r.Some? ==> forall id :: id in r.value ==> exists j :: 0 <= j < |remote| && remote[j].id == id
  {
    var byId: map<string, ProviderAttachment> := map[];
    for n := 0 to |remote|
      invariant forall j :: 0 <= j < n ==> remote[j].id in byId && byId[remote[j].id] == remote[j]
      invariant forall id :: id in byId ==> exists j :: 0 <= j < n && remote[j].id == id
      invariant forall j, k :: 0 <= j < k < n ==> remote[j].id != remote[k].id
    {
      if remote[n].id in byId { return None; }
      byId := byId[remote[n].id := remote[n]];
    }
    r := Some(byId);
  }

  /** The attachment is in the listing by id, and goes through. */
  predicate IsIn(
    store: Objects, outside: Outside, claim: Claim, byId: map<string, ProviderAttachment>, next: nat, a: Attachment)
  {
    a.resendId in byId && AttachmentGoes(store, outside, claim, byId[a.resendId], next, a)
  }

  /** The attachment is not in the listing by id, or faulty. */
  predicate IsFaulty(
    store: Objects, outside: Outside, claim: Claim, byId: map<string, ProviderAttachment>, next: nat, a: Attachment)
  {
    a.resendId in byId ==> AttachmentFaulty(store, outside, claim, byId[a.resendId], next, a)
  }

  lemma FaultyDoesNotGo(
    store: Objects, outside: Outside, claim: Claim, byId: map<string, ProviderAttachment>, next: nat, a: Attachment)
    ensures IsFaulty(store, outside, claim, byId, next, a) ==> !IsIn(store, outside, claim, byId, next, a)
  {
    hide PutGoes, PutFaulty, AttachmentKey;
    if a.resendId in byId && Announced(byId[a.resendId], a)
       && outside.download(byId[a.resendId].downloadUrl.value).Success? {
      GoesOrFaulty(store, outside, AttachmentKey(claim.email.resendId, a.resendId),
                   Blob(outside.download(byId[a.resendId].downloadUrl.value).value.bytes, a.contentType));
    }
  }

  lemma InAlike(
    store: Objects, store': Objects, outside: Outside, o: Owner, byId: map<string, ProviderAttachment>, next: nat)
    requires next < |o.pending| && SameAt(store, store', KeyOf(o, next))
    ensures IsIn(store, outside, o.claim, byId, next, o.pending[next].1)
            <==> IsIn(store', outside, o.claim, byId, next, o.pending[next].1)
    ensures IsFaulty(store, outside, o.claim, byId, next, o.pending[next].1)
            <==> IsFaulty(store', outside, o.claim, byId, next, o.pending[next].1)
  {
    hide AttachmentGoes, AttachmentFaulty, SameAt, AttachmentKey;
    var a := o.pending[next].1;
    if a.resendId in byId { AttachmentGoesAlike(store, store', outside, o.claim, byId[a.resendId], next, a); }
  }

  /** The lease is held, and the first `n` pending attachments go through. */
  ghost predicate GoUpTo(
    s: System, outside: Outside, claim: Claim, byId: map<string, ProviderAttachment>, pending: seq<(int, Attachment)>,
    n: nat)
    requires n <= |pending|
  {
    (n > 0 ==> HoldsLease(s.tables, claim))
    && forall k :: 0 <= k < n ==> IsIn(s.store, outside, claim, byId, k, pending[k].1)
  }

  /** The first attachment that does not go through is faulty. */
  ghost predicate FirstFaulty(
    s: System, outside: Outside, claim: Claim, byId: map<string, ProviderAttachment>, pending: seq<(int, Attachment)>,
    k: nat)
    requires k < |pending|
  {
    && !outside.deadline(MarkingError(k)) && IsFaulty(s.store, outside, claim, byId, k, pending[k].1)
    && GoUpTo(s, outside, claim, byId, pending, k)
  }

  lemma FirstFaultyIs(
    s: System, outside: Outside, claim: Claim, byId: map<string, ProviderAttachment>, pending: seq<(int, Attachment)>,
    n: nat)
    requires n < |pending| && GoUpTo(s, outside, claim, byId, pending, n)
    requires !(HoldsLease(s.tables, claim) && IsIn(s.store, outside, claim, byId, n, pending[n].1))
    ensures (exists k :: 0 <= k < |pending| && FirstFaulty(s, outside, claim, byId, pending, k))
            <==> !outside.deadline(MarkingError(n)) && IsFaulty(s.store, outside, claim, byId, n, pending[n].1)
  {
    hide IsIn, IsFaulty, HoldsLease;
    if !outside.deadline(MarkingError(n)) && IsFaulty(s.store, outside, claim, byId, n, pending[n].1) {
      assert FirstFaulty(s, outside, claim, byId, pending, n);
    }
    forall k | 0 <= k < |pending| && FirstFaulty(s, outside, claim, byId, pending, k) ensures k == n {
      if k < n { FaultyDoesNotGo(s.store, outside, claim, byId, k, pending[k].1); }
    }
  }

  lemma NoFaultyIfAllGo(
    s: System, outside: Outside, claim: Claim, byId: map<string, ProviderAttachment>, pending: seq<(int, Attachment)>)
    requires GoUpTo(s, outside, claim, byId, pending, |pending|)
    ensures !exists k :: 0 <= k < |pending| && FirstFaulty(s, outside, claim, byId, pending, k)
  {
    hide IsIn, IsFaulty, HoldsLease;
    forall k | 0 <= k < |pending| ensures !FirstFaulty(s, outside, claim, byId, pending, k) {
      FaultyDoesNotGo(s.store, outside, claim, byId, k, pending[k].1);
      assert IsIn(s.store, outside, claim, byId, k, pending[k].1);
    }
  }

  lemma NoneGone(
    s: System, outside: Outside, claim: Claim, byId: map<string, ProviderAttachment>, pending: seq<(int, Attachment)>)
    ensures GoUpTo(s, outside, claim, byId, pending, 0)
    ensures StoredUpTo(s.tables.attachments, s.tables.attachments, pending, 0)
  {
  }

  lemma OneMoreGoes(
    s: System, outside: Outside, claim: Claim, byId: map<string, ProviderAttachment>, pending: seq<(int, Attachment)>,
    n: nat)
    requires n < |pending| && GoUpTo(s, outside, claim, byId, pending, n)
    ensures var goes := HoldsLease(s.tables, claim) && IsIn(s.store, outside, claim, byId, n, pending[n].1);
            && (GoUpTo(s, outside, claim, byId, pending, n + 1) <==> goes)
            && (GoUpTo(s, outside, claim, byId, pending, |pending|) ==> goes)
  {
    hide IsIn, HoldsLease;
    if GoUpTo(s, outside, claim, byId, pending, n + 1) || GoUpTo(s, outside, claim, byId, pending, |pending|) {
      assert IsIn(s.store, outside, claim, byId, n, pending[n].1);
    }
  }

  lemma NoneDownloaded(store: Objects, outside: Outside, claim: Claim, pending: seq<(int, Attachment)>)
    ensures AllDownloaded(store, outside, claim, pending, 0)
  {
  }

  lemma SameAtItself(store: Objects)
    ensures forall key :: SameAt(store, store, key)
  {
  }

  lemma MarkErrorIs(s: System, i: nat, o: Owner, next: nat)
    requires AtPc(s, i, o, AttachmentFailed(next)) && next < |o.pending|
    ensures var result := MarkAttachmentError(s.tables, o.claim.emailId, o.pending[next].0, o.claim.token);
            Did(s, i, MarkError) == At(s, i, Failing).(tables := if result.Success? then result.value else s.tables)
  {
    hide MarkAttachmentError;
  }

  lemma SameAtComposes(store: Objects, store': Objects, store'': Objects, key: string)
    requires SameAt(store, store', key) && SameAt(store', store'', key)
    ensures SameAt(store, store'', key)
  {
  }

  lemma SameLease(t: Tables, t': Tables, claim: Claim)
    requires t'.leases == t.leases
    ensures HoldsLease(t, claim) <==> HoldsLease(t', claim)
  {
  }

  lemma PendingIdsOf(s: System, i: nat)
    requires Inv(s) && i < |s.owners|
    ensures IdsDiffer(s.owners[i].pending)
  {
    assert OwnerOk(s, s.owners[i]);
  }

  method StorePending(
      repository: InboundEmailRepository, bucket: Bucket, outside: Outside, claim: Claim,
      pending: seq<(int, Attachment)>, byId: map<string, ProviderAttachment>,
      ghost s: System, ghost i: nat, ghost o: Owner)
    returns (r: Result<(), Ended>, ghost s': System)
    requires Sees(s, i, repository, bucket) && AtPc(s, i, o, Storing(0)) && Inv(s)
    requires o.claim == claim && o.pending == pending && outside.listing.Success?
    requires forall id :: id in byId ==>
               exists j :: 0 <= j < |outside.listing.value| && outside.listing.value[j] == byId[id]
                 && outside.listing.value[j].id == id
    modifies repository`attachments, bucket
    ensures Sees(s', i, repository, bucket) && Reaches(s, s', i)
    ensures AtPc(s', i, o, PcAfter(r, Storing(|pending|), Failing))
    ensures r.Success? <==> GoUpTo(s, outside, claim, byId, pending, |pending|)
    ensures r == Failure(Because(Permanent)) <==>
              exists k :: 0 <= k < |pending| && FirstFaulty(s, outside, claim, byId, pending, k)
    ensures r.Success? ==> StoredUpTo(s.tables.attachments, s'.tables.attachments, pending, |pending|)
    ensures r.Success? ==> AllDownloaded(s'.store, outside, claim, pending, |pending|)
  {
    hide Reaches, Inv, HoldsLease, AttachmentGoes, HoldsDownload, AllDownloaded, SameAt, Did, Step, IsStored,
         OnlyRow, AttachmentKey, GoUpTo, StoredUpTo, AttachmentFaulty, FirstFaulty;
    NoneGone(s, outside, claim, byId, pending);
    NoneDownloaded(s.store, outside, claim, pending);
    ReachesItself(s, i);
    PendingIdsOf(s, i);
    SameAtItself(s.store);
    s' := s;
    for next := 0 to |pending|
      invariant Sees(s', i, repository, bucket) && Reaches(s, s', i) && AtPc(s', i, o, Storing(next))
      invariant GoUpTo(s, outside, claim, byId, pending, next)
      invariant forall k :: next <= k < |pending| ==> SameAt(s.store, s'.store, KeyOf(o, k))
      invariant StoredUpTo(s.tables.attachments, s'.tables.attachments, pending, next)
      invariant AllDownloaded(s'.store, outside, claim, pending, next)
    {
      ghost var before := s';
      ReachableKeeps(s, s', i);
      r, s' := StoreAttachment(
        repository, bucket, outside, claim, pending[next].0, pending[next].1, byId, next, s', i, o);
      ReachesComposes(s, before, s', i);
      SameLease(s.tables, before.tables, claim);
      InAlike(s.store, before.store, outside, o, byId, next);
      OneMoreGoes(s, outside, claim, byId, pending, next);
      if r.Failure? { FirstFaultyIs(s, outside, claim, byId, pending, next); }
      if r == Failure(TimedOut) { return; }
      if r.Failure? {
        MarkErrorIs(s', i, o, next);
        var _ := repository.MarkAttachmentError(claim.emailId, pending[next].0, claim.token);
        DidIsOwn(s, s', i, MarkError);
        s' := Did(s', i, MarkError);
        if outside.deadline(MarkingError(next)) { r := Failure(TimedOut); }
        return;
      }
      ReachableKeeps(before, s', i);
      DownloadsStay(before.store, s'.store, outside, claim, pending, next);
      OneMoreDownload(s'.store, outside, claim, byId, pending, next);
      StoredOneMore(s.tables.attachments, before.tables.attachments, s'.tables.attachments, pending, next);
      forall k | next + 1 <= k < |pending| ensures SameAt(s.store, s'.store, KeyOf(o, k)) {
        PendingKeysDiffer(s, i, next, k);
        SameAtComposes(s.store, before.store, s'.store, KeyOf(o, k));
      }
    }
    NoFaultyIfAllGo(s, outside, claim, byId, pending);
    r := Success(());
  }

  lemma IsInIs(
    store: Objects, outside: Outside, claim: Claim, byId: map<string, ProviderAttachment>, next: nat, a: Attachment)
    ensures IsIn(store, outside, claim, byId, next, a)
            <==> a.resendId in byId && AttachmentGoes(store, outside, claim, byId[a.resendId], next, a)
  {
  }

  lemma FaultyAtIs(
    s: System, outside: Outside, claim: Claim, remote: seq<ProviderAttachment>,
    byId: map<string, ProviderAttachment>, pending: seq<(int, Attachment)>, k: nat)
    requires forall j :: 0 <= j < |remote| ==> remote[j].id in byId && byId[remote[j].id] == remote[j]
    requires forall id :: id in byId ==> exists j :: 0 <= j < |remote| && remote[j].id == id
    requires k < |pending|
    ensures FaultyAt(s, outside, claim, remote, pending, k) <==> FirstFaulty(s, outside, claim, byId, pending, k)
  {
    hide AttachmentGoes, AttachmentFaulty, IsListed, ListedFaulty, HoldsLease;
    forall j | 0 <= j <= k
      ensures IsListed(s.store, outside, claim, remote, j, pending[j].1)
              <==> IsIn(s.store, outside, claim, byId, j, pending[j].1)
      ensures ListedFaulty(s.store, outside, claim, remote, j, pending[j].1)
              <==> IsFaulty(s.store, outside, claim, byId, j, pending[j].1)
    {
      ListedById(s.store, outside, claim, remote, byId, j, pending[j].1);
    }
    hide IsIn, IsFaulty;
    if FaultyAt(s, outside, claim, remote, pending, k) {
      forall j | 0 <= j < k ensures IsIn(s.store, outside, claim, byId, j, pending[j].1) {
        assert IsListed(s.store, outside, claim, remote, j, pending[j].1);
      }
    }
    if FirstFaulty(s, outside, claim, byId, pending, k) {
      forall j | 0 <= j < k ensures IsListed(s.store, outside, claim, remote, j, pending[j].1) {
        assert IsIn(s.store, outside, claim, byId, j, pending[j].1);
      }
    }
  }

  method StoreAttachments(
      repository: InboundEmailRepository, bucket: Bucket, outside: Outside, claim: Claim,
      ghost s: System, ghost i: nat, ghost o: Owner)
    returns (r: Result<(), Ended>, ghost s': System)
    requires Sees(s, i, repository, bucket) && AtPc(s, i, o, Storing(0)) && Inv(s)
    requires o.claim == claim && o.pending == PendingOf(claim.attachments)
    modifies repository`attachments, bucket
    ensures Sees(s', i, repository, bucket) && Reaches(s, s', i)
    ensures AtPc(s', i, o, PcAfter(r, Storing(|o.pending|), Failing))
    ensures r.Success? ==> ListingGoes(s.store, outside, claim, o.pending)
    ensures HoldsLease(s.tables, claim) && ListingGoes(s.store, outside, claim, o.pending) ==> r.Success?
    ensures r == Failure(Because(Permanent)) <==> ListingFaulty(s, outside, claim, o.pending)
    ensures r.Success? ==> StoredUpTo(s.tables.attachments, s'.tables.attachments, o.pending, |o.pending|)
    ensures r.Success? ==> AllDownloaded(s'.store, outside, claim, o.pending, |o.pending|)
  {
    hide Reaches, PendingOf, Inv, HoldsLease, AttachmentGoes, IsListed, AttachmentFaulty, ListedFaulty, FaultyAt,
         FirstFaulty, IsIn;
    ReachesItself(s, i);
    var pending := PendingOf(claim.attachments);
    if pending == [] { return Success(()), s; }
    if outside.deadline(ListingAttachments) || outside.listing.Failure? {
      DidIsOwn(s, s, i, GiveUp);
      return Failure(if outside.deadline(ListingAttachments) then TimedOut else Because(outside.listing.error)),
        Did(s, i, GiveUp);
    }
    var byId := ById(outside.listing.value);
    if byId.None? {
      DidIsOwn(s, s, i, GiveUp);
      return Failure(Because(Permanent)), Did(s, i, GiveUp);
    }
    forall k | 0 <= k < |pending|
      ensures IsListed(s.store, outside, claim, outside.listing.value, k, pending[k].1)
              <==> IsIn(s.store, outside, claim, byId.value, k, pending[k].1)
    {
      ListedById(s.store, outside, claim, outside.listing.value, byId.value, k, pending[k].1);
      hide *;
      IsInIs(s.store, outside, claim, byId.value, k, pending[k].1);
    }
    forall k | 0 <= k < |pending|
      ensures FaultyAt(s, outside, claim, outside.listing.value, pending, k)
              <==> FirstFaulty(s, outside, claim, byId.value, pending, k)
    {
      FaultyAtIs(s, outside, claim, outside.listing.value, byId.value, pending, k);
    }
    r, s' := StorePending(repository, bucket, outside, claim, pending, byId.value, s, i, o);
  }

  /** The email is stored, with all its attachments, and nobody's. */
  predicate Finished(t: Tables, emailId: int) {
    && HasEmail(t, emailId) && EmailAt(t, emailId).state == Processing.Stored
    && AllStored(t.attachments, emailId) && emailId !in t.leases
  }

  lemma ListingGoesAlike(store: Objects, store': Objects, outside: Outside, o: Owner)
    requires forall k :: 0 <= k < |o.pending| ==> SameAt(store, store', KeyOf(o, k))
    ensures ListingGoes(store, outside, o.claim, o.pending) <==> ListingGoes(store', outside, o.claim, o.pending)
  {
    hide AttachmentGoes, SameAt, AttachmentKey;
    if outside.listing.Success? {
      var remote := outside.listing.value;
      forall k, j | 0 <= k < |o.pending| && 0 <= j < |remote|
        ensures remote[j].id == o.pending[k].1.resendId ==>
                  (AttachmentGoes(store, outside, o.claim, remote[j], k, o.pending[k].1)
                   <==> AttachmentGoes(store', outside, o.claim, remote[j], k, o.pending[k].1))
      {
        if remote[j].id == o.pending[k].1.resendId {
          assert SameAt(store, store', KeyOf(o, k));
          AttachmentGoesAlike(store, store', outside, o.claim, remote[j], k, o.pending[k].1);
        }
      }
    }
  }

  lemma ListingFaultyAlike(s: System, s': System, outside: Outside, o: Owner)
    requires forall k :: 0 <= k < |o.pending| ==> SameAt(s.store, s'.store, KeyOf(o, k))
    requires HoldsLease(s.tables, o.claim) <==> HoldsLease(s'.tables, o.claim)
    ensures ListingFaulty(s, outside, o.claim, o.pending) <==> ListingFaulty(s', outside, o.claim, o.pending)
  {
    hide ListedFaulty, IsListed, HoldsLease, SameAt, AttachmentKey;
    if outside.listing.Success? {
      var remote := outside.listing.value;
      forall k | 0 <= k < |o.pending|
        ensures IsListed(s.store, outside, o.claim, remote, k, o.pending[k].1)
                <==> IsListed(s'.store, outside, o.claim, remote, k, o.pending[k].1)
        ensures ListedFaulty(s.store, outside, o.claim, remote, k, o.pending[k].1)
                <==> ListedFaulty(s'.store, outside, o.claim, remote, k, o.pending[k].1)
      {
        assert SameAt(s.store, s'.store, KeyOf(o, k));
        ListedAlike(s.store, s'.store, outside, o.claim, remote, k, o.pending[k].1);
      }
      forall k | 0 <= k < |o.pending|
        ensures FaultyAt(s, outside, o.claim, remote, o.pending, k)
                <==> FaultyAt(s', outside, o.claim, remote, o.pending, k)
      {
        FaultyAtGoesOver(s, s', outside, o.claim, remote, o.pending, k);
        FaultyAtGoesOver(s', s, outside, o.claim, remote, o.pending, k);
      }
    }
  }

  lemma FaultyAtGoesOver(
    s: System, s': System, outside: Outside, claim: Claim, remote: seq<ProviderAttachment>,
    pending: seq<(int, Attachment)>, k: nat)
    requires k < |pending| && (HoldsLease(s.tables, claim) ==> HoldsLease(s'.tables, claim))
    requires forall j :: 0 <= j < |pending| && IsListed(s.store, outside, claim, remote, j, pending[j].1) ==>
               IsListed(s'.store, outside, claim, remote, j, pending[j].1)
    requires ListedFaulty(s.store, outside, claim, remote, k, pending[k].1) ==>
               ListedFaulty(s'.store, outside, claim, remote, k, pending[k].1)
    ensures FaultyAt(s, outside, claim, remote, pending, k) ==> FaultyAt(s', outside, claim, remote, pending, k)
  {
    hide ListedFaulty, IsListed, HoldsLease;
  }

  lemma ListedAlike(
    store: Objects, store': Objects, outside: Outside, claim: Claim, remote: seq<ProviderAttachment>, next: nat,
    a: Attachment)
    requires SameAt(store, store', AttachmentKey(claim.email.resendId, a.resendId))
    ensures IsListed(store, outside, claim, remote, next, a) <==> IsListed(store', outside, claim, remote, next, a)
    ensures ListedFaulty(store, outside, claim, remote, next, a)
            <==> ListedFaulty(store', outside, claim, remote, next, a)
  {
    hide AttachmentGoes, AttachmentFaulty, SameAt, AttachmentKey;
    forall j | 0 <= j < |remote|
      ensures AttachmentGoes(store, outside, claim, remote[j], next, a)
              <==> AttachmentGoes(store', outside, claim, remote[j], next, a)
      ensures AttachmentFaulty(store, outside, claim, remote[j], next, a)
              <==> AttachmentFaulty(store', outside, claim, remote[j], next, a)
    {
      AttachmentGoesAlike(store, store', outside, claim, remote[j], next, a);
    }
  }

  /** A body that goes through is not faulty. */
  lemma GoesOrFails(s: System, outside: Outside, claim: Claim)
    ensures BodyGoes(s.store, outside, claim) ==> !BodyFaulty(s.store, outside, claim)
  {
    hide PutGoes, PutFaulty, BodyKey;
    if outside.content.Success? && ChosenBody(outside.content.value).Some? {
      var body := ChosenBody(outside.content.value).value;
      GoesOrFaulty(s.store, outside, BodyKey(claim.email.resendId, body.html), BodyBlob(body));
    }
  }

  lemma CoversAlike(t: Tables, t': Tables, emailId: int, pending: seq<(int, Attachment)>)
    requires t'.attachments == t.attachments
    ensures Covers(t, emailId, pending) <==> Covers(t', emailId, pending)
  {
  }

  lemma NoneLeftIs(s: System, i: nat, o: Owner)
    requires AtPc(s, i, o, Storing(|o.pending|))
    ensures Did(s, i, NoneLeft) == At(s, i, Completing)
  {
  }

  lemma FinishIs(s: System, i: nat, o: Owner)
    requires AtPc(s, i, o, Completing)
    ensures var result := Complete(s.tables, o.claim.emailId, o.claim.token);
            Did(s, i, Finish)
            == if result.Success? then At(s, i, Stopped).(tables := result.value) else At(s, i, Failing)
  {
    hide Complete;
  }

  /** Where the completion leaves an email. */
  lemma CompletedIsFinished(t: Tables, emailId: int, token: string)
    requires Complete(t, emailId, token).Success?
    ensures Finished(Complete(t, emailId, token).value, emailId)
  {
    hide ValidToken, AllStored;
  }

  /** The program ends in one of two ways: exactly if the claim completes, the
      email is stored and released, which at the deadline goes unseen; otherwise
      the leases are as they were. */
  method ProcessClaim(
      repository: InboundEmailRepository, bucket: Bucket, outside: Outside, claim: Claim,
      ghost s: System, ghost i: nat, ghost o: Owner)
    returns (r: Result<(), Ended>, ghost s': System)
    requires Sees(s, i, repository, bucket) && AtPc(s, i, o, Start) && Inv(s)
    requires o.claim == claim && o.pending == PendingOf(claim.attachments)
    modifies repository, bucket
    ensures Sees(s', i, repository, bucket) && Reaches(s, s', i)
    ensures if Completes(s, outside, claim)
            then AtPc(s', i, o, Stopped) && Finished(s'.tables, claim.emailId)
            else AtPc(s', i, o, Failing) && s'.tables.leases == s.tables.leases
    ensures r.Success? <==> Completes(s, outside, claim) && !outside.deadline(Finishing)
    ensures Completes(s, outside, claim) && outside.deadline(Finishing) ==> r == Failure(TimedOut)
    ensures r == Failure(Because(Permanent)) <==> FailsForGood(s, outside, claim)
    ensures Completes(s, outside, claim) ==>
              && BodyOnRecord(s'.tables, s'.store, outside, claim)
              && AllDownloaded(s'.store, outside, claim, o.pending, |o.pending|)
  {
    hide BodyOnRecord, AllDownloaded, Reaches, PendingOf, Finished, Did, Step, Complete, Inv, HoldsLease, BodyGoes,
         ListingGoes, Covers, SameAt, StoredUpTo, AllStored, KeyOf, BodyFaulty, ListingFaulty;
    GoesOrFails(s, outside, claim);
    if outside.deadline(Beginning) {
      ReachesItself(s, i);
      GiveUpIs(s, i);
      DidIsOwn(s, s, i, GiveUp);
      return Failure(TimedOut), Did(s, i, GiveUp);
    }
    r, s' := StoreBody(repository, bucket, outside, claim, s, i, o);
    if r.Failure? { return; }
    ghost var s1 := s';
    ReachableKeeps(s, s1, i);
    SameLease(s.tables, s1.tables, claim);
    ListingGoesAlike(s.store, s1.store, outside, o);
    ListingFaultyAlike(s, s1, outside, o);
    r, s' := StoreAttachments(repository, bucket, outside, claim, s', i, o);
    ReachesComposes(s, s1, s', i);
    if r.Failure? { return; }
    ReachableKeeps(s1, s', i);
    SameLease(s.tables, s'.tables, claim);
    AllStoredIff(s1.tables, s'.tables, claim.emailId, o.pending);
    CoversAlike(s.tables, s1.tables, claim.emailId, o.pending);
    CompleteSucceeds(s', claim);
    ghost var s2 := s';
    ReachesItself(s2, i);
    NoneLeftIs(s', i, o);
    DidIsOwn(s, s', i, NoneLeft);
    DidIsOwn(s2, s', i, NoneLeft);
    s' := Did(s', i, NoneLeft);
    var completed := repository.Complete(claim.emailId, claim.token);
    FinishIs(s', i, o);
    DidIsOwn(s, s', i, Finish);
    if completed.Success? { CompletedIsFinished(s'.tables, claim.emailId, claim.token); }
    DidIsOwn(s2, s', i, Finish);
    s' := Did(s', i, Finish);
    ReachableKeeps(s2, s', i);
    BodyStaysOnRecord(s1, s2, outside, claim);
    BodyStaysOnRecord(s2, s', outside, claim);
    DownloadsStay(s2.store, s'.store, outside, claim, o.pending, |o.pending|);
    r := if outside.deadline(Finishing) then Failure(TimedOut)
         else if completed.Success? then Success(()) else Failure(Because(Transient));
  }

  /** A claim run to its end.  If the lease is held, no attachment was announced
      since, and the outside lets it through, the email is stored with no error,
      and that is reported unless the deadline comes with the completion: then
      the report is a failure.  In every other case a failure is reported, as one
      for good exactly if it is, and it is on record if the lease was held.  The lease is gone, the invariant kept,
      and nothing undone that was recorded before. */
  method RunClaim(
      repository: InboundEmailRepository, bucket: Bucket, outside: Outside, claim: Claim, ghost s: System, ghost i: nat)
    returns (r: Result<(), WorkflowFailure>, ghost s': System)
    requires Sees(s, i, repository, bucket) && Inv(s)
    requires s.owners[i] == Owner(claim, PendingOf(claim.attachments), Start)
    modifies repository, bucket
    ensures Sees(s', i, repository, bucket) && Reaches(s, s', i) && Inv(s') && Kept(s, s')
    ensures Completes(s, outside, claim) ==>
              && Finished(repository.Snapshot(), claim.emailId)
              && EmailAt(repository.Snapshot(), claim.emailId).error.None?
              && r == (if outside.deadline(Finishing) then Failure(Transient) else Success(()))
              && BodyOnRecord(repository.Snapshot(), bucket.objects, outside, claim)
              && AllDownloaded(bucket.objects, outside, claim, PendingOf(claim.attachments),
                               |PendingOf(claim.attachments)|)
    ensures !Completes(s, outside, claim) ==>
              && r == Failure(if FailsForGood(s, outside, claim) then Permanent else Transient)
              && (HoldsLease(s.tables, claim) ==>
                    var t := repository.Snapshot();
                    && HasEmail(t, claim.emailId) && EmailAt(t, claim.emailId).state == Failed
                    && EmailAt(t, claim.emailId).error == Some(PublicError(r.error)))
    ensures ValidToken(claim.token) ==> !Owns(repository.Snapshot(), claim.emailId, claim.token)
  {
    hide Reaches, PendingOf, AllStored, ValidToken, PublicError, Inv, Kept, Did, Completes, FailsForGood, BodyOnRecord,
         AllDownloaded;
    ghost var o := s.owners[i];
    var ended;
    ended, s' := ProcessClaim(repository, bucket, outside, claim, s, i, o);
    ReachableKeeps(s, s', i);
    if Completes(s, outside, claim) { StoredHasNoError(s', claim.emailId); }
    r := match ended
         case Success(_) => Success(())
         case Failure(Because(failure)) => Failure(failure)
         case Failure(TimedOut) => Failure(Transient);
    assert r.Failure? ==> (r.error == Permanent <==> ended == Failure(Because(Permanent)));
    if r.Failure? {
      var message := PublicError(r.error);
      PublicErrorIsValid(r.error);
      ghost var before := s';
      var _ := repository.Fail(claim.emailId, claim.token, message);
      if Completes(s, outside, claim) {
        FailMisses(before, claim.emailId, claim.token, message);
      } else {
        DidIsOwn(s, s', i, ReportFailure(message));
        s' := Did(s', i, ReportFailure(message));
        ReportIs(before, i, o, message);
        FailReleases(before, claim.emailId, claim.token, message);
        ReachableKeeps(s, s', i);
      }
    }
  }

  lemma StoredHasNoError(s: System, emailId: int)
    requires Inv(s) && Finished(s.tables, emailId)
    ensures EmailAt(s.tables, emailId).error.None?
  {
    assert StatesAgree(s.tables);
  }

  /** The report of a failure misses an email that is stored. */
  lemma FailMisses(s: System, emailId: int, token: string, message: string)
    requires Inv(s) && Finished(s.tables, emailId)
    ensures Fail(s.tables, emailId, token, message).Failure?
  {
    hide ValidToken, ValidPublicError;
  }

  lemma ReportIs(s: System, i: nat, o: Owner, message: string)
    requires AtPc(s, i, o, Failing)
    ensures var result := Fail(s.tables, o.claim.emailId, o.claim.token, message);
            Did(s, i, ReportFailure(message))
            == At(s, i, Stopped).(tables := if result.Success? then result.value else s.tables)
  {
    hide Fail;
  }

  lemma ReachableKeeps(s: System, s': System, i: nat)
    requires Inv(s) && Reaches(s, s', i)
    ensures Inv(s') && Kept(s, s')
  {
    var actions :| Run(s, actions) == s' && OwnActions(actions, i);
    RunKeeps(s, actions);
  }

  /** A holder's failure is always recorded: a leased email is pending. */
  lemma FailReleases(s: System, emailId: int, token: string, message: string)
    requires Inv(s) && ValidPublicError(message)
    ensures ValidToken(token) && Owns(s.tables, emailId, token) ==> Fail(s.tables, emailId, token, message).Success?
  {
    hide ValidToken, ValidPublicError;
  }
}
