/** What holds in every state, and across every step, of the inbound-email
    system. */
module InboundSafety {
  import opened Wrappers
  import opened Text
  import opened ObjectStore
  import opened InboundTables
  import opened InboundProtocol
  import opened InboundInvariant
  import opened InboundStatements

  // ---- owners across steps ----

  /** An owner is undisturbed when it neither gains a lease nor sees its body
      recorded while it still means to record one. */
  ghost predicate Undisturbed(t: Tables, t': Tables, o: Owner) {
    HasEmail(t, o.claim.emailId) && HasEmail(t', o.claim.emailId)
    && (Owns(t', o.claim.emailId, o.claim.token) ==>
          && Owns(t, o.claim.emailId, o.claim.token)
          && (InBodyStage(o) ==>
                EmailAt(t', o.claim.emailId).bodyType == EmailAt(t, o.claim.emailId).bodyType))
  }

  lemma OwnerStays(s: System, s': System, o: Owner)
    requires OwnerOk(s, o) && Kept(s, s') && Undisturbed(s.tables, s'.tables, o)
    ensures OwnerOk(s', o)
  {
    ClaimFitsGrows(s.tables, s'.tables, o);
    VerifiedGrows(o, s.store, s'.store);
    hide ClaimFits, Verified, RowsKept, BodiesKept, StoreKept;
  }

  lemma KeptIsReflexive(s: System)
    ensures Kept(s, s)
  {
  }

  /** Only the program counter of one owner, and the wire, changed. */
  lemma OnlyPcMoved(s: System, i: nat, pc: Pc, wire: set<(string, Blob)>)
    requires Inv(s) && i < |s.owners|
    requires Verified(s.owners[i].(pc := pc), s.store)
    requires InBodyStage(s.owners[i].(pc := pc)) ==> InBodyStage(s.owners[i])
    ensures Inv(At(s, i, pc).(wire := wire)) && Kept(s, At(s, i, pc).(wire := wire))
  {
    hide TablesOk, Backed, Verified, InBodyStage, RowsKept, BodiesKept, StoreKept;
    var s' := At(s, i, pc).(wire := wire);
    KeptIsReflexive(s);
    assert OwnerOk(s, s.owners[i]);
    forall j | 0 <= j < |s'.owners| ensures OwnerOk(s', s'.owners[j]) {
      assert OwnerOk(s, s.owners[j]);
    }
  }

  /** One owner's statement took effect. */
  lemma StatementMoved(s: System, i: nat, pc: Pc, t': Tables)
    requires Inv(s) && i < |s.owners|
    requires TablesKept(s.tables, t') && Backed(t', s.store)
    requires t'.leases.Keys <= s.tables.leases.Keys
    requires forall id :: id in t'.leases ==> t'.leases[id] == s.tables.leases[id]
    requires Owns(s.tables, s.owners[i].claim.emailId, s.owners[i].claim.token)
    requires forall id :: HasEmail(s.tables, id) && id != s.owners[i].claim.emailId ==>
               EmailAt(t', id) == EmailAt(s.tables, id)
    requires !InBodyStage(s.owners[i].(pc := pc)) && Verified(s.owners[i].(pc := pc), s.store)
    ensures Inv(At(s, i, pc).(tables := t')) && Kept(s, At(s, i, pc).(tables := t'))
  {
    var s' := At(s, i, pc).(tables := t');
    assert Kept(s, s') by { KeptIsReflexive(s); }
    assert OwnerOk(s, s.owners[i]);
    assert ClaimFits(t', s.owners[i].(pc := pc)) by { ClaimFitsGrows(s.tables, t', s.owners[i]); }
    hide TablesOk, Backed, Verified, InBodyStage, RowsKept, BodiesKept, StoreKept;
    forall j | 0 <= j < |s'.owners| ensures OwnerOk(s', s'.owners[j]) {
      if j != i {
        assert OwnerOk(s, s.owners[j]);
        assert s.owners[j].claim.token != s.owners[i].claim.token;
        OtherUndisturbed(s, t', i, j);
        OwnerStays(s, s', s.owners[j]);
      }
    }
  }

  lemma OtherUndisturbed(s: System, t': Tables, i: nat, j: nat)
    requires i < |s.owners| && j < |s.owners| && s.owners[i].claim.token != s.owners[j].claim.token
    requires OwnerOk(s, s.owners[j]) && |s.tables.emails| <= |t'.emails|
    requires t'.leases.Keys <= s.tables.leases.Keys
    requires forall id :: id in t'.leases ==> t'.leases[id] == s.tables.leases[id]
    requires Owns(s.tables, s.owners[i].claim.emailId, s.owners[i].claim.token)
    requires forall id :: HasEmail(s.tables, id) && id != s.owners[i].claim.emailId ==>
               EmailAt(t', id) == EmailAt(s.tables, id)
    ensures Undisturbed(s.tables, t', s.owners[j])
  {
  }

  // ---- each move of an owner ----

  function RecordedKey(o: Owner): Option<string>
    requires o.pc.RecordingBody?
  {
    match o.pc.found case None => None case Some(body) => Some(BodyKey(o.claim.email.resendId, body.html))
  }

  function RecordedType(o: Owner): string
    requires o.pc.RecordingBody?
  {
    match o.pc.found case None => "text/plain" case Some(body) => BodyType(body.html)
  }

  lemma RecordMoveIs(s: System, i: nat)
    requires i < |s.owners| && s.owners[i].pc.RecordingBody?
    ensures var o := s.owners[i];
            var result := RecordBody(s.tables, o.claim.emailId, o.claim.token, RecordedKey(o), RecordedType(o));
            MoveOwner(s, i, Record)
            == if result.Success? then At(s, i, Storing(0)).(tables := result.value) else At(s, i, Failing)
  {
    hide RecordBody, BodyKey;
  }

  lemma RecordMoveKeeps(s: System, i: nat)
    requires Inv(s) && i < |s.owners| && s.owners[i].pc.RecordingBody?
    ensures Inv(MoveOwner(s, i, Record)) && Kept(s, MoveOwner(s, i, Record))
  {
    var o := s.owners[i];
    assert OwnerOk(s, o);
    var result := RecordBody(s.tables, o.claim.emailId, o.claim.token, RecordedKey(o), RecordedType(o));
    RecordMoveIs(s, i);
    if result.Success? {
      BodyIsRecorded(s, o, RecordedKey(o), RecordedType(o));
      hide Inv, TablesOk, Backed, TablesKept, BodyBacked, OwnerOk, MoveOwner, Kept, ValidToken, ValidContentType,
           RecordedKey, RecordedType;
      StatementMoved(s, i, Storing(0), result.value);
    } else {
      hide Inv, MoveOwner, Kept, RecordBody;
      OnlyPcMoved(s, i, Failing, s.wire);
    }
  }

  lemma BodyIsRecorded(s: System, o: Owner, key: Option<string>, kind: string)
    requires TablesOk(s.tables) && Backed(s.tables, s.store) && OwnerOk(s, o) && o.pc.RecordingBody?
    requires key == RecordedKey(o) && kind == RecordedType(o)
    requires RecordBody(s.tables, o.claim.emailId, o.claim.token, key, kind).Success?
    ensures var t' := RecordBody(s.tables, o.claim.emailId, o.claim.token, key, kind).value;
            TablesKept(s.tables, t') && Backed(t', s.store)
  {
    RecordedBodyIsBacked(s, o, key, kind);
    hide TablesOk, Backed, TablesKept, BodyBacked, ClaimFits, Verified, ValidToken, ValidContentType;
    RecordBodyKeeps(s.tables, o.claim.emailId, o.claim.token, key, kind);
    RecordedIsBacked(s.tables, o.claim.emailId, o.claim.token, key, kind, s.store);
  }

  lemma RecordedBodyIsBacked(s: System, o: Owner, key: Option<string>, kind: string)
    requires OwnerOk(s, o) && o.pc.RecordingBody?
    requires o.pc.found.None? ==> key.None?
    requires o.pc.found.Some? ==> key == Some(BodyKey(o.claim.email.resendId, o.pc.found.value.html))
                                  && kind == BodyType(o.pc.found.value.html)
    ensures BodyBacked(EmailAt(s.tables, o.claim.emailId).(bodyKey := key, bodyType := Some(kind)), s.store)
  {
    hide BodyKey, Trim, BeforeSemicolon;
    if o.pc.found.Some? {
      var html := o.pc.found.value.html;
      assert html in {true, false};
    }
  }

  lemma MarkMoveKeeps(s: System, i: nat)
    requires Inv(s) && i < |s.owners| && s.owners[i].pc.Marking?
    ensures Inv(MoveOwner(s, i, Mark)) && Kept(s, MoveOwner(s, i, Mark))
  {
    var o := s.owners[i];
    var next, blob := o.pc.next, o.pc.blob;
    assert OwnerOk(s, o);
    var id := o.pending[next].0;
    if CanMark(s.tables, o.claim.emailId, id, o.claim.token) {
      var key := KeyOf(o, next);
      assert |s.store[key].bytes| == |blob.bytes|;
      MarkedKeeps(s.tables, id, key, |blob.bytes|);
      MarkedIsBacked(s.tables, id, key, s.store);
      hide Inv, TablesOk, Backed, TablesKept, OwnerOk, Kept;
      StatementMoved(s, i, Storing(next + 1), Marked(s.tables, id, key, |blob.bytes|));
    } else {
      hide Inv, Kept;
      OnlyPcMoved(s, i, Confirming(next, blob), s.wire);
    }
  }

  lemma MarkErrorMoveKeeps(s: System, i: nat)
    requires Inv(s) && i < |s.owners| && s.owners[i].pc.AttachmentFailed?
    ensures Inv(MoveOwner(s, i, MarkError)) && Kept(s, MoveOwner(s, i, MarkError))
  {
    var o := s.owners[i];
    var next := o.pc.next;
    if next < |o.pending| {
      var result := MarkAttachmentError(s.tables, o.claim.emailId, o.pending[next].0, o.claim.token);
      if result.Success? {
        MarkAttachmentErrorKeeps(s.tables, o.claim.emailId, o.pending[next].0, o.claim.token);
        BackedStays(s.tables, result.value, s.store);
        hide Inv, TablesOk, Backed, TablesKept, Kept, NothingRecorded, ValidToken;
        StatementMoved(s, i, Failing, result.value);
      } else {
        hide Inv, Kept, MarkAttachmentError;
        OnlyPcMoved(s, i, Failing, s.wire);
      }
    } else {
      KeptIsReflexive(s);
    }
  }

  lemma FinishMoveKeeps(s: System, i: nat)
    requires Inv(s) && i < |s.owners| && s.owners[i].pc.Completing?
    ensures Inv(MoveOwner(s, i, Finish)) && Kept(s, MoveOwner(s, i, Finish))
  {
    var o := s.owners[i];
    var result := Complete(s.tables, o.claim.emailId, o.claim.token);
    if result.Success? {
      CompleteKeeps(s.tables, o.claim.emailId, o.claim.token);
      BackedStays(s.tables, result.value, s.store);
      hide Inv, TablesOk, Backed, TablesKept, Kept, NothingRecorded, ValidToken, AllStored;
      StatementMoved(s, i, Stopped, result.value);
    } else {
      hide Inv, Kept, Complete;
      OnlyPcMoved(s, i, Failing, s.wire);
    }
  }

  lemma ReportMoveKeeps(s: System, i: nat, message: string)
    requires Inv(s) && i < |s.owners| && s.owners[i].pc.Failing?
    ensures Inv(MoveOwner(s, i, ReportFailure(message))) && Kept(s, MoveOwner(s, i, ReportFailure(message)))
  {
    hide ValidToken, ValidPublicError;
    var o := s.owners[i];
    var result := Fail(s.tables, o.claim.emailId, o.claim.token, message);
    if result.Success? {
      FailKeeps(s.tables, o.claim.emailId, o.claim.token, message);
      BackedStays(s.tables, result.value, s.store);
      hide Inv, TablesOk, Backed, TablesKept, Kept, NothingRecorded;
      StatementMoved(s, i, Stopped, result.value);
    } else {
      hide Inv, Kept, Fail;
      OnlyPcMoved(s, i, Stopped, s.wire);
    }
  }

  predicate TouchesTables(pc: Pc, move: Move) {
    || (pc.RecordingBody? && move.Record?) || (pc.Marking? && move.Mark?)
    || (pc.AttachmentFailed? && move.MarkError?) || (pc.Completing? && move.Finish?)
    || (pc.Failing? && move.ReportFailure?)
  }

  /** Every other move changes a program counter and the wire at most. */
  lemma QuietMove(s: System, i: nat, move: Move)
    requires i < |s.owners| && !TouchesTables(s.owners[i].pc, move)
    ensures exists pc, wire :: MoveOwner(s, i, move) == At(s, i, pc).(wire := wire)
              && (Verified(s.owners[i], s.store) ==> Verified(s.owners[i].(pc := pc), s.store))
              && (InBodyStage(s.owners[i].(pc := pc)) ==> InBodyStage(s.owners[i]))
  {
    hide BodyKey, AttachmentKey, Matches, Puttable, ConfirmStored;
    var s' := MoveOwner(s, i, move);
    assert s' == At(s, i, s'.owners[i].pc).(wire := s'.wire);
  }

  lemma MoveKeeps(s: System, i: nat, move: Move)
    requires Inv(s) && i < |s.owners|
    ensures Inv(MoveOwner(s, i, move)) && Kept(s, MoveOwner(s, i, move))
  {
    var pc := s.owners[i].pc;
    if !TouchesTables(pc, move) {
      QuietMove(s, i, move);
      assert OwnerOk(s, s.owners[i]);
      hide MoveOwner, TouchesTables, InBodyStage;
      var pc', wire :| MoveOwner(s, i, move) == At(s, i, pc').(wire := wire)
        && (Verified(s.owners[i], s.store) ==> Verified(s.owners[i].(pc := pc'), s.store))
        && (InBodyStage(s.owners[i].(pc := pc')) ==> InBodyStage(s.owners[i]));
      hide Inv, Verified, Kept;
      OnlyPcMoved(s, i, pc', wire);
    } else {
      hide Inv, Kept, MoveOwner;
      match move
      case Record => RecordMoveKeeps(s, i);
      case Mark => MarkMoveKeeps(s, i);
      case MarkError => MarkErrorMoveKeeps(s, i);
      case Finish => FinishMoveKeeps(s, i);
      case ReportFailure(message) => ReportMoveKeeps(s, i, message);
    }
  }

  // ---- claims and late PUT requests ----

  lemma FreshTokenIsNotLeased(s: System, token: string)
    requires TokensDrawn(s) && token !in s.used
    ensures !TokenInUse(s.tables.leases, token)
  {
  }

  lemma {:induction false} ClaimedIdsDiffer(attachments: seq<Attachment>, emailId: int)
    ensures IdsDiffer(AttachmentsOf(attachments, emailId))
  {
    if attachments != [] { ClaimedIdsDiffer(attachments[..|attachments| - 1], emailId); }
  }

  lemma {:induction false} PendingIdsDiffer(rows: seq<(int, Attachment)>)
    requires IdsDiffer(rows)
    ensures IdsDiffer(PendingOf(rows))
  {
    if rows != [] { PendingIdsDiffer(rows[..|rows| - 1]); }
  }

  lemma NewOwnerFits(t: Tables, claim: Claim)
    requires HasEmail(t, claim.emailId) && claim.email == EmailAt(t, claim.emailId)
    requires claim.attachments == AttachmentsOf(t.attachments, claim.emailId)
    ensures ClaimFits(t, Owner(claim, PendingOf(claim.attachments), Start))
  {
    var pending := PendingOf(claim.attachments);
    ClaimedIdsDiffer(t.attachments, claim.emailId);
    PendingIdsDiffer(claim.attachments);
    forall i | 0 <= i < |pending|
      ensures HasAttachment(t, pending[i].0) && pending[i].1.emailId == claim.emailId
      ensures SameProvider(AttachmentAt(t, pending[i].0), pending[i].1)
    {
      var k :| 0 <= k < |claim.attachments| && claim.attachments[k] == pending[i];
    }
  }

  lemma ClaimUndisturbs(s: System, t': Tables, outcome: ClaimOutcome, token: string, now: int, o: Owner)
    requires OwnerOk(s, o) && token !in s.used && ClaimEffect(s.tables, t', outcome, token, now)
    ensures Undisturbed(s.tables, t', o)
  {
    hide TablesOk, IsStale, AttachmentsOf;
  }

  lemma ClaimDrawsToken(s: System, t': Tables, outcome: ClaimOutcome, token: string, now: int)
    requires TokensDrawn(s) && token !in s.used && ClaimEffect(s.tables, t', outcome, token, now)
    requires forall i :: 0 <= i < |s.owners| ==> s.owners[i].claim.token in s.used
    ensures TokensDrawn(Claimed(s, token, Success((t', outcome))))
  {
    hide TablesOk, IsStale, AttachmentsOf, TablesKept, NothingRecorded;
  }

  lemma ClaimedKeeps(s: System, t': Tables, outcome: ClaimOutcome, token: string, now: int)
    requires Inv(s) && token !in s.used && ClaimEffect(s.tables, t', outcome, token, now)
    ensures Inv(Claimed(s, token, Success((t', outcome))))
    ensures Kept(s, Claimed(s, token, Success((t', outcome))))
  {
    var s' := Claimed(s, token, Success((t', outcome)));
    BackedStays(s.tables, t', s.store);
    assert Kept(s, s') by { KeptIsReflexive(s); }
    forall i | 0 <= i < |s.owners| ensures s.owners[i].claim.token in s.used {
      assert OwnerOk(s, s.owners[i]);
    }
    ClaimDrawsToken(s, t', outcome, token, now);
    if outcome.Acquired? { NewOwnerFits(t', outcome.claim); }
    hide TablesOk, Backed, ClaimFits, NothingRecorded, IsStale, RowsKept, BodiesKept, StoreKept, TokensDrawn;
    forall i | 0 <= i < |s'.owners| ensures OwnerOk(s', s'.owners[i]) {
      if i < |s.owners| {
        assert OwnerOk(s, s.owners[i]);
        ClaimUndisturbs(s, t', outcome, token, now, s.owners[i]);
        OwnerStays(s, s', s.owners[i]);
      }
    }
  }

  lemma DrawingKeeps(s: System, token: string)
    requires Inv(s)
    ensures Inv(s.(used := s.used + {token})) && Kept(s, s.(used := s.used + {token}))
  {
    hide TablesOk, Backed, ClaimFits, Verified, InBodyStage, Owns;
    var s' := s.(used := s.used + {token});
    forall i | 0 <= i < |s'.owners| ensures OwnerOk(s', s'.owners[i]) {
      assert OwnerOk(s, s.owners[i]);
    }
  }

  lemma ArriveKeeps(s: System, key: string, blob: Blob)
    requires Inv(s)
    ensures Inv(s.(store := Bind(s.store, key, blob))) && Kept(s, s.(store := Bind(s.store, key, blob)))
  {
    var s' := s.(store := Bind(s.store, key, blob));
    assert Kept(s, s') by { KeptIsReflexive(s); }
    BackedGrows(s.tables, s.store, s'.store);
    hide TablesOk, Backed, ClaimFits, Verified, InBodyStage, Owns, Bind, StoreKept;
    forall i | 0 <= i < |s'.owners| ensures OwnerOk(s', s'.owners[i]) {
      assert OwnerOk(s, s.owners[i]);
      VerifiedGrows(s.owners[i], s.store, s'.store);
    }
  }

  // ---- steps and runs ----

  lemma StepKeeps(s: System, a: Action)
    requires Inv(s)
    ensures Inv(Step(s, a)) && Kept(s, Step(s, a))
  {
    KeptIsReflexive(s);
    match a
    case Webhook(draft, token, now) =>
      if token !in s.used {
        FreshTokenIsNotLeased(s, token);
        var result := ClaimWebhook(s.tables, draft, token, now);
        if result.Success? {
          WebhookKeeps(s.tables, draft, token, now);
          ClaimedKeeps(s, result.value.0, result.value.1, token, now);
        } else { DrawingKeeps(s, token); }
      }
    case Retry(emailId, token, now) =>
      if token !in s.used {
        FreshTokenIsNotLeased(s, token);
        var result := ClaimRetry(s.tables, emailId, token, now);
        if result.Success? {
          RetryKeeps(s.tables, emailId, token, now);
          ClaimedKeeps(s, result.value.0, result.value.1, token, now);
        } else { DrawingKeeps(s, token); }
      }
    case Arrive(key, blob) => ArriveKeeps(s, key, blob);
    case Act(owner, move) => if owner < |s.owners| { MoveKeeps(s, owner, move); }
  }

  lemma KeptComposes(s: System, s1: System, s2: System)
    requires Kept(s, s1) && Kept(s1, s2)
    ensures Kept(s, s2)
  {
    forall i | 0 <= i < |s.tables.emails| ensures EmailKept(s.tables.emails[i], s2.tables.emails[i]) {
      assert EmailKept(s.tables.emails[i], s1.tables.emails[i]);
    }
    forall i | 0 <= i < |s.tables.attachments|
      ensures AttachmentKept(s.tables.attachments[i], s2.tables.attachments[i])
    {
      assert AttachmentKept(s.tables.attachments[i], s1.tables.attachments[i]);
    }
  }

  lemma InitialIsOk()
    ensures Inv(INITIAL)
  {
  }

  /** Whatever the deliveries, retries, owners and the network do: the invariant
      holds, and bindings, stored rows and written body columns stay. */
  lemma {:induction false} RunKeeps(s: System, actions: seq<Action>)
    requires Inv(s)
    ensures Inv(Run(s, actions)) && Kept(s, Run(s, actions))
  {
    hide Inv, Kept, Step;
    if actions == [] {
      KeptIsReflexive(s);
    } else {
      var before := Run(s, actions[..|actions| - 1]);
      RunKeeps(s, actions[..|actions| - 1]);
      StepKeeps(before, actions[|actions| - 1]);
      KeptComposes(s, before, Run(s, actions));
    }
  }
}
