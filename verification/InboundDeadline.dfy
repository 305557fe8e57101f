/** One claim, run twice: in time, and with the deadline at its completion. */
module InboundDeadline {
  import opened Wrappers
  import opened ObjectStore
  import opened InboundTables
  import opened InboundProtocol
  import opened InboundInvariant
  import opened InboundSafety
  import opened InboundTheorems
  import opened InboundWhole
  import opened InboundRepository
  import opened InboundOutcome
  import opened InboundWorkflow

  /** An email with neither body nor attachment; the deadline may come as late as
      the completion. */
  function EmptyEmail(late: bool): Outside {
    Outside(Success(Content(None, None)), Success([]), _ => Failure(Transient), _ => (Refused, false),
            await => late && await == Finishing)
  }

  function EmptyClaim(token: string): Claim { Claim(1, NewEmail(Delivery([])), [], token) }

  lemma EmptyGoes(late: bool, token: string)
    ensures OutsideGoes(map[], EmptyEmail(late), EmptyClaim(token))
  {
    hide Delivery;
  }

  lemma FirstClaim(token: string)
    ensures Step(INITIAL, Webhook(Delivery([]), token, 0)).tables
            == match ClaimWebhook(NO_TABLES, Delivery([]), token, 0)
               case Failure(_) => NO_TABLES
               case Success((t, _)) => t
  {
    hide ClaimWebhook, Delivery;
  }

  /** A system in which just one email is claimed. */
  ghost predicate IsFirstClaim(s: System, token: string) {
    && Inv(s) && s.owners == [Owner(EmptyClaim(token), [], Start)] && s.store == map[]
    && PendingOf(EmptyClaim(token).attachments) == []
  }

  lemma EmptyClaimCompletes(late: bool)
    ensures var s := Step(INITIAL, Webhook(Delivery([]), FIRST_TOKEN, 0));
            IsFirstClaim(s, FIRST_TOKEN) && Completes(s, EmptyEmail(late), EmptyClaim(FIRST_TOKEN))
  {
    InitialIsOk();
    var a := Webhook(Delivery([]), FIRST_TOKEN, 0);
    StepKeeps(INITIAL, a);
    FirstDelivery(NewEmail(Delivery([])), Owner(EmptyClaim(FIRST_TOKEN), [], Start));
    NewClaimCompletesIff(INITIAL, a, EmptyEmail(late));
    EmptyGoes(late, FIRST_TOKEN);
    hide Step, Inv, Completes, OutsideGoes, Delivery;
  }

  /** The email is stored either way; with the deadline at the completion it is
      reported as a failure. */
  method ClaimEmptyEmail(late: bool) returns (r: Result<(), WorkflowFailure>, repository: InboundEmailRepository)
    ensures Finished(repository.Snapshot(), 1) && EmailAt(repository.Snapshot(), 1).error.None?
    ensures r == if late then Failure(Transient) else Success(())
  {
    hide Step, Inv, Completes, Delivery, Finished, PendingOf, ClaimWebhook;
    repository := new InboundEmailRepository();
    var bucket := new Bucket();
    var token := FIRST_TOKEN;
    var _ := repository.ClaimWebhook(Delivery([]), token, 0);
    ghost var s := Step(INITIAL, Webhook(Delivery([]), token, 0));
    FirstClaim(token);
    EmptyClaimCompletes(late);
    ghost var s';
    r, s' := RunClaim(repository, bucket, EmptyEmail(late), EmptyClaim(token), s, 0);
  }
}
