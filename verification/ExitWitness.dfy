/**
 Two runs of an exit, which has no reservation: its order is sent once, and its acknowledgement cannot be
 recorded because the recovery expired its confirmation, or its review, while the order was out.
 */
module ExitWitness {
  import opened Options
  import opened TradeLifecycle
  import opened Tables
  import opened Ledger
  import opened Recovery
  import opened Protocol
  import opened MoneyOverRuns
  import opened AnswerRecords
  import opened ProtocolWitness

  /** When the confirmation and the review are just past their time. */
  const PAST := Call(FENCE, 1000, 10)

  /** The order is sent once, its answer may be delivered, and nothing was ever reserved. */
  ghost predicate OutUnreserved(s: World) {
    && CallsFor(s, 1) == 1 && Deliverable(s.db, CALL, 1, ACKNOWLEDGEMENT)
    && s.db.intents[1].reservation.None? && s.db.transitions == map[]
    && s.db.intents[1].confirmation == Some(CONFIRMATION)
  }

  lemma OutIsDeliverable(w: WorkerId, db: Db)
    requires db.intents == TAKEN.intents && db.transitions == map[] && db.orders == map[] && db.events == TAKEN.events
    requires db.leases == TAKEN.leases
    ensures OutUnreserved(ExitOut(w).(db := db))
  {
  }

  /** The tables in which the order is out, once the confirmation is past its time. */
  const UNCONFIRMED := ExpireConfirmations(TAKEN, PAST)

  lemma ConfirmationExpires(w: WorkerId)
    ensures Apply(ExitOut(w), Recover(ExpiringConfirmations(PAST))) == ExitOut(w).(db := UNCONFIRMED)
  {
  }

  lemma UnconfirmedIsRefused()
    ensures StatusIs(UNCONFIRMED, CONFIRMATION, ConfirmationExpired) && 1 in UNCONFIRMED.intents
    ensures RecordSubmission(UNCONFIRMED, CALL, 1, ACKNOWLEDGEMENT) == Abort(ConfirmationConsumptionFailed)
  {
  }

  /** A run in which the confirmation expires while the order is out. */
  lemma ConfirmationExpiredWhileOut(w: WorkerId) returns (steps: seq<Step>)
    ensures Initial(START) && OutUnreserved(Run(START, steps)) && ExpiredDuring(START, steps, CONFIRMATION)
    ensures RecordSubmission(Run(START, steps).db, CALL, 1, ACKNOWLEDGEMENT) == Abort(ConfirmationConsumptionFailed)
  {
    var sent := ExitIsSent(w);
    steps := sent + [Recover(ExpiringConfirmations(PAST))];
    RunThen(START, sent, Recover(ExpiringConfirmations(PAST)));
    ConfirmationExpires(w);
    UnconfirmedIsRefused();
    OutIsDeliverable(w, UNCONFIRMED);
    PendingConfirmation(START, steps, 1);
  }

  /** The same, once the review is past its time. */
  const UNREVIEWED := ExpireReviews(TAKEN, PAST)

  lemma ReviewExpires(w: WorkerId)
    ensures Apply(ExitOut(w), Recover(ExpiringReviews(PAST))) == ExitOut(w).(db := UNREVIEWED)
  {
  }

  lemma UnreviewedIsRefused()
    ensures 1 in UNREVIEWED.intents
    ensures RecordSubmission(UNREVIEWED, CALL, 1, ACKNOWLEDGEMENT) == Abort(ReviewConsumptionFailed)
  {
  }

  /** A run in which the review expires while the order is out. */
  lemma ReviewExpiredWhileOut(w: WorkerId) returns (steps: seq<Step>)
    ensures Initial(START) && OutUnreserved(Run(START, steps))
    ensures RecordSubmission(Run(START, steps).db, CALL, 1, ACKNOWLEDGEMENT) == Abort(ReviewConsumptionFailed)
  {
    var sent := ExitIsSent(w);
    steps := sent + [Recover(ExpiringReviews(PAST))];
    RunThen(START, sent, Recover(ExpiringReviews(PAST)));
    ReviewExpires(w);
    UnreviewedIsRefused();
    OutIsDeliverable(w, UNREVIEWED);
  }
}
