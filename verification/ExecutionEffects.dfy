/**
 What the transactions after a claim ask and write, row by row: the attempt, the answer, the doubt, the
 rejection, the receipt, and the release of a claim.
 */
module ExecutionEffects {
  import opened Options
  import opened TradeLifecycle
  import opened StatusTable
  import opened Tables
  import opened Ledger
  import opened Protocol
  import opened Authorisation

  /** The event a transaction files about an intent's order. */
  function Filed(i: IntentId, intent: Intent, brokerOrder: Option<BrokerOrderId>, status: EventStatus): BrokerEvent {
    BrokerEvent(intent.account, i, intent.terms.clientOrder, brokerOrder, status)
  }

  predicate Writable(db: Db, intent: Intent) {
    intent.candidate.Some? ==> intent.candidate.value in db.candidates && db.candidates[intent.candidate.value].selected
  }

  /** The candidate's stage is the only thing written of it. */
  predicate StageWritten(before: Db, after: Db, intent: Intent, stage: CandidateStage) {
    match intent.candidate
    case None => after.candidates == before.candidates
    case Some(c) =>
      c in before.candidates && after.candidates == before.candidates[c := before.candidates[c].(stage := stage)]
  }

  /** Nothing but the intent's row and the candidate's stage. */
  predicate OnlyIntentAndCandidate(before: Db, after: Db, i: IntentId) {
    && after == before.(intents := after.intents, candidates := after.candidates)
    && i in before.intents && i in after.intents && after.intents == before.intents[i := after.intents[i]]
  }

  // ----------------------------------------------------------------------------------- the promotion

  /** A promotion writes the intent, its confirmation and the candidate's stage. */
  lemma PromotionIs(db: Db, call: Call, command: Command, i: IntentId)
    requires Promote(db, call, command, i).Commit?
    ensures var intent, after := db.intents[i], Promote(db, call, command, i).db;
            var c := ConfirmationId(intent.review, command, call.fence);
            && after == db.(intents := after.intents, confirmations := after.confirmations,
                            reservations := after.reservations, allocations := after.allocations,
                            candidates := after.candidates)
            && i in after.intents && after.intents == db.intents[i := after.intents[i]]
            && after.intents[i] == intent.(status := Ready, confirmation := Some(c),
                                           reservation := after.intents[i].reservation)
            && c in after.confirmations && after.confirmations == db.confirmations[c := after.confirmations[c]]
            && StageWritten(db, after, intent, CandidateConfirmed)
  {
  }

  /** An entry reserves its risk amount for its symbol under its strategy's allocation; an exit reserves nothing. */
  lemma PromotionReservesRisk(db: Db, call: Call, command: Command, i: IntentId)
    requires Promote(db, call, command, i).Commit?
    ensures var intent, after := db.intents[i], Promote(db, call, command, i).db;
            var c, k := ConfirmationId(intent.review, command, call.fence),
                        AllocationKey(intent.account, intent.terms.strategy);
            var r := ReservationId(intent.account, i, c);
            match intent.reviewType
            case Exit => after.reservations == db.reservations && after.allocations == db.allocations
            case Entry =>
              && intent.maxRisk.Some? && k in db.allocations && c in after.confirmations
              && after.reservations == db.reservations[r := Reservation(k, intent.terms.symbol, intent.maxRisk.value,
                                                                        Active, after.confirmations[c].expiresAt)]
              && after.allocations == db.allocations[k := db.allocations[k].(reserved := db.allocations[k].reserved
                                                                             + intent.maxRisk.value)]
  {
  }

  // ------------------------------------------------------------------------------------- the release

  /** A claim is released exactly while it is pending, under the lease, with its candidate still selected. */
  lemma ReleaseIs(db: Db, call: Call, i: IntentId)
    ensures ReleaseClaim(db, call, i).Commit?
       <==> && i in db.intents && db.intents[i].status == Pending && OwnsLease(db.leases, call)
            && Writable(db, db.intents[i])
    ensures ReleaseClaim(db, call, i).Commit? ==>
              var after := ReleaseClaim(db, call, i).db;
              && OnlyIntentAndCandidate(db, after, i) && after.intents[i] == db.intents[i].(status := Ready)
              && StageWritten(db, after, db.intents[i], ExecutionDeferred)
  {
    FenceIsLease(db.leases, call);
  }

  // ------------------------------------------------------------------------------------- the attempt

  lemma AttemptIs(db: Db, call: Call, i: IntentId)
    requires i in db.intents
    ensures var intent := db.intents[i];
            var key := AttemptKey(intent.account, i, intent.terms.clientOrder);
            var tx := RecordAttempt(db, call, i);
            && (tx.Commit? <==> OwnsLease(db.leases, call) && intent.status == Pending && key !in db.events)
            && (tx.Commit? ==>
                  && tx.db == db.(intents := tx.db.intents, events := tx.db.events)
                  && tx.db.events == db.events[key := Filed(i, intent, None, SubmissionAttempted)]
                  && tx.db.intents == db.intents[i := intent.(lifecycle := if intent.reviewType == Exit
                                                              then ExitSubmissionAttemptPersisted
                                                              else SubmissionAttemptPersisted)])
  {
    FenceIsLease(db.leases, call);
  }

  // -------------------------------------------------------------------------------------- the answer

  /** The order ended without a fill, and how. */
  predicate EndedUnfilled(status: BrokerStatus) {
    status == StatusCanceled || status == StatusRejected || status == StatusExpired
  }

  /** The reservation may leave the ledger, or be committed to the order that is live. */
  predicate ReservationReady(db: Db, intent: Intent, status: BrokerStatus) {
    match intent.reservation
    case None => true
    case Some(r) =>
      && r in db.reservations
      && if EndedUnfilled(status)
         then (db.reservations[r].status == Active || db.reservations[r].status == Committed)
              && db.reservations[r].key in db.allocations && r !in db.transitions
         else db.reservations[r].status == Active
  }

  predicate ReviewAndConfirmationValid(db: Db, intent: Intent, orExpired: bool) {
    && intent.review in db.reviews
    && (db.reviews[intent.review].status == ReviewValid
        || (orExpired && db.reviews[intent.review].status == ReviewExpired))
    && match intent.confirmation
       case None => false
       case Some(c) => c in db.confirmations
                       && (db.confirmations[c].status == ConfirmationValid
                           || (orExpired && db.confirmations[c].status == ConfirmationExpired))
  }

  /** The order, its event and both keys are new to the tables. */
  predicate FirstRecord(db: Db, i: IntentId, ack: Acknowledgement)
    requires i in db.intents && ack.brokerOrder.Some? && ack.status.Some?
  {
    var intent := db.intents[i];
    && OrderKey(intent.account, intent.terms.clientOrder) !in db.orders
    && (forall k :: k in db.orders ==> db.orders[k].brokerOrder != ack.brokerOrder.value)
    && AcknowledgedKey(intent.account, ack.brokerOrder.value, ack.status.value, ack.occurredAt) !in db.events
  }

  /** An answer is recorded exactly if it is complete and the intent's own, under the lease, once, on live evidence. */
  lemma SubmissionIff(db: Db, call: Call, i: IntentId, ack: Acknowledgement)
    requires i in db.intents
    ensures var intent := db.intents[i];
            RecordSubmission(db, call, i, ack).Commit?
            <==> && ack.brokerOrder.Some? && ack.status.Some? && ack.clientOrder == intent.terms.clientOrder
                 && OwnsLease(db.leases, call) && FirstRecord(db, i, ack) && intent.status == Pending
                 && ReservationReady(db, intent, ack.status.value)
                 && ReviewAndConfirmationValid(db, intent, false) && Writable(db, intent)
  {
    FenceIsLease(db.leases, call);
    if ack.status.Some? {
      AnsweredOnce(db.intents[i].reviewType, ack.status.value,
                   StateForBrokerStatus(db.intents[i].reviewType, ack.status.value));
    }
  }

  /** The order as it was sent and answered. */
  lemma OrderRecorded(db: Db, i: IntentId, ack: Acknowledgement)
    requires Recordable(db, i, ack)
    ensures var intent, after := db.intents[i], Recorded(db, i, ack);
            && after.orders == db.orders[OrderKey(intent.account, intent.terms.clientOrder) :=
                                         Order(intent.account, i, ack.brokerOrder.value, intent.terms.symbol,
                                               intent.terms.option, ack.status.value, ack.quantity, ack.notional,
                                               ack.limitPrice)]
            && after.events == db.events[AcknowledgedKey(intent.account, ack.brokerOrder.value, ack.status.value,
                                                         ack.occurredAt) :=
                                         Filed(i, intent, ack.brokerOrder,
                                               if ack.status.value == StatusRejected then SubmissionRejected
                                               else SubmissionAcknowledged)]
  {
    NotedRows(db, i, ack);
    ReserveRows(Acknowledged(db, i, ack), i, StateForBrokerStatus(db.intents[i].reviewType, ack.status.value));
  }

  lemma NotedRows(db: Db, i: IntentId, ack: Acknowledgement)
    requires Recordable(db, i, ack)
    ensures var noted := Acknowledged(db, i, ack);
            && noted == db.(orders := noted.orders, events := noted.events, intents := noted.intents)
            && i in noted.intents && noted.intents == db.intents[i := noted.intents[i]]
  {
  }

  lemma ReserveRows(db: Db, i: IntentId, lifecycle: State)
    requires i in db.intents
    requires var r := db.intents[i].reservation;
             r.Some? ==> if TerminalWithoutFill(lifecycle) then Settleable(db, r.value) else r.value in db.reservations
    ensures var after := Reserve(db, i, lifecycle);
            after == db.(reservations := after.reservations, allocations := after.allocations,
                         transitions := after.transitions)
  {
  }

  /** The intent ends or is submitted, in the state its answer stands for. */
  lemma IntentRecorded(db: Db, i: IntentId, ack: Acknowledgement)
    requires Recordable(db, i, ack)
    ensures var intent, after, status := db.intents[i], Recorded(db, i, ack), ack.status.value;
            && i in after.intents && after.intents == db.intents[i := after.intents[i]]
            && after.intents[i] == intent.(status := after.intents[i].status, lifecycle := after.intents[i].lifecycle)
            && AnsweredBy(intent.reviewType, status, after.intents[i].lifecycle)
            && after.intents[i].status == if status == StatusCanceled then IntentCancelled
                                          else if status == StatusRejected || status == StatusExpired then Failed
                                          else Submitted
  {
    var lifecycle := StateForBrokerStatus(db.intents[i].reviewType, ack.status.value);
    NotedRows(db, i, ack);
    ReserveRows(Acknowledged(db, i, ack), i, lifecycle);
    AnsweredOnce(db.intents[i].reviewType, ack.status.value, lifecycle);
  }

  /** The reservation is released with its terminal row, or committed; an intent without one changes none. */
  lemma ReservationRecorded(db: Db, i: IntentId, ack: Acknowledgement)
    requires Recordable(db, i, ack)
    ensures var intent, after, status := db.intents[i], Recorded(db, i, ack), ack.status.value;
            match intent.reservation
            case None => after.reservations == db.reservations && after.transitions == db.transitions
                         && after.allocations == db.allocations
            case Some(r) =>
              && r in db.reservations
              && after.reservations == db.reservations[r := db.reservations[r].(status := if EndedUnfilled(status)
                                                                                then Released else Committed)]
              && (EndedUnfilled(status) ==>
                    && r in after.transitions && after.transitions == db.transitions[r := after.transitions[r]]
                    && after.transitions[r].intent == Some(i)
                    && AnsweredBy(intent.reviewType, status, after.transitions[r].terminal))
              && (!EndedUnfilled(status) ==>
                    after.transitions == db.transitions && after.allocations == db.allocations)
  {
    var lifecycle := StateForBrokerStatus(db.intents[i].reviewType, ack.status.value);
    AnsweredOnce(db.intents[i].reviewType, ack.status.value, lifecycle);
    var noted := Acknowledged(db, i, ack);
    NotedRows(db, i, ack);
    assert Recorded(db, i, ack).reservations == Reserve(noted, i, lifecycle).reservations;
    assert Recorded(db, i, ack).transitions == Reserve(noted, i, lifecycle).transitions;
    assert Recorded(db, i, ack).allocations == Reserve(noted, i, lifecycle).allocations;
  }

  /** Review and confirmation are consumed and the candidate is executed, or deferred when the order ended. */
  lemma EvidenceRecorded(db: Db, i: IntentId, ack: Acknowledgement)
    requires Recordable(db, i, ack)
    ensures var intent, after := db.intents[i], Recorded(db, i, ack);
            && intent.review in db.reviews
            && after.reviews == db.reviews[intent.review := db.reviews[intent.review].(status := ReviewConsumed)]
            && intent.confirmation.Some? && intent.confirmation.value in db.confirmations
            && var c := intent.confirmation.value;
            && after.confirmations == db.confirmations[c := db.confirmations[c].(status := ConfirmationConsumed)]
            && StageWritten(db, after, intent, if EndedUnfilled(ack.status.value) then ExecutionDeferred else Executed)
  {
    var lifecycle := StateForBrokerStatus(db.intents[i].reviewType, ack.status.value);
    AnsweredOnce(db.intents[i].reviewType, ack.status.value, lifecycle);
    NotedRows(db, i, ack);
    ReserveRows(Acknowledged(db, i, ack), i, lifecycle);
    ConsumedRows(Reserve(Acknowledged(db, i, ack), i, lifecycle), db.intents[i]);
  }

  lemma ConsumedRows(db: Db, intent: Intent)
    requires intent.review in db.reviews && intent.confirmation.Some? && intent.confirmation.value in db.confirmations
    ensures var after, c := Consume(db, intent), intent.confirmation.value;
            && after == db.(reviews := after.reviews, confirmations := after.confirmations)
            && after.reviews == db.reviews[intent.review := db.reviews[intent.review].(status := ReviewConsumed)]
            && after.confirmations == db.confirmations[c := db.confirmations[c].(status := ConfirmationConsumed)]
  {
  }

  // ------------------------------------------------------------------- doubt, rejection and receipt

  /** What an answer that could not be recorded is filed as: nothing known unless it says order and status. */
  lemma DoubtFiledAs(ack: Acknowledgement)
    ensures ClassificationOf(ack).TransportUnknown? <==> ack.brokerOrder.None? || ack.status.None?
    ensures ClassificationOf(ack).SubmissionRejected? <==> ack.brokerOrder.Some? && ack.status == Some(StatusRejected)
    ensures ClassificationOf(ack).SubmissionAcknowledged?
       <==> ack.brokerOrder.Some? && ack.status.Some? && ack.status.value != StatusRejected
  {
  }

  lemma AmbiguousIs(db: Db, call: Call, i: IntentId, status: EventStatus)
    requires i in db.intents
    ensures var intent, tx := db.intents[i], RecordAmbiguous(db, call, i, status);
            var key := AmbiguousKey(intent.account, intent.terms.clientOrder, call.now);
            && (tx.Commit? <==> && OwnsLease(db.leases, call) && intent.status == Pending && key !in db.events
                                && Writable(db, intent))
            && (tx.Commit? ==>
                  && tx.db == db.(intents := tx.db.intents, events := tx.db.events, candidates := tx.db.candidates)
                  && tx.db.events == db.events[key := Filed(i, intent, None, status)]
                  && tx.db.intents == db.intents[i := intent.(status := Ambiguous,
                                                              lifecycle := if intent.reviewType == Exit
                                                              then ExitSubmissionAmbiguous else SubmissionAmbiguous)]
                  && StageWritten(db, tx.db, intent, ExecutionAmbiguous))
  {
    FenceIsLease(db.leases, call);
  }

  lemma RejectionIs(db: Db, call: Call, i: IntentId)
    requires i in db.intents
    ensures var intent, tx := db.intents[i], RecordRejection(db, call, i);
            var key := RejectedKey(intent.account, intent.terms.clientOrder, call.now);
            && (tx.Commit? <==> OwnsLease(db.leases, call) && intent.status == Pending && key !in db.events)
            && (tx.Commit? ==>
                  && tx.db == db.(intents := tx.db.intents, events := tx.db.events)
                  && tx.db.events == db.events[key := Filed(i, intent, None, SubmissionRejected)]
                  && tx.db.intents == db.intents[i := intent.(status := Failed, lifecycle := FailedTerminal)])
  {
    FenceIsLease(db.leases, call);
  }

  /** A receipt consumes review and confirmation, expired or not, and leaves the intent to order reconciliation. */
  lemma ReceiptIs(db: Db, call: Call, i: IntentId, brokerOrder: BrokerOrderId)
    requires i in db.intents
    ensures var intent, tx := db.intents[i], RecordReconciled(db, call, i, brokerOrder);
            var key := ReconciledKey(intent.account, intent.terms.clientOrder, brokerOrder);
            && (tx.Commit? <==> && OwnsLease(db.leases, call) && key !in db.events
                                && ReviewAndConfirmationValid(db, intent, true) && Writable(db, intent))
            && (tx.Commit? ==>
                  && tx.db == db.(reviews := tx.db.reviews, confirmations := tx.db.confirmations,
                                  events := tx.db.events, candidates := tx.db.candidates)
                  && tx.db.events == db.events[key := Filed(i, intent, Some(brokerOrder), SubmissionReconciled)]
                  && StageWritten(db, tx.db, intent, Executed)
                  && intent.confirmation.Some?
                  && tx.db.reviews[intent.review].status == ReviewConsumed
                  && tx.db.confirmations[intent.confirmation.value].status == ConfirmationConsumed)
  {
    FenceIsLease(db.leases, call);
    if RecordReconciled(db, call, i, brokerOrder).Commit? {
      ConsumedRows(db, db.intents[i]);
    }
  }
}
