/**
 The execution service's transactions as it issues them: one statement after the other on shared tables,
 with every statement's row count checked and everything rolled back when one fails. Each transaction is
 shown to do what its description in Ledger says.
 */
module ExecutionStore {
  import opened Options
  import opened MapSums
  import opened TradeLifecycle
  import opened Tables
  import opened Ledger

  class Store {
    var intents: map<IntentId, Intent>
    var reviews: map<ReviewId, Review>
    var confirmations: map<ConfirmationId, Confirmation>
    var reservations: map<ReservationId, Reservation>
    var allocations: map<AllocationKey, Allocation>
    var transitions: map<ReservationId, Transition>
    var events: map<EventKey, BrokerEvent>
    var orders: map<OrderKey, Order>
    var candidates: map<CandidateId, Candidate>
    var books: map<AccountId, Book>
    var leases: map<nat, Lease>

    function Snapshot(): Db
      reads this
    {
      Db(intents, reviews, confirmations, reservations, allocations, transitions, events, orders, candidates, books,
         leases)
    }

    constructor (db: Db)
      ensures Snapshot() == db
    {
      intents, reviews, confirmations := db.intents, db.reviews, db.confirmations;
      reservations, allocations, transitions := db.reservations, db.allocations, db.transitions;
      events, orders, candidates, books, leases := db.events, db.orders, db.candidates, db.books, db.leases;
    }

    method Rollback(saved: Db)
      modifies this
      ensures Snapshot() == saved
    {
      intents, reviews, confirmations := saved.intents, saved.reviews, saved.confirmations;
      reservations, allocations, transitions := saved.reservations, saved.allocations, saved.transitions;
      events, orders, candidates, books, leases := saved.events, saved.orders, saved.candidates, saved.books,
                                                   saved.leases;
    }

    // ---------------------------------------------------------------------------------- capacity

    method MeasureUsage(a: AccountId, symbol: Symbol, now: Time) returns (usage: Usage)
      ensures usage == UsageOf(Snapshot(), a, symbol, now)
    {
      var reserved := SumOf(reservations, ActiveWeight(a, now));
      var symbolReserved := SumOf(reservations, ActiveSymbolWeight(a, symbol, now));
      var open := SumOf(orders, OpenWeight(a));
      var symbolOpen := SumOf(orders, OpenSymbolWeight(a, symbol));
      usage := Usage(reserved, symbolReserved, open, symbolOpen, OpenCount(orders, a));
    }

    // ------------------------------------------------------------------------- shared statements

    /** Moves the candidate of a selected decision to a stage; an intent without a candidate has nothing to write. */
    method PersistCandidateStage(candidate: Option<CandidateId>, stage: CandidateStage)
      returns (failure: Option<Failure>)
      modifies this`candidates
      ensures failure == if CandidateWritable(old(candidates), candidate) then None else Some(CandidateStageFailed)
      ensures candidates == if failure.None? then WithStage(old(candidates), candidate, stage) else old(candidates)
    {
      if candidate.None? {
        return None;
      }
      if candidate.value !in candidates || !candidates[candidate.value].selected {
        return Some(CandidateStageFailed);
      }
      candidates := candidates[candidate.value := candidates[candidate.value].(stage := stage)];
      return None;
    }

    method ConsumeEvidence(review: ReviewId, confirmation: Option<ConfirmationId>, orExpired: bool)
      returns (failure: Option<Failure>)
      modifies this`reviews, this`confirmations
      ensures failure == if !ConsumableReview(old(Snapshot()), review, orExpired) then Some(ReviewConsumptionFailed)
                         else if !ConsumableConfirmation(old(Snapshot()), confirmation, orExpired)
                         then Some(ConfirmationConsumptionFailed)
                         else None
      ensures failure.None? ==>
                && reviews == old(reviews)[review := old(reviews)[review].(status := ReviewConsumed)]
                && var c := confirmation.value;
                confirmations == old(confirmations)[c := old(confirmations)[c].(status := ConfirmationConsumed)]
    {
      if !(review in reviews
           && (reviews[review].status.ReviewValid? || (orExpired && reviews[review].status.ReviewExpired?))) {
        return Some(ReviewConsumptionFailed);
      }
      reviews := reviews[review := reviews[review].(status := ReviewConsumed)];
      if confirmation.None? || confirmation.value !in confirmations
         || !(confirmations[confirmation.value].status.ConfirmationValid?
              || (orExpired && confirmations[confirmation.value].status.ConfirmationExpired?)) {
        return Some(ConfirmationConsumptionFailed);
      }
      var consumed := confirmations[confirmation.value].(status := ConfirmationConsumed);
      confirmations := confirmations[confirmation.value := consumed];
      return None;
    }

    // --------------------------------------------------------------------------------- promotion

    method PromoteStatements(call: Call, command: Command, i: IntentId) returns (failure: Option<Failure>)
      modifies this
      ensures Promote(old(Snapshot()), call, command, i)
           == if failure.None? then Commit(Snapshot()) else Abort(failure.value)
    {
      if !Promotable(Snapshot(), call, command, i) {
        return Some(NothingToPromote);
      }
      var intent := intents[i];
      var k, entry := KeyOf(intent), intent.reviewType.Entry?;
      if entry && !PositiveRisk(intent) {
        return Some(RiskAmountMissing);
      }
      if entry {
        var usage := MeasureUsage(intent.account, intent.terms.symbol, call.now);
        if !CapacityAllows(books[intent.account], allocations[k], intent.terms.symbol, usage, intent.maxRisk.value) {
          return Some(CapacityBlocked);
        }
      }
      failure := PromotionWriteStatements(call, command, i);
    }

    /** Reserves an entry's amount and credits its allocation. */
    method InsertReservation(r: ReservationId, row: Reservation)
      requires row.key in allocations
      modifies this`reservations, this`allocations
      ensures reservations == old(reservations)[r := row]
      ensures allocations
           == WithReserved(old(allocations), row.key, old(allocations)[row.key].reserved + row.amount)
    {
      reservations := reservations[r := row];
      var credited := allocations[row.key].reserved + row.amount;
      allocations := allocations[row.key := allocations[row.key].(reserved := credited)];
    }

    /** The writes of a promotion whose checks have passed. */
    method PromotionWriteStatements(call: Call, command: Command, i: IntentId) returns (failure: Option<Failure>)
      requires Promotable(Snapshot(), call, command, i)
      requires intents[i].reviewType.Entry? ==> PositiveRisk(intents[i])
      modifies this
      ensures var db := old(Snapshot());
              var intent := db.intents[i];
              failure ==
              if ConfirmationFor(call, command, intent) in db.confirmations then Some(ConfirmationConflict)
              else if intent.reviewType.Entry?
                      && ReservationFor(call, command, i, intent) in db.reservations then Some(ReservationConflict)
              else if !CandidateWritable(db.candidates, intent.candidate) then Some(CandidateStageFailed)
              else None
      ensures failure.None? ==> Snapshot() == Promoted(old(Snapshot()), call, command, i)
    {
      var intent := intents[i];
      var k, entry := KeyOf(intent), intent.reviewType.Entry?;
      var expiresAt := Earlier(reviews[intent.review].expiresAt, call.now + CONFIRMATION_MILLISECONDS);
      var c, r := ConfirmationFor(call, command, intent), ReservationFor(call, command, i, intent);
      if c in confirmations {
        return Some(ConfirmationConflict);
      }
      confirmations := confirmations[c := Confirmation(intent.review, ConfirmationValid, expiresAt)];
      if entry {
        if r in reservations {
          return Some(ReservationConflict);
        }
        InsertReservation(r, Reservation(k, intent.terms.symbol, intent.maxRisk.value, Active, expiresAt));
      }
      var reservation := if entry then Some(r) else None;
      intents := intents[i := intent.(confirmation := Some(c), reservation := reservation, status := Ready)];
      failure := PersistCandidateStage(intent.candidate, CandidateConfirmed);
    }

    method PromoteNextConfirmed(call: Call, command: Command, i: IntentId) returns (failure: Option<Failure>)
      modifies this
      ensures var tx := Promote(old(Snapshot()), call, command, i);
              && Snapshot() == After(old(Snapshot()), tx)
              && failure == (if tx.Abort? then Some(tx.failure) else None)
    {
      var saved := Snapshot();
      failure := PromoteStatements(call, command, i);
      if failure.Some? {
        Rollback(saved);
      }
    }

    // ----------------------------------------------------------------------------- claim, release

    /** Whether the limits still hold, for an intent that has a reservation. */
    method HasRoom(intent: Intent, now: int) returns (room: bool)
      requires intent.account in books && books[intent.account].limits.Some? && KeyOf(intent) in allocations
      ensures room <==> (intent.reservation.Some? ==>
                           CapacityAllows(books[intent.account], allocations[KeyOf(intent)], intent.terms.symbol,
                                          UsageOf(Snapshot(), intent.account, intent.terms.symbol, now), 0.0))
    {
      room := true;
      if intent.reservation.Some? {
        var usage := MeasureUsage(intent.account, intent.terms.symbol, now);
        room := CapacityAllows(books[intent.account], allocations[KeyOf(intent)], intent.terms.symbol, usage, 0.0);
      }
    }

    method ClaimIntent(call: Call, command: Command, i: IntentId) returns (failure: Option<Failure>)
      modifies this`intents
      ensures var tx := Claim(old(Snapshot()), call, command, i);
              && Snapshot() == After(old(Snapshot()), tx)
              && failure == (if tx.Abort? then Some(tx.failure) else None)
    {
      if !Evidenced(Snapshot(), call, command, i) {
        return Some(EvidenceGateFailed);
      }
      var room := HasRoom(intents[i], call.now);
      if !room || !FenceHeld(leases, call) {
        return Some(EvidenceGateFailed);
      }
      intents := intents[i := intents[i].(status := Pending)];
      return None;
    }

    method ReleaseClaimed(call: Call, i: IntentId) returns (failure: Option<Failure>)
      modifies this
      ensures var tx := ReleaseClaim(old(Snapshot()), call, i);
              && Snapshot() == After(old(Snapshot()), tx)
              && failure == (if tx.Abort? then Some(tx.failure) else None)
    {
      var saved := Snapshot();
      if i !in intents || !intents[i].status.Pending? || !FenceHeld(leases, call) {
        return Some(ReleaseFailed);
      }
      intents := intents[i := intents[i].(status := Ready)];
      failure := PersistCandidateStage(intents[i].candidate, ExecutionDeferred);
      if failure.Some? {
        Rollback(saved);
      }
    }

    // ------------------------------------------------------------------------------ broker events

    /** Guarded by the pending status and the fence; answers whether the row was updated. */
    method UpdatePending(call: Call, i: IntentId, status: IntentStatus, lifecycle: State) returns (updated: bool)
      requires i in intents
      modifies this`intents
      ensures updated == (old(intents)[i].status.Pending? && FenceHeld(leases, call))
      ensures intents == if updated then WithStatus(old(intents), i, status, lifecycle) else old(intents)
    {
      updated := intents[i].status.Pending? && FenceHeld(leases, call);
      if updated {
        intents := intents[i := intents[i].(status := status, lifecycle := lifecycle)];
      }
    }

    /** Guarded by the fence; a conflicting event is left as it is. */
    method InsertEvent(call: Call, key: EventKey, event: BrokerEvent) returns (inserted: bool)
      modifies this`events
      ensures inserted == (FenceHeld(leases, call) && key !in old(events))
      ensures events == if inserted then old(events)[key := event] else old(events)
    {
      inserted := FenceHeld(leases, call) && key !in events;
      if inserted {
        events := events[key := event];
      }
    }

    method AttemptStatements(call: Call, i: IntentId) returns (failure: Option<Failure>)
      requires i in intents
      modifies this
      ensures RecordAttempt(old(Snapshot()), call, i) == if failure.None? then Commit(Snapshot())
                                                         else Abort(failure.value)
    {
      var intent := intents[i];
      var inserted := InsertEvent(call, AttemptKeyOf(i, intent), EventFor(i, intent, None, SubmissionAttempted));
      if !inserted {
        return Some(AttemptConflict);
      }
      var lifecycle := if intent.reviewType.Exit? then ExitSubmissionAttemptPersisted else SubmissionAttemptPersisted;
      var updated := UpdatePending(call, i, Pending, lifecycle);
      failure := if updated then None else Some(AttemptLifecycleFailed);
    }

    method PersistAttempt(call: Call, i: IntentId) returns (failure: Option<Failure>)
      requires i in intents
      modifies this
      ensures var tx := RecordAttempt(old(Snapshot()), call, i);
              && Snapshot() == After(old(Snapshot()), tx)
              && failure == (if tx.Abort? then Some(tx.failure) else None)
    {
      var saved := Snapshot();
      failure := AttemptStatements(call, i);
      if failure.Some? {
        Rollback(saved);
      }
    }

    method AmbiguityStatements(call: Call, i: IntentId, classification: EventStatus) returns (failure: Option<Failure>)
      requires i in intents
      modifies this
      ensures RecordAmbiguous(old(Snapshot()), call, i, classification)
           == if failure.None? then Commit(Snapshot()) else Abort(failure.value)
    {
      var intent := intents[i];
      var updated := UpdatePending(call, i, Ambiguous,
                                   if intent.reviewType.Exit? then ExitSubmissionAmbiguous else SubmissionAmbiguous);
      if !updated {
        return Some(AmbiguityFailed);
      }
      var inserted := InsertEvent(call, AmbiguousKey(intent.account, intent.terms.clientOrder, call.now),
                                  EventFor(i, intent, None, classification));
      if !inserted {
        return Some(AmbiguityFailed);
      }
      failure := PersistCandidateStage(intent.candidate, ExecutionAmbiguous);
    }

    method PersistAmbiguity(call: Call, i: IntentId, classification: EventStatus) returns (failure: Option<Failure>)
      requires i in intents
      modifies this
      ensures var tx := RecordAmbiguous(old(Snapshot()), call, i, classification);
              && Snapshot() == After(old(Snapshot()), tx)
              && failure == (if tx.Abort? then Some(tx.failure) else None)
    {
      var saved := Snapshot();
      failure := AmbiguityStatements(call, i, classification);
      if failure.Some? {
        Rollback(saved);
      }
    }

    method PersistRejection(call: Call, i: IntentId) returns (failure: Option<Failure>)
      requires i in intents
      modifies this
      ensures var tx := RecordRejection(old(Snapshot()), call, i);
              && Snapshot() == After(old(Snapshot()), tx)
              && failure == (if tx.Abort? then Some(tx.failure) else None)
    {
      var saved, intent := Snapshot(), intents[i];
      var updated := UpdatePending(call, i, Failed, FailedTerminal);
      if !updated {
        return Some(RejectionFailed);
      }
      var inserted := InsertEvent(call, RejectedKey(intent.account, intent.terms.clientOrder, call.now),
                                  EventFor(i, intent, None, SubmissionRejected));
      if !inserted {
        Rollback(saved);
        return Some(RejectionFailed);
      }
      return None;
    }

    method ReconciliationStatements(call: Call, i: IntentId, brokerOrder: BrokerOrderId)
      returns (failure: Option<Failure>)
      requires i in intents
      modifies this
      ensures RecordReconciled(old(Snapshot()), call, i, brokerOrder)
           == if failure.None? then Commit(Snapshot()) else Abort(failure.value)
    {
      var intent := intents[i];
      var inserted := InsertEvent(call, ReconciledKey(intent.account, intent.terms.clientOrder, brokerOrder),
                                  EventFor(i, intent, Some(brokerOrder), SubmissionReconciled));
      if !inserted {
        return Some(ReceiptConflict);
      }
      failure := ConsumeEvidence(intent.review, intent.confirmation, true);
      if failure.None? {
        failure := PersistCandidateStage(intent.candidate, Executed);
      }
    }

    method PersistReconciliation(call: Call, i: IntentId, brokerOrder: BrokerOrderId) returns (failure: Option<Failure>)
      requires i in intents
      modifies this
      ensures var tx := RecordReconciled(old(Snapshot()), call, i, brokerOrder);
              && Snapshot() == After(old(Snapshot()), tx)
              && failure == (if tx.Abort? then Some(tx.failure) else None)
    {
      var saved := Snapshot();
      failure := ReconciliationStatements(call, i, brokerOrder);
      if failure.Some? {
        Rollback(saved);
      }
    }

    // ---------------------------------------------------------------------------- acknowledgement

    /** Inserts the order and its event and moves the intent on. */
    method InsertAcknowledged(call: Call, i: IntentId, ack: Acknowledgement) returns (failure: Option<Failure>)
      requires i in intents && ack.brokerOrder.Some? && ack.status.Some?
      modifies this`orders, this`events, this`intents
      ensures failure ==
              if !FenceHeld(leases, call) || OrderKeyOf(old(intents)[i]) in old(orders)
                 || BrokerOrderKnown(old(orders), ack.brokerOrder.value)
              then Some(OrderConflict)
              else if AcknowledgedKey(old(intents)[i].account, ack.brokerOrder.value, ack.status.value,
                                      ack.occurredAt) in old(events)
                then Some(AcknowledgementConflict)
                else if !old(intents)[i].status.Pending? then Some(ResultFailed)
                  else None
      ensures failure.None? ==> Snapshot() == Acknowledged(old(Snapshot()), i, ack)
    {
      var intent := intents[i];
      if !FenceHeld(leases, call) || OrderKeyOf(intent) in orders || BrokerOrderKnown(orders, ack.brokerOrder.value) {
        return Some(OrderConflict);
      }
      var order := Order(intent.account, i, ack.brokerOrder.value, intent.terms.symbol, intent.terms.option,
                         ack.status.value, ack.quantity, ack.notional, ack.limitPrice);
      orders := orders[OrderKeyOf(intent) := order];
      var key := AcknowledgedKey(intent.account, ack.brokerOrder.value, ack.status.value, ack.occurredAt);
      if key in events {
        return Some(AcknowledgementConflict);
      }
      var kind := if ack.status.value.StatusRejected? then SubmissionRejected else SubmissionAcknowledged;
      events := events[key := EventFor(i, intent, ack.brokerOrder, kind)];
      if !intents[i].status.Pending? {
        return Some(ResultFailed);
      }
      var lifecycle := StateForBrokerStatus(intent.reviewType, ack.status.value);
      var status :=
        if lifecycle.Cancelled? then IntentCancelled
        else if TerminalWithoutFill(lifecycle) then Failed
        else Submitted;
      intents := intents[i := intents[i].(status := status, lifecycle := lifecycle)];
      return None;
    }

    /** Releases the reservation of an order that ended without a fill. */
    method ReleaseReservation(i: IntentId, r: ReservationId, lifecycle: State) returns (failure: Option<Failure>)
      modifies this`reservations, this`allocations, this`transitions
      ensures failure == if Settleable(old(Snapshot()), r) then None else Some(TerminalReleaseFailed)
      ensures failure.None? ==> Snapshot() == Settle(old(Snapshot()), r, Released, Transition(Some(i), lifecycle))
    {
      if r !in reservations || !Held(reservations[r]) {
        return Some(TerminalReleaseFailed);
      }
      var row := reservations[r];
      reservations := reservations[r := row.(status := Released)];
      if row.key !in allocations {
        return Some(TerminalReleaseFailed);
      }
      var left := AtLeastZero(allocations[row.key].reserved - row.amount);
      allocations := allocations[row.key := allocations[row.key].(reserved := left)];
      if r in transitions {
        return Some(TerminalReleaseFailed);
      }
      transitions := transitions[r := Transition(Some(i), lifecycle)];
      return None;
    }

    /** Releases the reservation of an order that ended without a fill, or commits it to a live one. */
    method SettleReservation(i: IntentId, lifecycle: State) returns (failure: Option<Failure>)
      requires i in intents
      modifies this`reservations, this`allocations, this`transitions
      ensures var r := intents[i].reservation;
              failure == if r.Some? && TerminalWithoutFill(lifecycle)
                            && !Settleable(old(Snapshot()), r.value) then Some(TerminalReleaseFailed)
              else if r.Some? && !TerminalWithoutFill(lifecycle)
                      && !(r.value in old(reservations) && old(reservations)[r.value].status.Active?)
              then Some(ReservationCommitFailed)
              else None
      ensures failure.None? ==> Snapshot() == Reserve(old(Snapshot()), i, lifecycle)
    {
      if intents[i].reservation.None? {
        return None;
      }
      var r := intents[i].reservation.value;
      if TerminalWithoutFill(lifecycle) {
        failure := ReleaseReservation(i, r, lifecycle);
      } else {
        if r !in reservations || !reservations[r].status.Active? {
          return Some(ReservationCommitFailed);
        }
        reservations := reservations[r := reservations[r].(status := Committed)];
        return None;
      }
    }

    /** Consumes the evidence of an acknowledged intent and moves its candidate on. */
    method CloseSubmission(intent: Intent, stage: CandidateStage) returns (failure: Option<Failure>)
      modifies this`reviews, this`confirmations, this`candidates
      ensures var db := old(Snapshot());
              failure == if !ConsumableReview(db, intent.review, false) then Some(ReviewConsumptionFailed)
              else if !ConsumableConfirmation(db, intent.confirmation, false)
              then Some(ConfirmationConsumptionFailed)
              else if !CandidateWritable(db.candidates, intent.candidate) then Some(CandidateStageFailed)
                else None
      ensures failure.None? ==>
                Snapshot() == Consume(old(Snapshot()),
                                      intent).(candidates := WithStage(old(candidates), intent.candidate, stage))
    {
      failure := ConsumeEvidence(intent.review, intent.confirmation, false);
      if failure.None? {
        failure := PersistCandidateStage(intent.candidate, stage);
      }
    }

    method AcknowledgeStatements(call: Call, i: IntentId, ack: Acknowledgement) returns (failure: Option<Failure>)
      requires i in intents
      modifies this
      ensures failure == SubmissionFailure(old(Snapshot()), call, i, ack)
      ensures failure.None? ==> Recordable(old(Snapshot()), i, ack) && Snapshot() == Recorded(old(Snapshot()), i, ack)
    {
      var intent := intents[i];
      if ack.brokerOrder.None? || ack.clientOrder != intent.terms.clientOrder || ack.status.None? {
        return Some(AcknowledgementIncomplete);
      }
      failure := InsertAcknowledged(call, i, ack);
      if failure.Some? {
        return;
      }
      var lifecycle := StateForBrokerStatus(intent.reviewType, ack.status.value);
      failure := SettleReservation(i, lifecycle);
      if failure.Some? {
        return;
      }
      failure := CloseSubmission(intent, if TerminalWithoutFill(lifecycle) then ExecutionDeferred else Executed);
    }

    method PersistSubmission(call: Call, i: IntentId, ack: Acknowledgement) returns (failure: Option<Failure>)
      requires i in intents
      modifies this
      ensures var tx := RecordSubmission(old(Snapshot()), call, i, ack);
              && Snapshot() == After(old(Snapshot()), tx)
              && failure == (if tx.Abort? then Some(tx.failure) else None)
    {
      var saved := Snapshot();
      failure := AcknowledgeStatements(call, i, ack);
      if failure.Some? {
        Rollback(saved);
      }
    }
  }

  /** SUM over the rows of a table. */
  method SumOf<K(!new, ==), V>(m: map<K, V>, w: V -> Money) returns (sum: Money)
    ensures sum == Total(m, w)
  {
    var rest := m;
    sum := 0.0;
    while rest != map[]
      invariant sum + Total(rest, w) == Total(m, w)
      decreases |rest|
    {
      var k :| k in rest;
      TotalSplit(rest, w, k);
      sum := sum + w(rest[k]);
      rest := rest - {k};
    }
  }
}
