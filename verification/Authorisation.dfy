/**
 What a claim and a promotion ask, field by field, and what that means for the order that is sent: over
 every run, a worker that calls for an intent claimed it under a live review with exactly its terms.
 */
module Authorisation {
  import opened Options
  import opened TradeLifecycle
  import opened Tables
  import opened Ledger
  import opened CapacityLimits
  import opened Protocol
  import opened AtMostOnce

  // ------------------------------------------------------------------------------------- the gates

  /** The lease row of the caller's job is the caller's own, held, and runs on past the database clock. */
  ghost predicate OwnsLease(leases: map<nat, Lease>, call: Call) {
    exists until: Time :: until > call.dbNow && call.fence.job in leases
                          && leases[call.fence.job] == Lease(call.fence, true, until)
  }

  lemma FenceIsLease(leases: map<nat, Lease>, call: Call)
    ensures FenceHeld(leases, call) <==> OwnsLease(leases, call)
  {
    if FenceHeld(leases, call) {
      var row := leases[call.fence.job];
      assert row == Lease(call.fence, true, row.expiresAt);
    }
  }

  /** The orders a command is for. */
  predicate IsFor(intent: Intent, command: Command) {
    match intent.terms.operation
    case BuyToOpen =>
      intent.reviewType.Entry? && (command.ExecuteReviewed? || (command.ZeroDteEngine? && intent.zeroDte))
    case SellToOpen => intent.reviewType.Entry? && command.ExecuteReviewed?
    case SellToClose => intent.reviewType.Exit? && (command.ExitExecute? || (command.HedgeExitExecute? && intent.hedge))
    case BuyToCover => intent.reviewType.Exit? && command.ExitExecute?
  }

  predicate SameTerms(asked: OrderTerms, reviewed: OrderTerms) {
    && asked.clientOrder == reviewed.clientOrder && asked.symbol == reviewed.symbol
    && asked.strategy == reviewed.strategy && asked.operation == reviewed.operation
    && asked.option == reviewed.option && asked.style == reviewed.style
    && asked.quantity == reviewed.quantity && asked.notional == reviewed.notional
    && asked.limitPrice == reviewed.limitPrice && asked.stopPrice == reviewed.stopPrice
  }

  /** The account's snapshot is the one the review saw, and its strategy has an allocation. */
  predicate AccountReviewed(db: Db, intent: Intent) {
    && intent.review in db.reviews && intent.account in db.books
    && db.books[intent.account].fingerprint == db.reviews[intent.review].accountFingerprint
    && AllocationKey(intent.account, intent.terms.strategy) in db.allocations
  }

  predicate ReviewLive(db: Db, intent: Intent, now: Time) {
    && intent.review in db.reviews
    && db.reviews[intent.review].status == ReviewValid && now < db.reviews[intent.review].expiresAt
  }

  predicate ConfirmationLive(db: Db, intent: Intent, now: Time) {
    match intent.confirmation
    case None => false
    case Some(c) =>
      && c in db.confirmations && db.confirmations[c].review == intent.review
      && db.confirmations[c].status == ConfirmationValid && now < db.confirmations[c].expiresAt
  }

  predicate ReservationLive(db: Db, r: ReservationId, now: Time) {
    r in db.reservations && db.reservations[r].status == Active && now < db.reservations[r].expiresAt
  }

  /** Whoever looks for the intent or its client order finds no order, and no event that acknowledges one. */
  predicate NothingAcknowledged(db: Db, i: IntentId, intent: Intent) {
    && (forall k :: k in db.orders && db.orders[k].account == intent.account ==>
                      db.orders[k].intent != i && k.clientOrder != intent.terms.clientOrder)
    && (forall k :: k in db.events && db.events[k].account == intent.account
                    && (db.events[k].intent == i || db.events[k].clientOrder == intent.terms.clientOrder) ==>
                      && db.events[k].brokerOrder.None?
                      && (db.events[k].status.SubmissionAttempted? || db.events[k].status.SubmissionRejected?
                          || db.events[k].status.TransportUnknown?))
  }

  /** The ready intent's order is the reviewed one, its evidence is live and its limits are kept. */
  ghost predicate Authorised(db: Db, call: Call, command: Command, i: IntentId) {
    && i in db.intents
    && var intent := db.intents[i];
    && intent.status == Ready && IsFor(intent, command)
    && AccountReviewed(db, intent) && ReviewLive(db, intent, call.now)
    && SameTerms(intent.terms, db.reviews[intent.review].terms) && db.reviews[intent.review].clean
    && ConfirmationLive(db, intent, call.now) && NothingAcknowledged(db, i, intent)
    && db.books[intent.account].limits.Some? && db.books[intent.account].exposureKnown
    && (intent.reservation.Some? ==>
          && ReservationLive(db, intent.reservation.value, call.now)
          && WithinLimits(db, KeyOf(intent), intent.terms.symbol, call.now, 0.0))
  }

  lemma EvidencedIff(db: Db, call: Call, command: Command, i: IntentId)
    requires i in db.intents
    ensures var intent := db.intents[i];
            Evidenced(db, call, command, i)
            <==> && intent.status == Ready && IsFor(intent, command)
                 && AccountReviewed(db, intent) && ReviewLive(db, intent, call.now)
                 && SameTerms(intent.terms, db.reviews[intent.review].terms) && db.reviews[intent.review].clean
                 && ConfirmationLive(db, intent, call.now) && NothingAcknowledged(db, i, intent)
                 && db.books[intent.account].limits.Some? && db.books[intent.account].exposureKnown
                 && (intent.reservation.Some? ==> ReservationLive(db, intent.reservation.value, call.now))
  {
    var intent := db.intents[i];
    assert CommandSelects(command, intent) <==> IsFor(intent, command);
    assert NoPriorAcknowledgement(db, i, intent) <==> NothingAcknowledged(db, i, intent);
  }

  /** A claim commits exactly under the caller's lease and for an authorised order, and makes it pending. */
  lemma ClaimIffAuthorised(db: Db, call: Call, command: Command, i: IntentId)
    ensures Claim(db, call, command, i).Commit? <==> OwnsLease(db.leases, call) && Authorised(db, call, command, i)
    ensures Claim(db, call, command, i).Commit? ==>
              Claim(db, call, command, i).db == db.(intents := db.intents[i := db.intents[i].(status := Pending)])
  {
    FenceIsLease(db.leases, call);
    if i in db.intents {
      EvidencedIff(db, call, command, i);
      if Evidenced(db, call, command, i) {
        CheckIsLimits(db, KeyOf(db.intents[i]), db.intents[i].terms.symbol, call.now, 0.0);
      }
    }
  }

  const MINUTES: Time := 60 * 1_000

  /** What a promotion asks of the tables before it writes. */
  ghost predicate Ripe(db: Db, call: Call, command: Command, i: IntentId) {
    && i in db.intents
    && var intent := db.intents[i];
    && intent.status == Created && IsFor(intent, command)
    && AccountReviewed(db, intent) && ReviewLive(db, intent, call.now)
    && (intent.candidate.Some? ==>
          intent.candidate.value in db.candidates && db.candidates[intent.candidate.value].selected)
    && var c := ConfirmationId(intent.review, command, call.fence);
    && c !in db.confirmations
    && (intent.reviewType == Entry ==>
          && intent.maxRisk.Some? && intent.maxRisk.value > 0.0
          && ReservationId(intent.account, i, c) !in db.reservations
          && WithinLimits(db, KeyOf(intent), intent.terms.symbol, call.now, intent.maxRisk.value))
  }

  lemma PromoteIffRipe(db: Db, call: Call, command: Command, i: IntentId)
    ensures Promote(db, call, command, i).Commit? <==> OwnsLease(db.leases, call) && Ripe(db, call, command, i)
  {
    FenceIsLease(db.leases, call);
    if Promotable(db, call, command, i) {
      var intent := db.intents[i];
      assert IsFor(intent, command) && AccountReviewed(db, intent) && ReviewLive(db, intent, call.now);
      CheckIsLimits(db, KeyOf(intent), intent.terms.symbol, call.now, OrZero(intent.maxRisk));
    }
  }

  /** What a promotion writes: evidence for at most fifteen minutes and not past the review's time. */
  lemma PromotionEvidence(db: Db, call: Call, command: Command, i: IntentId)
    requires Promote(db, call, command, i).Commit?
    ensures var intent, after := db.intents[i], Promote(db, call, command, i).db;
            var c := ConfirmationId(intent.review, command, call.fence);
            && i in after.intents && after.intents[i].status == Ready && after.intents[i].confirmation == Some(c)
            && c in after.confirmations && after.confirmations[c].review == intent.review
            && after.confirmations[c].status == ConfirmationValid
            && var until := after.confirmations[c].expiresAt;
            && call.now < until <= call.now + 15 * MINUTES && until <= db.reviews[intent.review].expiresAt
            && (until == call.now + 15 * MINUTES || until == db.reviews[intent.review].expiresAt)
            && match after.intents[i].reservation
               case None => intent.reviewType == Exit
               case Some(r) => && intent.reviewType == Entry && r == ReservationId(intent.account, i, c)
                               && ReservationLive(after, r, call.now) && after.reservations[r].expiresAt == until
  {
  }

  // ------------------------------------------------------------------------------- over every run

  /** The worker claims the intent and sees it done, its order authorised at that moment. */
  ghost predicate ClaimsAuthorised(db: Db, step: Step, w: WorkerId, i: IntentId) {
    && step.Work? && step.w == w && step.action.Claiming? && step.action.i == i && step.action.report.Reported?
    && OwnsLease(db.leases, step.action.call) && Authorised(db, step.action.call, step.action.command, i)
  }

  lemma StepTakesHold(s: World, step: Step, w: WorkerId, i: IntentId)
    requires Holds(Apply(s, step).pcs, w, i) && !Holds(s.pcs, w, i)
    ensures ClaimsAuthorised(s.db, step, w, i)
  {
    TakenByClaim(s, step, w, i);
    ClaimIffAuthorised(s.db, step.action.call, step.action.command, i);
  }

  lemma TakenByClaim(s: World, step: Step, w: WorkerId, i: IntentId)
    requires Holds(Apply(s, step).pcs, w, i) && !Holds(s.pcs, w, i)
    ensures step.Work? && step.w == w && step.action.Claiming? && step.action.i == i && step.action.report.Reported?
    ensures Claim(s.db, step.action.call, step.action.command, i).Commit?
  {
  }

  lemma OrderStays(s: World, step: Step, i: IntentId)
    requires i in s.db.intents
    ensures i in Apply(s, step).db.intents && SameOrder(s.db.intents[i], Apply(s, step).db.intents[i])
  {
    if !Creates(s, step) {
      StepSteady(s, step);
    }
  }

  /** Before the `n`th step the worker claimed the intent, then authorised, and the order is still the same. */
  ghost predicate ClaimedAt(s: World, steps: seq<Step>, n: nat, w: WorkerId, i: IntentId)
    requires n < |steps|
  {
    && ClaimsAuthorised(Run(s, steps[..n]).db, steps[n], w, i) && i in Run(s, steps).db.intents
    && SameOrder(Run(s, steps[..n]).db.intents[i], Run(s, steps).db.intents[i])
  }

  lemma ClaimedStays(s: World, steps: seq<Step>, step: Step, n: nat, w: WorkerId, i: IntentId)
    requires n < |steps| && ClaimedAt(s, steps, n, w, i)
    ensures ClaimedAt(s, steps + [step], n, w, i)
  {
    RunThen(s, steps, step);
    OrderStays(Run(s, steps), step, i);
    assert (steps + [step])[..n] == steps[..n] && (steps + [step])[n] == steps[n];
  }

  lemma ClaimedNow(s: World, steps: seq<Step>, step: Step, w: WorkerId, i: IntentId)
    requires ClaimsAuthorised(Run(s, steps).db, step, w, i)
    ensures ClaimedAt(s, steps + [step], |steps|, w, i)
  {
    RunThen(s, steps, step);
    OrderStays(Run(s, steps), step, i);
    assert (steps + [step])[..|steps|] == steps;
  }

  /** Over every run, whoever holds an intent claimed it while its order was authorised, and the order is the same. */
  lemma {:induction false} HolderClaimed(s: World, steps: seq<Step>, w: WorkerId, i: IntentId) returns (n: nat)
    requires Initial(s) && Holds(Run(s, steps).pcs, w, i)
    ensures n < |steps| && ClaimedAt(s, steps, n, w, i)
    decreases |steps|
  {
    var front, last := steps[..|steps| - 1], steps[|steps| - 1];
    assert steps == front + [last];
    RunThen(s, front, last);
    if Holds(Run(s, front).pcs, w, i) {
      n := HolderClaimed(s, front, w, i);
      ClaimedStays(s, front, last, n, w, i);
    } else {
      StepTakesHold(Run(s, front), last, w, i);
      n := |front|;
      ClaimedNow(s, front, last, w, i);
    }
  }

  /** The worker calls `submitOrder` for the intent. */
  predicate CallsIn(s: World, step: Step, w: WorkerId, i: IntentId) {
    step.Work? && step.w == w && step.action.Sending? && PcOf(s.pcs, w) == Attempted(i)
  }

  lemma StepCallsBy(s: World, step: Step, i: IntentId)
    requires CallsFor(Apply(s, step), i) != CallsFor(s, i)
    ensures step.Work? && CallsIn(s, step, step.w, i)
  {
  }

  /**
   Over every run from the start: if an order was sent, some worker sent it that had claimed its intent
   under its own lease while the order was exactly the reviewed one, the review valid, unexpired and
   without blockers, the confirmation of that review valid and unexpired, any reservation live and every
   limit kept; and the order it sent is that order.
   */
  lemma {:induction false} SentAsAuthorised(s: World, steps: seq<Step>, i: IntentId)
    returns (w: WorkerId, n: nat, m: nat)
    requires Initial(s) && CallsFor(Run(s, steps), i) > 0
    ensures n < m < |steps| && CallsIn(Run(s, steps[..m]), steps[m], w, i) && ClaimedAt(s, steps[..m], n, w, i)
    decreases |steps|
  {
    var front, last := steps[..|steps| - 1], steps[|steps| - 1];
    assert steps == front + [last];
    RunThen(s, front, last);
    if CallsFor(Run(s, front), i) > 0 {
      w, n, m := SentAsAuthorised(s, front, i);
      assert steps[..m] == front[..m] && steps[m] == front[m];
    } else {
      StepCallsBy(Run(s, front), last, i);
      w, m := last.w, |front|;
      n := HolderClaimed(s, front, w, i);
      assert steps[..m] == front;
    }
  }
}
