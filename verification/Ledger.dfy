/**
 What each transaction of the execution service does to the tables: either it commits a new state, or
 one of its checks fails and it leaves the tables as they were.
 */
module Ledger {
  import opened Options
  import opened MapSums
  import opened TradeLifecycle
  import opened Tables

  datatype Failure =
    | RiskAmountMissing | CapacityBlocked | NothingToPromote | ConfirmationConflict | ReservationConflict
    | CandidateStageFailed | EvidenceGateFailed | ReleaseFailed | AttemptConflict | AttemptLifecycleFailed
    | AcknowledgementIncomplete | OrderConflict | AcknowledgementConflict | ResultFailed | TerminalReleaseFailed
    | ReservationCommitFailed | ReviewConsumptionFailed | ConfirmationConsumptionFailed | AmbiguityFailed
    | RejectionFailed | ReceiptConflict

  datatype Tx = Commit(db: Db) | Abort(failure: Failure)

  /** The tables after the transaction, whichever way it ends. */
  function After(db: Db, tx: Tx): Db {
    if tx.Commit? then tx.db else db
  }

  // ------------------------------------------------------------------------------------- capacity

  function ActiveWeight(a: AccountId, now: Time): Reservation -> Money {
    (r: Reservation) => if r.key.account == a && r.status.Active? && r.expiresAt > now then r.amount else 0.0
  }

  function ActiveSymbolWeight(a: AccountId, symbol: Symbol, now: Time): Reservation -> Money {
    (r: Reservation) =>
      if r.key.account == a && r.status.Active? && r.expiresAt > now && r.symbol == symbol then r.amount else 0.0
  }

  function OpenWeight(a: AccountId): Order -> Money {
    (o: Order) => if o.account == a then OpenValue(o) else 0.0
  }

  function OpenSymbolWeight(a: AccountId, symbol: Symbol): Order -> Money {
    (o: Order) => if o.account == a && o.symbol == symbol then OpenValue(o) else 0.0
  }

  function OpenCount(orders: map<OrderKey, Order>, a: AccountId): nat {
    |set k | k in orders && orders[k].account == a && IsOpen(orders[k].status)|
  }

  /** The sums the capacity checks compare with the limits. */
  datatype Usage = Usage(reserved: Money, symbolReserved: Money, open: Money, symbolOpen: Money, openCount: int)

  ghost function UsageOf(db: Db, a: AccountId, symbol: Symbol, now: Time): Usage {
    Usage(
      Total(db.reservations, ActiveWeight(a, now)), Total(db.reservations, ActiveSymbolWeight(a, symbol, now)),
      Total(db.orders, OpenWeight(a)), Total(db.orders, OpenSymbolWeight(a, symbol)), OpenCount(db.orders, a))
  }

  predicate Within(limit: Option<Money>, value: Money) {
    limit.None? || value <= limit.value
  }

  predicate WithinRatio(ratio: Option<real>, equity: Money, value: Money) {
    ratio.None? || value <= equity * ratio.value
  }

  function OrZero(x: Option<real>): real {
    if x.Some? then x.value else 0.0
  }

  function CashReserve(equity: Money, limits: Limits): Money {
    var byAmount, byRatio := OrZero(limits.cashReserveAmount), equity * OrZero(limits.cashReserveRatio);
    if byAmount >= byRatio then byAmount else byRatio
  }

  function SymbolPosition(book: Book, symbol: Symbol): Money {
    if symbol in book.symbolPositions then book.symbolPositions[symbol] else 0.0
  }

  /** All six capacity checks with `extra` still to be reserved: the amount at promotion, nothing at claim. */
  predicate CapacityAllows(book: Book, allocation: Allocation, symbol: Symbol, usage: Usage, extra: Money) {
    && book.limits.Some?
    && var limits := book.limits.value;
    var deployed := book.positionTotal + usage.open + usage.reserved + extra;
    var allotted := allocation.deployed + allocation.reserved + extra;
    && book.buyingPower - usage.reserved - usage.open - CashReserve(book.equity, limits) >= extra
    && Within(limits.maxDeploymentAmount, deployed)
    && WithinRatio(limits.maxDeploymentRatio, book.equity, deployed)
    && Within(allocation.amount, allotted)
    && WithinRatio(allocation.ratio, book.equity, allotted)
    && Within(limits.maxSymbolNotional,
              SymbolPosition(book, symbol) + usage.symbolOpen + usage.symbolReserved + extra)
    && (limits.maxPositionCount.None? || book.positionCount < limits.maxPositionCount.value)
    && (limits.maxOrderCount.None? || usage.openCount < limits.maxOrderCount.value)
  }

  // ------------------------------------------------------------------------------ small row updates

  function WithStatus(intents: map<IntentId, Intent>, i: IntentId, status: IntentStatus,
                      lifecycle: State): map<IntentId, Intent>
    requires i in intents
  {
    intents[i := intents[i].(status := status, lifecycle := lifecycle)]
  }

  predicate CandidateWritable(candidates: map<CandidateId, Candidate>, c: Option<CandidateId>) {
    c.Some? ==> c.value in candidates && candidates[c.value].selected
  }

  function WithStage(candidates: map<CandidateId, Candidate>, c: Option<CandidateId>,
                     stage: CandidateStage): map<CandidateId, Candidate>
    requires CandidateWritable(candidates, c)
  {
    if c.Some? then candidates[c.value := candidates[c.value].(stage := stage)] else candidates
  }

  function WithReserved(allocations: map<AllocationKey, Allocation>, k: AllocationKey,
                        reserved: Money): map<AllocationKey, Allocation>
    requires k in allocations
  {
    allocations[k := allocations[k].(reserved := reserved)]
  }

  function AtLeastZero(x: Money): Money {
    if x >= 0.0 then x else 0.0
  }

  predicate ConsumableReview(db: Db, review: ReviewId, orExpired: bool) {
    review in db.reviews
    && (db.reviews[review].status.ReviewValid? || (orExpired && db.reviews[review].status.ReviewExpired?))
  }

  predicate ConsumableConfirmation(db: Db, c: Option<ConfirmationId>, orExpired: bool) {
    && c.Some? && c.value in db.confirmations
    && (db.confirmations[c.value].status.ConfirmationValid? ||
        (orExpired && db.confirmations[c.value].status.ConfirmationExpired?))
  }

  /** Marks the review and confirmation of an intent consumed. */
  function Consume(db: Db, intent: Intent): Db
    requires intent.review in db.reviews && intent.confirmation.Some? && intent.confirmation.value in db.confirmations
  {
    var c := intent.confirmation.value;
    db.(reviews := db.reviews[intent.review := db.reviews[intent.review].(status := ReviewConsumed)],
        confirmations := db.confirmations[c := db.confirmations[c].(status := ConfirmationConsumed)])
  }

  // ------------------------------------------------------------------------------------- promotion

  const CONFIRMATION_MILLISECONDS := 15 * 60_000

  function Earlier(a: Time, b: Time): Time {
    if a <= b then a else b
  }

  /** The row the promotion's SELECT may return; SKIP LOCKED lets it be any of them. */
  predicate Promotable(db: Db, call: Call, command: Command, i: IntentId) {
    && i in db.intents
    && var intent := db.intents[i];
    && intent.status.Created? && CommandSelects(command, intent)
    && intent.review in db.reviews
    && db.reviews[intent.review].status.ReviewValid? && db.reviews[intent.review].expiresAt > call.now
    && intent.account in db.books
    && db.books[intent.account].fingerprint == db.reviews[intent.review].accountFingerprint
    && KeyOf(intent) in db.allocations
    && FenceHeld(db.leases, call)
  }

  function ConfirmationFor(call: Call, command: Command, intent: Intent): ConfirmationId {
    ConfirmationId(intent.review, command, call.fence)
  }

  function ReservationFor(call: Call, command: Command, i: IntentId, intent: Intent): ReservationId {
    ReservationId(intent.account, i, ConfirmationFor(call, command, intent))
  }

  function PromotionExpiry(db: Db, call: Call, intent: Intent): Time
    requires intent.review in db.reviews
  {
    Earlier(db.reviews[intent.review].expiresAt, call.now + CONFIRMATION_MILLISECONDS)
  }

  predicate PositiveRisk(intent: Intent) {
    intent.maxRisk.Some? && intent.maxRisk.value > 0.0
  }

  ghost function Promote(db: Db, call: Call, command: Command, i: IntentId): Tx {
    if !Promotable(db, call, command, i) then Abort(NothingToPromote)
    else
      var intent := db.intents[i];
      var entry, c, r := intent.reviewType.Entry?, ConfirmationFor(call, command, intent),
                         ReservationFor(call, command, i, intent);
      if entry && !PositiveRisk(intent) then Abort(RiskAmountMissing)
      else if entry && !CapacityAllows(db.books[intent.account], db.allocations[KeyOf(intent)], intent.terms.symbol,
                                       UsageOf(db, intent.account, intent.terms.symbol, call.now), intent.maxRisk.value)
      then Abort(CapacityBlocked)
      else if c in db.confirmations then Abort(ConfirmationConflict)
        else if entry && r in db.reservations then Abort(ReservationConflict)
        else if !CandidateWritable(db.candidates, intent.candidate) then Abort(CandidateStageFailed)
        else Commit(Promoted(db, call, command, i))
  }

  function Promoted(db: Db, call: Call, command: Command, i: IntentId): Db
    requires Promotable(db, call, command, i) && CandidateWritable(db.candidates, db.intents[i].candidate)
    requires db.intents[i].reviewType.Entry? ==> PositiveRisk(db.intents[i])
  {
    var intent := db.intents[i];
    var c, r := ConfirmationFor(call, command, intent), ReservationFor(call, command, i, intent);
    var expiresAt := PromotionExpiry(db, call, intent);
    var entry := intent.reviewType.Entry?;
    var reserved :=
      if entry then
        db.reservations[r := Reservation(KeyOf(intent), intent.terms.symbol, intent.maxRisk.value, Active, expiresAt)]
      else db.reservations;
    var credited :=
      if entry then
        WithReserved(db.allocations, KeyOf(intent), db.allocations[KeyOf(intent)].reserved + intent.maxRisk.value)
      else db.allocations;
    var reservation := if entry then Some(r) else None;
    db.(confirmations := db.confirmations[c := Confirmation(intent.review, ConfirmationValid, expiresAt)],
        reservations := reserved, allocations := credited,
        intents := db.intents[i := intent.(status := Ready, confirmation := Some(c), reservation := reservation)],
        candidates := WithStage(db.candidates, intent.candidate, CandidateConfirmed))
  }

  // ----------------------------------------------------------------------------------------- claim

  predicate Acknowledges(e: BrokerEvent) {
    e.brokerOrder.Some? || e.status.SubmissionAcknowledged? || e.status.SubmissionReconciled?
  }

  /** No order and no acknowledging event names the intent or its client order id. */
  predicate NoPriorAcknowledgement(db: Db, i: IntentId, intent: Intent) {
    && (forall k :: k in db.orders ==>
                      !(db.orders[k].account == intent.account
                        && (db.orders[k].intent == i || k.clientOrder == intent.terms.clientOrder)))
    && (forall k :: k in db.events ==>
                      !(db.events[k].account == intent.account
                        && (db.events[k].intent == i || db.events[k].clientOrder == intent.terms.clientOrder)
                        && Acknowledges(db.events[k])))
  }

  predicate ExactlyAuthorized(db: Db, intent: Intent) {
    intent.review in db.reviews && db.reviews[intent.review].terms == intent.terms && db.reviews[intent.review].clean
  }

  /** What the claim asks besides capacity. */
  predicate Evidenced(db: Db, call: Call, command: Command, i: IntentId) {
    && i in db.intents
    && var intent := db.intents[i];
    && intent.status.Ready? && CommandSelects(command, intent)
    && ExactlyAuthorized(db, intent)
    && db.reviews[intent.review].status.ReviewValid? && db.reviews[intent.review].expiresAt > call.now
    && intent.confirmation.Some? && intent.confirmation.value in db.confirmations
    && var confirmation := db.confirmations[intent.confirmation.value];
    && confirmation.review == intent.review && confirmation.status.ConfirmationValid?
    && confirmation.expiresAt > call.now
    && intent.account in db.books && db.books[intent.account].limits.Some?
    && db.books[intent.account].exposureKnown
    && db.books[intent.account].fingerprint == db.reviews[intent.review].accountFingerprint
    && KeyOf(intent) in db.allocations
    && NoPriorAcknowledgement(db, i, intent)
    && (intent.reservation.Some? ==>
          && intent.reservation.value in db.reservations
          && db.reservations[intent.reservation.value].status.Active?
          && db.reservations[intent.reservation.value].expiresAt > call.now)
  }

  ghost predicate Claimable(db: Db, call: Call, command: Command, i: IntentId) {
    && Evidenced(db, call, command, i)
    && var intent := db.intents[i];
    intent.reservation.Some? ==>
      CapacityAllows(db.books[intent.account], db.allocations[KeyOf(intent)], intent.terms.symbol,
                     UsageOf(db, intent.account, intent.terms.symbol, call.now), 0.0)
  }

  ghost function Claim(db: Db, call: Call, command: Command, i: IntentId): Tx {
    if Claimable(db, call, command, i) && FenceHeld(db.leases, call)
    then Commit(db.(intents := WithStatus(db.intents, i, Pending, db.intents[i].lifecycle)))
    else Abort(EvidenceGateFailed)
  }

  function ReleaseClaim(db: Db, call: Call, i: IntentId): Tx {
    if !(i in db.intents && db.intents[i].status.Pending? && FenceHeld(db.leases, call)) then Abort(ReleaseFailed)
    else if !CandidateWritable(db.candidates, db.intents[i].candidate) then Abort(CandidateStageFailed)
    else Commit(db.(intents := WithStatus(db.intents, i, Ready, db.intents[i].lifecycle),
                candidates := WithStage(db.candidates, db.intents[i].candidate, ExecutionDeferred)))
  }

  // ------------------------------------------------------------------- attempt, answers, ambiguity

  function EventFor(i: IntentId, intent: Intent, brokerOrder: Option<BrokerOrderId>, status: EventStatus): BrokerEvent {
    BrokerEvent(intent.account, i, intent.terms.clientOrder, brokerOrder, status)
  }

  function RecordAttempt(db: Db, call: Call, i: IntentId): Tx
    requires i in db.intents
  {
    var intent := db.intents[i];
    if !FenceHeld(db.leases, call) || AttemptKeyOf(i, intent) in db.events then Abort(AttemptConflict)
    else if !intent.status.Pending? then Abort(AttemptLifecycleFailed)
    else
      var lifecycle :=
        if intent.reviewType.Exit? then ExitSubmissionAttemptPersisted else SubmissionAttemptPersisted;
      Commit(db.(events := db.events[AttemptKeyOf(i, intent) := EventFor(i, intent, None, SubmissionAttempted)],
                 intents := WithStatus(db.intents, i, Pending, lifecycle)))
  }

  /** The broker's response to a submission; the order fields are the response's, or the intent's where it has none. */
  datatype Acknowledgement = Acknowledgement(
    brokerOrder: Option<BrokerOrderId>, clientOrder: ClientOrderId, status: Option<BrokerStatus>, occurredAt: Time,
    quantity: Option<real>, notional: Option<real>, limitPrice: Option<real>)

  predicate TerminalWithoutFill(s: State) {
    s.Cancelled? || s.Rejected? || s.Expired?
  }

  predicate BrokerOrderKnown(orders: map<OrderKey, Order>, brokerOrder: BrokerOrderId) {
    exists k :: k in orders && orders[k].brokerOrder == brokerOrder
  }

  predicate Settleable(db: Db, r: ReservationId) {
    r in db.reservations && Held(db.reservations[r]) && db.reservations[r].key in db.allocations && r !in db.transitions
  }

  function SubmissionFailure(db: Db, call: Call, i: IntentId, ack: Acknowledgement): Option<Failure>
    requires i in db.intents
  {
    var intent := db.intents[i];
    if ack.brokerOrder.None? || ack.status.None?
       || ack.clientOrder != intent.terms.clientOrder then Some(AcknowledgementIncomplete)
    else if !FenceHeld(db.leases, call) || OrderKeyOf(intent) in db.orders
            || BrokerOrderKnown(db.orders, ack.brokerOrder.value)
    then Some(OrderConflict)
    else if AcknowledgedKey(intent.account, ack.brokerOrder.value, ack.status.value, ack.occurredAt) in db.events
      then Some(AcknowledgementConflict)
      else if !intent.status.Pending? then Some(ResultFailed)
        else if intent.reservation.Some?
                && TerminalWithoutFill(StateForBrokerStatus(intent.reviewType, ack.status.value))
                && !Settleable(db, intent.reservation.value)
        then Some(TerminalReleaseFailed)
        else if intent.reservation.Some?
                && !TerminalWithoutFill(StateForBrokerStatus(intent.reviewType, ack.status.value))
                && !(intent.reservation.value in db.reservations
                     && db.reservations[intent.reservation.value].status.Active?)
          then Some(ReservationCommitFailed)
          else if !ConsumableReview(db, intent.review, false) then Some(ReviewConsumptionFailed)
            else if !ConsumableConfirmation(db, intent.confirmation, false) then Some(ConfirmationConsumptionFailed)
            else if !CandidateWritable(db.candidates, intent.candidate) then Some(CandidateStageFailed)
            else None
  }

  /** A reservation leaves the ledger: its status, its allocation's amount and its terminal row change together. */
  function Settle(db: Db, r: ReservationId, status: ReservationStatus, t: Transition): Db
    requires Settleable(db, r)
  {
    var row := db.reservations[r];
    var left := AtLeastZero(db.allocations[row.key].reserved - row.amount);
    db.(reservations := db.reservations[r := row.(status := status)],
        allocations := WithReserved(db.allocations, row.key, left),
        transitions := db.transitions[r := t])
  }

  function Reserve(db: Db, i: IntentId, lifecycle: State): Db
    requires i in db.intents
    requires var r := db.intents[i].reservation;
             r.Some? ==> if TerminalWithoutFill(lifecycle) then Settleable(db, r.value) else r.value in db.reservations
  {
    var r := db.intents[i].reservation;
    if r.None? then db
    else if TerminalWithoutFill(lifecycle) then Settle(db, r.value, Released, Transition(Some(i), lifecycle))
    else db.(reservations := db.reservations[r.value := db.reservations[r.value].(status := Committed)])
  }

  function Acknowledged(db: Db, i: IntentId, ack: Acknowledgement): Db
    requires i in db.intents && ack.brokerOrder.Some? && ack.status.Some?
  {
    var intent := db.intents[i];
    var lifecycle := StateForBrokerStatus(intent.reviewType, ack.status.value);
    var order := Order(intent.account, i, ack.brokerOrder.value, intent.terms.symbol, intent.terms.option,
                       ack.status.value, ack.quantity, ack.notional, ack.limitPrice);
    var key := AcknowledgedKey(intent.account, ack.brokerOrder.value, ack.status.value, ack.occurredAt);
    var kind := if ack.status.value.StatusRejected? then SubmissionRejected else SubmissionAcknowledged;
    var status :=
      if lifecycle.Cancelled? then IntentCancelled
      else if TerminalWithoutFill(lifecycle) then Failed
      else Submitted;
    db.(orders := db.orders[OrderKeyOf(intent) := order],
        events := db.events[key := EventFor(i, intent, ack.brokerOrder, kind)],
        intents := WithStatus(db.intents, i, status, lifecycle))
  }

  /** The rows an acknowledgement rewrites are there and may be rewritten. */
  predicate Recordable(db: Db, i: IntentId, ack: Acknowledgement) {
    && i in db.intents && ack.brokerOrder.Some? && ack.status.Some?
    && var intent := db.intents[i];
    && (intent.reservation.Some? ==>
          if TerminalWithoutFill(StateForBrokerStatus(intent.reviewType, ack.status.value))
          then Settleable(db, intent.reservation.value)
          else intent.reservation.value in db.reservations
               && db.reservations[intent.reservation.value].status.Active?)
    && ConsumableReview(db, intent.review, false) && ConsumableConfirmation(db, intent.confirmation, false)
    && CandidateWritable(db.candidates, intent.candidate)
  }

  function Recorded(db: Db, i: IntentId, ack: Acknowledgement): Db
    requires Recordable(db, i, ack)
  {
    var intent := db.intents[i];
    var lifecycle := StateForBrokerStatus(intent.reviewType, ack.status.value);
    var settled := Consume(Reserve(Acknowledged(db, i, ack), i, lifecycle), intent);
    settled.(candidates := WithStage(db.candidates, intent.candidate,
                                     if TerminalWithoutFill(lifecycle) then ExecutionDeferred else Executed))
  }

  function RecordSubmission(db: Db, call: Call, i: IntentId, ack: Acknowledgement): Tx
    requires i in db.intents
  {
    var failure := SubmissionFailure(db, call, i, ack);
    if failure.Some? then Abort(failure.value) else Commit(Recorded(db, i, ack))
  }

  function RecordAmbiguous(db: Db, call: Call, i: IntentId, status: EventStatus): Tx
    requires i in db.intents
  {
    var intent := db.intents[i];
    var key := AmbiguousKey(intent.account, intent.terms.clientOrder, call.now);
    if !intent.status.Pending? || !FenceHeld(db.leases, call) || key in db.events then Abort(AmbiguityFailed)
    else if !CandidateWritable(db.candidates, intent.candidate) then Abort(CandidateStageFailed)
    else
      var lifecycle := if intent.reviewType.Exit? then ExitSubmissionAmbiguous else SubmissionAmbiguous;
      Commit(db.(intents := WithStatus(db.intents, i, Ambiguous, lifecycle),
                 events := db.events[key := EventFor(i, intent, None, status)],
                 candidates := WithStage(db.candidates, intent.candidate, ExecutionAmbiguous)))
  }

  /** A deterministic rejection; the reservation keeps its status and is left to expire. */
  function RecordRejection(db: Db, call: Call, i: IntentId): Tx
    requires i in db.intents
  {
    var intent := db.intents[i];
    var key := RejectedKey(intent.account, intent.terms.clientOrder, call.now);
    if !intent.status.Pending? || !FenceHeld(db.leases, call) || key in db.events then Abort(RejectionFailed)
    else
      Commit(db.(intents := WithStatus(db.intents, i, Failed, FailedTerminal),
                 events := db.events[key := EventFor(i, intent, None, SubmissionRejected)]))
  }

  function RecordReconciled(db: Db, call: Call, i: IntentId, brokerOrder: BrokerOrderId): Tx
    requires i in db.intents
  {
    var intent := db.intents[i];
    var key := ReconciledKey(intent.account, intent.terms.clientOrder, brokerOrder);
    if !FenceHeld(db.leases, call) || key in db.events then Abort(ReceiptConflict)
    else if !ConsumableReview(db, intent.review, true) then Abort(ReviewConsumptionFailed)
    else if !ConsumableConfirmation(db, intent.confirmation, true) then Abort(ConfirmationConsumptionFailed)
    else if !CandidateWritable(db.candidates, intent.candidate) then Abort(CandidateStageFailed)
    else
      var consumed := Consume(db, intent);
      Commit(consumed.(events := db.events[key := EventFor(i, intent, Some(brokerOrder), SubmissionReconciled)],
                       candidates := WithStage(db.candidates, intent.candidate, Executed)))
  }
}
