/**
 The PostgreSQL rows the execution protocol reads and writes. Text keys are numbers; ids that the
 source derives by hashing are constructor terms, so distinct inputs give distinct ids. Money is an
 exact real, time an integer number of milliseconds.
 */
module Tables {
  import opened Options
  import opened TradeLifecycle

  type AccountId = nat
  type StrategyKey = nat
  type Symbol = nat
  type IntentId = nat
  type ReviewId = nat
  type CandidateId = nat
  type ClientOrderId = nat
  type BrokerOrderId = nat
  type WorkerId = nat
  type Money = real
  type Time = int

  datatype Operation = BuyToOpen | SellToOpen | SellToClose | BuyToCover

  datatype Command = ExecuteReviewed | ExitExecute | HedgeExitExecute | ZeroDteEngine

  /** The scheduler lease a caller claims to hold, and the lease row it is checked against. */
  datatype Fence = Fence(job: nat, workstream: nat, owner: nat, run: nat, token: nat)

  datatype Lease = Lease(fence: Fence, held: bool, expiresAt: Time)

  /** One call: the caller's fence, its own clock, and the database clock. */
  datatype Call = Call(fence: Fence, now: Time, dbNow: Time)

  /** The order as the review authorised it or the intent requests it; `style` is side, type and time in force. */
  datatype OrderTerms = OrderTerms(
    clientOrder: ClientOrderId, symbol: Symbol, strategy: StrategyKey, operation: Operation, option: bool, style: nat,
    quantity: Option<real>, notional: Option<real>, limitPrice: Option<real>, stopPrice: Option<real>)

  datatype IntentStatus = Created | Ready | Pending | Submitted | Ambiguous | Failed | IntentCancelled

  datatype Intent = Intent(
    account: AccountId, reviewType: ReviewType, terms: OrderTerms, review: ReviewId, candidate: Option<CandidateId>,
    maxRisk: Option<Money>,
    hedge: bool, zeroDte: bool, status: IntentStatus, lifecycle: State,
    confirmation: Option<ConfirmationId>, reservation: Option<ReservationId>)

  datatype ReviewStatus =
    | ReviewValid | ReviewCreatedOnly | ReviewBlocked | ReviewExpired | ReviewConsumed | ReviewRevoked

  datatype Review = Review(
    status: ReviewStatus, expiresAt: Time, accountFingerprint: nat, terms: OrderTerms, clean: bool)

  datatype ConfirmationId = ConfirmationId(review: ReviewId, command: Command, fence: Fence)

  datatype ConfirmationStatus = ConfirmationValid | ConfirmationExpired | ConfirmationConsumed | ConfirmationRevoked

  datatype Confirmation = Confirmation(review: ReviewId, status: ConfirmationStatus, expiresAt: Time)

  datatype ReservationId = ReservationId(account: AccountId, intent: IntentId, confirmation: ConfirmationId)

  datatype ReservationStatus = Active | Committed | Released | ReservationExpired

  datatype Reservation = Reservation(
    key: AllocationKey, symbol: Symbol, amount: Money, status: ReservationStatus, expiresAt: Time)

  datatype AllocationKey = AllocationKey(account: AccountId, strategy: StrategyKey)

  /** The active allocation row of an account and strategy; the schema allows one. */
  datatype Allocation = Allocation(amount: Option<Money>, ratio: Option<real>, reserved: Money, deployed: Money)

  datatype Transition = Transition(intent: Option<IntentId>, terminal: State)

  datatype EventKey =
    | AttemptKey(account: AccountId, intent: IntentId, clientOrder: ClientOrderId)
    | AcknowledgedKey(account: AccountId, brokerOrder: BrokerOrderId, status: BrokerStatus, at: Time)
    | AmbiguousKey(account: AccountId, clientOrder: ClientOrderId, at: Time)
    | RejectedKey(account: AccountId, clientOrder: ClientOrderId, at: Time)
    | ReconciledKey(account: AccountId, clientOrder: ClientOrderId, brokerOrder: BrokerOrderId)

  datatype EventStatus =
    | SubmissionAttempted | SubmissionAcknowledged | SubmissionRejected | TransportUnknown | SubmissionReconciled

  datatype BrokerEvent = BrokerEvent(
    account: AccountId, intent: IntentId, clientOrder: ClientOrderId, brokerOrder: Option<BrokerOrderId>,
    status: EventStatus)

  datatype OrderKey = OrderKey(account: AccountId, clientOrder: ClientOrderId)

  datatype Order = Order(
    account: AccountId, intent: IntentId, brokerOrder: BrokerOrderId, symbol: Symbol, option: bool,
    status: BrokerStatus,
    quantity: Option<real>, notional: Option<real>, limitPrice: Option<real>)

  datatype CandidateStage =
    | Sized | CandidateConfirmed | ExecutionDeferred | ExecutionAmbiguous | Executed | CandidateClosedOut

  datatype Candidate = Candidate(selected: bool, stage: CandidateStage, asOf: Time)

  datatype Limits = Limits(
    cashReserveAmount: Option<Money>, cashReserveRatio: Option<real>,
    maxDeploymentAmount: Option<Money>, maxDeploymentRatio: Option<real>,
    maxSymbolNotional: Option<Money>, maxPositionCount: Option<int>, maxOrderCount: Option<int>)

  /** What an account's latest snapshot, limits, exposure and positions contribute to the capacity checks. */
  datatype Book = Book(
    fingerprint: nat, buyingPower: Money, equity: Money, limits: Option<Limits>, exposureKnown: bool,
    positionTotal: Money, positionCount: int, symbolPositions: map<Symbol, Money>)

  datatype Db = Db(
    intents: map<IntentId, Intent>,
    reviews: map<ReviewId, Review>,
    confirmations: map<ConfirmationId, Confirmation>,
    reservations: map<ReservationId, Reservation>,
    allocations: map<AllocationKey, Allocation>,
    transitions: map<ReservationId, Transition>,
    events: map<EventKey, BrokerEvent>,
    orders: map<OrderKey, Order>,
    candidates: map<CandidateId, Candidate>,
    books: map<AccountId, Book>,
    leases: map<nat, Lease>)

  predicate FenceHeld(leases: map<nat, Lease>, call: Call) {
    && call.fence.job in leases
    && leases[call.fence.job].fence == call.fence
    && leases[call.fence.job].held
    && leases[call.fence.job].expiresAt > call.dbNow
  }

  function KeyOf(intent: Intent): AllocationKey {
    AllocationKey(intent.account, intent.terms.strategy)
  }

  function OrderKeyOf(intent: Intent): OrderKey {
    OrderKey(intent.account, intent.terms.clientOrder)
  }

  function AttemptKeyOf(i: IntentId, intent: Intent): EventKey {
    AttemptKey(intent.account, i, intent.terms.clientOrder)
  }

  predicate Held(r: Reservation) {
    r.status.Active? || r.status.Committed?
  }

  /** The closed stages the stale-ready test looks for: expired, rejected, blocked or skipped. */
  predicate ClosedOut(c: Candidate) {
    c.stage.CandidateClosedOut?
  }

  predicate CommandSelects(command: Command, intent: Intent) {
    match command
    case ExecuteReviewed => intent.reviewType.Entry?
                            && (intent.terms.operation.BuyToOpen? || intent.terms.operation.SellToOpen?)
    case ExitExecute => intent.reviewType.Exit?
                        && (intent.terms.operation.SellToClose? || intent.terms.operation.BuyToCover?)
    case HedgeExitExecute => intent.reviewType.Exit? && intent.terms.operation.SellToClose? && intent.hedge
    case ZeroDteEngine => intent.reviewType.Entry? && intent.terms.operation.BuyToOpen? && intent.zeroDte
  }

  /** Statuses of orders the capacity sums count as open. */
  predicate IsOpen(status: BrokerStatus) {
    || status.StatusNew? || status.StatusAccepted? || status.StatusPendingNew? || status.StatusPartiallyFilled?
    || status.StatusHeld? || status.StatusReplaced?
  }

  /** COALESCE(notional, quantity * limit price * contract size); an order with neither counts nothing. */
  function OpenValue(o: Order): Money {
    if !IsOpen(o.status) then 0.0
    else if o.notional.Some? then o.notional.value
    else if o.quantity.Some? && o.limitPrice.Some? then
      o.quantity.value * o.limitPrice.value * (if o.option then 100.0 else 1.0)
    else 0.0
  }
}
