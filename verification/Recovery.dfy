/**
 The recovery statements: cancelling or preserving stale ready intents, expiring reservations in bulk,
 expiring reviews and confirmations, and cancelling stale created intents. Each commits on its own; a
 failure reported after a statement leaves what the statement wrote.
 */
module Recovery {
  import opened Options
  import opened MapSums
  import opened TradeLifecycle
  import opened Tables
  import opened Ledger

  datatype RecoveryFailure =
    | BrokerLookupFailed | BrokerIdentityMismatch | StaleReadyMismatch | StaleReadyReleaseFailed
    | ReservationMismatch | TerminalTransitionFailed

  datatype Statement = Statement(db: Db, failure: Option<RecoveryFailure>)

  const FRESHNESS_MILLISECONDS := 30 * 60 * 1_000

  // --------------------------------------------------------------------------- stale ready intents

  predicate NoOrderFor(orders: map<OrderKey, Order>, i: IntentId) {
    forall k :: k in orders ==> orders[k].intent != i
  }

  predicate StaleCandidate(c: Candidate, now: Time) {
    !c.selected || ClosedOut(c) || c.asOf <= now - FRESHNESS_MILLISECONDS
  }

  predicate StaleReview(review: Review, now: Time) {
    review.status.ReviewExpired? || review.status.ReviewRevoked? || review.status.ReviewBlocked?
    || review.expiresAt <= now
  }

  predicate StaleConfirmation(db: Db, c: Option<ConfirmationId>, now: Time) {
    c.None? || c.value !in db.confirmations
    || !db.confirmations[c.value].status.ConfirmationValid? || db.confirmations[c.value].expiresAt <= now
  }

  predicate StaleReservation(db: Db, r: Option<ReservationId>, now: Time) {
    r.None? || r.value !in db.reservations
    || !Held(db.reservations[r.value]) || db.reservations[r.value].expiresAt <= now
  }

  /** The rows the stale-ready SELECT returns; its joins need the review and the candidate. */
  predicate StaleReady(db: Db, call: Call, i: IntentId) {
    && i in db.intents
    && var intent := db.intents[i];
    && intent.status.Ready? && intent.review in db.reviews
    && intent.candidate.Some? && intent.candidate.value in db.candidates
    && NoOrderFor(db.orders, i)
    && (|| StaleCandidate(db.candidates[intent.candidate.value], call.now)
        || StaleReview(db.reviews[intent.review], call.now)
        || StaleConfirmation(db, intent.confirmation, call.now)
        || StaleReservation(db, intent.reservation, call.now))
    && FenceHeld(db.leases, call)
  }

  /** An exit intent carries no reservation, so with its joins in place it is stale as soon as it is ready. */
  lemma ReadyExitIsAlwaysStale(db: Db, call: Call, i: IntentId)
    requires i in db.intents && db.intents[i].reservation.None?
    ensures StaleReady(db, call, i) <==>
            && db.intents[i].status.Ready? && db.intents[i].review in db.reviews
            && db.intents[i].candidate.Some? && db.intents[i].candidate.value in db.candidates
            && NoOrderFor(db.orders, i) && FenceHeld(db.leases, call)
  {
    assert StaleReservation(db, db.intents[i].reservation, call.now);
  }

  /** The broker was found to know the order: the intent is kept, as ambiguous. */
  function PreserveStale(db: Db, call: Call, i: IntentId): Db {
    if i in db.intents && db.intents[i].status.Ready? && FenceHeld(db.leases, call)
    then db.(intents := WithStatus(db.intents, i, Ambiguous, db.intents[i].lifecycle))
    else db
  }

  /** Ready, without an order, under a held fence: what the cancellation asks of its row. */
  predicate Cancellable(db: Db, call: Call, i: IntentId) {
    i in db.intents && db.intents[i].status.Ready? && NoOrderFor(db.orders, i) && FenceHeld(db.leases, call)
  }

  /** The reservation row the cancellation locks, if the intent still has one in the ledger. */
  function LockedReservation(db: Db, i: IntentId): Option<ReservationId> {
    if i in db.intents && db.intents[i].reservation.Some? && db.intents[i].reservation.value in db.reservations
       && Held(db.reservations[db.intents[i].reservation.value])
    then db.intents[i].reservation
    else None
  }

  predicate Covered(db: Db, r: ReservationId) {
    && r in db.reservations && db.reservations[r].key in db.allocations
    && db.allocations[db.reservations[r].key].reserved >= db.reservations[r].amount
  }

  function CancelledIntent(db: Db, i: IntentId): Db
    requires i in db.intents
  {
    db.(intents := WithStatus(db.intents, i, IntentCancelled, db.intents[i].lifecycle))
  }

  /** The broker does not know the order: one statement cancels the intent and releases its reservation. */
  function CancelStale(db: Db, call: Call, i: IntentId): Statement {
    var locked := LockedReservation(db, i);
    if locked.Some? && !Covered(db, locked.value) then Statement(db, Some(StaleReadyMismatch))
    else if !Cancellable(db, call, i) then Statement(db, None)
    else if locked.None? then Statement(CancelledIntent(db, i), None)
    else if locked.value in db.transitions then Statement(CancelledIntent(db, i), Some(StaleReadyReleaseFailed))
    else Statement(Settle(CancelledIntent(db, i), locked.value, Released, Transition(Some(i), Cancelled)), None)
  }

  // --------------------------------------------------------------------------------- bulk expiry

  function AmountUnder(k: AllocationKey): Reservation -> Money {
    (r: Reservation) => if r.key == k then r.amount else 0.0
  }

  function Restrict(reservations: map<ReservationId, Reservation>, rs: set<ReservationId>)
    : map<ReservationId, Reservation>
  {
    map r | r in reservations && r in rs :: reservations[r]
  }

  /** The grouped sum the statement debits from one allocation. */
  ghost function GroupSum(reservations: map<ReservationId, Reservation>, rs: set<ReservationId>,
                          k: AllocationKey): Money {
    Total(Restrict(reservations, rs), AmountUnder(k))
  }

  function Expirable(db: Db, call: Call): set<ReservationId> {
    if FenceHeld(db.leases, call)
    then set r | r in db.reservations && db.reservations[r].status.Active? && db.reservations[r].expiresAt <= call.now
    else {}
  }

  ghost predicate GroupCovered(db: Db, rs: set<ReservationId>, k: AllocationKey) {
    k in db.allocations && db.allocations[k].reserved >= GroupSum(db.reservations, rs, k)
  }

  ghost predicate GroupsCovered(db: Db, rs: set<ReservationId>) {
    forall r :: r in rs && r in db.reservations ==> GroupCovered(db, rs, db.reservations[r].key)
  }

  function OwnerOf(db: Db, r: ReservationId): Option<IntentId> {
    if r.intent in db.intents && db.intents[r.intent].reservation == Some(r) then Some(r.intent) else None
  }

  function Expiring(reservations: map<ReservationId, Reservation>, rs: set<ReservationId>)
    : map<ReservationId, Reservation>
  {
    map r | r in reservations :: if r in rs then reservations[r].(status := ReservationExpired) else reservations[r]
  }

  ghost function Debited(allocations: map<AllocationKey, Allocation>, reservations: map<ReservationId, Reservation>,
                         rs: set<ReservationId>): map<AllocationKey, Allocation> {
    map k | k in allocations :: allocations[k].(reserved := allocations[k].reserved - GroupSum(reservations, rs, k))
  }

  function Terminated(db: Db, rs: set<ReservationId>): map<ReservationId, Transition> {
    db.transitions + map r | r in rs :: Transition(OwnerOf(db, r), Expired)
  }

  /** All given reservations expired at once, each allocation debited its grouped sum. */
  ghost function ExpiredTogether(db: Db, rs: set<ReservationId>): Db {
    db.(transitions := Terminated(db, rs),
        allocations := Debited(db.allocations, db.reservations, rs),
        reservations := Expiring(db.reservations, rs))
  }

  ghost function BulkExpire(db: Db, call: Call): Statement {
    var locked := Expirable(db, call);
    if !GroupsCovered(db, locked) then Statement(db, Some(ReservationMismatch))
    else
      var unsettled := locked - db.transitions.Keys;
      Statement(ExpiredTogether(db, unsettled), if unsettled == locked then None else Some(TerminalTransitionFailed))
  }

  // ------------------------------------------------------------ reviews, confirmations, created intents

  function ReviewsBy(reviews: map<ReviewId, Review>, now: int): map<ReviewId, Review> {
    map v | v in reviews ::
      var row := reviews[v];
      if (row.status.ReviewValid? || row.status.ReviewCreatedOnly?) && row.expiresAt <= now
      then row.(status := ReviewExpired) else row
  }

  function ExpireReviews(db: Db, call: Call): Db {
    if FenceHeld(db.leases, call) then db.(reviews := ReviewsBy(db.reviews, call.now)) else db
  }

  function ConfirmationsBy(confirmations: map<ConfirmationId, Confirmation>, now: int)
    : map<ConfirmationId, Confirmation>
  {
    map c | c in confirmations ::
      var row := confirmations[c];
      if row.status.ConfirmationValid? && row.expiresAt <= now then row.(status := ConfirmationExpired) else row
  }

  function ExpireConfirmations(db: Db, call: Call): Db {
    if FenceHeld(db.leases, call) then db.(confirmations := ConfirmationsBy(db.confirmations, call.now)) else db
  }

  predicate StaleCreated(db: Db, call: Call, i: IntentId) {
    && i in db.intents && db.intents[i].status.Created? && db.intents[i].review in db.reviews
    && StaleReview(db.reviews[db.intents[i].review], call.now) && FenceHeld(db.leases, call)
  }

  function CancelStaleCreated(db: Db, call: Call): Db {
    db.(intents := map i | i in db.intents ::
      if StaleCreated(db, call, i) then db.intents[i].(status := IntentCancelled) else db.intents[i])
  }
}
