/**
 The capacity chain: the check made at promotion is the check made at claim after the reservation is
 written, promotion spoils nobody else's claim, and a recorded order takes its reservation's place.
 */
module Capacity {
  import opened Options
  import opened MapSums
  import opened TradeLifecycle
  import opened Tables
  import opened Ledger
  import opened Conservation

  /** What remains of the usage once time has passed or a reservation was added. */
  function Grown(usage: Usage, amount: Money, sameSymbol: bool): Usage {
    usage.(reserved := usage.reserved + amount, symbolReserved := usage.symbolReserved
    + if sameSymbol then amount else 0.0)
  }

  predicate NotAbove(a: Usage, b: Usage) {
    a.reserved <= b.reserved && a.symbolReserved <= b.symbolReserved && a.open == b.open && a.symbolOpen == b.symbolOpen
    && a.openCount == b.openCount
  }

  lemma LessUsageAllowsMore(book: Book, allocation: Allocation, symbol: Symbol, a: Usage, b: Usage)
    requires NotAbove(a, b) && CapacityAllows(book, allocation, symbol, b, 0.0)
    ensures CapacityAllows(book, allocation, symbol, a, 0.0)
  {
  }

  /** Checking with an amount still to be reserved is checking nothing more once it is reserved. */
  lemma PromotionCheckIsClaimCheck(book: Book, allocation: Allocation, symbol: Symbol, usage: Usage, amount: Money)
    ensures CapacityAllows(book, allocation, symbol, usage, amount)
       <==> CapacityAllows(book, allocation.(reserved := allocation.reserved + amount), symbol,
                           Grown(usage, amount, true), 0.0)
  {
  }

  /** Reservations leave the capacity sums as time passes, and never enter them. */
  lemma UsageFallsWithTime(db: Db, a: AccountId, symbol: Symbol, now: Time, later: Time)
    requires now <= later && SoundReservations(db.reservations, db.allocations)
    ensures NotAbove(UsageOf(db, a, symbol, later), UsageOf(db, a, symbol, now))
  {
    TotalMonotone(db.reservations, ActiveWeight(a, later), ActiveWeight(a, now));
    TotalMonotone(db.reservations, ActiveSymbolWeight(a, symbol, later), ActiveSymbolWeight(a, symbol, now));
  }

  /** An entry that promotion may take but for its capacity: its risk, candidate and new ids are in order. */
  predicate Reservable(db: Db, call: Call, command: Command, i: IntentId) {
    && Promotable(db, call, command, i) && db.intents[i].reviewType.Entry? && PositiveRisk(db.intents[i])
    && CandidateWritable(db.candidates, db.intents[i].candidate)
    && ReservationFor(call, command, i, db.intents[i]) !in db.reservations
    && ConfirmationFor(call, command, db.intents[i]) !in db.confirmations
  }

  lemma PromotionReserves(db: Db, call: Call, command: Command, i: IntentId)
    returns (r: ReservationId, row: Reservation, intent: Intent)
    requires Reservable(db, call, command, i)
    ensures r !in db.reservations && PromotionWrites(db, Promoted(db, call, command, i), i, r, row, intent)
    ensures row.key == KeyOf(db.intents[i]) && row.symbol == db.intents[i].terms.symbol && row.status.Active?
    ensures row.amount == db.intents[i].maxRisk.value && row.amount > 0.0 && row.expiresAt > call.now
  {
    r, row, intent := PromotedEntryWrites(db, call, command, i);
    assert Promoted(db, call, command, i).reservations[r] == row;
  }

  lemma UsageAfterPromotion(db: Db, call: Call, command: Command, i: IntentId, symbol: Symbol)
    requires Reservable(db, call, command, i)
    ensures var intent := db.intents[i];
            UsageOf(Promoted(db, call, command, i), intent.account, symbol, call.now)
            == Grown(UsageOf(db, intent.account, symbol, call.now), intent.maxRisk.value, symbol == intent.terms.symbol)
  {
    var a := db.intents[i].account;
    var r, row, intent := PromotionReserves(db, call, command, i);
    TotalInsert(db.reservations, ActiveWeight(a, call.now), r, row);
    TotalInsert(db.reservations, ActiveSymbolWeight(a, symbol, call.now), r, row);
    assert Promoted(db, call, command, i).orders == db.orders;
  }

  /** The claim-time capacity check of an allocation and symbol. */
  ghost predicate Admits(db: Db, k: AllocationKey, symbol: Symbol, now: Time) {
    && k in db.allocations && k.account in db.books
    && CapacityAllows(db.books[k.account], db.allocations[k], symbol, UsageOf(db, k.account, symbol, now), 0.0)
  }

  /** The tables after an entry's promotion admit its claim exactly when the promotion's own check held. */
  lemma AdmittedIffAllowed(db: Db, call: Call, command: Command, i: IntentId)
    requires Reservable(db, call, command, i)
    ensures var intent := db.intents[i];
            Admits(Promoted(db, call, command, i), KeyOf(intent), intent.terms.symbol, call.now)
            <==> CapacityAllows(db.books[intent.account], db.allocations[KeyOf(intent)], intent.terms.symbol,
                                UsageOf(db, intent.account, intent.terms.symbol, call.now), intent.maxRisk.value)
  {
    var intent := db.intents[i];
    var r, row, ready := PromotionReserves(db, call, command, i);
    UsageAfterPromotion(db, call, command, i, intent.terms.symbol);
    PromotionCheckIsClaimCheck(db.books[intent.account], db.allocations[KeyOf(intent)], intent.terms.symbol,
                               UsageOf(db, intent.account, intent.terms.symbol, call.now), intent.maxRisk.value);
  }

  /** An entry is blocked exactly when, once promoted, it could not be claimed at that time and snapshot. */
  lemma BlockedIffUnclaimable(db: Db, call: Call, command: Command, i: IntentId)
    requires Reservable(db, call, command, i)
    ensures Promote(db, call, command, i) == Abort(CapacityBlocked)
       <==> !Admits(Promoted(db, call, command, i), KeyOf(db.intents[i]), db.intents[i].terms.symbol, call.now)
  {
    AdmittedIffAllowed(db, call, command, i);
  }

  lemma PromotedWasReservable(db: Db, call: Call, command: Command, i: IntentId)
    requires Promote(db, call, command, i).Commit? && db.intents[i].reviewType.Entry?
    ensures Reservable(db, call, command, i)
  {
  }

  lemma AdmittedAtOnce(db: Db, call: Call, command: Command, i: IntentId, k: AllocationKey, symbol: Symbol)
    requires Promote(db, call, command, i).Commit? && db.intents[i].reviewType.Entry?
             && k.account == db.intents[i].account
    requires Admits(db, k, symbol, call.now) || (k == KeyOf(db.intents[i]) && symbol == db.intents[i].terms.symbol)
    ensures Admits(Promoted(db, call, command, i), k, symbol, call.now)
  {
    PromotedWasReservable(db, call, command, i);
    var r, row, intent := PromotionReserves(db, call, command, i);
    UsageAfterPromotion(db, call, command, i, symbol);
    UsageAfterPromotion(db, call, command, i, db.intents[i].terms.symbol);
  }

  /**
   A successful promotion leaves the claim-time check true of its own intent, and of every allocation and
   symbol of the account for which it held before; and it stays true as time passes.
   */
  lemma PromotionKeepsClaims(db: Db, call: Call, command: Command, i: IntentId, k: AllocationKey, symbol: Symbol,
                             later: Time)
    requires LedgerSound(db) && Promote(db, call, command, i).Commit? && db.intents[i].reviewType.Entry?
    requires k.account == db.intents[i].account && call.now <= later
    requires Admits(db, k, symbol, call.now) || (k == KeyOf(db.intents[i]) && symbol == db.intents[i].terms.symbol)
    ensures Admits(Promoted(db, call, command, i), k, symbol, later)
  {
    var after := Promoted(db, call, command, i);
    AdmittedAtOnce(db, call, command, i, k, symbol);
    PromoteKeepsLedger(db, call, command, i);
    UsageFallsWithTime(after, k.account, symbol, call.now, later);
    LessUsageAllowsMore(after.books[k.account], after.allocations[k], symbol,
                        UsageOf(after, k.account, symbol, later), UsageOf(after, k.account, symbol, call.now));
  }

  // -------------------------------------------------------------------------------------- handover

  /** What a reservation contributes to the capacity sum. */
  function Counted(row: Reservation, now: Time): Money {
    if row.status.Active? && row.expiresAt > now then row.amount else 0.0
  }

  function OrderOf(i: IntentId, intent: Intent, ack: Acknowledgement): Order
    requires ack.brokerOrder.Some? && ack.status.Some?
  {
    Order(intent.account, i, ack.brokerOrder.value, intent.terms.symbol, intent.terms.option,
          ack.status.value, ack.quantity, ack.notional, ack.limitPrice)
  }

  lemma ReserveKeepsOrders(db: Db, i: IntentId, lifecycle: State)
    requires i in db.intents
    requires var r := db.intents[i].reservation;
             r.Some? ==> if TerminalWithoutFill(lifecycle) then Settleable(db, r.value) else r.value in db.reservations
    ensures Reserve(db, i, lifecycle).orders == db.orders
  {
  }

  lemma RecordedOrders(db: Db, i: IntentId, ack: Acknowledgement)
    requires Recordable(db, i, ack)
    ensures Recorded(db, i, ack).orders == db.orders[OrderKeyOf(db.intents[i]) := OrderOf(i, db.intents[i], ack)]
  {
    var noted := Acknowledged(db, i, ack);
    assert noted.orders == db.orders[OrderKeyOf(db.intents[i]) := OrderOf(i, db.intents[i], ack)];
    ReserveKeepsOrders(noted, i, StateForBrokerStatus(db.intents[i].reviewType, ack.status.value));
  }

  lemma RecordedReservations(db: Db, i: IntentId, ack: Acknowledgement) returns (row: Reservation)
    requires Recordable(db, i, ack) && db.intents[i].reservation.Some?
    ensures var r := db.intents[i].reservation.value;
            && r in db.reservations && row.key == db.reservations[r].key && row.symbol == db.reservations[r].symbol
            && !row.status.Active? && Recorded(db, i, ack).reservations == db.reservations[r := row]
  {
    var lifecycle := StateForBrokerStatus(db.intents[i].reviewType, ack.status.value);
    var noted := Acknowledged(db, i, ack);
    assert Recorded(db, i, ack).reservations == Reserve(noted, i, lifecycle).reservations;
    row := Reserve(noted, i, lifecycle).reservations[db.intents[i].reservation.value];
  }

  lemma OrderOpens(db: Db, i: IntentId, ack: Acknowledgement)
    requires Recordable(db, i, ack) && OrderKeyOf(db.intents[i]) !in db.orders
    ensures var a := db.intents[i].account;
            Total(Recorded(db, i, ack).orders, OpenWeight(a))
            == Total(db.orders, OpenWeight(a)) + OpenValue(OrderOf(i, db.intents[i], ack))
  {
    RecordedOrders(db, i, ack);
    TotalInsert(db.orders, OpenWeight(db.intents[i].account), OrderKeyOf(db.intents[i]),
                OrderOf(i, db.intents[i], ack));
  }

  lemma ReservationLeaves(db: Db, i: IntentId, ack: Acknowledgement, now: Time)
    requires LedgerSound(db) && Recordable(db, i, ack) && db.intents[i].reservation.Some?
    ensures db.intents[i].reservation.value in db.reservations
    ensures var a := db.intents[i].account;
            Total(Recorded(db, i, ack).reservations, ActiveWeight(a, now))
            == Total(db.reservations, ActiveWeight(a, now))
               - Counted(db.reservations[db.intents[i].reservation.value], now)
  {
    assert LinkedRow(i, db.intents[i], db.reservations);
    var row := RecordedReservations(db, i, ack);
    TotalUpdate(db.reservations, ActiveWeight(db.intents[i].account, now), db.intents[i].reservation.value, row);
  }

  /** The exact handover: the sums lose what the reservation counted and gain what the open order counts. */
  lemma HandoverIsExact(db: Db, call: Call, i: IntentId, ack: Acknowledgement, now: Time)
    requires LedgerSound(db) && i in db.intents && db.intents[i].reservation.Some?
    requires RecordSubmission(db, call, i, ack).Commit?
    ensures db.intents[i].reservation.value in db.reservations
    ensures var after, intent := RecordSubmission(db, call, i, ack).db, db.intents[i];
            var counted, open := Counted(db.reservations[intent.reservation.value], now),
                                 OpenValue(OrderOf(i, intent, ack));
            && Total(after.reservations, ActiveWeight(intent.account, now))
               == Total(db.reservations, ActiveWeight(intent.account, now)) - counted
            && Total(after.orders, OpenWeight(intent.account)) == Total(db.orders, OpenWeight(intent.account)) + open
  {
    OrderOpens(db, i, ack);
    ReservationLeaves(db, i, ack, now);
  }

  ghost function Exposure(db: Db, a: AccountId, now: Time): Money {
    Total(db.reservations, ActiveWeight(a, now)) + Total(db.orders, OpenWeight(a))
  }

  /** Reservations plus open orders stay constant exactly when the order opens at the size still reserved. */
  lemma HandoverConstantIff(db: Db, call: Call, i: IntentId, ack: Acknowledgement, now: Time)
    requires LedgerSound(db) && i in db.intents && db.intents[i].reservation.Some?
    requires RecordSubmission(db, call, i, ack).Commit?
    ensures var after, intent := RecordSubmission(db, call, i, ack).db, db.intents[i];
            intent.reservation.value in db.reservations
            && (Exposure(after, intent.account, now) == Exposure(db, intent.account, now)
                <==> OpenValue(OrderOf(i, intent, ack)) == Counted(db.reservations[intent.reservation.value], now))
  {
    HandoverIsExact(db, call, i, ack, now);
  }

  /** A market order by quantity counts nothing while open: its handover frees the whole reservation. */
  lemma MarketOrderFreesCapacity(db: Db, call: Call, i: IntentId, ack: Acknowledgement, now: Time)
    requires LedgerSound(db) && i in db.intents && db.intents[i].reservation.Some?
    requires RecordSubmission(db, call, i, ack).Commit? && ack.status.value.StatusAccepted?
    requires ack.notional.None? && ack.limitPrice.None?
    requires db.intents[i].reservation.value in db.reservations ==>
               db.reservations[db.intents[i].reservation.value].expiresAt > now
    ensures var a := db.intents[i].account;
            Exposure(RecordSubmission(db, call, i, ack).db, a, now) < Exposure(db, a, now)
  {
    HandoverIsExact(db, call, i, ack, now);
    ReservationWasActive(db, call, i, ack);
  }

  lemma ReservationWasActive(db: Db, call: Call, i: IntentId, ack: Acknowledgement)
    requires LedgerSound(db) && i in db.intents && db.intents[i].reservation.Some?
    requires RecordSubmission(db, call, i, ack).Commit? && ack.status.value.StatusAccepted?
    ensures db.intents[i].reservation.value in db.reservations
    ensures db.reservations[db.intents[i].reservation.value].status.Active?
    ensures db.reservations[db.intents[i].reservation.value].amount > 0.0
  {
  }
}
