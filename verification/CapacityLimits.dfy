/**
 The capacity limits as inequalities over the rows. A committed promotion and a committed claim keep all of
 them, and a promotion is blocked exactly when its amount would break one.
 */
module CapacityLimits {
  import opened Options
  import opened MapSums
  import opened TradeLifecycle
  import opened Tables
  import opened Ledger
  import opened Conservation
  import opened Capacity

  // ------------------------------------------------------------------------------ the rows that count

  /** The reservations an account holds at a moment: active and not past their time. */
  function LiveReservations(reservations: Reservations, a: AccountId, now: Time): Reservations {
    map r | r in reservations && reservations[r].key.account == a && reservations[r].status == Active
            && now < reservations[r].expiresAt :: reservations[r]
  }

  /** An order the broker is done with, or whose status the service does not know. */
  predicate OffTheBook(status: BrokerStatus) {
    status.StatusFilled? || status.StatusCanceled? || status.StatusRejected? || status.StatusExpired?
    || status.StatusOther?
  }

  function OpenOrders(orders: map<OrderKey, Order>, a: AccountId): map<OrderKey, Order> {
    map k | k in orders && orders[k].account == a && !OffTheBook(orders[k].status) :: orders[k]
  }

  function Amount(): Reservation -> Money {
    (r: Reservation) => r.amount
  }

  /** An order's notional where it has one; else its limit price for the quantity, options a hundred to the contract. */
  function Size(): Order -> Money {
    (o: Order) =>
      match o.notional
      case Some(notional) => notional
      case None =>
        match (o.quantity, o.limitPrice)
        case (Some(quantity), Some(price)) => if o.option then quantity * price * 100.0 else quantity * price
        case _ => 0.0
  }

  ghost function Reserved(db: Db, a: AccountId, now: Time): Money {
    Total(LiveReservations(db.reservations, a, now), Amount())
  }

  ghost function ReservedFor(db: Db, a: AccountId, symbol: Symbol, now: Time): Money {
    var live := LiveReservations(db.reservations, a, now);
    Total(map r | r in live && live[r].symbol == symbol :: live[r], Amount())
  }

  ghost function Open(db: Db, a: AccountId): Money {
    Total(OpenOrders(db.orders, a), Size())
  }

  ghost function OpenFor(db: Db, a: AccountId, symbol: Symbol): Money {
    var open := OpenOrders(db.orders, a);
    Total(map k | k in open && open[k].symbol == symbol :: open[k], Size())
  }

  // -------------------------------------------------------------------------------------- the limits

  predicate UpTo(value: Money, limit: Option<Money>) {
    limit.Some? ==> value <= limit.value
  }

  predicate UpToShare(value: Money, ratio: Option<real>, equity: Money) {
    ratio.Some? ==> value <= equity * ratio.value
  }

  predicate Below(count: int, limit: Option<int>) {
    limit.Some? ==> count < limit.value
  }

  /** A cash reserve that is not set is no reserve. */
  function Kept(reserve: Option<real>): real {
    match reserve
    case Some(kept) => kept
    case None => 0.0
  }

  function HeldIn(book: Book, symbol: Symbol): Money {
    if symbol in book.symbolPositions then book.symbolPositions[symbol] else 0.0
  }

  /** What is committed leaves the buying power both cash reserves. */
  predicate CashKept(book: Book, limits: Limits, committed: Money) {
    && committed + Kept(limits.cashReserveAmount) <= book.buyingPower
    && committed + book.equity * Kept(limits.cashReserveRatio) <= book.buyingPower
  }

  /** Positions and what is committed keep both deployment limits. */
  predicate DeploymentKept(book: Book, limits: Limits, committed: Money) {
    && UpTo(book.positionTotal + committed, limits.maxDeploymentAmount)
    && UpToShare(book.positionTotal + committed, limits.maxDeploymentRatio, book.equity)
  }

  /** What a strategy has deployed and reserved keeps its allocation's amount and ratio. */
  predicate AllocationKept(allocation: Allocation, equity: Money, extra: Money) {
    && UpTo(allocation.deployed + allocation.reserved + extra, allocation.amount)
    && UpToShare(allocation.deployed + allocation.reserved + extra, allocation.ratio, equity)
  }

  /** Fewer positions and fewer open orders than the account may have. */
  predicate CountsKept(book: Book, limits: Limits, openOrders: int) {
    Below(book.positionCount, limits.maxPositionCount) && Below(openOrders, limits.maxOrderCount)
  }

  /** Every limit of the account, the strategy and the symbol, with `extra` still to be reserved. */
  ghost predicate WithinLimits(db: Db, k: AllocationKey, symbol: Symbol, now: Time, extra: Money) {
    && k in db.allocations && k.account in db.books && db.books[k.account].limits.Some?
    && var a, book, limits := k.account, db.books[k.account], db.books[k.account].limits.value;
    && CashKept(book, limits, Reserved(db, a, now) + Open(db, a) + extra)
    && DeploymentKept(book, limits, Reserved(db, a, now) + Open(db, a) + extra)
    && AllocationKept(db.allocations[k], book.equity, extra)
    && UpTo(HeldIn(book, symbol) + OpenFor(db, a, symbol) + ReservedFor(db, a, symbol, now) + extra,
              limits.maxSymbolNotional)
    && CountsKept(book, limits, |OpenOrders(db.orders, a).Keys|)
  }

  // ------------------------------------------------------------------------ the sums of the query

  lemma ReservedIsSum(db: Db, a: AccountId, symbol: Symbol, now: Time)
    ensures UsageOf(db, a, symbol, now).reserved == Reserved(db, a, now)
    ensures UsageOf(db, a, symbol, now).symbolReserved == ReservedFor(db, a, symbol, now)
  {
    var live := LiveReservations(db.reservations, a, now);
    TotalWhere(db.reservations, ActiveWeight(a, now), live, Amount());
    var ofSymbol := map r | r in live && live[r].symbol == symbol :: live[r];
    TotalWhere(db.reservations, ActiveSymbolWeight(a, symbol, now), ofSymbol, Amount());
  }

  lemma OrderCounts(o: Order)
    ensures OpenValue(o) == if OffTheBook(o.status) then 0.0 else Size()(o)
    ensures IsOpen(o.status) <==> !OffTheBook(o.status)
  {
  }

  lemma OpenIsSum(db: Db, a: AccountId, symbol: Symbol, now: Time)
    ensures UsageOf(db, a, symbol, now).open == Open(db, a)
    ensures UsageOf(db, a, symbol, now).symbolOpen == OpenFor(db, a, symbol)
    ensures UsageOf(db, a, symbol, now).openCount == |OpenOrders(db.orders, a).Keys|
  {
    forall k | k in db.orders
      ensures OpenValue(db.orders[k]) == if OffTheBook(db.orders[k].status) then 0.0 else Size()(db.orders[k])
      ensures IsOpen(db.orders[k].status) <==> !OffTheBook(db.orders[k].status)
    {
      OrderCounts(db.orders[k]);
    }
    var open := OpenOrders(db.orders, a);
    TotalWhere(db.orders, OpenWeight(a), open, Size());
    var ofSymbol := map k | k in open && open[k].symbol == symbol :: open[k];
    TotalWhere(db.orders, OpenSymbolWeight(a, symbol), ofSymbol, Size());
    assert (set k | k in db.orders && db.orders[k].account == a && IsOpen(db.orders[k].status)) == open.Keys;
  }

  lemma CashAgrees(book: Book, limits: Limits, reserved: Money, open: Money, extra: Money)
    ensures book.buyingPower - reserved - open - CashReserve(book.equity, limits) >= extra
       <==> CashKept(book, limits, reserved + open + extra)
  {
    assert OrZero(limits.cashReserveAmount) == Kept(limits.cashReserveAmount);
    assert OrZero(limits.cashReserveRatio) == Kept(limits.cashReserveRatio);
  }

  lemma DeploymentAgrees(book: Book, limits: Limits, reserved: Money, open: Money, extra: Money)
    ensures var deployed := book.positionTotal + open + reserved + extra;
            && Within(limits.maxDeploymentAmount, deployed)
            && WithinRatio(limits.maxDeploymentRatio, book.equity, deployed)
            <==> DeploymentKept(book, limits, reserved + open + extra)
  {
    assert book.positionTotal + open + reserved + extra == book.positionTotal + (reserved + open + extra);
  }

  /** The check, limit by limit. */
  lemma CheckAgrees(book: Book, allocation: Allocation, symbol: Symbol, usage: Usage, extra: Money)
    ensures CapacityAllows(book, allocation, symbol, usage, extra)
       <==> && book.limits.Some?
            && var limits := book.limits.value;
            && CashKept(book, limits, usage.reserved + usage.open + extra)
            && DeploymentKept(book, limits, usage.reserved + usage.open + extra)
            && AllocationKept(allocation, book.equity, extra)
            && UpTo(HeldIn(book, symbol) + usage.symbolOpen + usage.symbolReserved + extra, limits.maxSymbolNotional)
            && CountsKept(book, limits, usage.openCount)
  {
    if book.limits.Some? {
      CashAgrees(book, book.limits.value, usage.reserved, usage.open, extra);
      DeploymentAgrees(book, book.limits.value, usage.reserved, usage.open, extra);
    }
  }

  /** The check, an SQL expression over the sums, says exactly that all limits are kept. */
  lemma CheckIsLimits(db: Db, k: AllocationKey, symbol: Symbol, now: Time, extra: Money)
    requires k in db.allocations && k.account in db.books
    ensures CapacityAllows(db.books[k.account], db.allocations[k], symbol, UsageOf(db, k.account, symbol, now), extra)
       <==> WithinLimits(db, k, symbol, now, extra)
  {
    ReservedIsSum(db, k.account, symbol, now);
    OpenIsSum(db, k.account, symbol, now);
    CheckAgrees(db.books[k.account], db.allocations[k], symbol, UsageOf(db, k.account, symbol, now), extra);
  }

  // ------------------------------------------------------------------------------------ transactions

  /** After a committed promotion of an entry every limit is kept, its own amount included. */
  lemma PromotionWithinLimits(db: Db, call: Call, command: Command, i: IntentId)
    requires Promote(db, call, command, i).Commit? && db.intents[i].reviewType.Entry?
    ensures var intent, after := db.intents[i], Promote(db, call, command, i).db;
            WithinLimits(after, KeyOf(intent), intent.terms.symbol, call.now, 0.0)
  {
    var intent, after := db.intents[i], Promote(db, call, command, i).db;
    AdmittedAtOnce(db, call, command, i, KeyOf(intent), intent.terms.symbol);
    CheckIsLimits(after, KeyOf(intent), intent.terms.symbol, call.now, 0.0);
  }

  /** An entry with a positive risk that the promotion may take is blocked exactly when its amount breaks a limit. */
  lemma BlockedIffOverLimits(db: Db, call: Call, command: Command, i: IntentId)
    requires Promotable(db, call, command, i) && db.intents[i].reviewType.Entry? && PositiveRisk(db.intents[i])
    ensures var intent := db.intents[i];
            Promote(db, call, command, i) == Abort(CapacityBlocked)
            <==> !WithinLimits(db, KeyOf(intent), intent.terms.symbol, call.now, intent.maxRisk.value)
  {
    var intent := db.intents[i];
    CheckIsLimits(db, KeyOf(intent), intent.terms.symbol, call.now, intent.maxRisk.value);
  }

  /** Nothing else blocks. */
  lemma BlockedIsOverLimits(db: Db, call: Call, command: Command, i: IntentId)
    requires Promote(db, call, command, i) == Abort(CapacityBlocked)
    ensures i in db.intents && db.intents[i].reviewType.Entry? && db.intents[i].maxRisk.Some?
    ensures var intent := db.intents[i];
            !WithinLimits(db, KeyOf(intent), intent.terms.symbol, call.now, intent.maxRisk.value)
  {
    BlockedIffOverLimits(db, call, command, i);
  }

  /** A committed claim of an intent that holds a reservation keeps every limit. */
  lemma ClaimWithinLimits(db: Db, call: Call, command: Command, i: IntentId)
    requires Claim(db, call, command, i).Commit? && db.intents[i].reservation.Some?
    ensures var intent, after := db.intents[i], Claim(db, call, command, i).db;
            && WithinLimits(db, KeyOf(intent), intent.terms.symbol, call.now, 0.0)
            && WithinLimits(after, KeyOf(intent), intent.terms.symbol, call.now, 0.0)
  {
    var intent := db.intents[i];
    CheckIsLimits(db, KeyOf(intent), intent.terms.symbol, call.now, 0.0);
    SameRowsSameLimits(db, Claim(db, call, command, i).db, KeyOf(intent), intent.terms.symbol, call.now, 0.0);
  }

  lemma SameRowsSameLimits(db: Db, after: Db, k: AllocationKey, symbol: Symbol, now: Time, extra: Money)
    requires after.reservations == db.reservations && after.orders == db.orders && after.allocations == db.allocations
    requires after.books == db.books && WithinLimits(db, k, symbol, now, extra)
    ensures WithinLimits(after, k, symbol, now, extra)
  {
  }
}
