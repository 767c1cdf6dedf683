/**
 A whole recovery: the stale ready intents one by one with the broker's answers, then the bulk
 statements. In a sound ledger only a failing broker lookup stops it, it settles everything stale, and
 running it again at the same moment changes nothing.
 */
module RecoveryRun {
  import opened Options
  import opened Sequences
  import opened MapSums
  import opened TradeLifecycle
  import opened Tables
  import opened Ledger
  import opened Recovery
  import opened Conservation
  import opened BulkExpiry
  import opened ExecutionStore

  /** What the broker answers for a stale intent's client order id. */
  datatype Lookup = FoundAtBroker | AbsentAtBroker | LookupBroken | IdentityMismatched

  /** The tables and counters after some rows; a failure ends the run where it stands. */
  datatype Progress = Progress(db: Db, cancelled: nat, preserved: nat, released: nat, failure: Option<RecoveryFailure>)

  function Start(db: Db): Progress {
    Progress(db, 0, 0, 0, None)
  }

  function PreserveRow(p: Progress, call: Call, i: IntentId): Progress {
    var kept := i in p.db.intents && p.db.intents[i].status.Ready? && FenceHeld(p.db.leases, call);
    p.(db := PreserveStale(p.db, call, i), preserved := p.preserved + if kept then 1 else 0)
  }

  function CancelRow(p: Progress, call: Call, i: IntentId): Progress {
    var statement := CancelStale(p.db, call, i);
    if statement.failure.Some? then p.(db := statement.db, failure := statement.failure)
    else if !Cancellable(p.db, call, i) then p.(db := statement.db)
    else p.(db := statement.db, cancelled := p.cancelled + 1,
         released := p.released + if LockedReservation(p.db, i).Some? then 1 else 0)
  }

  function RecoverRow(p: Progress, call: Call, i: IntentId, lookup: Lookup): Progress {
    match lookup
    case FoundAtBroker => PreserveRow(p, call, i)
    case AbsentAtBroker => CancelRow(p, call, i)
    case LookupBroken => p.(failure := Some(BrokerLookupFailed))
    case IdentityMismatched => p.(failure := Some(BrokerIdentityMismatch))
  }

  /** The rows selected at the start, the first one first. */
  function RecoverRows(p: Progress, call: Call, rows: seq<IntentId>, lookups: IntentId -> Lookup): Progress
    decreases |rows|
  {
    if p.failure.Some? || rows == [] then p
    else RecoverRows(RecoverRow(p, call, rows[0], lookups(rows[0])), call, rows[1..], lookups)
  }

  function StaleRows(db: Db, call: Call): set<IntentId> {
    set i | i in db.intents && StaleReady(db, call, i)
  }

  lemma RowsSplit(p: Progress, call: Call, done: seq<IntentId>, i: IntentId, lookups: IntentId -> Lookup)
    ensures var before := RecoverRows(p, call, done, lookups);
            RecoverRows(p, call, done + [i], lookups)
            == if before.failure.Some? then before else RecoverRow(before, call, i, lookups(i))
    decreases |done|
  {
    if p.failure.None? && done != [] {
      RowsSplit(RecoverRow(p, call, done[0], lookups(done[0])), call, done[1..], i, lookups);
      assert (done + [i])[1..] == done[1..] + [i];
    } else if p.failure.None? {
      assert ([i])[1..] == [];
      assert done + [i] == [i];
    }
  }

  lemma RowsStop(p: Progress, call: Call, done: seq<IntentId>, more: seq<IntentId>, lookups: IntentId -> Lookup)
    requires RecoverRows(p, call, done, lookups).failure.Some?
    ensures RecoverRows(p, call, done + more, lookups) == RecoverRows(p, call, done, lookups)
    decreases |done|
  {
    if p.failure.None? && done != [] {
      RowsStop(RecoverRow(p, call, done[0], lookups(done[0])), call, done[1..], more, lookups);
      assert (done + more)[1..] == done[1..] + more;
    }
  }

  method Enumerated(s: set<IntentId>) returns (rows: seq<IntentId>)
    ensures Elements(rows) == s && Distinct(rows)
  {
    rows := [];
    var rest := s;
    while rest != {}
      invariant forall i :: i in rows <==> i in s && i !in rest
      invariant rest <= s && Distinct(rows)
      decreases |rest|
    {
      var i :| i in rest;
      assert i !in rows;
      rows, rest := rows + [i], rest - {i};
    }
  }

  /** The broker knows the order: the intent is kept, as ambiguous. */
  method PreserveIntent(store: Store, call: Call, i: IntentId) returns (preserved: nat)
    modifies store
    ensures store.Snapshot() == PreserveStale(old(store.Snapshot()), call, i)
    ensures preserved == (if i in old(store.intents) && old(store.intents)[i].status.Ready?
                             && FenceHeld(old(store.leases), call) then 1 else 0)
  {
    preserved := 0;
    if i in store.intents && store.intents[i].status.Ready? && FenceHeld(store.leases, call) {
      store.intents := store.intents[i := store.intents[i].(status := Ambiguous)];
      preserved := 1;
    }
  }

  /** The broker does not know the order: lock, compare, cancel, insert the terminal row, release, adjust. */
  method CancelIntent(store: Store, call: Call, i: IntentId)
    returns (failure: Option<RecoveryFailure>, cancelled: nat, released: nat)
    modifies store
    ensures Statement(store.Snapshot(), failure) == CancelStale(old(store.Snapshot()), call, i)
    ensures cancelled == (if failure.None? && Cancellable(old(store.Snapshot()), call, i) then 1 else 0)
    ensures released == (if cancelled == 1 && LockedReservation(old(store.Snapshot()), i).Some? then 1 else 0)
  {
    cancelled, released := 0, 0;
    var locked := LockedReservation(store.Snapshot(), i);
    if locked.Some? && !Covered(store.Snapshot(), locked.value) {
      return Some(StaleReadyMismatch), 0, 0;
    }
    if !Cancellable(store.Snapshot(), call, i) {
      return None, 0, 0;
    }
    store.intents := store.intents[i := store.intents[i].(status := IntentCancelled)];
    if locked.Some? {
      var r := locked.value;
      if r in store.transitions {
        return Some(StaleReadyReleaseFailed), 0, 0;
      }
      var row := store.reservations[r];
      store.transitions := store.transitions[r := Transition(Some(i), Cancelled)];
      store.reservations := store.reservations[r := row.(status := Released)];
      store.allocations := store.allocations[row.key :=
      store.allocations[row.key].(reserved := store.allocations[row.key].reserved - row.amount)];
      released := 1;
    }
    return None, 1, released;
  }

  /** One row's lookup and the statement it leads to. */
  method RecoverIntent(store: Store, call: Call, i: IntentId, lookup: Lookup, before: Progress)
    returns (after: Progress)
    requires before.db == store.Snapshot()
    modifies store
    ensures after == RecoverRow(before, call, i, lookup) && store.Snapshot() == after.db
  {
    match lookup {
      case LookupBroken => after := before.(failure := Some(BrokerLookupFailed));
      case IdentityMismatched => after := before.(failure := Some(BrokerIdentityMismatch));
      case FoundAtBroker =>
        var preserved := PreserveIntent(store, call, i);
        after := before.(db := store.Snapshot(), preserved := before.preserved + preserved);
      case AbsentAtBroker =>
        var failure, cancelled, released := CancelIntent(store, call, i);
        after := before.(db := store.Snapshot(), cancelled := before.cancelled + cancelled,
        released := before.released + released);
        if failure.Some? {
          after := after.(failure := failure);
        }
    }
  }

  /** The loop over the stale ready rows. */
  method RecoverStaleReady(store: Store, call: Call, lookups: IntentId -> Lookup)
    returns (rows: seq<IntentId>, progress: Progress)
    modifies store
    ensures Elements(rows) == StaleRows(old(store.Snapshot()), call)
    ensures Distinct(rows)
    ensures progress == RecoverRows(Start(old(store.Snapshot())), call, rows, lookups)
    ensures store.Snapshot() == progress.db
  {
    ghost var start := Start(store.Snapshot());
    rows := Enumerated(StaleRows(store.Snapshot(), call));
    progress := Start(store.Snapshot());
    var n := 0;
    while n < |rows|
      invariant 0 <= n <= |rows| && progress.db == store.Snapshot() && progress.failure.None?
      invariant progress == RecoverRows(start, call, rows[..n], lookups)
    {
      RowsSplit(start, call, rows[..n], rows[n], lookups);
      assert rows[..n + 1] == rows[..n] + [rows[n]];
      progress := RecoverIntent(store, call, rows[n], lookups(rows[n]), progress);
      n := n + 1;
      if progress.failure.Some? {
        RowsStop(start, call, rows[..n], rows[n..], lookups);
        assert rows == rows[..n] + rows[n..];
        return;
      }
    }
    assert rows[..n] == rows;
  }

  // ---------------------------------------------------------------------------- the bulk statement

  lemma GroupSumNone(reservations: Reservations, rs: set<ReservationId>, k: AllocationKey)
    requires forall r :: r in rs && r in reservations ==> reservations[r].key != k
    ensures GroupSum(reservations, rs, k) == 0.0
  {
    TotalZero(Restrict(reservations, rs), AmountUnder(k));
  }

  /** One sum for each allocation some row is under. */
  ghost predicate SumsOf(sums: map<AllocationKey, Money>, reservations: Reservations, rs: set<ReservationId>)
    requires rs <= reservations.Keys
  {
    && (forall k :: k in sums <==> exists r :: r in rs && reservations[r].key == k)
    && (forall k :: k in sums ==> sums[k] == GroupSum(reservations, rs, k))
  }

  function WithAmount(sums: map<AllocationKey, Money>, key: AllocationKey, amount: Money): map<AllocationKey, Money> {
    sums[key := (if key in sums then sums[key] else 0.0) + amount]
  }

  lemma SumsAdd(sums: map<AllocationKey, Money>, reservations: Reservations, rs: set<ReservationId>, r: ReservationId)
    requires rs <= reservations.Keys && SumsOf(sums, reservations, rs) && r in reservations && r !in rs
    ensures SumsOf(WithAmount(sums, reservations[r].key, reservations[r].amount), reservations, rs + {r})
  {
    var key := reservations[r].key;
    var after := WithAmount(sums, key, reservations[r].amount);
    if key !in sums {
      GroupSumNone(reservations, rs, key);
    }
    forall k | k in after
      ensures after[k] == GroupSum(reservations, rs + {r}, k)
    {
      GroupSumAdds(reservations, rs, r, k);
    }
    forall k
      ensures k in after <==> exists q :: q in rs + {r} && reservations[q].key == k
    {
      if k == key {
        assert r in rs + {r};
      } else if k in sums {
        var q :| q in rs && reservations[q].key == k;
        assert q in rs + {r};
      }
    }
  }

  /** GROUP BY allocation. */
  method GroupedAmounts(reservations: Reservations, rs: set<ReservationId>) returns (sums: map<AllocationKey, Money>)
    requires rs <= reservations.Keys
    ensures SumsOf(sums, reservations, rs)
  {
    sums := map[];
    var rest := rs;
    ghost var done := {};
    while rest != {}
      invariant done !! rest && done + rest == rs && SumsOf(sums, reservations, done)
      decreases |rest|
    {
      var r :| r in rest;
      SumsAdd(sums, reservations, done, r);
      sums := WithAmount(sums, reservations[r].key, reservations[r].amount);
      done, rest := done + {r}, rest - {r};
    }
    assert done == rs;
  }

  function DebitedBy(allocations: Allocations, totals: map<AllocationKey, Money>): Allocations {
    map k | k in allocations ::
      if k in totals then allocations[k].(reserved := allocations[k].reserved - totals[k]) else allocations[k]
  }

  lemma DebitedByGroups(allocations: Allocations, reservations: Reservations, rs: set<ReservationId>,
                        totals: map<AllocationKey, Money>)
    requires rs <= reservations.Keys && SumsOf(totals, reservations, rs)
    ensures DebitedBy(allocations, totals) == Debited(allocations, reservations, rs)
  {
    forall k | k in allocations
      ensures DebitedBy(allocations, totals)[k] == Debited(allocations, reservations, rs)[k]
    {
      if k !in totals {
        GroupSumNone(reservations, rs, k);
      }
    }
    assert DebitedBy(allocations, totals) == Debited(allocations, reservations, rs);
  }

  /** The bulk expiry: lock, group, compare, insert the terminal rows, debit, expire. */
  method ExpireReservations(store: Store, call: Call) returns (failure: Option<RecoveryFailure>)
    modifies store
    ensures Statement(store.Snapshot(), failure) == BulkExpire(old(store.Snapshot()), call)
  {
    var db := store.Snapshot();
    var locked := Expirable(db, call);
    var sums := GroupedAmounts(db.reservations, locked);
    var covered := forall k :: k in sums ==> k in db.allocations && db.allocations[k].reserved >= sums[k];
    GroupsCoveredBy(db, locked, sums, covered);
    if !covered {
      return Some(ReservationMismatch);
    }
    var unsettled := locked - db.transitions.Keys;
    ExpireSettled(store, unsettled);
    failure := if unsettled == locked then None else Some(TerminalTransitionFailed);
  }

  method ExpireSettled(store: Store, rs: set<ReservationId>)
    requires rs <= store.reservations.Keys
    modifies store
    ensures store.Snapshot() == ExpiredTogether(old(store.Snapshot()), rs)
  {
    var db := store.Snapshot();
    var totals := GroupedAmounts(db.reservations, rs);
    DebitedByGroups(db.allocations, db.reservations, rs, totals);
    store.transitions := Terminated(db, rs);
    store.allocations := DebitedBy(store.allocations, totals);
    store.reservations := Expiring(store.reservations, rs);
  }

  lemma GroupsCoveredBy(db: Db, rs: set<ReservationId>, sums: map<AllocationKey, Money>, covered: bool)
    requires rs <= db.reservations.Keys && SumsOf(sums, db.reservations, rs)
    requires covered == forall k :: k in sums ==> k in db.allocations && db.allocations[k].reserved >= sums[k]
    ensures covered == GroupsCovered(db, rs)
  {
    if covered {
      forall r | r in rs
        ensures GroupCovered(db, rs, db.reservations[r].key)
      {
      }
    }
    if GroupsCovered(db, rs) {
      forall k | k in sums
        ensures k in db.allocations && db.allocations[k].reserved >= sums[k]
      {
        var r :| r in rs && db.reservations[r].key == k;
        assert GroupCovered(db, rs, db.reservations[r].key);
      }
    }
  }

  /** Everything after the stale ready rows. */
  ghost function FinishRecovery(db: Db, call: Call): Statement {
    var expired := BulkExpire(db, call);
    if expired.failure.Some? then expired
    else Statement(CancelStaleCreated(ExpireConfirmations(ExpireReviews(expired.db, call), call), call), None)
  }

  method ExpireOldReviews(store: Store, call: Call)
    modifies store
    ensures store.Snapshot() == ExpireReviews(old(store.Snapshot()), call)
  {
    if FenceHeld(store.leases, call) {
      store.reviews := map v | v in store.reviews ::
        var row := store.reviews[v];
        if (row.status.ReviewValid? || row.status.ReviewCreatedOnly?) && row.expiresAt <= call.now
        then row.(status := ReviewExpired) else row;
    }
  }

  method ExpireOldConfirmations(store: Store, call: Call)
    modifies store
    ensures store.Snapshot() == ExpireConfirmations(old(store.Snapshot()), call)
  {
    if FenceHeld(store.leases, call) {
      store.confirmations := map c | c in store.confirmations ::
        var row := store.confirmations[c];
        if row.status.ConfirmationValid? && row.expiresAt <= call.now then row.(status := ConfirmationExpired) else row;
    }
  }

  method CancelCreatedIntents(store: Store, call: Call)
    modifies store
    ensures store.Snapshot() == CancelStaleCreated(old(store.Snapshot()), call)
  {
    var db := store.Snapshot();
    store.intents := map i | i in store.intents ::
      if StaleCreated(db, call, i) then store.intents[i].(status := IntentCancelled) else store.intents[i];
  }

  method RunRecovery(store: Store, call: Call, lookups: IntentId -> Lookup)
    returns (rows: seq<IntentId>, progress: Progress, failure: Option<RecoveryFailure>)
    modifies store
    ensures Elements(rows) == StaleRows(old(store.Snapshot()), call)
    ensures Distinct(rows)
    ensures progress == RecoverRows(Start(old(store.Snapshot())), call, rows, lookups)
    ensures progress.failure.Some? ==> failure == progress.failure && store.Snapshot() == progress.db
    ensures progress.failure.None? ==> Statement(store.Snapshot(), failure) == FinishRecovery(progress.db, call)
  {
    rows, progress := RecoverStaleReady(store, call, lookups);
    failure := progress.failure;
    if failure.Some? {
      return;
    }
    failure := ExpireReservations(store, call);
    if failure.Some? {
      return;
    }
    ExpireOldReviews(store, call);
    ExpireOldConfirmations(store, call);
    CancelCreatedIntents(store, call);
  }

  // ------------------------------------------------------------------- what a whole recovery achieves

  predicate Answered(rows: seq<IntentId>, lookups: IntentId -> Lookup) {
    forall n :: 0 <= n < |rows| ==> lookups(rows[n]).FoundAtBroker? || lookups(rows[n]).AbsentAtBroker?
  }

  predicate Resolved(db: Db, i: IntentId, lookup: Lookup) {
    && i in db.intents
    && (lookup.AbsentAtBroker? ==> db.intents[i].status.IntentCancelled?)
    && (lookup.FoundAtBroker? ==> db.intents[i].status.Ambiguous?)
  }

  /** Only the row's own intent changes. */
  lemma RowWrites(p: Progress, call: Call, i: IntentId, lookup: Lookup)
    requires LedgerSound(p.db) && Cancellable(p.db, call, i) && (lookup.FoundAtBroker? || lookup.AbsentAtBroker?)
             && p.failure.None?
    ensures var q := RecoverRow(p, call, i, lookup);
            && q.failure.None? && LedgerSound(q.db) && Resolved(q.db, i, lookup)
            && q.cancelled == p.cancelled + (if lookup.AbsentAtBroker? then 1 else 0)
            && q.preserved == p.preserved + (if lookup.FoundAtBroker? then 1 else 0)
            && q.db.intents == p.db.intents[i := q.db.intents[i]] && q.db.orders == p.db.orders
            && q.db.leases == p.db.leases
  {
    if lookup.AbsentAtBroker? {
      CancelStaleKeepsLedger(p.db, call, i);
      CancelWrites(p.db, call, i);
    } else {
      PreserveStaleKeepsLedger(p.db, call, i);
    }
  }

  lemma CancelWrites(db: Db, call: Call, i: IntentId)
    requires LedgerSound(db) && Cancellable(db, call, i)
    ensures var after := CancelStale(db, call, i).db;
            after.intents == CancelledIntent(db, i).intents && after.orders == db.orders && after.leases == db.leases
  {
    var locked := LockedReservation(db, i);
    if locked.Some? {
      HeldIsCovered(db, locked.value);
      SettleKeepsRest(CancelledIntent(db, i), locked.value, Released, Transition(Some(i), Cancelled));
    }
  }

  lemma SettleKeepsRest(db: Db, r: ReservationId, status: ReservationStatus, t: Transition)
    requires Settleable(db, r)
    ensures var after := Settle(db, r, status, t);
            after.intents == db.intents && after.orders == db.orders && after.leases == db.leases
  {
  }

  /** The rows' intents are resolved as the broker answered, and every other intent is as it was. */
  ghost predicate RowsResolved(before: Db, after: Db, rows: seq<IntentId>, lookups: IntentId -> Lookup) {
    && (forall n :: 0 <= n < |rows| ==> Resolved(after, rows[n], lookups(rows[n])))
    && after.intents.Keys == before.intents.Keys
    && (forall j :: j in before.intents && j !in rows ==> after.intents[j] == before.intents[j])
  }

  lemma AnotherResolved(before: Db, middle: Db, after: Db, i: IntentId, rest: seq<IntentId>,
                        lookups: IntentId -> Lookup)
    requires i in before.intents && i in middle.intents && middle.intents == before.intents[i := middle.intents[i]]
    requires Resolved(middle, i, lookups(i)) && i !in rest && RowsResolved(middle, after, rest, lookups)
    ensures RowsResolved(before, after, [i] + rest, lookups)
  {
    var rows := [i] + rest;
    assert after.intents[i] == middle.intents[i];
    forall n | 0 <= n < |rows|
      ensures Resolved(after, rows[n], lookups(rows[n]))
    {
      assert n > 0 ==> rows[n] == rest[n - 1];
    }
  }

  lemma StillCancellable(before: Db, after: Db, call: Call, rows: seq<IntentId>)
    requires rows != [] && Distinct(rows) && forall n :: 0 <= n < |rows| ==> Cancellable(before, call, rows[n])
    requires rows[0] in after.intents && after.intents == before.intents[rows[0] := after.intents[rows[0]]]
    requires after.orders == before.orders && after.leases == before.leases
    ensures rows[0] !in rows[1..] && Distinct(rows[1..])
    ensures forall n :: 0 <= n < |rows[1..]| ==> Cancellable(after, call, rows[1..][n])
  {
    var rest := rows[1..];
    forall n | 0 <= n < |rest|
      ensures Cancellable(after, call, rest[n])
    {
      assert Cancellable(before, call, rows[n + 1]) && rows[0] != rows[n + 1];
    }
  }

  /**
   With a broker that answers every lookup, the loop never fails in a sound ledger, counts every row
   exactly once, cancels exactly the rows the broker does not know and keeps the others as ambiguous.
   */
  lemma {:induction false} RowsResolve(p: Progress, call: Call, rows: seq<IntentId>, lookups: IntentId -> Lookup)
    requires LedgerSound(p.db) && p.failure.None? && Answered(rows, lookups) && Distinct(rows)
    requires forall n :: 0 <= n < |rows| ==> Cancellable(p.db, call, rows[n])
    ensures var q := RecoverRows(p, call, rows, lookups);
            && q.failure.None? && LedgerSound(q.db) && RowsResolved(p.db, q.db, rows, lookups)
            && q.cancelled + q.preserved == p.cancelled + p.preserved + |rows|
    decreases |rows|
  {
    if rows != [] {
      var i, rest := rows[0], rows[1..];
      var q := RecoverRow(p, call, i, lookups(i));
      RowWrites(p, call, i, lookups(i));
      StillCancellable(p.db, q.db, call, rows);
      RowsResolve(q, call, rest, lookups);
      assert rows == [i] + rest;
      AnotherResolved(p.db, q.db, RecoverRows(q, call, rest, lookups).db, i, rest, lookups);
    }
  }

  /** A recovered row changes no evidence and no reservation but its own. */
  predicate KeepsOthers(before: Db, after: Db, rows: seq<IntentId>) {
    && after.reviews == before.reviews && after.confirmations == before.confirmations && after.orders == before.orders
    && after.leases == before.leases
    && after.candidates == before.candidates && after.reservations.Keys == before.reservations.Keys
    && forall r :: r in before.reservations && r.intent !in rows ==> after.reservations[r] == before.reservations[r]
  }

  lemma SettleKeepsOthers(db: Db, r: ReservationId, status: ReservationStatus, t: Transition)
    requires Settleable(db, r)
    ensures KeepsOthers(db, Settle(db, r, status, t), [r.intent])
  {
  }

  lemma CancelKeepsOthers(db: Db, call: Call, i: IntentId)
    requires LedgerSound(db) && Cancellable(db, call, i)
    ensures KeepsOthers(db, CancelStale(db, call, i).db, [i])
  {
    var locked := LockedReservation(db, i);
    if locked.Some? {
      assert LinkedRow(i, db.intents[i], db.reservations);
      HeldIsCovered(db, locked.value);
      var cancelled, t := CancelledIntent(db, i), Transition(Some(i), Cancelled);
      SettleKeepsOthers(cancelled, locked.value, Released, t);
      assert CancelStale(db, call, i).db == Settle(cancelled, locked.value, Released, t);
    } else {
      assert CancelStale(db, call, i).db == CancelledIntent(db, i);
    }
  }

  lemma {:induction false} RowsKeepOthers(p: Progress, call: Call, rows: seq<IntentId>, lookups: IntentId -> Lookup)
    requires LedgerSound(p.db) && p.failure.None? && Answered(rows, lookups)
    requires Distinct(rows)
    requires forall n :: 0 <= n < |rows| ==> Cancellable(p.db, call, rows[n])
    ensures KeepsOthers(p.db, RecoverRows(p, call, rows, lookups).db, rows)
    decreases |rows|
  {
    if rows != [] {
      var i, rest := rows[0], rows[1..];
      var q := RecoverRow(p, call, i, lookups(i));
      RowWrites(p, call, i, lookups(i));
      if lookups(i).AbsentAtBroker? {
        CancelKeepsOthers(p.db, call, i);
      }
      assert KeepsOthers(p.db, q.db, [i]);
      StillCancellable(p.db, q.db, call, rows);
      RowsKeepOthers(q, call, rest, lookups);
      assert rows == [i] + rest;
    }
  }

  /** Nothing is left for a recovery at this moment to do. */
  ghost predicate Quiet(db: Db, call: Call) {
    && StaleRows(db, call) == {} && Expirable(db, call) == {}
    && ExpireReviews(db, call) == db && ExpireConfirmations(db, call) == db && CancelStaleCreated(db, call) == db
  }

  /** What the statements after the rows make of them. */
  ghost function Finished(db: Db, call: Call): Db {
    CancelStaleCreated(PastTimeExpired(db, call), call)
  }

  lemma FinishIsTotal(db: Db, call: Call)
    requires LedgerSound(db)
    ensures FinishRecovery(db, call) == Statement(Finished(db, call), None) && LedgerSound(Finished(db, call))
  {
    BulkExpireKeepsLedger(db, call);
    var expired := BulkExpire(db, call).db;
    assert LedgerSound(ExpireConfirmations(ExpireReviews(expired, call), call));
    CancelStaleCreatedKeepsLedger(ExpireConfirmations(ExpireReviews(expired, call), call), call);
  }

  predicate CreatedOnlyCancelled(before: Intents, after: Intents) {
    && after.Keys == before.Keys
    && forall i :: i in before ==>
                     after[i] == before[i] || (before[i].status.Created? && after[i].status.IntentCancelled?)
  }

  lemma CancelCreatedRows(db: Db, call: Call)
    ensures var after := CancelStaleCreated(db, call);
            && CreatedOnlyCancelled(db.intents, after.intents)
            && after.orders == db.orders && after.candidates == db.candidates && after.leases == db.leases
            && after.reservations == db.reservations && after.reviews == db.reviews
            && after.confirmations == db.confirmations
  {
  }

  /** The tables with everything past its time expired. */
  ghost function PastTimeExpired(db: Db, call: Call): Db {
    ExpireConfirmations(ExpireReviews(ExpiredTogether(db, Expirable(db, call)), call), call)
  }

  /** Reviews and confirmations expire whatever the rest of the tables. */
  lemma EvidenceExpires(db: Db, together: Db, call: Call)
    requires together.reviews == db.reviews && together.confirmations == db.confirmations
    requires together.leases == db.leases
    ensures var after := ExpireConfirmations(ExpireReviews(together, call), call);
            && after == together.(reviews := after.reviews, confirmations := after.confirmations)
            && after.reviews == ExpireReviews(db, call).reviews
            && after.confirmations == ExpireConfirmations(db, call).confirmations
  {
  }

  lemma ExpiredRows(db: Db, call: Call)
    ensures var after := PastTimeExpired(db, call);
            && after.intents == db.intents && after.orders == db.orders && after.candidates == db.candidates
            && after.leases == db.leases && after.reservations == Expiring(db.reservations, Expirable(db, call))
            && after.reviews == ExpireReviews(db, call).reviews
            && after.confirmations == ExpireConfirmations(db, call).confirmations
  {
    var together := ExpiredTogether(db, Expirable(db, call));
    TogetherIs(db, Expirable(db, call));
    EvidenceExpires(db, together, call);
  }

  /** The rows of the finished tables, in terms of those before. */
  lemma FinishedRows(db: Db, call: Call)
    ensures var after := Finished(db, call);
            && CreatedOnlyCancelled(db.intents, after.intents)
            && after.orders == db.orders && after.candidates == db.candidates && after.leases == db.leases
            && after.reservations == Expiring(db.reservations, Expirable(db, call))
            && after.reviews == ExpireReviews(db, call).reviews
            && after.confirmations == ExpireConfirmations(db, call).confirmations
  {
    ExpiredRows(db, call);
    CancelCreatedRows(PastTimeExpired(db, call), call);
  }

  /** Expiring adds nothing stale: what it expires was past its time already. */
  lemma FinishedStaleWasStale(db: Db, call: Call, i: IntentId)
    ensures StaleReady(Finished(db, call), call, i) ==> StaleReady(db, call, i)
  {
    FinishedRows(db, call);
  }

  lemma NothingLeftToExpire(db: Db, call: Call)
    ensures Expirable(Finished(db, call), call) == {}
  {
    FinishedRows(db, call);
  }

  lemma ReviewsSettled(db: Db, call: Call)
    ensures ExpireReviews(Finished(db, call), call) == Finished(db, call)
  {
    FinishedRows(db, call);
    assert ExpireReviews(Finished(db, call), call).reviews == Finished(db, call).reviews;
  }

  lemma ConfirmationsSettled(db: Db, call: Call)
    ensures ExpireConfirmations(Finished(db, call), call) == Finished(db, call)
  {
    FinishedRows(db, call);
    assert ExpireConfirmations(Finished(db, call), call).confirmations == Finished(db, call).confirmations;
  }

  lemma CreatedSettled(db: Db, call: Call)
    ensures CancelStaleCreated(Finished(db, call), call) == Finished(db, call)
  {
    CancelledTwice(PastTimeExpired(db, call), call);
  }

  lemma CancelledTwice(db: Db, call: Call)
    ensures CancelStaleCreated(CancelStaleCreated(db, call), call) == CancelStaleCreated(db, call)
  {
    var once := CancelStaleCreated(db, call);
    assert CancelStaleCreated(once, call).intents == once.intents;
  }

  /**
   A whole recovery in a sound ledger, with a broker that answers every lookup, never fails, keeps the
   ledger, and leaves nothing for a recovery at the same moment to do.
   */
  lemma RecoverySettlesEverything(db: Db, call: Call, rows: seq<IntentId>, lookups: IntentId -> Lookup)
    requires LedgerSound(db) && Elements(rows) == StaleRows(db, call) && Answered(rows, lookups)
    requires Distinct(rows)
    ensures var p := RecoverRows(Start(db), call, rows, lookups);
            && p.failure.None? && FinishRecovery(p.db, call) == Statement(Finished(p.db, call), None)
            && LedgerSound(Finished(p.db, call)) && Quiet(Finished(p.db, call), call)
  {
    var p := RecoverRows(Start(db), call, rows, lookups);
    forall n | 0 <= n < |rows|
      ensures Cancellable(db, call, rows[n])
    {
      assert rows[n] in Elements(rows);
      assert rows[n] in StaleRows(db, call);
    }
    RowsResolve(Start(db), call, rows, lookups);
    RowsKeepOthers(Start(db), call, rows, lookups);
    FinishIsTotal(p.db, call);
    NothingLeftToExpire(p.db, call);
    ReviewsSettled(p.db, call);
    ConfirmationsSettled(p.db, call);
    CreatedSettled(p.db, call);
    NoRowIsStale(db, p.db, call, rows, lookups);
    forall i
      ensures !StaleReady(Finished(p.db, call), call, i)
    {
      FinishedStaleWasStale(p.db, call, i);
    }
  }

  lemma NoRowIsStale(db: Db, after: Db, call: Call, rows: seq<IntentId>, lookups: IntentId -> Lookup)
    requires LedgerSound(db) && Elements(rows) == StaleRows(db, call) && KeepsOthers(db, after, rows)
    requires Answered(rows, lookups) && after.intents.Keys == db.intents.Keys
    requires forall n :: 0 <= n < |rows| ==> Resolved(after, rows[n], lookups(rows[n]))
    requires forall j :: j in db.intents && j !in rows ==> after.intents[j] == db.intents[j]
    ensures forall i :: !StaleReady(after, call, i)
  {
    forall i
      ensures !StaleReady(after, call, i)
    {
      if i in rows {
        var n :| 0 <= n < |rows| && rows[n] == i;
        assert Resolved(after, rows[n], lookups(rows[n]));
      } else if i in db.intents {
        UnvisitedRow(db, after, call, rows, i);
        assert i !in Elements(rows);
        assert i !in StaleRows(db, call);
      }
    }
  }

  /** A row that was not selected has not become stale. */
  lemma UnvisitedRow(db: Db, after: Db, call: Call, rows: seq<IntentId>, i: IntentId)
    requires LedgerSound(db) && KeepsOthers(db, after, rows)
    requires i in db.intents && i !in rows && after.intents.Keys == db.intents.Keys && after.intents[i] == db.intents[i]
    ensures StaleReady(after, call, i) ==> StaleReady(db, call, i)
  {
    assert LinkedRow(i, db.intents[i], db.reservations);
  }

  lemma NoneListed(rows: seq<IntentId>)
    ensures Elements(rows) == {} ==> rows == []
  {
    assert |rows| > 0 ==> rows[0] in Elements(rows);
  }

  lemma QuietIsIdle(db: Db, call: Call)
    requires LedgerSound(db) && Quiet(db, call)
    ensures FinishRecovery(db, call) == Statement(db, None)
  {
    FinishIsTotal(db, call);
    ExpiredTogetherNone(db);
  }

  /** So a second recovery at the same moment selects no row and leaves the tables of the first as they are. */
  lemma SecondRecoveryIsIdle(db: Db, call: Call, rows: seq<IntentId>, lookups: IntentId -> Lookup,
                             again: seq<IntentId>, answers: IntentId -> Lookup)
    requires LedgerSound(db) && Elements(rows) == StaleRows(db, call) && Answered(rows, lookups)
    requires Distinct(rows)
    requires Elements(again) == StaleRows(Finished(RecoverRows(Start(db), call, rows, lookups).db, call), call)
    ensures var end := Finished(RecoverRows(Start(db), call, rows, lookups).db, call);
            && again == [] && RecoverRows(Start(end), call, again, answers) == Start(end)
            && FinishRecovery(end, call) == Statement(end, None)
  {
    RecoverySettlesEverything(db, call, rows, lookups);
    QuietIsIdle(Finished(RecoverRows(Start(db), call, rows, lookups).db, call), call);
    NoneListed(again);
  }
}
