/**
 The bulk expiry statement refines expiring the same reservations one at a time, in any order: its
 grouped debits leave the same state, and in a sound ledger it never stops short.
 */
module BulkExpiry {
  import opened Options
  import opened Sequences
  import opened MapSums
  import opened TradeLifecycle
  import opened Tables
  import opened Ledger
  import opened Recovery
  import opened Conservation

  /** One reservation expired on its own. */
  function ExpireOne(db: Db, r: ReservationId): Db
    requires Settleable(db, r)
  {
    Settle(db, r, ReservationExpired, Transition(OwnerOf(db, r), Expired))
  }

  /** Reservations expired one after the other; one that cannot be settled is passed over. */
  function ExpireEach(db: Db, order: seq<ReservationId>): Db {
    if order == [] then db
    else
      var before, r := ExpireEach(db, order[..|order| - 1]), order[|order| - 1];
      if Settleable(before, r) then ExpireOne(before, r) else before
  }

  predicate AllActive(db: Db, rs: set<ReservationId>) {
    forall r :: r in rs ==> r in db.reservations && db.reservations[r].status.Active?
  }

  lemma GroupSumAdds(reservations: Reservations, rs: set<ReservationId>, r: ReservationId, k: AllocationKey)
    requires r in reservations && r !in rs
    ensures GroupSum(reservations, rs + {r}, k) == GroupSum(reservations, rs, k) + AmountUnder(k)(reservations[r])
  {
    TotalInsert(Restrict(reservations, rs), AmountUnder(k), r, reservations[r]);
    assert Restrict(reservations, rs + {r}) == Restrict(reservations, rs)[r := reservations[r]];
  }

  lemma ExpiredTogetherNone(db: Db)
    ensures ExpiredTogether(db, {}) == db
  {
    assert Restrict(db.reservations, {}) == map[];
    assert Debited(db.allocations, db.reservations, {}) == db.allocations;
    assert Expiring(db.reservations, {}) == db.reservations;
    assert Terminated(db, {}) == db.transitions;
  }

  lemma DebitedAdds(allocations: Allocations, reservations: Reservations, rs: set<ReservationId>, r: ReservationId)
    requires r in reservations && r !in rs && reservations[r].key in allocations
    ensures var k, before := reservations[r].key, Debited(allocations, reservations, rs);
            Debited(allocations, reservations, rs + {r})
            == WithReserved(before, k, before[k].reserved - reservations[r].amount)
  {
    var k, before := reservations[r].key, Debited(allocations, reservations, rs);
    var after := WithReserved(before, k, before[k].reserved - reservations[r].amount);
    var together := Debited(allocations, reservations, rs + {r});
    forall j | j in allocations
      ensures together[j] == after[j]
    {
      GroupSumAdds(reservations, rs, r, j);
    }
    assert together == after;
  }

  lemma DebitedThen(allocations: Allocations, reservations: Reservations, rs: set<ReservationId>, r: ReservationId,
                    before: Allocations, left: Money)
    requires r in reservations && r !in rs && reservations[r].key in allocations
    requires before == Debited(allocations, reservations, rs)
    requires left == before[reservations[r].key].reserved - reservations[r].amount
    ensures WithReserved(before, reservations[r].key, left) == Debited(allocations, reservations, rs + {r})
  {
    DebitedAdds(allocations, reservations, rs, r);
  }

  lemma ExpiringAdds(reservations: Reservations, rs: set<ReservationId>, r: ReservationId)
    requires r in reservations && r !in rs
    ensures Expiring(reservations, rs + {r})
         == Expiring(reservations, rs)[r := reservations[r].(status := ReservationExpired)]
  {
  }

  lemma TerminatedAdds(db: Db, rs: set<ReservationId>, r: ReservationId)
    ensures Terminated(db, rs + {r}) == Terminated(db, rs)[r := Transition(OwnerOf(db, r), Expired)]
  {
  }

  lemma TogetherIs(db: Db, rs: set<ReservationId>)
    ensures var after := ExpiredTogether(db, rs);
            && after == db.(reservations := after.reservations, allocations := after.allocations,
                            transitions := after.transitions)
            && after.reservations == Expiring(db.reservations, rs) && after.transitions == Terminated(db, rs)
            && after.allocations == Debited(db.allocations, db.reservations, rs)
  {
  }

  lemma GroupKeepsRow(db: Db, rs: set<ReservationId>, r: ReservationId)
    requires r in db.reservations && r !in rs
    ensures var before := ExpiredTogether(db, rs);
            && r in before.reservations && before.reservations[r] == db.reservations[r]
            && before.allocations.Keys == db.allocations.Keys && OwnerOf(before, r) == OwnerOf(db, r)
  {
  }

  lemma SameReservations(db: Db, rs: set<ReservationId>, r: ReservationId)
    requires r in db.reservations && r !in rs
    requires Settleable(ExpiredTogether(db, rs), r) && Covered(ExpiredTogether(db, rs), r)
    ensures ExpireOne(ExpiredTogether(db, rs), r).reservations == ExpiredTogether(db, rs + {r}).reservations
  {
    GroupKeepsRow(db, rs, r);
    ExpiringAdds(db.reservations, rs, r);
  }

  lemma SameTransitions(db: Db, rs: set<ReservationId>, r: ReservationId)
    requires r in db.reservations && r !in rs
    requires Settleable(ExpiredTogether(db, rs), r) && Covered(ExpiredTogether(db, rs), r)
    ensures ExpireOne(ExpiredTogether(db, rs), r).transitions == ExpiredTogether(db, rs + {r}).transitions
  {
    GroupKeepsRow(db, rs, r);
    TerminatedAdds(db, rs, r);
  }

  lemma SameAllocations(db: Db, rs: set<ReservationId>, r: ReservationId)
    requires r in db.reservations && r !in rs
    requires Settleable(ExpiredTogether(db, rs), r) && Covered(ExpiredTogether(db, rs), r)
    ensures ExpireOne(ExpiredTogether(db, rs), r).allocations == ExpiredTogether(db, rs + {r}).allocations
  {
    var before, row := ExpiredTogether(db, rs), db.reservations[r];
    GroupKeepsRow(db, rs, r);
    var left := before.allocations[row.key].reserved - row.amount;
    assert ExpireOne(before, r).allocations == WithReserved(before.allocations, row.key, left);
    DebitedThen(db.allocations, db.reservations, rs, r, before.allocations, left);
  }

  /** What expiring a covered reservation after the group writes is what the larger group writes. */
  lemma SettledAfter(db: Db, rs: set<ReservationId>, r: ReservationId)
    requires r in db.reservations && r !in rs
    requires Settleable(ExpiredTogether(db, rs), r) && Covered(ExpiredTogether(db, rs), r)
    ensures ExpireOne(ExpiredTogether(db, rs), r) == ExpiredTogether(db, rs + {r})
  {
    SameReservations(db, rs, r);
    SameTransitions(db, rs, r);
    SameAllocations(db, rs, r);
  }

  /** Adding one reservation to an expired group is expiring it on its own afterwards. */
  lemma ExpireOneMore(db: Db, rs: set<ReservationId>, r: ReservationId)
    requires LedgerSound(ExpiredTogether(db, rs)) && r in db.reservations && db.reservations[r].status.Active?
             && r !in rs
    ensures Settleable(ExpiredTogether(db, rs), r)
    ensures ExpireOne(ExpiredTogether(db, rs), r) == ExpiredTogether(db, rs + {r})
  {
    GroupKeepsRow(db, rs, r);
    HeldIsCovered(ExpiredTogether(db, rs), r);
    SettledAfter(db, rs, r);
  }

  lemma OneMoreKeepsLedger(db: Db, rs: set<ReservationId>, r: ReservationId)
    requires LedgerSound(ExpiredTogether(db, rs)) && r in db.reservations && db.reservations[r].status.Active?
             && r !in rs
    ensures LedgerSound(ExpiredTogether(db, rs + {r}))
  {
    ExpireOneMore(db, rs, r);
    var before := ExpiredTogether(db, rs);
    SettleKeepsLedger(before, r, ReservationExpired, Transition(OwnerOf(before, r), Expired));
  }

  lemma ExpireEachLast(db: Db, init: seq<ReservationId>, r: ReservationId, before: Db)
    requires ExpireEach(db, init) == before && Settleable(before, r)
    ensures ExpireEach(db, init + [r]) == ExpireOne(before, r)
  {
    assert (init + [r])[..|init|] == init;
  }

  lemma LastIsNew(init: seq<ReservationId>, r: ReservationId)
    requires Distinct(init + [r])
    ensures Distinct(init) && r !in Elements(init) && Elements(init + [r]) == Elements(init) + {r}
  {
    var order := init + [r];
    forall a, b | 0 <= a < b < |init|
      ensures init[a] != init[b]
    {
      assert order[a] == init[a] && order[b] == init[b];
    }
    forall a | 0 <= a < |init|
      ensures init[a] != r
    {
      assert order[a] == init[a] && order[|init|] == r;
    }
  }

  /** Grouped expiry equals one-at-a-time expiry in every order, and keeps the ledger. */
  lemma {:induction false} AnyOrderSameState(db: Db, order: seq<ReservationId>)
    requires LedgerSound(db) && Distinct(order) && AllActive(db, Elements(order))
    ensures ExpireEach(db, order) == ExpiredTogether(db, Elements(order))
    ensures LedgerSound(ExpiredTogether(db, Elements(order)))
  {
    if order == [] {
      ExpiredTogetherNone(db);
      assert Elements(order) == {};
    } else {
      var init, r := order[..|order| - 1], order[|order| - 1];
      assert order == init + [r];
      LastIsNew(init, r);
      assert r in Elements(order);
      AnyOrderSameState(db, init);
      AnotherInOrder(db, init, Elements(init), r);
    }
  }

  lemma AnotherInOrder(db: Db, init: seq<ReservationId>, rs: set<ReservationId>, r: ReservationId)
    requires ExpireEach(db, init) == ExpiredTogether(db, rs) && LedgerSound(ExpiredTogether(db, rs))
    requires r in db.reservations && db.reservations[r].status.Active? && r !in rs
    ensures ExpireEach(db, init + [r]) == ExpiredTogether(db, rs + {r}) && LedgerSound(ExpiredTogether(db, rs + {r}))
  {
    ExpireOneMore(db, rs, r);
    OneMoreKeepsLedger(db, rs, r);
    ExpireEachLast(db, init, r, ExpiredTogether(db, rs));
  }

  lemma {:induction false} Enumerate(rs: set<ReservationId>) returns (order: seq<ReservationId>)
    ensures Distinct(order) && Elements(order) == rs
  {
    if rs == {} {
      order := [];
    } else {
      var r :| r in rs;
      var init := Enumerate(rs - {r});
      order := init + [r];
      assert Elements(order) == Elements(init) + {r};
    }
  }

  lemma SoundAllocationIsNonnegative(db: Db, k: AllocationKey)
    requires LedgerSound(db) && k in db.allocations
    ensures db.allocations[k].reserved >= 0.0
  {
    TotalNonnegative(db.reservations, HeldWeight(k));
  }

  /** Debiting a group never takes more than its allocation holds. */
  lemma GroupsAreCovered(db: Db, rs: set<ReservationId>)
    requires LedgerSound(db) && AllActive(db, rs)
    ensures LedgerSound(ExpiredTogether(db, rs)) && GroupsCovered(db, rs)
  {
    var order := Enumerate(rs);
    AnyOrderSameState(db, order);
    forall r | r in rs
      ensures GroupCovered(db, rs, db.reservations[r].key)
    {
      GroupIsCovered(db, rs, db.reservations[r].key);
    }
  }

  lemma GroupIsCovered(db: Db, rs: set<ReservationId>, k: AllocationKey)
    requires LedgerSound(ExpiredTogether(db, rs)) && k in db.allocations
    ensures GroupCovered(db, rs, k)
  {
    SoundAllocationIsNonnegative(ExpiredTogether(db, rs), k);
  }

  lemma NoneTerminated(db: Db, rs: set<ReservationId>)
    requires LedgerSound(db) && AllActive(db, rs)
    ensures rs - db.transitions.Keys == rs
  {
  }

  lemma BulkExpireKeepsLedger(db: Db, call: Call)
    requires LedgerSound(db)
    ensures BulkExpire(db, call).failure.None? && LedgerSound(BulkExpire(db, call).db)
    ensures BulkExpire(db, call).db == ExpiredTogether(db, Expirable(db, call))
  {
    var locked := Expirable(db, call);
    GroupsAreCovered(db, locked);
    NoneTerminated(db, locked);
  }

  /**
   The bulk statement in a sound ledger: it reports no mismatch, expires every active reservation past
   its expiry, and leaves the state that expiring them singly in any order leaves.
   */
  lemma BulkExpireIsTotal(db: Db, call: Call, order: seq<ReservationId>)
    requires LedgerSound(db) && Distinct(order) && Elements(order) == Expirable(db, call)
    ensures BulkExpire(db, call).failure.None?
    ensures BulkExpire(db, call).db == ExpireEach(db, order)
  {
    BulkExpireKeepsLedger(db, call);
    AnyOrderSameState(db, order);
  }
}
