/**
 Which rows a recovery touches, in terms of the rows themselves: the ready intents it visits, those it
 leaves exactly as they were, the created intents it cancels, and the evidence and reservations it expires.
 */
module RecoveryReach {
  import opened Options
  import opened Sequences
  import opened TradeLifecycle
  import opened Tables
  import opened Ledger
  import opened Recovery
  import opened Conservation
  import opened BulkExpiry
  import opened AtMostOnce
  import opened Authorisation
  import opened RecoveryRun

  // ------------------------------------------------------------------------------ the rows that stand

  /** Still selected, not closed out, and seen less than half an hour ago. */
  predicate CandidateStands(c: Candidate, now: Time) {
    c.selected && c.stage != CandidateClosedOut && now - c.asOf < 30 * MINUTES
  }

  /** Not past its time and in none of the statuses that end a review. */
  predicate ReviewStands(review: Review, now: Time) {
    (review.status == ReviewValid || review.status == ReviewCreatedOnly || review.status == ReviewConsumed)
    && now < review.expiresAt
  }

  predicate ConfirmationStands(db: Db, c: Option<ConfirmationId>, now: Time) {
    match c
    case None => false
    case Some(id) =>
      id in db.confirmations && db.confirmations[id].status == ConfirmationValid && now < db.confirmations[id].expiresAt
  }

  predicate ReservationStands(db: Db, r: Option<ReservationId>, now: Time) {
    match r
    case None => false
    case Some(id) =>
      && id in db.reservations && now < db.reservations[id].expiresAt
      && (db.reservations[id].status == Active || db.reservations[id].status == Committed)
  }

  predicate HasOrder(orders: map<OrderKey, Order>, i: IntentId) {
    exists k :: k in orders && orders[k].intent == i
  }

  /** The review and the candidate the selection joins are there. */
  predicate Joined(db: Db, intent: Intent) {
    intent.review in db.reviews && intent.candidate.Some? && intent.candidate.value in db.candidates
  }

  predicate AllStands(db: Db, intent: Intent, now: Time)
    requires Joined(db, intent)
  {
    && CandidateStands(db.candidates[intent.candidate.value], now) && ReviewStands(db.reviews[intent.review], now)
    && ConfirmationStands(db, intent.confirmation, now) && ReservationStands(db, intent.reservation, now)
  }

  // ------------------------------------------------------------------------------ the ready intents

  /**
   Under its lease the recovery selects exactly the ready intents, their review and candidate there, that
   have no order and of whose candidate, review, confirmation and reservation one no longer stands.
   */
  lemma SelectedIff(db: Db, call: Call, i: IntentId)
    ensures i in StaleRows(db, call)
       <==> && OwnsLease(db.leases, call)
            && i in db.intents && db.intents[i].status == Ready && Joined(db, db.intents[i])
            && !HasOrder(db.orders, i) && !AllStands(db, db.intents[i], call.now)
  {
    FenceIsLease(db.leases, call);
    if i in db.intents && Joined(db, db.intents[i]) {
      var intent := db.intents[i];
      assert StaleCandidate(db.candidates[intent.candidate.value], call.now)
        <==> !CandidateStands(db.candidates[intent.candidate.value], call.now);
      assert StaleReview(db.reviews[intent.review], call.now) <==> !ReviewStands(db.reviews[intent.review], call.now);
      assert NoOrderFor(db.orders, i) <==> !HasOrder(db.orders, i);
    }
  }

  lemma RowTouches(p: Progress, call: Call, i: IntentId, lookup: Lookup, j: IntentId)
    requires j != i && j in p.db.intents
    ensures var q := RecoverRow(p, call, i, lookup); j in q.db.intents && q.db.intents[j] == p.db.intents[j]
  {
    if lookup.AbsentAtBroker? {
      CancelStaleTouches(p.db, call, i);
    }
  }

  /** Whatever the broker answers and wherever the loop stops, an intent that is no row stays as it was. */
  lemma {:induction false} RowsTouch(p: Progress, call: Call, rows: seq<IntentId>, lookups: IntentId -> Lookup,
                                     j: IntentId)
    requires j !in rows && j in p.db.intents
    ensures var q := RecoverRows(p, call, rows, lookups); j in q.db.intents && q.db.intents[j] == p.db.intents[j]
    decreases |rows|
  {
    if p.failure.None? && rows != [] {
      RowTouches(p, call, rows[0], lookups(rows[0]), j);
      RowsTouch(RecoverRow(p, call, rows[0], lookups(rows[0])), call, rows[1..], lookups, j);
    }
  }

  lemma FinishTouchesCreated(db: Db, call: Call, j: IntentId)
    requires j in db.intents && db.intents[j].status != Created
    ensures var end := FinishRecovery(db, call).db; j in end.intents && end.intents[j] == db.intents[j]
  {
    var expired := BulkExpire(db, call);
    assert expired.db.intents == db.intents;
    if expired.failure.None? {
      CancelCreatedRows(ExpireConfirmations(ExpireReviews(expired.db, call), call), call);
    }
  }

  /** What a whole recovery leaves, wherever it stops. */
  ghost function Recovered(db: Db, call: Call, rows: seq<IntentId>, lookups: IntentId -> Lookup): Db {
    var p := RecoverRows(Start(db), call, rows, lookups);
    if p.failure.Some? then p.db else FinishRecovery(p.db, call).db
  }

  /**
   A recovery leaves a ready intent exactly as it was if it already has an order, or if its candidate,
   review, confirmation and reservation all stand; whatever the broker answers, and wherever it stops.
   */
  lemma StandingIsLeftAlone(db: Db, call: Call, rows: seq<IntentId>, lookups: IntentId -> Lookup, i: IntentId)
    requires Elements(rows) == StaleRows(db, call)
    requires i in db.intents && db.intents[i].status == Ready
    requires HasOrder(db.orders, i) || (Joined(db, db.intents[i]) && AllStands(db, db.intents[i], call.now))
    ensures var end := Recovered(db, call, rows, lookups); i in end.intents && end.intents[i] == db.intents[i]
  {
    SelectedIff(db, call, i);
    assert i !in Elements(rows);
    RowsTouch(Start(db), call, rows, lookups, i);
    var p := RecoverRows(Start(db), call, rows, lookups);
    FinishTouchesCreated(p.db, call, i);
  }

  /**
   Every other ready intent with its review and candidate there is visited under the lease: the broker
   knowing its order makes it ambiguous, not knowing it cancels it, and so it stays.
   */
  lemma OthersAreResolved(db: Db, call: Call, rows: seq<IntentId>, lookups: IntentId -> Lookup, i: IntentId)
    requires LedgerSound(db) && Elements(rows) == StaleRows(db, call) && Distinct(rows) && Answered(rows, lookups)
    requires OwnsLease(db.leases, call)
    requires i in db.intents && db.intents[i].status == Ready && Joined(db, db.intents[i])
    requires !HasOrder(db.orders, i) && !AllStands(db, db.intents[i], call.now)
    ensures var end := Recovered(db, call, rows, lookups);
            && i in end.intents
            && end.intents[i].status == if lookups(i).FoundAtBroker? then Ambiguous else IntentCancelled
  {
    SelectedIff(db, call, i);
    assert i in Elements(rows);
    var n :| 0 <= n < |rows| && rows[n] == i;
    forall m | 0 <= m < |rows|
      ensures Cancellable(db, call, rows[m])
    {
      assert rows[m] in Elements(rows);
      assert rows[m] in StaleRows(db, call);
    }
    RowsResolve(Start(db), call, rows, lookups);
    var p := RecoverRows(Start(db), call, rows, lookups);
    assert Resolved(p.db, rows[n], lookups(rows[n]));
    FinishTouchesCreated(p.db, call, i);
  }

  // --------------------------------------------------------------- created intents and what expires

  lemma ReviewAfterwards(db: Db, call: Call, v: ReviewId)
    requires v in db.reviews
    ensures var end, row := PastTimeExpired(db, call), db.reviews[v];
            && v in end.reviews
            && end.reviews[v] == if OwnsLease(db.leases, call) && row.expiresAt <= call.now
                                    && (row.status == ReviewValid || row.status == ReviewCreatedOnly)
                                 then row.(status := ReviewExpired) else row
  {
    FenceIsLease(db.leases, call);
    ExpiredRows(db, call);
  }

  lemma StandingRow(row: Review, now: Time)
    ensures var after := if row.expiresAt <= now && (row.status == ReviewValid || row.status == ReviewCreatedOnly)
                         then row.(status := ReviewExpired) else row;
            StaleReview(after, now) <==> !ReviewStands(row, now)
  {
  }

  lemma StaleCreatedIff(db: Db, call: Call, i: IntentId)
    requires i in db.intents && db.intents[i].status == Created && OwnsLease(db.leases, call)
    ensures StaleCreated(PastTimeExpired(db, call), call, i)
       <==> db.intents[i].review in db.reviews && !ReviewStands(db.reviews[db.intents[i].review], call.now)
  {
    FenceIsLease(db.leases, call);
    ExpiredRows(db, call);
    if db.intents[i].review in db.reviews {
      ReviewAfterwards(db, call, db.intents[i].review);
      StandingRow(db.reviews[db.intents[i].review], call.now);
    }
  }

  lemma CancelledCreated(db: Db, call: Call, i: IntentId)
    requires i in db.intents
    ensures var after := CancelStaleCreated(db, call).intents;
            && i in after
            && after[i]
               == if StaleCreated(db, call, i) then db.intents[i].(status := IntentCancelled) else db.intents[i]
  {
  }

  /** Under the lease exactly the created intents whose review no longer stands are cancelled. */
  lemma CreatedCancelledIff(db: Db, call: Call, i: IntentId)
    requires i in db.intents && db.intents[i].status == Created
    ensures var end := Finished(db, call);
            && i in end.intents
            && end.intents[i] == if OwnsLease(db.leases, call) && db.intents[i].review in db.reviews
                                    && !ReviewStands(db.reviews[db.intents[i].review], call.now)
                                 then db.intents[i].(status := IntentCancelled) else db.intents[i]
  {
    FenceIsLease(db.leases, call);
    ExpiredRows(db, call);
    CancelledCreated(PastTimeExpired(db, call), call, i);
    if OwnsLease(db.leases, call) {
      StaleCreatedIff(db, call, i);
    }
  }

  /** Under the lease exactly the open reviews past their time expire, and nothing else of a review changes. */
  lemma ReviewExpiresIff(db: Db, call: Call, v: ReviewId)
    requires v in db.reviews
    ensures var end, row := Finished(db, call), db.reviews[v];
            && v in end.reviews
            && end.reviews[v] == if OwnsLease(db.leases, call) && row.expiresAt <= call.now
                                    && (row.status == ReviewValid || row.status == ReviewCreatedOnly)
                                 then row.(status := ReviewExpired) else row
  {
    FenceIsLease(db.leases, call);
    FinishedRows(db, call);
  }

  lemma ConfirmationExpiresIff(db: Db, call: Call, c: ConfirmationId)
    requires c in db.confirmations
    ensures var end, row := Finished(db, call), db.confirmations[c];
            && c in end.confirmations
            && end.confirmations[c] == if OwnsLease(db.leases, call) && row.expiresAt <= call.now
                                          && row.status == ConfirmationValid
                                       then row.(status := ConfirmationExpired) else row
  {
    FenceIsLease(db.leases, call);
    FinishedRows(db, call);
  }

  lemma ReservationExpiresIff(db: Db, call: Call, r: ReservationId)
    requires r in db.reservations
    ensures var end, row := Finished(db, call), db.reservations[r];
            && r in end.reservations
            && end.reservations[r] == if OwnsLease(db.leases, call) && row.expiresAt <= call.now && row.status == Active
                                      then row.(status := ReservationExpired) else row
  {
    FenceIsLease(db.leases, call);
    FinishedRows(db, call);
  }
}
