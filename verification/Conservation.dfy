/**
 Conservation of reserved money: the invariant of the reservation ledger and its preservation by every
 transaction and recovery statement.
 */
module Conservation {
  import opened Options
  import opened MapSums
  import opened TradeLifecycle
  import opened Tables
  import opened Ledger
  import opened Recovery

  function HeldWeight(k: AllocationKey): Reservation -> Money {
    (r: Reservation) => if r.key == k && Held(r) then r.amount else 0.0
  }

  type Reservations = map<ReservationId, Reservation>
  type Allocations = map<AllocationKey, Allocation>
  type Intents = map<IntentId, Intent>

  /** Each allocation's reserved amount is the sum of its active and committed reservations. */
  ghost predicate Balanced(reservations: Reservations, allocations: Allocations) {
    forall k :: k in allocations ==> allocations[k].reserved == Total(reservations, HeldWeight(k))
  }

  /** A reservation has a terminal row exactly when it is released or expired. */
  ghost predicate TerminalRowsMatch(reservations: Reservations, transitions: Transitions) {
    && transitions.Keys <= reservations.Keys
    && forall r :: r in reservations ==> (r in transitions <==> !Held(reservations[r]))
  }

  ghost predicate SoundReservations(reservations: Reservations, allocations: Allocations) {
    forall r :: r in reservations ==> reservations[r].key in allocations && reservations[r].amount > 0.0
  }

  predicate LinkedRow(i: IntentId, intent: Intent, reservations: Reservations) {
    intent.reservation.Some? ==>
      && intent.reservation.value in reservations && intent.reservation.value.intent == i
      && reservations[intent.reservation.value].key == KeyOf(intent)
  }

  /** An intent's reservation is its own and lies under its own allocation. */
  ghost predicate Linked(intents: Intents, reservations: Reservations) {
    forall i :: i in intents ==> LinkedRow(i, intents[i], reservations)
  }

  /** A committed reservation belongs to a submitted intent. */
  ghost predicate CommittedIsSubmitted(intents: Intents, reservations: Reservations) {
    forall r :: r in reservations && reservations[r].status.Committed? ==>
                  r.intent in intents && intents[r.intent].status.Submitted?
  }

  type Transitions = map<ReservationId, Transition>

  ghost predicate LedgerRows(intents: Intents, reservations: Reservations, allocations: Allocations,
                             transitions: Transitions) {
    && Balanced(reservations, allocations)
    && TerminalRowsMatch(reservations, transitions)
    && SoundReservations(reservations, allocations)
    && Linked(intents, reservations)
    && CommittedIsSubmitted(intents, reservations)
  }

  ghost predicate LedgerSound(db: Db) {
    LedgerRows(db.intents, db.reservations, db.allocations, db.transitions)
  }

  /** No allocation with an amount is deployed and reserved beyond it. */
  ghost predicate WithinAllocations(db: Db) {
    forall k :: k in db.allocations ==>
                  Within(db.allocations[k].amount, db.allocations[k].deployed + db.allocations[k].reserved)
  }

  lemma HeldIsCovered(db: Db, r: ReservationId)
    requires LedgerSound(db) && r in db.reservations && Held(db.reservations[r])
    ensures Settleable(db, r) && Covered(db, r)
  {
    TotalBoundsRow(db.reservations, HeldWeight(db.reservations[r].key), r);
  }

  lemma BalancedUpdate(reservations: Reservations, allocations: Allocations, r: ReservationId, row: Reservation)
    requires Balanced(reservations, allocations) && r in reservations && reservations[r].key in allocations
    requires row.key == reservations[r].key
    ensures var k := row.key;
            Balanced(reservations[r := row],
                     WithReserved(allocations, k,
                                  allocations[k].reserved - HeldWeight(k)(reservations[r]) + HeldWeight(k)(row)))
  {
    forall k | k in allocations
      ensures Total(reservations[r := row], HeldWeight(k))
           == Total(reservations, HeldWeight(k)) - HeldWeight(k)(reservations[r]) + HeldWeight(k)(row)
    {
      TotalUpdate(reservations, HeldWeight(k), r, row);
    }
  }

  /** A row rewritten in place, with its key and amount, keeps what intents and allocations say of it. */
  lemma RowUpdate(intents: Intents, reservations: Reservations, allocations: Allocations, r: ReservationId,
                  row: Reservation)
    requires r in reservations && row.key == reservations[r].key && row.amount == reservations[r].amount
    requires SoundReservations(reservations, allocations) && Linked(intents, reservations)
    ensures SoundReservations(reservations[r := row], allocations) && Linked(intents, reservations[r := row])
  {
  }

  lemma SettledRows(intents: Intents, reservations: Reservations, transitions: Transitions,
                    r: ReservationId, row: Reservation, t: Transition)
    requires r in reservations && !Held(row)
    requires TerminalRowsMatch(reservations, transitions) && CommittedIsSubmitted(intents, reservations)
    ensures TerminalRowsMatch(reservations[r := row], transitions[r := t])
    ensures CommittedIsSubmitted(intents, reservations[r := row])
  {
  }

  lemma AllocationUpdate(reservations: Reservations, allocations: Allocations, k: AllocationKey, reserved: Money)
    requires SoundReservations(reservations, allocations) && k in allocations
    ensures SoundReservations(reservations, WithReserved(allocations, k, reserved))
  {
  }

  lemma SettledLedger(intents: Intents, reservations: Reservations, allocations: Allocations, transitions: Transitions,
                      r: ReservationId, status: ReservationStatus, t: Transition)
    requires LedgerRows(intents, reservations, allocations, transitions)
    requires r in reservations && Held(reservations[r]) && (status.Released? || status.ReservationExpired?)
    ensures var row := reservations[r];
            LedgerRows(intents, reservations[r := row.(status := status)],
                       WithReserved(allocations, row.key, allocations[row.key].reserved - row.amount),
                       transitions[r := t])
  {
    var row := reservations[r].(status := status);
    BalancedUpdate(reservations, allocations, r, row);
    RowUpdate(intents, reservations, allocations, r, row);
    AllocationUpdate(reservations[r := row], allocations, row.key, allocations[row.key].reserved - row.amount);
    SettledRows(intents, reservations, transitions, r, row, t);
  }

  /** Settling a held reservation keeps the ledger; the clamp at zero never acts. */
  lemma SettleKeepsLedger(db: Db, r: ReservationId, status: ReservationStatus, t: Transition)
    requires LedgerSound(db) && Settleable(db, r) && (status.Released? || status.ReservationExpired?)
    ensures LedgerSound(Settle(db, r, status, t))
    ensures var k := db.reservations[r].key;
            Settle(db, r, status, t).allocations[k].reserved == db.allocations[k].reserved - db.reservations[r].amount
  {
    HeldIsCovered(db, r);
    SettledLedger(db.intents, db.reservations, db.allocations, db.transitions, r, status, t);
  }

  // ------------------------------------------------------------------------------- transactions

  /** Changing the status of an intent that is not submitted keeps the ledger. */
  lemma StatusKeepsLedger(intents: Intents, reservations: Reservations, allocations: Allocations,
                          transitions: Transitions,
                          i: IntentId, intent: Intent)
    requires LedgerRows(intents, reservations, allocations, transitions)
    requires i in intents && !intents[i].status.Submitted?
    requires KeyOf(intent) == KeyOf(intents[i]) && intent.reservation == intents[i].reservation
    ensures LedgerRows(intents[i := intent], reservations, allocations, transitions)
  {
  }

  lemma BalancedInsert(reservations: Reservations, allocations: Allocations, r: ReservationId, row: Reservation)
    requires Balanced(reservations, allocations) && r !in reservations && row.key in allocations && Held(row)
    ensures Balanced(reservations[r := row],
                     WithReserved(allocations, row.key, allocations[row.key].reserved + row.amount))
  {
    forall k | k in allocations
      ensures Total(reservations[r := row], HeldWeight(k)) == Total(reservations, HeldWeight(k)) + HeldWeight(k)(row)
    {
      TotalInsert(reservations, HeldWeight(k), r, row);
    }
  }

  lemma RowsInsert(intents: Intents, reservations: Reservations, allocations: Allocations, r: ReservationId,
                   row: Reservation)
    requires r !in reservations && row.status.Active? && row.amount > 0.0 && row.key in allocations
    requires SoundReservations(reservations, allocations) && Linked(intents, reservations)
    requires CommittedIsSubmitted(intents, reservations)
    ensures SoundReservations(reservations[r := row], allocations) && Linked(intents, reservations[r := row])
    ensures CommittedIsSubmitted(intents, reservations[r := row])
  {
  }

  lemma NewReservation(intents: Intents, reservations: Reservations, allocations: Allocations, transitions: Transitions,
                       r: ReservationId, row: Reservation)
    requires LedgerRows(intents, reservations, allocations, transitions)
    requires r !in reservations && row.status.Active? && row.amount > 0.0 && row.key in allocations
    ensures LedgerRows(intents, reservations[r := row],
                       WithReserved(allocations, row.key, allocations[row.key].reserved + row.amount), transitions)
  {
    BalancedInsert(reservations, allocations, r, row);
    RowsInsert(intents, reservations, allocations, r, row);
    AllocationUpdate(reservations[r := row], allocations, row.key, allocations[row.key].reserved + row.amount);
  }

  lemma NewLink(intents: Intents, reservations: Reservations, allocations: Allocations, transitions: Transitions,
                i: IntentId, intent: Intent)
    requires LedgerRows(intents, reservations, allocations, transitions)
    requires i in intents && !intents[i].status.Submitted? && LinkedRow(i, intent, reservations)
    ensures LedgerRows(intents[i := intent], reservations, allocations, transitions)
  {
  }

  /** The ledger rows of a promotion, with the tables it does not depend on left out. */
  lemma PromotedRows(intents: Intents, reservations: Reservations, allocations: Allocations, transitions: Transitions,
                     i: IntentId, r: ReservationId, row: Reservation, intent: Intent)
    requires LedgerRows(intents, reservations, allocations, transitions)
    requires r !in reservations && row.status.Active? && row.amount > 0.0 && row.key in allocations
    requires i in intents && !intents[i].status.Submitted?
    requires intent.reservation == Some(r) && r.intent == i && row.key == KeyOf(intent)
    ensures LedgerRows(intents[i := intent], reservations[r := row],
                       WithReserved(allocations, row.key, allocations[row.key].reserved + row.amount), transitions)
  {
    NewReservation(intents, reservations, allocations, transitions, r, row);
    NewLink(intents, reservations[r := row],
            WithReserved(allocations, row.key, allocations[row.key].reserved + row.amount),
            transitions, i, intent);
  }

  /** What an entry promotion writes to the ledger, with its reservation row and its intent row named. */
  predicate PromotionWrites(db: Db, after: Db, i: IntentId, r: ReservationId, row: Reservation, intent: Intent) {
    && after.reservations == db.reservations[r := row] && after.intents == db.intents[i := intent]
    && after.transitions == db.transitions
    && row.key in db.allocations
    && after.allocations == WithReserved(db.allocations, row.key, db.allocations[row.key].reserved + row.amount)
  }

  lemma PromotedEntryWrites(db: Db, call: Call, command: Command, i: IntentId)
    returns (r: ReservationId, row: Reservation, intent: Intent)
    requires Promotable(db, call, command, i) && CandidateWritable(db.candidates, db.intents[i].candidate)
    requires db.intents[i].reviewType.Entry? && PositiveRisk(db.intents[i])
    ensures r == ReservationFor(call, command, i, db.intents[i])
    ensures row.status.Active? && row.amount > 0.0 && row.key == KeyOf(intent)
    ensures KeyOf(intent) == KeyOf(db.intents[i]) && intent.reservation == Some(r)
    ensures PromotionWrites(db, Promoted(db, call, command, i), i, r, row, intent)
  {
    var after := Promoted(db, call, command, i);
    r := ReservationFor(call, command, i, db.intents[i]);
    row, intent := after.reservations[r], after.intents[i];
  }

  lemma PromotionWritesKeepLedger(db: Db, after: Db, i: IntentId, r: ReservationId, row: Reservation, intent: Intent)
    requires LedgerSound(db) && PromotionWrites(db, after, i, r, row, intent)
    requires r !in db.reservations && row.status.Active? && row.amount > 0.0 && row.key == KeyOf(intent)
    requires i in db.intents && !db.intents[i].status.Submitted? && intent.reservation == Some(r) && r.intent == i
    ensures LedgerSound(after)
  {
    PromotedRows(db.intents, db.reservations, db.allocations, db.transitions, i, r, row, intent);
  }

  lemma PromotedEntryKeepsLedger(db: Db, call: Call, command: Command, i: IntentId)
    requires LedgerSound(db) && Promotable(db, call, command, i)
             && CandidateWritable(db.candidates, db.intents[i].candidate)
    requires db.intents[i].reviewType.Entry? && PositiveRisk(db.intents[i])
    requires ReservationFor(call, command, i, db.intents[i]) !in db.reservations
    ensures LedgerSound(Promoted(db, call, command, i))
  {
    var r, row, intent := PromotedEntryWrites(db, call, command, i);
    PromotionWritesKeepLedger(db, Promoted(db, call, command, i), i, r, row, intent);
  }

  lemma PromotedExitKeepsLedger(db: Db, call: Call, command: Command, i: IntentId)
    requires LedgerSound(db) && Promotable(db, call, command, i)
             && CandidateWritable(db.candidates, db.intents[i].candidate)
    requires db.intents[i].reviewType.Exit?
    ensures LedgerSound(Promoted(db, call, command, i))
  {
    NewLink(db.intents, db.reservations, db.allocations, db.transitions, i, Promoted(db, call, command, i).intents[i]);
  }

  /** Promotion adds one reservation and credits its allocation the same amount. */
  lemma PromoteKeepsLedger(db: Db, call: Call, command: Command, i: IntentId)
    requires LedgerSound(db)
    ensures LedgerSound(After(db, Promote(db, call, command, i)))
  {
    if Promote(db, call, command, i).Commit? {
      if db.intents[i].reviewType.Entry? {
        PromotedEntryKeepsLedger(db, call, command, i);
      } else {
        PromotedExitKeepsLedger(db, call, command, i);
      }
    }
  }

  lemma CommitKeepsLedger(intents: Intents, reservations: Reservations, allocations: Allocations,
                          transitions: Transitions,
                          r: ReservationId)
    requires LedgerRows(intents, reservations, allocations, transitions)
    requires r in reservations && reservations[r].status.Active?
    requires r.intent in intents && intents[r.intent].status.Submitted?
    ensures LedgerRows(intents, reservations[r := reservations[r].(status := Committed)], allocations, transitions)
  {
    var row := reservations[r].(status := Committed);
    BalancedUpdate(reservations, allocations, r, row);
    assert allocations == WithReserved(allocations, row.key,
                                       allocations[row.key].reserved - HeldWeight(row.key)(reservations[r])
                                       + HeldWeight(row.key)(row));
    RowUpdate(intents, reservations, allocations, r, row);
  }

  lemma RecordedKeepsLedger(db: Db, i: IntentId, ack: Acknowledgement)
    requires LedgerSound(db) && Recordable(db, i, ack) && db.intents[i].status.Pending?
    ensures LedgerSound(Recorded(db, i, ack))
  {
    var intent := db.intents[i];
    var lifecycle := StateForBrokerStatus(intent.reviewType, ack.status.value);
    var noted := Acknowledged(db, i, ack);
    StatusKeepsLedger(db.intents, db.reservations, db.allocations, db.transitions, i, noted.intents[i]);
    if intent.reservation.Some? {
      if TerminalWithoutFill(lifecycle) {
        SettleKeepsLedger(noted, intent.reservation.value, Released, Transition(Some(i), lifecycle));
      } else {
        CommitKeepsLedger(noted.intents, noted.reservations, noted.allocations, noted.transitions,
                          intent.reservation.value);
      }
    }
  }

  /** An acknowledgement moves the reservation to committed, or settles it with a terminal status. */
  lemma SubmissionKeepsLedger(db: Db, call: Call, i: IntentId, ack: Acknowledgement)
    requires LedgerSound(db) && i in db.intents
    ensures LedgerSound(After(db, RecordSubmission(db, call, i, ack)))
  {
    if RecordSubmission(db, call, i, ack).Commit? {
      RecordedKeepsLedger(db, i, ack);
    }
  }

  lemma ClaimKeepsLedger(db: Db, call: Call, command: Command, i: IntentId)
    requires LedgerSound(db)
    ensures LedgerSound(After(db, Claim(db, call, command, i)))
  {
    var after := After(db, Claim(db, call, command, i));
    if Claim(db, call, command, i).Commit? {
      StatusKeepsLedger(db.intents, db.reservations, db.allocations, db.transitions, i, after.intents[i]);
    }
  }

  lemma ReleaseKeepsLedger(db: Db, call: Call, i: IntentId)
    requires LedgerSound(db)
    ensures LedgerSound(After(db, ReleaseClaim(db, call, i)))
  {
    var after := After(db, ReleaseClaim(db, call, i));
    if ReleaseClaim(db, call, i).Commit? {
      StatusKeepsLedger(db.intents, db.reservations, db.allocations, db.transitions, i, after.intents[i]);
    }
  }

  lemma AttemptKeepsLedger(db: Db, call: Call, i: IntentId)
    requires LedgerSound(db) && i in db.intents
    ensures LedgerSound(After(db, RecordAttempt(db, call, i)))
  {
    var after := After(db, RecordAttempt(db, call, i));
    if RecordAttempt(db, call, i).Commit? {
      StatusKeepsLedger(db.intents, db.reservations, db.allocations, db.transitions, i, after.intents[i]);
    }
  }

  lemma AmbiguousKeepsLedger(db: Db, call: Call, i: IntentId, status: EventStatus)
    requires LedgerSound(db) && i in db.intents
    ensures LedgerSound(After(db, RecordAmbiguous(db, call, i, status)))
  {
    var after := After(db, RecordAmbiguous(db, call, i, status));
    if RecordAmbiguous(db, call, i, status).Commit? {
      StatusKeepsLedger(db.intents, db.reservations, db.allocations, db.transitions, i, after.intents[i]);
    }
  }

  lemma RejectionKeepsLedger(db: Db, call: Call, i: IntentId)
    requires LedgerSound(db) && i in db.intents
    ensures LedgerSound(After(db, RecordRejection(db, call, i)))
  {
    var after := After(db, RecordRejection(db, call, i));
    if RecordRejection(db, call, i).Commit? {
      StatusKeepsLedger(db.intents, db.reservations, db.allocations, db.transitions, i, after.intents[i]);
    }
  }

  // -------------------------------------------------------------------------- recovery statements

  /** In a sound ledger the stale-ready cancellation never fails and keeps the ledger. */
  lemma CancelStaleKeepsLedger(db: Db, call: Call, i: IntentId)
    requires LedgerSound(db)
    ensures CancelStale(db, call, i).failure.None? && LedgerSound(CancelStale(db, call, i).db)
  {
    var locked := LockedReservation(db, i);
    if locked.Some? {
      HeldIsCovered(db, locked.value);
    }
    if Cancellable(db, call, i) {
      var cancelled := CancelledIntent(db, i);
      StatusKeepsLedger(db.intents, db.reservations, db.allocations, db.transitions, i, cancelled.intents[i]);
      if locked.Some? {
        SettleKeepsLedger(cancelled, locked.value, Released, Transition(Some(i), Cancelled));
      }
    }
  }

  lemma PreserveStaleKeepsLedger(db: Db, call: Call, i: IntentId)
    requires LedgerSound(db)
    ensures LedgerSound(PreserveStale(db, call, i))
  {
    var after := PreserveStale(db, call, i);
    if after != db {
      StatusKeepsLedger(db.intents, db.reservations, db.allocations, db.transitions, i, after.intents[i]);
    }
  }

  lemma CancelStaleCreatedKeepsLedger(db: Db, call: Call)
    requires LedgerSound(db)
    ensures LedgerSound(CancelStaleCreated(db, call))
  {
    var after := CancelStaleCreated(db, call);
    assert forall i :: i in db.intents ==> LinkedRow(i, db.intents[i], db.reservations);
    assert Linked(after.intents, db.reservations);
  }
}
