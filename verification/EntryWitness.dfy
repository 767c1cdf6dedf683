/**
 An entry all the way: it reserves, is claimed and sent, and then ends in one of three ways. Bulk expiry
 takes its reservation while the order is out and the answer cannot be recorded; or the answer commits the
 reservation to an open market order; or a cancellation settles it.
 */
module EntryWitness {
  import opened Options
  import opened MapSums
  import opened TradeLifecycle
  import opened Tables
  import opened Ledger
  import opened Recovery
  import opened Conservation
  import opened BulkExpiry
  import opened Capacity
  import opened Protocol
  import opened MoneyOverRuns
  import opened ProtocolWitness

  /** A market order by quantity: neither a notional nor a limit price. */
  const ENTRY_TERMS := OrderTerms(5, 6, 7, BuyToOpen, false, 0, Some(1.0), None, None, None)

  const ENTRY := Intent(0, Entry, ENTRY_TERMS, 9, None, Some(100.0), false, false, Created, ReviewCreated, None, None)

  const BOOK := Book(8, 1000.0, 1000.0, Some(Limits(None, None, None, None, None, None, None)), true, 0.0, 0, map[])

  const EVIDENCE := ConfirmationId(9, ExecuteReviewed, FENCE)

  const RESERVATION := ReservationId(0, 1, EVIDENCE)

  /** The tables before the promotion. */
  const OPENED :=
    NO_TABLES.(intents := map[1 := ENTRY], reviews := map[9 := Review(ReviewValid, 1000, 8, ENTRY_TERMS, true)],
               allocations := map[KEY := Allocation(Some(500.0), None, 0.0, 0.0)], books := map[0 := BOOK],
               leases := map[1 := Lease(FENCE, true, 5000)])

  function EntryRow(status: IntentStatus, lifecycle: State): Intent {
    ENTRY.(status := status, lifecycle := lifecycle, confirmation := Some(EVIDENCE), reservation := Some(RESERVATION))
  }

  /** The tables with the reservation held, the intent's row and the events as given. */
  function Reserved(row: Intent, events: map<EventKey, BrokerEvent>): Db {
    OPENED.(confirmations := map[EVIDENCE := Confirmation(9, ConfirmationValid, 1000)],
            reservations := map[RESERVATION := Reservation(KEY, 6, 100.0, Active, 1000)],
            allocations := map[KEY := Allocation(Some(500.0), None, 100.0, 0.0)],
            intents := map[1 := row], events := events)
  }

  const READY := Reserved(EntryRow(Ready, ReviewCreated), map[])

  const CLAIMED := Reserved(EntryRow(Pending, ReviewCreated), map[])

  const ATTEMPT_STORED := Reserved(EntryRow(Pending, SubmissionAttemptPersisted), map[ATTEMPT := ATTEMPTED])

  lemma Opening() returns (steps: seq<Step>)
    ensures Run(START, steps) == START.(db := OPENED)
  {
    var create, allot := Environment(Creating(1, ENTRY)), Environment(Allotting(KEY, OPENED.allocations[KEY]));
    var review, book := Environment(SettingReview(9, OPENED.reviews[9])), Environment(SettingBook(0, BOOK));
    var lease := Environment(SettingLease(1, OPENED.leases[1]));
    RunThen(START, [], create);
    RunThen(START, [create], allot);
    RunThen(START, [create] + [allot], review);
    RunThen(START, [create] + [allot] + [review], book);
    RunThen(START, [create] + [allot] + [review] + [book], lease);
    assert [] + [create] == [create];
    steps := [create] + [allot] + [review] + [book] + [lease];
  }

  lemma NothingUsed()
    ensures UsageOf(OPENED, 0, 6, CALL.now) == Usage(0.0, 0.0, 0.0, 0.0, 0)
  {
    assert OpenCount(OPENED.orders, 0) == 0;
  }

  lemma CapacityIsThere()
    ensures CapacityAllows(BOOK, OPENED.allocations[KEY], 6, Usage(0.0, 0.0, 0.0, 0.0, 0), 100.0)
  {
    assert CashReserve(1000.0, BOOK.limits.value) == 0.0;
  }

  lemma EntryIsPromoted()
    ensures Promotable(OPENED, CALL, ExecuteReviewed, 1)
    ensures Promote(OPENED, CALL, ExecuteReviewed, 1) == Commit(READY)
  {
    NothingUsed();
    CapacityIsThere();
    assert Promotable(OPENED, CALL, ExecuteReviewed, 1);
    var after := Promoted(OPENED, CALL, ExecuteReviewed, 1);
    assert PromotionExpiry(OPENED, CALL, ENTRY) == 1000;
    assert after.reservations == READY.reservations && after.allocations == READY.allocations;
    assert after.confirmations == READY.confirmations && after.intents == READY.intents;
  }

  lemma EntryIsClaimed()
    ensures Claim(READY, CALL, ExecuteReviewed, 1) == Commit(CLAIMED)
  {
    EntryIsPromoted();
    AdmittedAtOnce(OPENED, CALL, ExecuteReviewed, 1, KEY, 6);
    assert Claimable(READY, CALL, ExecuteReviewed, 1);
    assert WithStatus(READY.intents, 1, Pending, ReviewCreated) == CLAIMED.intents;
  }

  lemma EntryIsAttempted()
    ensures RecordAttempt(CLAIMED, CALL, 1) == Commit(ATTEMPT_STORED)
  {
    assert WithStatus(CLAIMED.intents, 1, Pending, SubmissionAttemptPersisted) == ATTEMPT_STORED.intents;
  }

  /** The entry's order is out, with an answer on its way back. */
  function Out(w: WorkerId, ack: Acknowledgement): World {
    At(START, ATTEMPT_STORED, w, Answered(1, Responded(ack))).(calls := map[1 := 1])
  }

  lemma TakeEntry(w: WorkerId)
    ensures Apply(START.(db := OPENED), Promoting(CALL, ExecuteReviewed, 1, Reported)) == START.(db := READY)
    ensures Apply(START.(db := READY), Work(w, Claiming(CALL, ExecuteReviewed, 1, Reported)))
         == At(START, CLAIMED, w, Claimed(1))
  {
    EntryIsPromoted();
    PromoteCommits(START.(db := OPENED), CALL, ExecuteReviewed, 1, READY);
    EntryIsClaimed();
    ClaimCommits(START.(db := READY), w, CALL, ExecuteReviewed, 1, CLAIMED);
  }

  lemma SendEntry(w: WorkerId, ack: Acknowledgement)
    ensures Apply(At(START, CLAIMED, w, Claimed(1)), Work(w, Attempting(CALL, Reported)))
         == At(START, ATTEMPT_STORED, w, Attempted(1))
    ensures Apply(At(START, ATTEMPT_STORED, w, Attempted(1)), Work(w, Sending(Responded(ack)))) == Out(w, ack)
  {
    EntryIsAttempted();
    AttemptCommits(At(START, CLAIMED, w, Claimed(1)), w, CALL, 1, ATTEMPT_STORED);
    AtAgain(START, CLAIMED, ATTEMPT_STORED, w, Claimed(1), Attempted(1));
    AtAgain(START, ATTEMPT_STORED, ATTEMPT_STORED, w, Attempted(1), Answered(1, Responded(ack)));
    SendGoesOut(At(START, ATTEMPT_STORED, w, Attempted(1)), w, 1, Responded(ack));
  }

  lemma EntryIsSent(w: WorkerId, ack: Acknowledgement) returns (steps: seq<Step>)
    ensures Run(START, steps) == Out(w, ack)
  {
    var open := Opening();
    var promote, claim := Promoting(CALL, ExecuteReviewed, 1, Reported),
                          Work(w, Claiming(CALL, ExecuteReviewed, 1, Reported));
    var attempt, send := Work(w, Attempting(CALL, Reported)), Work(w, Sending(Responded(ack)));
    TakeEntry(w);
    SendEntry(w, ack);
    RunThen(START, open, promote);
    RunThen(START, open + [promote], claim);
    RunThen(START, open + [promote] + [claim], attempt);
    RunThen(START, open + [promote] + [claim] + [attempt], send);
    steps := open + [promote] + [claim] + [attempt] + [send];
  }

  lemma AcceptedIsRecordable(db: Db, i: IntentId, ack: Acknowledgement)
    requires i in db.intents && SubmissionFailure(db, CALL, i, ack).None?
    ensures Recordable(db, i, ack) && RecordSubmission(db, CALL, i, ack) == Commit(Recorded(db, i, ack))
  {
  }

  /** The answer's record, seen by its worker. */
  lemma AnswerRecorded(w: WorkerId, ack: Acknowledgement)
    requires SubmissionFailure(ATTEMPT_STORED, CALL, 1, ack).None?
    ensures Recordable(ATTEMPT_STORED, 1, ack)
    ensures var t := Apply(Out(w, ack), Work(w, RecordingAnswer(CALL, Reported)));
            t.db == Recorded(ATTEMPT_STORED, 1, ack) && t.calls == map[1 := 1]
  {
    AcceptedIsRecordable(ATTEMPT_STORED, 1, ack);
    AnswerStep(Out(w, ack), w, 1, ack);
  }

  lemma OutIsSound(w: WorkerId, ack: Acknowledgement)
    ensures Sound(ATTEMPT_STORED)
  {
    var steps := EntryIsSent(w, ack);
    RunSound(START, steps);
  }

  // ----------------------------------------------------------------------------- expired while out

  const LATE := Call(FENCE, 2000, 10)

  lemma ExpiryTakesIt()
    ensures BulkExpire(ATTEMPT_STORED, LATE).failure.None?
    ensures var db := BulkExpire(ATTEMPT_STORED, LATE).db;
            && db.intents == ATTEMPT_STORED.intents && db.orders == map[] && db.events == ATTEMPT_STORED.events
            && db.leases == ATTEMPT_STORED.leases
            && RESERVATION in db.reservations && db.reservations[RESERVATION].status.ReservationExpired?
            && RESERVATION in db.transitions && db.transitions[RESERVATION] == Transition(Some(1), Expired)
            && KEY in db.allocations && db.allocations[KEY].reserved == 0.0
  {
    OutIsSound(0, ACKNOWLEDGEMENT);
    BulkExpireKeepsLedger(ATTEMPT_STORED, LATE);
    assert Expirable(ATTEMPT_STORED, LATE) == {RESERVATION};
    GroupOfOne();
  }

  lemma GroupOfOne()
    ensures GroupSum(ATTEMPT_STORED.reservations, {RESERVATION}, KEY) == 100.0
  {
    var rows := Restrict(ATTEMPT_STORED.reservations, {RESERVATION});
    assert rows == ATTEMPT_STORED.reservations;
    TotalSplit(rows, AmountUnder(KEY), RESERVATION);
    assert rows - {RESERVATION} == map[];
  }

  /** The order is out and its reservation expired. */
  ghost function OutAndExpired(w: WorkerId): World {
    Out(w, ACKNOWLEDGEMENT).(db := BulkExpire(ATTEMPT_STORED, LATE).db)
  }

  /** Without an active reservation the answer of the pending entry is refused. */
  lemma RefusedUnlessActive(db: Db)
    requires db.intents == ATTEMPT_STORED.intents && db.orders == map[] && db.events == ATTEMPT_STORED.events
    requires db.leases == ATTEMPT_STORED.leases
    requires RESERVATION in db.reservations && !db.reservations[RESERVATION].status.Active?
    ensures RecordSubmission(db, CALL, 1, ACKNOWLEDGEMENT) == Abort(ReservationCommitFailed)
  {
    assert SubmissionFailure(db, CALL, 1, ACKNOWLEDGEMENT) == Some(ReservationCommitFailed);
  }

  lemma ClassifiedAsAcknowledged()
    ensures ClassificationOf(ACKNOWLEDGEMENT) == SubmissionAcknowledged
  {
  }

  lemma AnswerIsRefused(w: WorkerId)
    ensures 1 in OutAndExpired(w).db.intents
    ensures RecordSubmission(OutAndExpired(w).db, CALL, 1, ACKNOWLEDGEMENT) == Abort(ReservationCommitFailed)
    ensures Apply(OutAndExpired(w), Work(w, RecordingAnswer(CALL, Reported)))
         == At(OutAndExpired(w), OutAndExpired(w).db, w, Uncertain(1, SubmissionAcknowledged))
  {
    ExpiryTakesIt();
    RefusedUnlessActive(OutAndExpired(w).db);
    ClassifiedAsAcknowledged();
    AnswerStep(OutAndExpired(w), w, 1, ACKNOWLEDGEMENT);
  }

  lemma ExpiresNext(w: WorkerId)
    ensures Apply(Out(w, ACKNOWLEDGEMENT), Recover(ExpiringReservations(LATE))) == OutAndExpired(w)
    ensures CallsFor(OutAndExpired(w), 1) == 1
  {
  }

  lemma PendingMeetsExpired(w: WorkerId)
    ensures var db := OutAndExpired(w).db;
            && 1 in db.intents && db.intents[1].status.Pending? && db.intents[1].reservation == Some(RESERVATION)
            && RESERVATION in db.transitions && db.transitions[RESERVATION] == Transition(Some(1), Expired)
  {
    ExpiryTakesIt();
  }

  /**
   A run in which a pending intent meets its expired reservation: the order was sent once, and its
   acknowledgement cannot be recorded.
   */
  lemma ExpiredWhileOut(w: WorkerId) returns (steps: seq<Step>)
    ensures Initial(START) && Run(START, steps) == OutAndExpired(w) && CallsFor(OutAndExpired(w), 1) == 1
    ensures var db := OutAndExpired(w).db;
            && 1 in db.intents && db.intents[1].status.Pending? && db.intents[1].reservation == Some(RESERVATION)
            && RESERVATION in db.transitions && db.transitions[RESERVATION] == Transition(Some(1), Expired)
            && RecordSubmission(db, CALL, 1, ACKNOWLEDGEMENT) == Abort(ReservationCommitFailed)
    ensures Run(START, steps + [Work(w, RecordingAnswer(CALL, Reported))])
         == At(OutAndExpired(w), OutAndExpired(w).db, w, Uncertain(1, SubmissionAcknowledged))
  {
    var sent := EntryIsSent(w, ACKNOWLEDGEMENT);
    ExpiresNext(w);
    steps := sent + [Recover(ExpiringReservations(LATE))];
    RunThen(START, sent, Recover(ExpiringReservations(LATE)));
    RunThen(START, steps, Work(w, RecordingAnswer(CALL, Reported)));
    PendingMeetsExpired(w);
    AnswerIsRefused(w);
  }

  // ---------------------------------------------------------------------------- committed and freed

  lemma AnswerCommits()
    ensures SubmissionFailure(ATTEMPT_STORED, CALL, 1, ACKNOWLEDGEMENT).None?
  {
  }

  /** A run that commits a reservation, and whose market order then counts nothing against the limits. */
  lemma CommittedAndFreed(w: WorkerId) returns (steps: seq<Step>)
    ensures Initial(START) && CallsFor(Run(START, steps), 1) == 1
    ensures var db := Run(START, steps).db;
            && 1 in db.intents && db.intents[1].status.Submitted?
            && RESERVATION in db.reservations && db.reservations[RESERVATION].status.Committed?
            && Exposure(db, 0, CALL.now) < Exposure(ATTEMPT_STORED, 0, CALL.now)
  {
    var sent := EntryIsSent(w, ACKNOWLEDGEMENT);
    steps := sent + [Work(w, RecordingAnswer(CALL, Reported))];
    RunThen(START, sent, Work(w, RecordingAnswer(CALL, Reported)));
    AnswerCommits();
    AnswerRecorded(w, ACKNOWLEDGEMENT);
    CommittedRows();
    MarketOrderFrees();
  }

  lemma MarketOrderFrees()
    requires Recordable(ATTEMPT_STORED, 1, ACKNOWLEDGEMENT)
    ensures Exposure(Recorded(ATTEMPT_STORED, 1, ACKNOWLEDGEMENT), 0, CALL.now) < Exposure(ATTEMPT_STORED, 0, CALL.now)
  {
    OutIsSound(0, ACKNOWLEDGEMENT);
    AnswerCommits();
    MarketOrderFreesCapacity(ATTEMPT_STORED, CALL, 1, ACKNOWLEDGEMENT, CALL.now);
  }

  lemma CommittedRows()
    requires Recordable(ATTEMPT_STORED, 1, ACKNOWLEDGEMENT)
    ensures var db := Recorded(ATTEMPT_STORED, 1, ACKNOWLEDGEMENT);
            && 1 in db.intents && db.intents[1].status.Submitted?
            && RESERVATION in db.reservations && db.reservations[RESERVATION].status.Committed?
  {
    RecordedRow(ATTEMPT_STORED, 1, ACKNOWLEDGEMENT);
  }

  lemma RecordedRow(db: Db, i: IntentId, ack: Acknowledgement)
    requires Recordable(db, i, ack) && db.intents[i].reservation.Some?
    ensures var noted, lifecycle := Acknowledged(db, i, ack),
                                    StateForBrokerStatus(db.intents[i].reviewType, ack.status.value);
            && Recorded(db, i, ack).reservations == Reserve(noted, i, lifecycle).reservations
            && Recorded(db, i, ack).transitions == Reserve(noted, i, lifecycle).transitions
            && Recorded(db, i, ack).intents == Reserve(noted, i, lifecycle).intents
  {
  }

  // ---------------------------------------------------------------------------------------- settled

  const CANCELED := ACKNOWLEDGEMENT.(status := Some(StatusCanceled))

  lemma CancellationAccepted()
    ensures SubmissionFailure(ATTEMPT_STORED, CALL, 1, CANCELED).None?
  {
    assert StateForBrokerStatus(Entry, StatusCanceled) == Cancelled;
    assert Settleable(ATTEMPT_STORED, RESERVATION);
  }

  lemma ReleasedRow()
    requires Recordable(ATTEMPT_STORED, 1, CANCELED)
    ensures var db := Recorded(ATTEMPT_STORED, 1, CANCELED);
            && RESERVATION in db.reservations && db.reservations[RESERVATION].status.Released?
            && RESERVATION in db.transitions && db.transitions[RESERVATION] == Transition(Some(1), Cancelled)
  {
    RecordedRow(ATTEMPT_STORED, 1, CANCELED);
  }

  /** A run that releases a reservation with its terminal row. */
  lemma SettledByCancellation(w: WorkerId) returns (steps: seq<Step>)
    ensures Initial(START) && CallsFor(Run(START, steps), 1) == 1
    ensures var db := Run(START, steps).db;
            && RESERVATION in db.reservations && db.reservations[RESERVATION].status.Released?
            && RESERVATION in db.transitions && db.transitions[RESERVATION] == Transition(Some(1), Cancelled)
  {
    var sent := EntryIsSent(w, CANCELED);
    steps := sent + [Work(w, RecordingAnswer(CALL, Reported))];
    RunThen(START, sent, Work(w, RecordingAnswer(CALL, Reported)));
    CancellationAccepted();
    AnswerRecorded(w, CANCELED);
    ReleasedRow();
  }
}
