/**
 Money over all runs of the execution command and the recovery, which is what the protocol's steps are.
 Order reconciliation, a service of its own that also writes these rows, is no step of theirs. In every
 state such runs reach, the reserved amounts are the sums of the held reservations, no allocation is
 reserved beyond its amount, and a reservation goes terminal under a running intent only by expiry.
 */
module MoneyOverRuns {
  import opened Options
  import opened MapSums
  import opened TradeLifecycle
  import opened Tables
  import opened Ledger
  import opened Recovery
  import opened Conservation
  import opened BulkExpiry
  import opened Protocol

  predicate Running(status: IntentStatus) {
    status.Ready? || status.Pending?
  }

  /** While an intent is ready or pending, its reservation can only have ended by expiring. */
  ghost predicate EndsByExpiry(intents: Intents, transitions: Transitions) {
    forall i :: i in intents && Running(intents[i].status) && intents[i].reservation.Some?
                && intents[i].reservation.value in transitions ==>
                  transitions[intents[i].reservation.value] == Transition(Some(i), Expired)
  }

  ghost predicate Sound(db: Db) {
    LedgerSound(db) && WithinAllocations(db) && EndsByExpiry(db.intents, db.transitions)
  }

  // ------------------------------------------------------------------------ writes off the ledger

  predicate SameLinks(before: Intents, after: Intents) {
    && before.Keys == after.Keys
    && forall i :: i in before ==>
                     after[i].reservation == before[i].reservation
                     && (Running(after[i].status) ==> Running(before[i].status))
  }

  lemma QuietWrite(db: Db, after: Db)
    requires Sound(db) && LedgerSound(after)
    requires after.allocations == db.allocations && after.transitions == db.transitions
             && SameLinks(db.intents, after.intents)
    ensures Sound(after)
  {
  }

  lemma ClaimSound(db: Db, call: Call, command: Command, i: IntentId)
    requires Sound(db)
    ensures Sound(After(db, Claim(db, call, command, i)))
  {
    ClaimKeepsLedger(db, call, command, i);
    QuietWrite(db, After(db, Claim(db, call, command, i)));
  }

  lemma ReleaseSound(db: Db, call: Call, i: IntentId)
    requires Sound(db)
    ensures Sound(After(db, ReleaseClaim(db, call, i)))
  {
    ReleaseKeepsLedger(db, call, i);
    QuietWrite(db, After(db, ReleaseClaim(db, call, i)));
  }

  lemma AttemptSound(db: Db, call: Call, i: IntentId)
    requires Sound(db) && i in db.intents
    ensures Sound(After(db, RecordAttempt(db, call, i)))
  {
    AttemptKeepsLedger(db, call, i);
    QuietWrite(db, After(db, RecordAttempt(db, call, i)));
  }

  lemma AmbiguousSound(db: Db, call: Call, i: IntentId, status: EventStatus)
    requires Sound(db) && i in db.intents
    ensures Sound(After(db, RecordAmbiguous(db, call, i, status)))
  {
    AmbiguousKeepsLedger(db, call, i, status);
    QuietWrite(db, After(db, RecordAmbiguous(db, call, i, status)));
  }

  /** The reservation of a rejected order stays as it was, and stays in the ledger. */
  lemma RejectionSound(db: Db, call: Call, i: IntentId)
    requires Sound(db) && i in db.intents
    ensures Sound(After(db, RecordRejection(db, call, i)))
    ensures After(db, RecordRejection(db, call, i)).reservations == db.reservations
  {
    RejectionKeepsLedger(db, call, i);
    QuietWrite(db, After(db, RecordRejection(db, call, i)));
  }

  lemma ReconciledSound(db: Db, call: Call, i: IntentId, brokerOrder: BrokerOrderId)
    requires Sound(db) && i in db.intents
    ensures Sound(After(db, RecordReconciled(db, call, i, brokerOrder)))
  {
    var after := After(db, RecordReconciled(db, call, i, brokerOrder));
    assert after.intents == db.intents && after.reservations == db.reservations;
    QuietWrite(db, after);
  }

  lemma PreserveStaleSound(db: Db, call: Call, i: IntentId)
    requires Sound(db)
    ensures Sound(PreserveStale(db, call, i))
  {
    PreserveStaleKeepsLedger(db, call, i);
    QuietWrite(db, PreserveStale(db, call, i));
  }

  lemma CancelStaleCreatedSound(db: Db, call: Call)
    requires Sound(db)
    ensures Sound(CancelStaleCreated(db, call))
  {
    CancelStaleCreatedKeepsLedger(db, call);
    QuietWrite(db, CancelStaleCreated(db, call));
  }

  // -------------------------------------------------------------------------- writes to the ledger

  lemma PromotionWithin(db: Db, call: Call, command: Command, i: IntentId)
    requires WithinAllocations(db) && Promote(db, call, command, i).Commit?
    ensures WithinAllocations(Promoted(db, call, command, i))
  {
  }

  lemma PromotionEnds(db: Db, call: Call, command: Command, i: IntentId)
    requires LedgerSound(db) && EndsByExpiry(db.intents, db.transitions) && Promote(db, call, command, i).Commit?
    ensures EndsByExpiry(Promoted(db, call, command, i).intents, db.transitions)
  {
  }

  lemma PromoteSound(db: Db, call: Call, command: Command, i: IntentId)
    requires Sound(db)
    ensures Sound(After(db, Promote(db, call, command, i)))
  {
    PromoteKeepsLedger(db, call, command, i);
    if Promote(db, call, command, i).Commit? {
      PromotionWithin(db, call, command, i);
      PromotionEnds(db, call, command, i);
    }
  }

  /** Settling the reservation of an intent that is no longer running. */
  lemma SettleSound(db: Db, r: ReservationId, status: ReservationStatus, t: Transition)
    requires Sound(db) && Settleable(db, r) && (status.Released? || status.ReservationExpired?)
    requires forall i :: i in db.intents && db.intents[i].reservation == Some(r) ==> !Running(db.intents[i].status)
    ensures Sound(Settle(db, r, status, t))
  {
    SettleKeepsLedger(db, r, status, t);
    SettleWithin(db, r, status, t);
  }

  lemma SettleWithin(db: Db, r: ReservationId, status: ReservationStatus, t: Transition)
    requires LedgerSound(db) && WithinAllocations(db) && Settleable(db, r)
    ensures WithinAllocations(Settle(db, r, status, t))
  {
    HeldIsCovered(db, r);
  }

  lemma AcknowledgedSound(db: Db, i: IntentId, ack: Acknowledgement)
    requires Sound(db) && Recordable(db, i, ack) && db.intents[i].status.Pending?
    ensures Sound(Acknowledged(db, i, ack)) && !Running(Acknowledged(db, i, ack).intents[i].status)
  {
    var after := Acknowledged(db, i, ack);
    StatusKeepsLedger(db.intents, db.reservations, db.allocations, db.transitions, i, after.intents[i]);
    QuietWrite(db, after);
  }

  lemma ReserveSound(db: Db, i: IntentId, lifecycle: State)
    requires Sound(db) && i in db.intents && !Running(db.intents[i].status)
    requires var r := db.intents[i].reservation;
             r.Some? ==> if TerminalWithoutFill(lifecycle) then Settleable(db, r.value)
               else r.value in db.reservations && db.reservations[r.value].status.Active?
                    && db.intents[i].status.Submitted?
    ensures Sound(Reserve(db, i, lifecycle))
  {
    var r := db.intents[i].reservation;
    if r.Some? {
      assert LinkedRow(i, db.intents[i], db.reservations);
      if TerminalWithoutFill(lifecycle) {
        assert forall j :: j in db.intents ==> LinkedRow(j, db.intents[j], db.reservations);
        SettleSound(db, r.value, Released, Transition(Some(i), lifecycle));
      } else {
        CommitKeepsLedger(db.intents, db.reservations, db.allocations, db.transitions, r.value);
      }
    }
  }

  lemma SubmissionSound(db: Db, call: Call, i: IntentId, ack: Acknowledgement)
    requires Sound(db) && i in db.intents
    ensures Sound(After(db, RecordSubmission(db, call, i, ack)))
  {
    if RecordSubmission(db, call, i, ack).Commit? {
      RecordedSound(db, i, ack);
    }
  }

  lemma RecordedSound(db: Db, i: IntentId, ack: Acknowledgement)
    requires Sound(db) && Recordable(db, i, ack) && db.intents[i].status.Pending?
    ensures Sound(Recorded(db, i, ack))
  {
    var lifecycle := StateForBrokerStatus(db.intents[i].reviewType, ack.status.value);
    AcknowledgedSound(db, i, ack);
    ReserveSound(Acknowledged(db, i, ack), i, lifecycle);
    var reserved := Reserve(Acknowledged(db, i, ack), i, lifecycle);
    assert Recorded(db, i, ack).allocations == reserved.allocations;
    assert Recorded(db, i, ack).intents == reserved.intents;
  }

  lemma CancelledSound(db: Db, call: Call, i: IntentId)
    requires Sound(db) && Cancellable(db, call, i)
    ensures Sound(CancelledIntent(db, i))
  {
    var cancelled := CancelledIntent(db, i);
    StatusKeepsLedger(db.intents, db.reservations, db.allocations, db.transitions, i, cancelled.intents[i]);
    QuietWrite(db, cancelled);
  }

  lemma CancelStaleSound(db: Db, call: Call, i: IntentId)
    requires Sound(db)
    ensures Sound(CancelStale(db, call, i).db)
  {
    var locked := LockedReservation(db, i);
    if locked.Some? {
      HeldIsCovered(db, locked.value);
    }
    if Cancellable(db, call, i) {
      CancelledSound(db, call, i);
      var cancelled := CancelledIntent(db, i);
      if locked.Some? {
        assert forall j :: j in cancelled.intents ==> LinkedRow(j, cancelled.intents[j], cancelled.reservations);
        SettleSound(cancelled, locked.value, Released, Transition(Some(i), Cancelled));
      }
    }
  }

  lemma GroupSumNonnegative(db: Db, rs: set<ReservationId>, k: AllocationKey)
    requires LedgerSound(db)
    ensures GroupSum(db.reservations, rs, k) >= 0.0
  {
    TotalNonnegative(Restrict(db.reservations, rs), AmountUnder(k));
  }

  lemma ExpiredTogetherWithin(db: Db, rs: set<ReservationId>)
    requires LedgerSound(db) && WithinAllocations(db)
    ensures WithinAllocations(ExpiredTogether(db, rs))
  {
    forall k | k in db.allocations
      ensures Debited(db.allocations, db.reservations, rs)[k].reserved <= db.allocations[k].reserved
    {
      GroupSumNonnegative(db, rs, k);
    }
  }

  lemma ExpiredTogetherEnds(db: Db, rs: set<ReservationId>)
    requires LedgerSound(db) && EndsByExpiry(db.intents, db.transitions)
    ensures EndsByExpiry(db.intents, Terminated(db, rs))
  {
    forall i | i in db.intents && db.intents[i].reservation.Some? && db.intents[i].reservation.value in rs
      ensures Terminated(db, rs)[db.intents[i].reservation.value] == Transition(Some(i), Expired)
    {
      assert LinkedRow(i, db.intents[i], db.reservations);
    }
  }

  lemma BulkExpireSound(db: Db, call: Call)
    requires Sound(db)
    ensures Sound(BulkExpire(db, call).db)
  {
    BulkExpireKeepsLedger(db, call);
    ExpiredTogetherWithin(db, Expirable(db, call));
    ExpiredTogetherEnds(db, Expirable(db, call));
  }

  // -------------------------------------------------------------------------------- steps and runs

  lemma AllotSound(db: Db, k: AllocationKey, allocation: Allocation)
    requires Sound(db) && Allottable(db, k, allocation)
    ensures Sound(db.(allocations := db.allocations[k := allocation]))
  {
    TotalZero(db.reservations, HeldWeight(k));
    var after := db.allocations[k := allocation];
    assert Balanced(db.reservations, after);
  }

  lemma CreateSound(db: Db, i: IntentId, intent: Intent)
    requires Sound(db) && Creatable(db, i, intent)
    ensures Sound(db.(intents := db.intents[i := intent]))
  {
  }

  lemma EnvironmentSound(db: Db, change: Change)
    requires Sound(db)
    ensures Sound(EnvironmentStep(db, change))
  {
    match change {
      case Creating(i, intent) => if Creatable(db, i, intent) { CreateSound(db, i, intent); }
      case Allotting(k, allocation) => if Allottable(db, k, allocation) { AllotSound(db, k, allocation); }
      case _ => QuietWrite(db, EnvironmentStep(db, change));
    }
  }

  lemma RecoverSound(s: World, act: Act)
    requires Sound(s.db)
    ensures Sound(RecoverStep(s, act).db)
  {
    match act {
      case CancellingStale(call, i) => CancelStaleSound(s.db, call, i);
      case PreservingStale(call, i) => PreserveStaleSound(s.db, call, i);
      case ExpiringReservations(call) => BulkExpireSound(s.db, call);
      case ExpiringReviews(call) => QuietWrite(s.db, ExpireReviews(s.db, call));
      case ExpiringConfirmations(call) => QuietWrite(s.db, ExpireConfirmations(s.db, call));
      case CancellingCreated(call) => CancelStaleCreatedSound(s.db, call);
      case _ =>
    }
  }

  lemma RecordSound(s: World, w: WorkerId, call: Call, report: Report)
    requires Sound(s.db)
    ensures Sound(RecordStep(s, w, call, report).db)
  {
    var pc := PcOf(s.pcs, w);
    if pc.Answered? && pc.intent in s.db.intents {
      match pc.answer {
        case Responded(ack) => SubmissionSound(s.db, call, pc.intent, ack);
        case Refused => RejectionSound(s.db, call, pc.intent);
        case Lost =>
      }
    }
  }

  lemma AttemptStepSound(s: World, w: WorkerId, call: Call, report: Report)
    requires Sound(s.db)
    ensures Sound(AttemptStep(s, w, call, report).db)
  {
    var pc := PcOf(s.pcs, w);
    if pc.Claimed? && pc.intent in s.db.intents {
      AttemptSound(s.db, call, pc.intent);
    }
  }

  lemma DoubtSound(s: World, w: WorkerId, call: Call, report: Report)
    requires Sound(s.db)
    ensures Sound(DoubtStep(s, w, call, report).db)
  {
    var pc := PcOf(s.pcs, w);
    if pc.Uncertain? && pc.intent in s.db.intents {
      AmbiguousSound(s.db, call, pc.intent, pc.classification);
    }
  }

  lemma ReconcileSound(s: World, w: WorkerId, call: Call, recovered: Option<BrokerOrderId>, report: Report)
    requires Sound(s.db)
    ensures Sound(ReconcileStep(s, w, call, recovered, report).db)
  {
    var pc := PcOf(s.pcs, w);
    if pc.Recovering? && pc.intent in s.db.intents && recovered.Some? {
      ReconciledSound(s.db, call, pc.intent, recovered.value);
    }
  }

  lemma WorkSound(s: World, w: WorkerId, action: Action)
    requires Sound(s.db)
    ensures Sound(WorkStep(s, w, action).db)
  {
    match action {
      case Claiming(call, command, i, report) => ClaimSound(s.db, call, command, i);
      case Attempting(call, report) => AttemptStepSound(s, w, call, report);
      case ReleasingClaim(call, report) => ReleaseStepSound(s, w, call, report);
      case RecordingAnswer(call, report) => RecordSound(s, w, call, report);
      case RecordingDoubt(call, report) => DoubtSound(s, w, call, report);
      case Reconciling(call, recovered, report) => ReconcileSound(s, w, call, recovered, report);
      case _ => assert WorkStep(s, w, action).db == s.db;
    }
  }

  lemma ReleaseStepSound(s: World, w: WorkerId, call: Call, report: Report)
    requires Sound(s.db)
    ensures Sound(ReleaseStep(s, w, call, report).db)
  {
    var pc := PcOf(s.pcs, w);
    if pc.Releasing? {
      ReleaseSound(s.db, call, pc.intent);
    }
  }

  lemma StepSound(s: World, step: Step)
    requires Sound(s.db)
    ensures Sound(Apply(s, step).db)
  {
    match step {
      case Environment(change) => EnvironmentSound(s.db, change);
      case Promoting(call, command, i, report) => PromoteSound(s.db, call, command, i);
      case Work(w, action) => WorkSound(s, w, action);
      case Recover(act) => RecoverSound(s, act);
    }
  }

  lemma {:induction false} RunSound(s: World, steps: seq<Step>)
    requires Sound(s.db)
    ensures Sound(Run(s, steps).db)
    decreases |steps|
  {
    if steps != [] {
      StepSound(s, steps[0]);
      RunSound(Apply(s, steps[0]), steps[1..]);
    }
  }

  /**
   Conservation over every run of workers and recoveries: reserved amounts equal held reservations, no
   allocation is reserved beyond its amount, and neither recovery statement can report a mismatch or stop
   short.
   */
  lemma MoneyIsConserved(s: World, steps: seq<Step>, call: Call, i: IntentId)
    requires Initial(s)
    ensures LedgerSound(Run(s, steps).db) && WithinAllocations(Run(s, steps).db)
    ensures BulkExpire(Run(s, steps).db, call).failure.None?
    ensures CancelStale(Run(s, steps).db, call, i).failure.None?
  {
    RunSound(s, steps);
    BulkExpireKeepsLedger(Run(s, steps).db, call);
    CancelStaleKeepsLedger(Run(s, steps).db, call, i);
  }

  /** Taking the reservation out of its allocation's reserved amount does not meet the clamp at zero. */
  predicate Unclamped(db: Db, r: ReservationId) {
    && r in db.reservations && db.reservations[r].key in db.allocations
    && var row := db.reservations[r];
    AtLeastZero(db.allocations[row.key].reserved - row.amount) == db.allocations[row.key].reserved - row.amount
  }

  /** Over every run the clamp at zero never acts: what is released is always still reserved. */
  lemma ClampNeverActs(s: World, steps: seq<Step>, r: ReservationId)
    requires Initial(s) && r in Run(s, steps).db.reservations && Held(Run(s, steps).db.reservations[r])
    ensures Unclamped(Run(s, steps).db, r)
  {
    RunSound(s, steps);
    HeldIsUnclamped(Run(s, steps).db, r);
  }

  lemma HeldIsUnclamped(db: Db, r: ReservationId)
    requires LedgerSound(db) && r in db.reservations && Held(db.reservations[r])
    ensures Unclamped(db, r)
  {
    HeldIsCovered(db, r);
  }

  /** A complete answer for a pending intent, its order and event new and the fence held. */
  predicate Deliverable(db: Db, call: Call, i: IntentId, ack: Acknowledgement) {
    && i in db.intents && db.intents[i].status.Pending?
    && ack.brokerOrder.Some? && ack.status.Some? && ack.clientOrder == db.intents[i].terms.clientOrder
    && FenceHeld(db.leases, call) && OrderKeyOf(db.intents[i]) !in db.orders
    && !BrokerOrderKnown(db.orders, ack.brokerOrder.value)
    && AcknowledgedKey(db.intents[i].account, ack.brokerOrder.value, ack.status.value, ack.occurredAt) !in db.events
  }

  /**
   The only way the reservation stops an acknowledgement from being recorded: over every run, an answer
   that can be delivered meets a reservation that cannot be released or committed exactly when the bulk
   expiry took it while the order was out.
   */
  lemma ReservationBlocksIffExpired(s: World, steps: seq<Step>, call: Call, i: IntentId, ack: Acknowledgement)
    requires Initial(s)
    requires Deliverable(Run(s, steps).db, call, i, ack) && Run(s, steps).db.intents[i].reservation.Some?
    ensures var db := Run(s, steps).db;
            var failure, r := SubmissionFailure(db, call, i, ack), db.intents[i].reservation.value;
            && (failure == Some(TerminalReleaseFailed) || failure == Some(ReservationCommitFailed)
                <==> r in db.transitions)
            && (r in db.transitions ==> db.transitions[r] == Transition(Some(i), Expired))
  {
    RunSound(s, steps);
    ReservationBlocks(Run(s, steps).db, call, i, ack);
  }

  lemma ReservationBlocks(db: Db, call: Call, i: IntentId, ack: Acknowledgement)
    requires Sound(db) && Deliverable(db, call, i, ack) && db.intents[i].reservation.Some?
    ensures var failure, r := SubmissionFailure(db, call, i, ack), db.intents[i].reservation.value;
            && (failure == Some(TerminalReleaseFailed) || failure == Some(ReservationCommitFailed)
                <==> r in db.transitions)
            && (r in db.transitions ==> db.transitions[r] == Transition(Some(i), Expired))
  {
    assert LinkedRow(i, db.intents[i], db.reservations);
  }

  // -------------------------------------------------------------------- committed reservations stay

  predicate CommittedKept(before: Reservations, after: Reservations) {
    forall r :: r in before && before[r].status.Committed? ==> r in after && after[r] == before[r]
  }

  lemma SubmissionKeepsCommitted(db: Db, call: Call, i: IntentId, ack: Acknowledgement)
    requires LedgerSound(db) && i in db.intents
    ensures CommittedKept(db.reservations, After(db, RecordSubmission(db, call, i, ack)).reservations)
  {
    if RecordSubmission(db, call, i, ack).Commit? {
      RecordedKeepsCommitted(db, i, ack);
    }
  }

  lemma SettleKeepsCommitted(db: Db, r: ReservationId, status: ReservationStatus, t: Transition)
    requires Settleable(db, r) && !db.reservations[r].status.Committed?
    ensures CommittedKept(db.reservations, Settle(db, r, status, t).reservations)
  {
  }

  lemma RunningIsUncommitted(db: Db, i: IntentId)
    requires LedgerSound(db) && i in db.intents && Running(db.intents[i].status) && db.intents[i].reservation.Some?
    ensures db.intents[i].reservation.value in db.reservations
    ensures !db.reservations[db.intents[i].reservation.value].status.Committed?
  {
    assert LinkedRow(i, db.intents[i], db.reservations);
  }

  lemma RecordedKeepsCommitted(db: Db, i: IntentId, ack: Acknowledgement)
    requires LedgerSound(db) && Recordable(db, i, ack) && db.intents[i].status.Pending?
    ensures CommittedKept(db.reservations, Recorded(db, i, ack).reservations)
  {
    var lifecycle, noted := StateForBrokerStatus(db.intents[i].reviewType, ack.status.value), Acknowledged(db, i, ack);
    var r := db.intents[i].reservation;
    assert Recorded(db, i, ack).reservations == Reserve(noted, i, lifecycle).reservations;
    if r.Some? {
      RunningIsUncommitted(db, i);
      if TerminalWithoutFill(lifecycle) {
        SettleKeepsCommitted(noted, r.value, Released, Transition(Some(i), lifecycle));
      }
    }
  }

  lemma CancelStaleKeepsCommitted(db: Db, call: Call, i: IntentId)
    requires LedgerSound(db)
    ensures CommittedKept(db.reservations, CancelStale(db, call, i).db.reservations)
  {
    var locked := LockedReservation(db, i);
    if Cancellable(db, call, i) && locked.Some? {
      RunningIsUncommitted(db, i);
      if Covered(db, locked.value) && locked.value !in db.transitions {
        SettleKeepsCommitted(CancelledIntent(db, i), locked.value, Released, Transition(Some(i), Cancelled));
      } else {
        assert CancelStale(db, call, i).db.reservations == db.reservations;
      }
    } else {
      assert CancelStale(db, call, i).db.reservations == db.reservations;
    }
  }

  lemma BulkExpireKeepsCommitted(db: Db, call: Call)
    requires LedgerSound(db)
    ensures CommittedKept(db.reservations, BulkExpire(db, call).db.reservations)
  {
    BulkExpireKeepsLedger(db, call);
  }

  lemma RecoverKeepsCommitted(s: World, act: Act)
    requires LedgerSound(s.db)
    ensures CommittedKept(s.db.reservations, RecoverStep(s, act).db.reservations)
  {
    match act {
      case CancellingStale(call, i) => CancelStaleKeepsCommitted(s.db, call, i);
      case ExpiringReservations(call) => BulkExpireKeepsCommitted(s.db, call);
      case _ => OtherActsKeepReservations(s, act);
    }
  }

  lemma OtherActsKeepReservations(s: World, act: Act)
    requires !act.CancellingStale? && !act.ExpiringReservations?
    ensures RecoverStep(s, act).db.reservations == s.db.reservations
  {
  }

  lemma PromoteKeepsCommitted(db: Db, call: Call, command: Command, i: IntentId)
    ensures CommittedKept(db.reservations, After(db, Promote(db, call, command, i)).reservations)
  {
  }

  lemma RecordKeepsCommitted(s: World, w: WorkerId, call: Call, report: Report)
    requires LedgerSound(s.db)
    ensures CommittedKept(s.db.reservations, RecordStep(s, w, call, report).db.reservations)
  {
    var pc := PcOf(s.pcs, w);
    if pc.Answered? && pc.intent in s.db.intents && pc.answer.Responded? {
      SubmissionKeepsCommitted(s.db, call, pc.intent, pc.answer.ack);
    } else {
      assert RecordStep(s, w, call, report).db.reservations == s.db.reservations;
    }
  }

  /** The worker steps that leave reservations alone. */
  lemma WorkKeepsReservations(s: World, w: WorkerId, action: Action)
    requires !action.RecordingAnswer?
    ensures WorkStep(s, w, action).db.reservations == s.db.reservations
  {
  }

  lemma EnvironmentKeepsReservations(db: Db, change: Change)
    ensures EnvironmentStep(db, change).reservations == db.reservations
  {
  }

  lemma WorkKeepsCommitted(s: World, w: WorkerId, action: Action)
    requires LedgerSound(s.db)
    ensures CommittedKept(s.db.reservations, WorkStep(s, w, action).db.reservations)
  {
    if action.RecordingAnswer? {
      RecordKeepsCommitted(s, w, action.call, action.report);
    } else {
      WorkKeepsReservations(s, w, action);
    }
  }

  lemma StepKeepsCommitted(s: World, step: Step)
    requires LedgerSound(s.db)
    ensures CommittedKept(s.db.reservations, Apply(s, step).db.reservations)
  {
    match step {
      case Environment(change) => EnvironmentKeepsReservations(s.db, change);
      case Promoting(call, command, i, report) => PromoteKeepsCommitted(s.db, call, command, i);
      case Recover(act) => RecoverKeepsCommitted(s, act);
      case Work(w, action) => WorkKeepsCommitted(s, w, action);
    }
  }

  /**
   Neither a worker nor a recovery releases, expires or changes a committed reservation, whatever it does
   afterwards: taking it out is left to order reconciliation.
   */
  lemma {:induction false} CommittedStays(s: World, steps: seq<Step>)
    requires Sound(s.db)
    ensures CommittedKept(s.db.reservations, Run(s, steps).db.reservations)
    decreases |steps|
  {
    if steps != [] {
      StepKeepsCommitted(s, steps[0]);
      StepSound(s, steps[0]);
      CommittedStays(Apply(s, steps[0]), steps[1..]);
    }
  }
}
