/**
 What stops an acknowledgement from being recorded, over all runs of workers and recoveries: an expired
 reservation, review or confirmation, or a candidate that is no longer selected. Reviews and candidates
 are written by other services too; a pending intent's confirmation is only ever ended by the recovery.
 */
module AnswerRecords {
  import opened Options
  import opened TradeLifecycle
  import opened Tables
  import opened Ledger
  import opened Recovery
  import opened Conservation
  import opened Protocol
  import opened AtMostOnce
  import opened MoneyOverRuns

  type Confirmations = map<ConfirmationId, Confirmation>

  /** An intent in this status never runs again. */
  predicate Over(status: IntentStatus) {
    status.Submitted? || status.Ambiguous? || status.Failed? || status.IntentCancelled?
  }

  /** Neither consumed nor revoked. */
  predicate Unspent(confirmation: Confirmation) {
    confirmation.status.ConfirmationValid? || confirmation.status.ConfirmationExpired?
  }

  predicate Linked(intents: Intents, i: IntentId, c: ConfirmationId) {
    i in intents && intents[i].confirmation == Some(c)
  }

  /** The confirmation of a running intent is there and neither consumed nor revoked. */
  predicate ConfirmedAt(intents: Intents, confirmations: Confirmations, i: IntentId) {
    i in intents && Running(intents[i].status) ==>
      && intents[i].confirmation.Some? && intents[i].confirmation.value in confirmations
      && Unspent(confirmations[intents[i].confirmation.value])
  }

  /** No confirmation is of two intents, each is there, and a running intent's is unspent. */
  ghost predicate Evidence(intents: Intents, confirmations: Confirmations) {
    && (forall i, c :: Linked(intents, i, c) ==> c in confirmations)
    && (forall i, j, c :: Linked(intents, i, c) && Linked(intents, j, c) ==> i == j)
    && (forall i :: ConfirmedAt(intents, confirmations, i))
  }

  /** Whoever reconciles an intent has filed it as ambiguous before. */
  ghost predicate ReconcilersLate(s: World) {
    forall w :: w in s.pcs && s.pcs[w].Recovering? ==>
                  s.pcs[w].intent in s.db.intents && Over(s.db.intents[s.pcs[w].intent].status)
  }

  ghost predicate Confirmed(s: World) {
    Evidence(s.db.intents, s.db.confirmations) && ReconcilersLate(s)
  }

  // ------------------------------------------------------------------------------ writes off the links

  /** No intent starts to run or runs again, and each keeps its confirmation. */
  predicate OnlyEnds(before: Intents, after: Intents) {
    before.Keys == after.Keys && forall i :: i in before ==> Ends(before[i], after[i])
  }

  predicate Ends(before: Intent, after: Intent) {
    && after.confirmation == before.confirmation
    && (Running(after.status) ==> Running(before.status))
    && (Over(before.status) ==> Over(after.status))
  }

  lemma OneEnds(intents: Intents, i: IntentId, status: IntentStatus, lifecycle: State)
    requires i in intents
    requires (Running(status) ==> Running(intents[i].status)) && (Over(intents[i].status) ==> Over(status))
    ensures OnlyEnds(intents, WithStatus(intents, i, status, lifecycle))
  {
  }

  lemma EvidenceStays(before: Intents, after: Intents, confirmations: Confirmations)
    requires Evidence(before, confirmations) && OnlyEnds(before, after)
    ensures Evidence(after, confirmations)
  {
    assert forall i, c :: Linked(after, i, c) ==> Linked(before, i, c);
    forall i
      ensures ConfirmedAt(after, confirmations, i)
    {
      assert ConfirmedAt(before, confirmations, i);
    }
  }

  /** Consuming the confirmation of an intent that is over leaves those of the running ones. */
  lemma SpendingOne(intents: Intents, confirmations: Confirmations, i: IntentId, row: Confirmation)
    requires Evidence(intents, confirmations) && i in intents && !Running(intents[i].status)
    requires intents[i].confirmation.Some?
    ensures Evidence(intents, confirmations[intents[i].confirmation.value := row])
  {
    var c := intents[i].confirmation.value;
    var spent := confirmations[c := row];
    assert Linked(intents, i, c);
    forall j
      ensures ConfirmedAt(intents, spent, j)
    {
      assert ConfirmedAt(intents, confirmations, j);
      assert Linked(intents, j, c) ==> i == j;
    }
  }

  lemma ExpiringKeepsEvidence(db: Db, call: Call)
    requires Evidence(db.intents, db.confirmations)
    ensures Evidence(db.intents, ExpireConfirmations(db, call).confirmations)
  {
    var expired := ExpireConfirmations(db, call).confirmations;
    forall i
      ensures ConfirmedAt(db.intents, expired, i)
    {
      assert ConfirmedAt(db.intents, db.confirmations, i);
    }
  }

  // ------------------------------------------------------------------------------------ the writes

  lemma PromotedEvidence(intents: Intents, confirmations: Confirmations, i: IntentId, c: ConfirmationId, intent: Intent,
                         row: Confirmation)
    requires Evidence(intents, confirmations) && c !in confirmations
    requires intent.confirmation == Some(c) && Unspent(row)
    ensures Evidence(intents[i := intent], confirmations[c := row])
  {
    var after, more := intents[i := intent], confirmations[c := row];
    assert forall j, d :: Linked(after, j, d) ==> if j == i then d == c else Linked(intents, j, d);
    forall j
      ensures ConfirmedAt(after, more, j)
    {
      assert ConfirmedAt(intents, confirmations, j);
      assert j in intents && intents[j].confirmation.Some? ==> Linked(intents, j, intents[j].confirmation.value);
    }
  }

  lemma PromoteKeepsEvidence(db: Db, call: Call, command: Command, i: IntentId)
    requires Evidence(db.intents, db.confirmations)
    ensures var after := After(db, Promote(db, call, command, i));
            && Evidence(after.intents, after.confirmations) && OversStay(db.intents, after.intents)
  {
    if Promote(db, call, command, i).Commit? {
      var after, c := Promoted(db, call, command, i), ConfirmationFor(call, command, db.intents[i]);
      PromotedEvidence(db.intents, db.confirmations, i, c, after.intents[i], after.confirmations[c]);
    }
  }

  predicate OversStay(before: Intents, after: Intents) {
    forall i :: i in before && Over(before[i].status) ==> i in after && Over(after[i].status)
  }

  /** What a transaction that writes no confirmation does. */
  lemma EndingStays(db: Db, after: Db)
    requires Evidence(db.intents, db.confirmations)
    requires OnlyEnds(db.intents, after.intents) && after.confirmations == db.confirmations
    ensures Evidence(after.intents, after.confirmations) && OversStay(db.intents, after.intents)
  {
    EvidenceStays(db.intents, after.intents, db.confirmations);
  }

  lemma ClaimEnds(db: Db, call: Call, command: Command, i: IntentId)
    ensures var after := After(db, Claim(db, call, command, i));
            OnlyEnds(db.intents, after.intents) && after.confirmations == db.confirmations
  {
  }

  lemma ReleaseEnds(db: Db, call: Call, i: IntentId)
    ensures var after := After(db, ReleaseClaim(db, call, i));
            OnlyEnds(db.intents, after.intents) && after.confirmations == db.confirmations
  {
    if ReleaseClaim(db, call, i).Commit? {
      OneEnds(db.intents, i, Ready, db.intents[i].lifecycle);
    }
  }

  lemma AttemptEnds(db: Db, call: Call, i: IntentId)
    requires i in db.intents
    ensures var after := After(db, RecordAttempt(db, call, i));
            OnlyEnds(db.intents, after.intents) && after.confirmations == db.confirmations
  {
  }

  lemma RejectionEnds(db: Db, call: Call, i: IntentId)
    requires i in db.intents
    ensures var after := After(db, RecordRejection(db, call, i));
            OnlyEnds(db.intents, after.intents) && after.confirmations == db.confirmations
  {
  }

  lemma AmbiguousEnds(db: Db, call: Call, i: IntentId, status: EventStatus)
    requires i in db.intents
    ensures var tx := RecordAmbiguous(db, call, i, status);
            && OnlyEnds(db.intents, After(db, tx).intents) && After(db, tx).confirmations == db.confirmations
            && (tx.Commit? ==> i in tx.db.intents && Over(tx.db.intents[i].status))
  {
  }

  lemma AcknowledgedEnds(db: Db, i: IntentId, ack: Acknowledgement)
    requires Recordable(db, i, ack) && db.intents[i].status.Pending?
    ensures OnlyEnds(db.intents, Acknowledged(db, i, ack).intents) && Over(Acknowledged(db, i, ack).intents[i].status)
  {
  }

  lemma RecordedConfirmations(db: Db, i: IntentId, ack: Acknowledgement)
    requires Recordable(db, i, ack)
    ensures var c := db.intents[i].confirmation.value;
            Recorded(db, i, ack).confirmations
            == db.confirmations[c := db.confirmations[c].(status := ConfirmationConsumed)]
  {
    var lifecycle := StateForBrokerStatus(db.intents[i].reviewType, ack.status.value);
    var noted := Acknowledged(db, i, ack);
    ReserveKeepsEvidence(noted, i, lifecycle);
    ConsumeSpends(Reserve(noted, i, lifecycle), db.intents[i]);
  }

  lemma ConsumeSpends(db: Db, intent: Intent)
    requires intent.review in db.reviews && intent.confirmation.Some? && intent.confirmation.value in db.confirmations
    ensures var c := intent.confirmation.value;
            Consume(db, intent).confirmations
            == db.confirmations[c := db.confirmations[c].(status := ConfirmationConsumed)]
  {
  }

  lemma SettleKeepsConfirmations(db: Db, r: ReservationId, status: ReservationStatus, t: Transition)
    requires Settleable(db, r)
    ensures Settle(db, r, status, t).confirmations == db.confirmations && Settle(db, r, status, t).reviews == db.reviews
  {
  }

  lemma ReserveKeepsEvidence(db: Db, i: IntentId, lifecycle: State)
    requires i in db.intents
    requires var r := db.intents[i].reservation;
             r.Some? ==> if TerminalWithoutFill(lifecycle) then Settleable(db, r.value) else r.value in db.reservations
    ensures var after := Reserve(db, i, lifecycle);
            after.confirmations == db.confirmations && after.reviews == db.reviews
  {
    var r := db.intents[i].reservation;
    if r.Some? && TerminalWithoutFill(lifecycle) {
      SettleKeepsConfirmations(db, r.value, Released, Transition(Some(i), lifecycle));
    }
  }

  lemma SubmissionKeepsEvidence(db: Db, call: Call, i: IntentId, ack: Acknowledgement)
    requires Evidence(db.intents, db.confirmations) && i in db.intents
    ensures var after := After(db, RecordSubmission(db, call, i, ack));
            && Evidence(after.intents, after.confirmations) && OversStay(db.intents, after.intents)
  {
    if RecordSubmission(db, call, i, ack).Commit? {
      var noted, c := Acknowledged(db, i, ack), db.intents[i].confirmation.value;
      AcknowledgedEnds(db, i, ack);
      EvidenceStays(db.intents, noted.intents, db.confirmations);
      RecordedWrites(db, i, ack);
      RecordedConfirmations(db, i, ack);
      SpendingOne(noted.intents, db.confirmations, i, db.confirmations[c].(status := ConfirmationConsumed));
    }
  }

  lemma ReconciledKeepsEvidence(db: Db, call: Call, i: IntentId, brokerOrder: BrokerOrderId)
    requires Evidence(db.intents, db.confirmations) && i in db.intents && Over(db.intents[i].status)
    ensures var after := After(db, RecordReconciled(db, call, i, brokerOrder));
            after.intents == db.intents && Evidence(after.intents, after.confirmations)
  {
    if RecordReconciled(db, call, i, brokerOrder).Commit? {
      var c := db.intents[i].confirmation.value;
      SpendingOne(db.intents, db.confirmations, i, db.confirmations[c].(status := ConfirmationConsumed));
    }
  }

  lemma CancelStaleEnds(db: Db, call: Call, i: IntentId)
    ensures var after := CancelStale(db, call, i).db;
            OnlyEnds(db.intents, after.intents) && after.confirmations == db.confirmations
  {
    CancelStaleKeepsConfirmations(db, call, i);
    if Cancellable(db, call, i) {
      CancelStaleWrites(db, call, i);
      OneEnds(db.intents, i, IntentCancelled, db.intents[i].lifecycle);
    } else {
      assert CancelStale(db, call, i).db == db;
    }
  }

  lemma CancelStaleKeepsConfirmations(db: Db, call: Call, i: IntentId)
    ensures CancelStale(db, call, i).db.confirmations == db.confirmations
  {
    var locked := LockedReservation(db, i);
    if locked.Some? && Covered(db, locked.value) && Cancellable(db, call, i) && locked.value !in db.transitions {
      SettleKeepsConfirmations(CancelledIntent(db, i), locked.value, Released, Transition(Some(i), Cancelled));
    }
  }

  lemma ActEnds(s: World, act: Act)
    requires !act.ExpiringConfirmations?
    ensures var after := RecoverStep(s, act).db;
            OnlyEnds(s.db.intents, after.intents) && after.confirmations == s.db.confirmations
  {
    match act {
      case CancellingStale(call, i) => CancelStaleEnds(s.db, call, i);
      case CancellingCreated(call) => CancelCreatedEnds(s.db, call);
      case PreservingStale(call, i) => PreserveStaleEnds(s.db, call, i);
      case _ =>
    }
  }

  lemma CancelCreatedEnds(db: Db, call: Call)
    ensures var after := CancelStaleCreated(db, call);
            OnlyEnds(db.intents, after.intents) && after.confirmations == db.confirmations
  {
  }

  lemma PreserveStaleEnds(db: Db, call: Call, i: IntentId)
    ensures var after := PreserveStale(db, call, i);
            OnlyEnds(db.intents, after.intents) && after.confirmations == db.confirmations
  {
    if i in db.intents && db.intents[i].status.Ready? {
      OneEnds(db.intents, i, Ambiguous, db.intents[i].lifecycle);
    }
  }

  lemma ExpiringStep(s: World, call: Call)
    requires Evidence(s.db.intents, s.db.confirmations)
    ensures var after := RecoverStep(s, ExpiringConfirmations(call)).db;
            after.intents == s.db.intents && Evidence(after.intents, after.confirmations)
  {
    ExpiringKeepsEvidence(s.db, call);
    assert RecoverStep(s, ExpiringConfirmations(call)).db == ExpireConfirmations(s.db, call);
  }

  lemma RecoverConfirmed(s: World, act: Act)
    requires Confirmed(s)
    ensures Confirmed(RecoverStep(s, act))
  {
    if act.ExpiringConfirmations? {
      ExpiringStep(s, act.call);
    } else {
      ActEnds(s, act);
      EndingStays(s.db, RecoverStep(s, act).db);
    }
    LateStays(s, RecoverStep(s, act));
  }

  // --------------------------------------------------------------------------------- steps and runs

  lemma LateStays(s: World, t: World)
    requires ReconcilersLate(s) && OversStay(s.db.intents, t.db.intents)
    requires forall w :: w in t.pcs && t.pcs[w].Recovering? ==>
                           || (w in s.pcs && t.pcs[w] == s.pcs[w])
                           || (t.pcs[w].intent in t.db.intents && Over(t.db.intents[t.pcs[w].intent].status))
    ensures ReconcilersLate(t)
  {
  }

  lemma RecordConfirmed(s: World, w: WorkerId, call: Call, report: Report)
    requires Confirmed(s)
    ensures Confirmed(RecordStep(s, w, call, report))
  {
    var pc, t := PcOf(s.pcs, w), RecordStep(s, w, call, report);
    if pc.Answered? && pc.intent in s.db.intents {
      match pc.answer {
        case Responded(ack) => SubmissionKeepsEvidence(s.db, call, pc.intent, ack);
        case Refused =>
          RejectionEnds(s.db, call, pc.intent);
          EndingStays(s.db, After(s.db, RecordRejection(s.db, call, pc.intent)));
        case Lost =>
      }
      LateStays(s, t);
    }
  }

  lemma AttemptConfirmed(s: World, w: WorkerId, call: Call, report: Report)
    requires Confirmed(s)
    ensures Confirmed(AttemptStep(s, w, call, report))
  {
    var pc, t := PcOf(s.pcs, w), AttemptStep(s, w, call, report);
    if pc.Claimed? && pc.intent in s.db.intents {
      AttemptEnds(s.db, call, pc.intent);
      EndingStays(s.db, After(s.db, RecordAttempt(s.db, call, pc.intent)));
      LateStays(s, t);
    }
  }

  lemma DoubtConfirmed(s: World, w: WorkerId, call: Call, report: Report)
    requires Confirmed(s)
    ensures Confirmed(DoubtStep(s, w, call, report))
  {
    var pc, t := PcOf(s.pcs, w), DoubtStep(s, w, call, report);
    if pc.Uncertain? && pc.intent in s.db.intents {
      AmbiguousEnds(s.db, call, pc.intent, pc.classification);
      EndingStays(s.db, After(s.db, RecordAmbiguous(s.db, call, pc.intent, pc.classification)));
      LateStays(s, t);
    }
  }

  lemma ReconcileConfirmed(s: World, w: WorkerId, call: Call, recovered: Option<BrokerOrderId>, report: Report)
    requires Confirmed(s)
    ensures Confirmed(ReconcileStep(s, w, call, recovered, report))
  {
    var pc, t := PcOf(s.pcs, w), ReconcileStep(s, w, call, recovered, report);
    if pc.Recovering? && pc.intent in s.db.intents {
      if recovered.Some? {
        ReconciledKeepsEvidence(s.db, call, pc.intent, recovered.value);
      }
      LateStays(s, t);
    }
  }

  lemma ClaimConfirmed(s: World, w: WorkerId, call: Call, command: Command, i: IntentId, report: Report)
    requires Confirmed(s)
    ensures Confirmed(ClaimStep(s, w, call, command, i, report))
  {
    ClaimEnds(s.db, call, command, i);
    EndingStays(s.db, After(s.db, Claim(s.db, call, command, i)));
    LateStays(s, ClaimStep(s, w, call, command, i, report));
  }

  lemma ReleaseConfirmed(s: World, w: WorkerId, call: Call, report: Report)
    requires Confirmed(s)
    ensures Confirmed(ReleaseStep(s, w, call, report))
  {
    var pc := PcOf(s.pcs, w);
    if pc.Releasing? {
      ReleaseEnds(s.db, call, pc.intent);
      EndingStays(s.db, After(s.db, ReleaseClaim(s.db, call, pc.intent)));
      LateStays(s, ReleaseStep(s, w, call, report));
    }
  }

  lemma WorkConfirmed(s: World, w: WorkerId, action: Action)
    requires Confirmed(s)
    ensures Confirmed(WorkStep(s, w, action))
  {
    match action {
      case Claiming(call, command, i, report) => ClaimConfirmed(s, w, call, command, i, report);
      case Attempting(call, report) => AttemptConfirmed(s, w, call, report);
      case ReleasingClaim(call, report) => ReleaseConfirmed(s, w, call, report);
      case RecordingAnswer(call, report) => RecordConfirmed(s, w, call, report);
      case RecordingDoubt(call, report) => DoubtConfirmed(s, w, call, report);
      case Reconciling(call, recovered, report) => ReconcileConfirmed(s, w, call, recovered, report);
      case _ => LateStays(s, WorkStep(s, w, action));
    }
  }

  lemma CreatedEvidence(intents: Intents, confirmations: Confirmations, i: IntentId, intent: Intent)
    requires Evidence(intents, confirmations) && i !in intents && intent.status.Created? && intent.confirmation.None?
    ensures Evidence(intents[i := intent], confirmations)
  {
    var after := intents[i := intent];
    assert forall j, c :: Linked(after, j, c) ==> Linked(intents, j, c);
    forall j
      ensures ConfirmedAt(after, confirmations, j)
    {
      assert ConfirmedAt(intents, confirmations, j);
    }
  }

  lemma EnvironmentKeepsConfirmations(db: Db, change: Change)
    ensures EnvironmentStep(db, change).confirmations == db.confirmations
  {
  }

  lemma EnvironmentConfirmed(s: World, change: Change)
    requires Confirmed(s)
    ensures Confirmed(s.(db := EnvironmentStep(s.db, change)))
  {
    var after := EnvironmentStep(s.db, change);
    EnvironmentKeepsConfirmations(s.db, change);
    if change.Creating? && Creatable(s.db, change.i, change.intent) {
      CreatedEvidence(s.db.intents, s.db.confirmations, change.i, change.intent);
      assert after.intents == s.db.intents[change.i := change.intent];
    } else {
      assert after.intents == s.db.intents;
    }
    LateStays(s, s.(db := after));
  }

  lemma StepConfirmed(s: World, step: Step)
    requires Confirmed(s)
    ensures Confirmed(Apply(s, step))
  {
    match step {
      case Environment(change) => EnvironmentConfirmed(s, change);
      case Promoting(call, command, i, report) =>
        PromoteKeepsEvidence(s.db, call, command, i);
        LateStays(s, Apply(s, step));
      case Work(w, action) => WorkConfirmed(s, w, action);
      case Recover(act) => RecoverConfirmed(s, act);
    }
  }

  lemma {:induction false} RunConfirmed(s: World, steps: seq<Step>)
    requires Confirmed(s)
    ensures Confirmed(Run(s, steps))
    decreases |steps|
  {
    if steps != [] {
      StepConfirmed(s, steps[0]);
      RunConfirmed(Apply(s, steps[0]), steps[1..]);
    }
  }

  lemma InitialConfirmed(s: World)
    requires Initial(s)
    ensures Confirmed(s)
  {
    assert forall i, c :: !Linked(s.db.intents, i, c);
  }

  // ---------------------------------------------------------------------- who expires a confirmation

  predicate StatusIs(db: Db, c: ConfirmationId, status: ConfirmationStatus) {
    c in db.confirmations && db.confirmations[c].status == status
  }

  /** A recovery statement that finds the confirmation valid and past its time. */
  predicate ExpiresConfirmation(db: Db, step: Step, c: ConfirmationId) {
    && step.Recover? && step.act.ExpiringConfirmations? && FenceHeld(db.leases, step.act.call)
    && StatusIs(db, c, ConfirmationValid) && db.confirmations[c].expiresAt <= step.act.call.now
  }

  ghost predicate ExpiredDuring(s: World, steps: seq<Step>, c: ConfirmationId)
    decreases |steps|
  {
    steps != []
    && (ExpiresConfirmation(s.db, steps[0], c) || ExpiredDuring(Apply(s, steps[0]), steps[1..], c))
  }

  /** Confirmations stay, those that are not valid never become so, and new ones are valid. */
  predicate ConfirmationsAge(before: Confirmations, after: Confirmations) {
    && before.Keys <= after.Keys
    && (forall c :: c in before && !before[c].status.ConfirmationValid? ==> !after[c].status.ConfirmationValid?)
    && (forall c :: c in after && after[c].status.ConfirmationExpired? ==>
                      c in before && before[c].status.ConfirmationExpired?)
  }

  lemma SubmissionAges(db: Db, call: Call, i: IntentId, ack: Acknowledgement)
    requires i in db.intents
    ensures ConfirmationsAge(db.confirmations, After(db, RecordSubmission(db, call, i, ack)).confirmations)
  {
    if RecordSubmission(db, call, i, ack).Commit? {
      RecordedConfirmations(db, i, ack);
    }
  }

  lemma ReconciledAges(db: Db, call: Call, i: IntentId, brokerOrder: BrokerOrderId)
    requires i in db.intents
    ensures ConfirmationsAge(db.confirmations, After(db, RecordReconciled(db, call, i, brokerOrder)).confirmations)
  {
  }

  lemma WorkAges(s: World, w: WorkerId, action: Action)
    ensures ConfirmationsAge(s.db.confirmations, WorkStep(s, w, action).db.confirmations)
  {
    var pc := PcOf(s.pcs, w);
    if action.RecordingAnswer? && pc.Answered? && pc.intent in s.db.intents && pc.answer.Responded? {
      SubmissionAges(s.db, action.call, pc.intent, pc.answer.ack);
    } else if action.Reconciling? && pc.Recovering? && pc.intent in s.db.intents && action.recovered.Some? {
      ReconciledAges(s.db, action.call, pc.intent, action.recovered.value);
    } else {
      OtherWorkKeepsConfirmations(s, w, action);
    }
  }

  lemma OtherWorkKeepsConfirmations(s: World, w: WorkerId, action: Action)
    requires var pc := PcOf(s.pcs, w);
             && !(action.RecordingAnswer? && pc.Answered? && pc.answer.Responded? && pc.intent in s.db.intents)
             && !(action.Reconciling? && pc.Recovering? && action.recovered.Some? && pc.intent in s.db.intents)
    ensures WorkStep(s, w, action).db.confirmations == s.db.confirmations
  {
  }

  lemma PromoteAges(db: Db, call: Call, command: Command, i: IntentId)
    ensures ConfirmationsAge(db.confirmations, After(db, Promote(db, call, command, i)).confirmations)
  {
  }

  lemma ExpiryOf(confirmations: Confirmations, now: int, c: ConfirmationId)
    ensures var after := ConfirmationsBy(confirmations, now);
            && after.Keys == confirmations.Keys
            && (c in after ==>
                  after[c].status == if confirmations[c].status.ConfirmationValid? && confirmations[c].expiresAt <= now
                                     then ConfirmationExpired else confirmations[c].status)
  {
  }

  lemma StepAges(s: World, step: Step, c: ConfirmationId)
    ensures var t := Apply(s, step).db;
            && s.db.confirmations.Keys <= t.confirmations.Keys
            && (c in s.db.confirmations && !StatusIs(s.db, c, ConfirmationValid) ==> !StatusIs(t, c, ConfirmationValid))
            && (StatusIs(t, c, ConfirmationExpired) ==>
                  StatusIs(s.db, c, ConfirmationExpired) || ExpiresConfirmation(s.db, step, c))
            && (ExpiresConfirmation(s.db, step, c) ==> StatusIs(t, c, ConfirmationExpired))
  {
    match step {
      case Environment(change) => EnvironmentKeepsConfirmations(s.db, change);
      case Promoting(call, command, i, report) => PromoteAges(s.db, call, command, i);
      case Work(w, action) => WorkAges(s, w, action);
      case Recover(act) =>
        if act.ExpiringConfirmations? {
          ExpiryOf(s.db.confirmations, act.call.now, c);
        } else {
          ActEnds(s, act);
        }
    }
  }

  /** Expired in the end means expired before or by a recovery of the run; and that is never undone. */
  lemma {:induction false} RunAges(s: World, steps: seq<Step>, c: ConfirmationId)
    ensures var end := Run(s, steps).db;
            && s.db.confirmations.Keys <= end.confirmations.Keys
            && (c in s.db.confirmations && !StatusIs(s.db, c, ConfirmationValid) ==>
                  !StatusIs(end, c, ConfirmationValid))
            && (StatusIs(end, c, ConfirmationExpired) ==>
                  StatusIs(s.db, c, ConfirmationExpired) || ExpiredDuring(s, steps, c))
            && (ExpiredDuring(s, steps, c) ==> !StatusIs(end, c, ConfirmationValid))
    decreases |steps|
  {
    if steps != [] {
      StepAges(s, steps[0], c);
      RunAges(Apply(s, steps[0]), steps[1..], c);
    }
  }

  /** A confirmation becomes an intent's only as a new row. */
  lemma StepLinks(s: World, step: Step, i: IntentId, c: ConfirmationId)
    requires Linked(Apply(s, step).db.intents, i, c)
    ensures Linked(s.db.intents, i, c) || c !in s.db.confirmations
  {
    match step {
      case Environment(change) => EnvironmentLinks(s.db, change, i, c);
      case Promoting(call, command, j, report) =>
        if !report.RolledBack? {
          PromoteLinks(s.db, call, command, j, i, c);
        }
      case Work(w, action) => WorkLinks(s, w, action, i, c);
      case Recover(act) => RecoverLinks(s, act, i, c);
    }
  }

  lemma EnvironmentLinks(db: Db, change: Change, i: IntentId, c: ConfirmationId)
    requires Linked(EnvironmentStep(db, change).intents, i, c)
    ensures Linked(db.intents, i, c)
  {
  }

  lemma PromoteLinks(db: Db, call: Call, command: Command, j: IntentId, i: IntentId, c: ConfirmationId)
    requires Linked(After(db, Promote(db, call, command, j)).intents, i, c)
    ensures Linked(db.intents, i, c) || c !in db.confirmations
  {
  }

  lemma RecoverLinks(s: World, act: Act, i: IntentId, c: ConfirmationId)
    requires Linked(RecoverStep(s, act).db.intents, i, c)
    ensures Linked(s.db.intents, i, c)
  {
    if !act.ExpiringConfirmations? {
      ActEnds(s, act);
    }
  }

  lemma RecordLinks(s: World, w: WorkerId, call: Call, report: Report, i: IntentId, c: ConfirmationId)
    requires Linked(RecordStep(s, w, call, report).db.intents, i, c)
    ensures Linked(s.db.intents, i, c)
  {
    var pc := PcOf(s.pcs, w);
    if pc.Answered? && pc.intent in s.db.intents {
      match pc.answer {
        case Responded(ack) => SubmissionLinks(s.db, call, pc.intent, ack, i, c);
        case Refused => RejectionEnds(s.db, call, pc.intent);
        case Lost =>
      }
    }
  }

  lemma SubmissionLinks(db: Db, call: Call, j: IntentId, ack: Acknowledgement, i: IntentId, c: ConfirmationId)
    requires j in db.intents
    ensures Linked(After(db, RecordSubmission(db, call, j, ack)).intents, i, c) ==> Linked(db.intents, i, c)
  {
    if RecordSubmission(db, call, j, ack).Commit? {
      RecordedWrites(db, j, ack);
      AcknowledgedEnds(db, j, ack);
    }
  }

  lemma WorkLinks(s: World, w: WorkerId, action: Action, i: IntentId, c: ConfirmationId)
    requires Linked(WorkStep(s, w, action).db.intents, i, c)
    ensures Linked(s.db.intents, i, c)
  {
    if action.RecordingAnswer? {
      RecordLinks(s, w, action.call, action.report, i, c);
    }
  }

  lemma {:induction false} RunLinks(s: World, steps: seq<Step>, i: IntentId, c: ConfirmationId)
    requires Linked(Run(s, steps).db.intents, i, c)
    ensures Linked(s.db.intents, i, c) || c !in s.db.confirmations
    decreases |steps|
  {
    if steps != [] {
      RunLinks(Apply(s, steps[0]), steps[1..], i, c);
      StepAges(s, steps[0], c);
      if Linked(Apply(s, steps[0]).db.intents, i, c) {
        StepLinks(s, steps[0], i, c);
      }
    }
  }

  // ------------------------------------------------------------------------------- what stops a record

  /** The confirmation of a pending intent is valid, or a recovery of the run expired it. */
  lemma PendingConfirmation(s: World, steps: seq<Step>, i: IntentId)
    requires Initial(s)
    requires i in Run(s, steps).db.intents && Run(s, steps).db.intents[i].status.Pending?
    ensures var db := Run(s, steps).db;
            && db.intents[i].confirmation.Some?
            && var c := db.intents[i].confirmation.value;
            && (StatusIs(db, c, ConfirmationValid) || StatusIs(db, c, ConfirmationExpired))
            && (StatusIs(db, c, ConfirmationExpired) <==> ExpiredDuring(s, steps, c))
  {
    var db := Run(s, steps).db;
    InitialConfirmed(s);
    RunConfirmed(s, steps);
    assert ConfirmedAt(db.intents, db.confirmations, i);
    var c := db.intents[i].confirmation.value;
    RunLinks(s, steps, i, c);
    RunAges(s, steps, c);
  }

  lemma RecordedUnless(db: Db, call: Call, i: IntentId, ack: Acknowledgement)
    requires Sound(db) && Deliverable(db, call, i, ack)
    ensures var intent := db.intents[i];
            RecordSubmission(db, call, i, ack).Commit?
            <==> && (intent.reservation.Some? ==> intent.reservation.value !in db.transitions)
                 && ConsumableReview(db, intent.review, false) && ConsumableConfirmation(db, intent.confirmation, false)
                 && CandidateWritable(db.candidates, intent.candidate)
  {
    if db.intents[i].reservation.Some? {
      ReservationBlocks(db, call, i, ack);
    }
  }

  /**
   Over every run, an answer that can be delivered is recorded exactly when no bulk expiry took the
   reservation, no recovery expired the confirmation, the review is valid and the candidate selected.
   */
  lemma RecordedIffUnexpired(s: World, steps: seq<Step>, call: Call, i: IntentId, ack: Acknowledgement)
    requires Initial(s) && Deliverable(Run(s, steps).db, call, i, ack)
    ensures var db := Run(s, steps).db;
            var intent := db.intents[i];
            && intent.confirmation.Some?
            && (RecordSubmission(db, call, i, ack).Commit?
                <==> && (intent.reservation.Some? ==> intent.reservation.value !in db.transitions)
                     && !ExpiredDuring(s, steps, intent.confirmation.value)
                     && ConsumableReview(db, intent.review, false)
                     && CandidateWritable(db.candidates, intent.candidate))
            && (intent.reservation.Some? && intent.reservation.value in db.transitions ==>
                  db.transitions[intent.reservation.value] == Transition(Some(i), Expired))
  {
    RunSound(s, steps);
    PendingConfirmation(s, steps, i);
    RecordedUnless(Run(s, steps).db, call, i, ack);
    if Run(s, steps).db.intents[i].reservation.Some? {
      ReservationBlocks(Run(s, steps).db, call, i, ack);
    }
  }
}
