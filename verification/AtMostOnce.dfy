/**
 Submission safety over all runs: an order is sent at most once, only after its attempt is durable, and
 recovery only ever drops intents that were never sent and never will be.
 */
module AtMostOnce {
  import opened Options
  import opened TradeLifecycle
  import opened Tables
  import opened Ledger
  import opened Recovery
  import opened Protocol

  predicate Holds(pcs: Pcs, w: WorkerId, i: IntentId) {
    w in pcs && !pcs[w].Idle? && pcs[w].intent == i
  }

  predicate Unsent(status: IntentStatus) {
    status.Created? || status.Ready?
  }

  /** What holding an intent at a program counter says about its row and its calls. */
  predicate PhaseMatches(pc: Pc, status: IntentStatus, attempted: bool, calls: nat) {
    match pc
    case Idle => true
    case Claimed(_) => status.Pending? && calls == 0
    case Releasing(_) => status.Pending? && calls == 0
    case Attempted(_) => status.Pending? && calls == 0 && attempted
    case Answered(_, _) => status.Pending? && calls == 1
    case Uncertain(_, _) => calls == 1
    case Recovering(_) => calls == 1
  }

  ghost predicate SoleHolder(pcs: Pcs, i: IntentId) {
    forall w, v :: Holds(pcs, w, i) && Holds(pcs, v, i) ==> w == v
  }

  ghost predicate PhasesMatch(pcs: Pcs, i: IntentId, status: IntentStatus, attempted: bool, calls: nat) {
    forall w :: Holds(pcs, w, i) ==> PhaseMatches(pcs[w], status, attempted, calls)
  }

  predicate AttemptDurable(db: Db, i: IntentId) {
    i in db.intents && AttemptKeyOf(i, db.intents[i]) in db.events
  }

  /** Calls are bounded by one, follow a durable attempt, and rule out every status from which a claim could start. */
  predicate CallsMatch(status: IntentStatus, attempted: bool, calls: nat, dropped: bool) {
    && (calls > 0 ==> calls == 1 && attempted && !Unsent(status))
    && (dropped ==> calls == 0 && status.IntentCancelled?)
  }

  ghost predicate OrderlyAt(s: World, i: IntentId) {
    && SoleHolder(s.pcs, i)
    && (i in s.db.intents ==>
          && PhasesMatch(s.pcs, i, s.db.intents[i].status, AttemptDurable(s.db, i), CallsFor(s, i))
          && CallsMatch(s.db.intents[i].status, AttemptDurable(s.db, i), CallsFor(s, i), i in s.dropped))
    && (i !in s.db.intents ==> CallsFor(s, i) == 0 && i !in s.dropped && forall w :: !Holds(s.pcs, w, i))
  }

  ghost predicate Orderly(s: World) {
    forall i :: OrderlyAt(s, i)
  }

  // --------------------------------------------------------------------- what each write may touch

  predicate SameOrder(a: Intent, b: Intent) {
    a.account == b.account && a.terms == b.terms && a.reviewType == b.reviewType
  }

  /** No event disappears and every intent but `i` keeps its row; `i` keeps its order. */
  predicate Touches(before: Db, after: Db, i: IntentId) {
    && before.events.Keys <= after.events.Keys
    && before.intents.Keys == after.intents.Keys
    && (forall j :: j in before.intents && j != i ==> after.intents[j] == before.intents[j])
    && (i in before.intents ==> SameOrder(after.intents[i], before.intents[i]))
  }

  lemma TouchesNothing(db: Db, i: IntentId)
    ensures Touches(db, db, i)
  {
  }

  lemma PromoteTouches(db: Db, call: Call, command: Command, i: IntentId)
    ensures var after := After(db, Promote(db, call, command, i));
            && Touches(db, after, i)
            && (i in db.intents && after.intents[i].status != db.intents[i].status ==>
                  db.intents[i].status.Created? && after.intents[i].status.Ready?)
  {
  }

  lemma ClaimTouches(db: Db, call: Call, command: Command, i: IntentId)
    ensures var tx := Claim(db, call, command, i);
            && Touches(db, After(db, tx), i)
            && (tx.Commit? ==> i in db.intents && db.intents[i].status.Ready? && tx.db.intents[i].status.Pending?)
  {
  }

  lemma ReleaseTouches(db: Db, call: Call, i: IntentId)
    ensures var tx := ReleaseClaim(db, call, i);
            && Touches(db, After(db, tx), i)
            && (tx.Commit? ==> i in db.intents && db.intents[i].status.Pending? && tx.db.intents[i].status.Ready?)
  {
  }

  lemma AttemptTouches(db: Db, call: Call, i: IntentId)
    requires i in db.intents
    ensures var tx := RecordAttempt(db, call, i);
            && Touches(db, After(db, tx), i)
            && (tx.Commit? ==> db.intents[i].status.Pending? && tx.db.intents[i].status.Pending?
                               && !AttemptDurable(db, i) && AttemptDurable(tx.db, i))
  {
  }

  lemma SettleWrites(db: Db, r: ReservationId, status: ReservationStatus, t: Transition)
    requires Settleable(db, r)
    ensures Settle(db, r, status, t).intents == db.intents && Settle(db, r, status, t).events == db.events
  {
  }

  lemma ReserveWrites(db: Db, i: IntentId, lifecycle: State)
    requires i in db.intents
    requires var r := db.intents[i].reservation;
             r.Some? ==> if TerminalWithoutFill(lifecycle) then Settleable(db, r.value) else r.value in db.reservations
    ensures Reserve(db, i, lifecycle).intents == db.intents && Reserve(db, i, lifecycle).events == db.events
  {
  }

  lemma RecordedWrites(db: Db, i: IntentId, ack: Acknowledgement)
    requires Recordable(db, i, ack)
    ensures var after := Recorded(db, i, ack);
            after.intents == Acknowledged(db, i, ack).intents && after.events == Acknowledged(db, i, ack).events
  {
    ReserveWrites(Acknowledged(db, i, ack), i, StateForBrokerStatus(db.intents[i].reviewType, ack.status.value));
  }

  lemma SubmissionTouches(db: Db, call: Call, i: IntentId, ack: Acknowledgement)
    requires i in db.intents
    ensures var tx := RecordSubmission(db, call, i, ack);
            && Touches(db, After(db, tx), i)
            && (tx.Commit? ==> db.intents[i].status.Pending? && !Unsent(tx.db.intents[i].status)
                               && !tx.db.intents[i].status.Pending?)
  {
    if RecordSubmission(db, call, i, ack).Commit? {
      RecordedWrites(db, i, ack);
    }
  }

  lemma AmbiguousTouches(db: Db, call: Call, i: IntentId, status: EventStatus)
    requires i in db.intents
    ensures var tx := RecordAmbiguous(db, call, i, status);
            && Touches(db, After(db, tx), i)
            && (tx.Commit? ==> db.intents[i].status.Pending? && tx.db.intents[i].status.Ambiguous?)
  {
  }

  lemma RejectionTouches(db: Db, call: Call, i: IntentId)
    requires i in db.intents
    ensures var tx := RecordRejection(db, call, i);
            && Touches(db, After(db, tx), i)
            && (tx.Commit? ==> db.intents[i].status.Pending? && tx.db.intents[i].status.Failed?)
  {
  }

  lemma ReconciledTouches(db: Db, call: Call, i: IntentId, brokerOrder: BrokerOrderId)
    requires i in db.intents
    ensures var after := After(db, RecordReconciled(db, call, i, brokerOrder));
            Touches(db, after, i) && after.intents == db.intents
  {
  }

  lemma CancelStaleWrites(db: Db, call: Call, i: IntentId)
    requires Cancellable(db, call, i)
    ensures var after := CancelStale(db, call, i).db;
            after.events == db.events
            && (after.intents == db.intents || after.intents == CancelledIntent(db, i).intents)
  {
    var locked := LockedReservation(db, i);
    if locked.Some? {
      if Covered(db, locked.value) && locked.value !in db.transitions {
        var cancelled := CancelledIntent(db, i);
        SettleWrites(cancelled, locked.value, Released, Transition(Some(i), Cancelled));
        assert CancelStale(db, call, i).db == Settle(cancelled, locked.value, Released, Transition(Some(i), Cancelled));
      }
    } else {
      assert CancelStale(db, call, i).db == CancelledIntent(db, i);
    }
  }

  lemma CancelStaleTouches(db: Db, call: Call, i: IntentId)
    ensures var after := CancelStale(db, call, i).db;
            && Touches(db, after, i)
            && (i in db.intents && after.intents[i].status != db.intents[i].status ==>
                  db.intents[i].status.Ready? && after.intents[i].status.IntentCancelled?)
  {
    if Cancellable(db, call, i) {
      CancelStaleWrites(db, call, i);
    } else {
      assert CancelStale(db, call, i).db == db;
    }
  }

  // ------------------------------------------------------------------------------ one intent's view

  /** An intent whose row, calls, holders and dropping did not change stays orderly; events may have been added. */
  lemma Elsewhere(s: World, t: World, j: IntentId)
    requires OrderlyAt(s, j)
    requires j in s.db.intents <==> j in t.db.intents
    requires j in s.db.intents ==>
               t.db.intents[j].status == s.db.intents[j].status && SameOrder(s.db.intents[j], t.db.intents[j])
    requires s.db.events.Keys <= t.db.events.Keys
    requires forall w :: Holds(t.pcs, w, j) ==> Holds(s.pcs, w, j) && t.pcs[w] == s.pcs[w]
    requires CallsFor(t, j) == CallsFor(s, j) && (j in t.dropped <==> j in s.dropped)
    ensures OrderlyAt(t, j)
  {
  }

  /** A step by worker `w` on the intent `i` it holds alone, or takes while nobody holds it. */
  lemma Onward(s: World, t: World, w: WorkerId, i: IntentId, pc: Pc)
    requires Orderly(s) && i in s.db.intents
    requires Holds(s.pcs, w, i) || (PcOf(s.pcs, w).Idle? && forall v :: !Holds(s.pcs, v, i))
    requires pc.Idle? || pc.intent == i
    requires t.pcs == s.pcs[w := pc] && Touches(s.db, t.db, i) && t.dropped == s.dropped
    requires forall j :: j != i ==> CallsFor(t, j) == CallsFor(s, j)
    requires CallsMatch(t.db.intents[i].status, AttemptDurable(t.db, i), CallsFor(t, i), i in t.dropped)
    requires PhaseMatches(pc, t.db.intents[i].status, AttemptDurable(t.db, i), CallsFor(t, i))
    ensures Orderly(t)
  {
    forall j ensures OrderlyAt(t, j) {
      assert OrderlyAt(s, j);
      if j != i {
        Elsewhere(s, t, j);
      } else {
        forall v | Holds(t.pcs, v, i)
          ensures v == w
        {
          assert v != w ==> Holds(s.pcs, v, i);
        }
      }
    }
  }

  /** A held intent's phase, as the invariant has it. */
  lemma HeldPhase(s: World, w: WorkerId, i: IntentId)
    requires Orderly(s) && Holds(s.pcs, w, i)
    ensures i in s.db.intents
    ensures PhaseMatches(s.pcs[w], s.db.intents[i].status, AttemptDurable(s.db, i), CallsFor(s, i))
    ensures CallsMatch(s.db.intents[i].status, AttemptDurable(s.db, i), CallsFor(s, i), i in s.dropped)
  {
    assert OrderlyAt(s, i);
  }

  // ---------------------------------------------------------------------------------------- workers

  /** A ready intent is held by nobody. */
  lemma ReadyIsFree(s: World, i: IntentId)
    requires Orderly(s) && i in s.db.intents && Unsent(s.db.intents[i].status)
    ensures CallsFor(s, i) == 0 && i !in s.dropped && forall w :: !Holds(s.pcs, w, i)
  {
    assert OrderlyAt(s, i);
    forall w ensures !Holds(s.pcs, w, i) {
      if Holds(s.pcs, w, i) {
        HeldPhase(s, w, i);
        assert false;
      }
    }
  }

  lemma ClaimOrderly(s: World, w: WorkerId, call: Call, command: Command, i: IntentId, report: Report)
    requires Orderly(s)
    ensures Orderly(ClaimStep(s, w, call, command, i, report))
  {
    var t, tx := ClaimStep(s, w, call, command, i, report), Claim(s.db, call, command, i);
    if PcOf(s.pcs, w).Idle? {
      ClaimTouches(s.db, call, command, i);
      if tx.Commit? {
        ReadyIsFree(s, i);
        Onward(s, t, w, i, t.pcs[w]);
      } else {
        IdleKeeps(s, t);
      }
    }
  }

  /** Workers may become idle at any moment. */
  lemma IdleKeeps(s: World, t: World)
    requires Orderly(s) && t.db == s.db && t.calls == s.calls && t.dropped == s.dropped
    requires forall v :: v in t.pcs ==> t.pcs[v].Idle? || (v in s.pcs && t.pcs[v] == s.pcs[v])
    ensures Orderly(t)
  {
    forall j ensures OrderlyAt(t, j) {
      assert OrderlyAt(s, j);
      Elsewhere(s, t, j);
    }
  }

  lemma GateOrderly(s: World, w: WorkerId)
    requires Orderly(s)
    ensures Orderly(GateStep(s, w))
  {
    var pc := PcOf(s.pcs, w);
    if pc.Claimed? {
      HeldPhase(s, w, pc.intent);
      Onward(s, GateStep(s, w), w, pc.intent, Releasing(pc.intent));
    }
  }

  lemma AttemptOrderly(s: World, w: WorkerId, call: Call, report: Report)
    requires Orderly(s)
    ensures Orderly(AttemptStep(s, w, call, report))
  {
    var pc, t := PcOf(s.pcs, w), AttemptStep(s, w, call, report);
    if pc.Claimed? && pc.intent in s.db.intents {
      HeldPhase(s, w, pc.intent);
      AttemptTouches(s.db, call, pc.intent);
      Onward(s, t, w, pc.intent, t.pcs[w]);
    }
  }

  lemma ReleaseOrderly(s: World, w: WorkerId, call: Call, report: Report)
    requires Orderly(s)
    ensures Orderly(ReleaseStep(s, w, call, report))
  {
    var pc, t := PcOf(s.pcs, w), ReleaseStep(s, w, call, report);
    if pc.Releasing? {
      HeldPhase(s, w, pc.intent);
      ReleaseTouches(s.db, call, pc.intent);
      Onward(s, t, w, pc.intent, Idle);
    }
  }

  lemma SendOrderly(s: World, w: WorkerId, answer: Answer)
    requires Orderly(s)
    ensures Orderly(SendStep(s, w, answer))
  {
    var pc, t := PcOf(s.pcs, w), SendStep(s, w, answer);
    if pc.Attempted? {
      HeldPhase(s, w, pc.intent);
      Onward(s, t, w, pc.intent, t.pcs[w]);
    }
  }

  lemma RecordOrderly(s: World, w: WorkerId, call: Call, report: Report)
    requires Orderly(s)
    ensures Orderly(RecordStep(s, w, call, report))
  {
    var pc, t := PcOf(s.pcs, w), RecordStep(s, w, call, report);
    if pc.Answered? && pc.intent in s.db.intents {
      HeldPhase(s, w, pc.intent);
      match pc.answer {
        case Responded(ack) => SubmissionTouches(s.db, call, pc.intent, ack);
        case Refused => RejectionTouches(s.db, call, pc.intent);
        case Lost => TouchesNothing(s.db, pc.intent);
      }
      Onward(s, t, w, pc.intent, t.pcs[w]);
    }
  }

  lemma DoubtOrderly(s: World, w: WorkerId, call: Call, report: Report)
    requires Orderly(s)
    ensures Orderly(DoubtStep(s, w, call, report))
  {
    var pc, t := PcOf(s.pcs, w), DoubtStep(s, w, call, report);
    if pc.Uncertain? && pc.intent in s.db.intents {
      HeldPhase(s, w, pc.intent);
      AmbiguousTouches(s.db, call, pc.intent, pc.classification);
      Onward(s, t, w, pc.intent, t.pcs[w]);
    }
  }

  lemma ReconcileOrderly(s: World, w: WorkerId, call: Call, recovered: Option<BrokerOrderId>, report: Report)
    requires Orderly(s)
    ensures Orderly(ReconcileStep(s, w, call, recovered, report))
  {
    var pc, t := PcOf(s.pcs, w), ReconcileStep(s, w, call, recovered, report);
    if pc.Recovering? && pc.intent in s.db.intents {
      HeldPhase(s, w, pc.intent);
      if recovered.Some? {
        ReconciledTouches(s.db, call, pc.intent, recovered.value);
      }
      Onward(s, t, w, pc.intent, Idle);
    }
  }

  // -------------------------------------------------------------------------- promotion and recovery

  /** A write on an unsent intent that keeps it unsent, or drops it, by no worker in particular. */
  lemma UnheldWrite(s: World, t: World, i: IntentId)
    requires Orderly(s) && t.pcs == s.pcs && t.calls == s.calls && Touches(s.db, t.db, i)
    requires i in s.db.intents && t.db.intents[i].status != s.db.intents[i].status ==> Unsent(s.db.intents[i].status)
    requires forall j :: j in t.dropped
                         <==> j in s.dropped || (j == i && i in s.db.intents && t.db.intents[i].status.IntentCancelled?
                                                 && !s.db.intents[i].status.IntentCancelled?)
    ensures Orderly(t)
  {
    forall j ensures OrderlyAt(t, j) {
      assert OrderlyAt(s, j);
      if j != i || j !in s.db.intents || t.db.intents[i].status == s.db.intents[i].status {
        Elsewhere(s, t, j);
      } else {
        ReadyIsFree(s, i);
      }
    }
  }

  lemma PromoteOrderly(s: World, call: Call, command: Command, i: IntentId, report: Report)
    requires Orderly(s)
    ensures Orderly(s.(db := Landed(s.db, Promote(s.db, call, command, i), report)))
  {
    PromoteTouches(s.db, call, command, i);
    UnheldWrite(s, s.(db := Landed(s.db, Promote(s.db, call, command, i), report)), i);
  }

  lemma CancelStaleOrderly(s: World, call: Call, i: IntentId)
    requires Orderly(s)
    ensures Orderly(Dropping(s, CancelStale(s.db, call, i).db))
  {
    CancelStaleTouches(s.db, call, i);
    UnheldWrite(s, Dropping(s, CancelStale(s.db, call, i).db), i);
  }

  lemma PreserveStaleOrderly(s: World, call: Call, i: IntentId)
    requires Orderly(s)
    ensures Orderly(s.(db := PreserveStale(s.db, call, i)))
  {
    UnheldWrite(s, s.(db := PreserveStale(s.db, call, i)), i);
  }

  lemma CancelCreatedOrderly(s: World, call: Call)
    requires Orderly(s)
    ensures Orderly(Dropping(s, CancelStaleCreated(s.db, call)))
  {
    var t := Dropping(s, CancelStaleCreated(s.db, call));
    forall j ensures OrderlyAt(t, j) {
      assert OrderlyAt(s, j);
      if StaleCreated(s.db, call, j) {
        ReadyIsFree(s, j);
      } else {
        Elsewhere(s, t, j);
      }
    }
  }

  /** Steps that write neither intents nor events nor calls. */
  lemma SameIntents(s: World, t: World)
    requires Orderly(s) && t.pcs == s.pcs && t.calls == s.calls && t.dropped == s.dropped
    requires t.db.intents == s.db.intents && t.db.events == s.db.events
    ensures Orderly(t)
  {
    forall j ensures OrderlyAt(t, j) {
      assert OrderlyAt(s, j);
      Elsewhere(s, t, j);
    }
  }

  lemma EnvironmentOrderly(s: World, change: Change)
    requires Orderly(s)
    ensures Orderly(s.(db := EnvironmentStep(s.db, change)))
  {
    var t := s.(db := EnvironmentStep(s.db, change));
    if change.Creating? && Creatable(s.db, change.i, change.intent) {
      forall j ensures OrderlyAt(t, j) {
        assert OrderlyAt(s, j);
        if j != change.i {
          Elsewhere(s, t, j);
        }
      }
    } else {
      SameIntents(s, t);
    }
  }

  lemma RecoverOrderly(s: World, act: Act)
    requires Orderly(s)
    ensures Orderly(RecoverStep(s, act))
  {
    match act {
      case CancellingStale(call, i) => CancelStaleOrderly(s, call, i);
      case PreservingStale(call, i) => PreserveStaleOrderly(s, call, i);
      case CancellingCreated(call) => CancelCreatedOrderly(s, call);
      case _ => SameIntents(s, RecoverStep(s, act));
    }
  }

  lemma WorkOrderly(s: World, w: WorkerId, action: Action)
    requires Orderly(s)
    ensures Orderly(WorkStep(s, w, action))
  {
    match action {
      case Claiming(call, command, i, report) => ClaimOrderly(s, w, call, command, i, report);
      case GateFailing => GateOrderly(s, w);
      case Attempting(call, report) => AttemptOrderly(s, w, call, report);
      case ReleasingClaim(call, report) => ReleaseOrderly(s, w, call, report);
      case Sending(answer) => SendOrderly(s, w, answer);
      case RecordingAnswer(call, report) => RecordOrderly(s, w, call, report);
      case RecordingDoubt(call, report) => DoubtOrderly(s, w, call, report);
      case Reconciling(call, recovered, report) => ReconcileOrderly(s, w, call, recovered, report);
      case Crashing => IdleKeeps(s, At(s, s.db, w, Idle));
    }
  }

  lemma StepOrderly(s: World, step: Step)
    requires Orderly(s)
    ensures Orderly(Apply(s, step))
  {
    match step {
      case Environment(change) => EnvironmentOrderly(s, change);
      case Promoting(call, command, i, report) => PromoteOrderly(s, call, command, i, report);
      case Work(w, action) => WorkOrderly(s, w, action);
      case Recover(act) => RecoverOrderly(s, act);
    }
  }

  lemma {:induction false} RunOrderly(s: World, steps: seq<Step>)
    requires Orderly(s)
    ensures Orderly(Run(s, steps))
    decreases |steps|
  {
    if steps != [] {
      StepOrderly(s, steps[0]);
      RunOrderly(Apply(s, steps[0]), steps[1..]);
    }
  }

  lemma InitialOrderly(s: World)
    requires Initial(s)
    ensures Orderly(s)
  {
    forall i ensures OrderlyAt(s, i) {}
  }

  // --------------------------------------------------------------------------------- main theorems

  /** Over every run, `submitOrder` is called at most once for an intent, and only with its attempt event durable. */
  lemma SubmittedAtMostOnce(s: World, steps: seq<Step>, i: IntentId)
    requires Initial(s)
    ensures CallsFor(Run(s, steps), i) <= 1
    ensures CallsFor(Run(s, steps), i) > 0 ==> AttemptDurable(Run(s, steps).db, i)
  {
    InitialOrderly(s);
    RunOrderly(s, steps);
    assert OrderlyAt(Run(s, steps), i);
  }

  /** Over every run, no intent that a claim or a recovery cancellation may still take was ever sent. */
  lemma ClaimableWasNeverSent(s: World, steps: seq<Step>, i: IntentId)
    requires Initial(s)
    ensures var t := Run(s, steps);
            i in t.db.intents && Unsent(t.db.intents[i].status) ==>
              CallsFor(t, i) == 0 && forall w :: !Holds(t.pcs, w, i)
  {
    InitialOrderly(s);
    RunOrderly(s, steps);
    if i in Run(s, steps).db.intents && Unsent(Run(s, steps).db.intents[i].status) {
      ReadyIsFree(Run(s, steps), i);
    }
  }

  /** An intent recovery dropped was not sent before, and whatever happens afterwards is not sent later. */
  lemma DroppedIsNeverSent(s: World, steps: seq<Step>, i: IntentId)
    requires Initial(s) && i in Run(s, steps).dropped
    ensures CallsFor(Run(s, steps), i) == 0
    ensures i in Run(s, steps).db.intents && Run(s, steps).db.intents[i].status.IntentCancelled?
  {
    InitialOrderly(s);
    RunOrderly(s, steps);
    assert OrderlyAt(Run(s, steps), i);
  }

  /** At every moment a pending intent has at most one worker on it. */
  lemma OneWorkerPerIntent(s: World, steps: seq<Step>, w: WorkerId, v: WorkerId, i: IntentId)
    requires Initial(s) && Holds(Run(s, steps).pcs, w, i) && Holds(Run(s, steps).pcs, v, i)
    ensures w == v
  {
    InitialOrderly(s);
    RunOrderly(s, steps);
    assert OrderlyAt(Run(s, steps), i);
  }

  // -------------------------------------------------------------- what no step undoes, and stranding

  /** The intents are the same and each keeps its order; no event disappears and no call is taken back. */
  ghost predicate Steady(s: World, t: World) {
    && s.db.intents.Keys == t.db.intents.Keys
    && (forall i :: i in s.db.intents ==> SameOrder(s.db.intents[i], t.db.intents[i]))
    && s.db.events.Keys <= t.db.events.Keys
    && (forall i :: CallsFor(s, i) <= CallsFor(t, i))
  }

  lemma TouchingIsSteady(s: World, t: World, i: IntentId)
    requires Touches(s.db, t.db, i) && t.calls == s.calls
    ensures Steady(s, t)
  {
  }

  lemma AttemptSteady(s: World, w: WorkerId, call: Call, report: Report)
    ensures Steady(s, AttemptStep(s, w, call, report))
  {
    var pc := PcOf(s.pcs, w);
    if pc.Claimed? && pc.intent in s.db.intents {
      AttemptTouches(s.db, call, pc.intent);
      TouchingIsSteady(s, AttemptStep(s, w, call, report), pc.intent);
    }
  }

  lemma ReleaseSteady(s: World, w: WorkerId, call: Call, report: Report)
    ensures Steady(s, ReleaseStep(s, w, call, report))
  {
    var pc := PcOf(s.pcs, w);
    if pc.Releasing? {
      ReleaseTouches(s.db, call, pc.intent);
      TouchingIsSteady(s, ReleaseStep(s, w, call, report), pc.intent);
    }
  }

  lemma RecordSteady(s: World, w: WorkerId, call: Call, report: Report)
    ensures Steady(s, RecordStep(s, w, call, report))
  {
    var pc := PcOf(s.pcs, w);
    if pc.Answered? && pc.intent in s.db.intents {
      match pc.answer {
        case Responded(ack) => SubmissionTouches(s.db, call, pc.intent, ack);
        case Refused => RejectionTouches(s.db, call, pc.intent);
        case Lost => TouchesNothing(s.db, pc.intent);
      }
      TouchingIsSteady(s, RecordStep(s, w, call, report), pc.intent);
    }
  }

  lemma DoubtSteady(s: World, w: WorkerId, call: Call, report: Report)
    ensures Steady(s, DoubtStep(s, w, call, report))
  {
    var pc := PcOf(s.pcs, w);
    if pc.Uncertain? && pc.intent in s.db.intents {
      AmbiguousTouches(s.db, call, pc.intent, pc.classification);
      TouchingIsSteady(s, DoubtStep(s, w, call, report), pc.intent);
    }
  }

  lemma ReconcileSteady(s: World, w: WorkerId, call: Call, recovered: Option<BrokerOrderId>, report: Report)
    ensures Steady(s, ReconcileStep(s, w, call, recovered, report))
  {
    var pc := PcOf(s.pcs, w);
    if pc.Recovering? && pc.intent in s.db.intents && recovered.Some? {
      ReconciledTouches(s.db, call, pc.intent, recovered.value);
      TouchingIsSteady(s, ReconcileStep(s, w, call, recovered, report), pc.intent);
    }
  }

  lemma CancelStaleSteady(s: World, call: Call, i: IntentId)
    ensures Steady(s, RecoverStep(s, CancellingStale(call, i)))
  {
    CancelStaleTouches(s.db, call, i);
    TouchingIsSteady(s, Dropping(s, CancelStale(s.db, call, i).db), i);
  }

  lemma PreserveStaleSteady(s: World, call: Call, i: IntentId)
    ensures Steady(s, RecoverStep(s, PreservingStale(call, i)))
  {
    TouchingIsSteady(s, s.(db := PreserveStale(s.db, call, i)), i);
  }

  lemma RecoverSteady(s: World, act: Act)
    ensures Steady(s, RecoverStep(s, act))
  {
    match act {
      case CancellingStale(call, i) => CancelStaleSteady(s, call, i);
      case PreservingStale(call, i) => PreserveStaleSteady(s, call, i);
      case CancellingCreated(call) => CancelCreatedSteady(s, call);
      case _ => UntouchedIsSteady(s, RecoverStep(s, act));
    }
  }

  lemma UntouchedIsSteady(s: World, t: World)
    requires t.db.intents == s.db.intents && t.db.events == s.db.events && t.calls == s.calls
    ensures Steady(s, t)
  {
  }

  lemma CancelCreatedSteady(s: World, call: Call)
    ensures Steady(s, Dropping(s, CancelStaleCreated(s.db, call)))
  {
  }

  predicate Creates(s: World, step: Step) {
    step.Environment? && step.change.Creating? && Creatable(s.db, step.change.i, step.change.intent)
  }

  lemma PromotingSteady(s: World, call: Call, command: Command, i: IntentId, report: Report)
    ensures Steady(s, s.(db := Landed(s.db, Promote(s.db, call, command, i), report)))
  {
    PromoteTouches(s.db, call, command, i);
    TouchingIsSteady(s, s.(db := Landed(s.db, Promote(s.db, call, command, i), report)), i);
  }

  lemma ClaimingSteady(s: World, w: WorkerId, call: Call, command: Command, i: IntentId, report: Report)
    ensures Steady(s, ClaimStep(s, w, call, command, i, report))
  {
    ClaimTouches(s.db, call, command, i);
    TouchingIsSteady(s, ClaimStep(s, w, call, command, i, report), i);
  }

  lemma WorkSteady(s: World, w: WorkerId, action: Action)
    ensures Steady(s, WorkStep(s, w, action))
  {
    match action {
      case Claiming(call, command, i, report) => ClaimingSteady(s, w, call, command, i, report);
      case GateFailing => UntouchedIsSteady(s, GateStep(s, w));
      case Attempting(call, report) => AttemptSteady(s, w, call, report);
      case ReleasingClaim(call, report) => ReleaseSteady(s, w, call, report);
      case Sending(answer) => SendSteady(s, w, answer);
      case RecordingAnswer(call, report) => RecordSteady(s, w, call, report);
      case RecordingDoubt(call, report) => DoubtSteady(s, w, call, report);
      case Reconciling(call, recovered, report) => ReconcileSteady(s, w, call, recovered, report);
      case Crashing => UntouchedIsSteady(s, At(s, s.db, w, Idle));
    }
  }

  lemma SendSteady(s: World, w: WorkerId, answer: Answer)
    ensures Steady(s, SendStep(s, w, answer))
  {
  }

  lemma EnvironmentSteady(s: World, change: Change)
    requires !(change.Creating? && Creatable(s.db, change.i, change.intent))
    ensures Steady(s, s.(db := EnvironmentStep(s.db, change)))
  {
    UntouchedIsSteady(s, s.(db := EnvironmentStep(s.db, change)));
  }

  lemma StepSteady(s: World, step: Step)
    requires !Creates(s, step)
    ensures Steady(s, Apply(s, step))
  {
    match step {
      case Environment(change) => EnvironmentSteady(s, change);
      case Promoting(call, command, i, report) => PromotingSteady(s, call, command, i, report);
      case Work(w, action) => WorkSteady(s, w, action);
      case Recover(act) => RecoverSteady(s, act);
    }
  }

  lemma CreationStep(s: World, step: Step)
    requires Creates(s, step)
    ensures Apply(s, step) == s.(db := s.db.(intents := s.db.intents[step.change.i := step.change.intent]))
  {
  }

  /** The attempt is durable, the order was not sent, and no worker is about to send it. */
  ghost predicate Stranded(s: World, i: IntentId) {
    && AttemptDurable(s.db, i) && CallsFor(s, i) == 0
    && forall w :: Holds(s.pcs, w, i) ==> !s.pcs[w].Attempted? && !s.pcs[w].Answered?
  }

  /** Only a first attempt on its claimed intent, or a send, moves a worker to where the order is going out. */
  lemma StepPcs(s: World, step: Step, v: WorkerId)
    requires var pc := PcOf(Apply(s, step).pcs, v); pc.Attempted? || pc.Answered?
    ensures var pc := PcOf(Apply(s, step).pcs, v);
            || PcOf(s.pcs, v) == pc
            || PcOf(s.pcs, v) == Attempted(pc.intent)
            || (PcOf(s.pcs, v) == Claimed(pc.intent) && pc.intent in s.db.intents && !AttemptDurable(s.db, pc.intent))
  {
  }

  /** No step leads out of being stranded: a second attempt conflicts with the first. */
  lemma StepStranded(s: World, step: Step, i: IntentId)
    requires Stranded(s, i)
    ensures Stranded(Apply(s, step), i)
  {
    var t := Apply(s, step);
    if Creates(s, step) {
      CreationStep(s, step);
    } else {
      StepSteady(s, step);
      forall v | Holds(t.pcs, v, i)
        ensures !t.pcs[v].Attempted? && !t.pcs[v].Answered?
      {
        if t.pcs[v].Attempted? || t.pcs[v].Answered? {
          StepPcs(s, step, v);
          assert Holds(s.pcs, v, i);
        }
      }
      StepCalls(s, step, i);
    }
  }

  lemma StepCalls(s: World, step: Step, i: IntentId)
    requires forall w :: Holds(s.pcs, w, i) ==> !s.pcs[w].Attempted?
    ensures CallsFor(Apply(s, step), i) == CallsFor(s, i)
  {
  }

  lemma {:induction false} RunStranded(s: World, steps: seq<Step>, i: IntentId)
    requires Stranded(s, i)
    ensures Stranded(Run(s, steps), i)
    decreases |steps|
  {
    if steps != [] {
      StepStranded(s, steps[0], i);
      RunStranded(Apply(s, steps[0]), steps[1..], i);
    }
  }

  /**
   An attempt that commits but is reported as failed strands its intent: in whatever follows, the order
   is never sent, although the claim is released and may be taken again any number of times.
   */
  lemma MisreportedAttemptIsNeverSent(s: World, before: seq<Step>, w: WorkerId, call: Call, i: IntentId,
                                      later: seq<Step>)
    requires Initial(s) && PcOf(Run(s, before).pcs, w) == Claimed(i)
    requires i in Run(s, before).db.intents && RecordAttempt(Run(s, before).db, call, i).Commit?
    ensures CallsFor(Run(Apply(Run(s, before), Work(w, Attempting(call, Misreported))), later), i) == 0
  {
    InitialOrderly(s);
    RunOrderly(s, before);
    MisreportedAttemptStrands(Run(s, before), w, call, i);
    RunStranded(Apply(Run(s, before), Work(w, Attempting(call, Misreported))), later, i);
  }

  lemma MisreportedAttemptStrands(s: World, w: WorkerId, call: Call, i: IntentId)
    requires Orderly(s) && PcOf(s.pcs, w) == Claimed(i) && i in s.db.intents && RecordAttempt(s.db, call, i).Commit?
    ensures Stranded(Apply(s, Work(w, Attempting(call, Misreported))), i)
  {
    HeldPhase(s, w, i);
    AttemptTouches(s.db, call, i);
    assert OrderlyAt(s, i);
    assert Holds(s.pcs, w, i);
  }

  // ---------------------------------------------------------------------------- exactly what strands

  predicate AttemptsKept(before: Db, after: Db) {
    forall k :: k in after.events && k.AttemptKey? ==> k in before.events
  }

  lemma RecordKeepsAttempts(s: World, w: WorkerId, call: Call, report: Report)
    ensures AttemptsKept(s.db, RecordStep(s, w, call, report).db)
  {
    var pc := PcOf(s.pcs, w);
    if pc.Answered? && pc.intent in s.db.intents && pc.answer.Responded? {
      if RecordSubmission(s.db, call, pc.intent, pc.answer.ack).Commit? {
        RecordedWrites(s.db, pc.intent, pc.answer.ack);
      }
    }
  }

  lemma WorkKeepsAttempts(s: World, w: WorkerId, action: Action)
    requires !action.Attempting?
    ensures AttemptsKept(s.db, WorkStep(s, w, action).db)
  {
    if action.RecordingAnswer? {
      RecordKeepsAttempts(s, w, action.call, action.report);
    }
  }

  lemma RecoverKeepsEvents(s: World, act: Act)
    ensures RecoverStep(s, act).db.events == s.db.events
  {
    if act.CancellingStale? {
      if Cancellable(s.db, act.call, act.i) {
        CancelStaleWrites(s.db, act.call, act.i);
      } else {
        assert CancelStale(s.db, act.call, act.i).db == s.db;
      }
    }
  }

  lemma PromoteKeepsEvents(db: Db, call: Call, command: Command, i: IntentId)
    ensures After(db, Promote(db, call, command, i)).events == db.events
  {
  }

  lemma EnvironmentKeepsEvents(db: Db, change: Change)
    ensures EnvironmentStep(db, change).events == db.events
  {
  }

  lemma OthersKeepAttempts(s: World, step: Step)
    requires !(step.Work? && step.action.Attempting?)
    ensures AttemptsKept(s.db, Apply(s, step).db)
  {
    match step {
      case Environment(change) => EnvironmentKeepsEvents(s.db, change);
      case Promoting(call, command, i, report) => PromoteKeepsEvents(s.db, call, command, i);
      case Work(w, action) => WorkKeepsAttempts(s, w, action);
      case Recover(act) => RecoverKeepsEvents(s, act);
    }
  }

  /** A worker that has claimed `i` makes an attempt that commits but is reported as failed. */
  predicate AttemptMisreported(s: World, step: Step, i: IntentId) {
    && step.Work? && step.action.Attempting? && PcOf(s.pcs, step.w) == Claimed(i) && i in s.db.intents
    && RecordAttempt(s.db, step.action.call, i).Commit? && step.action.report.Misreported?
  }

  /** A worker that has its attempt on `i` confirmed crashes before the call. */
  predicate CrashedBeforeCall(s: World, step: Step, i: IntentId) {
    step.Work? && step.action.Crashing? && PcOf(s.pcs, step.w) == Attempted(i)
  }

  /** An attempt becomes durable only by a committing attempt of the worker that claimed the intent. */
  lemma NewlyDurable(s: World, step: Step, i: IntentId)
    requires i in s.db.intents && !AttemptDurable(s.db, i) && AttemptDurable(Apply(s, step).db, i)
    ensures step.Work? && step.action.Attempting? && PcOf(s.pcs, step.w) == Claimed(i)
    ensures RecordAttempt(s.db, step.action.call, i).Commit? && !step.action.report.RolledBack?
  {
    if !Creates(s, step) {
      StepSteady(s, step);
    }
    assert AttemptKeyOf(i, Apply(s, step).db.intents[i]) == AttemptKeyOf(i, s.db.intents[i]);
    if !(step.Work? && step.action.Attempting?) {
      OthersKeepAttempts(s, step);
    }
  }

  /** Only a call or a crash takes a worker away from its confirmed attempt. */
  lemma LeavesAttempted(s: World, step: Step, w: WorkerId, i: IntentId)
    requires PcOf(s.pcs, w) == Attempted(i) && PcOf(Apply(s, step).pcs, w) != Attempted(i)
    ensures step.Work? && step.w == w && (step.action.Sending? || step.action.Crashing?)
  {
  }

  /** The worker about to send, when an attempt is durable, nothing was sent and the intent is not stranded. */
  lemma AboutToSend(s: World, i: IntentId) returns (w: WorkerId)
    requires Orderly(s) && AttemptDurable(s.db, i) && CallsFor(s, i) == 0 && !Stranded(s, i)
    ensures PcOf(s.pcs, w) == Attempted(i)
  {
    w :| Holds(s.pcs, w, i) && (s.pcs[w].Attempted? || s.pcs[w].Answered?);
    HeldPhase(s, w, i);
  }

  lemma CrashStrands(s: World, step: Step, i: IntentId)
    requires Orderly(s) && CrashedBeforeCall(s, step, i)
    ensures Stranded(Apply(s, step), i)
  {
    HeldPhase(s, step.w, i);
    var t := Apply(s, step);
    assert OrderlyAt(s, i) && Holds(s.pcs, step.w, i);
    assert forall v :: Holds(t.pcs, v, i) ==> Holds(s.pcs, v, i);
    assert PcOf(t.pcs, step.w).Idle?;
  }

  /**
   Exactly two steps strand an intent: an attempt that commits but is reported as failed, and a crash
   between a confirmed attempt and its call.
   */
  lemma StrandedIff(s: World, step: Step, i: IntentId)
    requires Orderly(s) && i in s.db.intents && !Stranded(s, i)
    ensures Stranded(Apply(s, step), i) <==> AttemptMisreported(s, step, i) || CrashedBeforeCall(s, step, i)
  {
    if AttemptMisreported(s, step, i) {
      MisreportedAttemptStrands(s, step.w, step.action.call, i);
    } else if CrashedBeforeCall(s, step, i) {
      CrashStrands(s, step, i);
    } else if Stranded(Apply(s, step), i) {
      OnlyTwoStrand(s, step, i);
    }
  }

  lemma OnlyTwoStrand(s: World, step: Step, i: IntentId)
    requires Orderly(s) && i in s.db.intents && !Stranded(s, i) && Stranded(Apply(s, step), i)
    ensures AttemptMisreported(s, step, i) || CrashedBeforeCall(s, step, i)
  {
    var t := Apply(s, step);
    if AttemptDurable(s.db, i) {
      if !Creates(s, step) {
        StepSteady(s, step);
      }
      var w := AboutToSend(s, i);
      assert PcOf(t.pcs, w) == Attempted(i) ==> Holds(t.pcs, w, i);
      LeavesAttempted(s, step, w, i);
    } else {
      NewlyDurable(s, step, i);
      ConfirmedGoesOn(s, step.w, step.action.call, i);
    }
  }

  /** A confirmed attempt leaves its worker about to send. */
  lemma ConfirmedGoesOn(s: World, w: WorkerId, call: Call, i: IntentId)
    requires PcOf(s.pcs, w) == Claimed(i) && i in s.db.intents && RecordAttempt(s.db, call, i).Commit?
    ensures !Stranded(Apply(s, Work(w, Attempting(call, Reported))), i)
  {
    var t := Apply(s, Work(w, Attempting(call, Reported)));
    assert Holds(t.pcs, w, i) && t.pcs[w].Attempted?;
  }

  /** Once its attempt is durable, an order is out of reach of every continuation exactly when it is stranded. */
  lemma NeverSentIffStranded(s: World, i: IntentId)
    requires Orderly(s) && AttemptDurable(s.db, i)
    ensures Stranded(s, i) <==> forall steps :: CallsFor(Run(s, steps), i) == 0
  {
    if Stranded(s, i) {
      forall steps
        ensures CallsFor(Run(s, steps), i) == 0
      {
        RunStranded(s, steps, i);
      }
    } else if CallsFor(s, i) > 0 {
      assert Run(s, []) == s;
    } else {
      var w := AboutToSend(s, i);
      var send := Work(w, Sending(Lost));
      assert [send][1..] == [];
      assert Run(s, [send]) == Apply(s, send);
      assert CallsFor(Run(s, [send]), i) == 1;
    }
  }

  // ------------------------------------------------------------------------------ honest broker lookups

  ghost predicate DistinctOrders(intents: map<IntentId, Intent>) {
    forall i, j :: i in intents && j in intents && OrderKeyOf(intents[i]) == OrderKeyOf(intents[j]) ==> i == j
  }

  /** The broker knows an order under this intent's account and client order id because some call carried it. */
  ghost predicate BrokerKnows(s: World, i: IntentId) {
    && i in s.db.intents
    && exists j :: j in s.db.intents && OrderKeyOf(s.db.intents[j]) == OrderKeyOf(s.db.intents[i]) && CallsFor(s, j) > 0
  }

  ghost predicate Honest(s: World, step: Step) {
    step.Recover? && step.act.LookingUp? && step.act.known ==> BrokerKnows(s, step.act.i)
  }

  ghost predicate HonestRun(s: World, steps: seq<Step>)
    decreases |steps|
  {
    steps == [] || (Honest(s, steps[0]) && HonestRun(Apply(s, steps[0]), steps[1..]))
  }

  /** Everything a lookup reported as known to the broker was sent. */
  ghost predicate FoundWasSent(s: World) {
    DistinctOrders(s.db.intents) && forall i :: i in s.found ==> CallsFor(s, i) > 0
  }

  lemma SteadyOrders(s: World, t: World)
    requires Steady(s, t) && DistinctOrders(s.db.intents)
    ensures DistinctOrders(t.db.intents)
  {
  }

  lemma StepLookups(s: World, step: Step, i: IntentId)
    requires i in Apply(s, step).found && i !in s.found
    ensures step.Recover? && step.act.LookingUp? && step.act.known && step.act.i == i
  {
  }

  lemma StepFound(s: World, step: Step)
    requires FoundWasSent(s) && Honest(s, step)
    ensures FoundWasSent(Apply(s, step))
  {
    var t := Apply(s, step);
    if Creates(s, step) {
      CreationStep(s, step);
    } else {
      StepSteady(s, step);
      SteadyOrders(s, t);
      forall i | i in t.found
        ensures CallsFor(t, i) > 0
      {
        if i !in s.found {
          StepLookups(s, step, i);
          KnownWasSent(s, i);
        }
      }
    }
  }

  lemma KnownWasSent(s: World, i: IntentId)
    requires DistinctOrders(s.db.intents) && BrokerKnows(s, i)
    ensures CallsFor(s, i) > 0
  {
  }

  lemma {:induction false} RunFound(s: World, steps: seq<Step>)
    requires FoundWasSent(s) && HonestRun(s, steps)
    ensures FoundWasSent(Run(s, steps))
    decreases |steps|
  {
    if steps != [] {
      StepFound(s, steps[0]);
      RunFound(Apply(s, steps[0]), steps[1..]);
    }
  }

  /** With a broker that answers truthfully, the statement that preserves a stale ready intent never finds one. */
  lemma PreservingIsIdle(s: World, steps: seq<Step>, call: Call, i: IntentId)
    requires Initial(s) && HonestRun(s, steps)
    ensures Apply(Run(s, steps), Recover(PreservingStale(call, i))) == Run(s, steps)
  {
    InitialOrderly(s);
    RunOrderly(s, steps);
    RunFound(s, steps);
    var t := Run(s, steps);
    if i in t.found && i in t.db.intents && t.db.intents[i].status.Ready? {
      ReadyIsFree(t, i);
      assert false;
    }
  }
}
