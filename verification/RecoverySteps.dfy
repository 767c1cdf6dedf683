/**
 The recovery as a part of the protocol: a recovery that nothing comes between is a run of protocol steps,
 and over every run an intent is dropped only for what its own rows or the broker's answer say.
 */
module RecoverySteps {
  import opened Options
  import opened Sequences
  import opened TradeLifecycle
  import opened Tables
  import opened Ledger
  import opened Recovery
  import opened RecoveryRun
  import opened Protocol
  import opened AtMostOnce
  import opened Authorisation
  import opened RecoveryReach

  // --------------------------------------------------------------------- a recovery is a run of steps

  function Selections(call: Call, rows: seq<IntentId>): seq<Step> {
    if rows == [] then [] else [Recover(SelectingStale(call, rows[0]))] + Selections(call, rows[1..])
  }

  /** The broker's answer for a row and the statement it leads to; a failing lookup leads to none. */
  function RowSteps(call: Call, i: IntentId, lookup: Lookup): seq<Step> {
    match lookup
    case FoundAtBroker => [Recover(LookingUp(i, true)), Recover(PreservingStale(call, i))]
    case AbsentAtBroker => [Recover(LookingUp(i, false)), Recover(CancellingStale(call, i))]
    case LookupBroken => []
    case IdentityMismatched => []
  }

  /** The rows' steps up to the first failure. */
  function RowsSteps(p: Progress, call: Call, rows: seq<IntentId>, lookups: IntentId -> Lookup): seq<Step>
    decreases |rows|
  {
    if p.failure.Some? || rows == [] then []
    else RowSteps(call, rows[0], lookups(rows[0]))
         + RowsSteps(RecoverRow(p, call, rows[0], lookups(rows[0])), call, rows[1..], lookups)
  }

  ghost function FinishSteps(db: Db, call: Call): seq<Step> {
    if BulkExpire(db, call).failure.Some? then [Recover(ExpiringReservations(call))]
    else [Recover(ExpiringReservations(call)), Recover(ExpiringReviews(call)), Recover(ExpiringConfirmations(call)),
          Recover(CancellingCreated(call))]
  }

  ghost function RecoverySteps(db: Db, call: Call, rows: seq<IntentId>, lookups: IntentId -> Lookup): seq<Step> {
    var p := RecoverRows(Start(db), call, rows, lookups);
    Selections(call, rows) + RowsSteps(Start(db), call, rows, lookups)
    + if p.failure.Some? then [] else FinishSteps(p.db, call)
  }

  lemma {:induction false} RunSplits(s: World, a: seq<Step>, b: seq<Step>)
    ensures Run(s, a + b) == Run(Run(s, a), b)
    decreases |a|
  {
    if a == [] {
      assert a + b == b;
    } else {
      assert (a + b)[0] == a[0] && (a + b)[1..] == a[1..] + b;
      RunSplits(Apply(s, a[0]), a[1..], b);
    }
  }

  lemma RunOne(s: World, step: Step)
    ensures Run(s, [step]) == Apply(s, step)
  {
    assert [step][1..] == [];
  }

  lemma RunTwo(s: World, first: Step, second: Step)
    ensures Run(s, [first, second]) == Apply(Apply(s, first), second)
  {
    assert [first, second] == [first] + [second];
    RunSplits(s, [first], [second]);
    RunOne(s, first);
    RunOne(Apply(s, first), second);
  }

  lemma {:induction false} SelectionsSelect(s: World, call: Call, rows: seq<IntentId>)
    requires forall i :: i in rows ==> StaleReady(s.db, call, i)
    ensures var t := Run(s, Selections(call, rows)); t.db == s.db && s.stale <= t.stale
    ensures forall i :: i in rows ==> i in Run(s, Selections(call, rows)).stale
    decreases |rows|
  {
    if rows != [] {
      var first := Recover(SelectingStale(call, rows[0]));
      assert ([first] + Selections(call, rows[1..]))[1..] == Selections(call, rows[1..]);
      assert rows[0] in rows;
      SelectionsSelect(Apply(s, first), call, rows[1..]);
    }
  }

  lemma RowIsSteps(s: World, call: Call, i: IntentId, lookup: Lookup, p: Progress)
    requires i in s.stale && p.db == s.db && p.failure.None?
    ensures var t := Run(s, RowSteps(call, i, lookup));
            t.db == RecoverRow(p, call, i, lookup).db && t.stale == s.stale
  {
    match lookup {
      case FoundAtBroker => RunTwo(s, Recover(LookingUp(i, true)), Recover(PreservingStale(call, i)));
      case AbsentAtBroker => RunTwo(s, Recover(LookingUp(i, false)), Recover(CancellingStale(call, i)));
      case LookupBroken =>
      case IdentityMismatched =>
    }
  }

  lemma {:induction false} RowsAreSteps(s: World, call: Call, rows: seq<IntentId>, lookups: IntentId -> Lookup,
                                        p: Progress)
    requires p.db == s.db && forall i :: i in rows ==> i in s.stale
    ensures Run(s, RowsSteps(p, call, rows, lookups)).db == RecoverRows(p, call, rows, lookups).db
    decreases |rows|
  {
    if p.failure.None? && rows != [] {
      assert rows[0] in rows;
      RowIsSteps(s, call, rows[0], lookups(rows[0]), p);
      var first, q := RowSteps(call, rows[0], lookups(rows[0])), RecoverRow(p, call, rows[0], lookups(rows[0]));
      RunSplits(s, first, RowsSteps(q, call, rows[1..], lookups));
      RowsAreSteps(Run(s, first), call, rows[1..], lookups, q);
    }
  }

  lemma ExpiringSteps(s: World, call: Call)
    ensures Run(s, [Recover(ExpiringReservations(call)), Recover(ExpiringReviews(call))]).db
         == ExpireReviews(BulkExpire(s.db, call).db, call)
  {
    RunTwo(s, Recover(ExpiringReservations(call)), Recover(ExpiringReviews(call)));
  }

  lemma CancellingSteps(s: World, call: Call)
    ensures Run(s, [Recover(ExpiringConfirmations(call)), Recover(CancellingCreated(call))]).db
         == CancelStaleCreated(ExpireConfirmations(s.db, call), call)
  {
    RunTwo(s, Recover(ExpiringConfirmations(call)), Recover(CancellingCreated(call)));
  }

  lemma FinishIsSteps(s: World, call: Call)
    ensures Run(s, FinishSteps(s.db, call)).db == FinishRecovery(s.db, call).db
  {
    var expiring := [Recover(ExpiringReservations(call)), Recover(ExpiringReviews(call))];
    var cancelling := [Recover(ExpiringConfirmations(call)), Recover(CancellingCreated(call))];
    if BulkExpire(s.db, call).failure.Some? {
      RunOne(s, Recover(ExpiringReservations(call)));
    } else {
      assert FinishSteps(s.db, call) == expiring + cancelling;
      RunSplits(s, expiring, cancelling);
      ExpiringSteps(s, call);
      CancellingSteps(Run(s, expiring), call);
    }
  }

  /** A whole recovery nothing comes between, wherever it stops, leaves the tables of a run of protocol steps. */
  lemma RecoveryIsRun(s: World, call: Call, rows: seq<IntentId>, lookups: IntentId -> Lookup)
    requires Elements(rows) == StaleRows(s.db, call)
    ensures Run(s, RecoverySteps(s.db, call, rows, lookups)).db == Recovered(s.db, call, rows, lookups)
  {
    var p := RecoverRows(Start(s.db), call, rows, lookups);
    forall i | i in rows
      ensures StaleReady(s.db, call, i)
    {
      assert i in Elements(rows);
    }
    SelectionsSelect(s, call, rows);
    var selected := Run(s, Selections(call, rows));
    RowsAreSteps(selected, call, rows, lookups, Start(s.db));
    var visiting := RowsSteps(Start(s.db), call, rows, lookups);
    var visited := Run(selected, visiting);
    RunSplits(s, Selections(call, rows), visiting);
    RunSplits(s, Selections(call, rows) + visiting, if p.failure.Some? then [] else FinishSteps(p.db, call));
    if p.failure.None? {
      FinishIsSteps(visited, call);
    }
  }

  // ------------------------------------------------------------------------- why an intent is dropped

  /** Under its lease a recovery finds the ready intent without an order, something it rests on gone. */
  ghost predicate Selects(db: Db, step: Step, i: IntentId) {
    && step.Recover? && step.act.SelectingStale? && step.act.i == i && OwnsLease(db.leases, step.act.call)
    && i in db.intents && db.intents[i].status == Ready && Joined(db, db.intents[i])
    && !HasOrder(db.orders, i) && !AllStands(db, db.intents[i], step.act.call.now)
  }

  /** Selected by the `n`th step, and the broker was asked afterwards, by the `m`th, and answered. */
  ghost predicate AnsweredAt(s: World, steps: seq<Step>, n: nat, m: nat, i: IntentId, known: bool) {
    n < m < |steps| && Selects(Run(s, steps[..n]).db, steps[n], i) && steps[m] == Recover(LookingUp(i, known))
  }

  function ToldOf(s: World, known: bool): set<IntentId> {
    if known then s.found else s.absent
  }

  lemma StepSelects(s: World, step: Step, i: IntentId)
    requires i in Apply(s, step).stale && i !in s.stale
    ensures Selects(s.db, step, i)
  {
    SelectedIff(s.db, step.act.call, i);
  }

  lemma StepAnswers(s: World, step: Step, i: IntentId, known: bool)
    requires i in ToldOf(Apply(s, step), known) && i !in ToldOf(s, known)
    ensures i in s.stale && step == Recover(LookingUp(i, known))
  {
  }

  lemma {:induction false} SelectedBefore(s: World, steps: seq<Step>, i: IntentId) returns (n: nat)
    requires Initial(s) && i in Run(s, steps).stale
    ensures n < |steps| && Selects(Run(s, steps[..n]).db, steps[n], i)
    decreases |steps|
  {
    var front, last := steps[..|steps| - 1], steps[|steps| - 1];
    assert steps == front + [last];
    RunThen(s, front, last);
    if i in Run(s, front).stale {
      n := SelectedBefore(s, front, i);
      assert steps[..n] == front[..n] && steps[n] == front[n];
    } else {
      StepSelects(Run(s, front), last, i);
      n := |front|;
    }
  }

  lemma {:induction false} AnsweredBefore(s: World, steps: seq<Step>, i: IntentId, known: bool)
    returns (n: nat, m: nat)
    requires Initial(s) && i in ToldOf(Run(s, steps), known)
    ensures AnsweredAt(s, steps, n, m, i, known)
    decreases |steps|
  {
    var front, last := steps[..|steps| - 1], steps[|steps| - 1];
    assert steps == front + [last];
    RunThen(s, front, last);
    if i in ToldOf(Run(s, front), known) {
      n, m := AnsweredBefore(s, front, i, known);
      assert steps[..n] == front[..n];
    } else {
      StepAnswers(Run(s, front), last, i, known);
      n := SelectedBefore(s, front, i);
      m := |front|;
      assert steps[..n] == front[..n];
    }
  }

  /** Cancelled while ready and without an order, under the lease, by the recovery that was told nothing is known. */
  ghost predicate DropsReady(db: Db, step: Step, i: IntentId) {
    && step.Recover? && step.act.CancellingStale? && step.act.i == i && OwnsLease(db.leases, step.act.call)
    && i in db.intents && db.intents[i].status == Ready && !HasOrder(db.orders, i)
  }

  /** Cancelled as soon as it was created, under the lease, for a review that no longer stands. */
  ghost predicate DropsCreated(db: Db, step: Step, i: IntentId) {
    && step.Recover? && step.act.CancellingCreated? && OwnsLease(db.leases, step.act.call)
    && i in db.intents && db.intents[i].status == Created && db.intents[i].review in db.reviews
    && !ReviewStands(db.reviews[db.intents[i].review], step.act.call.now)
  }

  lemma CancellingDrops(s: World, call: Call, j: IntentId, i: IntentId)
    requires i in Dropped(s.db.intents, CancelStale(s.db, call, j).db.intents)
    ensures j == i && DropsReady(s.db, Recover(CancellingStale(call, j)), i)
  {
    FenceIsLease(s.db.leases, call);
    if j != i {
      CancelStaleTouches(s.db, call, j);
      assert false;
    }
    assert Cancellable(s.db, call, i);
    assert NoOrderFor(s.db.orders, i) <==> !HasOrder(s.db.orders, i);
  }

  lemma CreatedDrops(s: World, call: Call, i: IntentId)
    requires i in Dropped(s.db.intents, CancelStaleCreated(s.db, call).intents)
    ensures DropsCreated(s.db, Recover(CancellingCreated(call)), i)
  {
    FenceIsLease(s.db.leases, call);
    CancelledCreated(s.db, call, i);
    assert StaleCreated(s.db, call, i);
  }

  lemma StepDrops(s: World, step: Step, i: IntentId)
    requires i in Apply(s, step).dropped && i !in s.dropped
    ensures (i in s.absent && DropsReady(s.db, step, i)) || DropsCreated(s.db, step, i)
  {
    match step.act {
      case CancellingStale(call, j) => CancellingDrops(s, call, j, i);
      case CancellingCreated(call) => CreatedDrops(s, call, i);
    }
  }

  /** Dropped by the `d`th step, as a created intent, or as a ready one selected and not known before. */
  ghost predicate DroppedAt(s: World, steps: seq<Step>, d: nat, i: IntentId)
    requires d < |steps|
  {
    var db := Run(s, steps[..d]).db;
    DropsCreated(db, steps[d], i)
    || (DropsReady(db, steps[d], i) && exists n, m :: AnsweredAt(s, steps[..d], n, m, i, false))
  }

  /**
   Over every run: an intent is dropped only under a lease its recovery owned, when it was created and its
   review no longer stood, or when it was ready, had no order, something it rested on was gone when it was
   selected, and the broker, asked after that, did not know its order.
   */
  lemma {:induction false} DroppedForReason(s: World, steps: seq<Step>, i: IntentId) returns (d: nat)
    requires Initial(s) && i in Run(s, steps).dropped
    ensures d < |steps| && DroppedAt(s, steps, d, i)
    decreases |steps|
  {
    var front, last := steps[..|steps| - 1], steps[|steps| - 1];
    assert steps == front + [last];
    RunThen(s, front, last);
    if i in Run(s, front).dropped {
      d := DroppedForReason(s, front, i);
      assert steps[..d] == front[..d] && steps[d] == front[d];
    } else {
      d := |front|;
      StepDrops(Run(s, front), last, i);
      if i in Run(s, front).absent && DropsReady(Run(s, front).db, last, i) {
        var n, m := AnsweredBefore(s, front, i, false);
      }
    }
  }

  // ----------------------------------------------------------------------- why an intent is preserved

  /** Ready in one state of the tables and ambiguous in the other. */
  predicate Preserved(before: Db, after: Db, i: IntentId) {
    && i in before.intents && before.intents[i].status == Ready
    && i in after.intents && after.intents[i].status == Ambiguous
  }

  lemma EnvironmentPreservesNone(db: Db, change: Change, i: IntentId)
    ensures !Preserved(db, EnvironmentStep(db, change), i)
  {
  }

  lemma PromotionPreservesNone(db: Db, call: Call, command: Command, j: IntentId, report: Report, i: IntentId)
    ensures !Preserved(db, Landed(db, Promote(db, call, command, j), report), i)
  {
    PromoteTouches(db, call, command, j);
    if j in db.intents && db.intents[j].status == Ready {
      assert !Promote(db, call, command, j).Commit?;
    }
  }

  lemma AnswersPreserveNone(s: World, w: WorkerId, call: Call, report: Report, i: IntentId)
    ensures !Preserved(s.db, RecordStep(s, w, call, report).db, i)
  {
    var pc := PcOf(s.pcs, w);
    if pc.Answered? && pc.intent in s.db.intents && pc.answer.Responded? {
      SubmissionTouches(s.db, call, pc.intent, pc.answer.ack);
    } else if pc.Answered? && pc.intent in s.db.intents && pc.answer.Refused? {
      RejectionTouches(s.db, call, pc.intent);
    }
  }

  lemma DoubtPreservesNone(s: World, w: WorkerId, call: Call, report: Report, i: IntentId)
    ensures !Preserved(s.db, DoubtStep(s, w, call, report).db, i)
  {
    var pc := PcOf(s.pcs, w);
    if pc.Uncertain? && pc.intent in s.db.intents {
      AmbiguousTouches(s.db, call, pc.intent, pc.classification);
    }
  }

  lemma WorkPreservesNone(s: World, w: WorkerId, action: Action, i: IntentId)
    ensures !Preserved(s.db, WorkStep(s, w, action).db, i)
  {
    var pc := PcOf(s.pcs, w);
    match action {
      case Claiming(call, command, j, report) => ClaimTouches(s.db, call, command, j);
      case Attempting(call, report) =>
        if pc.Claimed? && pc.intent in s.db.intents {
          AttemptTouches(s.db, call, pc.intent);
        }
      case ReleasingClaim(call, report) =>
        if pc.Releasing? {
          ReleaseTouches(s.db, call, pc.intent);
        }
      case RecordingAnswer(call, report) => AnswersPreserveNone(s, w, call, report, i);
      case RecordingDoubt(call, report) => DoubtPreservesNone(s, w, call, report, i);
      case Reconciling(call, recovered, report) =>
        if pc.Recovering? && pc.intent in s.db.intents && recovered.Some? {
          ReconciledTouches(s.db, call, pc.intent, recovered.value);
        }
      case _ =>
    }
  }

  lemma StepPreserves(s: World, step: Step, i: IntentId)
    requires Preserved(s.db, Apply(s, step).db, i)
    ensures step.Recover? && step.act.PreservingStale? && step.act.i == i && i in s.found
    ensures OwnsLease(s.db.leases, step.act.call)
  {
    match step {
      case Environment(change) => EnvironmentPreservesNone(s.db, change, i);
      case Promoting(call, command, j, report) => PromotionPreservesNone(s.db, call, command, j, report, i);
      case Work(w, action) => WorkPreservesNone(s, w, action, i);
      case Recover(act) => RecoverPreserves(s, act, i);
    }
  }

  lemma RecoverPreserves(s: World, act: Act, i: IntentId)
    requires Preserved(s.db, RecoverStep(s, act).db, i)
    ensures act.PreservingStale? && act.i == i && i in s.found && OwnsLease(s.db.leases, act.call)
  {
    match act {
      case PreservingStale(call, j) => FenceIsLease(s.db.leases, call);
      case CancellingStale(call, j) => CancelStaleTouches(s.db, call, j);
      case _ =>
    }
  }

  /** Over every run: a ready intent becomes ambiguous only once selected and known to the broker. */
  lemma PreservedForReason(s: World, steps: seq<Step>, step: Step, i: IntentId) returns (n: nat, m: nat)
    requires Initial(s)
    requires Preserved(Run(s, steps).db, Apply(Run(s, steps), step).db, i)
    ensures AnsweredAt(s, steps, n, m, i, true)
  {
    StepPreserves(Run(s, steps), step, i);
    n, m := AnsweredBefore(s, steps, i, true);
  }
}
