/** A caller whose lease is not its own, not held, or past its time changes no row, in whatever step it takes. */
module Fencing {
  import opened Options
  import opened Tables
  import opened Ledger
  import opened Recovery
  import opened BulkExpiry
  import opened Protocol
  import opened Authorisation
  import opened ExecutionEffects

  /** The call a step is made with: none for other services, crashes, the gate, and the order's call itself. */
  function CallOf(step: Step): Option<Call> {
    match step
    case Environment(_) => None
    case Promoting(call, _, _, _) => Some(call)
    case Work(_, action) => ActionCall(action)
    case Recover(act) => ActCall(act)
  }

  function ActionCall(action: Action): Option<Call> {
    match action
    case Claiming(call, _, _, _) => Some(call)
    case GateFailing => None
    case Attempting(call, _) => Some(call)
    case ReleasingClaim(call, _) => Some(call)
    case Sending(_) => None
    case RecordingAnswer(call, _) => Some(call)
    case RecordingDoubt(call, _) => Some(call)
    case Reconciling(call, _, _) => Some(call)
    case Crashing => None
  }

  function ActCall(act: Act): Option<Call> {
    match act
    case LookingUp(_, _) => None
    case SelectingStale(call, _) => Some(call)
    case CancellingStale(call, _) => Some(call)
    case PreservingStale(call, _) => Some(call)
    case ExpiringReservations(call) => Some(call)
    case ExpiringReviews(call) => Some(call)
    case ExpiringConfirmations(call) => Some(call)
    case CancellingCreated(call) => Some(call)
  }

  lemma WorkWithoutLease(s: World, w: WorkerId, action: Action)
    requires ActionCall(action).Some? && !OwnsLease(s.db.leases, ActionCall(action).value)
    ensures WorkStep(s, w, action).db == s.db
  {
    var pc, call := PcOf(s.pcs, w), ActionCall(action).value;
    match action {
      case Claiming(_, command, i, _) => ClaimIffAuthorised(s.db, call, command, i);
      case ReleasingClaim(_, _) => if pc.Releasing? { ReleaseIs(s.db, call, pc.intent); }
      case Attempting(_, _) =>
        if pc.Claimed? && pc.intent in s.db.intents {
          AttemptIs(s.db, call, pc.intent);
        }
      case RecordingAnswer(_, _) => RecordWithoutLease(s, w, call, action.report);
      case RecordingDoubt(_, _) =>
        if pc.Uncertain? && pc.intent in s.db.intents {
          AmbiguousIs(s.db, call, pc.intent, pc.classification);
        }
      case Reconciling(_, recovered, _) =>
        if pc.Recovering? && pc.intent in s.db.intents && recovered.Some? {
          ReceiptIs(s.db, call, pc.intent, recovered.value);
        }
    }
  }

  lemma RecordWithoutLease(s: World, w: WorkerId, call: Call, report: Report)
    requires !OwnsLease(s.db.leases, call)
    ensures RecordStep(s, w, call, report).db == s.db
  {
    var pc := PcOf(s.pcs, w);
    if pc.Answered? && pc.intent in s.db.intents {
      match pc.answer {
        case Responded(ack) => SubmissionIff(s.db, call, pc.intent, ack);
        case Refused => RejectionIs(s.db, call, pc.intent);
        case Lost =>
      }
    }
  }

  lemma CreatedWithoutLease(db: Db, call: Call)
    requires !FenceHeld(db.leases, call)
    ensures CancelStaleCreated(db, call) == db
  {
    assert CancelStaleCreated(db, call).intents == db.intents;
  }

  lemma ExpiryWithoutLease(db: Db, call: Call)
    requires !FenceHeld(db.leases, call)
    ensures BulkExpire(db, call).db == db
  {
    ExpiredTogetherNone(db);
  }

  lemma RecoverWithoutLease(s: World, act: Act)
    requires ActCall(act).Some? && !OwnsLease(s.db.leases, ActCall(act).value)
    ensures RecoverStep(s, act).db == s.db
  {
    var call := ActCall(act).value;
    FenceIsLease(s.db.leases, call);
    match act {
      case ExpiringReservations(_) => ExpiryWithoutLease(s.db, call);
      case CancellingCreated(_) => CreatedWithoutLease(s.db, call);
      case _ =>
    }
  }

  /** Whatever a worker, a promotion or a recovery does without the lease, the tables stay as they were. */
  lemma NoLeaseNoWrite(s: World, step: Step)
    requires CallOf(step).Some? && !OwnsLease(s.db.leases, CallOf(step).value)
    ensures Apply(s, step).db == s.db
  {
    match step {
      case Promoting(call, command, i, _) => PromoteIffRipe(s.db, call, command, i);
      case Work(w, action) => WorkWithoutLease(s, w, action);
      case Recover(act) => RecoverWithoutLease(s, act);
    }
  }
}
