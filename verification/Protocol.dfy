/**
 Workers running the execution command over shared tables. A worker's program counter says how far it
 has taken an intent; every transaction is one step, and its caller may see it confirmed, see it rolled
 back, or see an error although it committed. Workers crash, fences change hands, and the recovery
 statements run at any moment between two steps.
 */
module Protocol {
  import opened Options
  import opened TradeLifecycle
  import opened Tables
  import opened Ledger
  import opened Recovery

  /** What the submission call returns: a response, a deterministic rejection, or an error that tells nothing. */
  datatype Answer = Responded(ack: Acknowledgement) | Refused | Lost

  datatype Report = Reported | Misreported | RolledBack

  datatype Pc =
    | Idle
    | Claimed(intent: IntentId)
    | Releasing(intent: IntentId)
    | Attempted(intent: IntentId)
    | Answered(intent: IntentId, answer: Answer)
    | Uncertain(intent: IntentId, classification: EventStatus)
    | Recovering(intent: IntentId)

  type Pcs = map<WorkerId, Pc>

  /**
   The tables, the workers, how often `submitOrder` was called for each intent, what the running
   recoveries selected and were told by the broker, and the intents recovery has dropped.
   */
  datatype World = World(
    db: Db, pcs: Pcs, calls: map<IntentId, nat>,
    stale: set<IntentId>, found: set<IntentId>, absent: set<IntentId>, dropped: set<IntentId>)

  /** Writes of services outside the protocol: new intents and allocations, and the rows the checks read. */
  datatype Change =
    | Creating(i: IntentId, intent: Intent)
    | Allotting(key: AllocationKey, allocation: Allocation)
    | SettingReview(review: ReviewId, reviewRow: Review)
    | SettingCandidate(candidate: CandidateId, candidateRow: Candidate)
    | SettingBook(account: AccountId, book: Book)
    | SettingLease(job: nat, lease: Lease)
    | SettingOrder(orderKey: OrderKey, order: Order)

  /** What a worker does next. */
  datatype Action =
    | Claiming(call: Call, command: Command, i: IntentId, report: Report)
    | GateFailing
    | Attempting(call: Call, report: Report)
    | ReleasingClaim(call: Call, report: Report)
    | Sending(answer: Answer)
    | RecordingAnswer(call: Call, report: Report)
    | RecordingDoubt(call: Call, report: Report)
    | Reconciling(call: Call, recovered: Option<BrokerOrderId>, report: Report)
    | Crashing

  /** What a recovery does next; each of its statements commits on its own. */
  datatype Act =
    | SelectingStale(call: Call, i: IntentId)
    | LookingUp(i: IntentId, known: bool)
    | CancellingStale(call: Call, i: IntentId)
    | PreservingStale(call: Call, i: IntentId)
    | ExpiringReservations(call: Call)
    | ExpiringReviews(call: Call)
    | ExpiringConfirmations(call: Call)
    | CancellingCreated(call: Call)

  datatype Step =
    | Environment(change: Change)
    | Promoting(call: Call, command: Command, i: IntentId, report: Report)
    | Work(w: WorkerId, action: Action)
    | Recover(act: Act)

  function PcOf(pcs: Pcs, w: WorkerId): Pc {
    if w in pcs then pcs[w] else Idle
  }

  function CallsFor(s: World, i: IntentId): nat {
    if i in s.calls then s.calls[i] else 0
  }

  /** The tables once the transaction is over, however it is reported. */
  function Landed(db: Db, tx: Tx, report: Report): Db {
    if report.RolledBack? then db else After(db, tx)
  }

  /** The caller goes on only when it sees the commit. */
  predicate Seen(tx: Tx, report: Report) {
    tx.Commit? && report.Reported?
  }

  /** A new intent, as the review workflow writes it; (account, client order) is unique. */
  predicate Creatable(db: Db, i: IntentId, intent: Intent) {
    && i !in db.intents && intent.status.Created? && intent.reservation.None? && intent.confirmation.None?
    && forall j :: j in db.intents ==> OrderKeyOf(db.intents[j]) != OrderKeyOf(intent)
  }

  predicate Allottable(db: Db, k: AllocationKey, allocation: Allocation) {
    k !in db.allocations && allocation.reserved == 0.0 && Within(allocation.amount, allocation.deployed)
  }

  function Dropped(before: map<IntentId, Intent>, after: map<IntentId, Intent>): set<IntentId> {
    set i | i in before && i in after && !before[i].status.IntentCancelled? && after[i].status.IntentCancelled?
  }

  function Dropping(s: World, db: Db): World {
    s.(db := db, dropped := s.dropped + Dropped(s.db.intents, db.intents))
  }

  function At(s: World, db: Db, w: WorkerId, pc: Pc): World {
    s.(db := db, pcs := s.pcs[w := pc])
  }

  ghost function ClaimStep(s: World, w: WorkerId, call: Call, command: Command, i: IntentId, report: Report): World {
    if !PcOf(s.pcs, w).Idle? then s
    else
      var tx := Claim(s.db, call, command, i);
      At(s, Landed(s.db, tx, report), w, if Seen(tx, report) then Claimed(i) else Idle)
  }

  function AttemptStep(s: World, w: WorkerId, call: Call, report: Report): World {
    var pc := PcOf(s.pcs, w);
    if !(pc.Claimed? && pc.intent in s.db.intents) then s
    else
      var tx := RecordAttempt(s.db, call, pc.intent);
      At(s, Landed(s.db, tx, report), w, if Seen(tx, report) then Attempted(pc.intent) else Releasing(pc.intent))
  }

  function ReleaseStep(s: World, w: WorkerId, call: Call, report: Report): World {
    var pc := PcOf(s.pcs, w);
    if !pc.Releasing? then s else At(s, Landed(s.db, ReleaseClaim(s.db, call, pc.intent), report), w, Idle)
  }

  function SendStep(s: World, w: WorkerId, answer: Answer): World {
    var pc := PcOf(s.pcs, w);
    if !pc.Attempted? then s
    else At(s, s.db, w, Answered(pc.intent, answer)).(calls := s.calls[pc.intent := CallsFor(s, pc.intent) + 1])
  }

  /** What a failed acknowledgement is filed as. */
  function ClassificationOf(ack: Acknowledgement): EventStatus {
    if ack.brokerOrder.None? || ack.status.None? then TransportUnknown
    else if ack.status.value.StatusRejected? then SubmissionRejected
    else SubmissionAcknowledged
  }

  function RecordStep(s: World, w: WorkerId, call: Call, report: Report): World {
    var pc := PcOf(s.pcs, w);
    if !(pc.Answered? && pc.intent in s.db.intents) then s
    else
      match pc.answer
      case Responded(ack) =>
        var tx := RecordSubmission(s.db, call, pc.intent, ack);
        var next := if Seen(tx, report) then Idle else Uncertain(pc.intent, ClassificationOf(ack));
        At(s, Landed(s.db, tx, report), w, next)
      case Refused => At(s, Landed(s.db, RecordRejection(s.db, call, pc.intent), report), w, Idle)
      case Lost => At(s, s.db, w, Uncertain(pc.intent, TransportUnknown))
  }

  function DoubtStep(s: World, w: WorkerId, call: Call, report: Report): World {
    var pc := PcOf(s.pcs, w);
    if !(pc.Uncertain? && pc.intent in s.db.intents) then s
    else
      var tx := RecordAmbiguous(s.db, call, pc.intent, pc.classification);
      At(s, Landed(s.db, tx, report), w, if Seen(tx, report) then Recovering(pc.intent) else Idle)
  }

  function ReconcileStep(s: World, w: WorkerId, call: Call, recovered: Option<BrokerOrderId>, report: Report): World {
    var pc := PcOf(s.pcs, w);
    if !(pc.Recovering? && pc.intent in s.db.intents) then s
    else if recovered.None? then At(s, s.db, w, Idle)
    else At(s, Landed(s.db, RecordReconciled(s.db, call, pc.intent, recovered.value), report), w, Idle)
  }

  function EnvironmentStep(db: Db, change: Change): Db {
    match change
    case Creating(i, intent) => if Creatable(db, i, intent) then db.(intents := db.intents[i := intent]) else db
    case Allotting(k, allocation) =>
      if Allottable(db, k, allocation) then db.(allocations := db.allocations[k := allocation]) else db
    case SettingReview(v, row) => db.(reviews := db.reviews[v := row])
    case SettingCandidate(c, row) => db.(candidates := db.candidates[c := row])
    case SettingBook(a, book) => db.(books := db.books[a := book])
    case SettingLease(job, lease) => db.(leases := db.leases[job := lease])
    case SettingOrder(k, order) => db.(orders := db.orders[k := order])
  }

  function GateStep(s: World, w: WorkerId): World {
    var pc := PcOf(s.pcs, w);
    if pc.Claimed? then At(s, s.db, w, Releasing(pc.intent)) else s
  }

  ghost function WorkStep(s: World, w: WorkerId, action: Action): World {
    match action
    case Claiming(call, command, i, report) => ClaimStep(s, w, call, command, i, report)
    case GateFailing => GateStep(s, w)
    case Attempting(call, report) => AttemptStep(s, w, call, report)
    case ReleasingClaim(call, report) => ReleaseStep(s, w, call, report)
    case Sending(answer) => SendStep(s, w, answer)
    case RecordingAnswer(call, report) => RecordStep(s, w, call, report)
    case RecordingDoubt(call, report) => DoubtStep(s, w, call, report)
    case Reconciling(call, recovered, report) => ReconcileStep(s, w, call, recovered, report)
    case Crashing => At(s, s.db, w, Idle)
  }

  ghost function RecoverStep(s: World, act: Act): World {
    match act
    case SelectingStale(call, i) => if StaleReady(s.db, call, i) then s.(stale := s.stale + {i}) else s
    case LookingUp(i, known) =>
      if i !in s.stale then s else if known then s.(found := s.found + {i}) else s.(absent := s.absent + {i})
    case CancellingStale(call, i) => if i in s.absent then Dropping(s, CancelStale(s.db, call, i).db) else s
    case PreservingStale(call, i) => if i in s.found then s.(db := PreserveStale(s.db, call, i)) else s
    case ExpiringReservations(call) => s.(db := BulkExpire(s.db, call).db)
    case ExpiringReviews(call) => s.(db := ExpireReviews(s.db, call))
    case ExpiringConfirmations(call) => s.(db := ExpireConfirmations(s.db, call))
    case CancellingCreated(call) => Dropping(s, CancelStaleCreated(s.db, call))
  }

  ghost function Apply(s: World, step: Step): World {
    match step
    case Environment(change) => s.(db := EnvironmentStep(s.db, change))
    case Promoting(call, command, i, report) => s.(db := Landed(s.db, Promote(s.db, call, command, i), report))
    case Work(w, action) => WorkStep(s, w, action)
    case Recover(act) => RecoverStep(s, act)
  }

  /** The state after the steps, the first one first. */
  ghost function Run(s: World, steps: seq<Step>): World
    decreases |steps|
  {
    if steps == [] then s else Run(Apply(s, steps[0]), steps[1..])
  }

  lemma {:induction false} RunThen(s: World, steps: seq<Step>, step: Step)
    ensures Run(s, steps + [step]) == Apply(Run(s, steps), step)
    decreases |steps|
  {
    if steps == [] {
      assert steps + [step] == [step];
      assert [step][1..] == [];
    } else {
      assert (steps + [step])[0] == steps[0] && (steps + [step])[1..] == steps[1..] + [step];
      RunThen(Apply(s, steps[0]), steps[1..], step);
    }
  }

  /** Nothing allotted, nothing created, nobody working. */
  predicate Initial(s: World) {
    && s.db.intents == map[] && s.db.reservations == map[] && s.db.allocations == map[] && s.db.transitions == map[]
    && s.pcs == map[] && s.calls == map[] && s.stale == s.found == s.absent == s.dropped == {}
  }
}
