/**
 The trade lifecycle graph, the state a broker status stands for, and the reconciliation of a
 persisted state with an observed broker status.
 */
module TradeLifecycle {
  import opened Options
  import opened GraphSearch

  datatype State =
    | CandidateCreated | ReviewCreated | Confirmed | ReadyForSubmission | SubmissionAttemptPersisted
    | SubmissionAmbiguous | BrokerOrderDiscovered | BrokerOrderAccepted | PartiallyFilled | Filled
    | PositionReconciled | ExitEvaluated | ExitReviewCreated | ExitConfirmed | ExitReadyForSubmission
    | ExitSubmissionAttemptPersisted | ExitSubmissionAmbiguous | ExitBrokerOrderDiscovered
    | ExitPartiallyFilled | Closed | CancelRequested | CancelAmbiguous | Cancelled | Rejected | Expired
    | FailedTerminal

  datatype ReviewType = Entry | Exit

  /** Broker order statuses, after trimming and lower-casing; both spellings of a cancellation are one. */
  datatype BrokerStatus =
    | StatusNew | StatusAccepted | StatusPendingNew | StatusHeld | StatusReplaced | StatusPartiallyFilled
    | StatusFilled | StatusCanceled | StatusRejected | StatusExpired | StatusOther(text: nat)

  function Successors(s: State): seq<State> {
    match s
    case CandidateCreated => [ReviewCreated, FailedTerminal]
    case ReviewCreated => [Confirmed, FailedTerminal]
    case Confirmed => [ReadyForSubmission, FailedTerminal]
    case ReadyForSubmission => [SubmissionAttemptPersisted, CancelRequested]
    case SubmissionAttemptPersisted => [SubmissionAmbiguous, BrokerOrderDiscovered, Cancelled, Rejected, Expired]
    case SubmissionAmbiguous => [BrokerOrderDiscovered, FailedTerminal]
    case BrokerOrderDiscovered => [BrokerOrderAccepted, Cancelled, Rejected, Expired, CancelRequested]
    case BrokerOrderAccepted => [PartiallyFilled, Filled, Cancelled, Rejected, Expired, CancelRequested]
    case PartiallyFilled => [Filled, PositionReconciled, Cancelled, Rejected, Expired, CancelRequested]
    case Filled => [PositionReconciled, ExitEvaluated]
    case PositionReconciled => [ExitEvaluated]
    case ExitEvaluated => [ExitReviewCreated, Closed]
    case ExitReviewCreated => [ExitConfirmed]
    case ExitConfirmed => [ExitReadyForSubmission]
    case ExitReadyForSubmission => [ExitSubmissionAttemptPersisted, CancelRequested]
    case ExitSubmissionAttemptPersisted =>
      [ExitSubmissionAmbiguous, ExitBrokerOrderDiscovered, Cancelled, Rejected, Expired]
    case ExitSubmissionAmbiguous => [ExitBrokerOrderDiscovered, FailedTerminal]
    case ExitBrokerOrderDiscovered => [ExitPartiallyFilled, Closed, Cancelled, Rejected, Expired, CancelRequested]
    case ExitPartiallyFilled => [Closed, Cancelled, Rejected, Expired, CancelRequested]
    case Closed => []
    case CancelRequested =>
      [CancelAmbiguous, Filled, ExitBrokerOrderDiscovered, Rejected, Expired, Cancelled, FailedTerminal]
    case CancelAmbiguous => [Filled, ExitBrokerOrderDiscovered, Rejected, Expired, Cancelled, FailedTerminal]
    case Cancelled => []
    case Rejected => []
    case Expired => []
    case FailedTerminal => []
  }

  /** The edges of the graph, without the order in which the search tries them. */
  predicate Follows(u: State, v: State) {
    match u
    case CandidateCreated => v.ReviewCreated? || v.FailedTerminal?
    case ReviewCreated => v.Confirmed? || v.FailedTerminal?
    case Confirmed => v.ReadyForSubmission? || v.FailedTerminal?
    case ReadyForSubmission => v.SubmissionAttemptPersisted? || v.CancelRequested?
    case SubmissionAttemptPersisted => v.SubmissionAmbiguous? || v.BrokerOrderDiscovered? || v.Cancelled?
                                       || v.Rejected? || v.Expired?
    case SubmissionAmbiguous => v.BrokerOrderDiscovered? || v.FailedTerminal?
    case BrokerOrderDiscovered => v.BrokerOrderAccepted? || v.Cancelled? || v.Rejected? || v.Expired?
                                  || v.CancelRequested?
    case BrokerOrderAccepted => v.PartiallyFilled? || v.Filled? || v.Cancelled? || v.Rejected? || v.Expired?
                                || v.CancelRequested?
    case PartiallyFilled => v.Filled? || v.PositionReconciled? || v.Cancelled? || v.Rejected? || v.Expired?
                            || v.CancelRequested?
    case Filled => v.PositionReconciled? || v.ExitEvaluated?
    case PositionReconciled => v.ExitEvaluated?
    case ExitEvaluated => v.ExitReviewCreated? || v.Closed?
    case ExitReviewCreated => v.ExitConfirmed?
    case ExitConfirmed => v.ExitReadyForSubmission?
    case ExitReadyForSubmission => v.ExitSubmissionAttemptPersisted? || v.CancelRequested?
    case ExitSubmissionAttemptPersisted => v.ExitSubmissionAmbiguous? || v.ExitBrokerOrderDiscovered? || v.Cancelled?
                                           || v.Rejected? || v.Expired?
    case ExitSubmissionAmbiguous => v.ExitBrokerOrderDiscovered? || v.FailedTerminal?
    case ExitBrokerOrderDiscovered => v.ExitPartiallyFilled? || v.Closed? || v.Cancelled? || v.Rejected?
                                      || v.Expired? || v.CancelRequested?
    case ExitPartiallyFilled => v.Closed? || v.Cancelled? || v.Rejected? || v.Expired? || v.CancelRequested?
    case Closed => false
    case CancelRequested => v.CancelAmbiguous? || v.Filled? || v.ExitBrokerOrderDiscovered? || v.Rejected?
                            || v.Expired? || v.Cancelled? || v.FailedTerminal?
    case CancelAmbiguous => v.Filled? || v.ExitBrokerOrderDiscovered? || v.Rejected? || v.Expired? || v.Cancelled?
                            || v.FailedTerminal?
    case Cancelled => false
    case Rejected => false
    case Expired => false
    case FailedTerminal => false
  }

  const TRANSITIONS: Graph<State> := map s: State | true :: Successors(s)

  ghost predicate IsLifecycle(g: Graph<State>) {
    Total(g) && (forall u :: u in g) && forall u, v :: Edge(g, u, v) <==> Follows(u, v)
  }

  predicate EntrySide(s: State) {
    || s.CandidateCreated? || s.ReviewCreated? || s.Confirmed? || s.ReadyForSubmission?
    || s.SubmissionAttemptPersisted? || s.SubmissionAmbiguous? || s.BrokerOrderDiscovered?
    || s.BrokerOrderAccepted? || s.PartiallyFilled?
  }

  lemma EntrySuccessors(u: State, v: State)
    requires EntrySide(u)
    ensures v in Successors(u) <==> Follows(u, v)
  {
  }

  predicate ExitUnsent(s: State) {
    || s.ExitReviewCreated? || s.ExitConfirmed? || s.ExitReadyForSubmission? || s.ExitSubmissionAttemptPersisted?
    || s.ExitSubmissionAmbiguous?
  }

  lemma ExitUnsentSuccessors(u: State, v: State)
    requires ExitUnsent(u)
    ensures v in Successors(u) <==> Follows(u, v)
  {
  }

  lemma LaterSuccessors(u: State, v: State)
    requires !EntrySide(u) && !(u.CancelRequested? || u.CancelAmbiguous?) && !ExitUnsent(u)
    ensures v in Successors(u) <==> Follows(u, v)
  {
  }

  lemma CancelSuccessors(u: State, v: State)
    requires u.CancelRequested? || u.CancelAmbiguous?
    ensures v in Successors(u) <==> Follows(u, v)
  {
  }

  lemma TransitionsAreLifecycle()
    ensures IsLifecycle(TRANSITIONS)
  {
    forall u, v
      ensures Edge(TRANSITIONS, u, v) <==> Follows(u, v)
    {
      if EntrySide(u) {
        EntrySuccessors(u, v);
      } else if u.CancelRequested? || u.CancelAmbiguous? {
        CancelSuccessors(u, v);
      } else if ExitUnsent(u) {
        ExitUnsentSuccessors(u, v);
      } else {
        LaterSuccessors(u, v);
      }
    }
  }

  predicate IsTerminal(s: State) {
    s.Closed? || s.Cancelled? || s.Rejected? || s.Expired? || s.FailedTerminal?
  }

  /** States that say no broker order is known yet, for the entry or for the exit order. */
  predicate PreDiscovery(s: State) {
    || s.CandidateCreated? || s.ReviewCreated? || s.Confirmed? || s.ReadyForSubmission?
    || s.SubmissionAttemptPersisted? || s.SubmissionAmbiguous? || s.ExitReviewCreated? || s.ExitConfirmed?
    || s.ExitReadyForSubmission? || s.ExitSubmissionAttemptPersisted? || s.ExitSubmissionAmbiguous?
  }

  function StateForBrokerStatus(reviewType: ReviewType, status: BrokerStatus): State {
    match status
    case StatusCanceled => Cancelled
    case StatusRejected => Rejected
    case StatusExpired => Expired
    case _ =>
      if reviewType.Exit? then
        if status.StatusPartiallyFilled? then ExitPartiallyFilled else ExitBrokerOrderDiscovered
      else if status.StatusPartiallyFilled? then PartiallyFilled
      else if status.StatusFilled? then Filled
      else if status.StatusAccepted? || status.StatusNew? || status.StatusPendingNew? || status.StatusHeld?
      then BrokerOrderAccepted
      else BrokerOrderDiscovered
  }

  /** The two cases in which an observation leaves the state as it is, before any path is sought. */
  predicate Stutters(from: State, reviewType: ReviewType, status: BrokerStatus) {
    || (reviewType.Exit? && status.StatusFilled? && from.ExitPartiallyFilled?)
    || ((from.CancelRequested? || from.CancelAmbiguous?) &&
        !(status.StatusFilled? || status.StatusCanceled? || status.StatusRejected? || status.StatusExpired?))
  }

  /** What reconciliation may answer: the unchanged state, or a shortest path to the observed state. */
  ghost predicate Reconciles(g: Graph<State>, from: State, reviewType: ReviewType, status: BrokerStatus,
                             path: seq<State>) {
    if Stutters(from, reviewType, status) then path == [from]
    else Shortest(g, path, from, StateForBrokerStatus(reviewType, status))
  }

  method ReconcileBrokerStatus(g: Graph<State>, from: State, reviewType: ReviewType, status: BrokerStatus)
    returns (r: Option<seq<State>>)
    requires IsLifecycle(g)
    ensures r.Some? ==> Reconciles(g, from, reviewType, status, r.value) && Simple(r.value)
    ensures r.None? <==> forall path :: !Reconciles(g, from, reviewType, status, path)
  {
    if Stutters(from, reviewType, status) {
      assert Reconciles(g, from, reviewType, status, [from]);
      return Some([from]);
    }
    r := ResolvePath(g, from, StateForBrokerStatus(reviewType, status));
    assert r.Some? ==> Reconciles(g, from, reviewType, status, r.value);
  }

  /** A one-state walk is the only shortest path from a state to itself. */
  lemma ShortestLoop(g: Graph<State>, path: seq<State>, s: State)
    requires Shortest(g, path, s, s)
    ensures path == [s]
  {
    assert Joins(g, [s], s, s);
  }

  lemma InteriorIsNotTerminal(g: Graph<State>, path: seq<State>, k: nat)
    requires IsLifecycle(g) && Walk(g, path) && k < |path| - 1
    ensures !IsTerminal(path[k])
  {
    assert Edge(g, path[k], path[k + 1]);
  }

  /** Applying the same observation to its own outcome answers with that outcome alone. */
  lemma ReconcileIsIdempotent(g: Graph<State>, from: State, reviewType: ReviewType, status: BrokerStatus,
                              path: seq<State>, again: seq<State>)
    requires Reconciles(g, from, reviewType, status, path)
    ensures Reconciles(g, path[|path| - 1], reviewType, status, again) <==> again == [path[|path| - 1]]
  {
    var to := path[|path| - 1];
    if !Stutters(to, reviewType, status) {
      assert to == StateForBrokerStatus(reviewType, status);
      assert Joins(g, [to], to, to);
      if Shortest(g, again, to, to) {
        ShortestLoop(g, again, to);
      }
    }
  }

  /** The state an observation leaves behind is never one that precedes broker discovery. */
  lemma OutcomeIsPostDiscovery(g: Graph<State>, from: State, reviewType: ReviewType, status: BrokerStatus,
                               path: seq<State>)
    requires Reconciles(g, from, reviewType, status, path)
    ensures !PreDiscovery(path[|path| - 1])
  {
  }

  // ------------------------------------------------------------------ hops through earlier states

  /** The hops pass through a state that precedes broker discovery. */
  predicate Revisits(p: seq<State>) {
    exists k :: 0 <= k < |p| && PreDiscovery(p[k])
  }

  /** A filled entry before its exit is reviewed: the only post-discovery states followed by earlier ones. */
  predicate AwaitingExit(s: State) {
    s.Filled? || s.PositionReconciled? || s.ExitEvaluated?
  }

  /** Entry progress; no edge of the graph lowers it. */
  function Progress(s: State): nat {
    match s
    case CandidateCreated => 0
    case ReviewCreated => 1
    case Confirmed => 2
    case ReadyForSubmission => 3
    case SubmissionAttemptPersisted => 4
    case SubmissionAmbiguous => 5
    case BrokerOrderDiscovered => 6
    case BrokerOrderAccepted => 7
    case PartiallyFilled => 8
    case _ => 9
  }

  lemma EdgeKeepsProgress(u: State, v: State)
    requires Follows(u, v)
    ensures Progress(u) <= Progress(v)
  {
  }

  lemma {:induction false} WalkKeepsProgress(g: Graph<State>, path: seq<State>)
    requires IsLifecycle(g) && Walk(g, path)
    ensures Progress(path[0]) <= Progress(path[|path| - 1])
  {
    if |path| > 1 {
      var init := path[..|path| - 1];
      assert forall k :: 0 <= k < |init| - 1 ==> Edge(g, path[k], path[k + 1]);
      WalkKeepsProgress(g, init);
      assert Edge(g, path[|path| - 2], path[|path| - 1]);
      EdgeKeepsProgress(path[|path| - 2], path[|path| - 1]);
    }
  }

  /** From a state awaiting its exit, every proper walk that stays out of earlier states stays short of the broker. */
  lemma {:induction false} AwaitingExitStays(g: Graph<State>, path: seq<State>, k: nat)
    requires IsLifecycle(g) && Walk(g, path) && AwaitingExit(path[0]) && 0 < k < |path|
    requires forall j :: 0 <= j < |path| ==> !PreDiscovery(path[j])
    ensures path[k].PositionReconciled? || path[k].ExitEvaluated? || path[k].Closed?
  {
    assert Edge(g, path[k - 1], path[k - 1 + 1]);
    if k > 1 {
      AwaitingExitStays(g, path, k - 1);
    }
  }

  /** A live order state: the broker knows the order and neither side is finished with it. */
  predicate Live(s: State) {
    || s.BrokerOrderDiscovered? || s.BrokerOrderAccepted? || s.PartiallyFilled?
    || s.ExitBrokerOrderDiscovered? || s.ExitPartiallyFilled? || s.CancelRequested? || s.CancelAmbiguous?
  }

  /** A short walk from a live state to any state an observation can name and the graph can reach. */
  function Shortcut(from: State, to: State): seq<State> {
    if Follows(from, to) then [from, to]
    else if to.Filled? || to.PartiallyFilled? then
      if from.BrokerOrderDiscovered? then [from, BrokerOrderAccepted, to] else [from, CancelRequested, to]
    else if to.ExitPartiallyFilled? && !ExitBrokerKnown(from) then
      [from, CancelRequested, ExitBrokerOrderDiscovered, to]
    else if to.ExitPartiallyFilled? then [from, ExitBrokerOrderDiscovered, to]
    else [from, CancelRequested, to]
  }

  predicate ExitBrokerKnown(s: State) {
    s.CancelRequested? || s.CancelAmbiguous?
  }

  lemma ShortcutJoins(g: Graph<State>, from: State, reviewType: ReviewType, status: BrokerStatus)
    requires IsLifecycle(g) && Live(from)
    requires var to := StateForBrokerStatus(reviewType, status); to != from && Progress(from) <= Progress(to)
    ensures var to := StateForBrokerStatus(reviewType, status);
            Joins(g, Shortcut(from, to), from, to) && |Shortcut(from, to)| <= 4
  {
    var to := StateForBrokerStatus(reviewType, status);
    var p := Shortcut(from, to);
    assert Follows(p[0], p[1]) && (|p| > 2 ==> Follows(p[1], p[2])) && (|p| > 3 ==> Follows(p[2], p[3]));
    forall k | 0 <= k < |p| - 1
      ensures Edge(g, p[k], p[k + 1])
    {
      assert k == 0 || k == 1 || k == 2;
    }
  }

  /** Two edges out of a live state do not reach an earlier state. */
  lemma LiveStaysLate(u: State, v: State, w: State)
    requires Live(u) && Follows(u, v)
    ensures !PreDiscovery(v) && (Follows(v, w) ==> !PreDiscovery(w))
  {
  }

  lemma LivePathStaysLate(g: Graph<State>, from: State, reviewType: ReviewType, status: BrokerStatus, path: seq<State>)
    requires IsLifecycle(g) && Live(from) && Reconciles(g, from, reviewType, status, path)
    ensures forall k :: 0 <= k < |path| ==> !PreDiscovery(path[k])
  {
    var to := StateForBrokerStatus(reviewType, status);
    if Stutters(from, reviewType, status) {
    } else if to == from {
      ShortestLoop(g, path, from);
    } else {
      WalkKeepsProgress(g, path);
      ShortcutJoins(g, from, reviewType, status);
      assert |path| <= 4;
      forall k | 0 <= k < |path|
        ensures !PreDiscovery(path[k])
      {
        if k == |path| - 1 {
          OutcomeIsPostDiscovery(g, from, reviewType, status, path);
        } else if k > 0 {
          assert Edge(g, path[0], path[1]);
          assert k == 2 ==> Edge(g, path[1], path[1 + 1]);
          LiveStaysLate(path[0], path[1], path[2]);
        }
      }
    }
  }

  /**
   From a post-discovery state the recorded hops go back through a pre-discovery state exactly when
   the state awaits its exit and the observation names another state.
   */
  lemma HopsReenterIff(g: Graph<State>, from: State, reviewType: ReviewType, status: BrokerStatus, path: seq<State>)
    requires IsLifecycle(g) && !PreDiscovery(from) && Reconciles(g, from, reviewType, status, path)
    ensures Revisits(path) <==> AwaitingExit(from) && StateForBrokerStatus(reviewType, status) != from
  {
    var to := StateForBrokerStatus(reviewType, status);
    if AwaitingExit(from) {
      if to == from {
        ShortestLoop(g, path, from);
      } else if !Revisits(path) {
        AwaitingExitStays(g, path, |path| - 1);
        assert false;
      }
    } else if Live(from) {
      LivePathStaysLate(g, from, reviewType, status, path);
    } else {
      assert IsTerminal(from);
      if |path| > 1 {
        InteriorIsNotTerminal(g, path, 0);
      }
    }
  }

  /** How many edges a walk to a cancellation still needs at least. */
  function EdgesToCancelled(s: State): nat {
    match s
    case Filled => 6
    case PositionReconciled => 6
    case Closed => 6
    case ExitEvaluated => 5
    case ExitReviewCreated => 4
    case ExitConfirmed => 3
    case ExitReadyForSubmission => 2
    case ExitSubmissionAttemptPersisted => 1
    case CancelRequested => 1
    case _ => 0
  }

  lemma EdgeSavesOne(u: State, v: State)
    requires Follows(u, v)
    ensures EdgesToCancelled(u) <= EdgesToCancelled(v) + 1
  {
  }

  lemma {:induction false} WalkIsLongEnough(g: Graph<State>, path: seq<State>)
    requires IsLifecycle(g) && Walk(g, path) && path[|path| - 1].Cancelled?
    ensures |path| > EdgesToCancelled(path[0])
  {
    if |path| > 1 {
      var rest := path[1..];
      assert Edge(g, path[0], path[0 + 1]);
      EdgeSavesOne(path[0], path[1]);
      forall k | 0 <= k < |rest| - 1
        ensures Edge(g, rest[k], rest[k + 1])
      {
        assert Edge(g, path[k + 1], path[k + 1 + 1]);
      }
      WalkIsLongEnough(g, rest);
    }
  }

  const FROM_FILL_TO_CANCEL: seq<State> :=
    [Filled, ExitEvaluated, ExitReviewCreated, ExitConfirmed, ExitReadyForSubmission, CancelRequested, Cancelled]

  lemma FromFillToCancelIsShortest(g: Graph<State>)
    requires IsLifecycle(g)
    ensures Shortest(g, FROM_FILL_TO_CANCEL, Filled, Cancelled)
  {
    var p := FROM_FILL_TO_CANCEL;
    assert Follows(p[0], p[1]) && Follows(p[1], p[2]) && Follows(p[2], p[3]);
    assert Follows(p[3], p[4]) && Follows(p[4], p[5]) && Follows(p[5], p[6]);
    forall k | 0 <= k < |p| - 1
      ensures Edge(g, p[k], p[k + 1])
    {
      assert k == 0 || k == 1 || k == 2 || k == 3 || k == 4 || k == 5;
    }
    forall q | Joins(g, q, Filled, Cancelled)
      ensures |p| <= |q|
    {
      WalkIsLongEnough(g, q);
    }
  }

  /** A cancellation observed for a filled entry is answered by a path back through the exit's review. */
  lemma CanceledAfterFillReenters(g: Graph<State>)
    requires IsLifecycle(g)
    ensures Reconciles(g, Filled, Entry, StatusCanceled, FROM_FILL_TO_CANCEL) && Revisits(FROM_FILL_TO_CANCEL)
  {
    FromFillToCancelIsShortest(g);
    HopsReenterIff(g, Filled, Entry, StatusCanceled, FROM_FILL_TO_CANCEL);
  }

  // -------------------------------------------------------------------------- runs of observations

  datatype Observation = Observation(reviewType: ReviewType, status: BrokerStatus)

  type Path = p: seq<State> | |p| > 0 witness [Closed]

  function Last(p: Path): State {
    p[|p| - 1]
  }

  /** Observations reconciled one after the other, each from the state the one before left behind. */
  ghost predicate IsRun(g: Graph<State>, start: State, observations: seq<Observation>, paths: seq<Path>)
    decreases |paths|
  {
    && |paths| == |observations|
    && (paths != [] ==>
          && Reconciles(g, start, observations[0].reviewType, observations[0].status, paths[0])
          && IsRun(g, Last(paths[0]), observations[1..], paths[1..]))
  }

  /** The persisted states of a run. */
  function Persisted(start: State, paths: seq<Path>): Path
    decreases |paths|
  {
    [start] + if paths == [] then [] else Persisted(Last(paths[0]), paths[1..])
  }

  /** All hops of a run in order, the shared end points written once. */
  function Trail(start: State, paths: seq<Path>): Path
    decreases |paths|
  {
    if paths == [] then [start] else paths[0][..|paths[0]| - 1] + Trail(Last(paths[0]), paths[1..])
  }

  lemma WalksJoin(g: Graph<State>, a: Path, b: Path)
    requires Walk(g, a) && Walk(g, b) && Last(a) == b[0]
    ensures Walk(g, a[..|a| - 1] + b)
  {
    var c := a[..|a| - 1] + b;
    forall k | 0 <= k < |c| - 1
      ensures Edge(g, c[k], c[k + 1])
    {
      if k < |a| - 1 {
        assert Edge(g, a[k], a[k + 1]);
      } else {
        var j := k - (|a| - 1);
        assert Edge(g, b[j], b[j + 1]);
      }
    }
  }

  lemma LastJoined(a: seq<State>, b: Path)
    ensures Last(a + b) == Last(b)
  {
  }

  lemma {:induction false} TrailIsWalk(g: Graph<State>, start: State, observations: seq<Observation>, paths: seq<Path>)
    requires IsRun(g, start, observations, paths)
    ensures Walk(g, Trail(start, paths)) && Trail(start, paths)[0] == start
    ensures Last(Trail(start, paths)) == Last(Persisted(start, paths))
    decreases |paths|
  {
    if paths != [] {
      var rest := Trail(Last(paths[0]), paths[1..]);
      TrailIsWalk(g, Last(paths[0]), observations[1..], paths[1..]);
      WalksJoin(g, paths[0], rest);
      LastJoined(paths[0][..|paths[0]| - 1], rest);
      LastJoined([start], Persisted(Last(paths[0]), paths[1..]));
    }
  }

  /** Every run of reconciliations is one walk in the lifecycle graph, and only its last state can be terminal. */
  lemma RunIsWalk(g: Graph<State>, start: State, observations: seq<Observation>, paths: seq<Path>)
    requires IsLifecycle(g) && IsRun(g, start, observations, paths)
    ensures Joins(g, Trail(start, paths), start, Last(Persisted(start, paths)))
    ensures forall k :: 0 <= k < |Trail(start, paths)| - 1 ==> !IsTerminal(Trail(start, paths)[k])
  {
    TrailIsWalk(g, start, observations, paths);
    forall k | 0 <= k < |Trail(start, paths)| - 1
      ensures !IsTerminal(Trail(start, paths)[k])
    {
      InteriorIsNotTerminal(g, Trail(start, paths), k);
    }
  }

  /** Some observation of the run names another state while the entry awaits its exit. */
  predicate GoesBack(start: State, observations: seq<Observation>, paths: seq<Path>)
    requires |paths| == |observations|
    decreases |paths|
  {
    && paths != []
    && (|| (AwaitingExit(start) && StateForBrokerStatus(observations[0].reviewType, observations[0].status) != start)
        || GoesBack(Last(paths[0]), observations[1..], paths[1..]))
  }

  lemma RevisitsJoined(a: Path, b: Path)
    requires Last(a) == b[0]
    ensures Revisits(a[..|a| - 1] + b) <==> Revisits(a) || Revisits(b)
  {
    var c := a[..|a| - 1] + b;
    if k :| 0 <= k < |a| && PreDiscovery(a[k]) {
      assert c[k] == a[k];
    }
    if k :| 0 <= k < |b| && PreDiscovery(b[k]) {
      assert c[|a| - 1 + k] == b[k];
    }
    if k :| 0 <= k < |c| && PreDiscovery(c[k]) {
      assert c[k] == if k < |a| - 1 then a[k] else b[k - (|a| - 1)];
    }
  }

  /** The persisted states of a run started after broker discovery all stay post-discovery. */
  lemma {:induction false} PersistedStaysLate(g: Graph<State>, start: State, observations: seq<Observation>,
                                              paths: seq<Path>)
    requires IsRun(g, start, observations, paths) && !PreDiscovery(start)
    ensures !Revisits(Persisted(start, paths))
    decreases |paths|
  {
    if paths != [] {
      OutcomeIsPostDiscovery(g, start, observations[0].reviewType, observations[0].status, paths[0]);
      PersistedStaysLate(g, Last(paths[0]), observations[1..], paths[1..]);
      var rest := Persisted(Last(paths[0]), paths[1..]);
      forall k | 0 <= k < |rest| + 1
        ensures !PreDiscovery(([start] + rest)[k])
      {
        assert k > 0 ==> ([start] + rest)[k] == rest[k - 1];
      }
    }
  }

  /**
   For a run started after broker discovery the recorded hops return to a pre-discovery state exactly
   when some observation names another state while the entry awaits its exit.
   */
  lemma {:induction false} RunReentersIff(g: Graph<State>, start: State, observations: seq<Observation>,
                                          paths: seq<Path>)
    requires IsLifecycle(g) && IsRun(g, start, observations, paths) && !PreDiscovery(start)
    ensures Revisits(Trail(start, paths)) <==> GoesBack(start, observations, paths)
    decreases |paths|
  {
    if paths != [] {
      var o, next, first := observations[0], Last(paths[0]), paths[0];
      HopsReenterIff(g, start, o.reviewType, o.status, first);
      OutcomeIsPostDiscovery(g, start, o.reviewType, o.status, first);
      RunReentersIff(g, next, observations[1..], paths[1..]);
      TrailIsWalk(g, next, observations[1..], paths[1..]);
      RevisitsJoined(first, Trail(next, paths[1..]));
    }
  }
}
