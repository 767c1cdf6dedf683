/**
 Which state each broker status leads to, as a relation of its own: by the state that is reached, and for
 the order of an entry from its acceptance to its fill.
 */
module StatusTable {
  import opened Options
  import opened GraphSearch
  import opened TradeLifecycle

  /** The broker reports the order as working, in one of the ways that say it was accepted. */
  predicate Working(status: BrokerStatus) {
    status.StatusNew? || status.StatusAccepted? || status.StatusPendingNew? || status.StatusHeld?
  }

  /** The observations that are answered with a state, state by state. */
  predicate AnsweredBy(reviewType: ReviewType, status: BrokerStatus, state: State) {
    match state
    case Cancelled => status == StatusCanceled
    case Rejected => status == StatusRejected
    case Expired => status == StatusExpired
    case Filled => reviewType == Entry && status == StatusFilled
    case PartiallyFilled => reviewType == Entry && status == StatusPartiallyFilled
    case BrokerOrderAccepted => reviewType == Entry && Working(status)
    case BrokerOrderDiscovered => reviewType == Entry && (status == StatusReplaced || status.StatusOther?)
    case ExitPartiallyFilled => reviewType == Exit && status == StatusPartiallyFilled
    case ExitBrokerOrderDiscovered =>
      reviewType == Exit
      && (status == StatusFilled || Working(status) || status == StatusReplaced || status.StatusOther?)
    case _ => false
  }

  /** Every observation is answered with exactly one state. */
  lemma AnsweredOnce(reviewType: ReviewType, status: BrokerStatus, state: State)
    ensures AnsweredBy(reviewType, status, state) <==> state == StateForBrokerStatus(reviewType, status)
  {
  }

  /** While a cancellation is under way only the end of the order counts. */
  predicate AwaitsEnd(from: State, status: BrokerStatus) {
    (from == CancelRequested || from == CancelAmbiguous)
    && (Working(status) || status == StatusReplaced || status == StatusPartiallyFilled || status.StatusOther?)
  }

  /**
   The last state of whatever reconciliation answers: the state itself, for the fill of an exit already partly
   filled and while a cancellation awaits its end, and else the state that answers the observation.
   */
  lemma ReconcileEndsIn(g: Graph<State>, from: State, reviewType: ReviewType, status: BrokerStatus, path: seq<State>)
    requires Reconciles(g, from, reviewType, status, path)
    ensures path != [] && path[0] == from
    ensures var end := path[|path| - 1];
            if AwaitsEnd(from, status) || (from == ExitPartiallyFilled && reviewType == Exit && status == StatusFilled)
            then path == [from]
            else AnsweredBy(reviewType, status, end)
  {
    AnsweredOnce(reviewType, status, path[|path| - 1]);
  }

  /** So, those cases aside, what may be answered is what may be answered for the one state that fits. */
  lemma AnswersIff(g: Graph<State>, from: State, reviewType: ReviewType, status: BrokerStatus, end: State,
                   path: seq<State>)
    requires AnsweredBy(reviewType, status, end) && !AwaitsEnd(from, status)
    requires !(from == ExitPartiallyFilled && reviewType == Exit && status == StatusFilled)
    ensures Reconciles(g, from, reviewType, status, path) <==> Shortest(g, path, from, end)
  {
    AnsweredOnce(reviewType, status, end);
  }

  // --------------------------------------------------------------------------------- an entry's order

  const FILLING: seq<Observation> :=
    [Observation(Entry, StatusAccepted), Observation(Entry, StatusPartiallyFilled), Observation(Entry, StatusFilled)]

  /**
   Over the observations accepted, partially filled and filled of an entry, every run of reconciliations
   persists acceptance, partial fill and fill in that order, each an edge further on.
   */
  lemma FillingGoesForward(g: Graph<State>, paths: seq<Path>)
    requires IsLifecycle(g) && IsRun(g, BrokerOrderDiscovered, FILLING, paths)
    ensures Persisted(BrokerOrderDiscovered, paths)
         == [BrokerOrderDiscovered, BrokerOrderAccepted, PartiallyFilled, Filled]
    ensures Trail(BrokerOrderDiscovered, paths) == Persisted(BrokerOrderDiscovered, paths)
    ensures Progress(BrokerOrderAccepted) < Progress(PartiallyFilled) < Progress(Filled)
  {
    var two, one := FILLING[1..], FILLING[1..][1..];
    OneEdge(g, BrokerOrderDiscovered, StatusAccepted, BrokerOrderAccepted, paths[0]);
    assert IsRun(g, BrokerOrderAccepted, two, paths[1..]);
    OneEdge(g, BrokerOrderAccepted, StatusPartiallyFilled, PartiallyFilled, paths[1..][0]);
    assert IsRun(g, PartiallyFilled, one, paths[1..][1..]);
    OneEdge(g, PartiallyFilled, StatusFilled, Filled, paths[1..][1..][0]);
    assert paths == [paths[0], paths[1], paths[2]];
    ThreeSteps(paths[0], paths[1], paths[2]);
  }

  lemma OneEdge(g: Graph<State>, from: State, status: BrokerStatus, end: State, path: Path)
    requires IsLifecycle(g) && AnsweredBy(Entry, status, end) && Follows(from, end) && from != end
    requires Reconciles(g, from, Entry, status, path) && !AwaitsEnd(from, status)
    ensures path == [from, end]
  {
    AnsweredOnce(Entry, status, end);
    assert Edge(g, from, end);
    assert Joins(g, [from, end], from, end);
    assert path[0] == from && path[|path| - 1] == end && |path| <= 2;
  }

  lemma ThreeSteps(a: Path, b: Path, c: Path)
    requires a == [BrokerOrderDiscovered, BrokerOrderAccepted] && b == [BrokerOrderAccepted, PartiallyFilled]
    requires c == [PartiallyFilled, Filled]
    ensures Persisted(BrokerOrderDiscovered, [a, b, c])
         == [BrokerOrderDiscovered, BrokerOrderAccepted, PartiallyFilled, Filled]
    ensures Trail(BrokerOrderDiscovered, [a, b, c])
         == [BrokerOrderDiscovered, BrokerOrderAccepted, PartiallyFilled, Filled]
  {
    var all, two, one: seq<Path> := [a, b, c], [b, c], [c];
    assert all[1..] == two && two[1..] == one && one[1..] == [];
    assert Persisted(Filled, []) == [Filled] && Trail(Filled, []) == [Filled];
    assert Persisted(PartiallyFilled, one) == [PartiallyFilled, Filled];
    assert Trail(PartiallyFilled, one) == [PartiallyFilled, Filled];
    assert Persisted(BrokerOrderAccepted, two) == [BrokerOrderAccepted] + [PartiallyFilled, Filled];
    assert Trail(BrokerOrderAccepted, two) == [BrokerOrderAccepted] + [PartiallyFilled, Filled];
  }
}
