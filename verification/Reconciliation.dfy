/**
 Reconciling a snapshot with the tables it was backfilled into: the comparison is silent exactly when ids,
 decision links, statuses, numerics and every candidate's event log agree, and a completed backfill into
 empty tables makes it silent.
 */
module Reconciliation {
  import opened Options
  import opened Sorting
  import opened Backfill
  import opened LifecycleImport

  datatype Run = Run(id: RunId, status: Status, active: bool)

  /** A decimal in lowest terms or not: the coefficient over a power of ten. */
  datatype Decimal = Decimal(coefficient: int, scale: nat)

  datatype Column = Column(precision: nat, scale: nat)

  datatype Valued = Valued(candidate: Candidate, numerics: seq<Option<Decimal>>)

  datatype Source = Source(issues: nat, runs: seq<Run>, candidates: seq<Valued>, events: seq<Emitted>, leases: seq<int>)

  /** The counts of tables the snapshot must leave empty. */
  datatype Counts = Counts(held: nat, idempotency: nat, idempotencyUnique: nat, workstream: nat,
                           workstreamUnique: nat, failures: nat)

  datatype Target = Target(runs: seq<Run>, candidates: seq<Valued>, events: seq<Emitted>, counts: Counts)

  datatype Discrepancy =
    | SourceIssue | RunCount | RunIds | RunStatuses | ActiveRuns
    | CandidateCount | CandidateIds | DecisionLinks | CandidateStatuses | CandidatesByRun | CandidateNumerics
    | EventCount | EventIds | LifecycleOrder(candidate: CandidateId)
    | HeldLeases | LocalLease | IdempotencyRows | IdempotencyDuplicates | WorkstreamRows | WorkstreamDuplicates
    | FailureRows

  // --------------------------------------------------------------------------------------- numerics

  function PowerOfTen(n: nat): (p: nat)
    ensures p > 0
  {
    if n == 0 then 1 else 10 * PowerOfTen(n - 1)
  }

  function Magnitude(x: int): nat {
    if x < 0 then -x else x
  }

  function Shifted(magnitude: nat, places: nat): nat {
    if places == 0 then magnitude else 10 * Shifted(magnitude, places - 1)
  }

  /** Without its last digits. */
  function Truncated(magnitude: nat, places: nat): nat {
    if places == 0 then magnitude else Truncated(magnitude, places - 1) / 10
  }

  /** The magnitude at another scale, a half rounded up: the first digit dropped decides. */
  function Rescaled(magnitude: nat, scale: nat, wanted: nat): nat {
    if scale > wanted then
      Truncated(magnitude, scale - wanted) + (if Truncated(magnitude, scale - wanted - 1) % 10 >= 5 then 1 else 0)
    else Shifted(magnitude, wanted - scale)
  }

  /** What a numeric column stores: rounded away from zero to its scale, or too large for it. */
  function Canonical(d: Decimal, column: Column): Option<Decimal> {
    var m := Rescaled(Magnitude(d.coefficient), d.scale, column.scale);
    if m >= PowerOfTen(column.precision) then None
    else
      var signed: int := if d.coefficient < 0 then 0 - m else m;
      Some(Decimal(signed, column.scale))
  }

  predicate SameValue(a: Decimal, b: Decimal) {
    (a.coefficient < 0 <==> b.coefficient < 0)
    && Shifted(Magnitude(a.coefficient), b.scale) == Shifted(Magnitude(b.coefficient), a.scale)
  }

  datatype NumericClass = Exact | Equivalent | Overflow | Mismatch

  function CanonicalOf(value: Option<Decimal>, column: Column): Result<Option<Decimal>, ()> {
    if value.None? then Ok(None)
    else if Canonical(value.value, column).None? then Err(())
    else Ok(Canonical(value.value, column))
  }

  predicate Overflows(values: seq<Option<Decimal>>, columns: seq<Column>) {
    exists n :: 0 <= n < |values| && n < |columns| && CanonicalOf(values[n], columns[n]).Err?
  }

  predicate AllEquivalent(source: seq<Option<Decimal>>, stored: seq<Option<Decimal>>, columns: seq<Column>) {
    && |source| == |stored| == |columns|
    && forall n :: 0 <= n < |columns| ==> CanonicalOf(source[n], columns[n]) == CanonicalOf(stored[n], columns[n])
  }

  predicate AllExact(source: seq<Option<Decimal>>, stored: seq<Option<Decimal>>) {
    && |source| == |stored|
    && forall n :: 0 <= n < |source| ==>
                     (source[n].None? <==> stored[n].None?)
                     && (source[n].Some? && stored[n].Some? ==> SameValue(source[n].value, stored[n].value))
  }

  function Class(source: seq<Option<Decimal>>, stored: Option<seq<Option<Decimal>>>,
                 columns: seq<Column>): NumericClass {
    if stored.None? then Mismatch
    else if Overflows(source, columns) || Overflows(stored.value, columns) then Overflow
    else if !AllEquivalent(source, stored.value, columns) then Mismatch
    else if AllExact(source, stored.value) then Exact
    else Equivalent
  }

  function StoredOf(target: seq<Valued>, id: CandidateId): Option<seq<Option<Decimal>>> {
    if target == [] then None
    else if target[|target| - 1].candidate.id == id then Some(target[|target| - 1].numerics)
    else StoredOf(target[..|target| - 1], id)
  }

  datatype Tally = Tally(rows: nat, exact: nat, equivalent: nat, overflow: nat, mismatch: nat)

  /** Counts every source candidate in exactly one class. */
  method ClassifyNumerics(source: seq<Valued>, target: seq<Valued>, columns: seq<Column>) returns (tally: Tally)
    ensures tally.rows == |source| == tally.exact + tally.equivalent + tally.overflow + tally.mismatch
    ensures tally.overflow == 0 && tally.mismatch == 0 <==>
            forall n :: 0 <= n < |source| ==>
                          var kind := Class(source[n].numerics, StoredOf(target, source[n].candidate.id), columns);
                          kind.Exact? || kind.Equivalent?
  {
    tally := Tally(0, 0, 0, 0, 0);
    for n := 0 to |source|
      invariant tally.rows == n == tally.exact + tally.equivalent + tally.overflow + tally.mismatch
      invariant tally.overflow == 0 && tally.mismatch == 0 <==>
                forall m :: 0 <= m < n ==>
                              var kind := Class(source[m].numerics, StoredOf(target, source[m].candidate.id), columns);
                              kind.Exact? || kind.Equivalent?
    {
      match Class(source[n].numerics, StoredOf(target, source[n].candidate.id), columns) {
        case Exact => tally := tally.(exact := tally.exact + 1);
        case Equivalent => tally := tally.(equivalent := tally.equivalent + 1);
        case Overflow => tally := tally.(overflow := tally.overflow + 1);
        case Mismatch => tally := tally.(mismatch := tally.mismatch + 1);
      }
      tally := tally.(rows := tally.rows + 1);
    }
  }

  // ------------------------------------------------------------------------------------- comparison

  function Map<A, B>(s: seq<A>, f: A -> B): seq<B> {
    seq(|s|, n requires 0 <= n < |s| => f(s[n]))
  }

  function Ids(candidates: seq<Valued>): seq<CandidateId> {
    Map(candidates, (v: Valued) => v.candidate.id)
  }

  function Links(candidates: seq<Valued>): seq<(CandidateId, Option<DecisionId>)> {
    Map(candidates, (v: Valued) => (v.candidate.id, v.candidate.decision))
  }

  function ActiveRunsOf(runs: seq<Run>): seq<Run> {
    if runs == [] then []
    else ActiveRunsOf(runs[..|runs| - 1]) + if runs[|runs| - 1].active then [runs[|runs| - 1]] else []
  }

  function RunIdsOf(runs: seq<Run>): seq<RunId> {
    Map(runs, (r: Run) => r.id)
  }

  function RunStatusesOf(runs: seq<Run>): seq<Status> {
    Map(runs, (r: Run) => r.status)
  }

  function StatusesOf(candidates: seq<Valued>): seq<Status> {
    Map(candidates, (v: Valued) => v.candidate.status)
  }

  function RunsOf(candidates: seq<Valued>): seq<RunId> {
    Map(candidates, (v: Valued) => v.candidate.run)
  }

  function EventIdsOf(events: seq<Emitted>): seq<EventId> {
    Map(events, (e: Emitted) => e.source.event)
  }

  /** How often each value occurs, as the status and run counts say. */
  function CountsOf(s: seq<nat>): map<nat, nat> {
    map x | x in s :: multiset(s)[x]
  }

  predicate UniqueBy<A, K(==)>(s: seq<A>, key: A -> K) {
    forall a, b :: 0 <= a < b < |s| ==> key(s[a]) != key(s[b])
  }

  predicate NumericsAgree(source: seq<Valued>, target: seq<Valued>, columns: seq<Column>) {
    forall n :: 0 <= n < |source| ==>
                  var kind := Class(source[n].numerics, StoredOf(target, source[n].candidate.id), columns);
                  kind.Exact? || kind.Equivalent?
  }

  predicate RunsAgree(source: seq<Run>, target: seq<Run>) {
    && multiset(RunIdsOf(source)) == multiset(RunIdsOf(target))
    && multiset(RunStatusesOf(source)) == multiset(RunStatusesOf(target))
    && multiset(RunIdsOf(ActiveRunsOf(source))) == multiset(RunIdsOf(ActiveRunsOf(target)))
  }

  predicate CandidatesAgree(source: seq<Valued>, target: seq<Valued>, columns: seq<Column>) {
    && multiset(Links(source)) == multiset(Links(target))
    && multiset(StatusesOf(source)) == multiset(StatusesOf(target))
    && multiset(RunsOf(source)) == multiset(RunsOf(target))
    && NumericsAgree(source, target, columns)
  }

  /**
   The columns of an event the comparison looks at: all but its prior status and its evidence. Its type,
   its idempotency key, its source id and its production time are functions of these.
   */
  datatype View = View(event: EventId, sequence: nat, status: Status, at: int, trace: Trace)

  function ViewOf(e: Emitted): View {
    View(e.source.event, e.sequence, e.status, e.source.at, e.trace)
  }

  function LogOf(events: seq<Emitted>, c: CandidateId): seq<View> {
    Map(Of(events, c), (e: Emitted) => ViewOf(e))
  }

  predicate EventsAgree(candidates: seq<Valued>, source: seq<Emitted>, target: seq<Emitted>) {
    && multiset(EventIdsOf(source)) == multiset(EventIdsOf(target))
    && forall n :: 0 <= n < |candidates| ==>
                     LogOf(source, candidates[n].candidate.id) == LogOf(target, candidates[n].candidate.id)
  }

  predicate RestAgrees(source: Source, counts: Counts, observedAt: int) {
    && source.issues == 0 && counts.held == 0 && counts.idempotency == counts.idempotencyUnique == 0
    && counts.workstream == counts.workstreamUnique == 0 && counts.failures == 0
    && forall n :: 0 <= n < |source.leases| ==> source.leases[n] <= observedAt
  }

  predicate Agrees(source: Source, target: Target, columns: seq<Column>, observedAt: int) {
    && RunsAgree(source.runs, target.runs)
    && CandidatesAgree(source.candidates, target.candidates, columns)
    && EventsAgree(source.candidates, source.events, target.events)
    && RestAgrees(source, target.counts, observedAt)
  }

  function Unless(ok: bool, discrepancy: Discrepancy): seq<Discrepancy> {
    if ok then [] else [discrepancy]
  }

  function SortIds(ids: seq<nat>): seq<nat> {
    Sort(ids, (a, b) => a <= b)
  }

  function SortLinks(links: seq<(CandidateId, Option<DecisionId>)>): seq<(CandidateId, Option<DecisionId>)> {
    Sort(links, (a: (CandidateId, Option<DecisionId>), b: (CandidateId, Option<DecisionId>)) => a.0 <= b.0)
  }

  method CompareRuns(source: seq<Run>, target: seq<Run>) returns (found: seq<Discrepancy>)
    ensures found == [] <==> RunsAgree(source, target)
  {
    SameIds(RunIdsOf(source), RunIdsOf(target));
    SameCounts(RunStatusesOf(source), RunStatusesOf(target));
    SameIds(RunIdsOf(ActiveRunsOf(source)), RunIdsOf(ActiveRunsOf(target)));
    found := Unless(|source| == |target|, RunCount)
    + Unless(SortIds(RunIdsOf(source)) == SortIds(RunIdsOf(target)), RunIds)
    + Unless(CountsOf(RunStatusesOf(source)) == CountsOf(RunStatusesOf(target)), RunStatuses)
    + Unless(SortIds(RunIdsOf(ActiveRunsOf(source))) == SortIds(RunIdsOf(ActiveRunsOf(target))), ActiveRuns);
    SameSize(RunIdsOf(source), RunIdsOf(target));
  }

  method CompareCandidates(source: seq<Valued>, target: seq<Valued>, columns: seq<Column>)
    returns (found: seq<Discrepancy>)
    requires UniqueBy(source, (v: Valued) => v.candidate.id)
    ensures found == [] <==> CandidatesAgree(source, target, columns)
  {
    SameIds(Ids(source), Ids(target));
    SameLinks(source, target);
    SameCounts(StatusesOf(source), StatusesOf(target));
    SameCounts(RunsOf(source), RunsOf(target));
    var tally := ClassifyNumerics(source, target, columns);
    found := Unless(|source| == |target|, CandidateCount)
    + Unless(SortIds(Ids(source)) == SortIds(Ids(target)), CandidateIds)
    + Unless(SortLinks(Links(source)) == SortLinks(Links(target)), DecisionLinks)
    + Unless(CountsOf(StatusesOf(source)) == CountsOf(StatusesOf(target)), CandidateStatuses)
    + Unless(CountsOf(RunsOf(source)) == CountsOf(RunsOf(target)), CandidatesByRun)
    + Unless(tally.overflow == 0 && tally.mismatch == 0, CandidateNumerics);
    SameSize(Links(source), Links(target));
    LinksGiveIds(source, target);
  }

  method CompareLogs(candidates: seq<Valued>, source: seq<Emitted>, target: seq<Emitted>)
    returns (found: seq<Discrepancy>)
    ensures found == [] <==>
            forall n :: 0 <= n < |candidates| ==>
                          LogOf(source, candidates[n].candidate.id) == LogOf(target, candidates[n].candidate.id)
  {
    found := [];
    for n := 0 to |candidates|
      invariant found == [] <==>
                forall m :: 0 <= m < n ==>
                              LogOf(source, candidates[m].candidate.id) == LogOf(target, candidates[m].candidate.id)
    {
      var c := candidates[n].candidate.id;
      found := found + Unless(LogOf(source, c) == LogOf(target, c), LifecycleOrder(c));
    }
  }

  method CompareEvents(candidates: seq<Valued>, source: seq<Emitted>, target: seq<Emitted>)
    returns (found: seq<Discrepancy>)
    ensures found == [] <==> EventsAgree(candidates, source, target)
  {
    SameIds(EventIdsOf(source), EventIdsOf(target));
    SameSize(EventIdsOf(source), EventIdsOf(target));
    var logs := CompareLogs(candidates, source, target);
    found := Unless(|source| == |target|, EventCount)
    + Unless(SortIds(EventIdsOf(source)) == SortIds(EventIdsOf(target)), EventIds) + logs;
  }

  method CompareRest(source: Source, counts: Counts, observedAt: int) returns (found: seq<Discrepancy>)
    ensures found == [] <==> RestAgrees(source, counts, observedAt)
  {
    found := seq(source.issues, _ => SourceIssue) + Unless(counts.held == 0, HeldLeases);
    for n := 0 to |source.leases|
      invariant found == [] <==> && source.issues == 0 && counts.held == 0
                                 && forall m :: 0 <= m < n ==> source.leases[m] <= observedAt
    {
      found := found + Unless(source.leases[n] <= observedAt, LocalLease);
    }
    found := found + Unless(counts.idempotency == 0, IdempotencyRows)
    + Unless(counts.idempotency == counts.idempotencyUnique, IdempotencyDuplicates)
    + Unless(counts.workstream == 0, WorkstreamRows)
    + Unless(counts.workstream == counts.workstreamUnique, WorkstreamDuplicates)
    + Unless(counts.failures == 0, FailureRows);
  }

  /** No discrepancy is found exactly when source and target agree. */
  method CompareControlPlane(source: Source, target: Target, columns: seq<Column>, observedAt: int)
    returns (found: seq<Discrepancy>)
    requires UniqueBy(source.candidates, (v: Valued) => v.candidate.id)
    ensures found == [] <==> Agrees(source, target, columns, observedAt)
  {
    var runs := CompareRuns(source.runs, target.runs);
    var candidates := CompareCandidates(source.candidates, target.candidates, columns);
    var events := CompareEvents(source.candidates, source.events, target.events);
    var rest := CompareRest(source, target.counts, observedAt);
    found := runs + candidates + events + rest;
  }

  // ----------------------------------------------------------------------------------------- lists

  lemma SameIds(a: seq<nat>, b: seq<nat>)
    ensures SortIds(a) == SortIds(b) <==> multiset(a) == multiset(b)
  {
    SortsAlike(a, b, (x: nat, y: nat) => x <= y);
  }

  lemma SameSize<A>(a: seq<A>, b: seq<A>)
    ensures multiset(a) == multiset(b) ==> |a| == |b|
  {
    assert |multiset(a)| == |a| && |multiset(b)| == |b|;
  }

  /** Equal counts are equal multisets. */
  lemma SameCounts(a: seq<nat>, b: seq<nat>)
    ensures CountsOf(a) == CountsOf(b) <==> multiset(a) == multiset(b)
  {
    assert forall x :: x in multiset(a) <==> x in a;
    assert forall x :: x in multiset(b) <==> x in b;
    if CountsOf(a) == CountsOf(b) {
      forall x
        ensures multiset(a)[x] == multiset(b)[x]
      {
        assert x in CountsOf(a) <==> x in a;
        assert x in CountsOf(b) <==> x in b;
      }
    }
  }

  lemma LinkOrderRanks()
    ensures Ranks((a: (CandidateId, Option<DecisionId>), b: (CandidateId, Option<DecisionId>)) => a.0 <= b.0)
  {
  }

  lemma SameLinks(source: seq<Valued>, target: seq<Valued>)
    requires UniqueBy(source, (v: Valued) => v.candidate.id)
    ensures SortLinks(Links(source)) == SortLinks(Links(target)) <==> multiset(Links(source)) == multiset(Links(target))
  {
    LinkOrderRanks();
    forall x, y | x in Links(source) && y in Links(source) && x.0 == y.0
      ensures x == y
    {
      var m :| 0 <= m < |source| && Links(source)[m] == x;
      var n :| 0 <= n < |source| && Links(source)[n] == y;
    }
    SortsAlike(Links(source), Links(target),
               (a: (CandidateId, Option<DecisionId>), b: (CandidateId, Option<DecisionId>)) => a.0 <= b.0);
  }

  lemma MapWithout<A, B>(t: seq<A>, n: nat, f: A -> B)
    requires n < |t|
    ensures multiset(Map(t, f)) == multiset(Map(t[..n] + t[n + 1..], f)) + multiset{f(t[n])}
  {
    assert Map(t, f) == Map(t[..n], f) + [f(t[n])] + Map(t[n + 1..], f);
    assert Map(t[..n] + t[n + 1..], f) == Map(t[..n], f) + Map(t[n + 1..], f);
  }

  lemma Without<A>(t: seq<A>, n: nat)
    requires n < |t|
    ensures multiset(t[..n] + t[n + 1..]) == multiset(t) - multiset{t[n]}
  {
    assert t == t[..n] + [t[n]] + t[n + 1..];
  }

  lemma MapFirst<A, B>(s: seq<A>, f: A -> B)
    requires s != []
    ensures multiset(Map(s, f)) == multiset(Map(s[1..], f)) + multiset{f(s[0])}
  {
    assert Map(s, f) == [f(s[0])] + Map(s[1..], f);
  }

  /** The other list without an element it shares with the first of this one. */
  lemma DropShared<A>(s: seq<A>, t: seq<A>) returns (n: nat)
    requires s != [] && multiset(s) == multiset(t)
    ensures n < |t| && t[n] == s[0] && multiset(s[1..]) == multiset(t[..n] + t[n + 1..])
  {
    assert s[0] in multiset(s);
    assert s[0] in multiset(t);
    n :| 0 <= n < |t| && t[n] == s[0];
    Without(t, n);
    WithoutFirst(s);
  }

  lemma {:induction false} MapKeeps<A, B>(s: seq<A>, t: seq<A>, f: A -> B)
    requires multiset(s) == multiset(t)
    ensures multiset(Map(s, f)) == multiset(Map(t, f))
    decreases |s|
  {
    SameSize(s, t);
    if s != [] {
      var n := DropShared(s, t);
      MapKeeps(s[1..], t[..n] + t[n + 1..], f);
      MapFirst(s, f);
      MapWithout(t, n, f);
    }
  }

  lemma LinksGiveIds(source: seq<Valued>, target: seq<Valued>)
    ensures multiset(Links(source)) == multiset(Links(target)) ==> multiset(Ids(source)) == multiset(Ids(target))
  {
    if multiset(Links(source)) == multiset(Links(target)) {
      var first := (link: (CandidateId, Option<DecisionId>)) => link.0;
      MapKeeps(Links(source), Links(target), first);
      assert Map(Links(source), first) == Ids(source) && Map(Links(target), first) == Ids(target);
    }
  }

  // ------------------------------------------------------------------------------ after a backfill

  /** The rows of a table in some order. */
  ghost predicate Lists<K, R>(rows: seq<R>, table: map<K, R>, id: R -> K) {
    && UniqueBy(rows, id)
    && (forall n :: 0 <= n < |rows| ==> id(rows[n]) in table && table[id(rows[n])] == rows[n])
    && (forall k :: k in table ==> exists n :: 0 <= n < |rows| && id(rows[n]) == k)
  }

  lemma {:induction false} UniqueOccurs<K, R>(s: seq<R>, id: R -> K, x: R)
    requires UniqueBy(s, id)
    ensures multiset(s)[x] == if x in s then 1 else 0
  {
    if s != [] {
      var front, last := s[..|s| - 1], s[|s| - 1];
      assert s == front + [last];
      UniqueOccurs(front, id, x);
      forall n | 0 <= n < |front|
        ensures front[n] != last
      {
        assert front[n] == s[n] && id(s[n]) != id(s[|s| - 1]);
      }
    }
  }

  /** Rows with unique ids, backfilled into an empty table, are the table's rows. */
  lemma BackfilledRows<K, R>(rows: seq<R>, table: map<K, R>, listed: seq<R>, id: R -> K)
    requires UniqueBy(rows, id) && IsMerged(table, map[], rows, id) && Lists(listed, table, id)
    ensures multiset(listed) == multiset(rows)
  {
    forall x
      ensures multiset(listed)[x] == multiset(rows)[x]
    {
      UniqueOccurs(listed, id, x);
      UniqueOccurs(rows, id, x);
      if x in rows {
        var n :| 0 <= n < |rows| && rows[n] == x;
        assert table[id(x)] == x;
        var m :| 0 <= m < |listed| && id(listed[m]) == id(x);
        assert listed[m] == x;
      }
      if x in listed {
        var m :| 0 <= m < |listed| && listed[m] == x;
        var n :| 0 <= n < |rows| && id(rows[n]) == id(x);
        assert rows[n] == x;
      }
    }
  }

  lemma {:induction false} OfKeeps(a: seq<Emitted>, c: CandidateId)
    ensures forall e :: multiset(Of(a, c))[e] == if e.candidate == c then multiset(a)[e] else 0
  {
    if a != [] {
      assert a == a[..|a| - 1] + [a[|a| - 1]];
      OfKeeps(a[..|a| - 1], c);
    }
  }

  predicate BySequence(a: Emitted, b: Emitted) {
    a.candidate < b.candidate || (a.candidate == b.candidate && a.sequence <= b.sequence)
  }

  lemma BySequenceRanks()
    ensures Ranks((a: Emitted, b: Emitted) => BySequence(a, b))
  {
  }

  lemma {:induction false} OfSorted(events: seq<Emitted>, c: CandidateId)
    requires Sorted(events, (a, b) => BySequence(a, b))
    ensures Sorted(Of(events, c), (a, b) => BySequence(a, b)) && forall e :: e in Of(events, c) ==> e in events
  {
    if events != [] {
      var front := events[..|events| - 1];
      assert Sorted(front, (a, b) => BySequence(a, b));
      OfSorted(front, c);
      var last, kept := events[|events| - 1], Of(front, c);
      assert events == front + [last];
      forall n | 0 <= n < |kept|
        ensures BySequence(kept[n], last)
      {
        assert kept[n] in kept;
        var m :| 0 <= m < |front| && front[m] == kept[n];
        assert events[m] == kept[n];
      }
      if last.candidate == c {
        SortedAppend(kept, last, (a, b) => BySequence(a, b));
      }
    }
  }

  lemma SortedAppend<A>(s: seq<A>, x: A, le: (A, A) -> bool)
    requires Sorted(s, le) && forall n :: 0 <= n < |s| ==> le(s[n], x)
    ensures Sorted(s + [x], le)
  {
  }

  /** A chain's events have different numbers. */
  lemma ChainSeparates(c: CandidateId, events: seq<Emitted>)
    requires IsChain(c, events)
    ensures Separates((a, b) => BySequence(a, b), events)
  {
    forall x, y | x in events && y in events && BySequence(x, y) && BySequence(y, x)
      ensures x == y
    {
      var m :| 0 <= m < |events| && events[m] == x;
      var n :| 0 <= n < |events| && events[n] == y;
    }
  }

  /** The tables' events, in the order they are read, give each candidate the log it was imported with. */
  lemma BackfilledLog(source: seq<Emitted>, target: seq<Emitted>, c: CandidateId)
    requires multiset(source) == multiset(target) && Sorted(target, (a, b) => BySequence(a, b))
             && IsChain(c, Of(source, c))
    ensures Of(source, c) == Of(target, c)
  {
    var mine, theirs := Of(source, c), Of(target, c);
    OfKeeps(source, c);
    OfKeeps(target, c);
    assert multiset(mine) == multiset(theirs);
    OfSorted(target, c);
    BySequenceRanks();
    ChainSeparates(c, mine);
    ChainSorted(c, mine);
    SortedUnique(mine, theirs, (a, b) => BySequence(a, b));
  }

  lemma ChainSorted(c: CandidateId, events: seq<Emitted>)
    requires IsChain(c, events)
    ensures Sorted(events, (a, b) => BySequence(a, b))
  {
  }

  lemma {:induction false} StoredIsListed(target: seq<Valued>, v: Valued)
    requires UniqueBy(target, (w: Valued) => w.candidate.id) && v in target
    ensures StoredOf(target, v.candidate.id) == Some(v.numerics)
  {
    var front, last := target[..|target| - 1], target[|target| - 1];
    assert target == front + [last];
    if last.candidate.id == v.candidate.id {
      var n :| 0 <= n < |target| && target[n] == v;
      assert n == |target| - 1;
    } else {
      StoredIsListed(front, v);
    }
  }

  /** A candidate as it is stored: its numerics canonical. */
  function StoredForm(v: Valued, columns: seq<Column>): Valued
    requires |v.numerics| == |columns| && !Overflows(v.numerics, columns)
  {
    v.(numerics := seq(|columns|, n requires 0 <= n < |columns| => CanonicalOf(v.numerics[n], columns[n]).value))
  }

  /** A canonical decimal is its own canonical form, so nothing stored is ever a mismatch. */
  lemma StoredIsEquivalent(v: Valued, columns: seq<Column>)
    requires |v.numerics| == |columns| && !Overflows(v.numerics, columns)
    ensures var kind := Class(v.numerics, Some(StoredForm(v, columns).numerics), columns);
            kind.Exact? || kind.Equivalent?
  {
    var stored := StoredForm(v, columns).numerics;
    forall n | 0 <= n < |columns|
      ensures CanonicalOf(stored[n], columns[n]) == CanonicalOf(v.numerics[n], columns[n])
              && CanonicalOf(stored[n], columns[n]).Ok?
    {
      assert CanonicalOf(v.numerics[n], columns[n]).Ok?;
      if v.numerics[n].Some? {
        CanonicalTwice(v.numerics[n].value, columns[n]);
      }
    }
  }

  lemma CanonicalTwice(d: Decimal, column: Column)
    requires Canonical(d, column).Some?
    ensures Canonical(Canonical(d, column).value, column) == Canonical(d, column)
  {
  }

  /** What a completed backfill into empty tables leaves, read back: the rows in their orders. */
  ghost predicate ReadBack(source: Source, target: Target, columns: seq<Column>,
                           runs: map<RunId, Run>, candidates: map<CandidateId, Valued>, events: map<EventId, Emitted>) {
    && IsMerged(runs, map[], source.runs, (r: Run) => r.id) && Lists(target.runs, runs, (r: Run) => r.id)
    && (forall n :: 0 <= n < |source.candidates| ==>
                      |source.candidates[n].numerics| == |columns|
                      && !Overflows(source.candidates[n].numerics, columns))
    && IsMerged(candidates, map[], StoredForms(source.candidates, columns), (v: Valued) => v.candidate.id)
    && Lists(target.candidates, candidates, (v: Valued) => v.candidate.id)
    && IsMerged(events, map[], source.events, (e: Emitted) => e.source.event)
    && Lists(target.events, events, (e: Emitted) => e.source.event)
    && Sorted(target.events, (a, b) => BySequence(a, b))
  }

  function StoredForms(source: seq<Valued>, columns: seq<Column>): seq<Valued>
    requires forall n :: 0 <= n < |source| ==>
                           |source[n].numerics| == |columns| && !Overflows(source[n].numerics, columns)
  {
    seq(|source|, n requires 0 <= n < |source| => StoredForm(source[n], columns))
  }

  /** The keys of a well-formed snapshot. */
  predicate WellKeyed(source: Source) {
    && UniqueBy(source.runs, (r: Run) => r.id) && UniqueBy(source.candidates, (v: Valued) => v.candidate.id)
    && UniqueBy(source.events, (e: Emitted) => e.source.event)
    && forall n :: 0 <= n < |source.candidates| ==>
                     IsChain(source.candidates[n].candidate.id, Of(source.events, source.candidates[n].candidate.id))
  }

  lemma RunsReadBack(source: seq<Run>, target: seq<Run>)
    requires multiset(target) == multiset(source)
    ensures RunsAgree(source, target)
  {
    MapKeeps(source, target, (r: Run) => r.id);
    MapKeeps(source, target, (r: Run) => r.status);
    ActiveKeeps(source);
    ActiveKeeps(target);
    assert multiset(ActiveRunsOf(source)) == multiset(ActiveRunsOf(target));
    MapKeeps(ActiveRunsOf(source), ActiveRunsOf(target), (r: Run) => r.id);
  }

  lemma {:induction false} ActiveKeeps(runs: seq<Run>)
    ensures forall r :: multiset(ActiveRunsOf(runs))[r] == if r.active then multiset(runs)[r] else 0
  {
    if runs != [] {
      assert runs == runs[..|runs| - 1] + [runs[|runs| - 1]];
      ActiveKeeps(runs[..|runs| - 1]);
    }
  }

  lemma CandidatesReadBack(source: seq<Valued>, stored: seq<Valued>, target: seq<Valued>, columns: seq<Column>)
    requires forall n :: 0 <= n < |source| ==>
                           |source[n].numerics| == |columns| && !Overflows(source[n].numerics, columns)
    requires stored == StoredForms(source, columns) && multiset(target) == multiset(stored)
    requires UniqueBy(target, (v: Valued) => v.candidate.id)
    ensures CandidatesAgree(source, target, columns)
  {
    MapKeeps(stored, target, (v: Valued) => (v.candidate.id, v.candidate.decision));
    MapKeeps(stored, target, (v: Valued) => v.candidate.status);
    MapKeeps(stored, target, (v: Valued) => v.candidate.run);
    assert Links(stored) == Links(source) && StatusesOf(stored) == StatusesOf(source)
           && RunsOf(stored) == RunsOf(source);
    forall n | 0 <= n < |source|
      ensures var kind := Class(source[n].numerics, StoredOf(target, source[n].candidate.id), columns);
            kind.Exact? || kind.Equivalent?
    {
      assert stored[n] in multiset(stored);
      assert stored[n] in multiset(target);
      StoredIsListed(target, stored[n]);
      StoredIsEquivalent(source[n], columns);
    }
  }

  lemma EventsReadBack(candidates: seq<Valued>, source: seq<Emitted>, target: seq<Emitted>)
    requires multiset(target) == multiset(source) && Sorted(target, (a, b) => BySequence(a, b))
    requires forall n :: 0 <= n < |candidates| ==>
                           IsChain(candidates[n].candidate.id, Of(source, candidates[n].candidate.id))
    ensures EventsAgree(candidates, source, target)
  {
    MapKeeps(source, target, (e: Emitted) => e.source.event);
    forall n | 0 <= n < |candidates|
      ensures LogOf(source, candidates[n].candidate.id) == LogOf(target, candidates[n].candidate.id)
    {
      BackfilledLog(source, target, candidates[n].candidate.id);
    }
  }

  lemma StoredFormsUnique(source: seq<Valued>, columns: seq<Column>)
    requires forall n :: 0 <= n < |source| ==>
                           |source[n].numerics| == |columns| && !Overflows(source[n].numerics, columns)
    requires UniqueBy(source, (v: Valued) => v.candidate.id)
    ensures UniqueBy(StoredForms(source, columns), (v: Valued) => v.candidate.id)
  {
  }

  lemma ReadBackAgrees(source: Source, target: Target, columns: seq<Column>, observedAt: int,
                       runs: map<RunId, Run>, candidates: map<CandidateId, Valued>, events: map<EventId, Emitted>)
    requires WellKeyed(source) && ReadBack(source, target, columns, runs, candidates, events)
    requires RestAgrees(source, target.counts, observedAt)
    ensures Agrees(source, target, columns, observedAt)
  {
    BackfilledRows(source.runs, runs, target.runs, (r: Run) => r.id);
    RunsReadBack(source.runs, target.runs);
    StoredFormsUnique(source.candidates, columns);
    BackfilledRows(StoredForms(source.candidates, columns), candidates, target.candidates,
                   (v: Valued) => v.candidate.id);
    CandidatesReadBack(source.candidates, StoredForms(source.candidates, columns), target.candidates, columns);
    BackfilledRows(source.events, events, target.events, (e: Emitted) => e.source.event);
    EventsReadBack(source.candidates, source.events, target.events);
  }

  /** The snapshot as it is imported from rows and candidates. */
  ghost predicate Imported(source: Source, rows: seq<Row>, candidates: seq<Candidate>, ctx: Context) {
    && ctx.known == ById(candidates) && (forall row :: row in rows ==> !Classify(row, ctx).Invalid?)
    && source.events == EventsOf(candidates, rows, ctx) && |source.candidates| == |candidates|
    && forall n :: 0 <= n < |candidates| ==> source.candidates[n].candidate == WithStatus(candidates[n], rows, ctx)
  }

  /** Rows taken from rows with unique ids have unique ids. */
  lemma SomeStayUnique(some: seq<Row>, rows: seq<Row>)
    requires multiset(some) <= multiset(rows) && UniqueBy(rows, (row: Row) => row.event)
    ensures UniqueBy(some, (row: Row) => row.event)
  {
    forall a, b | 0 <= a < b < |some|
      ensures some[a].event != some[b].event
    {
      PairIsApart(some, rows, a, b);
    }
  }

  lemma PairIsApart(some: seq<Row>, rows: seq<Row>, a: nat, b: nat)
    requires multiset(some) <= multiset(rows) && UniqueBy(rows, (row: Row) => row.event) && a < b < |some|
    ensures some[a].event != some[b].event
  {
    assert some == some[..b] + [some[b]] + some[b + 1..];
    assert some[a] in some[..b] && some[b] in multiset(some) && some[a] in multiset(some);
    assert some[a] in multiset(rows) && some[b] in multiset(rows);
    UniqueOccurs(rows, (row: Row) => row.event, some[b]);
    var m :| 0 <= m < |rows| && rows[m] == some[a];
    var n :| 0 <= n < |rows| && rows[n] == some[b];
    assert some[a] == some[b] ==> multiset(some)[some[b]] >= 2;
  }

  /** An imported snapshot has the keys and the chains the comparison relies on. */
  lemma ImportIsWellKeyed(source: Source, rows: seq<Row>, candidates: seq<Candidate>, ctx: Context)
    requires Imported(source, rows, candidates, ctx) && UniqueBy(source.runs, (r: Run) => r.id)
    requires UniqueIds(candidates) && UniqueBy(rows, (row: Row) => row.event)
    ensures WellKeyed(source)
  {
    RowsAreConserved(rows, candidates, ctx);
    SomeStayUnique(EventSources(source.events), rows);
    forall a, b | 0 <= a < b < |source.events|
      ensures source.events[a].source.event != source.events[b].source.event
    {
      assert EventSources(source.events)[a] == source.events[a].source;
      assert EventSources(source.events)[b] == source.events[b].source;
    }
    forall n | 0 <= n < |candidates|
      ensures source.candidates[n].candidate.id == candidates[n].id
      ensures IsChain(candidates[n].id, Of(source.events, candidates[n].id))
    {
      EventsAreSequenced(rows, candidates, ctx, n);
    }
  }

  /** The three tables a completed backfill leaves when they were empty. */
  ghost predicate Backfilled(source: Source, columns: seq<Column>, batchSize: nat,
                             runs: map<RunId, Run>, candidates: map<CandidateId, Valued>, events: map<EventId, Emitted>)
    requires batchSize >= 1
    requires forall n :: 0 <= n < |source.candidates| ==>
                           |source.candidates[n].numerics| == |columns|
                           && !Overflows(source.candidates[n].numerics, columns)
  {
    var intoRuns := InsertAll(map[], source.runs, (r: Run) => r.id, batchSize);
    var intoCandidates :=
      InsertAll(map[], StoredForms(source.candidates, columns), (v: Valued) => v.candidate.id, batchSize);
    var intoEvents := InsertAll(map[], source.events, (e: Emitted) => e.source.event, batchSize);
    && !intoRuns.conflict && intoRuns.table == runs
    && !intoCandidates.conflict && intoCandidates.table == candidates
    && !intoEvents.conflict && intoEvents.table == events
  }

  /** The tables read back: the rows in their orders. */
  ghost predicate Reads(target: Target, runs: map<RunId, Run>, candidates: map<CandidateId, Valued>,
                        events: map<EventId, Emitted>) {
    && Lists(target.runs, runs, (r: Run) => r.id)
    && Lists(target.candidates, candidates, (v: Valued) => v.candidate.id)
    && Lists(target.events, events, (e: Emitted) => e.source.event) && Sorted(target.events, (a, b) => BySequence(a, b))
  }

  /**
   Reconciling a completed backfill of an imported snapshot into empty tables finds nothing, for every
   batch size. What no column can store never completes a backfill, so the numerics do not overflow.
   */
  lemma BackfillReconciles(source: Source, target: Target, columns: seq<Column>, observedAt: int, batchSize: nat,
                           rows: seq<Row>, originals: seq<Candidate>, ctx: Context,
                           runs: map<RunId, Run>, candidates: map<CandidateId, Valued>, events: map<EventId, Emitted>)
    requires Imported(source, rows, originals, ctx) && UniqueBy(source.runs, (r: Run) => r.id)
    requires UniqueIds(originals) && UniqueBy(rows, (row: Row) => row.event) && batchSize >= 1
    requires forall n :: 0 <= n < |source.candidates| ==>
                           |source.candidates[n].numerics| == |columns|
                           && !Overflows(source.candidates[n].numerics, columns)
    requires Backfilled(source, columns, batchSize, runs, candidates, events) && Reads(target, runs, candidates, events)
    requires RestAgrees(source, target.counts, observedAt)
    ensures Agrees(source, target, columns, observedAt)
  {
    ImportIsWellKeyed(source, rows, originals, ctx);
    BackfillMerges(map[], source.runs, (r: Run) => r.id, batchSize);
    BackfillMerges(map[], StoredForms(source.candidates, columns), (v: Valued) => v.candidate.id, batchSize);
    BackfillMerges(map[], source.events, (e: Emitted) => e.source.event, batchSize);
    ReadBackAgrees(source, target, columns, observedAt, runs, candidates, events);
  }

  /** Agreement fixes the decision of every candidate: the two sides link the same ids to the same decisions. */
  lemma AgreementFixesLinks(source: Source, target: Target, columns: seq<Column>, observedAt: int, m: nat)
    requires Agrees(source, target, columns, observedAt) && m < |target.candidates|
    ensures exists n :: 0 <= n < |source.candidates|
                        && source.candidates[n].candidate.id == target.candidates[m].candidate.id
                        && source.candidates[n].candidate.decision == target.candidates[m].candidate.decision
  {
    var link := Links(target.candidates)[m];
    assert link in multiset(Links(target.candidates));
    assert link in multiset(Links(source.candidates));
    var n :| 0 <= n < |source.candidates| && Links(source.candidates)[n] == link;
  }
}
