/**
 Runs of the worker log, and what they keep whatever the times of their events are: rows are distinct,
 nothing is removed, and at most one cycle is active.
 */
module WorkerRuns {
  import opened Options
  import opened Sequences
  import opened WorkerLog

  datatype Request = Request(event: Event, fenceHeld: bool, now: int)

  function Step(log: Log, request: Request, hash: Event -> nat): Log {
    After(log, Persist(log, request.event, request.fenceHeld, request.now, hash))
  }

  function Run(log: Log, requests: seq<Request>, hash: Event -> nat): Log
    decreases |requests|
  {
    if requests == [] then log else Run(Step(log, requests[0], hash), requests[1..], hash)
  }

  /** The request's transaction stores its event, which was not there before. */
  predicate Stores(log: Log, request: Request, hash: Event -> nat) {
    var outcome := Persist(log, request.event, request.fenceHeld, request.now, hash);
    outcome.Persisted? && !outcome.replayed
  }

  /** The failure rows are those of the failed events: of a preflight, a workstream or a cycle. */
  ghost predicate FailuresMatch(log: Log) {
    forall e :: e in log.failures
                <==> e in log.rows
                     && (e.kind == PreflightFailed || e.kind == WorkstreamFailed || e.kind == CycleFailed)
  }

  lemma {:induction false} OrphanIsActive(rows: seq<Event>, n: nat, c: CycleId, now: int)
    requires n <= |rows|
    ensures var orphan := OrphanAmong(rows, n, c, now);
            && (orphan.Some? ==> orphan.value.cycle != c && ActiveStart(rows, orphan.value, now))
            && (orphan.None? ==> forall k :: 0 <= k < n ==> !(rows[k].cycle != c && ActiveStart(rows, rows[k], now)))
  {
    if n > 0 {
      OrphanIsActive(rows, n - 1, c, now);
    }
  }

  /** The synthetic failure belongs to another cycle than the new event. */
  lemma ClosingElsewhere(log: Log, e: Event, now: int)
    ensures forall r :: r in WithOrphanClosed(log, e, now).rows && r.cycle == e.cycle ==> r in log.rows
    ensures forall r :: r in log.rows ==> r in WithOrphanClosed(log, e, now).rows
    ensures e !in log.rows ==> e !in WithOrphanClosed(log, e, now).rows
  {
    OrphanIsActive(log.rows, |log.rows|, e.cycle, now);
  }

  lemma {:induction false} NoLatestNoRows(rows: seq<Event>, c: CycleId, hash: Event -> nat)
    ensures Latest(rows, c, hash).None? <==> forall e :: e in rows ==> e.cycle != c
  {
    if rows != [] {
      NoLatestNoRows(rows[..|rows| - 1], c, hash);
      assert rows == rows[..|rows| - 1] + [rows[|rows| - 1]];
    }
  }

  /** The event a new one is checked against: none of its cycle is later, nor at its time with a greater id. */
  lemma {:induction false} LatestIsGreatest(rows: seq<Event>, c: CycleId, hash: Event -> nat)
    ensures var latest := Latest(rows, c, hash);
            && (latest.None? <==> forall r :: r in rows ==> r.cycle != c)
            && (latest.Some? ==>
                  && latest.value in rows && latest.value.cycle == c
                  && forall r :: r in rows && r.cycle == c ==>
                                   r.at < latest.value.at || (r.at == latest.value.at && hash(r) <= hash(latest.value)))
  {
    if rows != [] {
      LatestIsGreatest(rows[..|rows| - 1], c, hash);
      assert rows == rows[..|rows| - 1] + [rows[|rows| - 1]];
    }
  }

  /** A cycle that started in the last six hours and neither completed nor failed, nor did its worker stop. */
  ghost predicate Unended(rows: seq<Event>, start: Event, now: int) {
    && start in rows && start.kind == CycleStarted && now - start.at <= 6 * 3_600_000
    && forall e :: e in rows && e.cycle == start.cycle ==>
                     e.kind != CycleCompleted && e.kind != CycleFailed && e.kind != WorkerStopped
  }

  lemma ActiveIsUnended(rows: seq<Event>, start: Event, now: int)
    ensures ActiveStart(rows, start, now) <==> Unended(rows, start, now)
  {
  }

  /** At most one cycle start is active. */
  ghost predicate OneActive(rows: seq<Event>, now: int) {
    forall a, b :: ActiveStart(rows, a, now) && ActiveStart(rows, b, now) ==> a == b
  }

  /** The orphan a new start closes: of the unended starts of other cycles one with the greatest time. */
  lemma {:induction false} OrphanIsLatestUnended(rows: seq<Event>, n: nat, c: CycleId, now: int)
    requires n <= |rows|
    ensures var orphan := OrphanAmong(rows, n, c, now);
            && (orphan.None? <==> forall k :: 0 <= k < n ==> rows[k].cycle == c || !Unended(rows, rows[k], now))
            && (orphan.Some? ==>
                  && orphan.value in rows && orphan.value.cycle != c && Unended(rows, orphan.value, now)
                  && forall k :: 0 <= k < n && rows[k].cycle != c && Unended(rows, rows[k], now) ==>
                                   rows[k].at <= orphan.value.at)
  {
    if n > 0 {
      OrphanIsLatestUnended(rows, n - 1, c, now);
      ActiveIsUnended(rows, rows[n - 1], now);
    }
  }

  lemma MoreRowsFewerActive(rows: seq<Event>, more: seq<Event>, a: Event, now: int, later: int)
    requires (forall r :: r in rows ==> r in more) && a in rows && now <= later && ActiveStart(more, a, later)
    ensures ActiveStart(rows, a, now)
  {
    assert forall r :: r in rows && r.cycle == a.cycle && Terminal(r.kind) ==> r in more;
  }

  lemma WindowMoves(rows: seq<Event>, now: int, later: int)
    requires OneActive(rows, now) && now <= later
    ensures OneActive(rows, later)
  {
    forall a, b | ActiveStart(rows, a, later) && ActiveStart(rows, b, later)
      ensures a == b
    {
      MoreRowsFewerActive(rows, rows, a, now, later);
      MoreRowsFewerActive(rows, rows, b, now, later);
    }
  }

  lemma InsertedRows(log: Log, request: Request, hash: Event -> nat)
    requires Stores(log, request, hash)
    ensures var rows, e := Step(log, request, hash).rows, request.event;
            && (forall r :: r in log.rows ==> r in rows) && e in rows
            && (forall r :: r in rows ==> r in log.rows || r == e || r.kind.CycleFailed?)
            && (e.kind.CycleStarted? ==> forall r :: r in log.rows ==> r.cycle != e.cycle)
  {
    var e := request.event;
    ClosingElsewhere(log, e, request.now);
    NoLatestNoRows(WithOrphanClosed(log, e, request.now).rows, e.cycle, hash);
  }

  /** Starting a cycle leaves no other active start behind. */
  lemma StartLeavesOne(log: Log, request: Request, hash: Event -> nat, a: Event)
    requires Stores(log, request, hash)
    requires OneActive(log.rows, request.now) && request.event.kind.CycleStarted?
    requires ActiveStart(Step(log, request, hash).rows, a, request.now)
    ensures a == request.event
  {
    var e, rows := request.event, Step(log, request, hash).rows;
    InsertedRows(log, request, hash);
    if a in log.rows {
      MoreRowsFewerActive(log.rows, rows, a, request.now, request.now);
      OldStartEnds(log, request, hash, a);
    }
  }

  lemma OldStartEnds(log: Log, request: Request, hash: Event -> nat, a: Event)
    requires Stores(log, request, hash)
    requires OneActive(log.rows, request.now) && request.event.kind.CycleStarted?
             && ActiveStart(log.rows, a, request.now)
    ensures Ended(Step(log, request, hash).rows, a.cycle)
  {
    var e := request.event;
    InsertedRows(log, request, hash);
    OrphanIsActive(log.rows, |log.rows|, e.cycle, request.now);
    assert OrphanAmong(log.rows, |log.rows|, e.cycle, request.now) == Some(a);
    assert ClosingEvent(a.cycle, e) in WithOrphanClosed(log, e, request.now).rows;
    assert ClosingEvent(a.cycle, e) in Step(log, request, hash).rows;
  }

  lemma PersistKeepsOneActive(log: Log, request: Request, hash: Event -> nat)
    requires OneActive(log.rows, request.now)
    ensures OneActive(Step(log, request, hash).rows, request.now)
  {
    var e, rows := request.event, Step(log, request, hash).rows;
    if Stores(log, request, hash) {
      InsertedRows(log, request, hash);
      forall a, b | ActiveStart(rows, a, request.now) && ActiveStart(rows, b, request.now)
        ensures a == b
      {
        if e.kind.CycleStarted? {
          StartLeavesOne(log, request, hash, a);
          StartLeavesOne(log, request, hash, b);
        } else {
          MoreRowsFewerActive(log.rows, rows, a, request.now, request.now);
          MoreRowsFewerActive(log.rows, rows, b, request.now, request.now);
        }
      }
    }
  }

  /** The database clock does not run backwards. */
  predicate ClockRises(now: int, requests: seq<Request>) {
    && (requests != [] ==> now <= requests[0].now)
    && forall a, b :: 0 <= a < b < |requests| ==> requests[a].now <= requests[b].now
  }

  lemma {:induction false} RunKeepsOneActive(log: Log, now: int, requests: seq<Request>, hash: Event -> nat,
                                             later: int)
    requires OneActive(log.rows, now) && ClockRises(now, requests)
    requires later >= if requests == [] then now else requests[|requests| - 1].now
    ensures OneActive(Run(log, requests, hash).rows, later)
    decreases |requests|
  {
    if requests == [] {
      WindowMoves(log.rows, now, later);
    } else {
      WindowMoves(log.rows, now, requests[0].now);
      PersistKeepsOneActive(log, requests[0], hash);
      RunKeepsOneActive(Step(log, requests[0], hash), requests[0].now, requests[1..], hash, later);
    }
  }

  /**
   Whatever the event times, while the database clock does not run backwards at most one cycle started
   in the last six hours is without an end: now, and at every later moment.
   */
  lemma AtMostOneActiveCycle(requests: seq<Request>, hash: Event -> nat, later: int, a: Event, b: Event)
    requires requests != [] && ClockRises(requests[0].now, requests) && later >= requests[|requests| - 1].now
    requires var rows := Run(Log([], {}), requests, hash).rows; Unended(rows, a, later) && Unended(rows, b, later)
    ensures a == b
  {
    var rows := Run(Log([], {}), requests, hash).rows;
    RunKeepsOneActive(Log([], {}), requests[0].now, requests, hash, later);
    ActiveIsUnended(rows, a, later);
    ActiveIsUnended(rows, b, later);
  }

  lemma AppendKeepsRows(log: Log, e: Event)
    requires Distinct(log.rows) && FailuresMatch(log)
    ensures Distinct(Append(log, e).rows) && FailuresMatch(Append(log, e))
  {
  }

  /** Whatever the times, a row is stored once and every failed event has its failure row. */
  lemma PersistKeepsRows(log: Log, request: Request, hash: Event -> nat)
    requires Distinct(log.rows) && FailuresMatch(log)
    ensures Distinct(Step(log, request, hash).rows) && FailuresMatch(Step(log, request, hash))
  {
    var e := request.event;
    if Stores(log, request, hash) {
      var closed := WithOrphanClosed(log, e, request.now);
      var orphan := OrphanOf(log, e, request.now);
      if orphan.Some? {
        AppendKeepsRows(log, ClosingEvent(orphan.value, e));
      }
      AppendKeepsRows(closed, e);
    }
  }

  /** Rows are only ever added. */
  lemma StepGrows(log: Log, request: Request, hash: Event -> nat)
    ensures forall r :: r in log.rows ==> r in Step(log, request, hash).rows
  {
  }

  lemma {:induction false} RunGrows(log: Log, requests: seq<Request>, hash: Event -> nat)
    ensures forall r :: r in log.rows ==> r in Run(log, requests, hash).rows
    decreases |requests|
  {
    if requests != [] {
      StepGrows(log, requests[0], hash);
      RunGrows(Step(log, requests[0], hash), requests[1..], hash);
    }
  }

  lemma {:induction false} RunKeepsRows(log: Log, requests: seq<Request>, hash: Event -> nat)
    requires Distinct(log.rows) && FailuresMatch(log)
    ensures Distinct(Run(log, requests, hash).rows) && FailuresMatch(Run(log, requests, hash))
    decreases |requests|
  {
    if requests != [] {
      PersistKeepsRows(log, requests[0], hash);
      RunKeepsRows(Step(log, requests[0], hash), requests[1..], hash);
    }
  }
}
