/**
 When every cycle's history, put in the order of its times, is a word of the transition automaton. The
 check on a new event looks at the cycle's latest one only, so the order of arrival decides, and exactly
 so: for a run, and for what a closed cycle may still take in.
 */
module WorkerHistory {
  import opened Options
  import opened Texts
  import opened WorkerLog
  import opened WorkerRuns

  function Before(h: seq<Event>, n: nat): Option<Event>
    requires n <= |h|
  {
    if n == 0 then None else Some(h[n - 1])
  }

  predicate IsWord(h: seq<Event>) {
    forall n {:trigger Before(h, n)} :: 0 <= n < |h| ==> MayFollow(Before(h, n), h[n])
  }

  // ----------------------------------------------------------------------------- histories by time

  /** Takes an event in behind all those it is later than. */
  function Insert(h: seq<Event>, e: Event, hash: Event -> nat): seq<Event> {
    if h == [] || Later(e, h[|h| - 1], hash) then h + [e]
    else Insert(h[..|h| - 1], e, hash) + [h[|h| - 1]]
  }

  /** A cycle's rows ordered by time, then by hashed id. */
  function ByTime(rows: seq<Event>, c: CycleId, hash: Event -> nat): seq<Event> {
    if rows == [] then []
    else
      var before, e := ByTime(rows[..|rows| - 1], c, hash), rows[|rows| - 1];
      if e.cycle == c then Insert(before, e, hash) else before
  }

  predicate Ordered(h: seq<Event>, hash: Event -> nat) {
    forall a, b :: 0 <= a < b < |h| ==> Later(h[b], h[a], hash)
  }

  lemma ByTimeAppend(rows: seq<Event>, e: Event, c: CycleId, hash: Event -> nat)
    ensures ByTime(rows + [e], c, hash)
         == if e.cycle == c then Insert(ByTime(rows, c, hash), e, hash) else ByTime(rows, c, hash)
  {
    assert (rows + [e])[..|rows|] == rows;
  }

  lemma {:induction false} InsertAdds(h: seq<Event>, e: Event, hash: Event -> nat)
    ensures multiset(Insert(h, e, hash)) == multiset(h) + multiset{e}
    ensures forall x :: x in Insert(h, e, hash) <==> x in h || x == e
  {
    if h != [] && !Later(e, h[|h| - 1], hash) {
      assert h == h[..|h| - 1] + [h[|h| - 1]];
      InsertAdds(h[..|h| - 1], e, hash);
    }
  }

  lemma OrderedAppend(h: seq<Event>, e: Event, hash: Event -> nat)
    requires Ordered(h, hash) && forall x :: x in h ==> Later(e, x, hash)
    ensures Ordered(h + [e], hash)
  {
  }

  lemma OrderedLast(h: seq<Event>, x: Event, hash: Event -> nat)
    requires Ordered(h, hash) && x in h
    ensures x == h[|h| - 1] || Later(h[|h| - 1], x, hash)
  {
    var n :| 0 <= n < |h| && h[n] == x;
  }

  lemma {:induction false} InsertOrders(h: seq<Event>, e: Event, hash: Event -> nat)
    requires Ordered(h, hash)
    ensures Ordered(Insert(h, e, hash), hash)
  {
    if h != [] {
      var front, last := h[..|h| - 1], h[|h| - 1];
      if Later(e, last, hash) {
        forall x | x in h
          ensures Later(e, x, hash)
        {
          OrderedLast(h, x, hash);
        }
        OrderedAppend(h, e, hash);
      } else {
        InsertOrders(front, e, hash);
        InsertAdds(front, e, hash);
        forall x | x in Insert(front, e, hash)
          ensures Later(last, x, hash)
        {
          LaterThanFront(h, x, e, hash);
        }
        OrderedAppend(Insert(front, e, hash), last, hash);
      }
    }
  }

  lemma LaterThanFront(h: seq<Event>, x: Event, e: Event, hash: Event -> nat)
    requires h != [] && Ordered(h, hash) && !Later(e, h[|h| - 1], hash) && (x == e || x in h[..|h| - 1])
    ensures Later(h[|h| - 1], x, hash)
  {
    if x != e {
      var n :| 0 <= n < |h| - 1 && h[..|h| - 1][n] == x;
      assert h[n] == x;
    }
  }

  lemma {:induction false} RowsOf(rows: seq<Event>, c: CycleId, hash: Event -> nat)
    ensures Ordered(ByTime(rows, c, hash), hash)
    ensures forall e :: multiset(ByTime(rows, c, hash))[e] == if e.cycle == c then multiset(rows)[e] else 0
  {
    if rows != [] {
      var front, last := rows[..|rows| - 1], rows[|rows| - 1];
      assert rows == front + [last];
      RowsOf(front, c, hash);
      InsertAdds(ByTime(front, c, hash), last, hash);
      InsertOrders(ByTime(front, c, hash), last, hash);
    }
  }

  /** The history by time holds exactly the cycle's rows, in order. */
  lemma ByTimeMembers(rows: seq<Event>, c: CycleId, hash: Event -> nat)
    ensures Ordered(ByTime(rows, c, hash), hash)
    ensures forall e :: e in ByTime(rows, c, hash) <==> e in rows && e.cycle == c
  {
    RowsOf(rows, c, hash);
    var h := ByTime(rows, c, hash);
    forall e
      ensures e in h <==> e in rows && e.cycle == c
    {
      assert e in h <==> multiset(h)[e] > 0;
      assert e in rows <==> multiset(rows)[e] > 0;
    }
  }

  /** The event the check compares with is the last of the history by time. */
  lemma {:induction false} LatestIsLast(rows: seq<Event>, c: CycleId, hash: Event -> nat)
    ensures var h := ByTime(rows, c, hash); Latest(rows, c, hash) == Before(h, |h|)
  {
    if rows != [] {
      LatestIsLast(rows[..|rows| - 1], c, hash);
    }
  }

  // ------------------------------------------------------------------------------------------- words

  lemma WordAppend(h: seq<Event>, e: Event)
    requires IsWord(h) && MayFollow(Before(h, |h|), e)
    ensures IsWord(h + [e])
  {
    var longer := h + [e];
    forall n | 0 <= n < |longer|
      ensures MayFollow(Before(longer, n), longer[n])
    {
      assert Before(longer, n) == Before(h, n);
      if n < |h| {
        assert longer[n] == h[n];
      }
    }
  }

  /** A cycle with a start and no end is where a failure may follow. */
  lemma ActiveMayFail(h: seq<Event>, e: Event, failure: Event)
    requires IsWord(h) && e in h && e.kind.CycleStarted? && failure.kind.CycleFailed?
    requires forall f :: f in h ==> !Terminal(f.kind)
    ensures MayFollow(Before(h, |h|), failure)
  {
    var n :| 0 <= n < |h| && h[n] == e;
    StartIsNoPreflight(h, n);
    assert h[|h| - 1] in h;
  }

  lemma StartIsNoPreflight(h: seq<Event>, n: nat)
    requires IsWord(h) && n < |h| && h[n].kind.CycleStarted?
    ensures !h[|h| - 1].kind.PreflightFailed?
  {
    StartIsFirst(h, n);
    assert |h| > 1 ==> MayFollow(Before(h, |h| - 1), h[|h| - 1]);
  }

  lemma StartIsFirst(h: seq<Event>, n: nat)
    requires IsWord(h) && n < |h| && (h[n].kind.CycleStarted? || h[n].kind.PreflightFailed?)
    ensures n == 0
  {
    assert MayFollow(Before(h, n), h[n]);
  }

  lemma FinishFollowsStart(h: seq<Event>, n: nat)
    requires IsWord(h) && n < |h| && Finishes(h[n].kind)
    ensures n > 0 && h[n - 1].kind.WorkstreamStarted? && StoredName(h[n - 1]) == Some(GivenName(h[n]))
  {
    assert MayFollow(Before(h, n), h[n]);
  }

  lemma NothingFollows(h: seq<Event>, n: nat)
    requires IsWord(h) && n < |h| && (h[n].kind.WorkerStopped? || h[n].kind.PreflightFailed?)
    ensures n == |h| - 1
  {
    assert n + 1 < |h| ==> MayFollow(Before(h, n + 1), h[n + 1]);
  }

  /** After a failed or completed cycle, only the worker's stop may come, and nothing after that. */
  lemma EndedOnlyStops(h: seq<Event>, n: nat)
    requires IsWord(h) && n < |h| && (h[n].kind.CycleFailed? || h[n].kind.CycleCompleted?)
    ensures |h| <= n + 2 && (n + 1 < |h| ==> h[n + 1].kind.WorkerStopped?)
  {
    assert n + 1 < |h| ==> MayFollow(Before(h, n + 1), h[n + 1]);
    assert n + 2 < |h| ==> MayFollow(Before(h, n + 2), h[n + 2]);
  }

  /** The history a late event produces: it is stored by its time, ahead of the events from `n` on. */
  function StoredAt(h: seq<Event>, n: nat, e: Event): seq<Event>
    requires n <= |h|
  {
    h[..n] + [e] + h[n..]
  }

  lemma EndKinds(h: seq<Event>, n: nat)
    requires IsWord(h) && n < |h| && Terminal(h[n].kind)
    ensures Terminal(h[|h| - 1].kind)
  {
    if !h[n].kind.WorkerStopped? {
      EndedOnlyStops(h, n);
    } else {
      assert n + 1 < |h| ==> MayFollow(Before(h, n + 1), h[n + 1]);
    }
  }

  /** An event that may follow the last one extends the word there, and breaks it in every other position. */
  lemma WordIffStoredLast(h: seq<Event>, n: nat, e: Event)
    requires IsWord(h) && n <= |h| && MayFollow(Before(h, |h|), e)
    ensures IsWord(StoredAt(h, n, e)) <==> n == |h|
  {
    if n == |h| {
      WordAppend(h, e);
      assert StoredAt(h, n, e) == h + [e];
    } else {
      LateEventBreaks(h, n, e);
    }
  }

  lemma LateEventBreaks(h: seq<Event>, n: nat, e: Event)
    requires IsWord(h) && n < |h| && MayFollow(Before(h, |h|), e)
    ensures !IsWord(StoredAt(h, n, e))
  {
    var late := StoredAt(h, n, e);
    assert late[n] == e && late[n + 1] == h[n] && Before(late, n) == Before(h, n) && Before(late, n + 1) == Some(e);
    assert MayFollow(Before(h, n), h[n]);
    if Terminal(h[n].kind) {
      EndKinds(h, n);
    }
    assert !(MayFollow(Before(late, n), late[n]) && MayFollow(Before(late, n + 1), late[n + 1]));
  }

  lemma {:induction false} InsertedAt(h: seq<Event>, e: Event, hash: Event -> nat) returns (n: nat)
    ensures n <= |h| && Insert(h, e, hash) == StoredAt(h, n, e)
    ensures n == |h| <==> h == [] || Later(e, h[|h| - 1], hash)
  {
    n := |h|;
    if h != [] && !Later(e, h[|h| - 1], hash) {
      var front, last := h[..|h| - 1], h[|h| - 1];
      n := InsertedAt(front, e, hash);
      assert h[..n] == front[..n] && h[n..] == front[n..] + [last];
    }
  }

  // -------------------------------------------------------------------------------- one transaction

  ghost predicate AllWords(rows: seq<Event>, hash: Event -> nat) {
    forall c :: IsWord(ByTime(rows, c, hash))
  }

  /** The event comes after every row its cycle has. */
  predicate LaterThanCycle(rows: seq<Event>, e: Event, hash: Event -> nat) {
    forall r :: r in rows && r.cycle == e.cycle ==> Later(e, r, hash)
  }

  /** In a history by time the last row decides. */
  lemma LaterThanLast(rows: seq<Event>, e: Event, hash: Event -> nat)
    ensures var h := ByTime(rows, e.cycle, hash);
            LaterThanCycle(rows, e, hash) <==> h == [] || Later(e, h[|h| - 1], hash)
  {
    ByTimeMembers(rows, e.cycle, hash);
    var h := ByTime(rows, e.cycle, hash);
    if h != [] {
      assert h[|h| - 1] in h;
      forall r | r in rows && r.cycle == e.cycle
        ensures Later(e, h[|h| - 1], hash) ==> Later(e, r, hash)
      {
        assert r in h;
        var n :| 0 <= n < |h| && h[n] == r;
        assert n < |h| - 1 ==> Later(h[|h| - 1], h[n], hash);
      }
    }
  }

  /** An event that may follow the latest one keeps its cycle's history a word exactly when it comes last. */
  lemma AppendedIsWordIff(rows: seq<Event>, e: Event, hash: Event -> nat)
    requires IsWord(ByTime(rows, e.cycle, hash)) && MayFollow(Latest(rows, e.cycle, hash), e)
    ensures IsWord(ByTime(rows + [e], e.cycle, hash)) <==> LaterThanCycle(rows, e, hash)
  {
    var h := ByTime(rows, e.cycle, hash);
    ByTimeAppend(rows, e, e.cycle, hash);
    LatestIsLast(rows, e.cycle, hash);
    LaterThanLast(rows, e, hash);
    var n := InsertedAt(h, e, hash);
    WordIffStoredLast(h, n, e);
  }

  /** The synthetic failure of an orphan is new, and may follow the orphan's latest event. */
  lemma ClosingMayFollow(log: Log, e: Event, now: int, hash: Event -> nat)
    requires AllWords(log.rows, hash) && OrphanOf(log, e, now).Some?
    ensures var closing := ClosingEvent(OrphanOf(log, e, now).value, e);
            && closing !in log.rows && closing.cycle != e.cycle
            && WithOrphanClosed(log, e, now).rows == log.rows + [closing]
            && MayFollow(Latest(log.rows, closing.cycle, hash), closing)
  {
    var orphan := OrphanAmong(log.rows, |log.rows|, e.cycle, now).value;
    OrphanIsActive(log.rows, |log.rows|, e.cycle, now);
    OrphanMayFail(log.rows, orphan, now, ClosingEvent(orphan.cycle, e), hash);
  }

  /** A cycle with an active start takes another failure. */
  lemma OrphanMayFail(rows: seq<Event>, start: Event, now: int, failure: Event, hash: Event -> nat)
    requires AllWords(rows, hash) && ActiveStart(rows, start, now)
    requires failure.cycle == start.cycle && failure.kind.CycleFailed?
    ensures failure !in rows && MayFollow(Latest(rows, start.cycle, hash), failure)
  {
    ByTimeMembers(rows, start.cycle, hash);
    LatestIsLast(rows, start.cycle, hash);
    ActiveMayFail(ByTime(rows, start.cycle, hash), start, failure);
  }

  /** The new event comes after its cycle's rows, and the synthetic failure, if any, after the orphan's. */
  predicate InOrder(log: Log, request: Request, hash: Event -> nat) {
    var e := request.event;
    && LaterThanCycle(log.rows, e, hash)
    && var orphan := OrphanOf(log, e, request.now);
    orphan.Some? ==> LaterThanCycle(log.rows, ClosingEvent(orphan.value, e), hash)
  }

  lemma LatestElsewhere(rows: seq<Event>, e: Event, c: CycleId, hash: Event -> nat)
    requires e.cycle != c
    ensures Latest(rows + [e], c, hash) == Latest(rows, c, hash)
  {
    assert (rows + [e])[..|rows|] == rows;
  }

  /** What may be stored in a cycle, seen from the log before: closing an orphan is about another cycle. */
  lemma StoresIff(log: Log, request: Request, hash: Event -> nat)
    ensures Stores(log, request, hash)
       <==> var e := request.event;
            && request.fenceHeld && !(OfWorkstream(e.kind) && GivenName(e) == "") && e !in log.rows
            && MayFollow(Latest(log.rows, e.cycle, hash), e)
  {
    var e := request.event;
    var closed := WithOrphanClosed(log, e, request.now);
    OrphanIsActive(log.rows, |log.rows|, e.cycle, request.now);
    if closed.rows != log.rows {
      LatestElsewhere(log.rows, closed.rows[|log.rows|], e.cycle, hash);
      assert closed.rows == log.rows + [closed.rows[|log.rows|]];
    }
  }

  /** A transaction's effect on the histories it does not close. */
  lemma HistoryOf(log: Log, request: Request, c: CycleId, hash: Event -> nat)
    requires Stores(log, request, hash) && OrphanOf(log, request.event, request.now) != Some(c)
    ensures ByTime(Step(log, request, hash).rows, c, hash)
         == if c == request.event.cycle then ByTime(log.rows + [request.event], c, hash) else ByTime(log.rows, c, hash)
  {
    var e := request.event;
    var closed := WithOrphanClosed(log, e, request.now);
    ClosingElsewhere(log, e, request.now);
    assert Step(log, request, hash).rows == closed.rows + [e];
    ByTimeAppend(closed.rows, e, c, hash);
    ByTimeAppend(log.rows, e, c, hash);
    if closed != log {
      ByTimeAppend(log.rows, closed.rows[|log.rows|], c, hash);
    }
  }

  lemma OwnHistoryIff(log: Log, request: Request, hash: Event -> nat)
    requires AllWords(log.rows, hash) && Stores(log, request, hash)
    ensures IsWord(ByTime(Step(log, request, hash).rows, request.event.cycle, hash))
       <==> LaterThanCycle(log.rows, request.event, hash)
  {
    var e := request.event;
    OrphanIsActive(log.rows, |log.rows|, e.cycle, request.now);
    HistoryOf(log, request, e.cycle, hash);
    StoresIff(log, request, hash);
    AppendedIsWordIff(log.rows, e, hash);
  }

  lemma OrphanHistoryIff(log: Log, request: Request, c: CycleId, hash: Event -> nat)
    requires AllWords(log.rows, hash) && Stores(log, request, hash)
             && OrphanOf(log, request.event, request.now) == Some(c)
    ensures IsWord(ByTime(Step(log, request, hash).rows, c, hash))
       <==> LaterThanCycle(log.rows, ClosingEvent(c, request.event), hash)
  {
    var e, closing := request.event, ClosingEvent(c, request.event);
    ClosingMayFollow(log, e, request.now, hash);
    ClosingElsewhere(log, e, request.now);
    assert Step(log, request, hash).rows == log.rows + [closing] + [e];
    ByTimeAppend(log.rows + [closing], e, c, hash);
    AppendedIsWordIff(log.rows, closing, hash);
  }

  /**
   Over logs whose histories are words: a transaction that stores its event leaves all histories words
   exactly when the event is later than every row of its own cycle, and the synthetic failure it may
   write for an orphan is later than every row of the orphan's.
   */
  lemma PersistKeepsWordsIff(log: Log, request: Request, hash: Event -> nat)
    requires AllWords(log.rows, hash) && Stores(log, request, hash)
    ensures AllWords(Step(log, request, hash).rows, hash) <==> InOrder(log, request, hash)
  {
    var rows, orphan := Step(log, request, hash).rows, OrphanOf(log, request.event, request.now);
    OwnHistoryIff(log, request, hash);
    if orphan.Some? {
      OrphanHistoryIff(log, request, orphan.value, hash);
    }
    if InOrder(log, request, hash) {
      forall c
        ensures IsWord(ByTime(rows, c, hash))
      {
        if c != request.event.cycle && orphan != Some(c) {
          HistoryOf(log, request, c, hash);
        }
      }
    }
  }

  // --------------------------------------------------------------------------------------- every run

  /** Every log of the run, the first and the last included, has only words. */
  ghost predicate AlwaysWords(log: Log, requests: seq<Request>, hash: Event -> nat)
    decreases |requests|
  {
    AllWords(log.rows, hash) && (requests == [] || AlwaysWords(Step(log, requests[0], hash), requests[1..], hash))
  }

  /** Every event the run stores, synthetic ones included, comes after the rows of its cycle. */
  predicate StoresInOrder(log: Log, requests: seq<Request>, hash: Event -> nat)
    decreases |requests|
  {
    requests == []
    || ((Stores(log, requests[0], hash) ==> InOrder(log, requests[0], hash))
        && StoresInOrder(Step(log, requests[0], hash), requests[1..], hash))
  }

  /** Every history stays a word throughout a run exactly when every stored event comes in order. */
  lemma {:induction false} WordsIffInOrder(log: Log, requests: seq<Request>, hash: Event -> nat)
    requires AllWords(log.rows, hash)
    ensures AlwaysWords(log, requests, hash) <==> StoresInOrder(log, requests, hash)
    decreases |requests|
  {
    if requests != [] {
      var next := Step(log, requests[0], hash);
      if Stores(log, requests[0], hash) {
        PersistKeepsWordsIff(log, requests[0], hash);
      } else {
        assert next == log;
      }
      if AllWords(next.rows, hash) {
        WordsIffInOrder(next, requests[1..], hash);
      }
    }
  }

  lemma {:induction false} LastWords(log: Log, requests: seq<Request>, hash: Event -> nat)
    requires AlwaysWords(log, requests, hash)
    ensures AllWords(Run(log, requests, hash).rows, hash)
    decreases |requests|
  {
    if requests != [] {
      LastWords(Step(log, requests[0], hash), requests[1..], hash);
    }
  }

  const EMPTY := Log([], {})

  /**
   Throughout a run from the empty log every history, synthetic failures included, is a word exactly when
   events come in order. Then a completion or failure of a workstream directly follows a start stored
   under the very name the completion gives, and nothing follows a stopped worker or a failed preflight.
   */
  lemma HistoriesAreWords(requests: seq<Request>, hash: Event -> nat, c: CycleId)
    ensures AlwaysWords(EMPTY, requests, hash) <==> StoresInOrder(EMPTY, requests, hash)
    ensures StoresInOrder(EMPTY, requests, hash) ==>
              var h := ByTime(Run(EMPTY, requests, hash).rows, c, hash);
              && IsWord(h)
              && (forall n :: 0 <= n < |h| && Finishes(h[n].kind) ==>
                                n > 0 && h[n - 1].kind.WorkstreamStarted?
                                && StoredName(h[n - 1]) == Some(GivenName(h[n])))
              && (forall n :: 0 <= n < |h| && (h[n].kind.WorkerStopped? || h[n].kind.PreflightFailed?) ==> n == |h| - 1)
  {
    WordsIffInOrder(EMPTY, requests, hash);
    if StoresInOrder(EMPTY, requests, hash) {
      LastWords(EMPTY, requests, hash);
      WordShape(ByTime(Run(EMPTY, requests, hash).rows, c, hash));
    }
  }

  lemma WordShape(h: seq<Event>)
    requires IsWord(h)
    ensures forall n :: 0 <= n < |h| && Finishes(h[n].kind) ==>
                          n > 0 && h[n - 1].kind.WorkstreamStarted? && StoredName(h[n - 1]) == Some(GivenName(h[n]))
    ensures forall n :: 0 <= n < |h| && (h[n].kind.WorkerStopped? || h[n].kind.PreflightFailed?) ==> n == |h| - 1
  {
    forall n | 0 <= n < |h| && Finishes(h[n].kind)
      ensures n > 0 && h[n - 1].kind.WorkstreamStarted? && StoredName(h[n - 1]) == Some(GivenName(h[n]))
    {
      FinishFollowsStart(h, n);
    }
    forall n | 0 <= n < |h| && (h[n].kind.WorkerStopped? || h[n].kind.PreflightFailed?)
      ensures n == |h| - 1
    {
      NothingFollows(h, n);
    }
  }

  // -------------------------------------------------------------------------- what a closed cycle takes

  /** Whatever is stored next in the cycle is its worker's stop. */
  ghost predicate OnlyStops(log: Log, c: CycleId, hash: Event -> nat) {
    forall request: Request ::
      request.event.cycle == c && Stores(log, request, hash) ==> request.event.kind.WorkerStopped?
  }

  function AfterAll(rows: seq<Event>): int {
    if rows == [] then 0
    else
      var before, e := AfterAll(rows[..|rows| - 1]), rows[|rows| - 1];
      if e.at >= before then e.at + 1 else before
  }

  lemma {:induction false} AfterAllIsLater(rows: seq<Event>)
    ensures forall e :: e in rows ==> e.at < AfterAll(rows)
  {
    if rows != [] {
      AfterAllIsLater(rows[..|rows| - 1]);
      assert rows == rows[..|rows| - 1] + [rows[|rows| - 1]];
    }
  }

  /**
   A transaction that closes an orphan leaves the orphan's worker nothing but its stop exactly when the
   synthetic failure is later than every row the orphan had. Otherwise the orphan's latest event still
   decides, and its cycle goes on as if it had not been closed.
   */
  lemma ClosedCycleOnlyStopsIff(log: Log, request: Request, hash: Event -> nat)
    requires AllWords(log.rows, hash) && Stores(log, request, hash) && OrphanOf(log, request.event, request.now).Some?
    ensures var c := OrphanOf(log, request.event, request.now).value;
            OnlyStops(Step(log, request, hash), c, hash)
            <==> LaterThanCycle(log.rows, ClosingEvent(c, request.event), hash)
  {
    var after, c := Step(log, request, hash), OrphanOf(log, request.event, request.now).value;
    var latest := LatestAfterClosing(log, request, hash);
    if LaterThanCycle(log.rows, ClosingEvent(c, request.event), hash) {
      forall r: Request | r.event.cycle == c && Stores(after, r, hash)
        ensures r.event.kind.WorkerStopped?
      {
        StoresIff(after, r, hash);
      }
    } else {
      var next := FailureTaken(log, request, hash);
      assert Stores(after, next, hash);
    }
  }

  /** Closed at an earlier time than its latest event, a cycle takes in a second failure. */
  lemma FailureTaken(log: Log, request: Request, hash: Event -> nat) returns (next: Request)
    requires AllWords(log.rows, hash) && Stores(log, request, hash)
    requires var orphan := OrphanOf(log, request.event, request.now);
             orphan.Some? && !LaterThanCycle(log.rows, ClosingEvent(orphan.value, request.event), hash)
    ensures next.event.cycle == OrphanOf(log, request.event, request.now).value && next.event.kind.CycleFailed?
    ensures Stores(Step(log, request, hash), next, hash)
  {
    var e, rows := request.event, Step(log, request, hash).rows;
    var start := OrphanAmong(log.rows, |log.rows|, e.cycle, request.now).value;
    var latest := LatestAfterClosing(log, request, hash);
    AfterAllIsLater(rows);
    var failure := Event(start.cycle, CycleFailed, AfterAll(rows), Reported(None, 0));
    OrphanIsActive(log.rows, |log.rows|, e.cycle, request.now);
    OrphanMayFail(log.rows, start, request.now, failure, hash);
    next := Request(failure, true, 0);
    StoresIff(Step(log, request, hash), next, hash);
  }

  /** After the closing, the orphan's latest event is the synthetic failure or what it was before. */
  lemma LatestAfterClosing(log: Log, request: Request, hash: Event -> nat) returns (latest: Event)
    requires AllWords(log.rows, hash) && Stores(log, request, hash) && OrphanOf(log, request.event, request.now).Some?
    ensures var c := OrphanOf(log, request.event, request.now).value;
            && Latest(Step(log, request, hash).rows, c, hash) == Some(latest)
            && if LaterThanCycle(log.rows, ClosingEvent(c, request.event), hash)
               then latest == ClosingEvent(c, request.event)
               else Latest(log.rows, c, hash) == Some(latest)
  {
    var e := request.event;
    var c := OrphanOf(log, e, request.now).value;
    var closing := ClosingEvent(c, e);
    ClosingMayFollow(log, e, request.now, hash);
    ClosingElsewhere(log, e, request.now);
    assert Step(log, request, hash).rows == log.rows + [closing] + [e];
    LatestElsewhere(log.rows + [closing], e, c, hash);
    assert (log.rows + [closing])[..|log.rows|] == log.rows;
    LatestIsLast(log.rows, c, hash);
    LaterThanLast(log.rows, closing, hash);
    latest := Latest(log.rows + [closing], c, hash).value;
  }

  /** Over a run in order, a cycle closed as an orphan has at most its worker's stop after the closing. */
  lemma ClosedCycleOnlyStops(requests: seq<Request>, hash: Event -> nat, c: CycleId, n: nat)
    requires StoresInOrder(EMPTY, requests, hash) && n < |ByTime(Run(EMPTY, requests, hash).rows, c, hash)|
    requires var e := ByTime(Run(EMPTY, requests, hash).rows, c, hash)[n]; e.kind.CycleFailed? && e.payload.Orphaned?
    ensures var h := ByTime(Run(EMPTY, requests, hash).rows, c, hash);
            |h| <= n + 2 && (n + 1 < |h| ==> h[n + 1].kind.WorkerStopped?)
  {
    HistoriesAreWords(requests, hash, c);
    EndedOnlyStops(ByTime(Run(EMPTY, requests, hash).rows, c, hash), n);
  }
}
