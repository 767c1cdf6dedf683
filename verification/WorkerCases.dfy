/**
 Two runs whose events arrive out of the order of their times, a history that is no word and a closed cycle
 that goes on; and one in order, of a cycle that completes.
 */
module WorkerCases {
  import opened Options
  import opened Texts
  import opened WorkerLog
  import opened WorkerRuns
  import opened WorkerHistory
  import opened WorkerLanguage

  const START := Event(1, CycleStarted, 10, Reported(None, 0))

  const STOP := Event(1, WorkerStopped, 5, Reported(None, 0))

  const WORK := Event(1, WorkstreamStarted, 20, Reported(Some("a"), 0))

  const DONE := Event(1, WorkstreamCompleted, 25, Reported(Some("a"), 0))

  /** The replacement starts before the orphan's last event by its own time. */
  const REPLACEMENT := Event(2, CycleStarted, 15, Reported(None, 0))

  const CLOSING := Event(1, CycleFailed, 15, Orphaned(2))

  /** An event that is new and may follow its cycle's latest one is stored; without an orphan it is all that is. */
  lemma StoredAlone(log: Log, e: Event, now: int, hash: Event -> nat)
    requires e !in log.rows && MayFollow(Latest(log.rows, e.cycle, hash), e)
    requires OfWorkstream(e.kind) ==> GivenName(e) != ""
    requires !e.kind.CycleStarted? || log.rows == []
    ensures Stores(log, Request(e, true, now), hash) && Step(log, Request(e, true, now), hash).rows == log.rows + [e]
  {
    StoresIff(log, Request(e, true, now), hash);
  }

  lemma LatestAppend(rows: seq<Event>, e: Event, c: CycleId, hash: Event -> nat)
    ensures Latest(rows + [e], c, hash)
         == var before := Latest(rows, c, hash);
            if e.cycle != c then before else if before.None? || Later(e, before.value, hash) then Some(e) else before
  {
    assert (rows + [e])[..|rows|] == rows;
  }

  lemma FirstStored(hash: Event -> nat)
    ensures Step(EMPTY, Request(START, true, 10), hash) == Log([START], {})
    ensures Latest([START], 1, hash) == Some(START) && ByTime([START], 1, hash) == [START]
  {
    StoredAlone(EMPTY, START, 10, hash);
    LatestAppend([], START, 1, hash);
    ByTimeAppend([], START, 1, hash);
    assert [] + [START] == [START];
  }

  lemma RunTwo(log: Log, a: Request, b: Request, hash: Event -> nat)
    ensures Run(log, [a, b], hash) == Step(Step(log, a, hash), b, hash)
  {
    assert [a, b][1..] == [b] && [b][1..] == [];
    assert Run(Step(log, a, hash), [b], hash) == Step(Step(log, a, hash), b, hash);
  }

  /** Two accepted events with falling times leave a history that is no word. */
  lemma FallingTimesBreakHistory(hash: Event -> nat)
    ensures var log := Run(EMPTY, [Request(START, true, 10), Request(STOP, true, 10)], hash);
            && log.rows == [START, STOP] && ByTime(log.rows, 1, hash) == [STOP, START]
            && !IsWord(ByTime(log.rows, 1, hash))
  {
    RunTwo(EMPTY, Request(START, true, 10), Request(STOP, true, 10), hash);
    FirstStored(hash);
    StoredAlone(Log([START], {}), STOP, 10, hash);
    assert [START] + [STOP] == [START, STOP];
    StopComesFirst(hash);
  }

  lemma StopComesFirst(hash: Event -> nat)
    ensures ByTime([START] + [STOP], 1, hash) == [STOP, START] && !IsWord([STOP, START])
  {
    FirstStored(hash);
    ByTimeAppend([START], STOP, 1, hash);
    assert Insert([START], STOP, hash) == [STOP, START];
    assert !MayFollow(Before([STOP, START], 0), [STOP, START][0]);
  }

  lemma NameIsA(e: Event)
    requires e.payload == Reported(Some("a"), 0)
    ensures GivenName(e) == "a"
  {
    assert TrimLeft("a") == "a" && TrimRight("a") == "a";
  }

  /** The orphan: started and at work. */
  lemma AtWork(hash: Event -> nat)
    ensures Step(Log([START], {}), Request(WORK, true, 10), hash) == Log([START, WORK], {})
    ensures Latest([START, WORK], 1, hash) == Some(WORK) && Latest([START, WORK], 2, hash) == None
    ensures ByTime([START, WORK], 1, hash) == [START, WORK]
  {
    FirstStored(hash);
    NameIsA(WORK);
    StoredAlone(Log([START], {}), WORK, 10, hash);
    assert [START] + [WORK] == [START, WORK];
    LatestAppend([START], WORK, 1, hash);
    LatestAppend([], START, 2, hash);
    assert [] + [START] == [START];
    LatestAppend([START], WORK, 2, hash);
    ByTimeAppend([START], WORK, 1, hash);
  }

  lemma OrphanFound()
    ensures OrphanAmong([START, WORK], 2, 2, 15) == Some(START)
  {
    var rows := [START, WORK];
    assert forall e :: e in rows ==> e == START || e == WORK;
    assert rows[0] == START && rows[1] == WORK && !Ended(rows, 1);
    assert OrphanAmong(rows, 0, 2, 15) == None;
    assert OrphanAmong(rows, 1, 2, 15) == Some(START);
  }

  /** The orphan's history, once the replacement has closed it at a time before its last event. */
  lemma ClosedBetween(hash: Event -> nat)
    ensures ByTime([START, WORK] + [CLOSING] + [REPLACEMENT], 1, hash) == [START, CLOSING, WORK]
  {
    AtWork(hash);
    ByTimeAppend([START, WORK], CLOSING, 1, hash);
    ByTimeAppend([START, WORK] + [CLOSING], REPLACEMENT, 1, hash);
    assert [START, WORK][..1] == [START];
    assert Insert([START], CLOSING, hash) == [START, CLOSING];
  }

  /** The replacement closes the orphan at a time before the orphan's last event. */
  lemma Replaced(hash: Event -> nat)
    ensures Stores(Log([START, WORK], {}), Request(REPLACEMENT, true, 15), hash)
    ensures var log := Step(Log([START, WORK], {}), Request(REPLACEMENT, true, 15), hash);
            log.rows == [START, WORK] + [CLOSING] + [REPLACEMENT] && Latest(log.rows, 1, hash) == Some(WORK)
  {
    var log, rows := Log([START, WORK], {}), [START, WORK];
    AtWork(hash);
    OrphanFound();
    StoresIff(log, Request(REPLACEMENT, true, 15), hash);
    assert CLOSING !in rows;
    assert WithOrphanClosed(log, REPLACEMENT, 15).rows == rows + [CLOSING];
    LatestAppend(rows, CLOSING, 1, hash);
    LatestAppend(rows + [CLOSING], REPLACEMENT, 1, hash);
  }

  lemma BrokenByDone(rows: seq<Event>, hash: Event -> nat)
    requires ByTime(rows, 1, hash) == [START, CLOSING, WORK]
    ensures ByTime(rows + [DONE], 1, hash) == [START, CLOSING, WORK, DONE]
    ensures !IsWord([START, CLOSING, WORK, DONE])
  {
    ByTimeAppend(rows, DONE, 1, hash);
    assert [START, CLOSING, WORK] + [DONE] == [START, CLOSING, WORK, DONE];
    assert !MayFollow(Before([START, CLOSING, WORK, DONE], 2), [START, CLOSING, WORK, DONE][2]);
  }

  lemma WorkingLog(hash: Event -> nat)
    ensures Run(EMPTY, [Request(START, true, 10), Request(WORK, true, 10)], hash) == Log([START, WORK], {})
  {
    FirstStored(hash);
    AtWork(hash);
    RunTwo(EMPTY, Request(START, true, 10), Request(WORK, true, 10), hash);
  }

  lemma DoneIsStored(closed: Log, hash: Event -> nat)
    requires closed.rows == [START, WORK] + [CLOSING] + [REPLACEMENT] && Latest(closed.rows, 1, hash) == Some(WORK)
    ensures Stores(closed, Request(DONE, true, 25), hash)
    ensures Step(closed, Request(DONE, true, 25), hash).rows == closed.rows + [DONE]
  {
    NameIsA(DONE);
    StoredAlone(closed, DONE, 25, hash);
  }

  /**
   A cycle closed by a replacement whose time lies before the cycle's last event goes on: the completion
   of its workstream is accepted, and its history by time is no word.
   */
  lemma LateClosingGoesOn(hash: Event -> nat)
    ensures var working := Run(EMPTY, [Request(START, true, 10), Request(WORK, true, 10)], hash);
            var closed := Step(working, Request(REPLACEMENT, true, 15), hash);
            && OrphanOf(working, REPLACEMENT, 15) == Some(1) && CLOSING in closed.rows
            && Stores(closed, Request(DONE, true, 25), hash)
            && var rows := Step(closed, Request(DONE, true, 25), hash).rows;
            ByTime(rows, 1, hash) == [START, CLOSING, WORK, DONE] && !IsWord(ByTime(rows, 1, hash))
  {
    WorkingLog(hash);
    OrphanFound();
    Replaced(hash);
    ClosedBetween(hash);
    var closed := Step(Log([START, WORK], {}), Request(REPLACEMENT, true, 15), hash);
    DoneIsStored(closed, hash);
    BrokenByDone(closed.rows, hash);
  }

  // ----------------------------------------------------------------------------- a cycle that completes

  const COMPLETED := Event(1, CycleCompleted, 30, Reported(None, 0))

  lemma DoneIsLatest(hash: Event -> nat)
    ensures [START, WORK] + [DONE] == [START, WORK, DONE]
    ensures Latest([START, WORK, DONE], 1, hash) == Some(DONE)
    ensures ByTime([START, WORK, DONE], 1, hash) == [START, WORK, DONE]
  {
    AtWork(hash);
    assert [START, WORK] + [DONE] == [START, WORK, DONE];
    LatestAppend([START, WORK], DONE, 1, hash);
    ByTimeAppend([START, WORK], DONE, 1, hash);
  }

  lemma DoneStored(hash: Event -> nat)
    ensures Step(Log([START, WORK], {}), Request(DONE, true, 10), hash).rows == [START, WORK] + [DONE]
  {
    AtWork(hash);
    NameIsA(DONE);
    assert DONE !in [START, WORK];
    StoredAlone(Log([START, WORK], {}), DONE, 10, hash);
  }

  lemma CompletedStored(done: Log, hash: Event -> nat)
    requires done.rows == [START, WORK, DONE]
    ensures Stores(done, Request(COMPLETED, true, 10), hash)
    ensures Step(done, Request(COMPLETED, true, 10), hash).rows == done.rows + [COMPLETED]
    ensures ByTime(done.rows + [COMPLETED], 1, hash) == done.rows + [COMPLETED]
  {
    DoneIsLatest(hash);
    assert COMPLETED !in done.rows;
    StoredAlone(done, COMPLETED, 10, hash);
    ByTimeAppend(done.rows, COMPLETED, 1, hash);
  }

  lemma CompletedInLanguage()
    ensures InLanguage([START, WORK, DONE] + [COMPLETED])
  {
    NameIsA(DONE);
    var work := Workstream(WORK, DONE);
    var p := Parts(START, [work], [], [COMPLETED], []);
    EventsAppend([], work);
    assert [] + [work] == [work] && Events([]) == [];
    assert SameWorkstream(WORK, DONE);
    assert WellFormed(p);
    assert Joined(p) == [START, WORK, DONE] + [COMPLETED];
  }

  /** A start, a workstream's start and completion and the cycle's completion are all stored, in this order. */
  lemma CycleCompletes(hash: Event -> nat)
    ensures var working := Run(EMPTY, [Request(START, true, 10), Request(WORK, true, 10)], hash);
            var done := Step(working, Request(DONE, true, 10), hash);
            && Stores(done, Request(COMPLETED, true, 10), hash)
            && var rows := Step(done, Request(COMPLETED, true, 10), hash).rows;
            rows == [START, WORK, DONE] + [COMPLETED] && ByTime(rows, 1, hash) == rows && InLanguage(rows)
  {
    WorkingLog(hash);
    DoneStored(hash);
    DoneIsLatest(hash);
    CompletedStored(Step(Log([START, WORK], {}), Request(DONE, true, 10), hash), hash);
    CompletedInLanguage();
  }
}
