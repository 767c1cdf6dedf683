/**
 The language of a cycle's history, without the automaton that checks it event by event: a start, finished
 workstreams in pairs, at most one unfinished or failed workstream, an end, and a stop.
 */
module WorkerLanguage {
  import opened Options
  import opened Texts
  import opened WorkerLog
  import opened WorkerRuns
  import opened WorkerHistory

  // ------------------------------------------------------------------------------------ the language

  /** A workstream's end names the workstream its start was stored under. */
  predicate SameWorkstream(start: Event, end: Event) {
    StoredName(start) == Some(GivenName(end))
  }

  datatype Workstream = Workstream(start: Event, end: Event)

  /** Workstreams, each started and completed. */
  predicate Finished(done: seq<Workstream>) {
    forall k :: 0 <= k < |done| ==>
                  && done[k].start.kind == WorkstreamStarted && done[k].end.kind == WorkstreamCompleted
                  && SameWorkstream(done[k].start, done[k].end)
  }

  /** Their events, one workstream after the other. */
  function Events(done: seq<Workstream>): seq<Event> {
    if done == [] then []
    else Events(done[..|done| - 1]) + [done[|done| - 1].start, done[|done| - 1].end]
  }

  /** After the finished workstreams: nothing, or one that is under way, or one that failed. */
  predicate Last(h: seq<Event>) {
    || h == []
    || (|h| == 1 && h[0].kind == WorkstreamStarted)
    || (|h| == 2 && h[0].kind == WorkstreamStarted && h[1].kind == WorkstreamFailed && SameWorkstream(h[0], h[1]))
  }

  /** The cycle is not ended yet, or failed, or completed, which takes a finished workstream and nothing open. */
  predicate Ending(done: seq<Workstream>, last: seq<Event>, end: seq<Event>) {
    || end == []
    || (|end| == 1 && end[0].kind == CycleFailed)
    || (|end| == 1 && end[0].kind == CycleCompleted && done != [] && last == [])
  }

  predicate Stop(h: seq<Event>) {
    h == [] || (|h| == 1 && h[0].kind == WorkerStopped)
  }

  datatype Parts = Parts(
    start: Event, done: seq<Workstream>, last: seq<Event>, end: seq<Event>, stop: seq<Event>)

  predicate WellFormed(p: Parts) {
    p.start.kind == CycleStarted && Finished(p.done) && Last(p.last) && Ending(p.done, p.last, p.end) && Stop(p.stop)
  }

  function Joined(p: Parts): seq<Event> {
    [p.start] + Events(p.done) + p.last + p.end + p.stop
  }

  /** Nothing, a failed preflight alone, or a cycle made of well-formed parts. */
  ghost predicate InLanguage(h: seq<Event>) {
    || h == []
    || (|h| == 1 && h[0].kind == PreflightFailed)
    || exists p :: WellFormed(p) && Joined(p) == h
  }

  // ------------------------------------------------------------------------- words are the language

  /** The parts of a word, with one event more. */
  lemma WithNext(p: Parts, e: Event) returns (q: Parts)
    requires WellFormed(p) && MayFollow(Some(LastOf(p)), e)
    ensures WellFormed(q) && Joined(q) == Joined(p) + [e]
  {
    if e.kind == WorkerStopped {
      q := p.(stop := [e]);
    } else if e.kind == CycleFailed || e.kind == CycleCompleted {
      q := p.(end := [e]);
    } else if e.kind == WorkstreamCompleted {
      q := WithCompletion(p, e);
    } else {
      q := p.(last := p.last + [e]);
    }
  }

  lemma WithCompletion(p: Parts, e: Event) returns (q: Parts)
    requires WellFormed(p) && MayFollow(Some(LastOf(p)), e) && e.kind == WorkstreamCompleted
    ensures WellFormed(q) && Joined(q) == Joined(p) + [e]
  {
    assert p.stop == [] && p.end == [] && |p.last| == 1;
    var next := Workstream(p.last[0], e);
    assert p.last == [next.start];
    q := p.(done := p.done + [next], last := []);
    EventsAppend(p.done, next);
  }

  lemma EventsAppend(done: seq<Workstream>, next: Workstream)
    ensures Events(done + [next]) == Events(done) + [next.start, next.end]
  {
    assert (done + [next])[..|done|] == done;
  }

  function LastOf(p: Parts): Event {
    if p.stop != [] then p.stop[|p.stop| - 1]
    else if p.end != [] then p.end[|p.end| - 1]
    else if p.last != [] then p.last[|p.last| - 1]
    else if p.done != [] then p.done[|p.done| - 1].end
    else p.start
  }

  lemma LastIsLast(p: Parts)
    ensures Joined(p)[|Joined(p)| - 1] == LastOf(p)
  {
  }

  lemma FirstPart(e: Event) returns (p: Parts)
    requires e.kind == CycleStarted
    ensures WellFormed(p) && Joined(p) == [e]
  {
    p := Parts(e, [], [], [], []);
  }

  /** Every word is in the language. */
  lemma {:induction false} WordInLanguage(h: seq<Event>)
    requires IsWord(h)
    ensures InLanguage(h)
    decreases |h|
  {
    if h != [] {
      var front, e := h[..|h| - 1], h[|h| - 1];
      assert h == front + [e];
      FrontIsWord(h);
      WordInLanguage(front);
      assert MayFollow(Before(h, |h| - 1), e);
      if front == [] {
        if e.kind == CycleStarted {
          var p := FirstPart(e);
        }
      } else if p :| WellFormed(p) && Joined(p) == front {
        LastIsLast(p);
        var q := WithNext(p, e);
      }
    }
  }

  lemma FrontIsWord(h: seq<Event>)
    requires IsWord(h) && h != []
    ensures IsWord(h[..|h| - 1])
  {
    var front := h[..|h| - 1];
    forall n | 0 <= n < |front|
      ensures MayFollow(Before(front, n), front[n])
    {
      assert Before(front, n) == Before(h, n) && front[n] == h[n];
    }
  }

  /** Every well-formed cycle is a word, part by part. */
  lemma PartsAreWord(p: Parts)
    requires WellFormed(p)
    ensures IsWord(Joined(p))
  {
    var started := [p.start];
    assert Before(started, 0) == None;
    DoneExtends(started, p.done);
    var done := started + Events(p.done);
    LastExtends(done, p.last);
    var open := done + p.last;
    if p.end != [] {
      WordAppend(open, p.end[0]);
      assert p.end == [p.end[0]];
    } else {
      assert open + p.end == open;
    }
    var ended := open + p.end;
    if p.stop != [] {
      assert MayFollow(Before(ended, |ended|), p.stop[0]);
      WordAppend(ended, p.stop[0]);
      assert p.stop == [p.stop[0]];
    } else {
      assert ended + p.stop == ended;
    }
  }

  /** Finished workstreams may follow a start or a completion, and end in a completion. */
  lemma {:induction false} DoneExtends(h: seq<Event>, done: seq<Workstream>)
    requires IsWord(h) && h != [] && Finished(done)
    requires h[|h| - 1].kind == CycleStarted || h[|h| - 1].kind == WorkstreamCompleted
    ensures IsWord(h + Events(done))
    ensures done != [] ==> (h + Events(done))[|h + Events(done)| - 1].kind == WorkstreamCompleted
  {
    if done == [] {
      assert h + Events(done) == h;
    } else {
      var front, next := done[..|done| - 1], done[|done| - 1];
      DoneExtends(h, front);
      var before := h + Events(front);
      WordAppend(before, next.start);
      WordAppend(before + [next.start], next.end);
      assert h + Events(done) == before + [next.start] + [next.end];
    }
  }

  lemma LastExtends(h: seq<Event>, last: seq<Event>)
    requires IsWord(h) && h != [] && Last(last)
    requires h[|h| - 1].kind == CycleStarted || h[|h| - 1].kind == WorkstreamCompleted
    ensures IsWord(h + last)
  {
    if last == [] {
      assert h + last == h;
    } else {
      WordAppend(h, last[0]);
      if |last| == 1 {
        assert h + last == h + [last[0]];
      } else {
        WordAppend(h + [last[0]], last[1]);
        assert h + last == h + [last[0]] + [last[1]];
      }
    }
  }

  /** A history is accepted event by event exactly when it is in the language. */
  lemma WordsAreLanguage(h: seq<Event>)
    ensures IsWord(h) <==> InLanguage(h)
  {
    if IsWord(h) {
      WordInLanguage(h);
    }
    if InLanguage(h) {
      if p :| WellFormed(p) && Joined(p) == h {
        PartsAreWord(p);
      } else {
        ShortIsWord(h);
      }
    }
  }

  lemma ShortIsWord(h: seq<Event>)
    requires h == [] || (|h| == 1 && h[0].kind == PreflightFailed)
    ensures IsWord(h)
  {
    assert h != [] ==> Before(h, 0) == None;
  }

  // ------------------------------------------------------------------------------- what is accepted

  /**
   Over a log whose histories are in the language, a new event later than its cycle's rows is stored
   exactly under a held fence, with its workstream named if it is of one, and when its history stays in the
   language.
   */
  lemma StoredIffInLanguage(log: Log, request: Request, hash: Event -> nat)
    requires forall c :: InLanguage(ByTime(log.rows, c, hash))
    requires request.event !in log.rows && LaterThanCycle(log.rows, request.event, hash)
    ensures Stores(log, request, hash)
       <==> && request.fenceHeld
            && (request.event.kind in {WorkstreamStarted, WorkstreamCompleted, WorkstreamFailed} ==>
                  GivenName(request.event) != "")
            && InLanguage(ByTime(log.rows, request.event.cycle, hash) + [request.event])
  {
    var e, h := request.event, ByTime(log.rows, request.event.cycle, hash);
    WordsAreLanguage(h);
    WordsAreLanguage(h + [e]);
    StoresIff(log, request, hash);
    LatestIsLast(log.rows, e.cycle, hash);
    ExtendsIff(h, e);
  }

  lemma ExtendsIff(h: seq<Event>, e: Event)
    requires IsWord(h)
    ensures IsWord(h + [e]) <==> MayFollow(Before(h, |h|), e)
  {
    var longer := h + [e];
    assert Before(longer, |h|) == Before(h, |h|) && longer[|h|] == e;
    if MayFollow(Before(h, |h|), e) {
      WordAppend(h, e);
    }
  }

  /** Over every run whose events come in order, every cycle's history is in the language. */
  lemma HistoriesAreInLanguage(requests: seq<Request>, hash: Event -> nat, c: CycleId)
    requires StoresInOrder(EMPTY, requests, hash)
    ensures InLanguage(ByTime(Run(EMPTY, requests, hash).rows, c, hash))
  {
    HistoriesAreWords(requests, hash, c);
    WordsAreLanguage(ByTime(Run(EMPTY, requests, hash).rows, c, hash));
  }
}
