/**
 The autonomous worker's event log: an append-only table of events whose ids are derived from their
 contents, a transition automaton per cycle, replay detection, and the closing of an orphaned cycle when
 its replacement starts.
 */
module WorkerLog {
  import opened Options
  import opened Texts

  type CycleId = nat

  datatype Kind =
    | PreflightFailed | CycleStarted | WorkstreamStarted | WorkstreamCompleted | WorkstreamFailed
    | CycleCompleted | CycleFailed | WorkerStopped

  /** A reported payload with its workstream text as stored, or the payload of a synthetic failure. */
  datatype Payload = Reported(workstream: Option<string>, rest: nat) | Orphaned(replacement: CycleId)

  /** An event's id is a hash of exactly these fields, so the event stands for its id. */
  datatype Event = Event(cycle: CycleId, kind: Kind, at: int, payload: Payload)

  datatype Refusal = FenceLost | WorkstreamRequired | TransitionInvalid | WorkstreamMismatch

  /** The event rows, in the order they were inserted, and the events with a failure row. */
  datatype Log = Log(rows: seq<Event>, failures: set<Event>)

  datatype Outcome = Persisted(log: Log, replayed: bool, resumed: Option<CycleId>) | Refused(refusal: Refusal)

  const WINDOW_MILLISECONDS := 6 * 60 * 60 * 1_000

  function StoredName(e: Event): Option<string> {
    if e.payload.Reported? then e.payload.workstream else None
  }

  /** The trimmed name a writer gives; a row keeps the name untrimmed. */
  function GivenName(e: Event): string {
    if StoredName(e).Some? then Trim(StoredName(e).value) else ""
  }

  predicate OfWorkstream(kind: Kind) {
    kind.WorkstreamStarted? || kind.WorkstreamCompleted? || kind.WorkstreamFailed?
  }

  predicate Finishes(kind: Kind) {
    kind.WorkstreamCompleted? || kind.WorkstreamFailed?
  }

  predicate Terminal(kind: Kind) {
    kind.CycleCompleted? || kind.CycleFailed? || kind.WorkerStopped?
  }

  predicate Failed(kind: Kind) {
    kind.PreflightFailed? || kind.WorkstreamFailed? || kind.CycleFailed?
  }

  predicate Allowed(previous: Option<Kind>, next: Kind) {
    match previous
    case None => next.CycleStarted? || next.PreflightFailed?
    case Some(PreflightFailed) => false
    case Some(WorkerStopped) => false
    case Some(CycleStarted) => next.WorkerStopped? || next.WorkstreamStarted? || next.CycleFailed?
    case Some(WorkstreamStarted) =>
      next.WorkerStopped? || next.WorkstreamCompleted? || next.WorkstreamFailed? || next.CycleFailed?
    case Some(WorkstreamCompleted) =>
      next.WorkerStopped? || next.WorkstreamStarted? || next.CycleCompleted? || next.CycleFailed?
    case Some(WorkstreamFailed) => next.WorkerStopped? || next.CycleFailed?
    case Some(CycleCompleted) => next.WorkerStopped?
    case Some(CycleFailed) => next.WorkerStopped?
  }

  function KindOf(e: Option<Event>): Option<Kind> {
    if e.Some? then Some(e.value.kind) else None
  }

  /** The check on a new event against the cycle's latest one: the automaton, and the same workstream name. */
  predicate MayFollow(previous: Option<Event>, e: Event) {
    && Allowed(KindOf(previous), e.kind)
    && (Finishes(e.kind) && previous.Some? && previous.value.kind.WorkstreamStarted? ==>
          StoredName(previous.value) == Some(GivenName(e)))
  }

  /** Newest first by time, then by hashed id. */
  predicate Later(a: Event, b: Event, hash: Event -> nat) {
    a.at > b.at || (a.at == b.at && hash(a) >= hash(b))
  }

  /** The cycle's latest event. */
  function Latest(rows: seq<Event>, c: CycleId, hash: Event -> nat): Option<Event> {
    if rows == [] then None
    else
      var before, e := Latest(rows[..|rows| - 1], c, hash), rows[|rows| - 1];
      if e.cycle != c then before
      else if before.None? || Later(e, before.value, hash) then Some(e)
      else before
  }

  predicate Ended(rows: seq<Event>, c: CycleId) {
    exists e :: e in rows && e.cycle == c && Terminal(e.kind)
  }

  /** A cycle start inside the window whose cycle has no terminal event. */
  predicate ActiveStart(rows: seq<Event>, e: Event, now: int) {
    e in rows && e.kind.CycleStarted? && e.at >= now - WINDOW_MILLISECONDS && !Ended(rows, e.cycle)
  }

  /** The latest active start of another cycle among the first `n` rows. */
  function OrphanAmong(rows: seq<Event>, n: nat, c: CycleId, now: int): Option<Event>
    requires n <= |rows|
  {
    if n == 0 then None
    else
      var before, e := OrphanAmong(rows, n - 1, c, now), rows[n - 1];
      if e.cycle != c && ActiveStart(rows, e, now) && (before.None? || e.at >= before.value.at) then Some(e) else before
  }

  function Append(log: Log, e: Event): Log {
    if e in log.rows then log
    else Log(log.rows + [e], if Failed(e.kind) then log.failures + {e} else log.failures)
  }

  function ClosingEvent(orphan: CycleId, e: Event): Event {
    Event(orphan, CycleFailed, e.at, Orphaned(e.cycle))
  }

  /** The log with the orphan, if there is one, closed at the new event's time. */
  function WithOrphanClosed(log: Log, e: Event, now: int): Log {
    var orphan := OrphanAmong(log.rows, |log.rows|, e.cycle, now);
    if e.kind.CycleStarted? && orphan.Some? then Append(log, ClosingEvent(orphan.value.cycle, e)) else log
  }

  function OrphanOf(log: Log, e: Event, now: int): Option<CycleId> {
    var orphan := OrphanAmong(log.rows, |log.rows|, e.cycle, now);
    if e.kind.CycleStarted? && orphan.Some? then Some(orphan.value.cycle) else None
  }

  /**
   One transaction: the fence (held, or none was asked for), the name, the replay, the orphan, the
   transition, the insert.
   */
  function Persist(log: Log, e: Event, fenceHeld: bool, now: int, hash: Event -> nat): Outcome {
    if !fenceHeld then Refused(FenceLost)
    else if OfWorkstream(e.kind) && GivenName(e) == "" then Refused(WorkstreamRequired)
    else if e in log.rows then Persisted(log, true, None)
    else
      var closed := WithOrphanClosed(log, e, now);
      var previous := Latest(closed.rows, e.cycle, hash);
      if !Allowed(KindOf(previous), e.kind) then Refused(TransitionInvalid)
      else if !MayFollow(previous, e) then Refused(WorkstreamMismatch)
      else Persisted(Append(closed, e), false, OrphanOf(log, e, now))
  }

  function After(log: Log, outcome: Outcome): Log {
    if outcome.Persisted? then outcome.log else log
  }

  /** The table and the transaction on it, statement by statement. */
  class Table {
    var rows: seq<Event>
    var failures: set<Event>
    const hash: Event -> nat

    constructor (hash: Event -> nat)
      ensures Contents() == Log([], {}) && this.hash == hash
    {
      rows, failures, this.hash := [], {}, hash;
    }

    function Contents(): Log
      reads this
    {
      Log(rows, failures)
    }

    method Insert(e: Event)
      modifies this
      ensures Contents() == Append(old(Contents()), e)
    {
      if e !in rows {
        rows := rows + [e];
        if Failed(e.kind) {
          failures := failures + {e};
        }
      }
    }

    method SelectLatest(c: CycleId) returns (latest: Option<Event>)
      ensures latest == Latest(rows, c, hash)
    {
      latest := None;
      var n := 0;
      while n < |rows|
        invariant 0 <= n <= |rows|
        invariant latest == Latest(rows[..n], c, hash)
      {
        assert rows[..n + 1][..n] == rows[..n];
        if rows[n].cycle == c && (latest.None? || Later(rows[n], latest.value, hash)) {
          latest := Some(rows[n]);
        }
        n := n + 1;
      }
      assert rows[..n] == rows;
    }

    method SelectOrphan(c: CycleId, now: int) returns (orphan: Option<Event>)
      ensures orphan == OrphanAmong(rows, |rows|, c, now)
    {
      orphan := None;
      var n := 0;
      while n < |rows|
        invariant 0 <= n <= |rows|
        invariant orphan == OrphanAmong(rows, n, c, now)
      {
        if rows[n].cycle != c && ActiveStart(rows, rows[n], now) && (orphan.None? || rows[n].at >= orphan.value.at) {
          orphan := Some(rows[n]);
        }
        n := n + 1;
      }
    }

    method PersistEvent(e: Event, fenceHeld: bool, now: int) returns (outcome: Outcome)
      modifies this
      ensures outcome == Persist(old(Contents()), e, fenceHeld, now, hash)
      ensures Contents() == After(old(Contents()), outcome)
    {
      if !fenceHeld {
        return Refused(FenceLost);
      }
      if OfWorkstream(e.kind) && GivenName(e) == "" {
        return Refused(WorkstreamRequired);
      }
      if e in rows {
        return Persisted(Contents(), true, None);
      }
      var savedRows, savedFailures := rows, failures;
      var resumed: Option<CycleId> := None;
      if e.kind.CycleStarted? {
        var orphan := SelectOrphan(e.cycle, now);
        if orphan.Some? {
          resumed := Some(orphan.value.cycle);
          Insert(ClosingEvent(orphan.value.cycle, e));
        }
      }
      var previous := SelectLatest(e.cycle);
      if !Allowed(KindOf(previous), e.kind) {
        rows, failures := savedRows, savedFailures;
        return Refused(TransitionInvalid);
      }
      if Finishes(e.kind) && previous.Some? && previous.value.kind.WorkstreamStarted?
         && StoredName(previous.value) != Some(GivenName(e)) {
        rows, failures := savedRows, savedFailures;
        return Refused(WorkstreamMismatch);
      }
      Insert(e);
      return Persisted(Contents(), false, resumed);
    }
  }
}
