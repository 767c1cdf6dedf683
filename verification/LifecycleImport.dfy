/**
 Importing decision lifecycle rows: each row is emitted under a candidate, deferred or reported as an
 issue; a candidate's rows are numbered in time order and the last one gives its status.
 */
module LifecycleImport {
  import opened Options
  import opened Sorting

  type EventId = nat
  type DecisionId = nat
  type CandidateId = nat
  type RunId = nat
  type Status = nat

  /** A source row; an unknown status text has no status, and reason codes may fail to be texts. */
  datatype Row = Row(event: EventId, decision: DecisionId, status: Option<Status>, at: int, reasonsAreTexts: bool,
                     rest: nat)

  /** The request and correlation ids of a decision or a run. */
  datatype Trace = Trace(request: Option<nat>, correlation: Option<nat>)

  datatype Decision = Decision(candidate: Option<CandidateId>, fromReviewArtifact: bool, entry: bool, trace: Trace)

  datatype Candidate = Candidate(id: CandidateId, decision: Option<DecisionId>, run: RunId, status: Status)

  datatype Problem = StatusUnknown | DecisionUnlinked | CandidateLinkConflict | DecisionCandidateMismatch

  datatype Verdict = Emit(candidate: CandidateId) | Defer | Report(problem: Problem) | Invalid

  /** A row as it is written for its candidate. */
  datatype Emitted = Emitted(source: Row, candidate: CandidateId, sequence: nat, prior: Option<Status>,
                             status: Status, trace: Trace)

  datatype Issue = Issue(source: Row, problem: Problem)

  /** What rows are classified and traced against. */
  datatype Context = Context(decisions: map<DecisionId, Decision>, known: map<CandidateId, Candidate>,
                             runs: map<RunId, Trace>)

  datatype Import = Import(events: seq<Emitted>, deferred: seq<Row>, issues: seq<Issue>, candidates: seq<Candidate>)

  function Classify(row: Row, ctx: Context): Verdict {
    if row.status.None? then Report(StatusUnknown)
    else if row.decision !in ctx.decisions then Report(DecisionUnlinked)
    else
      var decision := ctx.decisions[row.decision];
      if decision.candidate.None? then Defer
      else if decision.candidate.value !in ctx.known then
        if decision.fromReviewArtifact && decision.entry then Defer else Report(CandidateLinkConflict)
      else
        var candidate := ctx.known[decision.candidate.value];
        if candidate.decision != Some(row.decision) then Report(DecisionCandidateMismatch)
        else if !row.reasonsAreTexts then Invalid
        else Emit(decision.candidate.value)
  }

  predicate Earlier(a: Row, b: Row) {
    a.at < b.at || (a.at == b.at && a.event <= b.event)
  }

  function InTimeOrder(rows: seq<Row>): seq<Row> {
    Sort(rows, (a, b) => Earlier(a, b))
  }

  function OrElse(a: Option<nat>, b: Option<nat>): Option<nat> {
    if a.Some? then a else b
  }

  /** The decision's ids, and the run's where the decision has none. */
  function TraceOf(row: Row, run: RunId, ctx: Context): Trace {
    var own := if row.decision in ctx.decisions then ctx.decisions[row.decision].trace else Trace(None, None);
    var ofRun := if run in ctx.runs then ctx.runs[run] else Trace(None, None);
    Trace(OrElse(own.request, ofRun.request), OrElse(own.correlation, ofRun.correlation))
  }

  /** Consecutive numbers, each row's prior status the status of the row before it. */
  function Sequenced(c: CandidateId, rows: seq<Row>, trace: Row -> Trace): seq<Emitted> {
    if rows == [] then []
    else
      var n := |rows| - 1;
      Sequenced(c, rows[..n], trace)
      + [Emitted(rows[n], c, n, LastStatus(rows[..n]), StatusOf(rows[n]), trace(rows[n]))]
  }

  function Tracing(c: Candidate, ctx: Context): Row -> Trace {
    (row: Row) => TraceOf(row, c.run, ctx)
  }

  function SequencedFor(c: Candidate, rows: seq<Row>, ctx: Context): seq<Emitted> {
    Sequenced(c.id, InTimeOrder(EmittedUnder(rows, ctx, c.id)), Tracing(c, ctx))
  }

  function StatusOf(row: Row): Status {
    if row.status.Some? then row.status.value else 0
  }

  function LastStatus(rows: seq<Row>): Option<Status> {
    if rows == [] then None else Some(StatusOf(rows[|rows| - 1]))
  }

  function Select(rows: seq<Row>, wanted: Row -> bool): seq<Row> {
    if rows == [] then []
    else Select(rows[..|rows| - 1], wanted) + if wanted(rows[|rows| - 1]) then [rows[|rows| - 1]] else []
  }

  // ------------------------------------------------------------------------------------ the program

  function ById(candidates: seq<Candidate>): map<CandidateId, Candidate> {
    if candidates == [] then map[]
    else ById(candidates[..|candidates| - 1])[candidates[|candidates| - 1].id := candidates[|candidates| - 1]]
  }

  function EmittedUnder(rows: seq<Row>, ctx: Context, c: CandidateId): seq<Row> {
    Select(rows, (row: Row) => Classify(row, ctx) == Emit(c))
  }

  function Deferred(rows: seq<Row>, ctx: Context): seq<Row> {
    Select(rows, (row: Row) => Classify(row, ctx).Defer?)
  }

  function Reported(rows: seq<Row>, ctx: Context): seq<Row> {
    Select(rows, (row: Row) => Classify(row, ctx).Report?)
  }

  /** The reported rows with their problems. */
  function Issues(rows: seq<Row>, ctx: Context): seq<Issue> {
    if rows == [] then []
    else
      var row := rows[|rows| - 1];
      Issues(rows[..|rows| - 1], ctx)
      + if Classify(row, ctx).Report? then [Issue(row, Classify(row, ctx).problem)] else []
  }

  function EventsOf(candidates: seq<Candidate>, rows: seq<Row>, ctx: Context): seq<Emitted> {
    if candidates == [] then []
    else
      var c := candidates[|candidates| - 1];
      EventsOf(candidates[..|candidates| - 1], rows, ctx)
      + SequencedFor(c, rows, ctx)
  }

  function WithStatus(c: Candidate, rows: seq<Row>, ctx: Context): Candidate {
    var last := LastStatus(InTimeOrder(EmittedUnder(rows, ctx, c.id)));
    if last.Some? then c.(status := last.value) else c
  }

  function Sources(issues: seq<Issue>): seq<Row> {
    seq(|issues|, n requires 0 <= n < |issues| => issues[n].source)
  }

  function EventSources(events: seq<Emitted>): seq<Row> {
    seq(|events|, n requires 0 <= n < |events| => events[n].source)
  }

  /** The three places a classified row can go, after some of the rows. */
  ghost predicate Placed(byCandidate: map<CandidateId, seq<Row>>, deferred: seq<Row>, issues: seq<Issue>,
                         rows: seq<Row>, ctx: Context) {
    && deferred == Deferred(rows, ctx)
    && issues == Issues(rows, ctx)
    && forall c :: RowsUnder(byCandidate, c) == EmittedUnder(rows, ctx, c)
  }

  lemma PlaceRow(byCandidate: map<CandidateId, seq<Row>>, deferred: seq<Row>, issues: seq<Issue>, front: seq<Row>,
                 row: Row,
                 ctx: Context)
    requires Placed(byCandidate, deferred, issues, front, ctx) && !Classify(row, ctx).Invalid?
    ensures match Classify(row, ctx)
            case Report(problem) => Placed(byCandidate, deferred, issues + [Issue(row, problem)], front + [row], ctx)
            case Defer => Placed(byCandidate, deferred + [row], issues, front + [row], ctx)
            case Emit(c) =>
              Placed(byCandidate[c := RowsUnder(byCandidate, c) + [row]], deferred, issues, front + [row], ctx)
            case Invalid => true
  {
    assert (front + [row])[..|front|] == front;
    if Classify(row, ctx).Emit? {
      var c := Classify(row, ctx).candidate;
      var after := byCandidate[c := RowsUnder(byCandidate, c) + [row]];
      forall d
        ensures RowsUnder(after, d) == EmittedUnder(front + [row], ctx, d)
      {
        assert RowsUnder(byCandidate, d) == EmittedUnder(front, ctx, d);
      }
    }
  }

  /** The loop over the source rows. */
  method ClassifyRows(rows: seq<Row>, ctx: Context)
    returns (valid: bool, byCandidate: map<CandidateId, seq<Row>>, deferred: seq<Row>, issues: seq<Issue>)
    ensures valid <==> forall row :: row in rows ==> !Classify(row, ctx).Invalid?
    ensures valid ==> Placed(byCandidate, deferred, issues, rows, ctx)
  {
    byCandidate, deferred, issues := map[], [], [];
    var n := 0;
    while n < |rows|
      invariant 0 <= n <= |rows|
      invariant forall row :: row in rows[..n] ==> !Classify(row, ctx).Invalid?
      invariant Placed(byCandidate, deferred, issues, rows[..n], ctx)
    {
      var row := rows[n];
      assert rows[..n + 1] == rows[..n] + [row];
      if Classify(row, ctx).Invalid? {
        assert row in rows;
        return false, byCandidate, deferred, issues;
      }
      PlaceRow(byCandidate, deferred, issues, rows[..n], row, ctx);
      match Classify(row, ctx) {
        case Report(problem) =>
          issues := issues + [Issue(row, problem)];
        case Defer =>
          deferred := deferred + [row];
        case Emit(c) =>
          byCandidate := byCandidate[c := RowsUnder(byCandidate, c) + [row]];
      }
      n := n + 1;
    }
    assert rows[..n] == rows;
    valid := true;
  }

  /** The candidates and events after the first of the candidates. */
  ghost predicate Numbered(events: seq<Emitted>, updated: seq<Candidate>, candidates: seq<Candidate>, rows: seq<Row>,
                           ctx: Context) {
    && events == EventsOf(candidates, rows, ctx) && |updated| == |candidates|
    && forall n :: 0 <= n < |candidates| ==> updated[n] == WithStatus(candidates[n], rows, ctx)
  }

  lemma NumberOne(events: seq<Emitted>, updated: seq<Candidate>, front: seq<Candidate>, c: Candidate, rows: seq<Row>,
                  ctx: Context)
    requires Numbered(events, updated, front, rows, ctx)
    ensures Numbered(events + SequencedFor(c, rows, ctx), updated + [WithStatus(c, rows, ctx)], front + [c], rows, ctx)
  {
    assert (front + [c])[..|front|] == front;
  }

  /** The loop over the candidates: number the rows and keep the last status. */
  method NumberCandidates(candidates: seq<Candidate>, byCandidate: map<CandidateId, seq<Row>>, rows: seq<Row>,
                          ctx: Context)
    returns (events: seq<Emitted>, updated: seq<Candidate>)
    requires forall c :: RowsUnder(byCandidate, c) == EmittedUnder(rows, ctx, c)
    ensures Numbered(events, updated, candidates, rows, ctx)
  {
    events, updated := [], [];
    var n := 0;
    while n < |candidates|
      invariant 0 <= n <= |candidates| && Numbered(events, updated, candidates[..n], rows, ctx)
    {
      var c := candidates[n];
      var numbered, prior := Number(c, InTimeOrder(RowsUnder(byCandidate, c.id)), ctx);
      NumberOne(events, updated, candidates[..n], c, rows, ctx);
      assert candidates[..n + 1] == candidates[..n] + [c];
      events := events + numbered;
      updated := updated + [if prior.Some? then c.(status := prior.value) else c];
      n := n + 1;
    }
    assert candidates[..n] == candidates;
  }

  /** First classifies every row, then numbers each candidate's rows and updates its status. */
  method ReadLifecycle(rows: seq<Row>, decisions: map<DecisionId, Decision>, runs: map<RunId, Trace>,
                       candidates: seq<Candidate>)
    returns (result: Option<Import>)
    ensures var ctx := Context(decisions, ById(candidates), runs);
            && (result.Some? <==> forall row :: row in rows ==> !Classify(row, ctx).Invalid?)
            && (result.Some? ==>
                  && result.value.events == EventsOf(candidates, rows, ctx)
                  && result.value.deferred == Deferred(rows, ctx)
                  && result.value.issues == Issues(rows, ctx)
                  && |result.value.candidates| == |candidates|
                  && forall n :: 0 <= n < |candidates| ==>
                                   result.value.candidates[n] == WithStatus(candidates[n], rows, ctx))
  {
    var ctx := Context(decisions, ById(candidates), runs);
    var valid, byCandidate, deferred, issues := ClassifyRows(rows, ctx);
    if !valid {
      return None;
    }
    var events, updated := NumberCandidates(candidates, byCandidate, rows, ctx);
    return Some(Import(events, deferred, issues, updated));
  }

  function RowsUnder(byCandidate: map<CandidateId, seq<Row>>, c: CandidateId): seq<Row> {
    if c in byCandidate then byCandidate[c] else []
  }

  method Number(c: Candidate, rows: seq<Row>, ctx: Context) returns (events: seq<Emitted>, prior: Option<Status>)
    ensures events == Sequenced(c.id, rows, Tracing(c, ctx)) && prior == LastStatus(rows)
  {
    events, prior := [], None;
    var n := 0;
    while n < |rows|
      invariant 0 <= n <= |rows|
      invariant events == Sequenced(c.id, rows[..n], Tracing(c, ctx)) && prior == LastStatus(rows[..n])
    {
      assert rows[..n + 1][..n] == rows[..n];
      events := events + [Emitted(rows[n], c.id, n, prior, StatusOf(rows[n]), TraceOf(rows[n], c.run, ctx))];
      prior := Some(StatusOf(rows[n]));
      n := n + 1;
    }
    assert rows[..n] == rows;
  }

  // ---------------------------------------------------------------------------------- conservation

  lemma {:induction false} SelectDisjoint(rows: seq<Row>, p: Row -> bool, q: Row -> bool, either: Row -> bool)
    requires forall row :: (either(row) <==> p(row) || q(row)) && !(p(row) && q(row))
    ensures multiset(Select(rows, p)) + multiset(Select(rows, q)) == multiset(Select(rows, either))
  {
    if rows != [] {
      SelectDisjoint(rows[..|rows| - 1], p, q, either);
    }
  }

  lemma {:induction false} SelectAll(rows: seq<Row>, p: Row -> bool)
    requires forall row :: row in rows ==> p(row)
    ensures Select(rows, p) == rows
  {
    if rows != [] {
      assert rows == rows[..|rows| - 1] + [rows[|rows| - 1]];
      SelectAll(rows[..|rows| - 1], p);
    }
  }

  lemma {:induction false} SelectSame(rows: seq<Row>, p: Row -> bool, q: Row -> bool)
    requires forall row :: row in rows ==> (p(row) <==> q(row))
    ensures Select(rows, p) == Select(rows, q)
  {
    if rows != [] {
      assert rows == rows[..|rows| - 1] + [rows[|rows| - 1]];
      SelectSame(rows[..|rows| - 1], p, q);
    }
  }

  lemma {:induction false} SequencedSources(c: CandidateId, rows: seq<Row>, trace: Row -> Trace)
    ensures EventSources(Sequenced(c, rows, trace)) == rows
  {
    if rows != [] {
      var front := Sequenced(c, rows[..|rows| - 1], trace);
      SequencedSources(c, rows[..|rows| - 1], trace);
      assert rows == rows[..|rows| - 1] + [rows[|rows| - 1]];
      EventSourcesConcat(front, Sequenced(c, rows, trace)[|front|..]);
    }
  }

  lemma EventSourcesConcat(a: seq<Emitted>, b: seq<Emitted>)
    ensures EventSources(a + b) == EventSources(a) + EventSources(b)
  {
  }

  predicate UniqueIds(candidates: seq<Candidate>) {
    forall a, b :: 0 <= a < b < |candidates| ==> candidates[a].id != candidates[b].id
  }

  predicate EmittedAmong(row: Row, candidates: seq<Candidate>, ctx: Context) {
    exists n :: 0 <= n < |candidates| && Classify(row, ctx) == Emit(candidates[n].id)
  }

  lemma AmongAppend(row: Row, front: seq<Candidate>, c: Candidate, ctx: Context)
    ensures EmittedAmong(row, front + [c], ctx)
       <==> EmittedAmong(row, front, ctx) || Classify(row, ctx) == Emit(c.id)
  {
    var all := front + [c];
    if EmittedAmong(row, front, ctx) {
      var n :| 0 <= n < |front| && Classify(row, ctx) == Emit(front[n].id);
      assert all[n] == front[n];
    }
    if Classify(row, ctx) == Emit(c.id) {
      assert all[|front|] == c;
    }
  }

  lemma {:induction false} EventsAreEmittedRows(candidates: seq<Candidate>, rows: seq<Row>, ctx: Context)
    requires UniqueIds(candidates)
    ensures multiset(EventSources(EventsOf(candidates, rows, ctx)))
         == multiset(Select(rows, (row: Row) => EmittedAmong(row, candidates, ctx)))
  {
    if candidates == [] {
      SelectNone(rows, (row: Row) => EmittedAmong(row, candidates, ctx));
    } else {
      var front, c := candidates[..|candidates| - 1], candidates[|candidates| - 1];
      assert candidates == front + [c];
      EventsAreEmittedRows(front, rows, ctx);
      var own := EmittedUnder(rows, ctx, c.id);
      SortKeeps(own, (a, b) => Earlier(a, b));
      SequencedSources(c.id, InTimeOrder(own), Tracing(c, ctx));
      EventSourcesConcat(EventsOf(front, rows, ctx), SequencedFor(c, rows, ctx));
      forall row
        ensures EmittedAmong(row, candidates, ctx)
           <==> EmittedAmong(row, front, ctx) || Classify(row, ctx) == Emit(c.id)
      {
        AmongAppend(row, front, c, ctx);
      }
      SelectDisjoint(rows, (row: Row) => EmittedAmong(row, front, ctx),
                     (row: Row) => Classify(row, ctx) == Emit(c.id),
                     (row: Row) => EmittedAmong(row, candidates, ctx));
    }
  }

  lemma {:induction false} SelectNone(rows: seq<Row>, p: Row -> bool)
    requires forall row :: !p(row)
    ensures Select(rows, p) == []
  {
    if rows != [] {
      SelectNone(rows[..|rows| - 1], p);
    }
  }

  lemma {:induction false} KnownIsListed(candidates: seq<Candidate>, c: CandidateId)
    ensures c in ById(candidates) <==> exists n :: 0 <= n < |candidates| && candidates[n].id == c
  {
    if candidates != [] {
      var front := candidates[..|candidates| - 1];
      KnownIsListed(front, c);
      if c in ById(front) {
        var n :| 0 <= n < |front| && front[n].id == c;
        assert candidates[n].id == c;
      }
      assert candidates[|candidates| - 1].id == c ==> c in ById(candidates);
    }
  }

  /** An emitted row's candidate is one of the candidates. */
  lemma EmitIsAmong(row: Row, candidates: seq<Candidate>, ctx: Context)
    requires ctx.known == ById(candidates)
    ensures Classify(row, ctx).Emit? <==> EmittedAmong(row, candidates, ctx)
  {
    if Classify(row, ctx).Emit? {
      KnownIsListed(candidates, Classify(row, ctx).candidate);
    }
  }

  lemma {:induction false} IssueSources(rows: seq<Row>, ctx: Context)
    ensures Sources(Issues(rows, ctx)) == Reported(rows, ctx)
  {
    if rows != [] {
      IssueSources(rows[..|rows| - 1], ctx);
    }
  }

  // ------------------------------------------------------------------------------- which row goes where

  predicate KnownStatus(row: Row) {
    row.status.Some?
  }

  /** The decision the row is of, where the source has it. */
  predicate OfDecision(row: Row, ctx: Context, candidate: Option<CandidateId>) {
    row.decision in ctx.decisions && ctx.decisions[row.decision].candidate == candidate
  }

  /** The row waits for its candidate: its decision names none, or, a review artifact's entry, one that is not known. */
  ghost predicate Waits(row: Row, ctx: Context) {
    || OfDecision(row, ctx, None)
    || (exists c :: OfDecision(row, ctx, Some(c)) && c !in ctx.known
                    && ctx.decisions[row.decision].fromReviewArtifact && ctx.decisions[row.decision].entry)
  }

  /** The row's decision and its candidate name each other. */
  predicate LinkedTo(row: Row, ctx: Context, c: CandidateId) {
    OfDecision(row, ctx, Some(c)) && c in ctx.known && ctx.known[c].decision == Some(row.decision)
  }

  lemma {:induction false} SelectMembers(rows: seq<Row>, wanted: Row -> bool, row: Row)
    ensures row in Select(rows, wanted) <==> row in rows && wanted(row)
  {
    if rows != [] {
      SelectMembers(rows[..|rows| - 1], wanted, row);
      assert rows == rows[..|rows| - 1] + [rows[|rows| - 1]];
    }
  }

  /** A row is written for a candidate exactly when its status is known and decision and candidate name each other. */
  lemma WrittenIff(rows: seq<Row>, ctx: Context, row: Row, c: CandidateId)
    ensures row in EmittedUnder(rows, ctx, c)
       <==> row in rows && KnownStatus(row) && LinkedTo(row, ctx, c) && row.reasonsAreTexts
  {
    SelectMembers(rows, (r: Row) => Classify(r, ctx) == Emit(c), row);
  }

  lemma DeferredIff(rows: seq<Row>, ctx: Context, row: Row)
    ensures row in Deferred(rows, ctx) <==> row in rows && KnownStatus(row) && Waits(row, ctx)
  {
    SelectMembers(rows, (r: Row) => Classify(r, ctx).Defer?, row);
    if row.decision in ctx.decisions && ctx.decisions[row.decision].candidate.Some? {
      assert OfDecision(row, ctx, Some(ctx.decisions[row.decision].candidate.value));
    }
  }

  /** What an issue says is what is wrong with its row. */
  ghost predicate Wrong(row: Row, ctx: Context, problem: Problem) {
    match problem
    case StatusUnknown => !KnownStatus(row)
    case DecisionUnlinked => KnownStatus(row) && row.decision !in ctx.decisions
    case CandidateLinkConflict =>
      KnownStatus(row) && !Waits(row, ctx) && exists c :: OfDecision(row, ctx, Some(c)) && c !in ctx.known
    case DecisionCandidateMismatch =>
      KnownStatus(row) && exists c :: OfDecision(row, ctx, Some(c)) && c in ctx.known && !LinkedTo(row, ctx, c)
  }

  lemma WrongIff(row: Row, ctx: Context, problem: Problem)
    ensures Classify(row, ctx) == Report(problem) <==> Wrong(row, ctx, problem)
  {
    if row.decision in ctx.decisions && ctx.decisions[row.decision].candidate.Some? {
      assert OfDecision(row, ctx, Some(ctx.decisions[row.decision].candidate.value));
    }
  }

  /** An issue is raised exactly for the rows something is wrong with. */
  lemma {:induction false} IssueIff(rows: seq<Row>, ctx: Context, row: Row, problem: Problem)
    ensures Issue(row, problem) in Issues(rows, ctx) <==> row in rows && Wrong(row, ctx, problem)
  {
    if rows != [] {
      var last := rows[|rows| - 1];
      IssueIff(rows[..|rows| - 1], ctx, row, problem);
      WrongIff(last, ctx, problem);
      assert rows == rows[..|rows| - 1] + [last];
    }
  }

  /** Each row ends in exactly one place: emitted once, deferred, or reported. */
  lemma RowsAreConserved(rows: seq<Row>, candidates: seq<Candidate>, ctx: Context)
    requires UniqueIds(candidates) && ctx.known == ById(candidates)
    requires forall row :: row in rows ==> !Classify(row, ctx).Invalid?
    ensures multiset(EventSources(EventsOf(candidates, rows, ctx))) + multiset(Deferred(rows, ctx))
            + multiset(Sources(Issues(rows, ctx))) == multiset(rows)
  {
    EventsAreEmittedRows(candidates, rows, ctx);
    IssueSources(rows, ctx);
    forall row
      ensures Classify(row, ctx).Emit? <==> EmittedAmong(row, candidates, ctx)
    {
      EmitIsAmong(row, candidates, ctx);
    }
    var among := (row: Row) => EmittedAmong(row, candidates, ctx);
    var deferred := (row: Row) => Classify(row, ctx).Defer?;
    var reported := (row: Row) => Classify(row, ctx).Report?;
    var either := (row: Row) => Classify(row, ctx).Emit? || Classify(row, ctx).Defer?;
    var every := (row: Row) => !Classify(row, ctx).Invalid?;
    SelectDisjoint(rows, among, deferred, either);
    SelectDisjoint(rows, either, reported, every);
    SelectAll(rows, every);
  }

  // ------------------------------------------------------------------------------------- sequencing

  function Of(events: seq<Emitted>, c: CandidateId): seq<Emitted> {
    if events == [] then []
    else Of(events[..|events| - 1], c) + if events[|events| - 1].candidate == c then [events[|events| - 1]] else []
  }

  lemma {:induction false} OfConcat(a: seq<Emitted>, b: seq<Emitted>, c: CandidateId)
    ensures Of(a + b, c) == Of(a, c) + Of(b, c)
  {
    if b == [] {
      assert a + b == a;
    } else {
      OfConcat(a, b[..|b| - 1], c);
      assert (a + b)[..|a + b| - 1] == a + b[..|b| - 1];
    }
  }

  lemma {:induction false} OfSequenced(c: CandidateId, rows: seq<Row>, trace: Row -> Trace, d: CandidateId)
    ensures Of(Sequenced(c, rows, trace), d) == if c == d then Sequenced(c, rows, trace) else []
  {
    if rows != [] {
      OfSequenced(c, rows[..|rows| - 1], trace, d);
      var s := Sequenced(c, rows, trace);
      assert s[..|s| - 1] == Sequenced(c, rows[..|rows| - 1], trace);
    }
  }

  function Listing(candidates: seq<Candidate>, c: CandidateId): Option<Candidate> {
    if candidates == [] then None
    else if candidates[|candidates| - 1].id == c then Some(candidates[|candidates| - 1])
    else Listing(candidates[..|candidates| - 1], c)
  }

  lemma {:induction false} ListingFinds(candidates: seq<Candidate>, n: nat)
    requires UniqueIds(candidates) && n < |candidates|
    ensures Listing(candidates, candidates[n].id) == Some(candidates[n])
  {
    if n < |candidates| - 1 {
      ListingFinds(candidates[..|candidates| - 1], n);
    }
  }

  lemma {:induction false} ListingNone(candidates: seq<Candidate>, c: CandidateId)
    requires forall n :: 0 <= n < |candidates| ==> candidates[n].id != c
    ensures Listing(candidates, c) == None
  {
    if candidates != [] {
      ListingNone(candidates[..|candidates| - 1], c);
    }
  }

  /** A candidate's events are its own rows, numbered in time order; other ids have none. */
  lemma {:induction false} CandidateEvents(candidates: seq<Candidate>, rows: seq<Row>, ctx: Context, c: CandidateId)
    requires UniqueIds(candidates)
    ensures Of(EventsOf(candidates, rows, ctx), c)
         == if Listing(candidates, c).Some? then SequencedFor(Listing(candidates, c).value, rows, ctx) else []
  {
    if candidates != [] {
      var front, last := candidates[..|candidates| - 1], candidates[|candidates| - 1];
      CandidateEvents(front, rows, ctx, c);
      OfConcat(EventsOf(front, rows, ctx), SequencedFor(last, rows, ctx), c);
      OfSequenced(last.id, InTimeOrder(EmittedUnder(rows, ctx, last.id)), Tracing(last, ctx), c);
      if last.id == c {
        ListingNone(front, c);
      }
    }
  }

  /** Numbered from zero, chained by prior statuses. */
  predicate IsChain(c: CandidateId, events: seq<Emitted>) {
    forall n :: 0 <= n < |events| ==>
                  && events[n].candidate == c && events[n].sequence == n
                  && (events[n].source.status.Some? ==> events[n].status == events[n].source.status.value)
                  && events[n].prior == if n == 0 then None else Some(events[n - 1].status)
  }

  lemma {:induction false} SequencedIsChain(c: CandidateId, rows: seq<Row>, trace: Row -> Trace)
    ensures |Sequenced(c, rows, trace)| == |rows| && IsChain(c, Sequenced(c, rows, trace))
    ensures forall n :: 0 <= n < |rows| ==>
                          Sequenced(c, rows, trace)[n].source == rows[n]
                          && Sequenced(c, rows, trace)[n].trace == trace(rows[n])
  {
    if rows != [] {
      var front := rows[..|rows| - 1];
      SequencedIsChain(c, front, trace);
      assert front != [] ==> front[|front| - 1] == rows[|front| - 1];
    }
  }

  /** At an earlier time, or at the same time under an id that is not greater. */
  predicate InOrder(a: Row, b: Row) {
    a.at <= b.at && (a.at == b.at ==> a.event <= b.event)
  }

  /** The id of the row's decision, or of its candidate's run where the decision has none, or none at all. */
  predicate FirstOf(id: Option<nat>, ofDecision: Option<nat>, ofRun: Option<nat>) {
    match ofDecision
    case Some(own) => id == Some(own)
    case None => id == ofRun
  }

  predicate TracedTo(trace: Trace, row: Row, run: RunId, ctx: Context) {
    var ofRun := if run in ctx.runs then ctx.runs[run] else Trace(None, None);
    var own := if row.decision in ctx.decisions then ctx.decisions[row.decision].trace else Trace(None, None);
    FirstOf(trace.request, own.request, ofRun.request) && FirstOf(trace.correlation, own.correlation, ofRun.correlation)
  }

  lemma EarlierRanks()
    ensures Ranks((a: Row, b: Row) => Earlier(a, b))
  {
  }

  /**
   Per candidate the sequence numbers run from zero in (time, id) order, every prior status is the status
   before it, every event has its decision's or its run's ids, and the candidate's status is the last one,
   or its own where it has no events.
   */
  lemma EventsAreSequenced(rows: seq<Row>, candidates: seq<Candidate>, ctx: Context, n: nat)
    requires UniqueIds(candidates) && n < |candidates|
    ensures var c := candidates[n];
            var events := Of(EventsOf(candidates, rows, ctx), c.id);
            && IsChain(c.id, events)
            && (forall a, b :: 0 <= a < b < |events| ==> InOrder(events[a].source, events[b].source))
            && (forall a :: 0 <= a < |events| ==> TracedTo(events[a].trace, events[a].source, c.run, ctx))
            && WithStatus(c, rows, ctx) == if events == [] then c else c.(status := events[|events| - 1].status)
  {
    var c := candidates[n];
    var ordered := InTimeOrder(EmittedUnder(rows, ctx, c.id));
    ListingFinds(candidates, n);
    CandidateEvents(candidates, rows, ctx, c.id);
    SequencedIsChain(c.id, ordered, Tracing(c, ctx));
    EarlierRanks();
    SortSorts(EmittedUnder(rows, ctx, c.id), (a, b) => Earlier(a, b));
    var events := Of(EventsOf(candidates, rows, ctx), c.id);
    assert events == Sequenced(c.id, ordered, Tracing(c, ctx));
    forall a, b | 0 <= a < b < |events|
      ensures InOrder(events[a].source, events[b].source)
    {
      assert events[a].source == ordered[a] && events[b].source == ordered[b];
    }
  }
}
