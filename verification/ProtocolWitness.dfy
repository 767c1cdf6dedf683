/** The protocol is not empty: an order can go all the way, from its creation to its one call and its record. */
module ProtocolWitness {
  import opened Options
  import opened TradeLifecycle
  import opened Tables
  import opened Ledger
  import opened Recovery
  import opened Protocol
  import opened AtMostOnce

  const NO_TABLES := Db(map[], map[], map[], map[], map[], map[], map[], map[], map[], map[], map[])

  const START := World(NO_TABLES, map[], map[], {}, {}, {}, {})

  const TERMS := OrderTerms(5, 6, 7, SellToClose, false, 0, Some(1.0), None, None, None)

  const FENCE := Fence(1, 2, 3, 4, 5)

  const CALL := Call(FENCE, 10, 10)

  const KEY := AllocationKey(0, 7)

  /** An exit, so nothing is reserved. */
  const CREATED := Intent(0, Exit, TERMS, 9, None, None, false, false, Created, ExitReviewCreated, None, None)

  const ACKNOWLEDGEMENT := Acknowledgement(Some(77), 5, Some(StatusAccepted), 20, Some(1.0), None, None)

  // ------------------------------------------------------------------------- steps that go through

  /** A worker that moves on leaves no trace of where it was. */
  lemma AtAgain(s: World, before: Db, after: Db, w: WorkerId, pc: Pc, next: Pc)
    ensures At(At(s, before, w, pc), after, w, next) == At(s, after, w, next)
    ensures PcOf(At(s, before, w, pc).pcs, w) == pc
  {
    assert s.pcs[w := pc][w := next] == s.pcs[w := next];
  }

  lemma PromoteCommits(s: World, call: Call, command: Command, i: IntentId, after: Db)
    requires Promote(s.db, call, command, i) == Commit(after)
    ensures Apply(s, Promoting(call, command, i, Reported)) == s.(db := after)
  {
  }

  lemma ClaimCommits(s: World, w: WorkerId, call: Call, command: Command, i: IntentId, after: Db)
    requires PcOf(s.pcs, w).Idle? && Claim(s.db, call, command, i) == Commit(after)
    ensures Apply(s, Work(w, Claiming(call, command, i, Reported))) == At(s, after, w, Claimed(i))
  {
  }

  lemma AttemptCommits(s: World, w: WorkerId, call: Call, i: IntentId, after: Db)
    requires PcOf(s.pcs, w) == Claimed(i) && i in s.db.intents && RecordAttempt(s.db, call, i) == Commit(after)
    ensures Apply(s, Work(w, Attempting(call, Reported))) == At(s, after, w, Attempted(i))
    ensures Apply(s, Work(w, Attempting(call, Misreported))) == At(s, after, w, Releasing(i))
  {
  }

  lemma AttemptFails(s: World, w: WorkerId, call: Call, i: IntentId)
    requires PcOf(s.pcs, w) == Claimed(i) && i in s.db.intents && RecordAttempt(s.db, call, i).Abort?
    ensures Apply(s, Work(w, Attempting(call, Reported))) == At(s, s.db, w, Releasing(i))
  {
  }

  lemma ReleaseCommits(s: World, w: WorkerId, call: Call, i: IntentId, after: Db)
    requires PcOf(s.pcs, w) == Releasing(i) && ReleaseClaim(s.db, call, i) == Commit(after)
    ensures Apply(s, Work(w, ReleasingClaim(call, Reported))) == At(s, after, w, Idle)
  {
  }

  lemma SendGoesOut(s: World, w: WorkerId, i: IntentId, answer: Answer)
    requires PcOf(s.pcs, w) == Attempted(i)
    ensures Apply(s, Work(w, Sending(answer)))
         == At(s, s.db, w, Answered(i, answer)).(calls := s.calls[i := CallsFor(s, i) + 1])
  {
  }

  lemma AnswerStep(s: World, w: WorkerId, i: IntentId, ack: Acknowledgement)
    requires PcOf(s.pcs, w) == Answered(i, Responded(ack)) && i in s.db.intents
    ensures var t, tx := Apply(s, Work(w, RecordingAnswer(CALL, Reported))), RecordSubmission(s.db, CALL, i, ack);
            && t.db == After(s.db, tx) && t.calls == s.calls
            && (tx.Abort? ==> t == At(s, s.db, w, Uncertain(i, ClassificationOf(ack))))
  {
  }

  // ------------------------------------------------------------------------------- an exit is sent

  /** The rows the checks read, once the environment has written them. */
  function Prepared(): World {
    var unlimited := Limits(None, None, None, None, None, None, None);
    var tables :=
      NO_TABLES.(intents := map[1 := CREATED],
                 reviews := map[9 := Review(ReviewValid, 1000, 8, TERMS, true)],
                 allocations := map[KEY := Allocation(None, None, 0.0, 0.0)],
                 books := map[0 := Book(8, 100.0, 100.0, Some(unlimited), true, 0.0, 0, map[])],
                 leases := map[1 := Lease(FENCE, true, 1000)]);
    START.(db := tables)
  }

  lemma Preparing() returns (steps: seq<Step>)
    ensures Run(START, steps) == Prepared()
  {
    var target := Prepared().db;
    var create, allot := Environment(Creating(1, CREATED)), Environment(Allotting(KEY, target.allocations[KEY]));
    var review, book, lease := Environment(SettingReview(9, target.reviews[9])),
                               Environment(SettingBook(0, target.books[0])),
                               Environment(SettingLease(1, target.leases[1]));
    RunThen(START, [], create);
    RunThen(START, [create], allot);
    RunThen(START, [create] + [allot], review);
    RunThen(START, [create] + [allot] + [review], book);
    RunThen(START, [create] + [allot] + [review] + [book], lease);
    assert [] + [create] == [create];
    steps := [create] + [allot] + [review] + [book] + [lease];
  }

  const CONFIRMATION := ConfirmationId(9, ExitExecute, FENCE)

  /** The intent's row on its way. */
  function Row(status: IntentStatus, lifecycle: State): Intent {
    CREATED.(status := status, lifecycle := lifecycle, confirmation := Some(CONFIRMATION))
  }

  /** The tables with the confirmation written and the intent's row as given. */
  function With(row: Intent, events: map<EventKey, BrokerEvent>): Db {
    Prepared().db.(confirmations := map[CONFIRMATION := Confirmation(9, ConfirmationValid, 1000)],
                   intents := map[1 := row], events := events)
  }

  const ATTEMPT := AttemptKey(0, 1, 5)

  const ATTEMPTED := BrokerEvent(0, 1, 5, None, SubmissionAttempted)

  lemma PromotionGoesThrough()
    ensures Promote(Prepared().db, CALL, ExitExecute, 1) == Commit(With(Row(Ready, ExitReviewCreated), map[]))
  {
    var db := Prepared().db;
    assert Promotable(db, CALL, ExitExecute, 1);
    assert db.intents[1 := Row(Ready, ExitReviewCreated)] == map[1 := Row(Ready, ExitReviewCreated)];
    assert Promoted(db, CALL, ExitExecute, 1).confirmations == With(Row(Ready, ExitReviewCreated), map[]).confirmations;
  }

  lemma ClaimGoesThrough()
    ensures Claim(With(Row(Ready, ExitReviewCreated), map[]), CALL, ExitExecute, 1)
         == Commit(With(Row(Pending, ExitReviewCreated), map[]))
  {
    var db := With(Row(Ready, ExitReviewCreated), map[]);
    assert Claimable(db, CALL, ExitExecute, 1);
    assert WithStatus(db.intents, 1, Pending, ExitReviewCreated) == map[1 := Row(Pending, ExitReviewCreated)];
  }

  lemma AttemptGoesThrough()
    ensures RecordAttempt(With(Row(Pending, ExitReviewCreated), map[]), CALL, 1)
         == Commit(With(Row(Pending, ExitSubmissionAttemptPersisted), map[ATTEMPT := ATTEMPTED]))
  {
    var db := With(Row(Pending, ExitReviewCreated), map[]);
    assert WithStatus(db.intents, 1, Pending, ExitSubmissionAttemptPersisted)
        == map[1 := Row(Pending, ExitSubmissionAttemptPersisted)];
  }

  lemma SubmissionGoesThrough()
    ensures var tx := RecordSubmission(With(Row(Pending, ExitSubmissionAttemptPersisted), map[ATTEMPT := ATTEMPTED]),
                                       CALL, 1, ACKNOWLEDGEMENT);
            tx.Commit? && 1 in tx.db.intents && tx.db.intents[1].status.Submitted?
  {
    var db := With(Row(Pending, ExitSubmissionAttemptPersisted), map[ATTEMPT := ATTEMPTED]);
    assert SubmissionFailure(db, CALL, 1, ACKNOWLEDGEMENT).None?;
  }

  /** The exit's tables as its worker moves on. */
  const READY_EXIT := With(Row(Ready, ExitReviewCreated), map[])

  const CLAIMED_EXIT := With(Row(Pending, ExitReviewCreated), map[])

  /** The exit's order is out, with an answer on its way back. */
  function ExitOut(w: WorkerId): World {
    At(Prepared(), TAKEN, w, Answered(1, Responded(ACKNOWLEDGEMENT))).(calls := map[1 := 1])
  }

  lemma TakeExit(w: WorkerId)
    ensures Apply(Prepared(), Promoting(CALL, ExitExecute, 1, Reported)) == Prepared().(db := READY_EXIT)
    ensures Apply(Prepared().(db := READY_EXIT), Work(w, Claiming(CALL, ExitExecute, 1, Reported)))
         == At(Prepared(), CLAIMED_EXIT, w, Claimed(1))
  {
    PromotionGoesThrough();
    PromoteCommits(Prepared(), CALL, ExitExecute, 1, READY_EXIT);
    ClaimGoesThrough();
    ClaimCommits(Prepared().(db := READY_EXIT), w, CALL, ExitExecute, 1, CLAIMED_EXIT);
  }

  /** One worker takes a prepared exit intent through to its call. */
  lemma SendExit(w: WorkerId)
    ensures Apply(At(Prepared(), CLAIMED_EXIT, w, Claimed(1)), Work(w, Attempting(CALL, Reported)))
         == At(Prepared(), TAKEN, w, Attempted(1))
    ensures Apply(At(Prepared(), TAKEN, w, Attempted(1)), Work(w, Sending(Responded(ACKNOWLEDGEMENT)))) == ExitOut(w)
  {
    AttemptGoesThrough();
    AttemptCommits(At(Prepared(), CLAIMED_EXIT, w, Claimed(1)), w, CALL, 1, TAKEN);
    AtAgain(Prepared(), CLAIMED_EXIT, TAKEN, w, Claimed(1), Attempted(1));
    SendGoesOut(At(Prepared(), TAKEN, w, Attempted(1)), w, 1, Responded(ACKNOWLEDGEMENT));
    AtAgain(Prepared(), TAKEN, TAKEN, w, Attempted(1), Answered(1, Responded(ACKNOWLEDGEMENT)));
  }

  lemma ExitIsSent(w: WorkerId) returns (steps: seq<Step>)
    ensures Run(START, steps) == ExitOut(w)
  {
    var prepare := Preparing();
    var promote, claim := Promoting(CALL, ExitExecute, 1, Reported), Work(w, Claiming(CALL, ExitExecute, 1, Reported));
    var attempt, send := Work(w, Attempting(CALL, Reported)), Work(w, Sending(Responded(ACKNOWLEDGEMENT)));
    TakeExit(w);
    SendExit(w);
    RunThen(START, prepare, promote);
    RunThen(START, prepare + [promote], claim);
    RunThen(START, prepare + [promote] + [claim], attempt);
    RunThen(START, prepare + [promote] + [claim] + [attempt], send);
    steps := prepare + [promote] + [claim] + [attempt] + [send];
  }

  /** Some run from the start sends an order and records it. */
  lemma AnOrderIsSent(w: WorkerId) returns (steps: seq<Step>)
    ensures Initial(START) && CallsFor(Run(START, steps), 1) == 1
    ensures 1 in Run(START, steps).db.intents && Run(START, steps).db.intents[1].status.Submitted?
  {
    var sent := ExitIsSent(w);
    steps := sent + [Work(w, RecordingAnswer(CALL, Reported))];
    RunThen(START, sent, Work(w, RecordingAnswer(CALL, Reported)));
    SubmissionGoesThrough();
    AnswerStep(ExitOut(w), w, 1, ACKNOWLEDGEMENT);
  }

  // -------------------------------------------------------------- a stranded intent, claimed for ever

  const WAITING := With(Row(Ready, ExitSubmissionAttemptPersisted), map[ATTEMPT := ATTEMPTED])

  const TAKEN := With(Row(Pending, ExitSubmissionAttemptPersisted), map[ATTEMPT := ATTEMPTED])

  /** The claim released after a misreported attempt, its worker idle again. */
  function Stuck(w: WorkerId): World {
    At(Prepared(), WAITING, w, Idle)
  }

  lemma RetakeGoesThrough()
    ensures Claim(WAITING, CALL, ExitExecute, 1) == Commit(TAKEN)
    ensures RecordAttempt(TAKEN, CALL, 1) == Abort(AttemptConflict)
    ensures ReleaseClaim(TAKEN, CALL, 1) == Commit(WAITING)
  {
    assert Claimable(WAITING, CALL, ExitExecute, 1);
    assert WithStatus(WAITING.intents, 1, Pending, ExitSubmissionAttemptPersisted) == TAKEN.intents;
    assert WithStatus(TAKEN.intents, 1, Ready, ExitSubmissionAttemptPersisted) == WAITING.intents;
  }

  function Round(w: WorkerId): seq<Step> {
    [Work(w, Claiming(CALL, ExitExecute, 1, Reported)), Work(w, Attempting(CALL, Reported)),
     Work(w, ReleasingClaim(CALL, Reported))]
  }

  /** How many steps of the run are claims of the intent that commit. */
  ghost function Claims(s: World, steps: seq<Step>, i: IntentId): nat
    decreases |steps|
  {
    if steps == [] then 0
    else
      (if steps[0].Work? && steps[0].action.Claiming? && steps[0].action.i == i && PcOf(s.pcs, steps[0].w).Idle?
          && Claim(s.db, steps[0].action.call, steps[0].action.command, i).Commit?
          && !steps[0].action.report.RolledBack?
       then 1 else 0)
      + Claims(Apply(s, steps[0]), steps[1..], i)
  }

  lemma {:induction false} ClaimsConcat(s: World, a: seq<Step>, b: seq<Step>, i: IntentId)
    ensures Run(s, a + b) == Run(Run(s, a), b) && Claims(s, a + b, i) == Claims(s, a, i) + Claims(Run(s, a), b, i)
    decreases |a|
  {
    if a == [] {
      assert a + b == b;
    } else {
      assert (a + b)[0] == a[0] && (a + b)[1..] == a[1..] + b;
      ClaimsConcat(Apply(s, a[0]), a[1..], b, i);
    }
  }

  /** In a round the claim commits, the attempt conflicts with the durable one, the claim is released. */
  lemma RoundSteps(w: WorkerId)
    ensures Apply(Stuck(w), Round(w)[0]) == At(Prepared(), TAKEN, w, Claimed(1))
    ensures Apply(At(Prepared(), TAKEN, w, Claimed(1)), Round(w)[1]) == At(Prepared(), TAKEN, w, Releasing(1))
    ensures Apply(At(Prepared(), TAKEN, w, Releasing(1)), Round(w)[2]) == Stuck(w)
  {
    var s := Prepared();
    RetakeGoesThrough();
    ClaimCommits(Stuck(w), w, CALL, ExitExecute, 1, TAKEN);
    AtAgain(s, WAITING, TAKEN, w, Idle, Claimed(1));
    AttemptFails(At(s, TAKEN, w, Claimed(1)), w, CALL, 1);
    AtAgain(s, TAKEN, TAKEN, w, Claimed(1), Releasing(1));
    ReleaseCommits(At(s, TAKEN, w, Releasing(1)), w, CALL, 1, WAITING);
    AtAgain(s, TAKEN, WAITING, w, Releasing(1), Idle);
  }

  lemma RoundReturns(w: WorkerId)
    ensures Run(Stuck(w), Round(w)) == Stuck(w) && Claims(Stuck(w), Round(w), 1) == 1
  {
    var steps, s := Round(w), Stuck(w);
    RoundSteps(w);
    RetakeGoesThrough();
    RunThree(s, steps[0], steps[1], steps[2]);
    assert steps == [steps[0]] + ([steps[1]] + [steps[2]]);
    assert [steps[0]][1..] == [] && Claims(At(Prepared(), TAKEN, w, Claimed(1)), [], 1) == 0;
  }

  lemma RunOne(s: World, step: Step)
    ensures Run(s, [step]) == Apply(s, step)
    ensures !(step.Work? && step.action.Claiming?) ==> Claims(s, [step], 1) == 0
  {
    assert [step][1..] == [];
    assert Run(Apply(s, step), []) == Apply(s, step);
    assert Claims(Apply(s, step), [], 1) == 0;
  }

  lemma RunThree(s: World, a: Step, b: Step, c: Step)
    requires !(b.Work? && b.action.Claiming?) && !(c.Work? && c.action.Claiming?)
    ensures Run(s, [a] + ([b] + [c])) == Apply(Apply(Apply(s, a), b), c)
    ensures Claims(s, [a] + ([b] + [c]), 1) == Claims(s, [a], 1)
  {
    RunOne(s, a);
    RunOne(Apply(s, a), b);
    RunOne(Apply(Apply(s, a), b), c);
    ClaimsConcat(s, [a], [b] + [c], 1);
    ClaimsConcat(Apply(s, a), [b], [c], 1);
  }

  lemma AttemptIsMisreported(w: WorkerId)
    ensures Apply(At(Prepared(), CLAIMED_EXIT, w, Claimed(1)), Work(w, Attempting(CALL, Misreported)))
         == At(Prepared(), TAKEN, w, Releasing(1))
  {
    AttemptGoesThrough();
    AttemptCommits(At(Prepared(), CLAIMED_EXIT, w, Claimed(1)), w, CALL, 1, TAKEN);
    AtAgain(Prepared(), CLAIMED_EXIT, TAKEN, w, Claimed(1), Releasing(1));
  }

  lemma GetsStuck(w: WorkerId) returns (steps: seq<Step>)
    ensures Run(START, steps) == Stuck(w)
  {
    var prepare := Preparing();
    var promote, claim := Promoting(CALL, ExitExecute, 1, Reported), Work(w, Claiming(CALL, ExitExecute, 1, Reported));
    var attempt, release := Work(w, Attempting(CALL, Misreported)), Work(w, ReleasingClaim(CALL, Reported));
    TakeExit(w);
    AttemptIsMisreported(w);
    RoundSteps(w);
    RunThen(START, prepare, promote);
    RunThen(START, prepare + [promote], claim);
    RunThen(START, prepare + [promote] + [claim], attempt);
    RunThen(START, prepare + [promote] + [claim] + [attempt], release);
    steps := prepare + [promote] + [claim] + [attempt] + [release];
  }

  lemma {:induction false} AnotherRound(w: WorkerId, n: nat) returns (steps: seq<Step>)
    ensures Run(Stuck(w), steps) == Stuck(w) && Claims(Stuck(w), steps, 1) == n
  {
    if n == 0 {
      steps := [];
    } else {
      var rest := AnotherRound(w, n - 1);
      RoundReturns(w);
      ClaimsConcat(Stuck(w), Round(w), rest, 1);
      steps := Round(w) + rest;
    }
  }

  /** A stranded intent can be claimed any number of times, and is not sent in any of them. */
  lemma ClaimedAgainAndAgain(w: WorkerId, n: nat) returns (stranding: seq<Step>, rounds: seq<Step>)
    ensures Initial(START) && Stranded(Run(START, stranding), 1)
    ensures Claims(Run(START, stranding), rounds, 1) == n && CallsFor(Run(START, stranding + rounds), 1) == 0
  {
    stranding := GetsStuck(w);
    rounds := AnotherRound(w, n);
    assert AttemptKeyOf(1, Row(Ready, ExitSubmissionAttemptPersisted)) == ATTEMPT;
    ClaimsConcat(START, stranding, rounds, 1);
  }
}
