/**
 The bounded retry loop around a worker log transaction that may commit although an error is reported:
 which code identifies an error, how often and how long it retries, and what it leaves in the log.
 */
module PersistenceRetry {
  import opened Options
  import opened Numbers
  import opened Sequences
  import opened Texts
  import opened WorkerLog
  import opened WorkerRuns

  // ----------------------------------------------------------------------------------- error codes

  predicate IsUpper(c: char) {
    'A' <= c <= 'Z'
  }

  function UpperChar(c: char): char {
    if 'a' <= c <= 'z' then (c as int - 32) as char else c
  }

  function Upper(s: string): string {
    seq(|s|, n requires 0 <= n < |s| => UpperChar(s[n]))
  }

  /** Five characters: a class of two digits, a digit and a letter, P0 or XX, and a subclass. */
  predicate SqlState(s: string) {
    && |s| == 5
    && ((IsDigit(s[0]) && (IsDigit(s[1]) || IsUpper(s[1]))) || s[..2] == "P0" || s[..2] == "XX")
    && forall n :: 2 <= n < 5 ==> IsDigit(s[n]) || IsUpper(s[n])
  }

  predicate ApplicationCode(s: string) {
    1 <= |s| <= 160 && IsUpper(s[0]) && forall n :: 0 <= n < |s| ==> IsUpper(s[n]) || IsDigit(s[n]) || s[n] == '_'
  }

  const FENCE_LOST := "SCHEDULER_FENCE_LOST"

  predicate RetryablePostgresCode(s: string) {
    || s == "40001" || s == "40P01" || s == "53300" || s == "55P03" || s == "57P01" || s == "57P02" || s == "57P03"
  }

  predicate RetryableSystemCode(s: string) {
    || s == "ECONNREFUSED" || s == "ECONNRESET" || s == "EHOSTUNREACH" || s == "ENETDOWN" || s == "ENETUNREACH"
    || s == "EPIPE" || s == "ETIMEDOUT"
  }

  predicate ConnectionException(s: string) {
    SqlState(s) && s[..2] == "08"
  }

  predicate Recognised(code: string) {
    code == FENCE_LOST || ConnectionException(code) || RetryablePostgresCode(code) || RetryableSystemCode(code)
    || SqlState(code)
  }

  predicate Retryable(code: Option<string>) {
    code.Some? && (ConnectionException(code.value) || RetryablePostgresCode(code.value)
                   || RetryableSystemCode(code.value))
  }

  // -------------------------------------------------------------------------------- error identity

  /** Error objects: the wrapper of a failed rollback, the transaction's own refusal, and all others. */
  datatype Ref = Wrapper | Refusing | Foreign(nat)

  datatype ErrorNode = ErrorNode(code: Option<string>, message: Option<string>, cause: Option<Ref>, errors: seq<Ref>)

  /** Errors refer to each other freely, also in cycles; a reference that is no object is missing. */
  type Errors = map<Ref, ErrorNode>

  function CodeOf(node: ErrorNode): Option<string> {
    if node.code.Some? && Trim(node.code.value) != "" then Some(Upper(Trim(node.code.value))) else None
  }

  function RecognisedCode(node: ErrorNode): Option<string> {
    if CodeOf(node).Some? && Recognised(CodeOf(node).value) then CodeOf(node) else None
  }

  function FallbackOf(node: ErrorNode): Option<string> {
    if CodeOf(node).Some? && ApplicationCode(CodeOf(node).value) then CodeOf(node)
    else if node.message.Some? && ApplicationCode(Trim(node.message.value)) then Some(Trim(node.message.value))
    else None
  }

  function OrElse(a: Option<string>, b: Option<string>): Option<string> {
    if a.Some? then a else b
  }

  function Links(node: ErrorNode): seq<Ref> {
    (if node.cause.Some? then [node.cause.value] else []) + node.errors
  }

  /** The first recognised code met going breadth first through at most sixteen errors. */
  function FirstRecognised(errors: Errors, pending: seq<Ref>, seen: set<Ref>): Option<string>
    decreases if |seen| < 16 then 16 - |seen| else 0, |pending|
  {
    if pending == [] || |seen| >= 16 then None
    else if pending[0] !in errors || pending[0] in seen then FirstRecognised(errors, pending[1..], seen)
    else
      var node := errors[pending[0]];
      if RecognisedCode(node).Some? then RecognisedCode(node)
      else FirstRecognised(errors, pending[1..] + Links(node), seen + {pending[0]})
  }

  /** The first fallback met on the same way. */
  function FirstFallback(errors: Errors, pending: seq<Ref>, seen: set<Ref>): Option<string>
    decreases if |seen| < 16 then 16 - |seen| else 0, |pending|
  {
    if pending == [] || |seen| >= 16 then None
    else if pending[0] !in errors || pending[0] in seen then FirstFallback(errors, pending[1..], seen)
    else
      var node := errors[pending[0]];
      OrElse(FallbackOf(node), FirstFallback(errors, pending[1..] + Links(node), seen + {pending[0]}))
  }

  /** A recognised code anywhere wins over every fallback; among equals the first one met does. */
  function Identity(errors: Errors, root: Ref): Option<string> {
    OrElse(FirstRecognised(errors, [root], {}), FirstFallback(errors, [root], {}))
  }

  method ErrorIdentity(errors: Errors, root: Ref) returns (code: Option<string>)
    ensures code == Identity(errors, root)
  {
    var pending, seen: set<Ref>, fallback: Option<string> := [root], {}, None;
    while pending != [] && |seen| < 16
      invariant |seen| <= 16
      invariant Identity(errors, root)
             == OrElse(FirstRecognised(errors, pending, seen), OrElse(fallback, FirstFallback(errors, pending, seen)))
      decreases 16 - |seen|, |pending|
    {
      var candidate := pending[0];
      pending := pending[1..];
      if candidate !in errors || candidate in seen {
        continue;
      }
      seen := seen + {candidate};
      var node := errors[candidate];
      if RecognisedCode(node).Some? {
        return RecognisedCode(node);
      }
      fallback := OrElse(fallback, FallbackOf(node));
      pending := pending + Links(node);
    }
    return fallback;
  }

  // ------------------------------------------------------------------------------- which codes count

  predicate Digit(c: char) {
    48 <= c as int <= 57
  }

  predicate Capital(c: char) {
    65 <= c as int <= 90
  }

  /** An SQLSTATE: a class of two digits, of a digit and a letter, P0 or XX, and three digits or letters. */
  predicate FiveCharacters(code: string) {
    && |code| == 5
    && (|| (Digit(code[0]) && (Digit(code[1]) || Capital(code[1])))
        || (code[0] == 'P' && code[1] == '0') || (code[0] == 'X' && code[1] == 'X'))
    && (Digit(code[2]) || Capital(code[2])) && (Digit(code[3]) || Capital(code[3]))
    && (Digit(code[4]) || Capital(code[4]))
  }

  lemma SqlStateIff(code: string)
    ensures SqlState(code) <==> FiveCharacters(code)
    ensures ConnectionException(code) <==> FiveCharacters(code) && code[0] == '0' && code[1] == '8'
  {
    if |code| == 5 {
      assert code[..2] == [code[0], code[1]];
    }
  }

  const SYSTEM_CODES :=
    {"ECONNREFUSED", "ECONNRESET", "EHOSTUNREACH", "ENETDOWN", "ENETUNREACH", "EPIPE", "ETIMEDOUT"}

  const TRANSIENT_STATES := {"40001", "40P01", "53300", "55P03", "57P01", "57P02", "57P03"}

  /** Recognised are the lost fence, every SQLSTATE and seven system errors. */
  lemma RecognisedIff(code: string)
    ensures Recognised(code) <==> code == "SCHEDULER_FENCE_LOST" || FiveCharacters(code) || code in SYSTEM_CODES
  {
    SqlStateIff(code);
  }

  /** Only such a code is passed on as recognised, wherever in the errors it stands. */
  lemma RecognisedCodeIff(node: ErrorNode, code: string)
    ensures RecognisedCode(node) == Some(code)
       <==> && CodeOf(node) == Some(code)
            && (code == "SCHEDULER_FENCE_LOST" || FiveCharacters(code) || code in SYSTEM_CODES)
  {
    RecognisedIff(code);
  }

  /** The codes that let the loop go on: lost connections, and what PostgreSQL or the system may do better next time. */
  lemma RetryableIff(code: string)
    ensures Retryable(Some(code))
       <==> || (FiveCharacters(code) && code[0] == '0' && code[1] == '8')
            || code in TRANSIENT_STATES || code in SYSTEM_CODES
    ensures !Retryable(None)
  {
    SqlStateIff(code);
  }

  /** An application's own code: up to a hundred and sixty capitals, digits and underscores, a capital first. */
  lemma ApplicationIff(code: string)
    ensures ApplicationCode(code)
       <==> && code != [] && |code| < 161 && Capital(code[0])
            && forall c :: c in code ==> Capital(c) || Digit(c) || c == '_'
  {
    if ApplicationCode(code) {
      forall c | c in code
        ensures Capital(c) || Digit(c) || c == '_'
      {
        var n :| 0 <= n < |code| && code[n] == c;
      }
    }
    forall n | 0 <= n < |code|
      ensures code[n] in code
    {
    }
  }

  /** An error's code is read without surrounding white space and in capitals. */
  lemma CodeIsRead(node: ErrorNode)
    ensures CodeOf(node).None? <==> node.code.None? || Trim(node.code.value) == ""
    ensures CodeOf(node).Some? ==>
              var read, given := CodeOf(node).value, Trim(node.code.value);
              && |read| == |given|
              && forall n :: 0 <= n < |read| ==>
                               read[n] as int == given[n] as int - if 97 <= given[n] as int <= 122 then 32 else 0
  {
  }

  /** A fallback is the error's code if it is an application's, else its message if that is one. */
  lemma FallbackIs(node: ErrorNode, text: string)
    ensures FallbackOf(node) == Some(text)
       <==> && ApplicationCode(text)
            && (|| CodeOf(node) == Some(text)
                || (&& node.message.Some? && text == Trim(node.message.value)
                    && (CodeOf(node).None? || !ApplicationCode(CodeOf(node).value))))
  {
  }

  // -------------------------------------------------------------------------------------- attempts

  datatype Fault = NoFault | NotBegun | StatementThrows | CommitThrows(applied: bool)

  /**
   What one attempt meets: the requests other writers got through since the attempt before, the lease and
   clock, a fault and its error, and whether the rollback works.
   */
  datatype Attempt = Attempt(
    others: seq<Request>, fenceHeld: bool, now: int, fault: Fault, errors: Errors, thrown: Ref, rollbackFails: bool,
    rollbackError: Ref)

  datatype Result = Returned(log: Log, outcome: Outcome) | Raised(log: Log, errors: Errors, root: Ref)

  function RefusalCode(refusal: Refusal): string {
    match refusal
    case FenceLost => FENCE_LOST
    case WorkstreamRequired => "AUTONOMOUS_WORKER_WORKSTREAM_IDENTITY_REQUIRED"
    case TransitionInvalid => "AUTONOMOUS_WORKER_STATE_TRANSITION_INVALID"
    case WorkstreamMismatch => "AUTONOMOUS_WORKER_WORKSTREAM_IDENTITY_MISMATCH"
  }

  /** In two parts, short enough for the verifier to see the characters of each. */
  const BOTH_FAILED := "PostgreSQL transaction" + " and rollback both failed."

  /** The error after a rollback: the operation's own, or both wrapped when the rollback failed too. */
  function RolledBack(log: Log, a: Attempt, errors: Errors, error: Ref): Result {
    if a.rollbackFails
    then Raised(log,
                errors[Wrapper := ErrorNode(None, Some(BOTH_FAILED), None, [error, a.rollbackError])],
                Wrapper)
    else Raised(log, errors, error)
  }

  function Try(log: Log, e: Event, a: Attempt, hash: Event -> nat): Result {
    var outcome := Persist(log, e, a.fenceHeld, a.now, hash);
    if a.fault.NotBegun? then Raised(log, a.errors, a.thrown)
    else if a.fault.StatementThrows? then RolledBack(log, a, a.errors, a.thrown)
    else if outcome.Refused? then
      RolledBack(log, a, a.errors[Refusing := ErrorNode(None, Some(RefusalCode(outcome.refusal)), None, [])], Refusing)
    else if a.fault.CommitThrows? then RolledBack(if a.fault.applied then outcome.log else log, a, a.errors, a.thrown)
    else Returned(outcome.log, outcome)
  }

  datatype CallResult =
    | Delivered(log: Log, attempts: nat, outcome: Outcome)
    | GaveUp(log: Log, attempts: nat, code: Option<string>)

  predicate Retries(result: Result, n: nat, limit: nat) {
    result.Raised? && Identity(result.errors, result.root) != Some(FENCE_LOST)
    && Retryable(Identity(result.errors, result.root)) && n < limit
  }

  /** The log an attempt begins on, once the other writers are done. */
  function Met(log: Log, a: Attempt, hash: Event -> nat): Log {
    Run(log, a.others, hash)
  }

  /** The attempts from the `n`th on. */
  function CallFrom(log: Log, e: Event, script: nat -> Attempt, n: nat, limit: nat, hash: Event -> nat): CallResult
    decreases limit - n
  {
    var result := Try(Met(log, script(n), hash), e, script(n), hash);
    if result.Returned? then Delivered(result.log, n, result.outcome)
    else if Retries(result, n, limit) then CallFrom(result.log, e, script, n + 1, limit, hash)
    else GaveUp(result.log, n, Identity(result.errors, result.root))
  }

  function AttemptLimit(requested: real): nat {
    AtLeast(1, AtMost(5, requested.Floor))
  }

  function Clamp(x: real): real {
    if x < 0.0 then 0.0 else if x > 1.0 then 1.0 else x
  }

  function Scaled(x: real, share: real): real {
    x * share
  }

  /** Half to all of the doubled base delay, cut off at the maximum. */
  function BoundedRetryDelay(attempt: nat, base: nat, maximum: nat, random: real): (delay: nat)
    ensures delay <= maximum
    ensures delay <= base * PowerOfTwo(AtLeast(0, attempt - 1))
    ensures 2 * delay + 2 > AtMost(maximum, base * PowerOfTwo(AtLeast(0, attempt - 1)))
  {
    var exponential := AtMost(maximum, base * PowerOfTwo(AtLeast(0, attempt - 1)));
    var share := 0.5 + Clamp(random) * 0.5;
    ScaledFloor(exponential, share);
    AtMost(maximum, AtLeast(0, Scaled(exponential as real, share).Floor))
  }

  lemma ProductNonnegative(x: real, y: real)
    requires x >= 0.0 && y >= 0.0
    ensures x * y >= 0.0
  {
  }

  /** Between half of it and all of it. */
  lemma ShareBounds(x: real, share: real)
    requires x >= 0.0 && 0.5 <= share <= 1.0
    ensures x / 2.0 <= Scaled(x, share) <= x
  {
    ProductNonnegative(x, 1.0 - share);
    ProductNonnegative(x, share - 0.5);
    assert x * (1.0 - share) == x - x * share;
    assert x * (share - 0.5) == x * share - x / 2.0;
  }

  lemma FloorBetween(y: real, whole: nat)
    requires whole as real / 2.0 <= y <= whole as real
    ensures 0 <= y.Floor <= whole && 2 * y.Floor + 2 > whole
  {
  }

  lemma ScaledFloor(exponential: nat, share: real)
    requires 0.5 <= share <= 1.0
    ensures 0 <= Scaled(exponential as real, share).Floor <= exponential
    ensures 2 * Scaled(exponential as real, share).Floor + 2 > exponential
  {
    ShareBounds(exponential as real, share);
    FloorBetween(Scaled(exponential as real, share), exponential);
  }

  /** The requests of other writers, one after the other. */
  method Meanwhile(table: Table, requests: seq<Request>)
    modifies table
    ensures table.Contents() == Run(old(table.Contents()), requests, table.hash)
  {
    var n := 0;
    while n < |requests|
      invariant 0 <= n <= |requests|
      invariant Run(table.Contents(), requests[n..], table.hash) == Run(old(table.Contents()), requests, table.hash)
    {
      assert requests[n..][0] == requests[n] && requests[n..][1..] == requests[n + 1..];
      var outcome := table.PersistEvent(requests[n].event, requests[n].fenceHeld, requests[n].now);
      n := n + 1;
    }
  }

  /** One transaction: begin, the statements, commit, and a rollback when any of them throws. */
  method TryTransaction(table: Table, e: Event, a: Attempt) returns (result: Result)
    modifies table
    ensures result == Try(old(table.Contents()), e, a, table.hash) && table.Contents() == result.log
  {
    var savedRows, savedFailures := table.rows, table.failures;
    if a.fault.NotBegun? {
      return Raised(table.Contents(), a.errors, a.thrown);
    }
    var outcome := table.PersistEvent(e, a.fenceHeld, a.now);
    if a.fault.StatementThrows? || (a.fault.CommitThrows? && !a.fault.applied) {
      table.rows, table.failures := savedRows, savedFailures;
    }
    if a.fault.StatementThrows? {
      return RolledBack(table.Contents(), a, a.errors, a.thrown);
    }
    if outcome.Refused? {
      var refusing := ErrorNode(None, Some(RefusalCode(outcome.refusal)), None, []);
      return RolledBack(table.Contents(), a, a.errors[Refusing := refusing], Refusing);
    }
    if a.fault.CommitThrows? {
      return RolledBack(table.Contents(), a, a.errors, a.thrown);
    }
    return Returned(table.Contents(), outcome);
  }

  method RunPersistence(table: Table, e: Event, script: nat -> Attempt, random: nat -> real,
                        maximumAttempts: real, baseDelay: real, maximumDelay: real)
    returns (result: CallResult, delays: seq<nat>)
    modifies table
    ensures result == CallFrom(old(table.Contents()), e, script, 1, AttemptLimit(maximumAttempts), table.hash)
    ensures table.Contents() == result.log
    ensures 1 <= result.attempts <= AttemptLimit(maximumAttempts) <= 5
    ensures maximumAttempts < 2.0 ==> result.attempts == 1
    ensures result.attempts as real <= maximumAttempts || result.attempts == 1
    ensures |delays| == result.attempts - 1
    ensures forall n :: 0 <= n < |delays| ==> delays[n] <= AtLeast(AtLeast(0, baseDelay.Floor), maximumDelay.Floor)
  {
    var limit := AttemptLimit(maximumAttempts);
    var base := AtLeast(0, baseDelay.Floor);
    var maximum := AtLeast(base, maximumDelay.Floor);
    var attempt := 1;
    delays := [];
    while true
      invariant 1 <= attempt <= limit && |delays| == attempt - 1
      invariant CallFrom(table.Contents(), e, script, attempt, limit, table.hash)
             == CallFrom(old(table.Contents()), e, script, 1, limit, table.hash)
      invariant forall n :: 0 <= n < |delays| ==> delays[n] <= maximum
      decreases limit - attempt
    {
      Meanwhile(table, script(attempt).others);
      var tried := TryTransaction(table, e, script(attempt));
      if tried.Returned? {
        return Delivered(tried.log, attempt, tried.outcome), delays;
      }
      var code := ErrorIdentity(tried.errors, tried.root);
      var fenceLost := code == Some(FENCE_LOST);
      if fenceLost || !Retryable(code) || attempt >= limit {
        return GaveUp(tried.log, attempt, code), delays;
      }
      delays := delays + [BoundedRetryDelay(attempt, base, maximum, random(attempt))];
      attempt := attempt + 1;
    }
  }

  // ---------------------------------------------------------------------------------- exactly once

  function Own(e: Event, a: Attempt): Request {
    Request(e, a.fenceHeld, a.now)
  }

  /** The other writers' requests of the attempts `n` to `last`, and the call's own request at attempt `k` alone. */
  function OnceAmongOthers(log: Log, e: Event, script: nat -> Attempt, n: nat, last: nat, k: int,
                           hash: Event -> nat): Log
    decreases if n <= last then last - n + 1 else 0
  {
    if n > last then log
    else
      var met := Met(log, script(n), hash);
      OnceAmongOthers(if n == k then Step(met, Own(e, script(n)), hash) else met, e, script, n + 1, last, k, hash)
  }

  lemma TryStores(log: Log, e: Event, a: Attempt, hash: Event -> nat)
    ensures var result := Try(log, e, a, hash);
            && (result.log == log || result.log == Step(log, Own(e, a), hash))
            && (result.log != log || result.Returned? ==>
                  result.log == Step(log, Own(e, a), hash) && e in result.log.rows)
  {
  }

  /** Once its row is there, an event can be neither stored again nor change anything else. */
  lemma StoredIsIdle(log: Log, request: Request, hash: Event -> nat)
    requires request.event in log.rows
    ensures Step(log, request, hash) == log
  {
  }

  /** So where the call's own request stands no longer matters. */
  lemma {:induction false} StoredStaysIdle(log: Log, e: Event, script: nat -> Attempt, n: nat, last: nat, k: int,
                                           j: int, hash: Event -> nat)
    requires e in log.rows
    ensures OnceAmongOthers(log, e, script, n, last, k, hash) == OnceAmongOthers(log, e, script, n, last, j, hash)
    decreases if n <= last then last - n + 1 else 0
  {
    if n <= last {
      RunGrows(log, script(n).others, hash);
      var met := Met(log, script(n), hash);
      StoredIsIdle(met, Own(e, script(n)), hash);
      StoredStaysIdle(met, e, script, n + 1, last, k, j, hash);
    }
  }

  lemma {:induction false} EarlierIsNowhere(log: Log, e: Event, script: nat -> Attempt, n: nat, last: nat, k: int,
                                            j: int, hash: Event -> nat)
    requires k < n && j < n
    ensures OnceAmongOthers(log, e, script, n, last, k, hash) == OnceAmongOthers(log, e, script, n, last, j, hash)
    decreases if n <= last then last - n + 1 else 0
  {
    if n <= last {
      EarlierIsNowhere(Met(log, script(n), hash), e, script, n + 1, last, k, j, hash);
    }
  }

  /** The call's own request stands at attempt `k`, or before the first of these attempts if it has no effect. */
  predicate OwnEffectAt(log: Log, e: Event, script: nat -> Attempt, n: nat, call: CallResult, k: int,
                        hash: Event -> nat) {
    && n - 1 <= k <= call.attempts && n <= call.attempts
    && call.log == OnceAmongOthers(log, e, script, n, call.attempts, k, hash)
    && (call.Delivered? ==> e in call.log.rows)
  }

  /** What the attempts after this one do, seen from the log this one begins on. */
  lemma EffectOfRest(log: Log, e: Event, script: nat -> Attempt, n: nat, call: CallResult, later: int,
                     hash: Event -> nat) returns (k: int)
    requires n >= 1
    requires OwnEffectAt(Try(Met(log, script(n), hash), e, script(n), hash).log, e, script, n + 1, call, later, hash)
    ensures OwnEffectAt(log, e, script, n, call, k, hash)
  {
    var met := Met(log, script(n), hash);
    var tried := Try(met, e, script(n), hash).log;
    TryStores(met, e, script(n), hash);
    if tried != met {
      k := n;
      StoredStaysIdle(tried, e, script, n + 1, call.attempts, later, k, hash);
    } else if later > n {
      k := later;
    } else {
      k := n - 1;
      EarlierIsNowhere(tried, e, script, n + 1, call.attempts, later, k, hash);
    }
  }

  lemma EffectOfLast(log: Log, e: Event, script: nat -> Attempt, n: nat, call: CallResult, hash: Event -> nat)
    returns (k: int)
    requires n >= 1 && call.attempts == n
    requires var result := Try(Met(log, script(n), hash), e, script(n), hash);
             call.log == result.log && (call.Delivered? ==> result.Returned?)
    ensures OwnEffectAt(log, e, script, n, call, k, hash)
  {
    var met := Met(log, script(n), hash);
    TryStores(met, e, script(n), hash);
    k := if call.log == met && !call.Delivered? then n - 1 else n;
    assert OnceAmongOthers(log, e, script, n, n, k, hash) == if n == k then Step(met, Own(e, script(n)), hash) else met;
  }

  /**
   However many attempts commit although they report an error, and whatever other writers do in between,
   the call's own request takes effect at one attempt at most; and a call that returns has stored its event.
   */
  lemma {:induction false} ExactlyOneEffect(log: Log, e: Event, script: nat -> Attempt, n: nat, limit: nat,
                                            hash: Event -> nat)
    returns (k: int)
    requires n >= 1
    ensures var call := CallFrom(log, e, script, n, limit, hash);
            OwnEffectAt(log, e, script, n, call, k, hash) && (n <= limit ==> call.attempts <= limit)
    decreases limit - n
  {
    var call := CallFrom(log, e, script, n, limit, hash);
    var result := Try(Met(log, script(n), hash), e, script(n), hash);
    if Retries(result, n, limit) {
      var later := ExactlyOneEffect(result.log, e, script, n + 1, limit, hash);
      k := EffectOfRest(log, e, script, n, call, later, hash);
    } else {
      k := EffectOfLast(log, e, script, n, call, hash);
    }
  }

  lemma {:induction false} OnceKeepsRows(log: Log, e: Event, script: nat -> Attempt, n: nat, last: nat, k: int,
                                         hash: Event -> nat)
    requires Distinct(log.rows) && FailuresMatch(log)
    ensures Distinct(OnceAmongOthers(log, e, script, n, last, k, hash).rows)
    decreases if n <= last then last - n + 1 else 0
  {
    if n <= last {
      var met := Met(log, script(n), hash);
      RunKeepsRows(log, script(n).others, hash);
      PersistKeepsRows(met, Own(e, script(n)), hash);
      OnceKeepsRows(if n == k then Step(met, Own(e, script(n)), hash) else met, e, script, n + 1, last, k, hash);
    }
  }

  /** So a call that returns has left exactly one row with its id, among rows that are all distinct. */
  lemma ReturnedMeansOneRow(log: Log, e: Event, script: nat -> Attempt, limit: nat, hash: Event -> nat)
    requires Distinct(log.rows) && FailuresMatch(log)
    ensures var call := CallFrom(log, e, script, 1, limit, hash);
            Distinct(call.log.rows) && (call.Delivered? ==> multiset(call.log.rows)[e] == 1)
  {
    var call := CallFrom(log, e, script, 1, limit, hash);
    var k := ExactlyOneEffect(log, e, script, 1, limit, hash);
    OnceKeepsRows(log, e, script, 1, call.attempts, k, hash);
    if call.Delivered? {
      DistinctCountsOne(call.log.rows, e);
    }
  }

  lemma {:induction false} DistinctCountsOne(rows: seq<Event>, e: Event)
    requires Distinct(rows)
    ensures multiset(rows)[e] == if e in rows then 1 else 0
  {
    if rows != [] {
      var front, last := rows[..|rows| - 1], rows[|rows| - 1];
      assert rows == front + [last];
      DistinctCountsOne(front, e);
    }
  }

  // ---------------------------------------------------------------------------- how often it is tried

  const DEFAULT_ATTEMPTS := 3.0

  /** The limit is the whole part of what is asked for, at least one and at most five. */
  lemma AttemptLimitIs(requested: real)
    ensures 1 <= AttemptLimit(requested) <= 5
    ensures 1.0 <= requested < 6.0 ==> requested - 1.0 < AttemptLimit(requested) as real <= requested
    ensures requested >= 5.0 ==> AttemptLimit(requested) == 5
    ensures AttemptLimit(DEFAULT_ATTEMPTS) == 3
  {
  }

  /** The attempt raises an error whose code lets the loop go on. */
  predicate FailsForNow(log: Log, e: Event, a: Attempt, hash: Event -> nat) {
    var result := Try(log, e, a, hash);
    && result.Raised? && Identity(result.errors, result.root) != Some(FENCE_LOST)
    && Retryable(Identity(result.errors, result.root))
  }

  /** Gives up after the last attempt, or at the first error that is not for now; never in between. */
  lemma {:induction false} GivesUpAtLast(log: Log, e: Event, script: nat -> Attempt, n: nat, limit: nat,
                                         hash: Event -> nat)
    requires n <= limit
    ensures var call := CallFrom(log, e, script, n, limit, hash);
            && n <= call.attempts <= limit
            && (call.GaveUp? && call.code.Some? && call.code != Some(FENCE_LOST) && Retryable(call.code) ==>
                  call.attempts == limit)
    decreases limit - n
  {
    var result := Try(Met(log, script(n), hash), e, script(n), hash);
    if Retries(result, n, limit) {
      GivesUpAtLast(result.log, e, script, n + 1, limit, hash);
    }
  }

  /** So by default a first attempt that fails for now is followed by a second one. */
  lemma SecondAttempt(log: Log, e: Event, script: nat -> Attempt, hash: Event -> nat)
    requires FailsForNow(Met(log, script(1), hash), e, script(1), hash)
    ensures CallFrom(log, e, script, 1, AttemptLimit(DEFAULT_ATTEMPTS), hash).attempts >= 2
  {
    AttemptLimitIs(DEFAULT_ATTEMPTS);
    var result := Try(Met(log, script(1), hash), e, script(1), hash);
    GivesUpAtLast(result.log, e, script, 2, 3, hash);
  }

  // ------------------------------------------------------------------------- stored, and given up

  /** The log after the other writers' requests of the attempts `n` to `m`, without the call's own. */
  function OthersOnly(log: Log, script: nat -> Attempt, n: nat, m: nat, hash: Event -> nat): Log
    decreases if n <= m then m - n + 1 else 0
  {
    if n > m then log else OthersOnly(Met(log, script(n), hash), script, n + 1, m, hash)
  }

  /** An attempt whose transaction stores the event, or finds it stored, and commits under an error. */
  predicate CommitsUnseen(log: Log, e: Event, a: Attempt, hash: Event -> nat) {
    a.fault == CommitThrows(true) && !Persist(log, e, a.fenceHeld, a.now, hash).Refused?
  }

  lemma {:induction false} CallGrows(log: Log, e: Event, script: nat -> Attempt, n: nat, limit: nat, hash: Event -> nat)
    ensures forall r :: r in log.rows ==> r in CallFrom(log, e, script, n, limit, hash).log.rows
    decreases limit - n
  {
    var met := Met(log, script(n), hash);
    RunGrows(log, script(n).others, hash);
    TryStores(met, e, script(n), hash);
    StepGrows(met, Own(e, script(n)), hash);
    var result := Try(met, e, script(n), hash);
    if Retries(result, n, limit) {
      CallGrows(result.log, e, script, n + 1, limit, hash);
    }
  }

  /** A raised attempt leaves its event behind exactly when its transaction committed unseen or it was there. */
  lemma RaisedLeaves(log: Log, e: Event, a: Attempt, hash: Event -> nat)
    requires Try(log, e, a, hash).Raised?
    ensures CommitsUnseen(log, e, a, hash) ==> e in Try(log, e, a, hash).log.rows
    ensures !CommitsUnseen(log, e, a, hash) ==> Try(log, e, a, hash).log == log
  {
  }

  /** Some attempt from the `n`th to the last does, on what the other writers leave it. */
  ghost predicate SomeCommitsUnseen(log: Log, e: Event, script: nat -> Attempt, n: nat, last: nat, hash: Event -> nat) {
    exists m: nat :: n <= m <= last && CommitsUnseen(OthersOnly(log, script, n, m, hash), e, script(m), hash)
  }

  /** The first attempt does, or a later one. */
  lemma FirstOrLater(log: Log, e: Event, script: nat -> Attempt, n: nat, last: nat, hash: Event -> nat)
    requires n <= last
    ensures var met := Met(log, script(n), hash);
            SomeCommitsUnseen(log, e, script, n, last, hash)
            <==> CommitsUnseen(met, e, script(n), hash) || SomeCommitsUnseen(met, e, script, n + 1, last, hash)
  {
    var met := Met(log, script(n), hash);
    assert OthersOnly(log, script, n, n, hash) == met;
    if SomeCommitsUnseen(met, e, script, n + 1, last, hash) {
      var m: nat :| n + 1 <= m <= last && CommitsUnseen(OthersOnly(met, script, n + 1, m, hash), e, script(m), hash);
      assert OthersOnly(log, script, n, m, hash) == OthersOnly(met, script, n + 1, m, hash);
    }
    if SomeCommitsUnseen(log, e, script, n, last, hash) {
      var m: nat :| n <= m <= last && CommitsUnseen(OthersOnly(log, script, n, m, hash), e, script(m), hash);
      assert m > n ==> OthersOnly(log, script, n, m, hash) == OthersOnly(met, script, n + 1, m, hash);
    }
  }

  /** The event is there by others, or some attempt's transaction committed although it reported an error. */
  ghost predicate LeftBehind(log: Log, e: Event, script: nat -> Attempt, n: nat, last: nat, hash: Event -> nat) {
    e in OthersOnly(log, script, n, last, hash).rows || SomeCommitsUnseen(log, e, script, n, last, hash)
  }

  lemma LeftByLater(log: Log, e: Event, script: nat -> Attempt, n: nat, last: nat, tried: Log, end: Log,
                    hash: Event -> nat)
    requires n < last && forall r :: r in tried.rows ==> r in end.rows
    requires CommitsUnseen(Met(log, script(n), hash), e, script(n), hash) ==> e in tried.rows
    requires !CommitsUnseen(Met(log, script(n), hash), e, script(n), hash) ==> tried == Met(log, script(n), hash)
    requires e in end.rows <==> LeftBehind(tried, e, script, n + 1, last, hash)
    ensures e in end.rows <==> LeftBehind(log, e, script, n, last, hash)
  {
    FirstOrLater(log, e, script, n, last, hash);
  }

  lemma LeftByLast(log: Log, e: Event, script: nat -> Attempt, n: nat, tried: Log, hash: Event -> nat)
    requires CommitsUnseen(Met(log, script(n), hash), e, script(n), hash) ==> e in tried.rows
    requires !CommitsUnseen(Met(log, script(n), hash), e, script(n), hash) ==> tried == Met(log, script(n), hash)
    ensures e in tried.rows <==> LeftBehind(log, e, script, n, n, hash)
  {
    FirstOrLater(log, e, script, n, n, hash);
    assert OthersOnly(log, script, n, n, hash) == Met(log, script(n), hash);
    assert !SomeCommitsUnseen(Met(log, script(n), hash), e, script, n + 1, n, hash);
  }

  /**
   Exactly when a call that gives up has its event in the log, whatever other writers do in between: it was
   there before or one of them stored it, or some attempt's transaction committed although it reported an
   error.
   */
  lemma {:induction false} GivenUpHasStoredIff(log: Log, e: Event, script: nat -> Attempt, n: nat, limit: nat,
                                               hash: Event -> nat)
    requires CallFrom(log, e, script, n, limit, hash).GaveUp?
    ensures var call := CallFrom(log, e, script, n, limit, hash);
            n <= call.attempts && (e in call.log.rows <==> LeftBehind(log, e, script, n, call.attempts, hash))
    decreases limit - n
  {
    var met := Met(log, script(n), hash);
    var result := Try(met, e, script(n), hash);
    RaisedLeaves(met, e, script(n), hash);
    if Retries(result, n, limit) {
      var call := CallFrom(result.log, e, script, n + 1, limit, hash);
      CallGrows(result.log, e, script, n + 1, limit, hash);
      GivenUpHasStoredIff(result.log, e, script, n + 1, limit, hash);
      LeftByLater(log, e, script, n, call.attempts, result.log, call.log, hash);
    } else {
      LeftByLast(log, e, script, n, result.log, hash);
    }
  }

  /** Without other writers: exactly when some attempt's transaction went through and its commit reported an error. */
  lemma GivenUpAloneHasStoredIff(log: Log, e: Event, script: nat -> Attempt, n: nat, limit: nat, hash: Event -> nat)
    requires e !in log.rows && forall m :: script(m).others == []
    requires CallFrom(log, e, script, n, limit, hash).GaveUp?
    ensures var call := CallFrom(log, e, script, n, limit, hash);
            e in call.log.rows
            <==> exists m: nat :: n <= m <= call.attempts && CommitsUnseen(log, e, script(m), hash)
  {
    var call := CallFrom(log, e, script, n, limit, hash);
    GivenUpHasStoredIff(log, e, script, n, limit, hash);
    forall m | n <= m
      ensures OthersOnly(log, script, n, m, hash) == log
    {
      AloneStays(log, script, n, m, hash);
    }
  }

  lemma {:induction false} AloneStays(log: Log, script: nat -> Attempt, n: nat, m: nat, hash: Event -> nat)
    requires forall k :: script(k).others == []
    ensures OthersOnly(log, script, n, m, hash) == log
    decreases if n <= m then m - n + 1 else 0
  {
    if n <= m {
      AloneStays(log, script, n + 1, m, hash);
    }
  }

  /** A call that gives up may still have stored its event: the evidence "rolled back" does not tell. */
  lemma GivenUpMayHaveStored(e: Event, errors: Errors, hash: Event -> nat)
    requires e.kind.CycleStarted?
    ensures var a := Attempt([], true, 0, CommitThrows(true), errors, Foreign(0), false, Foreign(0));
            var call := CallFrom(Log([], {}), e, _ => a, 1, 1, hash);
            call.GaveUp? && e in call.log.rows
  {
    var a := Attempt([], true, 0, CommitThrows(true), errors, Foreign(0), false, Foreign(0));
    assert Persist(Log([], {}), e, true, 0, hash) == Persisted(Log([e], {}), false, None) by {
      assert [] + [e] == [e];
    }
    assert Try(Log([], {}), e, a, hash).log == Log([e], {});
  }

  // ------------------------------------------------------------------------------------ fence loss

  lemma TrimKeeps(s: string)
    requires s != [] && !IsSpace(s[0]) && !IsSpace(s[|s| - 1])
    ensures Trim(s) == s
  {
  }

  /** The refusal carries its code in the message only, so it is a fallback and no recognised code. */
  lemma FenceLossIsFallback(node: ErrorNode)
    requires node == ErrorNode(None, Some(FENCE_LOST), None, [])
    ensures RecognisedCode(node).None? && FallbackOf(node) == Some(FENCE_LOST) && Links(node) == []
  {
    TrimKeeps(FENCE_LOST);
  }

  lemma WrapperSaysNothing(a: Ref, b: Ref)
    ensures var node := ErrorNode(None, Some(BOTH_FAILED), None, [a, b]);
            RecognisedCode(node).None? && FallbackOf(node).None? && Links(node) == [a, b]
  {
    assert BOTH_FAILED[0] == "PostgreSQL transaction"[0] && BOTH_FAILED[1] == "PostgreSQL transaction"[1];
    assert BOTH_FAILED[|BOTH_FAILED| - 1] == " and rollback both failed."[25];
    TrimKeeps(BOTH_FAILED);
  }

  /** A search step past an error that is new and holds no recognised code. */
  lemma PastUnrecognised(errors: Errors, r: Ref, rest: seq<Ref>, seen: set<Ref>, next: seq<Ref>)
    requires r in errors && r !in seen && |seen| < 16 && RecognisedCode(errors[r]).None?
             && next == rest + Links(errors[r])
    ensures FirstRecognised(errors, [r] + rest, seen) == FirstRecognised(errors, next, seen + {r})
    ensures FirstFallback(errors, [r] + rest, seen)
         == OrElse(FallbackOf(errors[r]), FirstFallback(errors, next, seen + {r}))
  {
    assert ([r] + rest)[1..] == rest;
  }

  lemma RollbackWorked(errors: Errors)
    requires Refusing in errors && errors[Refusing] == ErrorNode(None, Some(FENCE_LOST), None, [])
    ensures Identity(errors, Refusing) == Some(FENCE_LOST)
  {
    FenceLossIsFallback(errors[Refusing]);
    assert [Refusing][1..] + Links(errors[Refusing]) == [];
    assert FirstRecognised(errors, [], {Refusing}).None?;
  }

  /** With a failed rollback the fence loss is only told if the rollback's error holds no recognised code. */
  lemma RollbackFailed(errors: Errors, rollbackError: Ref)
    requires Refusing in errors && errors[Refusing] == ErrorNode(None, Some(FENCE_LOST), None, [])
    requires Wrapper in errors
    requires errors[Wrapper] == ErrorNode(None, Some(BOTH_FAILED), None, [Refusing, rollbackError])
    ensures Identity(errors, Wrapper)
         == OrElse(FirstRecognised(errors, [rollbackError], {Wrapper, Refusing}), Some(FENCE_LOST))
  {
    FenceLossIsFallback(errors[Refusing]);
    WrapperSaysNothing(Refusing, rollbackError);
    PastUnrecognised(errors, Wrapper, [], {}, [Refusing] + [rollbackError]);
    assert [Wrapper] + [] == [Wrapper];
    PastUnrecognised(errors, Refusing, [rollbackError], {} + {Wrapper}, [rollbackError]);
    assert {} + {Wrapper} + {Refusing} == {Wrapper, Refusing};
  }

  /** The errors a lost fence leaves when its rollback fails as well. */
  function FenceErrors(a: Attempt): Errors {
    a.errors[Refusing := ErrorNode(None, Some(FENCE_LOST), None, [])]
    [Wrapper := ErrorNode(None, Some(BOTH_FAILED), None, [Refusing, a.rollbackError])]
  }

  /**
   Exactly when a lost fence is retried: attempts are left, the rollback failed too, and the first code
   recognised in the rollback's error is a retryable one. After a rollback that works it never is.
   */
  lemma RetriedAfterFenceLossIff(log: Log, e: Event, a: Attempt, n: nat, limit: nat, hash: Event -> nat)
    requires !a.fenceHeld && (a.fault.NoFault? || a.fault.CommitThrows?)
    ensures Retries(Try(log, e, a, hash), n, limit)
       <==> n < limit && a.rollbackFails
            && Retryable(FirstRecognised(FenceErrors(a), [a.rollbackError], {Wrapper, Refusing}))
    ensures !a.rollbackFails ==>
              var result := Try(log, e, a, hash); result.Raised?
                                                  && Identity(result.errors, result.root) == Some(FENCE_LOST)
  {
    var result := Try(log, e, a, hash);
    FenceCodeIsFinal();
    if a.rollbackFails {
      assert result.errors == FenceErrors(a) && result.root == Wrapper;
      RollbackFailed(result.errors, a.rollbackError);
    } else {
      RollbackWorked(result.errors);
    }
  }

  lemma FenceCodeIsFinal()
    ensures !Retryable(Some(FENCE_LOST))
  {
    assert |FENCE_LOST| == 20;
    assert FENCE_LOST[0] == 'S';
  }

  /** A rollback that fails because the connection was reset hides the lost fence, and the call is retried. */
  lemma ResetHidesFenceLoss(log: Log, e: Event, hash: Event -> nat)
    ensures var reset := ErrorNode(Some("ECONNRESET"), None, None, []);
            var a := Attempt([], false, 0, NoFault, map[Foreign(0) := reset], Foreign(0), true, Foreign(0));
            Retries(Try(log, e, a, hash), 1, 2)
  {
    var reset := ErrorNode(Some("ECONNRESET"), None, None, []);
    var a := Attempt([], false, 0, NoFault, map[Foreign(0) := reset], Foreign(0), true, Foreign(0));
    RetriedAfterFenceLossIff(log, e, a, 1, 2, hash);
    ResetIsRecognised(reset);
    var errors := FenceErrors(a);
    assert errors[Foreign(0)] == reset;
    assert FirstRecognised(errors, [Foreign(0)], {Wrapper, Refusing}) == RecognisedCode(reset);
  }

  lemma ResetIsRecognised(reset: ErrorNode)
    requires reset.code == Some("ECONNRESET")
    ensures RecognisedCode(reset) == Some("ECONNRESET") && Retryable(RecognisedCode(reset))
  {
    TrimKeeps("ECONNRESET");
    assert Upper("ECONNRESET") == "ECONNRESET";
  }
}
