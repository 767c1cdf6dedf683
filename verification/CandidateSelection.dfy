/**
 Selecting research candidates: best score first, within caps on the whole list and on each symbol,
 direction and expression; with a relaxed fallback for the aggressive profile.
 */
module CandidateSelection {
  import opened Options
  import opened Sorting

  datatype Candidate = Candidate(id: nat, symbol: nat, direction: nat, expression: nat, score: real, suspended: bool)

  /** The caps in force. */
  datatype Caps = Caps(candidates: int, perSymbol: int, perDirection: int, perExpression: int)

  datatype Profile = Aggressive | Balanced | Conservative

  datatype Reason =
    | Suspended | MaxCandidates | MaxPerSymbol | MaxPerDirection | MaxPerExpression | RankingConstraint | RankedSelected

  datatype Decision = Decision(candidate: Candidate, rank: nat, selected: bool, reason: Reason)

  function ProfileCaps(profile: Profile, candidates: int): Caps {
    match profile
    case Aggressive => Caps(candidates, 3, 8, 6)
    case Balanced => Caps(candidates, 2, 5, 4)
    case Conservative => Caps(candidates, 1, 3, 2)
  }

  function CapFor(requested: int, profile: int): int {
    if requested == 0 then profile else requested
  }

  /** A missing or zero cap is the profile's, except the number of candidates, which is taken as it comes. */
  function CapsFor(requested: Caps, profile: Profile): Caps {
    var defaults := ProfileCaps(profile, requested.candidates);
    Caps(requested.candidates, CapFor(requested.perSymbol, defaults.perSymbol),
         CapFor(requested.perDirection, defaults.perDirection), CapFor(requested.perExpression, defaults.perExpression))
  }

  function ByScore(scored: seq<Candidate>): seq<Candidate> {
    Sort(scored, (a: Candidate, b: Candidate) => a.score >= b.score)
  }

  function Count(s: seq<Candidate>, p: Candidate -> bool): nat {
    if s == [] then 0 else Count(s[..|s| - 1], p) + if p(s[|s| - 1]) then 1 else 0
  }

  function SymbolCount(s: seq<Candidate>, symbol: nat): nat {
    Count(s, (c: Candidate) => c.symbol == symbol)
  }

  function DirectionCount(s: seq<Candidate>, direction: nat): nat {
    Count(s, (c: Candidate) => c.direction == direction)
  }

  function ExpressionCount(s: seq<Candidate>, expression: nat): nat {
    Count(s, (c: Candidate) => c.expression == expression)
  }

  /** Why a candidate cannot join the selected ones, if it cannot. */
  function Obstacle(selected: seq<Candidate>, c: Candidate, caps: Caps): Option<Reason> {
    if c.suspended then Some(Suspended)
    else if |selected| >= caps.candidates then Some(MaxCandidates)
    else if SymbolCount(selected, c.symbol) >= caps.perSymbol then Some(MaxPerSymbol)
    else if DirectionCount(selected, c.direction) >= caps.perDirection then Some(MaxPerDirection)
    else if ExpressionCount(selected, c.expression) >= caps.perExpression then Some(MaxPerExpression)
    else None
  }

  /** One pass, each candidate judged against those selected before it. */
  function Greedy(sorted: seq<Candidate>, caps: Caps): seq<Candidate> {
    if sorted == [] then []
    else
      var before, c := Greedy(sorted[..|sorted| - 1], caps), sorted[|sorted| - 1];
      if Obstacle(before, c, caps).None? then before + [c] else before
  }

  /** The prefix a slice from zero takes: a negative end counts from the back. */
  function Slice(s: seq<Candidate>, end: int): seq<Candidate> {
    if end >= |s| then s
    else if end >= 0 then s[..end]
    else if |s| + end >= 0 then s[..|s| + end]
    else []
  }

  function Eligible(sorted: seq<Candidate>): seq<Candidate> {
    if sorted == [] then []
    else Eligible(sorted[..|sorted| - 1]) + if sorted[|sorted| - 1].suspended then [] else [sorted[|sorted| - 1]]
  }

  predicate FallsBack(sorted: seq<Candidate>, caps: Caps, aggressive: bool) {
    Greedy(sorted, caps) == [] && Eligible(sorted) != [] && aggressive
  }

  function Selected(sorted: seq<Candidate>, caps: Caps, aggressive: bool): seq<Candidate> {
    if FallsBack(sorted, caps, aggressive) then Slice(Eligible(sorted), caps.candidates) else Greedy(sorted, caps)
  }

  /** The place of a candidate among the selected ones, counted from one. */
  function RankIn(selected: seq<Candidate>, id: nat): Option<nat> {
    if selected == [] then None
    else if selected[|selected| - 1].id == id then Some(|selected|)
    else RankIn(selected[..|selected| - 1], id)
  }

  predicate UniqueIds(s: seq<Candidate>) {
    forall a, b :: 0 <= a < b < |s| ==> s[a].id != s[b].id
  }

  // ------------------------------------------------------------------------------------ the program

  function Tally(counts: map<nat, nat>, key: nat): nat {
    if key in counts then counts[key] else 0
  }

  lemma GreedyStep(sorted: seq<Candidate>, n: nat, caps: Caps)
    requires n < |sorted|
    ensures var before := Greedy(sorted[..n], caps);
            Greedy(sorted[..n + 1], caps) == if Obstacle(before, sorted[n], caps).None? then before + [sorted[n]]
            else before
  {
    assert sorted[..n + 1][..n] == sorted[..n];
  }

  /** The checks on one candidate, against the tallies kept so far. */
  method Judge(selected: seq<Candidate>, c: Candidate, caps: Caps,
               bySymbol: map<nat, nat>, byDirection: map<nat, nat>, byExpression: map<nat, nat>)
    returns (obstacle: Option<Reason>)
    requires TalliesMatch(bySymbol, byDirection, byExpression, selected)
    ensures obstacle == Obstacle(selected, c, caps)
  {
    if c.suspended {
      return Some(Suspended);
    }
    if |selected| >= caps.candidates {
      return Some(MaxCandidates);
    }
    if Tally(bySymbol, c.symbol) >= caps.perSymbol {
      return Some(MaxPerSymbol);
    }
    if Tally(byDirection, c.direction) >= caps.perDirection {
      return Some(MaxPerDirection);
    }
    if Tally(byExpression, c.expression) >= caps.perExpression {
      return Some(MaxPerExpression);
    }
    return None;
  }

  method SelectStrictly(sorted: seq<Candidate>, caps: Caps)
    returns (selected: seq<Candidate>, skipped: map<nat, Reason>)
    requires UniqueIds(sorted)
    ensures selected == Greedy(sorted, caps)
    ensures forall n :: 0 <= n < |sorted| ==> SkippedAt(skipped, sorted, n, caps)
  {
    selected, skipped := [], map[];
    var bySymbol: map<nat, nat> := map[];
    var byDirection: map<nat, nat> := map[];
    var byExpression: map<nat, nat> := map[];
    var n := 0;
    while n < |sorted|
      invariant 0 <= n <= |sorted| && selected == Greedy(sorted[..n], caps)
      invariant TalliesMatch(bySymbol, byDirection, byExpression, selected)
      invariant SkipsMatch(skipped, sorted, n, caps)
    {
      var c := sorted[n];
      GreedyStep(sorted, n, caps);
      SkipsStep(skipped, sorted, n, caps);
      var obstacle := Judge(selected, c, caps, bySymbol, byDirection, byExpression);
      if obstacle.Some? {
        skipped := skipped[c.id := obstacle.value];
      } else {
        TalliesStep(bySymbol, byDirection, byExpression, selected, c);
        bySymbol := bySymbol[c.symbol := Tally(bySymbol, c.symbol) + 1];
        byDirection := byDirection[c.direction := Tally(byDirection, c.direction) + 1];
        byExpression := byExpression[c.expression := Tally(byExpression, c.expression) + 1];
        selected := selected + [c];
      }
      n := n + 1;
    }
    assert sorted[..n] == sorted;
  }

  /** The first candidates are skipped for what stood in their way, and nobody else is. */
  ghost predicate SkipsMatch(skipped: map<nat, Reason>, sorted: seq<Candidate>, n: nat, caps: Caps)
    requires n <= |sorted|
  {
    && (forall id :: id in skipped ==> exists m :: 0 <= m < n && sorted[m].id == id)
    && (forall m :: 0 <= m < n ==> SkippedAt(skipped, sorted, m, caps))
  }

  predicate SkippedAt(skipped: map<nat, Reason>, sorted: seq<Candidate>, m: nat, caps: Caps)
    requires m < |sorted|
  {
    SkippedRight(skipped, sorted[m], Obstacle(Greedy(sorted[..m], caps), sorted[m], caps))
  }

  lemma SkipElsewhere(skipped: map<nat, Reason>, sorted: seq<Candidate>, m: nat, caps: Caps, id: nat, reason: Reason)
    requires m < |sorted| && SkippedAt(skipped, sorted, m, caps) && sorted[m].id != id
    ensures SkippedAt(skipped[id := reason], sorted, m, caps)
  {
  }

  lemma SkipHere(skipped: map<nat, Reason>, sorted: seq<Candidate>, n: nat, caps: Caps)
    requires n < |sorted| && sorted[n].id !in skipped
    ensures var obstacle := Obstacle(Greedy(sorted[..n], caps), sorted[n], caps);
            SkippedAt(if obstacle.Some? then skipped[sorted[n].id := obstacle.value] else skipped, sorted, n, caps)
  {
  }

  lemma SkipsStep(skipped: map<nat, Reason>, sorted: seq<Candidate>, n: nat, caps: Caps)
    requires n < |sorted| && UniqueIds(sorted) && SkipsMatch(skipped, sorted, n, caps)
    ensures var obstacle := Obstacle(Greedy(sorted[..n], caps), sorted[n], caps);
            SkipsMatch(if obstacle.Some? then skipped[sorted[n].id := obstacle.value] else skipped, sorted, n + 1, caps)
  {
    var c := sorted[n];
    assert c.id !in skipped;
    var obstacle := Obstacle(Greedy(sorted[..n], caps), c, caps);
    var after := if obstacle.Some? then skipped[c.id := obstacle.value] else skipped;
    SkipHere(skipped, sorted, n, caps);
    forall m | 0 <= m < n
      ensures SkippedAt(after, sorted, m, caps)
    {
      if obstacle.Some? {
        SkipElsewhere(skipped, sorted, m, caps, c.id, obstacle.value);
      }
    }
    forall id | id in after
      ensures exists m :: 0 <= m < n + 1 && sorted[m].id == id
    {
      if id in skipped {
        var m :| 0 <= m < n && sorted[m].id == id;
      } else {
        assert sorted[n].id == id;
      }
    }
  }

  predicate SkippedRight(skipped: map<nat, Reason>, c: Candidate, obstacle: Option<Reason>) {
    (c.id in skipped <==> obstacle.Some?) && (obstacle.Some? ==> skipped[c.id] == obstacle.value)
  }

  ghost predicate TalliesMatch(bySymbol: map<nat, nat>, byDirection: map<nat, nat>, byExpression: map<nat, nat>,
                               selected: seq<Candidate>) {
    && (forall k: nat :: Tally(bySymbol, k) == SymbolCount(selected, k))
    && (forall k: nat :: Tally(byDirection, k) == DirectionCount(selected, k))
    && (forall k: nat :: Tally(byExpression, k) == ExpressionCount(selected, k))
  }

  lemma TalliesStep(bySymbol: map<nat, nat>, byDirection: map<nat, nat>, byExpression: map<nat, nat>,
                    selected: seq<Candidate>, c: Candidate)
    requires TalliesMatch(bySymbol, byDirection, byExpression, selected)
    ensures TalliesMatch(bySymbol[c.symbol := Tally(bySymbol, c.symbol) + 1],
                         byDirection[c.direction := Tally(byDirection, c.direction) + 1],
                         byExpression[c.expression := Tally(byExpression, c.expression) + 1], selected + [c])
  {
    CountsAppend(selected, c);
  }

  lemma CountsAppend(selected: seq<Candidate>, c: Candidate)
    ensures forall k: nat ::
              SymbolCount(selected + [c], k) == SymbolCount(selected, k) + if c.symbol == k then 1 else 0
    ensures forall k: nat ::
              DirectionCount(selected + [c], k) == DirectionCount(selected, k) + if c.direction == k then 1 else 0
    ensures forall k: nat ::
              ExpressionCount(selected + [c], k) == ExpressionCount(selected, k) + if c.expression == k then 1 else 0
  {
    assert (selected + [c])[..|selected|] == selected;
  }

  method FilterEligible(sorted: seq<Candidate>) returns (eligible: seq<Candidate>)
    ensures eligible == Eligible(sorted)
  {
    eligible := [];
    for n := 0 to |sorted|
      invariant eligible == Eligible(sorted[..n])
    {
      assert sorted[..n + 1][..n] == sorted[..n];
      if !sorted[n].suspended {
        eligible := eligible + [sorted[n]];
      }
    }
    assert sorted[..|sorted|] == sorted;
  }

  /** Everybody not selected was skipped for what stood in the way. */
  predicate Explained(skipped: map<nat, Reason>, sorted: seq<Candidate>, selected: seq<Candidate>, caps: Caps) {
    forall n :: 0 <= n < |sorted| ==>
                  RankIn(selected, sorted[n].id).None? ==>
                    SkippedAt(skipped, sorted, n, caps) && sorted[n].id in skipped
  }

  lemma StrictlyExplained(skipped: map<nat, Reason>, sorted: seq<Candidate>, caps: Caps)
    requires UniqueIds(sorted) && forall n :: 0 <= n < |sorted| ==> SkippedAt(skipped, sorted, n, caps)
    ensures Explained(skipped, sorted, Greedy(sorted, caps), caps)
  {
    forall n | 0 <= n < |sorted|
      ensures RankIn(Greedy(sorted, caps), sorted[n].id).None? ==> sorted[n].id in skipped
    {
      GreedyRanks(sorted, caps, n);
      assert SkippedAt(skipped, sorted, n, caps);
    }
  }

  /** Taking selected candidates out of the skipped ones leaves everybody else explained. */
  lemma StillExplained(skipped: map<nat, Reason>, sorted: seq<Candidate>, selected: seq<Candidate>, caps: Caps)
    requires Explained(skipped, sorted, [], caps)
    ensures Explained(map id | id in skipped && RankIn(selected, id).None? :: skipped[id], sorted, selected, caps)
  {
  }

  /** One decision for every candidate, in the order of the scores. */
  method Decide(sorted: seq<Candidate>, caps: Caps, selected: seq<Candidate>, skipped: map<nat, Reason>)
    returns (decisions: seq<Decision>)
    requires Explained(skipped, sorted, selected, caps)
    ensures |decisions| == |sorted|
    ensures forall n :: 0 <= n < |decisions| ==> DecisionRight(decisions[n], sorted, n, caps, selected)
  {
    decisions := [];
    for n := 0 to |sorted|
      invariant |decisions| == n
      invariant forall m :: 0 <= m < n ==> DecisionRight(decisions[m], sorted, m, caps, selected)
    {
      var rank := RankIn(selected, sorted[n].id);
      var reason :=
        if rank.Some? then RankedSelected
        else if sorted[n].id in skipped then skipped[sorted[n].id] else RankingConstraint;
      decisions := decisions + [Decision(sorted[n], if rank.Some? then rank.value else n + 1, rank.Some?, reason)];
    }
  }

  /** Selection, fallback, ranks and one decision for every scored candidate. */
  method Rank(scored: seq<Candidate>, requested: Caps, profile: Profile)
    returns (selected: seq<Candidate>, decisions: seq<Decision>, relaxed: bool)
    requires UniqueIds(scored)
    ensures selected == Selected(ByScore(scored), CapsFor(requested, profile), profile.Aggressive?)
    ensures relaxed == FallsBack(ByScore(scored), CapsFor(requested, profile), profile.Aggressive?)
    ensures |decisions| == |scored| == |ByScore(scored)|
    ensures forall n :: 0 <= n < |decisions| ==>
                          DecisionRight(decisions[n], ByScore(scored), n, CapsFor(requested, profile), selected)
  {
    var caps, aggressive := CapsFor(requested, profile), profile.Aggressive?;
    var sorted := ByScore(scored);
    SortedIds(scored);
    var skipped: map<nat, Reason>;
    selected, skipped := SelectStrictly(sorted, caps);
    StrictlyExplained(skipped, sorted, caps);
    var eligible := FilterEligible(sorted);
    relaxed := selected == [] && eligible != [] && aggressive;
    if relaxed {
      selected := Slice(eligible, caps.candidates);
      StillExplained(skipped, sorted, selected, caps);
      skipped := map id | id in skipped && RankIn(selected, id).None? :: skipped[id];
    }
    decisions := Decide(sorted, caps, selected, skipped);
  }

  /** A decision ranks a selected candidate by its place, and says what stood in the way of any other. */
  predicate DecisionRight(d: Decision, sorted: seq<Candidate>, n: nat, caps: Caps, selected: seq<Candidate>)
    requires n < |sorted|
  {
    var rank := RankIn(selected, sorted[n].id);
    && d.candidate == sorted[n] && d.selected == rank.Some?
    && d.rank == (if rank.Some? then rank.value else n + 1)
    && (rank.Some? ==> d.reason.RankedSelected?)
    && (rank.None? ==> Obstacle(Greedy(sorted[..n], caps), sorted[n], caps) == Some(d.reason))
  }

  // ------------------------------------------------------------------------------------- the order

  lemma ScoreRanks()
    ensures Ranks((a: Candidate, b: Candidate) => a.score >= b.score)
  {
  }

  lemma {:induction false} UniqueKept(a: seq<Candidate>, b: seq<Candidate>)
    requires multiset(a) == multiset(b) && UniqueIds(a)
    ensures UniqueIds(b)
  {
    forall m, n | 0 <= m < n < |b|
      ensures b[m].id != b[n].id
    {
      PairOccurs(b, m, n);
      assert b[m] in multiset(a) && b[n] in multiset(a);
      var i :| 0 <= i < |a| && a[i] == b[m];
      var j :| 0 <= j < |a| && a[j] == b[n];
      if i == j {
        OccursOnce(a, i);
      }
    }
  }

  lemma PairOccurs(b: seq<Candidate>, m: nat, n: nat)
    requires m < n < |b|
    ensures b[m] in multiset(b) && b[n] in multiset(b) && (b[m] == b[n] ==> multiset(b)[b[m]] >= 2)
  {
    assert b == b[..n] + [b[n]] + b[n + 1..];
    assert b[m] in b[..n];
  }

  lemma OccursOnce(a: seq<Candidate>, i: nat)
    requires UniqueIds(a) && i < |a|
    ensures multiset(a)[a[i]] == 1
  {
    assert a == a[..i] + [a[i]] + a[i + 1..];
    assert a[i] !in a[..i] && a[i] !in a[i + 1..];
  }

  lemma SortedIds(scored: seq<Candidate>)
    requires UniqueIds(scored)
    ensures UniqueIds(ByScore(scored)) && |ByScore(scored)| == |scored|
  {
    var le := (a: Candidate, b: Candidate) => a.score >= b.score;
    SortKeeps(scored, le);
    UniqueKept(scored, ByScore(scored));
    assert |multiset(scored)| == |scored| && |multiset(ByScore(scored))| == |ByScore(scored)|;
  }

  // ------------------------------------------------------------------------------------------ greedy

  lemma {:induction false} GreedyMembers(sorted: seq<Candidate>, caps: Caps)
    ensures forall c :: c in Greedy(sorted, caps) ==> c in sorted && !c.suspended
  {
    if sorted != [] {
      GreedyMembers(sorted[..|sorted| - 1], caps);
      assert sorted == sorted[..|sorted| - 1] + [sorted[|sorted| - 1]];
    }
  }

  lemma {:induction false} RankNone(selected: seq<Candidate>, id: nat)
    ensures RankIn(selected, id).None? <==> forall c :: c in selected ==> c.id != id
  {
    if selected != [] {
      RankNone(selected[..|selected| - 1], id);
      assert selected == selected[..|selected| - 1] + [selected[|selected| - 1]];
    }
  }

  /** Later candidates only add to the selection. */
  lemma {:induction false} GreedyGrows(sorted: seq<Candidate>, caps: Caps, n: nat)
    requires n <= |sorted|
    ensures |Greedy(sorted[..n], caps)| <= |Greedy(sorted, caps)|
    ensures Greedy(sorted, caps)[..|Greedy(sorted[..n], caps)|] == Greedy(sorted[..n], caps)
    ensures forall c :: c in Greedy(sorted, caps) ==> c in Greedy(sorted[..n], caps) || c in sorted[n..]
    decreases |sorted|
  {
    if n == |sorted| {
      assert sorted[..n] == sorted;
    } else {
      var front := sorted[..|sorted| - 1];
      GreedyGrows(front, caps, n);
      assert front[..n] == sorted[..n];
      assert sorted[n..] == front[n..] + [sorted[|sorted| - 1]];
    }
  }

  /** A candidate is selected exactly when nothing stood in its way at its turn. */
  lemma GreedyRanks(sorted: seq<Candidate>, caps: Caps, n: nat)
    requires UniqueIds(sorted) && n < |sorted|
    ensures RankIn(Greedy(sorted, caps), sorted[n].id).Some?
       <==> Obstacle(Greedy(sorted[..n], caps), sorted[n], caps).None?
  {
    var all, before, c := Greedy(sorted, caps), Greedy(sorted[..n], caps), sorted[n];
    RankNone(all, c.id);
    GreedyGrows(sorted, caps, n + 1);
    assert sorted[..n + 1][..n] == sorted[..n];
    GreedyMembers(sorted[..n], caps);
    if Obstacle(before, c, caps).None? {
      assert Greedy(sorted[..n + 1], caps) == before + [c];
      assert all[|before|] == c;
    } else {
      forall d | d in all
        ensures d.id != c.id
      {
        if d in before {
          var m :| 0 <= m < n && sorted[..n][m] == d;
          assert sorted[m] == d;
        } else {
          var m :| 0 <= m < |sorted[n + 1..]| && sorted[n + 1..][m] == d;
          assert sorted[n + 1 + m] == d;
        }
      }
    }
  }

  predicate WithinCaps(s: seq<Candidate>, caps: Caps) {
    && (s != [] ==> |s| <= caps.candidates)
    && forall c :: c in s ==>
                     SymbolCount(s, c.symbol) <= caps.perSymbol && DirectionCount(s, c.direction) <= caps.perDirection
                     && ExpressionCount(s, c.expression) <= caps.perExpression
  }

  lemma {:induction false} CountMonotone(a: seq<Candidate>, b: seq<Candidate>, p: Candidate -> bool)
    ensures Count(a, p) <= Count(a + b, p)
  {
    if b == [] {
      assert a + b == a;
    } else {
      CountMonotone(a, b[..|b| - 1], p);
      assert (a + b)[..|a + b| - 1] == a + b[..|b| - 1];
    }
  }

  /** The strict selection keeps every cap. */
  lemma {:induction false} GreedyWithinCaps(sorted: seq<Candidate>, caps: Caps)
    ensures WithinCaps(Greedy(sorted, caps), caps)
  {
    if sorted != [] {
      var before, c := Greedy(sorted[..|sorted| - 1], caps), sorted[|sorted| - 1];
      GreedyWithinCaps(sorted[..|sorted| - 1], caps);
      if Obstacle(before, c, caps).None? {
        CountsAppend(before, c);
        forall d | d in before + [c]
          ensures SymbolCount(before + [c], d.symbol) <= caps.perSymbol
                  && DirectionCount(before + [c], d.direction) <= caps.perDirection
                  && ExpressionCount(before + [c], d.expression) <= caps.perExpression
        {
          assert d in before || d == c;
        }
      }
    }
  }

  lemma ObstacleStays(before: seq<Candidate>, more: seq<Candidate>, c: Candidate, caps: Caps)
    requires Obstacle(before, c, caps).Some?
    ensures Obstacle(before + more, c, caps).Some?
  {
    CountMonotone(before, more, (d: Candidate) => d.symbol == c.symbol);
    CountMonotone(before, more, (d: Candidate) => d.direction == c.direction);
    CountMonotone(before, more, (d: Candidate) => d.expression == c.expression);
  }

  lemma ObstacleBreaksCaps(all: seq<Candidate>, c: Candidate, caps: Caps)
    requires Obstacle(all, c, caps).Some? && !c.suspended
    ensures !WithinCaps(all + [c], caps)
  {
    CountsAppend(all, c);
    assert c in all + [c];
  }

  /** Inclusion-maximal: adding any skipped eligible candidate to the selection would break a cap. */
  lemma GreedyIsMaximal(sorted: seq<Candidate>, caps: Caps, n: nat)
    requires UniqueIds(sorted) && n < |sorted| && sorted[n] !in Greedy(sorted, caps)
    ensures !sorted[n].suspended ==> !WithinCaps(Greedy(sorted, caps) + [sorted[n]], caps)
  {
    var all, before, c := Greedy(sorted, caps), Greedy(sorted[..n], caps), sorted[n];
    SkippedHadObstacle(sorted, caps, n);
    GreedyGrows(sorted, caps, n);
    assert all == before + all[|before|..];
    ObstacleStays(before, all[|before|..], c, caps);
    if !c.suspended {
      ObstacleBreaksCaps(all, c, caps);
    }
  }

  lemma SkippedHadObstacle(sorted: seq<Candidate>, caps: Caps, n: nat)
    requires UniqueIds(sorted) && n < |sorted| && sorted[n] !in Greedy(sorted, caps)
    ensures Obstacle(Greedy(sorted[..n], caps), sorted[n], caps).Some?
  {
    GreedyRanks(sorted, caps, n);
    GreedyMembers(sorted, caps);
    forall d | d in Greedy(sorted, caps)
      ensures d.id != sorted[n].id
    {
      var m :| 0 <= m < |sorted| && sorted[m] == d;
    }
    RankNone(Greedy(sorted, caps), sorted[n].id);
  }

  predicate Descends(s: seq<Candidate>) {
    forall a, b :: 0 <= a < b < |s| ==> s[a].score >= s[b].score
  }

  lemma DescendsAppend(s: seq<Candidate>, c: Candidate)
    requires Descends(s) && forall d :: d in s ==> d.score >= c.score
    ensures Descends(s + [c])
  {
  }

  lemma LastIsLowest(sorted: seq<Candidate>, d: Candidate)
    requires Descends(sorted) && sorted != [] && d in sorted[..|sorted| - 1]
    ensures d.score >= sorted[|sorted| - 1].score
  {
    var m :| 0 <= m < |sorted| - 1 && sorted[..|sorted| - 1][m] == d;
    assert sorted[m] == d;
  }

  /** The strict selection keeps the order, so its scores descend with its ranks. */
  lemma {:induction false} GreedyDescends(sorted: seq<Candidate>, caps: Caps)
    requires Descends(sorted)
    ensures Descends(Greedy(sorted, caps))
  {
    if sorted != [] {
      var front, c := sorted[..|sorted| - 1], sorted[|sorted| - 1];
      GreedyDescends(front, caps);
      GreedyMembers(front, caps);
      forall d | d in Greedy(front, caps)
        ensures d.score >= c.score
      {
        LastIsLowest(sorted, d);
      }
      DescendsAppend(Greedy(front, caps), c);
    }
  }

  lemma {:induction false} EligibleDescends(sorted: seq<Candidate>)
    requires Descends(sorted)
    ensures Descends(Eligible(sorted)) && forall c :: c in Eligible(sorted) <==> c in sorted && !c.suspended
  {
    if sorted != [] {
      var front, c := sorted[..|sorted| - 1], sorted[|sorted| - 1];
      EligibleDescends(front);
      assert sorted == front + [c];
      forall d | d in Eligible(front)
        ensures d.score >= c.score
      {
        LastIsLowest(sorted, d);
      }
      DescendsAppend(Eligible(front), c);
    }
  }

  /** However candidates are selected, they come in descending score and are taken from those scored. */
  lemma SelectionDescends(scored: seq<Candidate>, caps: Caps, aggressive: bool)
    ensures Descends(Selected(ByScore(scored), caps, aggressive))
    ensures forall c :: c in Selected(ByScore(scored), caps, aggressive) ==> c in ByScore(scored) && !c.suspended
  {
    var le := (a: Candidate, b: Candidate) => a.score >= b.score;
    ScoreRanks();
    SortSorts(scored, le);
    var sorted := ByScore(scored);
    forall a, b | 0 <= a < b < |sorted|
      ensures sorted[a].score >= sorted[b].score
    {
      assert le(sorted[a], sorted[b]);
    }
    GreedyDescends(sorted, caps);
    GreedyMembers(sorted, caps);
    EligibleDescends(sorted);
  }

  // ---------------------------------------------------------------------------------------- fallback

  predicate AllPositive(caps: Caps) {
    caps.candidates >= 1 && caps.perSymbol >= 1 && caps.perDirection >= 1 && caps.perExpression >= 1
  }

  /** The strict selection is empty exactly when nobody is eligible or some cap lets nobody in. */
  lemma {:induction false} EmptyIff(sorted: seq<Candidate>, caps: Caps)
    ensures Greedy(sorted, caps) == [] <==> Eligible(sorted) == [] || !AllPositive(caps)
  {
    if sorted != [] {
      EmptyIff(sorted[..|sorted| - 1], caps);
      var c := sorted[|sorted| - 1];
      assert SymbolCount([], c.symbol) == 0 && DirectionCount([], c.direction) == 0
             && ExpressionCount([], c.expression) == 0;
    }
  }

  /** The fallback is reached exactly when somebody is eligible, the profile aggressive and some cap not positive. */
  lemma FallsBackIff(sorted: seq<Candidate>, caps: Caps, aggressive: bool)
    ensures FallsBack(sorted, caps, aggressive) <==> aggressive && Eligible(sorted) != [] && !AllPositive(caps)
  {
    EmptyIff(sorted, caps);
  }

  /**
   In terms of what is asked for: with everything asked for at least zero, and at least one candidate, the
   fallback is out of reach; and a cap of zero never leads to it, since the profile's takes its place.
   */
  lemma RequestFallsBackIff(sorted: seq<Candidate>, requested: Caps, profile: Profile)
    ensures FallsBack(sorted, CapsFor(requested, profile), profile.Aggressive?)
       <==> && profile.Aggressive? && Eligible(sorted) != []
            && (requested.candidates <= 0 || requested.perSymbol < 0 || requested.perDirection < 0
                || requested.perExpression < 0)
  {
    FallsBackIff(sorted, CapsFor(requested, profile), profile.Aggressive?);
  }

  /** With a negative maximum the fallback takes all eligible candidates but that many of the last ones. */
  lemma NegativeMaximumSelects(sorted: seq<Candidate>, caps: Caps)
    requires caps.candidates < 0
    ensures var eligible := Eligible(sorted);
            var kept := if |eligible| + caps.candidates >= 0 then |eligible| + caps.candidates else 0;
            Selected(sorted, caps, true) == eligible[..kept]
  {
    FallsBackIff(sorted, caps, true);
    EmptyIff(sorted, caps);
  }

  // ---------------------------------------------------------------------- what a profile stands for

  /** How many of a symbol, a direction and an expression a profile allows where nothing is asked for. */
  predicate Allows(profile: Profile, symbols: int, directions: int, expressions: int) {
    match profile
    case Conservative => symbols == 1 && directions == 3 && expressions == 2
    case Balanced => symbols == 2 && directions == 5 && expressions == 4
    case Aggressive => symbols == 3 && directions == 8 && expressions == 6
  }

  /**
   With nothing asked for but a positive number of candidates, the selection keeps the profile's caps, and
   taking in any other eligible candidate would break one of them.
   */
  lemma ProfileDecides(scored: seq<Candidate>, profile: Profile, most: int, symbols: int, directions: int,
                       expressions: int, n: nat)
    requires most > 0 && Allows(profile, symbols, directions, expressions) && UniqueIds(ByScore(scored))
    requires n < |ByScore(scored)| && !ByScore(scored)[n].suspended
    ensures var sorted, caps := ByScore(scored), Caps(most, symbols, directions, expressions);
            var selected := Selected(sorted, CapsFor(Caps(most, 0, 0, 0), profile), profile.Aggressive?);
            && WithinCaps(selected, caps)
            && (sorted[n] !in selected ==> !WithinCaps(selected + [sorted[n]], caps))
  {
    var sorted, asked := ByScore(scored), Caps(most, 0, 0, 0);
    RequestFallsBackIff(sorted, asked, profile);
    GreedyWithinCaps(sorted, CapsFor(asked, profile));
    if sorted[n] !in Greedy(sorted, CapsFor(asked, profile)) {
      GreedyIsMaximal(sorted, CapsFor(asked, profile), n);
    }
  }

  /** A cap that is asked for, and is not zero, is the cap; a zero cap is the profile's. */
  lemma AskedOrProfile(requested: Caps, profile: Profile, symbols: int, directions: int, expressions: int)
    requires Allows(profile, symbols, directions, expressions)
    ensures var caps := CapsFor(requested, profile);
            && caps.candidates == requested.candidates
            && caps.perSymbol == (if requested.perSymbol != 0 then requested.perSymbol else symbols)
            && caps.perDirection == (if requested.perDirection != 0 then requested.perDirection else directions)
            && caps.perExpression == (if requested.perExpression != 0 then requested.perExpression else expressions)
  {
  }
}
