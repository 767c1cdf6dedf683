/**
 Breadth-first path search over a finite successor table, as the lifecycle service runs it over its
 transition table. The table may have cycles; it must only be total on the states it mentions.
 */
module GraphSearch {
  import opened Options

  type Graph<S> = map<S, seq<S>>

  /** Every successor of a listed state is itself listed. */
  ghost predicate Total<S(!new)>(g: Graph<S>) {
    forall u, v :: u in g && v in g[u] ==> v in g
  }

  predicate Edge<S(==)>(g: Graph<S>, u: S, v: S) {
    u in g && v in g[u]
  }

  /** A nonempty sequence of states joined by edges of the table. */
  ghost predicate Walk<S(!new)>(g: Graph<S>, p: seq<S>) {
    |p| > 0 && forall k :: 0 <= k < |p| - 1 ==> Edge(g, p[k], p[k + 1])
  }

  ghost predicate Joins<S(!new)>(g: Graph<S>, p: seq<S>, from: S, to: S) {
    Walk(g, p) && p[0] == from && p[|p| - 1] == to
  }

  ghost predicate Simple<S(!new)>(p: seq<S>) {
    forall j, k :: 0 <= j < k < |p| ==> p[j] != p[k]
  }

  ghost predicate Shortest<S(!new)>(g: Graph<S>, p: seq<S>, from: S, to: S) {
    Joins(g, p, from, to) && forall q :: Joins(g, q, from, to) ==> |p| <= |q|
  }

  /** A walk that visits its k-th state at recorded depth k. */
  ghost predicate Traced<S(!new)>(g: Graph<S>, from: S, depth: map<S, nat>, p: seq<S>) {
    Walk(g, p) && p[0] == from && forall k :: 0 <= k < |p| ==> p[k] in depth && depth[p[k]] == k
  }

  /** Queued paths are traced and end as listed; their lengths are ordered and differ by at most one. */
  ghost predicate Queued<S(!new)>(g: Graph<S>, from: S, depth: map<S, nat>, queue: seq<seq<S>>, ends: seq<S>,
                                  length: nat) {
    && |ends| == |queue|
    && (forall a :: 0 <= a < |queue| ==> Traced(g, from, depth, queue[a]) && queue[a][|queue[a]| - 1] == ends[a])
    && (forall a :: 0 <= a < |queue| ==> length <= |queue[a]| <= length + 1)
    && (forall a, b :: 0 <= a < b < |queue| ==> |queue[a]| <= |queue[b]|)
  }

  /** Every visited state outside `open` has all its successors visited, at most one level deeper. */
  ghost predicate Expanded<S(!new)>(g: Graph<S>, depth: map<S, nat>, open: seq<S>) {
    forall u, v :: u in depth && u !in open && Edge(g, u, v) ==> v in depth && depth[v] <= depth[u] + 1
  }

  /** A walk from the start to an unvisited state leaves the visited region through an open state. */
  lemma {:induction false} CrossesFrontier<S(!new)>(g: Graph<S>, from: S, depth: map<S, nat>, open: seq<S>,
                                                    q: seq<S>, n: nat)
    returns (j: nat)
    requires from in depth && depth[from] == 0 && Expanded(g, depth, open)
    requires Walk(g, q) && q[0] == from && n < |q| && q[n] !in depth
    ensures j < n && q[j] in depth && q[j] in open && depth[q[j]] <= j
  {
    j := 0;
    while q[j] !in open
      invariant j < n && q[j] in depth && depth[q[j]] <= j
      decreases n - j
    {
      assert Edge(g, q[j], q[j + 1]);
      j := j + 1;
    }
  }

  /** Each unvisited state is at least one edge past the shallowest open state. */
  lemma UnvisitedIsDeeper<S(!new)>(g: Graph<S>, from: S, to: S, depth: map<S, nat>, open: seq<S>, length: nat)
    requires from in depth && depth[from] == 0 && Expanded(g, depth, open) && to !in depth
    requires forall u :: u in open && u in depth ==> length <= depth[u] + 1
    ensures forall q :: Joins(g, q, from, to) ==> length < |q|
  {
    forall q | Joins(g, q, from, to)
      ensures length < |q|
    {
      var j := CrossesFrontier(g, from, depth, open, q, |q| - 1);
    }
  }

  /** What the search knows between two steps; `busy` is the state being expanded, if any. */
  ghost predicate Searching<S(!new)>(g: Graph<S>, from: S, to: S, depth: map<S, nat>, queue: seq<seq<S>>,
                                     ends: seq<S>, busy: seq<S>, length: nat) {
    && from in depth && depth[from] == 0 && to !in depth && depth.Keys <= g.Keys
    && Queued(g, from, depth, queue, ends, length)
    && (forall v :: v in depth ==> depth[v] <= length)
    && Expanded(g, depth, busy + ends)
  }

  lemma Started<S(!new)>(g: Graph<S>, from: S, to: S)
    requires from in g && from != to
    ensures Searching(g, from, to, map[from := 0], [[from]], [from], [], 1)
  {
    assert Traced(g, from, map[from := 0], [from]);
  }

  /** Taking the head path off the queue makes its end the state being expanded. */
  lemma Dequeue<S(!new)>(g: Graph<S>, from: S, to: S, depth: map<S, nat>, queue: seq<seq<S>>, ends: seq<S>, length: nat)
    requires Searching(g, from, to, depth, queue, ends, [], length) && queue != []
    ensures |ends| == |queue| && Traced(g, from, depth, queue[0]) && queue[0][|queue[0]| - 1] == ends[0]
    ensures Searching(g, from, to, depth, queue[1..], ends[1..], [ends[0]], |queue[0]|)
  {
    assert [] + ends == ends == [ends[0]] + ends[1..];
    assert Queued(g, from, depth, queue[1..], ends[1..], |queue[0]|);
  }

  lemma TracedStays<S(!new)>(g: Graph<S>, from: S, depth: map<S, nat>, deeper: map<S, nat>, p: seq<S>)
    requires Traced(g, from, depth, p) && forall v :: v in depth ==> v in deeper && deeper[v] == depth[v]
    ensures Traced(g, from, deeper, p)
  {
  }

  lemma QueuedGrows<S(!new)>(g: Graph<S>, from: S, depth: map<S, nat>, deeper: map<S, nat>, queue: seq<seq<S>>,
                             ends: seq<S>, p: seq<S>)
    requires |p| > 1 && Queued(g, from, depth, queue, ends, |p| - 1) && Traced(g, from, deeper, p)
    requires forall v :: v in depth ==> v in deeper && deeper[v] == depth[v]
    ensures Queued(g, from, deeper, queue + [p], ends + [p[|p| - 1]], |p| - 1)
  {
    forall a | 0 <= a < |queue|
      ensures Traced(g, from, deeper, queue[a])
    {
      TracedStays(g, from, depth, deeper, queue[a]);
    }
  }

  /** Recording an unvisited successor keeps the search state. */
  lemma Discover<S(!new)>(g: Graph<S>, from: S, to: S, depth: map<S, nat>, queue: seq<seq<S>>, ends: seq<S>,
                          path: seq<S>, next: S)
    requires |path| > 0 && Traced(g, from, depth, path)
    requires Searching(g, from, to, depth, queue, ends, [path[|path| - 1]], |path|)
    requires next !in depth && next != to && next in g && Edge(g, path[|path| - 1], next)
    ensures Traced(g, from, depth[next := |path|], path)
    ensures Searching(g, from, to, depth[next := |path|], queue + [path + [next]], ends + [next], [path[|path| - 1]],
                      |path|)
  {
    var deeper := depth[next := |path|];
    var busy := [path[|path| - 1]];
    TracedStays(g, from, depth, deeper, path);
    QueuedGrows(g, from, depth, deeper, queue, ends, path + [next]);
    assert busy + (ends + [next]) == busy + ends + [next];
    assert next in busy + (ends + [next]);
    assert forall u :: u in busy + ends ==> u in busy + (ends + [next]);
  }

  /** With nothing left to expand the target is unreachable. */
  lemma Exhausted<S(!new)>(g: Graph<S>, from: S, to: S, depth: map<S, nat>, length: nat)
    requires Searching(g, from, to, depth, [], [], [], length)
    ensures forall q :: !Joins(g, q, from, to)
  {
    forall q | Joins(g, q, from, to)
      ensures false
    {
      var j := CrossesFrontier(g, from, depth, [], q, |q| - 1);
    }
  }

  /** A path to an unvisited successor of the state being expanded is a shortest one, and simple. */
  lemma Arrive<S(!new)>(g: Graph<S>, from: S, to: S, depth: map<S, nat>, queue: seq<seq<S>>, ends: seq<S>, path: seq<S>)
    requires |path| > 0 && Traced(g, from, depth, path) && Edge(g, path[|path| - 1], to)
    requires Searching(g, from, to, depth, queue, ends, [path[|path| - 1]], |path|)
    ensures Shortest(g, path + [to], from, to) && Simple(path + [to])
  {
    var open := [path[|path| - 1]] + ends;
    forall u | u in open
      ensures u in depth && |path| <= depth[u] + 1
    {
      if u != path[|path| - 1] {
        var a :| 0 <= a < |ends| && ends[a] == u;
        assert Traced(g, from, depth, queue[a]);
      }
    }
    UnvisitedIsDeeper(g, from, to, depth, open, |path|);
  }

  /** Either nothing changed, or fewer states are left to visit. */
  ghost predicate Advances<S(!new)>(g: Graph<S>, visited0: set<S>, queue0: seq<seq<S>>, visited: set<S>,
                                    queue: seq<seq<S>>) {
    (visited == visited0 && queue == queue0) || |g.Keys - visited| < |g.Keys - visited0|
  }

  lemma VisitingAdvances<S(!new)>(g: Graph<S>, visited0: set<S>, queue0: seq<seq<S>>, visited: set<S>,
                                  queue: seq<seq<S>>, next: S, grown: seq<seq<S>>)
    requires Advances(g, visited0, queue0, visited, queue) && next in g && next !in visited
    ensures Advances(g, visited0, queue0, visited + {next}, grown)
  {
    assert g.Keys - visited == (g.Keys - (visited + {next})) + {next};
  }

  /**
   The inner loop of the search: visits the successors of the state at the end of `path`. It either
   arrives at the target, or queues an extended path for every successor not visited before.
   */
  method ExpandState<S(==, !new)>(g: Graph<S>, ghost from: S, to: S, path: seq<S>, queue0: seq<seq<S>>,
                                  visited0: set<S>,
                                  ghost depth0: map<S, nat>, ghost ends0: seq<S>)
    returns (arrived: Option<seq<S>>, queue: seq<seq<S>>, visited: set<S>, ghost depth: map<S, nat>, ghost ends: seq<S>)
    requires Total(g) && visited0 == depth0.Keys && |path| > 0 && Traced(g, from, depth0, path)
    requires Searching(g, from, to, depth0, queue0, ends0, [path[|path| - 1]], |path|)
    ensures arrived.Some? ==> Shortest(g, arrived.value, from, to) && Simple(arrived.value)
    ensures arrived.None? ==> visited == depth.Keys && Searching(g, from, to, depth, queue, ends, [], |path|)
    ensures arrived.None? ==> Advances(g, visited0, queue0, visited, queue)
  {
    arrived, queue, visited, depth, ends := None, queue0, visited0, depth0, ends0;
    var current := path[|path| - 1];
    for k := 0 to |g[current]|
      invariant visited == depth.Keys && Advances(g, visited0, queue0, visited, queue)
      invariant Traced(g, from, depth, path)
      invariant Searching(g, from, to, depth, queue, ends, [current], |path|)
      invariant forall i :: 0 <= i < k ==> g[current][i] in depth
    {
      var next := g[current][k];
      if next in visited {
        continue;
      }
      var candidate := path + [next];
      assert Edge(g, current, next);
      if next == to {
        Arrive(g, from, to, depth, queue, ends, path);
        return Some(candidate), queue, visited, depth, ends;
      }
      Discover(g, from, to, depth, queue, ends, path, next);
      VisitingAdvances(g, visited0, queue0, visited, queue, next, queue + [candidate]);
      visited := visited + {next};
      queue, ends := queue + [candidate], ends + [next];
      depth := depth[next := |path|];
    }
    assert [] + ends == ends;
  }

  /**
   The search: Some path when the target is reachable, and then a simple one of minimum length; None
   (the source throws) exactly when no walk reaches the target.
   */
  method ResolvePath<S(==, !new)>(g: Graph<S>, from: S, to: S) returns (r: Option<seq<S>>)
    requires Total(g) && from in g
    ensures r.Some? ==> Shortest(g, r.value, from, to) && Simple(r.value)
    ensures r.None? <==> forall q :: !Joins(g, q, from, to)
  {
    if from == to {
      assert Joins(g, [from], from, to);
      return Some([from]);
    }
    var queue := [[from]];
    var visited := {from};
    ghost var depth: map<S, nat>, ends := map[from := 0], [from];
    ghost var length: nat := 1;
    Started(g, from, to);
    while queue != []
      invariant visited == depth.Keys
      invariant Searching(g, from, to, depth, queue, ends, [], length)
      decreases |g.Keys - visited|, |queue|
    {
      Dequeue(g, from, to, depth, queue, ends, length);
      var path := queue[0];
      length := |path|;
      var arrived;
      arrived, queue, visited, depth, ends := ExpandState(g, from, to, path, queue[1..], visited, depth, ends[1..]);
      if arrived.Some? {
        return arrived;
      }
    }
    Exhausted(g, from, to, depth, length);
    return None;
  }
}
