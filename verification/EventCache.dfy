/**
 The data hub's bounded cache: the latest event of every key, least recently accepted keys evicted first.
 On any input it holds the last accepted event of the most recently accepted keys, and exactly while few
 enough keys are touched it is the simple fold that keeps the greatest timestamp, the last one on ties.
 */
module EventCache {
  import opened Options
  import opened Sequences

  type Time = int

  datatype Kind = LatestQuote | LatestTrade | IntradayBar | DailyBar | OtherKind(code: nat)

  /** The parts of an event the cache and its readers look at; `at` is the provider's time, else the receipt's. */
  datatype Event = Event(kind: Kind, feed: Option<nat>, symbol: Option<nat>, at: Time, data: nat)

  datatype Key = Key(kind: Kind, feed: Option<nat>, symbol: Option<nat>, identity: nat)

  datatype Item = Item(event: Event, identity: nat)

  function KeyOf(item: Item): Key {
    Key(item.event.kind, item.event.feed, item.event.symbol, item.identity)
  }

  /** An insertion-ordered map: its keys oldest first, and their events. */
  datatype Cache = Cache(order: seq<Key>, latest: map<Key, Event>)

  predicate Wins(cache: Cache, item: Item) {
    KeyOf(item) !in cache.latest || item.event.at >= cache.latest[KeyOf(item)].at
  }

  function Without<T(==)>(s: seq<T>, x: T): seq<T> {
    if s == [] then [] else (if s[0] == x then [] else [s[0]]) + Without(s[1..], x)
  }

  /** The last `n` elements, or all. */
  function LastOf<T>(s: seq<T>, n: nat): seq<T> {
    if |s| <= n then s else s[|s| - n..]
  }

  function Restrict(latest: map<Key, Event>, keys: seq<Key>): map<Key, Event> {
    map k | k in latest && k in keys :: latest[k]
  }

  /** Taking a key in again moves it to the end; the oldest keys give way. */
  function Put(cache: Cache, item: Item, retained: nat): Cache {
    var k := KeyOf(item);
    var order := LastOf(Without(cache.order, k) + [k], retained);
    Cache(order, Restrict(cache.latest[k := item.event], order))
  }

  function Record(cache: Cache, item: Item, retained: nat): Cache {
    if Wins(cache, item) then Put(cache, item, retained) else cache
  }

  function RecordAll(items: seq<Item>, retained: nat): Cache {
    if items == [] then Cache([], map[])
    else Record(RecordAll(items[..|items| - 1], retained), items[|items| - 1], retained)
  }

  /** The items that were accepted, in order. */
  function Accepted(items: seq<Item>, retained: nat): seq<Item> {
    if items == [] then []
    else
      var front, item := items[..|items| - 1], items[|items| - 1];
      Accepted(front, retained) + if Wins(RecordAll(front, retained), item) then [item] else []
  }

  predicate Valid(cache: Cache) {
    Distinct(cache.order) && Elements(cache.order) == cache.latest.Keys
  }

  // --------------------------------------------------------------------------------------- sequences

  lemma {:induction false} WithoutMembers<T>(s: seq<T>, x: T)
    ensures forall y :: y in Without(s, x) <==> y in s && y != x
    ensures |Without(s, x)| <= |s|
    ensures x !in s ==> Without(s, x) == s
  {
    if s != [] {
      WithoutMembers(s[1..], x);
      assert s == [s[0]] + s[1..];
    }
  }

  lemma PrependDistinct<T>(x: T, s: seq<T>)
    requires Distinct(s) && x !in s
    ensures Distinct([x] + s)
  {
  }

  lemma {:induction false} WithoutDistinct<T>(s: seq<T>, x: T)
    requires Distinct(s)
    ensures Distinct(Without(s, x))
    ensures x in s ==> |Without(s, x)| == |s| - 1
  {
    if s != [] {
      assert forall n :: 0 < n < |s| ==> s[n] == s[1..][n - 1];
      assert s[0] !in s[1..];
      WithoutDistinct(s[1..], x);
      WithoutMembers(s[1..], x);
      PrependDistinct(s[0], Without(s[1..], x));
    }
  }

  lemma {:induction false} WithoutConcat<T>(s: seq<T>, t: seq<T>, x: T)
    ensures Without(s + t, x) == Without(s, x) + Without(t, x)
  {
    if s == [] {
      assert s + t == t;
    } else {
      var both, head := s + t, if s[0] == x then [] else [s[0]];
      WithoutConcat(s[1..], t, x);
      assert both[0] == s[0] && both[1..] == s[1..] + t;
      assert Without(both, x) == head + (Without(s[1..], x) + Without(t, x));
    }
  }

  lemma MovedDistinct<T>(s: seq<T>, x: T)
    requires Distinct(s)
    ensures Distinct(Without(s, x) + [x])
  {
    WithoutDistinct(s, x);
    WithoutMembers(s, x);
  }

  lemma LastOfDistinct<T>(s: seq<T>, n: nat)
    requires Distinct(s)
    ensures Distinct(LastOf(s, n)) && |LastOf(s, n)| <= n && forall x :: x in LastOf(s, n) ==> x in s
  {
  }

  /** Moving a key to the end commutes with keeping only the last keys. */
  lemma MoveInLastOf<T>(s: seq<T>, x: T, n: nat)
    requires Distinct(s)
    ensures LastOf(Without(LastOf(s, n), x) + [x], n) == LastOf(Without(s, x) + [x], n)
  {
    if |s| > n {
      var front, tail := s[..|s| - n], s[|s| - n..];
      assert s == front + tail;
      WithoutConcat(front, tail, x);
      if x in tail {
        MoveWithin(s, front, tail, x, n);
      } else {
        MoveFromFront(front, tail, x, n);
      }
    }
  }

  lemma MoveWithin<T>(s: seq<T>, front: seq<T>, tail: seq<T>, x: T, n: nat)
    requires Distinct(s) && s == front + tail && |tail| == n && x in tail
    requires Without(front + tail, x) == Without(front, x) + Without(tail, x)
    ensures LastOf(Without(tail, x) + [x], n) == LastOf(Without(s, x) + [x], n)
  {
    assert s[|front|..] == tail && s[..|front|] == front;
    TailNotFront(s, |front|, x);
    WithoutMembers(front, x);
    TailDistinct(s, |front|);
    WithoutDistinct(tail, x);
    LastOfConcat(front, Without(tail, x) + [x]);
    assert Without(s, x) + [x] == front + (Without(tail, x) + [x]);
  }

  lemma TailDistinct<T>(s: seq<T>, n: nat)
    requires Distinct(s) && n <= |s|
    ensures Distinct(s[n..])
  {
  }

  lemma LastOfConcat<T>(front: seq<T>, tail: seq<T>)
    ensures LastOf(front + tail, |tail|) == tail && LastOf(tail, |tail|) == tail
  {
  }

  lemma MoveFromFront<T>(front: seq<T>, tail: seq<T>, x: T, n: nat)
    requires |tail| == n && x !in tail && Without(front + tail, x) == Without(front, x) + Without(tail, x)
    ensures LastOf(Without(tail, x) + [x], n) == LastOf(Without(front + tail, x) + [x], n)
  {
    WithoutMembers(tail, x);
    var kept, moved := Without(front, x), tail + [x];
    assert Without(front + tail, x) + [x] == kept + moved;
    assert |moved| == n + 1 && (kept + moved)[|kept| + 1..] == moved[1..];
  }

  lemma TailNotFront<T>(s: seq<T>, n: nat, x: T)
    requires Distinct(s) && n <= |s| && x in s[n..]
    ensures x !in s[..n]
  {
    var b :| 0 <= b < |s[n..]| && s[n..][b] == x;
    assert forall a :: 0 <= a < n ==> s[..n][a] == s[a] && s[a] != s[n + b];
  }

  // ------------------------------------------------------------------------------------- every input

  lemma PutValid(cache: Cache, item: Item, retained: nat)
    requires Valid(cache)
    ensures Valid(Put(cache, item, retained)) && |Put(cache, item, retained).order| <= retained
  {
    var k := KeyOf(item);
    var moved := Without(cache.order, k) + [k];
    MovedDistinct(cache.order, k);
    LastOfDistinct(moved, retained);
    WithoutMembers(cache.order, k);
    var after := Put(cache, item, retained);
    forall x
      ensures x in Elements(after.order) <==> x in after.latest
    {
      assert x in cache.order <==> x in Elements(cache.order);
    }
  }

  /** On any input the cache stays consistent and never exceeds its bound. */
  lemma {:induction false} NeverExceedsBound(items: seq<Item>, retained: nat)
    ensures Valid(RecordAll(items, retained)) && |RecordAll(items, retained).order| <= retained
    ensures |RecordAll(items, retained).latest| <= retained
  {
    if items != [] {
      var front := items[..|items| - 1];
      NeverExceedsBound(front, retained);
      PutValid(RecordAll(front, retained), items[|items| - 1], retained);
    }
    DistinctSize(RecordAll(items, retained).order);
    assert |RecordAll(items, retained).latest| == |RecordAll(items, retained).latest.Keys|;
  }

  lemma {:induction false} DistinctSize<T>(s: seq<T>)
    requires Distinct(s)
    ensures |Elements(s)| == |s|
  {
    if s != [] {
      DistinctSize(s[1..]);
      assert s[0] !in s[1..];
      assert Elements(s) == {s[0]} + Elements(s[1..]);
    }
  }

  /** Keys by their last acceptance. */
  function ByLastAcceptance(accepted: seq<Item>): seq<Key> {
    if accepted == [] then []
    else
      var k := KeyOf(accepted[|accepted| - 1]);
      Without(ByLastAcceptance(accepted[..|accepted| - 1]), k) + [k]
  }

  /** The event last accepted under a key. */
  function LastAccepted(accepted: seq<Item>, k: Key): Option<Event> {
    if accepted == [] then None
    else if KeyOf(accepted[|accepted| - 1]) == k then Some(accepted[|accepted| - 1].event)
    else LastAccepted(accepted[..|accepted| - 1], k)
  }

  lemma {:induction false} ByLastAcceptanceDistinct(accepted: seq<Item>)
    ensures Distinct(ByLastAcceptance(accepted))
    ensures forall k :: k in ByLastAcceptance(accepted) <==> LastAccepted(accepted, k).Some?
  {
    if accepted != [] {
      var front, k := accepted[..|accepted| - 1], KeyOf(accepted[|accepted| - 1]);
      ByLastAcceptanceDistinct(front);
      MovedDistinct(ByLastAcceptance(front), k);
      WithoutMembers(ByLastAcceptance(front), k);
    }
  }

  /** What the cache holds, in terms of what it accepted. */
  predicate Holds(cache: Cache, accepted: seq<Item>, retained: nat) {
    && cache.order == LastOf(ByLastAcceptance(accepted), retained)
    && cache.latest.Keys == Elements(cache.order)
    && forall k :: k in cache.latest ==> LastAccepted(accepted, k) == Some(cache.latest[k])
  }

  lemma PutHolds(cache: Cache, accepted: seq<Item>, item: Item, retained: nat)
    requires Holds(cache, accepted, retained)
    ensures Holds(Put(cache, item, retained), accepted + [item], retained)
  {
    var k, longer := KeyOf(item), accepted + [item];
    assert longer[..|accepted|] == accepted;
    ByLastAcceptanceDistinct(accepted);
    MoveInLastOf(ByLastAcceptance(accepted), k, retained);
    var after := Put(cache, item, retained);
    assert after.order == LastOf(ByLastAcceptance(longer), retained);
    WithoutMembers(cache.order, k);
    LastOfMembers(Without(cache.order, k) + [k], retained);
    forall x
      ensures x in Elements(after.order) <==> x in after.latest
    {
      assert x in cache.order <==> x in Elements(cache.order);
    }
  }

  lemma LastOfMembers<T>(s: seq<T>, n: nat)
    ensures forall x :: x in LastOf(s, n) ==> x in s
  {
  }

  /** On any input: the most recently accepted keys, as many as are retained, each with its last accepted event. */
  lemma {:induction false} CacheHoldsLastAccepted(items: seq<Item>, retained: nat)
    ensures Holds(RecordAll(items, retained), Accepted(items, retained), retained)
  {
    if items != [] {
      var front, item := items[..|items| - 1], items[|items| - 1];
      CacheHoldsLastAccepted(front, retained);
      if Wins(RecordAll(front, retained), item) {
        PutHolds(RecordAll(front, retained), Accepted(front, retained), item, retained);
      } else {
        assert Accepted(items, retained) == Accepted(front, retained);
      }
    }
  }

  // ------------------------------------------------------------------------------- while keys are few

  /** The greatest timestamp among a key's items, the last one on ties. */
  predicate IsGreatest(items: seq<Item>, k: Key, n: int) {
    && 0 <= n < |items| && KeyOf(items[n]) == k
    && (forall m :: 0 <= m < |items| && KeyOf(items[m]) == k ==> items[m].event.at <= items[n].event.at)
    && (forall m :: n < m < |items| && KeyOf(items[m]) == k ==> items[m].event.at < items[n].event.at)
  }

  ghost predicate GreatestEvent(items: seq<Item>, k: Key, e: Event) {
    exists n :: IsGreatest(items, k, n) && items[n].event == e
  }

  function KeysOf(items: seq<Item>): set<Key> {
    set n | 0 <= n < |items| :: KeyOf(items[n])
  }

  ghost predicate IsFold(cache: Cache, items: seq<Item>) {
    && cache.latest.Keys == KeysOf(items)
    && forall k :: k in cache.latest ==> GreatestEvent(items, k, cache.latest[k])
  }

  lemma GreatestStays(items: seq<Item>, item: Item, k: Key, e: Event)
    requires GreatestEvent(items, k, e) && (KeyOf(item) == k ==> item.event.at < e.at)
    ensures GreatestEvent(items + [item], k, e)
  {
    var n :| IsGreatest(items, k, n) && items[n].event == e;
    assert (items + [item])[n] == items[n];
    assert IsGreatest(items + [item], k, n);
  }

  lemma GreatestIsNew(items: seq<Item>, item: Item)
    requires KeyOf(item) !in KeysOf(items) || exists e :: GreatestEvent(items, KeyOf(item), e) && item.event.at >= e.at
    ensures GreatestEvent(items + [item], KeyOf(item), item.event)
  {
    assert forall m :: 0 <= m < |items| ==> KeyOf(items[m]) in KeysOf(items);
    assert (items + [item])[|items|] == item;
    assert IsGreatest(items + [item], KeyOf(item), |items|);
  }

  lemma KeysOfAppend(items: seq<Item>, item: Item)
    ensures KeysOf(items + [item]) == KeysOf(items) + {KeyOf(item)}
  {
    var longer := items + [item];
    forall k
      ensures k in KeysOf(longer) <==> k in KeysOf(items) || k == KeyOf(item)
    {
      if k in KeysOf(items) {
        var n :| 0 <= n < |items| && KeyOf(items[n]) == k;
        assert longer[n] == items[n];
      }
      assert longer[|items|] == item;
    }
  }

  /** One more item, while no key has to give way. */
  lemma RecordKeepsFold(cache: Cache, items: seq<Item>, item: Item, retained: nat)
    requires Valid(cache) && IsFold(cache, items) && |KeysOf(items + [item])| <= retained
    ensures IsFold(Record(cache, item, retained), items + [item])
  {
    KeysOfAppend(items, item);
    if Wins(cache, item) {
      NothingGivesWay(cache, item, retained);
      PutKeepsFold(cache, items, item, Put(cache, item, retained));
    } else {
      LosingKeepsFold(cache, items, item);
    }
  }

  lemma PutKeepsFold(cache: Cache, items: seq<Item>, item: Item, after: Cache)
    requires IsFold(cache, items) && Wins(cache, item) && after.latest == cache.latest[KeyOf(item) := item.event]
    ensures IsFold(after, items + [item])
  {
    KeysOfAppend(items, item);
    forall j | j in cache.latest && j != KeyOf(item)
      ensures GreatestEvent(items + [item], j, cache.latest[j])
    {
      GreatestStays(items, item, j, cache.latest[j]);
    }
    GreatestIsNew(items, item);
  }

  lemma LosingKeepsFold(cache: Cache, items: seq<Item>, item: Item)
    requires IsFold(cache, items) && !Wins(cache, item)
    ensures IsFold(cache, items + [item])
  {
    KeysOfAppend(items, item);
    forall j | j in cache.latest
      ensures GreatestEvent(items + [item], j, cache.latest[j])
    {
      GreatestStays(items, item, j, cache.latest[j]);
    }
  }

  lemma NothingGivesWay(cache: Cache, item: Item, retained: nat)
    requires Valid(cache) && |cache.latest.Keys + {KeyOf(item)}| <= retained
    ensures Put(cache, item, retained).latest == cache.latest[KeyOf(item) := item.event]
  {
    var k := KeyOf(item);
    var moved := Without(cache.order, k) + [k];
    var put := cache.latest[k := item.event];
    MovedDistinct(cache.order, k);
    WithoutMembers(cache.order, k);
    DistinctSize(moved);
    MovedElements(cache, k);
    assert Put(cache, item, retained) == Cache(moved, Restrict(put, moved));
    RestrictToAll(put, moved);
  }

  lemma MovedElements(cache: Cache, k: Key)
    requires Valid(cache)
    ensures Elements(Without(cache.order, k) + [k]) == cache.latest.Keys + {k}
  {
    var moved := Without(cache.order, k) + [k];
    WithoutMembers(cache.order, k);
    forall x
      ensures x in Elements(moved) <==> x in cache.latest.Keys + {k}
    {
      assert x in cache.order <==> x in Elements(cache.order);
    }
  }

  lemma RestrictToAll(latest: map<Key, Event>, keys: seq<Key>)
    requires Elements(keys) == latest.Keys
    ensures Restrict(latest, keys) == latest
  {
    assert forall k :: k in latest ==> k in Elements(keys);
  }

  lemma {:induction false} FewKeysFold(items: seq<Item>, retained: nat)
    requires |KeysOf(items)| <= retained
    ensures IsFold(RecordAll(items, retained), items)
  {
    if items == [] {
      assert KeysOf(items) == {};
    } else {
      var front, item := items[..|items| - 1], items[|items| - 1];
      assert items == front + [item];
      KeysOfAppend(front, item);
      FewerKeys(KeysOf(front), KeysOf(items));
      FewKeysFold(front, retained);
      NeverExceedsBound(front, retained);
      RecordKeepsFold(RecordAll(front, retained), front, item, retained);
    }
  }

  /** The bounded cache is the unbounded fold exactly when at most as many keys are touched as are retained. */
  lemma BoundedIsFold(items: seq<Item>, retained: nat)
    ensures IsFold(RecordAll(items, retained), items) <==> |KeysOf(items)| <= retained
  {
    if |KeysOf(items)| <= retained {
      FewKeysFold(items, retained);
    } else {
      NeverExceedsBound(items, retained);
      assert |RecordAll(items, retained).latest| == |RecordAll(items, retained).latest.Keys|;
    }
  }

  lemma FewerKeys<T>(a: set<T>, b: set<T>)
    requires a <= b
    ensures |a| <= |b|
  {
    assert b == a + (b - a);
  }

  // ------------------------------------------------------------------------------------ evicted keys

  ghost predicate Evicted(items: seq<Item>, retained: nat, k: Key) {
    k in KeysOf(items) && k !in RecordAll(items, retained).latest
  }

  lemma {:induction false} OnlyTouchedKeys(items: seq<Item>, retained: nat)
    ensures RecordAll(items, retained).latest.Keys <= KeysOf(items)
  {
    if items != [] {
      var front, item := items[..|items| - 1], items[|items| - 1];
      assert items == front + [item];
      OnlyTouchedKeys(front, retained);
      KeysOfAppend(front, item);
    }
  }

  /** Some key is evicted exactly when more keys are touched than are retained. */
  lemma EvictsIff(items: seq<Item>, retained: nat)
    ensures (exists k :: Evicted(items, retained, k)) <==> |KeysOf(items)| > retained
  {
    var cached := RecordAll(items, retained).latest.Keys;
    OnlyTouchedKeys(items, retained);
    NeverExceedsBound(items, retained);
    BoundedIsFold(items, retained);
    if |KeysOf(items)| > retained {
      assert |RecordAll(items, retained).latest| == |cached|;
      assert cached != KeysOf(items);
      var k :| k in KeysOf(items) && k !in cached;
      assert Evicted(items, retained, k);
    }
  }

  lemma RecordAppend(items: seq<Item>, item: Item, retained: nat)
    ensures RecordAll(items + [item], retained) == Record(RecordAll(items, retained), item, retained)
  {
    assert (items + [item])[..|items|] == items;
  }

  /** With room for a key, what is taken in is held. */
  lemma PutIsHeld(cache: Cache, item: Item, retained: nat)
    requires retained >= 1
    ensures var after := Put(cache, item, retained).latest; KeyOf(item) in after && after[KeyOf(item)] == item.event
  {
    var moved := Without(cache.order, KeyOf(item)) + [KeyOf(item)];
    var order := LastOf(moved, retained);
    assert order[|order| - 1] == moved[|moved| - 1];
  }

  /**
   An evicted key takes in whatever comes next for it, which is the greatest of its key only if none of
   the events forgotten was later.
   */
  lemma EvictedKeyForgetsItsTime(items: seq<Item>, item: Item, retained: nat)
    requires retained >= 1 && Evicted(items, retained, KeyOf(item))
    ensures var k, after := KeyOf(item), RecordAll(items + [item], retained).latest;
            && k in after && after[k] == item.event
            && (GreatestEvent(items + [item], k, after[k])
                <==> forall n :: 0 <= n < |items| && KeyOf(items[n]) == k ==> items[n].event.at <= item.event.at)
  {
    var longer := items + [item];
    RecordAppend(items, item, retained);
    PutIsHeld(RecordAll(items, retained), item, retained);
    assert longer[|items|] == item;
    if forall n :: 0 <= n < |items| && KeyOf(items[n]) == KeyOf(item) ==> items[n].event.at <= item.event.at {
      assert IsGreatest(longer, KeyOf(item), |items|);
    } else {
      var n :| 0 <= n < |items| && KeyOf(items[n]) == KeyOf(item) && items[n].event.at > item.event.at;
      assert longer[n] == items[n];
    }
  }

  /** So many events under keys of their own. */
  lemma {:induction false} ManyKeys(count: nat) returns (items: seq<Item>)
    ensures |KeysOf(items)| == count
    ensures forall n :: 0 <= n < |items| ==> items[n].event.symbol.Some? && items[n].event.symbol.value < count
  {
    if count == 0 {
      items := [];
      assert KeysOf(items) == {};
    } else {
      var front := ManyKeys(count - 1);
      var item := Item(Event(LatestQuote, None, Some(count - 1), 0, 0), 0);
      KeysOfAppend(front, item);
      assert KeyOf(item) !in KeysOf(front);
      items := front + [item];
    }
  }

  /** Whatever the bound, some run shows an event that is older than another it has seen under the same key. */
  lemma EveryBoundForgets(retained: nat) returns (items: seq<Item>, item: Item)
    requires retained >= 1
    ensures var k, after := KeyOf(item), RecordAll(items + [item], retained).latest;
            && k in after && after[k] == item.event && !GreatestEvent(items + [item], k, item.event)
  {
    items := ManyKeys(retained + 1);
    EvictsIff(items, retained);
    var k :| Evicted(items, retained, k);
    var n :| 0 <= n < |items| && KeyOf(items[n]) == k;
    item := items[n].(event := items[n].event.(at := items[n].event.at - 1));
    assert KeyOf(item) == k;
    EvictedKeyForgetsItsTime(items, item, retained);
  }
}
