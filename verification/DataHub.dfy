/**
 The data hub as it keeps its state: the latest-event map with its insertion order, the recent events, the
 bounded set of activity ids, and the cycles, whose loads may finish or fail after they were replaced.
 */
module DataHub {
  import opened Options
  import opened Sequences
  import opened EventCache

  type CycleId = nat
  type LoadId = nat

  /** A built cycle's lookups, by feed and symbol. */
  datatype Cycle = Cycle(quotes: map<(nat, nat), Event>, trades: map<(nat, nat), Event>)

  function Clamped(low: nat, high: nat, requested: int): nat
    requires low <= high
  {
    if requested < low then low else if requested > high then high else requested
  }

  /** A cycle is about the symbols its hydration asked for; asking for none asks for all. */
  predicate Wanted(requested: set<nat>, symbol: Option<nat>) {
    symbol.None? || requested == {} || symbol.value in requested
  }

  function LookupOf(latest: map<Key, Event>, requested: set<nat>, kind: Kind, feed: nat, symbol: nat): Option<Event> {
    var k := Key(kind, Some(feed), Some(symbol), 0);
    if Wanted(requested, Some(symbol)) && k in latest then Some(latest[k]) else None
  }

  function Found(lookups: map<(nat, nat), Event>, feed: nat, symbol: nat): Option<Event> {
    if (feed, symbol) in lookups then Some(lookups[(feed, symbol)]) else None
  }

  /** Quotes and trades are recorded without an identity of their own. */
  predicate Plain(k: Key) {
    k.kind.LatestQuote? || k.kind.LatestTrade? ==> k.identity == 0
  }

  predicate EventUnder(k: Key, e: Event) {
    e.kind == k.kind && e.feed == k.feed && e.symbol == k.symbol
  }

  /** The cycle's lookups are exactly the latest quotes and trades of the wanted symbols. */
  ghost predicate Reflects(cycle: Cycle, latest: map<Key, Event>, requested: set<nat>) {
    forall f, s ::
      && Found(cycle.quotes, f, s) == LookupOf(latest, requested, LatestQuote, f, s)
      && Found(cycle.trades, f, s) == LookupOf(latest, requested, LatestTrade, f, s)
  }

  function EventsOf(items: seq<Item>): seq<Event> {
    seq(|items|, n requires 0 <= n < |items| => items[n].event)
  }

  /** Drops the oldest keys of an insertion-ordered map until few enough are left. */
  method KeepLast<K(==), V>(order: seq<K>, entries: map<K, V>, retained: nat) returns (kept: seq<K>, rest: map<K, V>)
    requires Distinct(order) && Elements(order) == entries.Keys
    ensures kept == LastOf(order, retained) && Elements(kept) == rest.Keys
    ensures rest == map k | k in entries && k in kept :: entries[k]
  {
    kept, rest := order, entries;
    AllEntries(order, entries);
    while |kept| > retained
      invariant |kept| <= |order| && kept == order[|order| - |kept|..] && (|kept| >= retained || kept == order)
      invariant Distinct(kept) && HoldsKept(order, entries, kept, rest)
    {
      DropOldest(order, entries, kept, rest);
      kept, rest := kept[1..], rest - {kept[0]};
    }
  }

  /** The entries of the kept keys. */
  ghost predicate HoldsKept<K, V>(order: seq<K>, entries: map<K, V>, kept: seq<K>, rest: map<K, V>) {
    Elements(kept) == rest.Keys && rest == map k | k in entries && k in kept :: entries[k]
  }

  lemma AllEntries<K, V>(order: seq<K>, entries: map<K, V>)
    requires Elements(order) == entries.Keys
    ensures HoldsKept(order, entries, order, entries)
  {
    assert forall k :: k in entries ==> k in Elements(order);
  }

  lemma DropOldest<K, V>(order: seq<K>, entries: map<K, V>, kept: seq<K>, rest: map<K, V>)
    requires HoldsKept(order, entries, kept, rest) && Distinct(kept) && kept != []
    ensures HoldsKept(order, entries, kept[1..], rest - {kept[0]}) && Distinct(kept[1..])
  {
    DropFirst(kept);
  }

  lemma DropFirst<K>(s: seq<K>)
    requires Distinct(s) && s != []
    ensures Distinct(s[1..]) && s[0] !in s[1..] && Elements(s[1..]) == Elements(s) - {s[0]}
    ensures forall k :: k in s[1..] <==> k in s && k != s[0]
  {
    assert s == [s[0]] + s[1..];
  }

  /** The cache and the recent events are what recording all items leaves. */
  ghost predicate EventsMatch(cache: Cache, recent: seq<Event>, items: seq<Item>, retained: nat) {
    && cache == RecordAll(items, retained)
    && recent == LastOf(EventsOf(Accepted(items, retained)), retained)
    && forall k :: k in cache.latest ==> Plain(k) && EventUnder(k, cache.latest[k])
  }

  lemma EventsStep(cache: Cache, recent: seq<Event>, items: seq<Item>, item: Item, retained: nat)
    requires EventsMatch(cache, recent, items, retained) && Plain(KeyOf(item))
    ensures EventsMatch(Record(cache, item, retained),
                        if Wins(cache, item) then LastOf(recent + [item.event], retained)
                        else recent, items + [item], retained)
    ensures EventCache.Valid(cache) && |cache.order| <= retained && |Record(cache, item, retained).order| <= retained
  {
    NeverExceedsBound(items, retained);
    NeverExceedsBound(items + [item], retained);
    RecordAppend(items, item, retained);
    RecentStep(items, item, retained);
  }

  class Hub {
    const retainedEvents: nat
    const retainedCycles: nat
    var order: seq<Key>
    var latest: map<Key, Event>
    var recent: seq<Event>
    var seen: set<nat>
    var seenOrder: seq<nat>
    var cycles: map<CycleId, LoadId>
    var cycleOrder: seq<CycleId>
    var built: map<LoadId, Cycle>
    var nextLoad: LoadId
    ghost var items: seq<Item>
    ghost var activities: seq<nat>

    ghost predicate ValidEvents()
      reads this
    {
      EventsMatch(EventCache.Cache(order, latest), recent, items, retainedEvents)
    }

    /** The ids remembered are the last ones accepted. */
    ghost predicate ValidActivities()
      reads this
    {
      seenOrder == LastOf(activities, retainedEvents) && Distinct(seenOrder) && Elements(seenOrder) == seen
    }

    ghost predicate ValidCycles()
      reads this
    {
      && Distinct(cycleOrder) && Elements(cycleOrder) == cycles.Keys && |cycleOrder| <= retainedCycles
      && (forall c :: c in cycles ==> cycles[c] < nextLoad) && (forall p :: p in built ==> p < nextLoad)
    }

    ghost predicate Valid()
      reads this
    {
      ValidEvents() && ValidActivities() && ValidCycles() && retainedEvents >= 100 && retainedCycles >= 1
    }

    constructor (requestedCycles: int, requestedEvents: int)
      ensures Valid() && items == [] && activities == []
      ensures 100 <= retainedEvents <= 10_000 && 1 <= retainedCycles <= 64
    {
      retainedCycles, retainedEvents := Clamped(1, 64, requestedCycles), Clamped(100, 10_000, requestedEvents);
      order, latest, recent, items := [], map[], [], [];
      seen, seenOrder, activities := {}, [], [];
      cycles, cycleOrder, built, nextLoad := map[], [], map[], 0;
    }

    method RecordEvent(item: Item) returns (accepted: bool)
      requires ValidEvents() && Plain(KeyOf(item))
      modifies this`order, this`latest, this`recent, this`items
      ensures ValidEvents() && items == old(items) + [item]
      ensures accepted == Wins(EventCache.Cache(old(order), old(latest)), item)
      ensures |order| <= retainedEvents && |recent| <= retainedEvents
    {
      EventsStep(EventCache.Cache(order, latest), recent, items, item, retainedEvents);
      items := items + [item];
      order, latest, accepted := Accept(order, latest, item, retainedEvents);
      if accepted {
        recent := KeepRecent(recent + [item.event], retainedEvents);
      }
    }

    /** Takes an activity's id unless it is among the last ones remembered. */
    method TakeActivity(identity: nat) returns (accepted: bool)
      requires ValidActivities()
      modifies this`seen, this`seenOrder, this`activities
      ensures ValidActivities() && accepted == (identity !in LastOf(old(activities), retainedEvents))
      ensures activities == (if accepted then old(activities) + [identity] else old(activities))
      ensures |seen| <= retainedEvents
    {
      DistinctSize(seenOrder);
      if identity in seen {
        assert identity in seenOrder;
        return false;
      }
      assert identity !in Elements(seenOrder);
      seen, seenOrder := Remember(seen, seenOrder, identity, retainedEvents);
      DistinctSize(seenOrder);
      PushInLastOf(activities, identity, retainedEvents);
      activities := activities + [identity];
      return true;
    }

    /** An activity that is taken is recorded as an event; one that is not leaves everything alone. */
    method IngestActivity(identity: nat, event: Event) returns (accepted: bool)
      requires ValidEvents() && ValidActivities() && Plain(Key(event.kind, event.feed, event.symbol, identity))
      modifies this`seen, this`seenOrder, this`activities, this`order, this`latest, this`recent, this`items
      ensures ValidEvents() && ValidActivities()
      ensures accepted == (identity !in LastOf(old(activities), retainedEvents))
      ensures activities == (if accepted then old(activities) + [identity] else old(activities))
      ensures items == (if accepted then old(items) + [Item(event, identity)] else old(items))
    {
      accepted := TakeActivity(identity);
      if accepted {
        var recorded := RecordEvent(Item(event, identity));
      }
    }

    // ---------------------------------------------------------------------------------------- cycles

    method BuildCycle(requested: set<nat>) returns (cycle: Cycle)
      requires Valid()
      ensures Reflects(cycle, latest, requested)
    {
      NeverExceedsBound(items, retainedEvents);
      cycle := LookupsOf(order, latest, requested);
    }

    /** A known cycle's load is shared; otherwise, or to replace it, a new load is started. */
    method BeginHydration(c: CycleId, replace: bool) returns (load: LoadId)
      requires Valid()
      modifies this`cycles, this`cycleOrder, this`nextLoad
      ensures Valid()
      ensures c in old(cycles) && !replace ==>
                load == old(cycles)[c] && cycles == old(cycles) && cycleOrder == old(cycleOrder)
                && nextLoad == old(nextLoad)
      ensures c !in old(cycles) || replace ==>
                && load == old(nextLoad) && nextLoad == load + 1 && c in cycles && cycles[c] == load
                && cycleOrder == LastOf(Without(old(cycleOrder), c) + [c], retainedCycles)
                && forall d :: d in cycles && d != c ==> d in old(cycles) && cycles[d] == old(cycles)[d]
    {
      if c in cycles && !replace {
        return cycles[c];
      }
      load := nextLoad;
      nextLoad := nextLoad + 1;
      cycleOrder, cycles := Hydrating(cycleOrder, cycles, c, load, retainedCycles);
    }

    /**
     A load that finishes records what it brought and keeps its cycle for good, whether or not anyone still
     finds it by its id. The account activities of a load go through `IngestActivity`.
     */
    method CompleteHydration(load: LoadId, payload: seq<Item>, requested: set<nat>) returns (cycle: Cycle)
      requires Valid() && load < nextLoad && load !in built && forall item :: item in payload ==> Plain(KeyOf(item))
      modifies this`order, this`latest, this`recent, this`items, this`built
      ensures Valid() && items == old(items) + payload && Reflects(cycle, latest, requested)
      ensures built == old(built)[load := cycle]
    {
      RecordPayload(payload);
      cycle := BuildCycle(requested);
      built := built[load := cycle];
    }

    method RecordPayload(payload: seq<Item>)
      requires ValidEvents() && forall item :: item in payload ==> Plain(KeyOf(item))
      modifies this`order, this`latest, this`recent, this`items
      ensures ValidEvents() && items == old(items) + payload
    {
      var n := 0;
      while n < |payload|
        invariant 0 <= n <= |payload| && ValidEvents() && items == old(items) + payload[..n]
      {
        var accepted := RecordEvent(payload[n]);
        assert payload[..n + 1] == payload[..n] + [payload[n]];
        n := n + 1;
      }
      assert payload[..n] == payload;
    }

    /** A load that fails removes whatever load its cycle id has now, which need not be itself. */
    method FailHydration(c: CycleId)
      requires Valid()
      modifies this`cycles, this`cycleOrder
      ensures Valid() && cycles == old(cycles) - {c} && cycleOrder == Without(old(cycleOrder), c)
    {
      assert forall d :: d in cycles <==> d in Elements(cycleOrder);
      WithoutMembers(cycleOrder, c);
      WithoutDistinct(cycleOrder, c);
      cycles, cycleOrder := cycles - {c}, Without(cycleOrder, c);
    }
  }

  // ------------------------------------------------------------------------------------------ lemmas

  /** Remembers an id, forgetting the oldest when there are too many. */
  method Remember(seen: set<nat>, seenOrder: seq<nat>, identity: nat, retained: nat)
    returns (known: set<nat>, knownOrder: seq<nat>)
    requires Distinct(seenOrder) && Elements(seenOrder) == seen && identity !in seenOrder
    ensures knownOrder == LastOf(seenOrder + [identity], retained)
    ensures Distinct(knownOrder) && Elements(knownOrder) == known
  {
    known, knownOrder := seen + {identity}, seenOrder + [identity];
    while |knownOrder| > retained
      invariant LastOf(knownOrder, retained) == LastOf(seenOrder + [identity], retained)
      invariant Distinct(knownOrder) && Elements(knownOrder) == known
    {
      DropFirst(knownOrder);
      known, knownOrder := known - {knownOrder[0]}, knownOrder[1..];
    }
  }

  /** Fills the lookups from the cache, oldest key first. */
  method LookupsOf(order: seq<Key>, latest: map<Key, Event>, requested: set<nat>) returns (cycle: Cycle)
    requires Elements(order) == latest.Keys && forall k :: k in latest ==> Plain(k) && EventUnder(k, latest[k])
    ensures Reflects(cycle, latest, requested)
  {
    var quotes, trades: map<(nat, nat), Event> := map[], map[];
    var n := 0;
    while n < |order|
      invariant 0 <= n <= |order|
      invariant ReflectsFirst(Cycle(quotes, trades), latest, order[..n], requested)
    {
      assert order[n] in Elements(order);
      var event := latest[order[n]];
      WithEventReflects(Cycle(quotes, trades), latest, order[..n], order[n], requested);
      if Wanted(requested, event.symbol) && event.feed.Some? && event.symbol.Some? {
        if event.kind.LatestQuote? {
          quotes := quotes[(event.feed.value, event.symbol.value) := event];
        } else if event.kind.LatestTrade? {
          trades := trades[(event.feed.value, event.symbol.value) := event];
        }
      }
      assert order[..n + 1] == order[..n] + [order[n]];
      n := n + 1;
    }
    assert order[..n] == order;
    AllKeysReflected(Cycle(quotes, trades), latest, order, requested);
    cycle := Cycle(quotes, trades);
  }

  /** Drops an old load of the cycle, adds the new one, and prunes the oldest cycles. */
  method Hydrating(order: seq<CycleId>, cycles: map<CycleId, LoadId>, c: CycleId, load: LoadId, retained: nat)
    returns (kept: seq<CycleId>, rest: map<CycleId, LoadId>)
    requires Distinct(order) && Elements(order) == cycles.Keys && retained >= 1
    ensures kept == LastOf(Without(order, c) + [c], retained) && Distinct(kept) && |kept| <= retained
    ensures Elements(kept) == rest.Keys && c in rest && rest[c] == load
    ensures forall d :: d in rest && d != c ==> d in cycles && rest[d] == cycles[d]
  {
    var moved := Without(order, c) + [c];
    var entries := (cycles - {c})[c := load];
    CycleMoved(order, cycles, c, load);
    LastOfDistinct(moved, retained);
    LastOfKeeps(Without(order, c), c, retained);
    kept, rest := KeepLast(moved, entries, retained);
    KeptLoads(cycles, c, load, kept, rest);
  }

  lemma KeptLoads(cycles: map<CycleId, LoadId>, c: CycleId, load: LoadId, kept: seq<CycleId>,
                  rest: map<CycleId, LoadId>)
    requires c in kept
    requires var entries := (cycles - {c})[c := load];
             rest == map d | d in entries && d in kept :: entries[d]
    ensures c in rest && rest[c] == load && forall d :: d in rest && d != c ==> d in cycles && rest[d] == cycles[d]
  {
  }

  lemma CycleMoved(order: seq<CycleId>, cycles: map<CycleId, LoadId>, c: CycleId, load: LoadId)
    requires Distinct(order) && Elements(order) == cycles.Keys
    ensures Distinct(Without(order, c) + [c]) && Elements(Without(order, c) + [c]) == ((cycles - {c})[c := load]).Keys
  {
    assert ((cycles - {c})[c := load]).Keys == cycles.Keys + {c};
    assert forall d :: d in cycles <==> d in Elements(order);
    WithoutMembers(order, c);
    MovedDistinct(order, c);
  }

  lemma LastOfKeeps(s: seq<CycleId>, c: CycleId, n: nat)
    requires n >= 1
    ensures c in LastOf(s + [c], n)
  {
    var kept := LastOf(s + [c], n);
    assert kept[|kept| - 1] == c;
  }

  /** The delete, set and evict steps on the ordered map. */
  method Accept(order: seq<Key>, latest: map<Key, Event>, item: Item, retained: nat)
    returns (newOrder: seq<Key>, newLatest: map<Key, Event>, accepted: bool)
    requires EventCache.Valid(EventCache.Cache(order, latest))
    ensures accepted == Wins(EventCache.Cache(order, latest), item)
    ensures EventCache.Cache(newOrder, newLatest) == Record(EventCache.Cache(order, latest), item, retained)
  {
    var k := KeyOf(item);
    if k in latest && item.event.at < latest[k].at {
      return order, latest, false;
    }
    MovedDistinct(order, k);
    MovedElements(EventCache.Cache(order, latest), k);
    newOrder, newLatest := KeepLast(Without(order, k) + [k], latest[k := item.event], retained);
    accepted := true;
  }

  method KeepRecent(events: seq<Event>, retained: nat) returns (kept: seq<Event>)
    ensures kept == LastOf(events, retained)
  {
    kept := events;
    while |kept| > retained
      invariant LastOf(kept, retained) == LastOf(events, retained)
    {
      kept := kept[1..];
    }
  }

  lemma RecentStep(items: seq<Item>, item: Item, retained: nat)
    ensures LastOf(EventsOf(Accepted(items + [item], retained)), retained)
         == if Wins(RecordAll(items, retained), item)
            then LastOf(LastOf(EventsOf(Accepted(items, retained)), retained) + [item.event], retained)
            else LastOf(EventsOf(Accepted(items, retained)), retained)
  {
    var before, after := EventsOf(Accepted(items, retained)), EventsOf(Accepted(items + [item], retained));
    AcceptedAppend(items, item, retained);
    if Wins(RecordAll(items, retained), item) {
      assert after == before + [item.event];
      PushInLastOf(before, item.event, retained);
    } else {
      assert after == before;
    }
  }

  lemma AcceptedAppend(items: seq<Item>, item: Item, retained: nat)
    ensures Accepted(items + [item], retained)
         == Accepted(items, retained) + if Wins(RecordAll(items, retained), item) then [item] else []
    ensures EventsOf(Accepted(items + [item], retained))
         == EventsOf(Accepted(items, retained)) + if Wins(RecordAll(items, retained), item) then [item.event] else []
  {
    assert (items + [item])[..|items|] == items;
  }

  lemma PushInLastOf<T>(s: seq<T>, x: T, n: nat)
    ensures LastOf(LastOf(s, n) + [x], n) == LastOf(s + [x], n)
  {
  }

  /** The lookups after the first keys only. */
  ghost predicate ReflectsFirst(cycle: Cycle, latest: map<Key, Event>, keys: seq<Key>, requested: set<nat>) {
    forall f, s ::
      && Found(cycle.quotes, f, s)
         == (if Key(LatestQuote, Some(f), Some(s), 0) in keys then LookupOf(latest, requested, LatestQuote, f, s)
             else None)
      && Found(cycle.trades, f, s)
         == (if Key(LatestTrade, Some(f), Some(s), 0) in keys then LookupOf(latest, requested, LatestTrade, f, s)
             else None)
  }

  function WithEvent(cycle: Cycle, event: Event, requested: set<nat>): Cycle {
    if !(Wanted(requested, event.symbol) && event.feed.Some? && event.symbol.Some?) then cycle
    else if event.kind.LatestQuote? then cycle.(quotes := cycle.quotes[(event.feed.value, event.symbol.value) := event])
    else if event.kind.LatestTrade? then cycle.(trades := cycle.trades[(event.feed.value, event.symbol.value) := event])
    else cycle
  }

  lemma WithEventReflects(cycle: Cycle, latest: map<Key, Event>, keys: seq<Key>, k: Key, requested: set<nat>)
    requires ReflectsFirst(cycle, latest, keys, requested) && k in latest && Plain(k) && EventUnder(k, latest[k])
    ensures ReflectsFirst(WithEvent(cycle, latest[k], requested), latest, keys + [k], requested)
  {
  }

  lemma AllKeysReflected(cycle: Cycle, latest: map<Key, Event>, keys: seq<Key>, requested: set<nat>)
    requires ReflectsFirst(cycle, latest, keys, requested) && Elements(keys) == latest.Keys
    ensures Reflects(cycle, latest, requested)
  {
    assert forall k :: k in latest <==> k in Elements(keys);
  }

  /** What a lookup shows: the greatest event recorded under its key, if there is one. */
  ghost predicate ShowsGreatest(lookups: map<(nat, nat), Event>, items: seq<Item>, kind: Kind, feed: nat, symbol: nat) {
    var k := Key(kind, Some(feed), Some(symbol), 0);
    if k in KeysOf(items) then (feed, symbol) in lookups && GreatestEvent(items, k, lookups[(feed, symbol)])
    else (feed, symbol) !in lookups
  }

  /** A built cycle's lookups show the greatest quotes and trades recorded, while few enough keys are touched. */
  lemma CycleShowsGreatest(items: seq<Item>, retained: nat, cycle: Cycle, requested: set<nat>, feed: nat, symbol: nat)
    requires |KeysOf(items)| <= retained && Reflects(cycle, RecordAll(items, retained).latest, requested)
    requires Wanted(requested, Some(symbol))
    ensures ShowsGreatest(cycle.quotes, items, LatestQuote, feed, symbol)
    ensures ShowsGreatest(cycle.trades, items, LatestTrade, feed, symbol)
  {
    BoundedIsFold(items, retained);
    var latest := RecordAll(items, retained).latest;
    assert Found(cycle.quotes, feed, symbol) == LookupOf(latest, requested, LatestQuote, feed, symbol);
    assert Found(cycle.trades, feed, symbol) == LookupOf(latest, requested, LatestTrade, feed, symbol);
  }
}
