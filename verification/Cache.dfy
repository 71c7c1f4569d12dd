/**
 The cache of util/cache.go on values: what each operation does to the item map and
 the insertion-ordered key list. The clock reading is a parameter of each operation;
 `max <= 0` means unbounded, as in the source.
 */
module CacheModel {
  import opened Bytes

  const EVICTION_BATCH_DIVISOR := 10

  datatype Item<+T> = Item(value: T, created: int, ttl: int)

  datatype State<K(==), +T> = State(items: map<K, Item<T>>, keyList: seq<K>)

  predicate Live<T>(item: Item<T>, now: int) {
    now - item.created <= item.ttl
  }

  function Empty<K, T>(): State<K, T> {
    State(map[], [])
  }

  function Lookup<K, T>(s: State<K, T>, key: K, now: int): Option<T> {
    if key in s.items && Live(s.items[key], now) then Some(s.items[key].value) else None
  }

  /** How many of the oldest keys an insertion that overflows the cap removes. */
  function EvictCount(length: nat, max: int): int
    requires max > 0
  {
    length - max + max / EVICTION_BATCH_DIVISOR
  }

  function Keys<K>(list: seq<K>): set<K> {
    set k | k in list
  }

  /** Storing without looking at the cap. */
  function Inserted<K, T>(s: State<K, T>, key: K, value: T, ttl: int, now: int): State<K, T> {
    State(s.items[key := Item(value, now, ttl)],
          if key in s.items then s.keyList else s.keyList + [key])
  }

  /** Dropping the oldest keys once the list is longer than the cap. */
  function Trimmed<K, T>(s: State<K, T>, max: int): State<K, T> {
    if max > 0 && |s.keyList| > max then
      var wanted := EvictCount(|s.keyList|, max);
      var evict := if wanted > |s.keyList| then |s.keyList| else wanted;
      State(s.items - Keys(s.keyList[..evict]), s.keyList[evict..])
    else s
  }

  function Stored<K, T>(s: State<K, T>, key: K, value: T, ttl: int, now: int, max: int): State<K, T> {
    Trimmed(Inserted(s, key, value, ttl, now), max)
  }

  function Remove<K(==)>(list: seq<K>, key: K): seq<K> {
    if list == [] then [] else if list[0] == key then list[1..] else [list[0]] + Remove(list[1..], key)
  }

  function Deleted<K, T>(s: State<K, T>, key: K): State<K, T> {
    State(s.items - {key}, Remove(s.keyList, key))
  }

  predicate Survives<K, T>(items: map<K, Item<T>>, key: K, now: int) {
    key in items && Live(items[key], now)
  }

  function Surviving<K, T>(list: seq<K>, items: map<K, Item<T>>, now: int): seq<K> {
    if list == [] then []
    else (if Survives(items, list[0], now) then [list[0]] else []) + Surviving(list[1..], items, now)
  }

  function Collected<K, T>(s: State<K, T>, now: int): State<K, T> {
    State(map k | k in s.items && Live(s.items[k], now) :: s.items[k],
          Surviving(s.keyList, s.items, now))
  }

  /** The list holds every key of the map exactly once and the cap is respected. */
  predicate WellFormed<K, T>(s: State<K, T>, max: int) {
    && NoDup(s.keyList)
    && Keys(s.keyList) == s.items.Keys
    && (max > 0 ==> |s.keyList| <= max)
  }

  /** Deleting removes the first occurrence and closes the gap. */
  lemma {:induction false} RemoveSplits<K>(list: seq<K>, key: K) returns (i: nat)
    ensures i <= |list| && key !in list[..i]
    ensures i < |list| ==> list[i] == key && Remove(list, key) == list[..i] + list[i + 1..]
    ensures i == |list| ==> Remove(list, key) == list
  {
    if list == [] || list[0] == key {
      i := 0;
    } else {
      var j := RemoveSplits(list[1..], key);
      i := j + 1;
      assert list[..i] == [list[0]] + list[1..][..j];
      if i < |list| {
        assert list[i + 1..] == list[1..][j + 1..];
      }
    }
  }

  lemma WithoutOne<K>(head: seq<K>, key: K, tail: seq<K>)
    requires NoDup(head + [key] + tail)
    ensures NoDup(head + tail) && Keys(head + tail) == Keys(head + [key] + tail) - {key}
  {
    var list := head + [key] + tail;
    assert forall i :: 0 <= i < |head| ==> list[i] == head[i];
    assert list[|head|] == key;
    assert forall i :: 0 <= i < |tail| ==> list[|head| + 1 + i] == tail[i];
    assert forall k :: k in list <==> k in head || k == key || k in tail;
  }

  lemma RemoveIsInOrder<K>(list: seq<K>, key: K)
    requires NoDup(list)
    ensures NoDup(Remove(list, key))
    ensures Keys(Remove(list, key)) == Keys(list) - {key}
    ensures |Remove(list, key)| <= |list|
  {
    var i := RemoveSplits(list, key);
    if i < |list| {
      var head, tail := list[..i], list[i + 1..];
      assert list == head + [key] + tail;
      WithoutOne(head, key, tail);
    } else {
      assert list[..i] == list;
    }
  }

  lemma {:induction false} SurvivingIsInOrder<K, T>(list: seq<K>, items: map<K, Item<T>>, now: int)
    requires NoDup(list)
    ensures NoDup(Surviving(list, items, now))
    ensures forall k :: k in Surviving(list, items, now) <==> k in list && Survives(items, k, now)
    ensures |Surviving(list, items, now)| <= |list|
  {
    if list != [] {
      SurvivingIsInOrder(list[1..], items, now);
      assert list == [list[0]] + list[1..];
    }
  }

  lemma InsertedAgrees<K, T>(s: State<K, T>, key: K, value: T, ttl: int, now: int)
    requires NoDup(s.keyList) && Keys(s.keyList) == s.items.Keys
    ensures var t := Inserted(s, key, value, ttl, now); NoDup(t.keyList) && Keys(t.keyList) == t.items.Keys
  {
    assert key !in s.items ==> key !in Keys(s.keyList);
    assert Keys(s.keyList + [key]) == Keys(s.keyList) + {key};
  }

  /** Cutting a duplicate-free list in two separates its keys. */
  lemma CutKeys<K>(list: seq<K>, n: nat)
    requires NoDup(list) && n <= |list|
    ensures NoDup(list[n..]) && Keys(list[n..]) == Keys(list) - Keys(list[..n])
  {
    assert list == list[..n] + list[n..];
    assert forall k :: k in list <==> k in list[..n] || k in list[n..];
    assert forall i, j :: 0 <= i < n <= j < |list| ==> list[i] != list[j];
  }

  /** Every operation keeps the list and the map in agreement and the size within the cap. */
  lemma StoredWellFormed<K, T>(s: State<K, T>, key: K, value: T, ttl: int, now: int, max: int)
    requires WellFormed(s, max)
    ensures WellFormed(Stored(s, key, value, ttl, now, max), max)
    ensures key in Stored(s, key, value, ttl, now, max).items
    ensures Stored(s, key, value, ttl, now, max).items[key] == Item(value, now, ttl)
  {
    var t := Inserted(s, key, value, ttl, now);
    InsertedAgrees(s, key, value, ttl, now);
    if max > 0 && |t.keyList| > max {
      var evict := EvictCount(|t.keyList|, max);
      CutKeys(t.keyList, evict);
      assert t.keyList[|t.keyList| - 1] == key;
      assert key in Keys(t.keyList[evict..]);
    }
  }

  lemma DeletedWellFormed<K, T>(s: State<K, T>, key: K, max: int)
    requires WellFormed(s, max)
    ensures WellFormed(Deleted(s, key), max)
  {
    RemoveIsInOrder(s.keyList, key);
  }

  /** The collection half way: positions from `i` on are already swept. */
  function Collecting<K, T>(s: State<K, T>, i: nat, now: int): State<K, T>
    requires i <= |s.keyList|
  {
    State(map k | k in s.items && (k in s.keyList[i..] ==> Live(s.items[k], now)) :: s.items[k],
          s.keyList[..i] + Surviving(s.keyList[i..], s.items, now))
  }

  lemma CollectingStarts<K, T>(s: State<K, T>, now: int)
    ensures Collecting(s, |s.keyList|, now) == s
  {
    assert s.keyList[|s.keyList|..] == [];
    assert s.keyList[..|s.keyList|] == s.keyList;
    assert Collecting(s, |s.keyList|, now).items == s.items;
  }

  lemma CollectingEnds<K, T>(s: State<K, T>, now: int)
    requires Keys(s.keyList) == s.items.Keys
    ensures Collecting(s, 0, now) == Collected(s, now)
  {
    assert s.keyList[0..] == s.keyList;
    assert forall k :: k in s.items ==> k in Keys(s.keyList);
    assert Collecting(s, 0, now).items == Collected(s, now).items;
  }

  lemma CollectingItems<K, T>(s: State<K, T>, i: nat, now: int)
    requires WellFormed(s, 0) && i < |s.keyList|
    ensures var a, b, key := Collecting(s, i + 1, now), Collecting(s, i, now), s.keyList[i];
            && key in a.items && a.items[key] == s.items[key]
            && b.items == if Live(s.items[key], now) then a.items else a.items - {key}
  {
    var key := s.keyList[i];
    assert s.keyList[i..] == [key] + s.keyList[i + 1..];
    assert key in Keys(s.keyList) && key !in s.keyList[i + 1..];
  }

  /** One position of the sweep: the key is still there, and goes exactly when it has expired. */
  lemma CollectingStep<K, T>(s: State<K, T>, i: nat, now: int)
    requires WellFormed(s, 0) && i < |s.keyList|
    ensures var a, b, key := Collecting(s, i + 1, now), Collecting(s, i, now), s.keyList[i];
            && |a.keyList| > i && a.keyList[i] == key
            && key in a.items && a.items[key] == s.items[key]
            && (Live(s.items[key], now) ==> b == a)
            && (!Live(s.items[key], now) ==> b == State(a.items - {key}, a.keyList[..i] + a.keyList[i + 1..]))
  {
    var key := s.keyList[i];
    CollectingItems(s, i, now);
    assert s.keyList[i..] == [key] + s.keyList[i + 1..];
    var head, tail := s.keyList[..i], Surviving(s.keyList[i + 1..], s.items, now);
    assert Collecting(s, i + 1, now).keyList == head + [key] + tail by {
      assert s.keyList[..i + 1] == head + [key];
    }
    assert (head + [key] + tail)[..i] + (head + [key] + tail)[i + 1..] == head + tail;
    assert head + [key] + tail == head + ([key] + tail);
  }

  lemma CollectedWellFormed<K, T>(s: State<K, T>, now: int, max: int)
    requires WellFormed(s, max)
    ensures WellFormed(Collected(s, now), max)
    ensures forall k :: k in Collected(s, now).items <==> Survives(s.items, k, now)
    ensures forall k :: k in Collected(s, now).items ==> Collected(s, now).items[k] == s.items[k]
  {
    SurvivingIsInOrder(s.keyList, s.items, now);
    assert forall k :: k in s.items ==> k in Keys(s.keyList);
    assert Keys(Collected(s, now).keyList) == Collected(s, now).items.Keys;
  }
}

/** The mutable cache of util/cache.go, each method proved against the value model. */
module TtlCache {
  import opened Bytes
  import opened CacheModel

  class Cache<K(==), T> {
    var items: map<K, Item<T>>
    var keyList: seq<K>
    const timeToLive: int
    const maxEntries: int

    ghost predicate Valid()
      reads this
    {
      WellFormed(Value(), maxEntries)
    }

    ghost function Value(): State<K, T>
      reads this
    {
      State(items, keyList)
    }

    constructor (ttl: int, maxEntries: int)
      ensures Valid() && Value() == Empty()
      ensures this.timeToLive == ttl && this.maxEntries == maxEntries
    {
      items := map[];
      keyList := [];
      this.timeToLive := ttl;
      this.maxEntries := maxEntries;
    }

    method Set(key: K, value: T, ttl: Option<int>, now: int)
      requires Valid()
      modifies this
      ensures Valid()
      ensures Value() == Stored(old(Value()), key, value, if ttl.Some? then ttl.value else timeToLive, now, maxEntries)
    {
      var itemTtl := if ttl.Some? then ttl.value else timeToLive;
      StoredWellFormed(Value(), key, value, itemTtl, now, maxEntries);
      var present := key in items;
      items := items[key := Item(value, now, itemTtl)];
      if !present {
        keyList := keyList + [key];
      }
      if maxEntries > 0 && |keyList| > maxEntries {
        Evict();
      }
    }

    /** The eviction pass; the clamp on its length is never taken (`EvictionClampUnreachable`). */
    method Evict()
      requires maxEntries > 0 && |keyList| > maxEntries
      modifies this
      ensures Value() == Trimmed(old(Value()), maxEntries)
    {
      var evict := |keyList| - maxEntries + maxEntries / EVICTION_BATCH_DIVISOR;
      if evict > |keyList| {
        evict := |keyList|;
      }
      var i := 0;
      while i < evict
        invariant 0 <= i <= evict
        invariant keyList == old(keyList)
        invariant items == old(items) - Keys(keyList[..i])
      {
        items := items - {keyList[i]};
        i := i + 1;
        assert Keys(keyList[..i]) == Keys(keyList[..i - 1]) + {keyList[i - 1]};
      }
      keyList := keyList[evict..];
    }

    method GetOrSet(key: K, value: T, ttl: Option<int>, now: int) returns (r: T, loaded: bool)
      requires Valid()
      modifies this
      ensures Valid()
      ensures loaded <==> Lookup(old(Value()), key, now).Some?
      ensures loaded ==> r == Lookup(old(Value()), key, now).value && Value() == old(Value())
      ensures !loaded ==> r == value
      ensures !loaded ==>
                Value() == Stored(old(Value()), key, value, if ttl.Some? then ttl.value else timeToLive, now,
                                  maxEntries)
    {
      if key in items && Live(items[key], now) {
        return items[key].value, true;
      }
      Set(key, value, ttl, now);
      return value, false;
    }

    method Get(key: K, now: int) returns (r: Option<T>)
      ensures r == Lookup(Value(), key, now)
    {
      if key !in items {
        return None;
      }
      if now - items[key].created > items[key].ttl {
        return None;
      }
      return Some(items[key].value);
    }

    method Delete(key: K)
      requires Valid()
      modifies this
      ensures Valid()
      ensures Value() == Deleted(old(Value()), key)
    {
      DeletedWellFormed(Value(), key, maxEntries);
      ghost var at := RemoveSplits(keyList, key);
      items := items - {key};
      var i := 0;
      while i < |keyList|
        invariant 0 <= i <= at
        invariant keyList == old(keyList)
      {
        if keyList[i] == key {
          assert i == at;
          keyList := keyList[..i] + keyList[i + 1..];
          break;
        }
        i := i + 1;
      }
    }

    method Flush()
      modifies this
      ensures Valid() && Value() == Empty()
    {
      items := map[];
      keyList := [];
    }

    /** Walks the list backwards, closing the gap at each expired key. */
    method GarbageCollect(now: int) returns (removed: nat)
      requires Valid()
      modifies this
      ensures Valid()
      ensures Value() == Collected(old(Value()), now)
      ensures removed == |old(keyList)| - |keyList|
    {
      removed := 0;
      var i := |keyList|;
      ghost var was := Value();
      CollectingStarts(was, now);
      while i > 0
        invariant 0 <= i <= |was.keyList|
        invariant Value() == Collecting(was, i, now)
        invariant removed == |was.keyList| - |keyList|
      {
        i := i - 1;
        CollectingStep(was, i, now);
        var key := keyList[i];
        if key !in items || now - items[key].created > items[key].ttl {
          items := items - {key};
          keyList := keyList[..i] + keyList[i + 1..];
          removed := removed + 1;
        }
      }
      CollectingEnds(was, now);
      CollectedWellFormed(was, now, maxEntries);
    }
  }
}

/** Whole runs of the cache: what capacity eviction may remove, and what collection may not change. */
module CacheRuns {
  import opened Bytes
  import opened CacheModel

  datatype Action<K(==), T> =
    | Set(key: K, value: T, ttl: int)
    | GetOrSet(key: K, value: T, ttl: int)
    | Get(key: K)
    | Delete(key: K)
    | Flush
    | Collect

  datatype Event<K(==), T> = Event(now: int, action: Action<K, T>)

  datatype Output<T> = Done | Found(result: Option<T>) | Held(value: T, loaded: bool)

  /** Whether the event inserts or overwrites an entry. */
  predicate Stores<K, T>(s: State<K, T>, e: Event<K, T>) {
    match e.action
    case Set(_, _, _) => true
    case GetOrSet(k, _, _) => Lookup(s, k, e.now).None?
    case _ => false
  }

  function Next<K, T>(s: State<K, T>, e: Event<K, T>, max: int): State<K, T> {
    match e.action
    case Set(k, v, ttl) => Stored(s, k, v, ttl, e.now, max)
    case GetOrSet(k, v, ttl) => if Lookup(s, k, e.now).Some? then s else Stored(s, k, v, ttl, e.now, max)
    case Get(_) => s
    case Delete(k) => Deleted(s, k)
    case Flush => Empty()
    case Collect => Collected(s, e.now)
  }

  function Reply<K, T>(s: State<K, T>, e: Event<K, T>): Output<T> {
    match e.action
    case Get(k) => Found(Lookup(s, k, e.now))
    case GetOrSet(k, v, _) =>
      var r := Lookup(s, k, e.now);
      if r.Some? then Held(r.value, true) else Held(v, false)
    case _ => Done
  }

  lemma NextWellFormed<K, T>(s: State<K, T>, e: Event<K, T>, max: int)
    requires WellFormed(s, max)
    ensures WellFormed(Next(s, e, max), max)
  {
    match e.action
    case Set(k, v, ttl) => StoredWellFormed(s, k, v, ttl, e.now, max);
    case GetOrSet(k, v, ttl) => StoredWellFormed(s, k, v, ttl, e.now, max);
    case Get(_) =>
    case Delete(k) => DeletedWellFormed(s, k, max);
    case Flush =>
    case Collect => CollectedWellFormed(s, e.now, max);
  }

  // ---------------------------------------------------------------------------
  // Capacity eviction
  // ---------------------------------------------------------------------------

  /** A cache state with the insertion number of each present key. */
  datatype Traced<K(==), T> = Traced(cache: State<K, T>, born: map<K, nat>, count: nat)

  function TracedNext<K, T>(t: Traced<K, T>, e: Event<K, T>, max: int): Traced<K, T> {
    var s := Next(t.cache, e, max);
    if Stores(t.cache, e) && e.action.key !in t.cache.items
    then Traced(s, t.born[e.action.key := t.count], t.count + 1)
    else Traced(s, t.born, t.count)
  }

  function TracedRun<K, T>(events: seq<Event<K, T>>, max: int): Traced<K, T> {
    if events == [] then Traced(Empty(), map[], 0)
    else TracedNext(TracedRun(events[..|events| - 1], max), events[|events| - 1], max)
  }

  /** The list is ordered by insertion number and no number is from the future. */
  predicate InInsertionOrder<K>(list: seq<K>, born: map<K, nat>, count: nat) {
    && (forall k :: k in list ==> k in born && born[k] < count)
    && (forall i, j :: 0 <= i < j < |list| ==> born[list[i]] < born[list[j]])
  }

  ghost predicate TracedInv<K, T>(t: Traced<K, T>, max: int) {
    WellFormed(t.cache, max) && InInsertionOrder(t.cache.keyList, t.born, t.count)
  }

  lemma {:induction false} SurvivingKeepsOrder<K, T>(list: seq<K>, items: map<K, Item<T>>, now: int, born: map<K, nat>,
                                                     count: nat)
    requires NoDup(list) && InInsertionOrder(list, born, count)
    ensures InInsertionOrder(Surviving(list, items, now), born, count)
  {
    if list != [] {
      var rest := Surviving(list[1..], items, now);
      SurvivingKeepsOrder(list[1..], items, now, born, count);
      SurvivingIsInOrder(list[1..], items, now);
      forall j | 0 <= j < |rest| ensures rest[j] in list[1..] && born[list[0]] < born[rest[j]] {
        assert rest[j] in rest;
      }
    }
  }

  lemma InsertedKeepsOrder<K, T>(t: Traced<K, T>, key: K, value: T, ttl: int, now: int, max: int)
    requires TracedInv(t, max)
    ensures var born := if key in t.cache.items then t.born else t.born[key := t.count];
            InInsertionOrder(Inserted(t.cache, key, value, ttl, now).keyList, born, t.count + 1)
  {
    assert key !in t.cache.items ==> key !in Keys(t.cache.keyList);
  }

  lemma SuffixKeepsOrder<K>(list: seq<K>, i: nat, born: map<K, nat>, count: nat)
    requires InInsertionOrder(list, born, count) && i <= |list|
    ensures InInsertionOrder(list[i..], born, count)
  {
  }

  lemma StoredKeepsOrder<K, T>(t: Traced<K, T>, key: K, value: T, ttl: int, now: int, max: int)
    requires TracedInv(t, max)
    ensures var born, count := if key in t.cache.items then t.born else t.born[key := t.count],
                               if key in t.cache.items then t.count else t.count + 1;
            InInsertionOrder(Stored(t.cache, key, value, ttl, now, max).keyList, born, count)
  {
    if key !in t.cache.items {
      InsertedKeepsOrder(t, key, value, ttl, now, max);
      var s := Inserted(t.cache, key, value, ttl, now);
      if max > 0 && |s.keyList| > max {
        SuffixKeepsOrder(s.keyList, EvictCount(|s.keyList|, max), t.born[key := t.count], t.count + 1);
      }
    }
  }

  lemma RemoveKeepsOrder<K>(list: seq<K>, key: K, born: map<K, nat>, count: nat)
    requires InInsertionOrder(list, born, count)
    ensures InInsertionOrder(Remove(list, key), born, count)
  {
    var i := RemoveSplits(list, key);
  }

  lemma TracedNextInv<K, T>(t: Traced<K, T>, e: Event<K, T>, max: int)
    requires TracedInv(t, max)
    ensures TracedInv(TracedNext(t, e, max), max)
  {
    NextWellFormed(t.cache, e, max);
    match e.action
    case Set(k, v, ttl) => StoredKeepsOrder(t, k, v, ttl, e.now, max);
    case GetOrSet(k, v, ttl) => StoredKeepsOrder(t, k, v, ttl, e.now, max);
    case Get(_) =>
    case Delete(k) => RemoveKeepsOrder(t.cache.keyList, k, t.born, t.count);
    case Flush =>
    case Collect => SurvivingKeepsOrder(t.cache.keyList, t.cache.items, e.now, t.born, t.count);
  }

  /** In every run the key list is duplicate-free, agrees with the map, is in insertion order and respects the cap. */
  lemma {:induction false} RunKeepsInvariant<K, T>(events: seq<Event<K, T>>, max: int)
    ensures TracedInv(TracedRun(events, max), max)
  {
    if events != [] {
      RunKeepsInvariant(events[..|events| - 1], max);
      TracedNextInv(TracedRun(events[..|events| - 1], max), events[|events| - 1], max);
    }
  }

  /** The number of keys an overflowing insertion removes never exceeds the number there are. */
  lemma EvictionClampUnreachable<K, T>(events: seq<Event<K, T>>, e: Event<K, T>, max: int)
    requires max > 0
    requires Stores(TracedRun(events, max).cache, e)
    ensures var s := Inserted(TracedRun(events, max).cache, e.action.key, e.action.value, e.action.ttl, e.now);
            |s.keyList| > max ==> EvictCount(|s.keyList|, max) < |s.keyList|
  {
    RunKeepsInvariant(events, max);
  }

  /**
   In every run of a cache capped at `max`, a storing event keeps the key it stores; and
   if it pushes some other key out, exactly `max - max/10` keys are left and every one of
   them was inserted after the key that was pushed out.
   */
  lemma EvictsOnlyOldKeys<K, T>(events: seq<Event<K, T>>, e: Event<K, T>, max: int, key: K)
    requires max > 0
    requires Stores(TracedRun(events, max).cache, e)
    requires key in TracedRun(events, max).cache.items
    ensures var t, u := TracedRun(events, max), TracedRun(events + [e], max);
            && e.action.key in u.cache.items
            && key in t.born
            && (key !in u.cache.items ==>
                  && |u.cache.keyList| == max - max / EVICTION_BATCH_DIVISOR
                  && NoDup(u.cache.keyList)
                  && AllNewer(u.cache.keyList, u.born, t.born[key]))
  {
    var t := TracedRun(events, max);
    assert (events + [e])[..|events|] == events;
    RunKeepsInvariant(events, max);
    StoreEvictsOnlyOldKeys(t, e, max, key);
  }

  /** In a list in insertion order, what is cut off is older than what stays. */
  lemma CutIsOlder<K>(list: seq<K>, born: map<K, nat>, count: nat, n: nat, key: K, k: K)
    requires InInsertionOrder(list, born, count) && n <= |list| && key in list[..n] && k in list[n..]
    ensures key in born && k in born && born[key] < born[k]
  {
    var i :| 0 <= i < n && list[..n][i] == key;
    var j :| 0 <= j < |list| - n && list[n..][j] == k;
    assert list[i] == key && list[n + j] == k;
  }

  /** What an overflowing store leaves: the list from position `evict` on. */
  lemma EvictingStore<K, T>(s: State<K, T>, other: K, value: T, ttl: int, now: int, max: int, key: K)
    returns (evict: nat)
    requires max > 0 && WellFormed(s, max) && key in s.items && key !in Stored(s, other, value, ttl, now, max).items
    ensures other !in s.items && evict <= |s.keyList| && key in (s.keyList + [other])[..evict]
    ensures Stored(s, other, value, ttl, now, max).keyList == (s.keyList + [other])[evict..]
    ensures |Stored(s, other, value, ttl, now, max).keyList| == max - max / EVICTION_BATCH_DIVISOR
  {
    var t := Inserted(s, other, value, ttl, now);
    assert |t.keyList| > max;
    evict := EvictCount(|t.keyList|, max);
    assert key in Keys(t.keyList[..evict]);
  }

  /** What a storing event of a new key does to the trace. */
  lemma TracedStore<K, T>(t: Traced<K, T>, e: Event<K, T>, max: int)
    requires Stores(t.cache, e)
    ensures var u, a := TracedNext(t, e, max), e.action;
            && u.cache == Stored(t.cache, a.key, a.value, a.ttl, e.now, max)
            && (a.key !in t.cache.items ==> u.born == t.born[a.key := t.count] && u.count == t.count + 1)
            && (a.key in t.cache.items ==> u.born == t.born && u.count == t.count)
  {
  }

  ghost predicate AllNewer<K>(list: seq<K>, born: map<K, nat>, since: nat) {
    forall k :: k in list ==> k in born && born[k] > since
  }

  lemma CutIsOldest<K>(list: seq<K>, born: map<K, nat>, count: nat, n: nat, key: K)
    requires InInsertionOrder(list, born, count) && n <= |list| && key in list[..n]
    ensures key in born && AllNewer(list[n..], born, born[key])
  {
    assert key in list;
    forall k | k in list[n..] ensures k in born && born[k] > born[key] {
      CutIsOlder(list, born, count, n, key, k);
    }
  }

  lemma EvictedIsOldest<K, T>(t: Traced<K, T>, e: Event<K, T>, max: int, key: K)
    requires max > 0 && TracedInv(t, max)
    requires Stores(t.cache, e) && key in t.cache.items && key !in TracedNext(t, e, max).cache.items
    ensures var u := TracedNext(t, e, max);
            && |u.cache.keyList| == max - max / EVICTION_BATCH_DIVISOR
            && key in t.born && AllNewer(u.cache.keyList, u.born, t.born[key])
  {
    var a := e.action;
    TracedStore(t, e, max);
    var evict := EvictingStore(t.cache, a.key, a.value, a.ttl, e.now, max, key);
    InsertedKeepsOrder(t, a.key, a.value, a.ttl, e.now, max);
    CutIsOldest(t.cache.keyList + [a.key], t.born[a.key := t.count], t.count + 1, evict, key);
  }

  lemma StoreEvictsOnlyOldKeys<K, T>(t: Traced<K, T>, e: Event<K, T>, max: int, key: K)
    requires max > 0 && TracedInv(t, max)
    requires Stores(t.cache, e) && key in t.cache.items
    ensures var u := TracedNext(t, e, max);
            && e.action.key in u.cache.items
            && key in t.born
            && (key !in u.cache.items ==>
                  && |u.cache.keyList| == max - max / EVICTION_BATCH_DIVISOR
                  && NoDup(u.cache.keyList)
                  && AllNewer(u.cache.keyList, u.born, t.born[key]))
  {
    var a := e.action;
    TracedStore(t, e, max);
    StoredWellFormed(t.cache, a.key, a.value, a.ttl, e.now, max);
    assert key in Keys(t.cache.keyList);
    if key !in TracedNext(t, e, max).cache.items {
      EvictedIsOldest(t, e, max, key);
    }
  }

  /** How many keys were inserted after `key` was. */
  function InsertedSince<K, T>(t: Traced<K, T>, key: K): int
    requires key in t.born
  {
    t.count - 1 - t.born[key]
  }

  /** So many keys were inserted after `key` that it may have been pushed out. */
  predicate Crowded<K, T>(t: Traced<K, T>, key: K, max: int) {
    max > 0 && key in t.born && InsertedSince(t, key) >= max - max / EVICTION_BATCH_DIVISOR
  }

  lemma {:induction false} InsertionNumbersGrow<K>(list: seq<K>, born: map<K, nat>, count: nat, since: nat, i: nat)
    requires InInsertionOrder(list, born, count) && i < |list|
    requires forall k :: k in list ==> born[k] > since
    ensures born[list[i]] >= since + 1 + i
  {
    if i > 0 {
      InsertionNumbersGrow(list, born, count, since, i - 1);
      assert born[list[i - 1]] < born[list[i]];
    } else {
      assert list[0] in list;
    }
  }

  /** As many keys inserted after `since` as the list is long make that many insertions. */
  lemma ListBoundsCount<K>(list: seq<K>, born: map<K, nat>, count: nat, since: nat)
    requires InInsertionOrder(list, born, count) && since < count
    requires forall k :: k in list ==> born[k] > since
    ensures count - 1 - since >= |list|
  {
    if list != [] {
      InsertionNumbersGrow(list, born, count, since, |list| - 1);
      assert list[|list| - 1] in list;
    }
  }

  /** A store pushes out only a key after which `max - max/10` keys were inserted, this one included. */
  lemma StoreKeepsUnlessCrowded<K, T>(t: Traced<K, T>, e: Event<K, T>, max: int, key: K)
    requires TracedInv(t, max) && Stores(t.cache, e) && key in t.cache.items
    ensures var u := TracedNext(t, e, max); key in u.cache.items || Crowded(u, key, max)
  {
    var u := TracedNext(t, e, max);
    if key !in u.cache.items {
      TracedNextInv(t, e, max);
      assert key in Keys(t.cache.keyList);
      EvictionNeedsCap(t.cache, e, max, key);
      StoreEvictsOnlyOldKeys(t, e, max, key);
      ListBoundsCount(u.cache.keyList, u.born, u.count, t.born[key]);
    }
  }

  lemma EvictionNeedsCap<K, T>(s: State<K, T>, e: Event<K, T>, max: int, key: K)
    requires Stores(s, e) && key in s.items && key !in Next(s, e, max).items
    ensures max > 0
  {
  }

  /** Crowding ends only by a new insertion of the key. */
  lemma StaysCrowded<K, T>(t: Traced<K, T>, e: Event<K, T>, max: int, key: K)
    requires Stores(t.cache, e) && key != e.action.key && Crowded(t, key, max)
    ensures Crowded(TracedNext(t, e, max), key, max)
  {
    TracedStore(t, e, max);
  }

  /**
   A store drops a key exactly when its own key is new, the cache is full, and the key is among the
   oldest `max/10 + 1`.
   */
  lemma StoreDropsIff<K, T>(s: State<K, T>, other: K, value: T, ttl: int, now: int, max: int, key: K)
    requires WellFormed(s, max) && key in s.items
    ensures key !in Stored(s, other, value, ttl, now, max).items <==>
            Dropped(s, other, max, key)
  {
    var t := Inserted(s, other, value, ttl, now);
    InsertedAgrees(s, other, value, ttl, now);
    assert key in Keys(s.keyList);
    if max > 0 && |t.keyList| > max {
      var evict := EvictCount(|t.keyList|, max);
      assert evict == 1 + max / EVICTION_BATCH_DIVISOR;
      assert forall i :: 0 <= i < evict ==> i < |s.keyList| ==> t.keyList[..evict][i] == s.keyList[i];
      DroppedPrefix(s.keyList, other, evict, key);
    }
  }

  /** What a store of `other` drops. */
  predicate Dropped<K, T>(s: State<K, T>, other: K, max: int, key: K) {
    && max > 0 && other !in s.items && |s.keyList| == max
    && exists i :: 0 <= i <= max / EVICTION_BATCH_DIVISOR && i < |s.keyList| && s.keyList[i] == key
  }

  lemma DroppedPrefix<K>(list: seq<K>, other: K, n: nat, key: K)
    requires n <= |list| + 1 && key != other
    ensures key in (list + [other])[..n] <==> exists i :: 0 <= i < n && i < |list| && list[i] == key
  {
    var all := list + [other];
    if key in all[..n] {
      var i :| 0 <= i < n && all[..n][i] == key;
      assert all[i] == key && i < |list|;
    }
    if exists i :: 0 <= i < n && i < |list| && list[i] == key {
      var i :| 0 <= i < n && i < |list| && list[i] == key;
      assert all[..n][i] == key;
    }
  }

  // ---------------------------------------------------------------------------
  // Collection is invisible
  // ---------------------------------------------------------------------------

  /** The reference: a plain map whose entries carry an expiry time and are never collected. */
  datatype Timed<T> = Timed(value: T, expires: int)

  function PlainLookup<K, T>(m: map<K, Timed<T>>, key: K, now: int): Option<T> {
    if key in m && now <= m[key].expires then Some(m[key].value) else None
  }

  function PlainNext<K, T>(m: map<K, Timed<T>>, e: Event<K, T>): map<K, Timed<T>> {
    match e.action
    case Set(k, v, ttl) => m[k := Timed(v, e.now + ttl)]
    case GetOrSet(k, v, ttl) => if PlainLookup(m, k, e.now).Some? then m else m[k := Timed(v, e.now + ttl)]
    case Delete(k) => m - {k}
    case Flush => map[]
    case _ => m
  }

  function PlainReply<K, T>(m: map<K, Timed<T>>, e: Event<K, T>): Output<T> {
    match e.action
    case Get(k) => Found(PlainLookup(m, k, e.now))
    case GetOrSet(k, v, _) =>
      var r := PlainLookup(m, k, e.now);
      if r.Some? then Held(r.value, true) else Held(v, false)
    case _ => Done
  }

  function WithoutCollect<K, T>(events: seq<Event<K, T>>): seq<Event<K, T>> {
    if events == [] then []
    else (if events[0].action.Collect? then [] else [events[0]]) + WithoutCollect(events[1..])
  }

  /** The replies of a cache run, leaving out those of collections. */
  function Replies<K, T>(s: State<K, T>, events: seq<Event<K, T>>, max: int): seq<Output<T>>
    decreases |events|
  {
    if events == [] then []
    else (if events[0].action.Collect? then [] else [Reply(s, events[0])])
         + Replies(Next(s, events[0], max), events[1..], max)
  }

  function PlainReplies<K, T>(m: map<K, Timed<T>>, events: seq<Event<K, T>>): seq<Output<T>>
    decreases |events|
  {
    if events == [] then [] else [PlainReply(m, events[0])] + PlainReplies(PlainNext(m, events[0]), events[1..])
  }

  predicate ClockNeverRunsBack<K, T>(events: seq<Event<K, T>>, start: int) {
    events != [] ==> start <= events[0].now && ClockNeverRunsBack(events[1..], events[0].now)
  }

  /** From `now` on, the cache and the plain map hold the same live entries. */
  ghost predicate SameLive<K(!new), T>(s: State<K, T>, m: map<K, Timed<T>>, now: int) {
    && (forall k :: k in s.items && Live(s.items[k], now) ==>
          k in m && m[k] == Timed(s.items[k].value, s.items[k].created + s.items[k].ttl))
    && (forall k :: k in m && now <= m[k].expires ==> k in s.items && Live(s.items[k], now))
  }

  lemma StoredSameLive<K(!new), T>(s: State<K, T>, m: map<K, Timed<T>>, k: K, v: T, ttl: int, start: int, now: int,
                                   max: int)
    requires max <= 0 && SameLive(s, m, start) && start <= now
    ensures SameLive(Stored(s, k, v, ttl, now, max), m[k := Timed(v, now + ttl)], now)
  {
  }

  lemma CollectedSameLive<K(!new), T>(s: State<K, T>, m: map<K, Timed<T>>, start: int, now: int, max: int)
    requires max <= 0 && WellFormed(s, max) && SameLive(s, m, start) && start <= now
    ensures SameLive(Collected(s, now), m, now)
  {
    CollectedWellFormed(s, now, max);
  }

  lemma ReplySameLive<K(!new), T>(s: State<K, T>, m: map<K, Timed<T>>, e: Event<K, T>, start: int)
    requires SameLive(s, m, start) && start <= e.now
    ensures Reply(s, e) == PlainReply(m, e)
    ensures e.action.GetOrSet? ==> Lookup(s, e.action.key, e.now).Some? == PlainLookup(m, e.action.key, e.now).Some?
  {
  }

  lemma DeletedSameLive<K(!new), T>(s: State<K, T>, m: map<K, Timed<T>>, k: K, start: int, now: int)
    requires SameLive(s, m, start) && start <= now
    ensures SameLive(Deleted(s, k), m - {k}, now)
  {
  }

  lemma NextSameLive<K(!new), T>(s: State<K, T>, m: map<K, Timed<T>>, e: Event<K, T>, start: int, max: int)
    requires max <= 0 && WellFormed(s, max)
    requires SameLive(s, m, start) && start <= e.now
    ensures SameLive(Next(s, e, max), PlainNext(m, e), e.now)
    ensures Reply(s, e) == PlainReply(m, e)
  {
    match e.action
    case Set(k, v, ttl) => StoredSameLive(s, m, k, v, ttl, start, e.now, max);
    case GetOrSet(k, v, ttl) =>
      ReplySameLive(s, m, e, start);
      StoredSameLive(s, m, k, v, ttl, start, e.now, max);
    case Get(_) => ReplySameLive(s, m, e, start);
    case Delete(k) => DeletedSameLive(s, m, k, start, e.now);
    case Flush =>
    case Collect => CollectedSameLive(s, m, start, e.now, max);
  }

  lemma {:induction false} RepliesFromSameLive<K(!new), T>(
    s: State<K, T>, m: map<K, Timed<T>>, events: seq<Event<K, T>>, start: int, max: int)
    requires max <= 0 && WellFormed(s, max)
    requires SameLive(s, m, start) && ClockNeverRunsBack(events, start)
    ensures Replies(s, events, max) == PlainReplies(m, WithoutCollect(events))
    decreases |events|
  {
    if events != [] {
      NextSameLive(s, m, events[0], start, max);
      NextWellFormed(s, events[0], max);
      RepliesFromSameLive(Next(s, events[0], max), PlainNext(m, events[0]), events[1..], events[0].now, max);
      if events[0].action.Collect? {
        assert WithoutCollect(events) == WithoutCollect(events[1..]);
      } else {
        assert WithoutCollect(events)[1..] == WithoutCollect(events[1..]);
      }
    }
  }

  /**
   For an unbounded cache and a clock that never runs back, the replies of every run are
   those of the plain map on the same run with every collection taken out.
   */
  lemma CollectionIsInvisible<K(!new), T>(events: seq<Event<K, T>>, start: int, max: int)
    requires max <= 0 && ClockNeverRunsBack(events, start)
    ensures Replies(Empty(), events, max) == PlainReplies(map[], WithoutCollect(events))
    ensures Replies(Empty(), events, max) == Replies(Empty(), WithoutCollect(events), max)
  {
    RepliesFromSameLive<K, T>(Empty(), map[], events, start, max);
    WithoutCollectIdempotent(events, start);
    RepliesFromSameLive<K, T>(Empty(), map[], WithoutCollect(events), start, max);
  }

  lemma {:induction false} WithoutCollectIdempotent<K, T>(events: seq<Event<K, T>>, start: int)
    requires ClockNeverRunsBack(events, start)
    ensures WithoutCollect(WithoutCollect(events)) == WithoutCollect(events)
    ensures ClockNeverRunsBack(WithoutCollect(events), start)
  {
    if events != [] {
      WithoutCollectIdempotent(events[1..], events[0].now);
      var rest := WithoutCollect(events[1..]);
      if events[0].action.Collect? {
        assert WithoutCollect(events) == rest;
      } else {
        assert WithoutCollect(events)[1..] == rest;
      }
    }
  }

  // ---------------------------------------------------------------------------
  // Exactly when collection is invisible
  // ---------------------------------------------------------------------------

  function After<K, T>(s: State<K, T>, events: seq<Event<K, T>>, max: int): State<K, T>
    decreases |events|
  {
    if events == [] then s else After(Next(s, events[0], max), events[1..], max)
  }

  /** With one slot, the swept cache is the other one, or is empty where the other one's entry has expired. */
  ghost predicate AlikeButSwept<K, T>(s: State<K, T>, t: State<K, T>, now: int) {
    || s == t
    || (s == Empty() && |t.keyList| == 1 && t.keyList[0] in t.items && !Live(t.items[t.keyList[0]], now))
  }

  lemma OneSlot<K, T>(s: State<K, T>)
    requires WellFormed(s, 1) && s.keyList != []
    ensures s.keyList[0] in s.items && s == State(map[s.keyList[0] := s.items[s.keyList[0]]], [s.keyList[0]])
  {
    assert s.keyList[0] in Keys(s.keyList);
    assert forall k :: k in s.items ==> k in Keys(s.keyList);
  }

  /** A store in a cache of one slot leaves just what it stored. */
  lemma StoredInOneSlot<K, T>(s: State<K, T>, key: K, value: T, ttl: int, now: int)
    requires WellFormed(s, 1)
    ensures Stored(s, key, value, ttl, now, 1) == State(map[key := Item(value, now, ttl)], [key])
  {
    StoredWellFormed(s, key, value, ttl, now, 1);
    var t := Stored(s, key, value, ttl, now, 1);
    assert key in Keys(t.keyList);
    OneSlot(t);
  }

  lemma NextAlike<K, T>(s: State<K, T>, t: State<K, T>, e: Event<K, T>, start: int)
    requires WellFormed(s, 1) && WellFormed(t, 1) && AlikeButSwept(s, t, start) && start <= e.now
    requires !e.action.Collect?
    ensures AlikeButSwept(Next(s, e, 1), Next(t, e, 1), e.now) && Reply(s, e) == Reply(t, e)
  {
    if s != t {
      OneSlot(t);
      match e.action
      case Set(k, v, ttl) =>
        StoredInOneSlot(s, k, v, ttl, e.now);
        StoredInOneSlot(t, k, v, ttl, e.now);
      case GetOrSet(k, v, ttl) =>
        StoredInOneSlot(s, k, v, ttl, e.now);
        StoredInOneSlot(t, k, v, ttl, e.now);
      case Get(_) =>
      case Delete(k) =>
        assert Remove(t.keyList, k) == if t.keyList[0] == k then [] else t.keyList;
      case Flush =>
    }
  }

  lemma CollectAlike<K, T>(s: State<K, T>, t: State<K, T>, start: int, now: int)
    requires WellFormed(s, 1) && WellFormed(t, 1) && AlikeButSwept(s, t, start) && start <= now
    ensures AlikeButSwept(Collected(s, now), t, now)
  {
    if s.keyList != [] {
      OneSlot(s);
      var k := s.keyList[0];
      assert Surviving([k], s.items, now) == if Survives(s.items, k, now) then [k] else [];
      assert Live(s.items[k], now) ==> Collected(s, now) == s;
    } else {
      assert s.items == map[] by {
        assert forall k :: k in s.items ==> k in Keys(s.keyList);
      }
    }
  }

  lemma {:induction false} RepliesAlike<K, T>(s: State<K, T>, t: State<K, T>, events: seq<Event<K, T>>, start: int)
    requires WellFormed(s, 1) && WellFormed(t, 1) && AlikeButSwept(s, t, start) && ClockNeverRunsBack(events, start)
    ensures Replies(s, events, 1) == Replies(t, WithoutCollect(events), 1)
    decreases |events|
  {
    if events != [] {
      var e, rest := events[0], events[1..];
      NextWellFormed(s, e, 1);
      if e.action.Collect? {
        CollectAlike(s, t, start, e.now);
        RepliesAlike(Next(s, e, 1), t, rest, e.now);
        assert WithoutCollect(events) == WithoutCollect(rest);
      } else {
        NextAlike(s, t, e, start);
        NextWellFormed(t, e, 1);
        RepliesAlike(Next(s, e, 1), Next(t, e, 1), rest, e.now);
        assert WithoutCollect(events)[1..] == WithoutCollect(rest);
      }
    }
  }

  function Front<K, T>(s: State<K, T>, e: Event<K, T>): seq<Output<T>> {
    if e.action.Collect? then [] else [Reply(s, e)]
  }

  lemma RepliesFront<K, T>(s: State<K, T>, a: seq<Event<K, T>>, e: Event<K, T>, rest: seq<Event<K, T>>, max: int)
    requires a == [e] + rest
    ensures Replies(s, a, max) == Front(s, e) + Replies(Next(s, e, max), rest, max)
    ensures After(s, a, max) == After(Next(s, e, max), rest, max)
  {
    assert a[1..] == rest;
  }

  lemma {:induction false} RepliesSplit<K, T>(s: State<K, T>, a: seq<Event<K, T>>, b: seq<Event<K, T>>, max: int)
    ensures Replies(s, a + b, max) == Replies(s, a, max) + Replies(After(s, a, max), b, max)
    decreases |a|
  {
    if a == [] {
      assert a + b == b;
    } else {
      var e, rest := a[0], a[1..];
      var next := Next(s, e, max);
      var x, y := Replies(next, rest, max), Replies(After(next, rest, max), b, max);
      assert Replies(next, rest + b, max) == x + y by { RepliesSplit(next, rest, b, max); }
      assert Replies(s, a + b, max) == Front(s, e) + (x + y) by { RepliesFront(s, a + b, e, rest + b, max); }
      assert Replies(s, a, max) == Front(s, e) + x && After(s, a, max) == After(next, rest, max) by {
        RepliesFront(s, a, e, rest, max);
      }
      Regrouped(Front(s, e), x, y);
    }
  }

  lemma Regrouped<T>(a: seq<T>, b: seq<T>, c: seq<T>)
    ensures a + (b + c) == a + b + c
  {
  }

  lemma {:induction false} AfterSplit<K, T>(s: State<K, T>, a: seq<Event<K, T>>, e: Event<K, T>, max: int)
    ensures After(s, a + [e], max) == Next(After(s, a, max), e, max)
    decreases |a|
  {
    if a == [] {
      assert a + [e] == [e];
      assert After(s, [e], max) == After(Next(s, e, max), [], max);
    } else {
      assert (a + [e])[0] == a[0] && (a + [e])[1..] == a[1..] + [e];
      AfterSplit(Next(s, a[0], max), a[1..], e, max);
    }
  }

  function FillTtl(k: int): int {
    if k == 0 then 2 else 0
  }

  function Fill(n: nat): Event<int, int> {
    Event(0, Set(n, 0, FillTtl(n)))
  }

  /** Stores of the keys 0 to n - 1 at time 0; only key 0 outlives that moment. */
  function Filling(n: nat): seq<Event<int, int>> {
    if n == 0 then [] else Filling(n - 1) + [Fill(n - 1)]
  }

  function Filled(n: nat): (s: State<int, int>)
    ensures forall k :: k in s.items <==> 0 <= k < n
    ensures forall k :: k in s.items ==> s.items[k] == Item(0, 0, FillTtl(k))
    ensures |s.keyList| == n && forall i :: 0 <= i < n ==> s.keyList[i] == i
  {
    if n == 0 then Empty() else Inserted(Filled(n - 1), n - 1, 0, FillTtl(n - 1), 0)
  }

  lemma {:induction false} FillingFills(n: nat, max: int)
    requires n <= max
    ensures After(Empty(), Filling(n), max) == Filled(n)
  {
    if n > 0 {
      FillingFills(n - 1, max);
      AfterSplit(Empty(), Filling(n - 1), Fill(n - 1), max);
    }
  }

  function Numbered(n: nat): (m: map<int, nat>)
    ensures forall k :: k in m <==> 0 <= k < n
    ensures forall k :: k in m ==> m[k] == k
  {
    if n == 0 then map[] else Numbered(n - 1)[n - 1 := n - 1]
  }

  function FilledTrace(n: nat): Traced<int, int> {
    Traced(Filled(n), Numbered(n), n)
  }

  lemma {:induction false} FilledTraceStep(n: nat, max: int)
    requires n < max
    ensures TracedNext(FilledTrace(n), Fill(n), max) == FilledTrace(n + 1)
  {
    assert n !in Filled(n).items && |Filled(n + 1).keyList| <= max;
  }

  lemma TracedRunStep<K, T>(events: seq<Event<K, T>>, e: Event<K, T>, max: int)
    ensures TracedRun(events + [e], max) == TracedNext(TracedRun(events, max), e, max)
  {
    assert (events + [e])[..|events|] == events;
  }

  lemma {:induction false} FillingStep(n: nat, max: int)
    ensures TracedRun(Filling(n + 1), max) == TracedNext(TracedRun(Filling(n), max), Fill(n), max)
  {
    TracedRunStep(Filling(n), Fill(n), max);
  }

  /** The run ends in `t`. */
  predicate TracedTo<K, T(==)>(events: seq<Event<K, T>>, max: int, t: Traced<K, T>) {
    TracedRun(events, max) == t
  }

  lemma TracedOn<K, T>(events: seq<Event<K, T>>, e: Event<K, T>, max: int, t: Traced<K, T>, u: Traced<K, T>)
    requires TracedTo(events, max, t) && u == TracedNext(t, e, max)
    ensures TracedTo(events + [e], max, u)
  {
    TracedRunStep(events, e, max);
  }

  lemma {:induction false} FillingTraced(n: nat, max: int) returns (run: seq<Event<int, int>>, t: Traced<int, int>)
    requires n <= max
    ensures run == Filling(n) && t == FilledTrace(n) && TracedTo(run, max, t)
  {
    if n == 0 {
      run, t := [], FilledTrace(0);
      FillingNone(max);
    } else {
      var before, was := FillingTraced(n - 1, max);
      run, t := OneMoreFilled(n - 1, max, before, was);
    }
  }

  lemma OneMoreFilled(n: nat, max: int, before: seq<Event<int, int>>, was: Traced<int, int>)
    returns (run: seq<Event<int, int>>, t: Traced<int, int>)
    requires n < max && before == Filling(n) && was == FilledTrace(n) && TracedTo(before, max, was)
    ensures run == Filling(n + 1) && t == FilledTrace(n + 1) && TracedTo(run, max, t)
  {
    run, t := before + [Fill(n)], FilledTrace(n + 1);
    FilledTraceStep(n, max);
    TracedOn(before, Fill(n), max, was, t);
  }

  lemma FillingTrace(n: nat, max: int)
    requires n <= max
    ensures TracedRun(Filling(n), max) == FilledTrace(n)
  {
    var run, t := FillingTraced(n, max);
  }

  lemma FillingNone(max: int)
    ensures TracedRun(Filling(0), max) == FilledTrace(0)
  {
  }

  lemma {:induction false} FullDrops(max: int, key: int)
    requires max >= 1 && 0 <= key <= max / EVICTION_BATCH_DIVISOR
    ensures key !in Stored(Filled(max), max, 0, FillTtl(max), 0, max).items
  {
    FilledWellFormed(max, max);
    assert Filled(max).keyList[key] == key;
    StoreDropsIff(Filled(max), max, 0, FillTtl(max), 0, max, key);
  }

  /** One key more than the cap allows. */
  lemma {:induction false} OverfullTrace(max: nat)
    requires max >= 1
    ensures var t := TracedRun(Filling(max + 1), max);
            && t.cache == Stored(Filled(max), max, 0, FillTtl(max), 0, max)
            && t.born == Numbered(max + 1) && t.count == max + 1
  {
    FillingTrace(max, max);
    FillingStep(max, max);
    assert max !in Filled(max).items;
  }

  lemma {:induction false} FilledHas(n: nat, max: int)
    requires n < max
    ensures n in TracedRun(Filling(n + 1), max).cache.items
  {
    FillingTrace(n + 1, max);
    assert n in Filled(n + 1).items;
  }

  /** The number of insertions a key survives is tight: for every cap, one that is gone after exactly that many. */
  lemma {:induction false} CrowdedIsTight(max: nat, key: nat)
    requires max >= 1 && key == max / EVICTION_BATCH_DIVISOR
    ensures key in TracedRun(Filling(key + 1), max).cache.items
    ensures var t := TracedRun(Filling(max + 1), max);
            key !in t.cache.items && key in t.born && InsertedSince(t, key) == max - key
  {
    FilledHas(key, max);
    FullDrops(max, key);
    var t := TracedRun(Filling(max + 1), max);
    assert t.cache == Stored(Filled(max), max, 0, FillTtl(max), 0, max) && t.born == Numbered(max + 1)
      && t.count == max + 1 by {
      OverfullTrace(max);
    }
    assert key in t.born && t.born[key] == key;
  }

  lemma FilledWellFormed(n: nat, max: int)
    requires n <= max
    ensures WellFormed(Filled(n), max)
  {
    FillingTrace(n, max);
    RunKeepsInvariant(Filling(n), max);
  }

  const REFRESHED: State<int, int> := State(map[1 := Item(0, 10, 5), 2 := Item(0, 0, 5)], [1, 2])

  lemma Refreshing(run: seq<Event<int, int>>)
    requires run == [Event(0, Set(1, 0, 5)), Event(0, Set(2, 0, 5)), Event(10, Set(1, 0, 5))]
    ensures After(Empty(), run, 2) == REFRESHED
  {
    var s1 := Next<int, int>(Empty(), run[0], 2);
    assert s1 == State(map[1 := Item(0, 0, 5)], [1]);
    var s2 := Next(s1, run[1], 2);
    assert s2 == State(map[1 := Item(0, 0, 5), 2 := Item(0, 0, 5)], [1, 2]);
    assert Next(s2, run[2], 2) == REFRESHED;
    assert run[1..][1..] == [run[2]] && [run[2]][1..] == [];
    assert After(s2, [run[2]], 2) == After(REFRESHED, [], 2);
  }

  /**
   A key that is stored again keeps its place, even when its entry had expired: with a cap of two, the
   key stored anew at time 10 is pushed out by the next insertion.
   */
  lemma RefreshDoesNotRenew(run: seq<Event<int, int>>, e: Event<int, int>)
    requires run == [Event(0, Set(1, 0, 5)), Event(0, Set(2, 0, 5)), Event(10, Set(1, 0, 5))]
    requires e == Event(10, Set(3, 0, 5))
    ensures Lookup(After(Empty(), run, 2), 1, 10) == Some(0)
    ensures Lookup(After(Empty(), run + [e], 2), 1, 10) == None
  {
    Refreshing(run);
    AfterSplit(Empty(), run, e, 2);
    StoreDropsIff(REFRESHED, 3, 0, 5, 10, 2, 1);
    assert REFRESHED.keyList[0] == 1;
  }

  /** Collected at time 1, the filled cache keeps key 0 through one more store. */
  lemma SweptKeepsFirst(max: int)
    requires max >= 2
    ensures Lookup(Stored(Collected(Filled(max), 1), max, 0, 0, 1, max), 0, 1) == Some(0)
  {
    var s := Collected(Filled(max), 1);
    assert 0 in Filled(max).items && s.items[0] == Item(0, 0, 2);
    SurvivingShort(Filled(max), 1);
  }

  lemma SurvivingShort(s: State<int, int>, now: int)
    requires NoDup(s.keyList) && forall k :: Survives(s.items, k, now) ==> k == 0
    ensures |Surviving(s.keyList, s.items, now)| <= 1
  {
    SurvivingIsInOrder(s.keyList, s.items, now);
    var r := Surviving(s.keyList, s.items, now);
    assert |r| > 1 ==> r[0] != r[1];
    forall i | 0 <= i < |r|
      ensures r[i] == 0
    {
      assert r[i] in r;
      assert Survives(s.items, r[i], now);
    }
  }

  /** Uncollected, that store pushes key 0 out. */
  lemma UnsweptEvictsFirst(max: int)
    requires max >= 2
    ensures Lookup(Stored(Filled(max), max, 0, 0, 1, max), 0, 1) == None
  {
    var t := Inserted(Filled(max), max, 0, 0, 1);
    assert |t.keyList| == max + 1 && t.keyList[0] == 0;
    var evict := EvictCount(max + 1, max);
    assert t.keyList[..evict][0] == 0;
    assert 0 in Keys(t.keyList[..evict]);
  }

  function Tail(max: nat): seq<Event<int, int>> {
    [Event(1, Set(max, 0, 0)), Event(1, Get(0))]
  }

  lemma TailReplies(s: State<int, int>, max: nat)
    ensures Replies(s, Tail(max), max) == [Done, Found(Lookup(Stored(s, max, 0, 0, 1, max), 0, 1))]
  {
    var t := Next(s, Tail(max)[0], max);
    assert Tail(max)[1..] == [Event(1, Get(0))];
    assert Replies(t, Tail(max)[1..], max) == [Found(Lookup(t, 0, 1))] + Replies(t, [], max);
  }

  /** A run of a cache of two or more slots whose replies change when its collection is taken out. */
  function Revealing(max: nat): seq<Event<int, int>> {
    Filling(max) + ([Event(1, Collect)] + Tail(max))
  }

  lemma {:induction false} FillingOnly(n: nat, rest: seq<Event<int, int>>)
    ensures WithoutCollect(Filling(n) + rest) == Filling(n) + WithoutCollect(rest)
    ensures ClockNeverRunsBack(rest, 0) ==> ClockNeverRunsBack(Filling(n) + rest, 0)
  {
    if n == 0 {
      assert Filling(0) + rest == rest;
      assert Filling(0) + WithoutCollect(rest) == WithoutCollect(rest);
    } else {
      var e := Fill(n - 1);
      assert Filling(n) + rest == Filling(n - 1) + ([e] + rest);
      FillingOnly(n - 1, [e] + rest);
      assert ([e] + rest)[1..] == rest;
      assert WithoutCollect([e] + rest) == [e] + WithoutCollect(rest);
      assert Filling(n) + WithoutCollect(rest) == Filling(n - 1) + ([e] + WithoutCollect(rest));
    }
  }

  lemma FrontEvent(e: Event<int, int>, rest: seq<Event<int, int>>, start: int)
    ensures WithoutCollect([e] + rest) == (if e.action.Collect? then [] else [e]) + WithoutCollect(rest)
    ensures ClockNeverRunsBack([e] + rest, start) <==> start <= e.now && ClockNeverRunsBack(rest, e.now)
  {
    assert ([e] + rest)[1..] == rest;
  }

  lemma TailOnly(max: nat)
    ensures WithoutCollect([Event(1, Collect)] + Tail(max)) == Tail(max)
    ensures ClockNeverRunsBack([Event(1, Collect)] + Tail(max), 0)
  {
    var get: Event<int, int> := Event(1, Get(0));
    var store: Event<int, int> := Event(1, Set(max, 0, 0));
    FrontEvent(get, [], 1);
    assert [get] + [] == [get];
    FrontEvent(store, [get], 1);
    assert Tail(max) == [store] + [get];
    FrontEvent(Event(1, Collect), Tail(max), 0);
  }

  lemma {:induction false} SweptReplies(max: nat)
    requires max >= 2
    ensures Replies(Empty(), Revealing(max), max) == Replies(Empty(), Filling(max), max) + [Done, Found(Some(0))]
  {
    var sweep := [Event(1, Collect)] + Tail(max);
    RepliesSplit(Empty(), Filling(max), sweep, max);
    FillingFills(max, max);
    assert sweep[1..] == Tail(max);
    assert Replies(Filled(max), sweep, max) == Replies(Collected(Filled(max), 1), Tail(max), max);
    TailReplies(Collected(Filled(max), 1), max);
    SweptKeepsFirst(max);
  }

  lemma UnsweptReplies(max: nat)
    requires max >= 2
    ensures Replies(Empty(), Filling(max) + Tail(max), max) == Replies(Empty(), Filling(max), max) + [Done, Found(None)]
  {
    RepliesSplit(Empty(), Filling(max), Tail(max), max);
    FillingFills(max, max);
    TailReplies(Filled(max), max);
    UnsweptEvictsFirst(max);
  }

  lemma {:induction false} RevealingReveals(max: nat)
    requires max >= 2
    ensures ClockNeverRunsBack(Revealing(max), 0)
    ensures Replies(Empty(), Revealing(max), max) != Replies(Empty(), WithoutCollect(Revealing(max)), max)
  {
    TailOnly(max);
    FillingOnly(max, [Event(1, Collect)] + Tail(max));
    SweptReplies(max);
    UnsweptReplies(max);
    var n := |Replies(Empty(), Filling(max), max)|;
    assert Replies(Empty(), Revealing(max), max)[n + 1] == Found(Some(0));
    assert Replies(Empty(), Filling(max) + Tail(max), max)[n + 1] == Found(None);
  }

  /** Whether taking the collections out of a run ever changes a reply. */
  ghost predicate CollectionNeverShows(max: int) {
    forall events: seq<Event<int, int>>, start: int :: ClockNeverRunsBack(events, start) ==>
      Replies(Empty(), events, max) == Replies(Empty(), WithoutCollect(events), max)
  }

  /** Collection is invisible exactly when the cache is unbounded or has a single slot. */
  lemma CollectionNeverShowsIff(max: int)
    ensures CollectionNeverShows(max) <==> max <= 1
  {
    if max <= 1 {
      forall events: seq<Event<int, int>>, start: int | ClockNeverRunsBack(events, start)
        ensures Replies(Empty(), events, max) == Replies(Empty(), WithoutCollect(events), max)
      {
        if max <= 0 {
          CollectionIsInvisible(events, start, max);
        } else {
          RepliesAlike(Empty(), Empty(), events, start);
        }
      }
    } else {
      RevealingReveals(max);
    }
  }
}
