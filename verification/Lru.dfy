/**
 The binary cache of the workflow app, as a value: the entries from most to least recently used and
 the bound on their total size.
 */
module LruModel {
  import opened Bytes

  datatype Entry = Entry(key: string, value: Bytes)

  datatype Lru = Lru(list: seq<Entry>, max: int)

  function Size(list: seq<Entry>): nat {
    if list == [] then 0 else Size(list[..|list| - 1]) + |list[|list| - 1].value|
  }

  /** Where `key` stands, or the length of the list. */
  function Position(list: seq<Entry>, key: string): (p: nat)
    ensures p <= |list|
    ensures p < |list| ==> list[p].key == key
    ensures forall i :: 0 <= i < p ==> list[i].key != key
  {
    if list == [] || list[0].key == key then 0 else Position(list[1..], key) + 1
  }

  function Promoted(list: seq<Entry>, p: nat): seq<Entry>
    requires p < |list|
  {
    [list[p]] + list[..p] + list[p + 1..]
  }

  /** Entries dropped from the back until the rest fits in `room`. */
  function Kept(list: seq<Entry>, room: int): seq<Entry> {
    if list == [] || Size(list) <= room then list else Kept(list[..|list| - 1], room)
  }

  function Get(s: Lru, key: string): (Lru, Option<Bytes>) {
    var p := Position(s.list, key);
    if p == |s.list| then (s, None) else (s.(list := Promoted(s.list, p)), Some(s.list[p].value))
  }

  function Put(s: Lru, entry: Entry): Lru {
    var p := Position(s.list, entry.key);
    if p < |s.list| then s.(list := Promoted(s.list, p))
    else s.(list := [entry] + Kept(s.list, s.max - |entry.value|))
  }

  function Resized(s: Lru, max: int): Lru {
    if max <= 0 then s else Lru(Kept(s.list, max), max)
  }

  predicate Has(list: seq<Entry>, key: string) {
    exists i :: 0 <= i < |list| && list[i].key == key
  }

  predicate DistinctKeys(list: seq<Entry>) {
    forall i, j :: 0 <= i < j < |list| ==> list[i].key != list[j].key
  }

  /** The cache is within its bound, or holds a single binary that is larger than the bound. */
  predicate WithinBound(s: Lru) {
    Size(s.list) <= s.max || |s.list| <= 1
  }

  /** What stays is the longest run of most recent entries that fits. */
  lemma {:induction false} KeptIsLongestPrefix(list: seq<Entry>, room: int)
    ensures Kept(list, room) <= list
    ensures var n := |Kept(list, room)|;
            && (n == 0 || Size(list[..n]) <= room)
            && (forall m :: n < m <= |list| ==> Size(list[..m]) > room)
  {
    assert list[..|list|] == list;
    if list != [] && Size(list) > room {
      var shorter := list[..|list| - 1];
      KeptIsLongestPrefix(shorter, room);
      var n := |Kept(list, room)|;
      assert shorter[..n] == list[..n];
      forall m | n < m <= |list|
        ensures Size(list[..m]) > room
      {
        if m < |list| {
          assert shorter[..m] == list[..m];
        }
      }
    }
  }

  /** A key is found exactly when it is cached, with its value; only the order changes. */
  lemma HitIff(s: Lru, key: string)
    ensures Get(s, key).1.Some? <==> Has(s.list, key)
    ensures Get(s, key).1.Some? ==> exists i :: 0 <= i < |s.list| && s.list[i] == Entry(key, Get(s, key).1.value)
    ensures Get(s, key).1.None? ==> Get(s, key).0 == s
    ensures multiset(Get(s, key).0.list) == multiset(s.list) && Get(s, key).0.max == s.max
  {
    var p := Position(s.list, key);
    if p < |s.list| {
      assert s.list[p] == Entry(key, s.list[p].value);
      assert s.list == s.list[..p] + [s.list[p]] + s.list[p + 1..];
    }
  }

  /** A stored binary is found next time; a bound takes effect if it is positive and is ignored otherwise. */
  lemma StoredIsHit(s: Lru, entry: Entry, max: int)
    ensures Position(s.list, entry.key) == |s.list| ==> Get(Put(s, entry), entry.key).1 == Some(entry.value)
    ensures Has(s.list, entry.key) ==> Get(Put(s, entry), entry.key).1 == Get(s, entry.key).1
    ensures Resized(s, max).max == if max > 0 then max else s.max
    ensures max <= 0 ==> Resized(s, max) == s
    ensures max > 0 ==> Size(Resized(s, max).list) <= max && Resized(s, max).list <= s.list
  {
    KeptIsLongestPrefix(s.list, max);
    var n := |Kept(s.list, max)|;
    assert Kept(s.list, max) == s.list[..n];
  }

  lemma {:induction false} SizeOfConcat(a: seq<Entry>, b: seq<Entry>)
    ensures Size(a + b) == Size(a) + Size(b)
  {
    if b == [] {
      assert a + b == a;
    } else {
      var n := |b| - 1;
      assert (a + b)[..|a + b| - 1] == a + b[..n];
      SizeOfConcat(a, b[..n]);
    }
  }

  /** Where promotion puts each entry. */
  lemma PromotedAt(list: seq<Entry>, p: nat)
    requires p < |list|
    ensures var promoted := Promoted(list, p);
            |promoted| == |list| && promoted[0] == list[p]
            && forall i :: 0 < i < |list| ==> promoted[i] == if i <= p then list[i - 1] else list[i]
  {
  }

  lemma PromotedDistinct(list: seq<Entry>, p: nat)
    requires p < |list| && DistinctKeys(list)
    ensures DistinctKeys(Promoted(list, p))
  {
    PromotedAt(list, p);
  }

  lemma PushedDistinct(list: seq<Entry>, entry: Entry)
    requires DistinctKeys(list) && Position(list, entry.key) == |list|
    ensures DistinctKeys([entry] + list)
  {
  }

  lemma KeptDistinct(list: seq<Entry>, room: int, key: string)
    requires DistinctKeys(list)
    ensures DistinctKeys(Kept(list, room))
    ensures Position(list, key) == |list| ==> Position(Kept(list, room), key) == |Kept(list, room)|
  {
    KeptIsLongestPrefix(list, room);
  }

  lemma SizeOfThree(a: seq<Entry>, b: seq<Entry>, c: seq<Entry>)
    ensures Size(a + b + c) == Size(a) + Size(b) + Size(c)
  {
    SizeOfConcat(a + b, c);
    SizeOfConcat(a, b);
  }

  /** Promotion only moves an entry. */
  lemma {:induction false} PromotedSize(list: seq<Entry>, p: nat)
    requires p < |list|
    ensures Size(Promoted(list, p)) == Size(list)
  {
    var head, x, tail := list[..p], [list[p]], list[p + 1..];
    SizeOfThree(head, x, tail);
    SizeOfThree(x, head, tail);
    assert Promoted(list, p) == x + head + tail;
    assert list == head + x + tail;
  }
}

/** Runs of the critical sections of the binary cache. */
module LruRuns {
  import opened Bytes
  import opened LruModel

  /** `Store` happens only for bytes whose hash, in hexadecimal, is the key. */
  datatype Op = Load(key: string) | Store(key: string, value: Bytes) | Resize(max: int)

  function Step(s: Lru, op: Op): Lru {
    match op
    case Load(key) => Get(s, key).0
    case Store(key, value) => Put(s, Entry(key, value))
    case Resize(max) => Resized(s, max)
  }

  function Run(s: Lru, ops: seq<Op>): Lru {
    if ops == [] then s else Step(Run(s, ops[..|ops| - 1]), ops[|ops| - 1])
  }

  predicate Checked(name: Bytes -> string, ops: seq<Op>) {
    forall i :: 0 <= i < |ops| && ops[i].Store? ==> ops[i].key == name(ops[i].value)
  }

  predicate Named(name: Bytes -> string, list: seq<Entry>) {
    forall i :: 0 <= i < |list| ==> list[i].key == name(list[i].value)
  }

  predicate Inv(name: Bytes -> string, s: Lru) {
    DistinctKeys(s.list) && WithinBound(s) && Named(name, s.list)
  }

  lemma PromotedKeepsInv(name: Bytes -> string, s: Lru, p: nat)
    requires Inv(name, s) && p < |s.list|
    ensures Inv(name, s.(list := Promoted(s.list, p)))
  {
    PromotedSize(s.list, p);
    PromotedAt(s.list, p);
    PromotedDistinct(s.list, p);
  }

  lemma PutKeepsInv(name: Bytes -> string, s: Lru, entry: Entry)
    requires Inv(name, s) && entry.key == name(entry.value)
    ensures Inv(name, Put(s, entry))
  {
    var p := Position(s.list, entry.key);
    if p < |s.list| {
      PromotedKeepsInv(name, s, p);
    } else {
      var room := s.max - |entry.value|;
      var kept := Kept(s.list, room);
      KeptIsLongestPrefix(s.list, room);
      KeptDistinct(s.list, room, entry.key);
      PushedDistinct(kept, entry);
      SizeOfConcat([entry], kept);
      assert Size([entry]) == |entry.value|;
      assert kept == s.list[..|kept|];
    }
  }

  lemma ResizedKeepsInv(name: Bytes -> string, s: Lru, max: int)
    requires Inv(name, s)
    ensures Inv(name, Resized(s, max))
  {
    if max > 0 {
      var kept := Kept(s.list, max);
      KeptIsLongestPrefix(s.list, max);
      KeptDistinct(s.list, max, "");
      assert kept == s.list[..|kept|];
    }
  }

  lemma StepKeepsInv(name: Bytes -> string, s: Lru, op: Op)
    requires Inv(name, s) && Checked(name, [op])
    ensures Inv(name, Step(s, op))
  {
    match op
    case Load(key) =>
      var p := Position(s.list, key);
      if p < |s.list| {
        PromotedKeepsInv(name, s, p);
      }
    case Store(key, value) =>
      assert [op][0] == op;
      PutKeepsInv(name, s, Entry(key, value));
    case Resize(max) =>
      ResizedKeepsInv(name, s, max);
  }

  /** Over every run: no key twice, the bound kept, and every cached binary hashes to its key. */
  lemma {:induction false} RunKeepsInv(name: Bytes -> string, max: int, ops: seq<Op>)
    requires Checked(name, ops)
    ensures Inv(name, Run(Lru([], max), ops))
  {
    if ops != [] {
      RunKeepsInv(name, max, ops[..|ops| - 1]);
      StepKeepsInv(name, Run(Lru([], max), ops[..|ops| - 1]), ops[|ops| - 1]);
    }
  }

  /** Storing a new key leaves the cache over its bound exactly when the binary alone is larger than the bound. */
  lemma StoreExceedsIff(s: Lru, entry: Entry)
    requires Position(s.list, entry.key) == |s.list|
    ensures Size(Put(s, entry).list) > s.max <==> |entry.value| > s.max
    ensures |entry.value| > s.max ==> Put(s, entry).list == [entry]
  {
    var room := s.max - |entry.value|;
    var kept := Kept(s.list, room);
    KeptIsLongestPrefix(s.list, room);
    SizeOfConcat([entry], kept);
    assert Size([entry]) == |entry.value|;
    assert kept == s.list[..|kept|] && Put(s, entry).list == [entry] + kept;
    if |entry.value| > s.max {
      assert [entry] + kept == [entry];
    }
  }

  /** The cache holds just one binary, and that is larger than the bound. */
  predicate Oversize(s: Lru) {
    |s.list| == 1 && |s.list[0].value| > s.max
  }

  /** In every run with a positive bound, the bound is exceeded exactly by a single binary larger than it. */
  lemma RunExceedsIff(name: Bytes -> string, max: int, ops: seq<Op>)
    requires Checked(name, ops) && Run(Lru([], max), ops).max > 0
    ensures var s := Run(Lru([], max), ops); Size(s.list) > s.max <==> Oversize(s)
  {
    RunKeepsInv(name, max, ops);
    var s := Run(Lru([], max), ops);
    if |s.list| == 1 {
      assert s.list[..0] == [];
      assert Size(s.list) == Size(s.list[..0]) + |s.list[0].value|;
    }
  }

  /** For every bound, a run that exceeds it. */
  lemma OversizeRun(name: Bytes -> string, max: nat, value: Bytes)
    requires |value| > max
    ensures Checked(name, [Store(name(value), value)])
    ensures var s := Run(Lru([], max), [Store(name(value), value)]); Oversize(s) && Size(s.list) > s.max
  {
    var op := Store(name(value), value);
    assert [op][..0] == [];
    StoreExceedsIff(Lru([], max), Entry(name(value), value));
  }

  /** The key an operation uses: a hit or a store; a miss uses nothing. */
  function Used(s: Lru, op: Op): Option<string> {
    match op
    case Load(key) => if Position(s.list, key) < |s.list| then Some(key) else None
    case Store(key, _) => Some(key)
    case Resize(_) => None
  }

  function Uses(s: Lru, ops: seq<Op>): seq<Option<string>> {
    if ops == [] then []
    else
      var before := ops[..|ops| - 1];
      Uses(s, before) + [Used(Run(s, before), ops[|ops| - 1])]
  }

  /** The time of the last use of `key`, or -1. */
  function LastUse(uses: seq<Option<string>>, key: string): int {
    if uses == [] then -1
    else if uses[|uses| - 1] == Some(key) then |uses| - 1
    else LastUse(uses[..|uses| - 1], key)
  }

  /** The list is sorted by last use, and what is not in it was used before everything that is. */
  ghost predicate Ordered(last: string -> int, now: int, list: seq<Entry>) {
    && (forall i :: 0 <= i < |list| ==> 0 <= last(list[i].key) < now)
    && (forall i, j :: 0 <= i < j < |list| ==> last(list[i].key) > last(list[j].key))
    && (forall key, i :: 0 <= i < |list| && !Has(list, key) ==> last(list[i].key) > last(key))
  }

  ghost predicate MostRecent(uses: seq<Option<string>>, list: seq<Entry>) {
    Ordered(key => LastUse(uses, key), |uses|, list)
  }

  /** `next` is `last` with a use of `used` at `now`. */
  ghost predicate UsedNow(last: string -> int, next: string -> int, now: int, used: string) {
    forall key :: last(key) < now && next(key) == if key == used then now else last(key)
  }

  lemma LastUseStep(uses: seq<Option<string>>, use: Option<string>, key: string)
    ensures LastUse(uses + [use], key) == if use == Some(key) then |uses| else LastUse(uses, key)
  {
    assert (uses + [use])[..|uses|] == uses;
  }

  lemma {:induction false} UsesAreInThePast(uses: seq<Option<string>>, key: string)
    ensures LastUse(uses, key) < |uses|
  {
    if uses != [] {
      UsesAreInThePast(uses[..|uses| - 1], key);
    }
  }

  lemma UseIsNow(uses: seq<Option<string>>, used: string)
    ensures UsedNow(key => LastUse(uses, key), key => LastUse(uses + [Some(used)], key), |uses|, used)
  {
    forall key
      ensures LastUse(uses, key) < |uses|
      ensures LastUse(uses + [Some(used)], key) == if key == used then |uses| else LastUse(uses, key)
    {
      UsesAreInThePast(uses, key);
      LastUseStep(uses, Some(used), key);
    }
  }

  /** After a promotion, the entry in front was used now and the others when they were before. */
  lemma {:induction false} PromotedTimes(last: string -> int, next: string -> int, now: int, list: seq<Entry>, p: nat)
    requires Ordered(last, now, list) && p < |list| && UsedNow(last, next, now, list[p].key)
    ensures var promoted := Promoted(list, p);
            && |promoted| == |list| && next(promoted[0].key) == now
            && forall i :: 0 < i < |list| ==>
                 next(promoted[i].key) == last(promoted[i].key)
                 && promoted[i] == if i <= p then list[i - 1] else list[i]
  {
    PromotedAt(list, p);
    forall i | 0 <= i < |list| && i != p
      ensures next(list[i].key) == last(list[i].key)
    {
      assert last(list[i].key) != last(list[p].key);
    }
  }

  lemma {:induction false} PromotedSorted(last: string -> int, next: string -> int, now: int, list: seq<Entry>, p: nat,
                                          i: nat, j: nat)
    requires Ordered(last, now, list) && p < |list| && UsedNow(last, next, now, list[p].key) && i < j < |list|
    ensures next(Promoted(list, p)[i].key) > next(Promoted(list, p)[j].key)
  {
    PromotedTimes(last, next, now, list, p);
    var a, b := if i <= p then i - 1 else i, if j <= p then j - 1 else j;
    if i > 0 {
      assert last(list[a].key) > last(list[b].key);
    }
  }

  lemma {:induction false} PromotedInThePast(last: string -> int, next: string -> int, now: int, list: seq<Entry>,
                                             p: nat)
    requires Ordered(last, now, list) && p < |list| && UsedNow(last, next, now, list[p].key)
    ensures var promoted := Promoted(list, p); forall i :: 0 <= i < |promoted| ==> 0 <= next(promoted[i].key) < now + 1
  {
    PromotedTimes(last, next, now, list, p);
    assert now > last(list[p].key);
  }

  lemma {:induction false} PromotedByUse(last: string -> int, next: string -> int, now: int, list: seq<Entry>, p: nat)
    requires Ordered(last, now, list) && p < |list| && UsedNow(last, next, now, list[p].key)
    ensures var promoted := Promoted(list, p);
            forall i, j :: 0 <= i < j < |promoted| ==> next(promoted[i].key) > next(promoted[j].key)
  {
    assert |Promoted(list, p)| == |list| by { PromotedAt(list, p); }
    forall i, j | 0 <= i < j < |list|
      ensures next(Promoted(list, p)[i].key) > next(Promoted(list, p)[j].key)
    {
      PromotedSorted(last, next, now, list, p, i, j);
    }
  }

  lemma {:induction false} PromotedBeforeOthers(last: string -> int, next: string -> int, now: int, list: seq<Entry>,
                                                p: nat)
    requires Ordered(last, now, list) && p < |list| && UsedNow(last, next, now, list[p].key)
    ensures var promoted := Promoted(list, p);
            forall key, i :: 0 <= i < |promoted| && !Has(promoted, key) ==> next(promoted[i].key) > next(key)
  {
    var promoted := Promoted(list, p);
    assert |promoted| == |list| by { PromotedAt(list, p); }
    forall key, i | 0 <= i < |promoted| && !Has(promoted, key)
      ensures next(promoted[i].key) > next(key)
    {
      SameKeys(list, p, key);
      PromotedBeyond(last, next, now, list, p, key, i);
    }
  }

  /** Using a listed entry, and moving it to the front, keeps the order. */
  lemma {:induction false} PromotedOrdered(last: string -> int, next: string -> int, now: int, list: seq<Entry>, p: nat)
    requires Ordered(last, now, list) && p < |list| && UsedNow(last, next, now, list[p].key)
    ensures Ordered(next, now + 1, Promoted(list, p))
  {
    PromotedInThePast(last, next, now, list, p);
    PromotedByUse(last, next, now, list, p);
    PromotedBeforeOthers(last, next, now, list, p);
  }

  lemma {:induction false} PromotedBeyond(last: string -> int, next: string -> int, now: int, list: seq<Entry>, p: nat,
                                          key: string, i: nat)
    requires Ordered(last, now, list) && p < |list| && UsedNow(last, next, now, list[p].key) && !Has(list, key)
    requires i < |list|
    ensures next(Promoted(list, p)[i].key) > next(key)
  {
    PromotedTimes(last, next, now, list, p);
    assert next(key) == last(key);
    assert Promoted(list, p)[i] == list[if i == 0 then p else if i <= p then i - 1 else i];
  }

  lemma SameKeys(list: seq<Entry>, p: nat, key: string)
    requires p < |list|
    ensures Has(Promoted(list, p), key) == Has(list, key)
  {
    var promoted := Promoted(list, p);
    PromotedAt(list, p);
    if Has(list, key) {
      var i :| 0 <= i < |list| && list[i].key == key;
      assert promoted[if i < p then i + 1 else if i == p then 0 else i].key == key;
    }
  }

  /** Dropping entries from the back keeps the order. */
  lemma {:induction false} PrefixOrdered(last: string -> int, now: int, list: seq<Entry>, n: nat)
    requires Ordered(last, now, list) && n <= |list|
    ensures Ordered(last, now, list[..n])
  {
    assert forall i :: 0 <= i < n ==> list[..n][i] == list[i];
    forall key, i | 0 <= i < n && !Has(list[..n], key)
      ensures last(list[i].key) > last(key)
    {
      if Has(list, key) {
        var j :| 0 <= j < |list| && list[j].key == key;
        assert j >= n;
      }
    }
  }

  lemma {:induction false} PushedTimes(last: string -> int, next: string -> int, now: int, list: seq<Entry>,
                                       entry: Entry)
    requires Position(list, entry.key) == |list| && UsedNow(last, next, now, entry.key)
    ensures var pushed := [entry] + list;
            && next(pushed[0].key) == now
            && forall i :: 0 < i < |pushed| ==> pushed[i] == list[i - 1] && next(pushed[i].key) == last(list[i - 1].key)
  {
    forall i | 0 <= i < |list|
      ensures next(list[i].key) == last(list[i].key)
    {
      assert list[i].key != entry.key;
    }
  }

  lemma {:induction false} PushedSorted(last: string -> int, next: string -> int, now: int, list: seq<Entry>,
                                        entry: Entry, i: nat, j: nat)
    requires Ordered(last, now, list) && Position(list, entry.key) == |list| && UsedNow(last, next, now, entry.key)
    requires i < j <= |list|
    ensures next(([entry] + list)[i].key) > next(([entry] + list)[j].key)
  {
    PushedTimes(last, next, now, list, entry);
    if i > 0 {
      assert last(list[i - 1].key) > last(list[j - 1].key);
    }
  }

  /** Putting a new entry in front keeps the order. */
  lemma {:induction false} PushedOrdered(last: string -> int, next: string -> int, now: int, list: seq<Entry>,
                                         entry: Entry)
    requires Ordered(last, now, list) && Position(list, entry.key) == |list| && UsedNow(last, next, now, entry.key)
    requires now >= 0
    ensures Ordered(next, now + 1, [entry] + list)
  {
    var pushed := [entry] + list;
    forall i, j | 0 <= i < j < |pushed|
      ensures next(pushed[i].key) > next(pushed[j].key)
    {
      PushedSorted(last, next, now, list, entry, i, j);
    }
    PushedTimes(last, next, now, list, entry);
    forall key, i | 0 <= i < |pushed| && !Has(pushed, key)
      ensures next(pushed[i].key) > next(key)
    {
      NotPushed(list, entry, key);
      assert next(key) == last(key);
    }
  }

  lemma NotPushed(list: seq<Entry>, entry: Entry, key: string)
    requires !Has([entry] + list, key)
    ensures key != entry.key && !Has(list, key)
  {
    var pushed := [entry] + list;
    assert pushed[0] == entry && forall i :: 0 <= i < |list| ==> pushed[i + 1] == list[i];
  }

  lemma UnusedMostRecent(uses: seq<Option<string>>, list: seq<Entry>)
    requires MostRecent(uses, list)
    ensures MostRecent(uses + [None], list)
  {
    forall key
      ensures LastUse(uses + [None], key) == LastUse(uses, key)
    {
      LastUseStep(uses, None, key);
    }
  }

  lemma KeptMostRecent(uses: seq<Option<string>>, list: seq<Entry>, room: int)
    requires MostRecent(uses, list)
    ensures MostRecent(uses, Kept(list, room))
  {
    var n := |Kept(list, room)|;
    KeptIsLongestPrefix(list, room);
    PrefixOrdered(key => LastUse(uses, key), |uses|, list, n);
    assert Kept(list, room) == list[..n];
  }

  lemma PromotedMostRecent(uses: seq<Option<string>>, list: seq<Entry>, p: nat)
    requires MostRecent(uses, list) && p < |list|
    ensures MostRecent(uses + [Some(list[p].key)], Promoted(list, p))
  {
    UseIsNow(uses, list[p].key);
    PromotedOrdered(key => LastUse(uses, key), key => LastUse(uses + [Some(list[p].key)], key), |uses|, list, p);
  }

  lemma PutMostRecent(uses: seq<Option<string>>, s: Lru, entry: Entry)
    requires MostRecent(uses, s.list) && DistinctKeys(s.list)
    ensures MostRecent(uses + [Some(entry.key)], Put(s, entry).list)
  {
    var p := Position(s.list, entry.key);
    if p < |s.list| {
      PromotedMostRecent(uses, s.list, p);
    } else {
      var room := s.max - |entry.value|;
      KeptMostRecent(uses, s.list, room);
      KeptDistinct(s.list, room, entry.key);
      UseIsNow(uses, entry.key);
      PushedOrdered(key => LastUse(uses, key), key => LastUse(uses + [Some(entry.key)], key), |uses|,
                    Kept(s.list, room), entry);
    }
  }

  lemma GetMostRecent(uses: seq<Option<string>>, s: Lru, key: string)
    requires MostRecent(uses, s.list)
    ensures MostRecent(uses + [Used(s, Load(key))], Get(s, key).0.list)
  {
    var p := Position(s.list, key);
    if p < |s.list| {
      PromotedMostRecent(uses, s.list, p);
    } else {
      UnusedMostRecent(uses, s.list);
    }
  }

  lemma StepKeepsMostRecent(uses: seq<Option<string>>, s: Lru, op: Op)
    requires MostRecent(uses, s.list) && DistinctKeys(s.list)
    ensures MostRecent(uses + [Used(s, op)], Step(s, op).list)
  {
    match op
    case Load(key) => GetMostRecent(uses, s, key);
    case Store(key, value) => PutMostRecent(uses, s, Entry(key, value));
    case Resize(max) =>
      UnusedMostRecent(uses, s.list);
      KeptMostRecent(uses + [None], s.list, max);
  }

  /** At every moment of every run, the cache holds exactly the most recently used keys, in that order. */
  lemma {:induction false} RunKeepsMostRecent(name: Bytes -> string, max: int, ops: seq<Op>)
    requires Checked(name, ops)
    ensures MostRecent(Uses(Lru([], max), ops), Run(Lru([], max), ops).list)
  {
    if ops != [] {
      var before := ops[..|ops| - 1];
      RunKeepsMostRecent(name, max, before);
      RunKeepsInv(name, max, before);
      StepKeepsMostRecent(Uses(Lru([], max), before), Run(Lru([], max), before), ops[|ops| - 1]);
    }
  }
}

/** `BinaryFetcher` as an object: a map into the elements of a recency list. */
module BinaryFetcher {
  import opened Bytes
  import opened LruModel
  import LruRuns

  /** Two lower-case hexadecimal digits a byte. */
  function Hex(b: Bytes): string {
    if b == [] then [] else [Digit(b[0] as nat / 16), Digit(b[0] as nat % 16)] + Hex(b[1..])
  }

  function Digit(n: nat): char
    requires n < 16
  {
    "0123456789abcdef"[n]
  }

  lemma DigitInjective(m: nat, n: nat)
    requires m < 16 && n < 16 && Digit(m) == Digit(n)
    ensures m == n
  {
  }

  lemma {:induction false} HexInjective(a: Bytes, b: Bytes)
    requires Hex(a) == Hex(b)
    ensures a == b
  {
    if a != [] && b != [] {
      assert Hex(a)[0] == Hex(b)[0] && Hex(a)[1] == Hex(b)[1];
      DigitInjective(a[0] as nat / 16, b[0] as nat / 16);
      DigitInjective(a[0] as nat % 16, b[0] as nat % 16);
      assert Hex(a)[2..] == Hex(a[1..]) && Hex(b)[2..] == Hex(b[1..]);
      HexInjective(a[1..], b[1..]);
      assert a == [a[0]] + a[1..] && b == [b[0]] + b[1..];
    }
  }

  /**
   In every run of the cache's critical sections, those of other fetches included, a hit gives bytes
   that hash to what was asked for.
   */
  lemma HitIsGenuine(sha: Bytes -> Bytes, max: int, ops: seq<LruRuns.Op>, binaryHash: Bytes)
    requires LruRuns.Checked(b => Hex(sha(b)), ops)
    ensures var hit := Get(LruRuns.Run(Lru([], max), ops), Hex(binaryHash)).1;
            hit.Some? ==> sha(hit.value) == binaryHash
  {
    LruRuns.RunKeepsInv(b => Hex(sha(b)), max, ops);
    var hit := Get(LruRuns.Run(Lru([], max), ops), Hex(binaryHash)).1;
    if hit.Some? {
      HexInjective(sha(hit.value), binaryHash);
    }
  }

  datatype Fetched = Binary(bytes: Bytes) | NoHash | NoCredentials | FetchFailed | HashMismatch

  class Element {
    const entry: Entry

    constructor (entry: Entry)
      ensures this.entry == entry
    {
      this.entry := entry;
    }
  }

  function Entries(elements: seq<Element>): (list: seq<Entry>)
    ensures |list| == |elements| && forall i :: 0 <= i < |elements| ==> list[i] == elements[i].entry
  {
    seq(|elements|, i requires 0 <= i < |elements| => elements[i].entry)
  }

  lemma EntriesOfPromoted(elements: seq<Element>, p: nat)
    requires p < |elements|
    ensures Entries([elements[p]] + elements[..p] + elements[p + 1..]) == Promoted(Entries(elements), p)
  {
  }

  lemma EntriesOfPushed(elements: seq<Element>, element: Element)
    ensures Entries([element] + elements) == [element.entry] + Entries(elements)
  {
  }

  /** The map leads from each listed key to its element, and nowhere else. */
  ghost predicate Linked(items: map<string, Element>, elements: seq<Element>) {
    && (forall e :: e in elements ==> e.entry.key in items && items[e.entry.key] == e)
    && (forall key :: key in items ==> items[key] in elements && items[key].entry.key == key)
  }

  lemma PromotedLinked(items: map<string, Element>, elements: seq<Element>, p: nat)
    requires Linked(items, elements) && p < |elements|
    ensures Linked(items, [elements[p]] + elements[..p] + elements[p + 1..])
  {
    assert elements == elements[..p] + [elements[p]] + elements[p + 1..];
  }

  lemma PrefixLinked(items: map<string, Element>, elements: seq<Element>, n: nat)
    requires Linked(items, elements) && DistinctKeys(Entries(elements)) && n == |elements| - 1
    ensures Linked(items - {elements[n].entry.key}, elements[..n])
    ensures Entries(elements[..n]) == Entries(elements)[..n] && DistinctKeys(Entries(elements[..n]))
  {
    var key := elements[n].entry.key;
    forall e | e in elements[..n] ensures e in elements && e.entry.key != key {
      var i :| 0 <= i < n && elements[..n][i] == e;
      assert Entries(elements)[i].key != Entries(elements)[n].key;
    }
    assert elements == elements[..n] + [elements[n]];
  }

  lemma PushedLinked(items: map<string, Element>, elements: seq<Element>, element: Element)
    requires Linked(items, elements) && element.entry.key !in items
    ensures Linked(items[element.entry.key := element], [element] + elements)
  {
  }

  class BinaryFetcher {
    var maxCacheBytes: int
    var cacheBytes: int
    var items: map<string, Element>
    var evictList: seq<Element>

    ghost function Value(): Lru
      reads this
    {
      Lru(Entries(evictList), maxCacheBytes)
    }

    /** The map points into the list, the list has each key once, and the size is the sum over the list. */
    ghost predicate Valid()
      reads this
    {
      && Linked(items, evictList)
      && DistinctKeys(Entries(evictList))
      && cacheBytes == Size(Entries(evictList))
    }

    constructor (maxCacheBytes: int)
      ensures Valid() && Value() == Lru([], maxCacheBytes)
    {
      this.maxCacheBytes, cacheBytes := maxCacheBytes, 0;
      items, evictList := map[], [];
    }

    lemma KnownAt(key: string)
      requires Valid()
      ensures key in items <==> Position(Entries(evictList), key) < |evictList|
      ensures key in items ==> items[key] == evictList[Position(Entries(evictList), key)]
    {
      var p := Position(Entries(evictList), key);
      if p < |evictList| {
        assert evictList[p] in evictList;
      }
      if key in items {
        var i :| 0 <= i < |evictList| && evictList[i] == items[key];
        assert Entries(evictList)[i].key == key;
      }
    }

    method IndexOf(element: Element) returns (i: nat)
      requires Valid() && element in evictList
      ensures i == Position(Value().list, element.entry.key) < |evictList| && evictList[i] == element
    {
      KnownAt(element.entry.key);
      i := 0;
      while evictList[i] != element
        invariant i <= Position(Value().list, element.entry.key)
        decreases |evictList| - i
      {
        i := i + 1;
      }
    }

    method MoveToFront(element: Element)
      requires Valid() && element in evictList
      modifies this`evictList
      ensures Valid()
      ensures var p := Position(old(Value()).list, element.entry.key);
              p < |old(Value()).list| && Value() == old(Value()).(list := Promoted(old(Value()).list, p))
    {
      var i := IndexOf(element);
      PromotedSize(Entries(evictList), i);
      PromotedDistinct(Entries(evictList), i);
      PromotedLinked(items, evictList, i);
      EntriesOfPromoted(evictList, i);
      evictList := [element] + evictList[..i] + evictList[i + 1..];
    }

    /** Drop the least recently used element. */
    method RemoveOldest()
      requires Valid() && evictList != []
      modifies this`evictList, this`items, this`cacheBytes
      ensures Valid() && Value() == old(Value()).(list := old(Value()).list[..|old(evictList)| - 1])
      ensures items.Keys <= old(items.Keys)
    {
      var n := |evictList| - 1;
      var oldest := evictList[n];
      PrefixLinked(items, evictList, n);
      evictList := evictList[..n];
      items := items - {oldest.entry.key};
      cacheBytes := cacheBytes - |oldest.entry.value|;
    }

    method CacheGet(key: string) returns (value: Option<Bytes>)
      requires Valid()
      modifies this`evictList
      ensures Valid()
      ensures (Value(), value) == Get(old(Value()), key)
    {
      KnownAt(key);
      if key !in items {
        return None;
      }
      MoveToFront(items[key]);
      return Some(items[key].entry.value);
    }

    /** Drop elements from the back while more than `room` bytes are cached. */
    method MakeRoom(room: int)
      requires Valid()
      modifies this`evictList, this`items, this`cacheBytes
      ensures Valid()
      ensures Value() == old(Value()).(list := Kept(old(Value()).list, room))
      ensures items.Keys <= old(items.Keys)
    {
      while cacheBytes > room && |evictList| > 0
        invariant Valid() && maxCacheBytes == old(maxCacheBytes) && items.Keys <= old(items.Keys)
        invariant Kept(Value().list, room) == Kept(old(Value()).list, room)
        decreases |evictList|
      {
        RemoveOldest();
      }
    }

    method CachePut(key: string, value: Bytes)
      requires Valid()
      modifies this`evictList, this`items, this`cacheBytes
      ensures Valid()
      ensures Value() == Put(old(Value()), Entry(key, value))
    {
      KnownAt(key);
      ghost var s, p := Value(), Position(Value().list, key);
      assert Put(s, Entry(key, value)).max == s.max;
      assert Put(s, Entry(key, value)).list ==
             if key in items then Promoted(s.list, p) else [Entry(key, value)] + Kept(s.list, s.max - |value|);
      if key in items {
        MoveToFront(items[key]);
        return;
      }
      Insert(key, value);
    }

    method Insert(key: string, value: Bytes)
      requires Valid() && key !in items
      modifies this`evictList, this`items, this`cacheBytes
      ensures Valid()
      ensures Value().list == [Entry(key, value)] + Kept(old(Value()).list, maxCacheBytes - |value|)
    {
      MakeRoom(maxCacheBytes - |value|);
      PushFront(key, value);
    }

    method PushFront(key: string, value: Bytes)
      requires Valid() && key !in items
      modifies this`evictList, this`items, this`cacheBytes
      ensures Valid()
      ensures Value().list == [Entry(key, value)] + old(Value()).list
    {
      KnownAt(key);
      PushedDistinct(Entries(evictList), Entry(key, value));
      SizeOfConcat([Entry(key, value)], Entries(evictList));
      assert Size([Entry(key, value)]) == |value|;
      var element := new Element(Entry(key, value));
      PushedLinked(items, evictList, element);
      EntriesOfPushed(evictList, element);
      evictList := [element] + evictList;
      items := items[key := element];
      cacheBytes := cacheBytes + |value|;
    }

    method SetMaxCacheBytes(max: int)
      requires Valid()
      modifies this
      ensures Valid()
      ensures Value() == Resized(old(Value()), max)
    {
      if max <= 0 {
        return;
      }
      maxCacheBytes := max;
      MakeRoom(max);
    }

    /**
     `raw` is what the storage service answers, if it is configured; it is not trusted. Whatever it
     answers, bytes that come back hash to `binaryHash`.
     */
    method Fetch(sha: Bytes -> Bytes, binaryHash: Bytes, raw: Option<Option<Bytes>>) returns (r: Fetched)
      requires Valid() && LruRuns.Inv(b => Hex(sha(b)), Value())
      modifies this`evictList, this`items, this`cacheBytes
      ensures Valid() && LruRuns.Inv(b => Hex(sha(b)), Value())
      ensures r.Binary? ==> sha(r.bytes) == binaryHash
      ensures r.NoHash? <==> binaryHash == []
      ensures r.NoCredentials? <==> binaryHash != [] && raw.None?
      ensures var hit := Get(old(Value()), Hex(binaryHash));
              binaryHash != [] && raw.Some? ==>
                if hit.1.Some? then r == Binary(hit.1.value) && Value() == hit.0
                else if raw.value.None? then r == FetchFailed && Value() == old(Value())
                else if sha(raw.value.value) != binaryHash then r == HashMismatch && Value() == old(Value())
                else
                  && r == Binary(raw.value.value)
                  && Value() == Put(old(Value()), Entry(Hex(binaryHash), raw.value.value))
      ensures r.NoHash? || r.NoCredentials? ==> Value() == old(Value())
    {
      if |binaryHash| == 0 {
        return NoHash;
      }
      if raw.None? {
        return NoCredentials;
      }
      ghost var name := b => Hex(sha(b));
      var key := Hex(binaryHash);
      ghost var before := Value();
      var cached := CacheGet(key);
      LruRuns.StepKeepsInv(name, before, LruRuns.Load(key));
      if cached.Some? {
        HexInjective(sha(cached.value), binaryHash);
        return Binary(cached.value);
      }
      if raw.value.None? {
        return FetchFailed;
      }
      var binary := raw.value.value;
      if sha(binary) != binaryHash {
        return HashMismatch;
      }
      CachePut(key, binary);
      LruRuns.StepKeepsInv(name, before, LruRuns.Store(key, binary));
      return Binary(binary);
    }
  }
}
