/**
 The keychain of box_keychain.go: which keypair a request gets. One act is one operation on one
 of its two caches, so calls, rotations, sweeps, collections and evictions interleave freely.
 */
module KeychainModel {
  import opened Bytes
  import opened CacheModel

  datatype Keypair = Keypair(public: Bytes, private: Bytes, created: int, ttl: int)

  /** `Decrypt` refuses a keypair only after `created + ttl`. */
  predicate MayDecrypt(kp: Keypair, now: int) {
    !(kp.created + kp.ttl < now)
  }

  /** The newest keypair, the earliest in the list among equals. */
  function Newest(kps: seq<Keypair>): Keypair
    requires kps != []
  {
    if |kps| == 1 then kps[0]
    else
      var best, last := Newest(kps[..|kps| - 1]), kps[|kps| - 1];
      if last.created > best.created then last else best
  }

  lemma {:induction false} NewestIsNewest(kps: seq<Keypair>)
    requires kps != []
    ensures Newest(kps) in kps
    ensures forall kp :: kp in kps ==> kp.created <= Newest(kps).created
  {
    var n := |kps| - 1;
    if n > 0 {
      NewestIsNewest(kps[..n]);
      assert kps == kps[..n] + [kps[n]];
    }
  }

  /** Among equally new keypairs it is the first. */
  lemma {:induction false} NewestIsFirst(kps: seq<Keypair>) returns (i: nat)
    requires kps != []
    ensures i < |kps| && kps[i] == Newest(kps)
    ensures forall j :: 0 <= j < i ==> kps[j].created < kps[i].created
  {
    var n := |kps| - 1;
    if n == 0 {
      i := 0;
    } else {
      i := NewestIsFirst(kps[..n]);
      NewestIsNewest(kps[..n]);
      if kps[n].created > kps[i].created {
        i := n;
        assert forall j :: 0 <= j < n ==> kps[j] in kps[..n];
      }
    }
  }

  /** The keypairs `GetKeyPairs` returns. */
  function LivePairs(list: seq<Bytes>, keys: State<Bytes, Keypair>, now: int): seq<Keypair> {
    if list == [] then []
    else
      var kp := Lookup(keys, list[|list| - 1], now);
      LivePairs(list[..|list| - 1], keys, now) + if kp.Some? then [kp.value] else []
  }

  lemma {:induction false} LivePairsMembers(list: seq<Bytes>, keys: State<Bytes, Keypair>, now: int)
    ensures forall kp :: kp in LivePairs(list, keys, now) <==> exists k :: k in list && Lookup(keys, k, now) == Some(kp)
  {
    if list != [] {
      var n := |list| - 1;
      LivePairsMembers(list[..n], keys, now);
      assert list == list[..n] + [list[n]];
      forall kp ensures kp in LivePairs(list, keys, now) <==>
        exists k :: k in list && Lookup(keys, k, now) == Some(kp) {
        assert (exists k :: k in list && Lookup(keys, k, now) == Some(kp)) <==>
               (exists k :: k in list[..n] && Lookup(keys, k, now) == Some(kp))
                 || Lookup(keys, list[n], now) == Some(kp);
      }
    }
  }

  /** Auxiliary: when a call read the list of keys, and the latest keypair created by then. */
  datatype Seen = Seen(at: int, latest: Option<Keypair>)

  /** Where a call of `GetKeyPairForRequest`, or the sweep, has got to. */
  datatype Thread =
    | Missed(req: Bytes)                                            // no mapping was found
    | Listing(req: Bytes, left: seq<Bytes>, found: seq<Keypair>, seen: Seen)    // looking up the listed keys one by one
    | Picked(req: Bytes, kp: Keypair, seen: Seen)                   // the newest has been chosen
    | Holding(req: Bytes, key: Bytes, life: nat)                    // a mapping was read
    | Expired(req: Bytes)                                           // the mapped keypair is gone
    | Returned(req: Bytes, kp: Keypair, life: nat)
    | Failed(req: Bytes)
    | Sweeping(reqs: seq<Bytes>)
    | SweepHolding(req: Bytes, key: Bytes, reqs: seq<Bytes>)
    | SweepStale(req: Bytes, reqs: seq<Bytes>)

  /**
   Auxiliary: `lives` counts, per request, how often its mapping was created; `pinned` is what each of
   those mapped it to; `listed` is when the call that created it had read the list of keys; `latest` is
   the keypair created last.
   */
  datatype Chain = Chain(
    keys: State<Bytes, Keypair>,
    pins: State<Bytes, Bytes>,
    threads: map<nat, Thread>,
    now: int,
    lives: map<Bytes, nat>,
    pinned: map<(Bytes, nat), Bytes>,
    listed: map<(Bytes, nat), int>,
    issued: map<Bytes, Keypair>,
    latest: Option<Keypair>)

  function Life(s: Chain, req: Bytes): nat {
    if req in s.lives then s.lives[req] else 0
  }

  datatype Act =
    | Call(t: nat, req: Bytes)
    | Proceed(t: nat)
    | StartSweep(t: nat)
    | Create(kp: Keypair)
    | CollectKeys
    | CollectPins
    | Tick(now: int)

  datatype Params = Params(expiration: int, pinTtl: int, pinMax: int)

  predicate MayAct(s: Chain, a: Act) {
    match a
    case Call(t, _) => t !in s.threads
    case Proceed(t) => t in s.threads && !s.threads[t].Returned? && !s.threads[t].Failed?
    case StartSweep(t) => t !in s.threads
    case Create(kp) => kp.public !in s.issued
    case CollectKeys => true
    case CollectPins => true
    case Tick(now) => s.now <= now
  }

  function Put(s: Chain, t: nat, th: Thread): Chain {
    s.(threads := s.threads[t := th])
  }

  /** Reading the mapping of a request. */
  function ReadPin(s: Chain, req: Bytes): Thread {
    var key := Lookup(s.pins, req, s.now);
    if key.Some? then Holding(req, key.value, Life(s, req)) else Missed(req)
  }

  /** `GetOrSet`: the first writer of a mapping wins. */
  function Pin(p: Params, s: Chain, t: nat, req: Bytes, kp: Keypair, seen: Seen): Chain {
    var key := Lookup(s.pins, req, s.now);
    if key.Some? then Put(s, t, Holding(req, key.value, Life(s, req)))
    else
      var life := Life(s, req) + 1;
      Put(s.(pins := Stored(s.pins, req, kp.public, p.pinTtl, s.now, p.pinMax),
             lives := s.lives[req := life],
             pinned := s.pinned[(req, life) := kp.public],
             listed := s.listed[(req, life) := seen.at]),
          t, Returned(req, kp, life))
  }

  /** The next cache operation of a thread. */
  function Advance(p: Params, s: Chain, t: nat): Chain
    requires t in s.threads
  {
    match s.threads[t]
    case Missed(req) => Put(s, t, Listing(req, s.keys.keyList, [], Seen(s.now, s.latest)))
    case Listing(req, left, found, seen) =>
      if left == [] then Put(s, t, if found == [] then Failed(req) else Picked(req, Newest(found), seen))
      else
        var kp := Lookup(s.keys, left[0], s.now);
        Put(s, t, Listing(req, left[1..], found + (if kp.Some? then [kp.value] else []), seen))
    case Picked(req, kp, seen) => Pin(p, s, t, req, kp, seen)
    case Holding(req, key, life) =>
      var kp := Lookup(s.keys, key, s.now);
      Put(s, t, if kp.Some? then Returned(req, kp.value, life) else Expired(req))
    case Expired(req) => Put(s.(pins := Deleted(s.pins, req)), t, Failed(req))
    case Sweeping(reqs) =>
      if reqs == [] then s
      else
        var key := Lookup(s.pins, reqs[0], s.now);
        Put(s, t, if key.Some? then SweepHolding(reqs[0], key.value, reqs[1..]) else Sweeping(reqs[1..]))
    case SweepHolding(req, key, reqs) =>
      Put(s, t, if Lookup(s.keys, key, s.now).Some? then Sweeping(reqs) else SweepStale(req, reqs))
    case SweepStale(req, reqs) => Put(s.(pins := Deleted(s.pins, req)), t, Sweeping(reqs))
    case Returned(_, _, _) => s
    case Failed(_) => s
  }

  function Do(p: Params, s: Chain, a: Act): Chain
    requires MayAct(s, a)
  {
    match a
    case Call(t, req) => Put(s, t, ReadPin(s, req))
    case Proceed(t) => Advance(p, s, t)
    case StartSweep(t) => Put(s, t, Sweeping(s.pins.keyList))
    case Create(kp) =>
      s.(keys := Stored(s.keys, kp.public, kp, p.expiration, s.now, 0), issued := s.issued[kp.public := kp],
         latest := Some(kp))
    case CollectKeys => s.(keys := Collected(s.keys, s.now))
    case CollectPins => s.(pins := Collected(s.pins, s.now))
    case Tick(now) => s.(now := now)
  }

  function Start(now: int): Chain {
    Chain(Empty(), Empty(), map[], now, map[], map[], map[], map[], None)
  }

  predicate Feasible(p: Params, start: int, acts: seq<Act>)
    decreases |acts|, 0
  {
    acts == [] || (Feasible(p, start, acts[..|acts| - 1])
                   && MayAct(Reached(p, start, acts[..|acts| - 1]), acts[|acts| - 1]))
  }

  function Reached(p: Params, start: int, acts: seq<Act>): Chain
    requires Feasible(p, start, acts)
    decreases |acts|, 1
  {
    if acts == [] then Start(start) else Do(p, Reached(p, start, acts[..|acts| - 1]), acts[|acts| - 1])
  }
}

/** All calls for a request that decide within one lifetime of its mapping return the same keypair. */
module RequestPinning {
  import opened Bytes
  import opened CacheModel
  import opened KeychainModel

  predicate Issued(s: Chain, kp: Keypair) {
    kp.public in s.issued && s.issued[kp.public] == kp
  }

  /** The mapping of a request, while present, is the one its current life began with. */
  ghost predicate PinsOk(s: Chain) {
    && (forall r :: r in s.pins.items ==>
          (r, Life(s, r)) in s.pinned && s.pins.items[r].value == s.pinned[(r, Life(s, r))])
    && (forall r, l :: (r, l) in s.pinned ==> l <= Life(s, r))
  }

  ghost predicate KeysOk(s: Chain) {
    forall k :: k in s.keys.items ==> s.keys.items[k].value.public == k && Issued(s, s.keys.items[k].value)
  }

  predicate ThreadOk(s: Chain, th: Thread) {
    match th
    case Listing(_, _, found, _) => forall i :: 0 <= i < |found| ==> Issued(s, found[i])
    case Picked(_, kp, _) => Issued(s, kp)
    case Holding(req, key, life) => (req, life) in s.pinned && s.pinned[(req, life)] == key
    case Returned(req, kp, life) => (req, life) in s.pinned && s.pinned[(req, life)] == kp.public && Issued(s, kp)
    case _ => true
  }

  ghost predicate Inv(s: Chain) {
    && PinsOk(s) && KeysOk(s)
    && forall t :: t in s.threads ==> ThreadOk(s, s.threads[t])
  }

  /** What is on record stays on record. */
  predicate Extends(s: Chain, u: Chain) {
    && (forall k :: k in s.issued ==> k in u.issued && u.issued[k] == s.issued[k])
    && (forall x :: x in s.pinned ==> x in u.pinned && u.pinned[x] == s.pinned[x])
  }

  lemma ThreadStaysOk(s: Chain, u: Chain, th: Thread)
    requires Extends(s, u) && ThreadOk(s, th)
    ensures ThreadOk(u, th)
  {
  }

  /** A step that only moves one thread keeps the invariant if the thread's new state is in order. */
  lemma PutKeepsInv(s: Chain, t: nat, th: Thread)
    requires Inv(s) && ThreadOk(s, th)
    ensures Inv(Put(s, t, th))
  {
    var u := Put(s, t, th);
    forall x | x in u.threads ensures ThreadOk(u, u.threads[x]) {
      ThreadStaysOk(s, u, u.threads[x]);
    }
  }

  lemma PinKeepsInv(p: Params, s: Chain, t: nat, req: Bytes, kp: Keypair, seen: Seen)
    requires Inv(s) && Issued(s, kp)
    ensures Inv(Pin(p, s, t, req, kp, seen))
  {
    if Lookup(s.pins, req, s.now).Some? {
      PutKeepsInv(s, t, Holding(req, Lookup(s.pins, req, s.now).value, Life(s, req)));
    } else {
      var u := Pin(p, s, t, req, kp, seen);
      assert (req, Life(s, req) + 1) !in s.pinned;
      assert Extends(s, u);
      forall x | x in u.threads ensures ThreadOk(u, u.threads[x]) {
        if x != t {
          ThreadStaysOk(s, u, s.threads[x]);
        }
      }
      PinKeepsPins(p, s, t, req, kp, seen);
    }
  }

  lemma PinKeepsPins(p: Params, s: Chain, t: nat, req: Bytes, kp: Keypair, seen: Seen)
    requires PinsOk(s) && Lookup(s.pins, req, s.now).None?
    ensures PinsOk(Pin(p, s, t, req, kp, seen))
  {
    var u := Pin(p, s, t, req, kp, seen);
    forall r | r in u.pins.items
      ensures (r, Life(u, r)) in u.pinned && u.pins.items[r].value == u.pinned[(r, Life(u, r))]
    {
      if r != req {
        assert r in s.pins.items;
      }
    }
  }

  /** Dropping mappings keeps the invariant. */
  lemma FewerPinsKeepInv(s: Chain, pins: State<Bytes, Bytes>)
    requires Inv(s)
    requires forall r :: r in pins.items ==> r in s.pins.items && pins.items[r] == s.pins.items[r]
    ensures Inv(s.(pins := pins))
  {
    var u := s.(pins := pins);
    forall x | x in u.threads ensures ThreadOk(u, u.threads[x]) {
      ThreadStaysOk(s, u, s.threads[x]);
    }
  }

  lemma AdvanceKeepsInv(p: Params, s: Chain, t: nat)
    requires Inv(s) && t in s.threads
    ensures Inv(Advance(p, s, t))
  {
    var th := s.threads[t];
    assert ThreadOk(s, th);
    match th
    case Missed(req) => PutKeepsInv(s, t, Listing(req, s.keys.keyList, [], Seen(s.now, s.latest)));
    case Listing(req, left, found, seen) =>
      if left != [] {
        var kp := Lookup(s.keys, left[0], s.now);
        PutKeepsInv(s, t, Listing(req, left[1..], found + (if kp.Some? then [kp.value] else []), seen));
      } else if found != [] {
        NewestIsNewest(found);
        PutKeepsInv(s, t, Picked(req, Newest(found), seen));
      } else {
        PutKeepsInv(s, t, Failed(req));
      }
    case Picked(req, kp, seen) => PinKeepsInv(p, s, t, req, kp, seen);
    case Holding(req, key, life) =>
      var kp := Lookup(s.keys, key, s.now);
      PutKeepsInv(s, t, if kp.Some? then Returned(req, kp.value, life) else Expired(req));
    case Expired(req) =>
      FewerPinsKeepInv(s, Deleted(s.pins, req));
      PutKeepsInv(s.(pins := Deleted(s.pins, req)), t, Failed(req));
    case Sweeping(reqs) =>
      if reqs != [] {
        var key := Lookup(s.pins, reqs[0], s.now);
        PutKeepsInv(s, t, if key.Some? then SweepHolding(reqs[0], key.value, reqs[1..]) else Sweeping(reqs[1..]));
      }
    case SweepHolding(req, key, reqs) =>
      PutKeepsInv(s, t, if Lookup(s.keys, key, s.now).Some? then Sweeping(reqs) else SweepStale(req, reqs));
    case SweepStale(req, reqs) =>
      FewerPinsKeepInv(s, Deleted(s.pins, req));
      PutKeepsInv(s.(pins := Deleted(s.pins, req)), t, Sweeping(reqs));
    case Returned(_, _, _) =>
    case Failed(_) =>
  }

  lemma CreateKeepsInv(p: Params, s: Chain, kp: Keypair)
    requires Inv(s) && kp.public !in s.issued
    ensures Inv(Do(p, s, Create(kp)))
  {
    var u := Do(p, s, Create(kp));
    assert Extends(s, u);
    forall k | k in u.keys.items ensures u.keys.items[k].value.public == k && Issued(u, u.keys.items[k].value) {
      if k != kp.public {
        assert k in s.keys.items;
      }
    }
    forall x | x in u.threads ensures ThreadOk(u, u.threads[x]) {
      ThreadStaysOk(s, u, s.threads[x]);
    }
  }

  lemma DoKeepsInv(p: Params, s: Chain, a: Act)
    requires Inv(s) && MayAct(s, a)
    ensures Inv(Do(p, s, a))
  {
    match a
    case Call(t, req) => PutKeepsInv(s, t, ReadPin(s, req));
    case Proceed(t) => AdvanceKeepsInv(p, s, t);
    case StartSweep(t) => PutKeepsInv(s, t, Sweeping(s.pins.keyList));
    case Create(kp) => CreateKeepsInv(p, s, kp);
    case CollectKeys =>
      var u := Do(p, s, a);
      forall x | x in u.threads ensures ThreadOk(u, u.threads[x]) {
        ThreadStaysOk(s, u, s.threads[x]);
      }
    case CollectPins => FewerPinsKeepInv(s, Collected(s.pins, s.now));
    case Tick(now) =>
      var u := Do(p, s, a);
      forall x | x in u.threads ensures ThreadOk(u, u.threads[x]) {
        ThreadStaysOk(s, u, s.threads[x]);
      }
  }

  lemma {:induction false} RunKeepsInv(p: Params, start: int, acts: seq<Act>)
    requires Feasible(p, start, acts)
    ensures Inv(Reached(p, start, acts))
  {
    if acts != [] {
      var before := acts[..|acts| - 1];
      RunKeepsInv(p, start, before);
      DoKeepsInv(p, Reached(p, start, before), acts[|acts| - 1]);
    }
  }

  /**
   In every run, two calls for one request that both succeed, and whose deciding read fell into the
   same life of the request's mapping, return the same keypair.
   */
  lemma SameLifeSameKeypair(p: Params, start: int, acts: seq<Act>, t1: nat, t2: nat)
    requires Feasible(p, start, acts)
    requires var s := Reached(p, start, acts);
             && t1 in s.threads && s.threads[t1].Returned? && t2 in s.threads && s.threads[t2].Returned?
             && s.threads[t1].req == s.threads[t2].req && s.threads[t1].life == s.threads[t2].life
    ensures var s := Reached(p, start, acts); s.threads[t1].kp == s.threads[t2].kp
  {
    RunKeepsInv(p, start, acts);
    var s := Reached(p, start, acts);
    assert ThreadOk(s, s.threads[t1]) && ThreadOk(s, s.threads[t2]);
  }

  /** A live mapping is never replaced: one act later it is the same, in the same life, or it is gone. */
  lemma LiveMappingIsNeverReplaced(p: Params, s: Chain, a: Act, req: Bytes)
    requires MayAct(s, a) && Lookup(s.pins, req, s.now).Some?
    ensures var u := Do(p, s, a);
            && Life(u, req) == Life(s, req)
            && (Lookup(u.pins, req, u.now).None? || Lookup(u.pins, req, u.now) == Lookup(s.pins, req, s.now))
  {
    if a.Proceed? && s.threads[a.t].Picked? && s.threads[a.t].req != req
      && Lookup(s.pins, s.threads[a.t].req, s.now).None? {
      var pick := s.threads[a.t];
      assert Do(p, s, a).pins == Stored(s.pins, pick.req, pick.kp.public, p.pinTtl, s.now, p.pinMax);
    }
  }
}

/**
 Rotation at least every `R` keeps a keypair at hand, and the keypair a request is pinned to good for
 `E - R` from the moment the list of keys was read. `E` is the keypairs' expiration.
 */
module KeyRotation {
  import opened Bytes
  import opened CacheModel
  import opened KeychainModel
  import RP = RequestPinning

  /**
   Keypairs get the expiration as their lifetime, are stored no earlier than they were generated and in
   the order they were generated, and the clock does not pass more than `R` beyond the latest one.
   */
  predicate OnTime(p: Params, s: Chain, a: Act, R: int) {
    match a
    case Create(kp) =>
      && kp.ttl == p.expiration && kp.created <= s.now <= kp.created + R
      && (s.latest.Some? ==> s.latest.value.created <= kp.created)
    case Tick(now) => s.latest.Some? ==> now <= s.latest.value.created + R
    case _ => true
  }

  predicate Timely(p: Params, start: int, acts: seq<Act>, R: int)
    requires Feasible(p, start, acts)
  {
    acts == [] ||
    (Timely(p, start, acts[..|acts| - 1], R) && OnTime(p, Reached(p, start, acts[..|acts| - 1]), acts[|acts| - 1], R))
  }

  predicate EntryOk(item: Item<Keypair>, key: Bytes, E: int) {
    item.value.public == key && item.value.ttl == E && item.ttl == E && item.value.created <= item.created
  }

  /** The keypair sits in the cache with its full time to live, or that time is over. */
  predicate Kept(s: Chain, kp: Keypair, E: int) {
    kp.ttl == E &&
    (kp.created + E >= s.now ==> kp.public in s.keys.items && s.keys.items[kp.public].value == kp
                                 && EntryOk(s.keys.items[kp.public], kp.public, E))
  }

  ghost predicate KeysKept(s: Chain, R: int, E: int) {
    && WellFormed(s.keys, 0)
    && (forall k :: k in s.keys.items ==> EntryOk(s.keys.items[k], k, E) && RP.Issued(s, s.keys.items[k].value))
    && (forall k :: k in s.issued ==> s.issued[k].public == k && Kept(s, s.issued[k], E))
    && (if s.latest.Some? then RP.Issued(s, s.latest.value) && s.now <= s.latest.value.created + R
        else s.issued == map[])
  }

  /** Among the keys still to look up and the keypairs found is one no older than `latest`. */
  predicate Candidate(left: seq<Bytes>, found: seq<Keypair>, latest: Keypair) {
    || latest.public in left
    || exists i :: 0 <= i < |found| && found[i].created >= latest.created
  }

  predicate SeenOk(s: Chain, seen: Seen, R: int) {
    && seen.at <= s.now
    && (seen.latest.Some? ==> RP.Issued(s, seen.latest.value) && seen.at <= seen.latest.value.created + R)
  }

  /** A call picks nothing older than the latest keypair at its listing, unless it takes until that one expires. */
  predicate CallOk(s: Chain, th: Thread, R: int, E: int) {
    match th
    case Listing(_, left, found, seen) =>
      && SeenOk(s, seen, R)
      && (if seen.latest.None? then left == [] && found == []
          else s.now <= seen.latest.value.created + E ==> Candidate(left, found, seen.latest.value))
    case Picked(_, kp, seen) =>
      && SeenOk(s, seen, R) && seen.latest.Some?
      && (s.now <= seen.latest.value.created + E ==> kp.created >= seen.latest.value.created)
    case _ => true
  }

  /** A mapping made by a call that listed at `t` is, up to `t + E - R`, to a keypair created at `t - R` or later. */
  predicate PinnedOk(s: Chain, x: (Bytes, nat), R: int, E: int)
    requires x in s.pinned
  {
    && s.pinned[x] in s.issued && x in s.listed
    && (s.now <= s.listed[x] + E - R ==> s.issued[s.pinned[x]].created >= s.listed[x] - R)
  }

  ghost predicate Inv(s: Chain, R: int, E: int) {
    && RP.Inv(s) && KeysKept(s, R, E)
    && (forall t :: t in s.threads ==> CallOk(s, s.threads[t], R, E))
    && (forall x :: x in s.pinned ==> PinnedOk(s, x, R, E))
  }

  // --- one act ----------------------------------------------------------------------------

  /** Acts that leave the keys, the clock and what is pinned alone, and move one thread. */
  lemma PutKeeps(s: Chain, t: nat, th: Thread, R: int, E: int)
    requires Inv(s, R, E) && CallOk(s, th, R, E) && RP.ThreadOk(s, th)
    ensures Inv(Put(s, t, th), R, E)
  {
    RP.PutKeepsInv(s, t, th);
    var u := Put(s, t, th);
    forall x | x in u.threads ensures CallOk(u, u.threads[x], R, E) {
      CallStays(s, u, u.threads[x], R, E);
    }
  }

  /** Later, with more keypairs issued, a call is as well off as before. */
  lemma CallStays(s: Chain, u: Chain, th: Thread, R: int, E: int)
    requires CallOk(s, th, R, E) && RP.Extends(s, u) && s.now <= u.now
    ensures CallOk(u, th, R, E)
  {
  }

  lemma PinsStay(s: Chain, u: Chain, x: (Bytes, nat), R: int, E: int)
    requires x in s.pinned && PinnedOk(s, x, R, E) && RP.Extends(s, u) && s.now <= u.now
    requires x in s.listed ==> x in u.listed && u.listed[x] == s.listed[x]
    ensures x in u.pinned && PinnedOk(u, x, R, E)
  {
  }

  /** A lookup finds every keypair that has not expired. */
  lemma KeptIsFound(s: Chain, kp: Keypair, E: int)
    requires Kept(s, kp, E) && s.now <= kp.created + E
    ensures Lookup(s.keys, kp.public, s.now) == Some(kp)
  {
  }

  lemma LookupStep(s: Chain, left: seq<Bytes>, found: seq<Keypair>, latest: Keypair, R: int, E: int)
    requires KeysKept(s, R, E) && RP.Issued(s, latest) && left != [] && s.now <= latest.created + E
    requires Candidate(left, found, latest)
    ensures var kp := Lookup(s.keys, left[0], s.now);
            Candidate(left[1..], found + (if kp.Some? then [kp.value] else []), latest)
  {
    var kp := Lookup(s.keys, left[0], s.now);
    var more := found + if kp.Some? then [kp.value] else [];
    if left[0] == latest.public {
      KeptIsFound(s, latest, E);
      assert more[|found|] == latest;
    } else if latest.public in left {
      assert left == [left[0]] + left[1..];
    } else {
      var i :| 0 <= i < |found| && found[i].created >= latest.created;
      assert more[i] == found[i];
    }
  }

  lemma ListingKeeps(p: Params, s: Chain, t: nat, R: int)
    requires Inv(s, R, p.expiration) && t in s.threads && s.threads[t].Listing? && 0 <= R <= p.expiration
    ensures Inv(Advance(p, s, t), R, p.expiration)
  {
    var E := p.expiration;
    RP.AdvanceKeepsInv(p, s, t);
    var th := s.threads[t];
    assert RP.ThreadOk(s, th) && CallOk(s, th, R, E);
    if th.left != [] {
      if th.seen.latest.Some? && s.now <= th.seen.latest.value.created + E {
        LookupStep(s, th.left, th.found, th.seen.latest.value, R, E);
      }
      NextListingOk(s, th);
      var kp := Lookup(s.keys, th.left[0], s.now);
      PutKeeps(s, t, Listing(th.req, th.left[1..], th.found + (if kp.Some? then [kp.value] else []), th.seen), R, E);
    } else if th.found != [] {
      NewestIsNewest(th.found);
      PutKeeps(s, t, Picked(th.req, Newest(th.found), th.seen), R, E);
    } else {
      PutKeeps(s, t, Failed(th.req), R, E);
    }
  }

  lemma NextListingOk(s: Chain, th: Thread)
    requires RP.Inv(s) && th.Listing? && th.left != [] && RP.ThreadOk(s, th)
    ensures var kp := Lookup(s.keys, th.left[0], s.now);
            RP.ThreadOk(s, Listing(th.req, th.left[1..], th.found + (if kp.Some? then [kp.value] else []), th.seen))
  {
  }

  /** Reading the list: the latest keypair is on it. */
  lemma MissedKeeps(p: Params, s: Chain, t: nat, R: int)
    requires Inv(s, R, p.expiration) && t in s.threads && s.threads[t].Missed? && 0 <= R <= p.expiration
    ensures Inv(Advance(p, s, t), R, p.expiration)
  {
    var th := Listing(s.threads[t].req, s.keys.keyList, [], Seen(s.now, s.latest));
    if s.latest.Some? {
      KeptIsFound(s, s.latest.value, p.expiration);
      assert s.latest.value.public in Keys(s.keys.keyList);
    } else {
      assert s.keys.items == map[];
      NoDupCardinality(s.keys.keyList);
    }
    PutKeeps(s, t, th, R, p.expiration);
  }

  lemma PickedKeepsPins(p: Params, s: Chain, t: nat, th: Thread, R: int, x: (Bytes, nat))
    requires Inv(s, R, p.expiration) && th.Picked? && CallOk(s, th, R, p.expiration) && RP.Issued(s, th.kp)
    requires x in Pin(p, s, t, th.req, th.kp, th.seen).pinned
    ensures PinnedOk(Pin(p, s, t, th.req, th.kp, th.seen), x, R, p.expiration)
  {
    PinExtends(p, s, t, th);
    if x in s.pinned {
      PinsStay(s, Pin(p, s, t, th.req, th.kp, th.seen), x, R, p.expiration);
    }
  }

  lemma PickedKeepsCalls(p: Params, s: Chain, t: nat, th: Thread, R: int, x: nat)
    requires Inv(s, R, p.expiration) && th.Picked?
    requires x in Pin(p, s, t, th.req, th.kp, th.seen).threads
    ensures var u := Pin(p, s, t, th.req, th.kp, th.seen); CallOk(u, u.threads[x], R, p.expiration)
  {
    if x != t {
      PinExtends(p, s, t, th);
      CallStays(s, Pin(p, s, t, th.req, th.kp, th.seen), s.threads[x], R, p.expiration);
    }
  }

  lemma PickedKeeps(p: Params, s: Chain, t: nat, R: int)
    requires Inv(s, R, p.expiration) && t in s.threads && s.threads[t].Picked? && 0 <= R <= p.expiration
    ensures Inv(Advance(p, s, t), R, p.expiration)
  {
    var th := s.threads[t];
    assert RP.ThreadOk(s, th) && CallOk(s, th, R, p.expiration);
    RP.AdvanceKeepsInv(p, s, t);
    PinKeeps(p, s, t, th, R);
  }

  lemma PinKeeps(p: Params, s: Chain, t: nat, th: Thread, R: int)
    requires Inv(s, R, p.expiration) && th.Picked? && CallOk(s, th, R, p.expiration) && RP.Issued(s, th.kp)
    requires RP.Inv(Pin(p, s, t, th.req, th.kp, th.seen))
    ensures Inv(Pin(p, s, t, th.req, th.kp, th.seen), R, p.expiration)
  {
    var u := Pin(p, s, t, th.req, th.kp, th.seen);
    forall x | x in u.threads ensures CallOk(u, u.threads[x], R, p.expiration) {
      PickedKeepsCalls(p, s, t, th, R, x);
    }
    forall x | x in u.pinned ensures PinnedOk(u, x, R, p.expiration) {
      PickedKeepsPins(p, s, t, th, R, x);
    }
  }

  lemma PinExtends(p: Params, s: Chain, t: nat, th: Thread)
    requires RP.PinsOk(s) && th.Picked?
    ensures var u := Pin(p, s, t, th.req, th.kp, th.seen);
            && RP.Extends(s, u)
            && forall x :: x in s.listed && x in s.pinned ==> x in u.listed && u.listed[x] == s.listed[x]
  {
    assert (th.req, Life(s, th.req) + 1) !in s.pinned;
  }

  lemma AdvanceKeeps(p: Params, s: Chain, t: nat, R: int)
    requires Inv(s, R, p.expiration) && t in s.threads && 0 <= R <= p.expiration
    ensures Inv(Advance(p, s, t), R, p.expiration)
  {
    match s.threads[t]
    case Missed(_) => MissedKeeps(p, s, t, R);
    case Listing(_, _, _, _) => ListingKeeps(p, s, t, R);
    case Picked(_, _, _) => PickedKeeps(p, s, t, R);
    case _ => OtherAdvanceKeeps(p, s, t, R);
  }

  /** From `s` to `u` at most the mappings and thread `t` change. */
  predicate OnlyMoves(s: Chain, u: Chain, t: nat) {
    && u.keys == s.keys && u.now == s.now && u.issued == s.issued && u.latest == s.latest
    && u.pinned == s.pinned && u.listed == s.listed
    && forall x :: x in u.threads && x != t ==> x in s.threads && u.threads[x] == s.threads[x]
  }

  lemma PutOnlyMoves(s: Chain, pins: State<Bytes, Bytes>, t: nat, th: Thread)
    ensures OnlyMoves(s, Put(s.(pins := pins), t, th), t)
  {
  }

  /** What a thread's step leaves alone. */
  lemma AdvanceOnlyMoves(p: Params, s: Chain, t: nat) returns (pins: State<Bytes, Bytes>, th: Thread)
    requires t in s.threads && !s.threads[t].Picked?
    ensures Advance(p, s, t) == Put(s.(pins := pins), t, th) || Advance(p, s, t) == s
    ensures !s.threads[t].Missed? && !s.threads[t].Listing? ==> !th.Listing? && !th.Picked?
  {
    pins, th := s.pins, s.threads[t];
    match s.threads[t]
    case Missed(req) => th := Listing(req, s.keys.keyList, [], Seen(s.now, s.latest));
    case Listing(_, _, _, _) => th := Advance(p, s, t).threads[t];
    case Holding(_, _, _) => th := Advance(p, s, t).threads[t];
    case Expired(req) => pins, th := Deleted(s.pins, req), Failed(req);
    case Sweeping(_) => th := Advance(p, s, t).threads[t];
    case SweepHolding(_, _, _) => th := Advance(p, s, t).threads[t];
    case SweepStale(req, reqs) => pins, th := Deleted(s.pins, req), Sweeping(reqs);
    case Returned(_, _, _) =>
    case Failed(_) =>
  }

  lemma AdvanceFrame(p: Params, s: Chain, t: nat)
    requires t in s.threads
    ensures var u := Advance(p, s, t);
            && u.issued == s.issued && (!s.threads[t].Picked? ==> OnlyMoves(s, u, t))
  {
    if !s.threads[t].Picked? {
      var pins, th := AdvanceOnlyMoves(p, s, t);
      PutOnlyMoves(s, pins, t, th);
    }
  }

  lemma OtherAdvanceKeeps(p: Params, s: Chain, t: nat, R: int)
    requires Inv(s, R, p.expiration) && t in s.threads
    requires !s.threads[t].Missed? && !s.threads[t].Listing? && !s.threads[t].Picked?
    ensures Inv(Advance(p, s, t), R, p.expiration)
  {
    RP.AdvanceKeepsInv(p, s, t);
    var pins, th := AdvanceOnlyMoves(p, s, t);
    PutOnlyMoves(s, pins, t, th);
    SameKeysKeep(s, Advance(p, s, t), R, p.expiration);
  }

  /** An act that touches neither keys nor clock nor what is on record, and leaves no call in the middle of picking. */
  lemma SameKeysKeep(s: Chain, u: Chain, R: int, E: int)
    requires Inv(s, R, E) && RP.Inv(u)
    requires u.keys == s.keys && u.now == s.now && u.issued == s.issued && u.latest == s.latest
    requires u.pinned == s.pinned && u.listed == s.listed
    requires forall t :: t in u.threads ==>
               (t in s.threads && u.threads[t] == s.threads[t]) || (!u.threads[t].Listing? && !u.threads[t].Picked?)
    ensures Inv(u, R, E)
  {
    forall x | x in u.threads ensures CallOk(u, u.threads[x], R, E) {
      if x in s.threads && u.threads[x] == s.threads[x] {
        CallStays(s, u, s.threads[x], R, E);
      }
    }
    forall x | x in u.pinned ensures PinnedOk(u, x, R, E) {
      PinsStay(s, u, x, R, E);
    }
  }

  lemma KeysStayKept(p: Params, s: Chain, a: Act, R: int)
    requires KeysKept(s, R, p.expiration) && MayAct(s, a) && OnTime(p, s, a, R) && 0 <= R <= p.expiration
    requires a.Create? || a.CollectKeys? || a.Tick?
    ensures KeysKept(Do(p, s, a), R, p.expiration)
  {
    match a
    case Create(kp) => CreateKeepsKeys(p, s, kp, R);
    case CollectKeys => CollectKeepsKeys(p, s, R);
    case Tick(_) =>
  }

  lemma CreateKeepsKeys(p: Params, s: Chain, kp: Keypair, R: int)
    requires KeysKept(s, R, p.expiration) && MayAct(s, Create(kp)) && OnTime(p, s, Create(kp), R)
    requires 0 <= R <= p.expiration
    ensures KeysKept(Do(p, s, Create(kp)), R, p.expiration)
  {
    StoredWellFormed(s.keys, kp.public, kp, p.expiration, s.now, 0);
  }

  lemma CollectKeepsKeys(p: Params, s: Chain, R: int)
    requires KeysKept(s, R, p.expiration)
    ensures KeysKept(Do(p, s, CollectKeys), R, p.expiration)
  {
    CollectedWellFormed(s.keys, s.now, 0);
  }

  lemma DoKeeps(p: Params, s: Chain, a: Act, R: int)
    requires Inv(s, R, p.expiration) && MayAct(s, a) && OnTime(p, s, a, R) && 0 <= R <= p.expiration
    ensures Inv(Do(p, s, a), R, p.expiration)
  {
    RP.DoKeepsInv(p, s, a);
    var u := Do(p, s, a);
    match a
    case Proceed(t) => AdvanceKeeps(p, s, t, R);
    case Call(_, _) => SameKeysKeep(s, u, R, p.expiration);
    case StartSweep(_) => SameKeysKeep(s, u, R, p.expiration);
    case CollectPins => SameKeysKeep(s, u, R, p.expiration);
    case _ =>
      KeysStayKept(p, s, a, R);
      LaterKeeps(s, u, R, p.expiration);
  }

  lemma LaterKeeps(s: Chain, u: Chain, R: int, E: int)
    requires Inv(s, R, E) && RP.Inv(u) && KeysKept(u, R, E) && RP.Extends(s, u) && s.now <= u.now
    requires u.threads == s.threads && u.pinned == s.pinned && u.listed == s.listed
    ensures Inv(u, R, E)
  {
    forall x | x in u.threads ensures CallOk(u, u.threads[x], R, E) {
      CallStays(s, u, s.threads[x], R, E);
    }
    forall x | x in u.pinned ensures PinnedOk(u, x, R, E) {
      PinsStay(s, u, x, R, E);
    }
  }

  // --- runs ---------------------------------------------------------------------------------

  lemma {:induction false} RunKeepsInv(p: Params, start: int, acts: seq<Act>, R: int)
    requires Feasible(p, start, acts) && Timely(p, start, acts, R) && 0 <= R <= p.expiration
    ensures Inv(Reached(p, start, acts), R, p.expiration)
  {
    if acts != [] {
      var before := acts[..|acts| - 1];
      RunKeepsInv(p, start, before, R);
      DoKeeps(p, Reached(p, start, before), acts[|acts| - 1], R);
    }
  }

  predicate Good(s: Chain, kp: Keypair) {
    Lookup(s.keys, kp.public, s.now) == Some(kp) && MayDecrypt(kp, s.now)
  }

  /** In every timely run, at every moment after the first creation, the latest keypair can be retrieved and used. */
  lemma AlwaysAKeypair(p: Params, start: int, acts: seq<Act>, R: int)
    requires Feasible(p, start, acts) && Timely(p, start, acts, R) && 0 <= R <= p.expiration
    ensures var s := Reached(p, start, acts);
            s.latest.Some? ==> Good(s, s.latest.value) && s.latest.value.public in s.keys.keyList
  {
    RunKeepsInv(p, start, acts, R);
    var s := Reached(p, start, acts);
    if s.latest.Some? {
      KeptIsFound(s, s.latest.value, p.expiration);
      assert s.latest.value.public in Keys(s.keys.keyList);
    }
  }

  /** A call that read the list of keys after the first creation, and is not slower than `E - R`, finds a keypair. */
  lemma ListingFindsOne(p: Params, start: int, acts: seq<Act>, R: int, t: nat)
    requires Feasible(p, start, acts) && Timely(p, start, acts, R) && 0 <= R <= p.expiration
    requires var s := Reached(p, start, acts);
             && t in s.threads && s.threads[t].Listing? && s.threads[t].left == []
             && s.threads[t].seen.latest.Some? && s.now <= s.threads[t].seen.at + p.expiration - R
    ensures Reached(p, start, acts).threads[t].found != []
  {
    RunKeepsInv(p, start, acts, R);
    var s := Reached(p, start, acts);
    assert CallOk(s, s.threads[t], R, p.expiration);
  }

  /**
   In every timely run, with calls, rotations, sweeps and collections interleaved at will, a call that
   was granted a keypair can retrieve it and decrypt with it at every moment up to `t + E - R`, where
   `t` is when the call that made the request's mapping had read the list of keys.
   */
  lemma PinnedKeypairLasts(p: Params, start: int, acts: seq<Act>, R: int, t: nat)
    requires Feasible(p, start, acts) && Timely(p, start, acts, R) && 0 <= R <= p.expiration
    requires t in Reached(p, start, acts).threads && Reached(p, start, acts).threads[t].Returned?
    ensures var s := Reached(p, start, acts);
            var th := s.threads[t];
            (th.req, th.life) in s.listed && (s.now <= s.listed[(th.req, th.life)] + p.expiration - R ==>
                                              Good(s, th.kp))
  {
    RunKeepsInv(p, start, acts, R);
    var s := Reached(p, start, acts);
    var th := s.threads[t];
    assert RP.ThreadOk(s, th) && PinnedOk(s, (th.req, th.life), R, p.expiration);
    if s.now <= s.listed[(th.req, th.life)] + p.expiration - R {
      KeptIsFound(s, th.kp, p.expiration);
    }
  }

  // --- counting from the pin ------------------------------------------------------------------

  lemma DoKeepsIssued(p: Params, s: Chain, a: Act, kp: Keypair)
    requires MayAct(s, a) && RP.Issued(s, kp)
    ensures RP.Issued(Do(p, s, a), kp)
  {
    if a.Proceed? {
      AdvanceFrame(p, s, a.t);
    }
  }

  lemma {:induction false} IssuedStays(p: Params, start: int, acts: seq<Act>, i: nat, kp: Keypair)
    requires Feasible(p, start, acts) && i <= |acts| && Feasible(p, start, acts[..i])
    requires RP.Issued(Reached(p, start, acts[..i]), kp)
    ensures RP.Issued(Reached(p, start, acts), kp)
    decreases |acts|
  {
    if i < |acts| {
      var before := acts[..|acts| - 1];
      assert before[..i] == acts[..i];
      IssuedStays(p, start, before, i, kp);
      DoKeepsIssued(p, Reached(p, start, before), acts[|acts| - 1], kp);
    } else {
      assert acts[..i] == acts;
    }
  }

  /** Act `i` makes the mapping of the given life, to the keypair its call picked. */
  ghost predicate PinnedAt(p: Params, start: int, acts: seq<Act>, i: nat, req: Bytes, life: nat, kp: Keypair) {
    && i < |acts| && Feasible(p, start, acts[..i]) && acts[i].Proceed?
    && var s := Reached(p, start, acts[..i]);
       && acts[i].t in s.threads && s.threads[acts[i].t].Picked?
       && s.threads[acts[i].t].req == req && s.threads[acts[i].t].kp == kp
       && Lookup(s.pins, req, s.now).None? && life == Life(s, req) + 1
  }

  /** An act adds at most the mapping it makes to those on record. */
  lemma DoKeepsPinned(p: Params, s: Chain, a: Act, x: (Bytes, nat))
    requires MayAct(s, a) && RP.PinsOk(s) && x in Do(p, s, a).pinned
    ensures if x in s.pinned then Do(p, s, a).pinned[x] == s.pinned[x]
            else
              && a.Proceed? && a.t in s.threads && s.threads[a.t].Picked? && s.threads[a.t].req == x.0
              && Lookup(s.pins, x.0, s.now).None? && x.1 == Life(s, x.0) + 1
              && Do(p, s, a).pinned[x] == s.threads[a.t].kp.public
  {
    if a.Proceed? {
      AdvanceFrame(p, s, a.t);
      if s.threads[a.t].Picked? {
        PinExtends(p, s, a.t, s.threads[a.t]);
      }
    }
  }

  /** Every mapping on record was made at some act. */
  lemma {:induction false} WasPinned(p: Params, start: int, acts: seq<Act>, req: Bytes, life: nat)
    returns (i: nat, kp: Keypair)
    requires Feasible(p, start, acts) && (req, life) in Reached(p, start, acts).pinned
    ensures PinnedAt(p, start, acts, i, req, life, kp) && Reached(p, start, acts).pinned[(req, life)] == kp.public
    decreases |acts|
  {
    var before, a := acts[..|acts| - 1], acts[|acts| - 1];
    var s := Reached(p, start, before);
    RP.RunKeepsInv(p, start, before);
    DoKeepsPinned(p, s, a, (req, life));
    if (req, life) in s.pinned {
      i, kp := WasPinned(p, start, before, req, life);
      assert before[..i] == acts[..i];
    } else {
      i, kp := |before|, s.threads[a.t].kp;
    }
  }

  /** Every granted keypair is the one that was picked when the request's mapping was made. */
  lemma GrantedWasPinned(p: Params, start: int, acts: seq<Act>, t: nat) returns (i: nat)
    requires Feasible(p, start, acts)
    requires t in Reached(p, start, acts).threads && Reached(p, start, acts).threads[t].Returned?
    ensures var th := Reached(p, start, acts).threads[t]; PinnedAt(p, start, acts, i, th.req, th.life, th.kp)
  {
    var u := Reached(p, start, acts);
    var th, kp := u.threads[t], u.threads[t].kp;
    RP.RunKeepsInv(p, start, acts);
    assert RP.ThreadOk(u, th);
    i, kp := WasPinned(p, start, acts, th.req, th.life);
    var s := Reached(p, start, acts[..i]);
    RP.RunKeepsInv(p, start, acts[..i]);
    assert RP.ThreadOk(s, s.threads[acts[i].t]);
    IssuedStays(p, start, acts, i, kp);
  }

  /** A keypair once issued can be retrieved and used exactly while it is at most `E` old. */
  lemma IssuedGoodIff(s: Chain, kp: Keypair, R: int, E: int)
    requires Inv(s, R, E) && RP.Issued(s, kp)
    ensures Good(s, kp) <==> s.now <= kp.created + E
  {
    if s.now <= kp.created + E {
      KeptIsFound(s, kp, E);
    }
  }

  /**
   Counted from the pin instead of the listing: the keypair granted to a call is the one picked at the
   act `i` that made the request's mapping. It is good exactly while it is at most `E` old, so it is
   good at every moment up to `E - R` after the pin if it was at most `R` old then, and is not good at
   the last of these moments if it was older.
   */
  lemma LastsFromPinIff(p: Params, start: int, acts: seq<Act>, R: int, t: nat) returns (i: nat)
    requires Feasible(p, start, acts) && Timely(p, start, acts, R) && 0 <= R <= p.expiration
    requires t in Reached(p, start, acts).threads && Reached(p, start, acts).threads[t].Returned?
    ensures var th := Reached(p, start, acts).threads[t]; PinnedAt(p, start, acts, i, th.req, th.life, th.kp)
    ensures var s, u := Reached(p, start, acts[..i]), Reached(p, start, acts);
            var kp := u.threads[t].kp;
            && (Good(u, kp) <==> u.now <= kp.created + p.expiration)
            && (s.now <= kp.created + R && u.now <= s.now + p.expiration - R ==> Good(u, kp))
            && (u.now == s.now + p.expiration - R ==> (Good(u, kp) <==> s.now <= kp.created + R))
  {
    i := GrantedWasPinned(p, start, acts, t);
    RunKeepsInv(p, start, acts, R);
    var u := Reached(p, start, acts);
    assert RP.ThreadOk(u, u.threads[t]);
    IssuedGoodIff(u, u.threads[t].kp, R, p.expiration);
  }

  /** The picked keypair is at most `R` old at the pin whenever none was created between the listing and the pin. */
  lemma QuietPinIsYoung(p: Params, start: int, acts: seq<Act>, R: int, t: nat)
    requires Feasible(p, start, acts) && Timely(p, start, acts, R) && 0 <= R <= p.expiration
    requires var s := Reached(p, start, acts);
             t in s.threads && s.threads[t].Picked? && s.threads[t].seen.latest == s.latest
    ensures var s := Reached(p, start, acts); s.now <= s.threads[t].kp.created + R
  {
    RunKeepsInv(p, start, acts, R);
    var s := Reached(p, start, acts);
    assert CallOk(s, s.threads[t], R, p.expiration);
  }

  // --- a late pin -------------------------------------------------------------------------------

  /** A run that ends in `s`. */
  predicate Ends(p: Params, start: int, acts: seq<Act>, R: int, s: Chain) {
    Feasible(p, start, acts) && Timely(p, start, acts, R) && Reached(p, start, acts) == s
  }

  lemma GoOn(p: Params, start: int, acts: seq<Act>, R: int, s: Chain, a: Act)
    requires Ends(p, start, acts, R, s) && MayAct(s, a) && OnTime(p, s, a, R)
    ensures Ends(p, start, acts + [a], R, Do(p, s, a))
  {
    assert (acts + [a])[..|acts|] == acts;
  }

  lemma GoOnTwice(p: Params, start: int, acts: seq<Act>, R: int, s: Chain, a: Act, b: Act)
    requires Ends(p, start, acts, R, s) && MayAct(s, a) && OnTime(p, s, a, R)
    requires MayAct(Do(p, s, a), b) && OnTime(p, Do(p, s, a), b, R)
    ensures Ends(p, start, acts + [a, b], R, Do(p, Do(p, s, a), b))
  {
    GoOn(p, start, acts, R, s, a);
    GoOn(p, start, acts + [a], R, Do(p, s, a), b);
    assert acts + [a] + [b] == acts + [a, b];
  }

  /** A call lists the only keypair there is and picks it. */
  lemma ListOne(p: Params, s: Chain, req: Bytes, kp: Keypair) returns (u: Chain)
    requires s.threads == map[] && s.pins == Empty() && s.latest == Some(kp)
    requires s.keys.keyList == [kp.public] && Lookup(s.keys, kp.public, s.now) == Some(kp)
    ensures u == s.(threads := map[0 := Listing(req, [kp.public], [], Seen(s.now, Some(kp)))])
    ensures u == Do(p, Do(p, s, Call(0, req)), Proceed(0))
  {
    var s1 := Do(p, s, Call(0, req));
    assert s1 == s.(threads := map[0 := Missed(req)]);
    u := Do(p, s1, Proceed(0));
  }

  lemma PickOne(p: Params, s: Chain, req: Bytes, kp: Keypair, seen: Seen) returns (u: Chain)
    requires s.threads == map[0 := Listing(req, [kp.public], [], seen)] && Lookup(s.keys, kp.public, s.now) == Some(kp)
    ensures u == s.(threads := map[0 := Picked(req, kp, seen)])
    ensures u == Do(p, Do(p, s, Proceed(0)), Proceed(0))
  {
    var s1 := Do(p, s, Proceed(0));
    assert [kp.public][1..] == [] && [] + [kp] == [kp];
    assert s1 == s.(threads := map[0 := Listing(req, [], [kp], seen)]);
    u := Do(p, s1, Proceed(0));
  }

  const FIRST := Keypair([1], [], 0, 20)
  const SECOND := Keypair([2], [], 10, 20)
  const THIRD := Keypair([3], [], 20, 20)
  const LATE := Params(20, 100, 0)

  /** A listing at time 10, and a rotation before the pin. */
  function ListingAtTen(req: Bytes): seq<Act> {
    [Create(FIRST), Tick(10)] + [Call(0, req), Proceed(0)] + [Proceed(0), Proceed(0)] + [Create(SECOND), Tick(11)]
  }

  lemma ListedAtTen(req: Bytes) returns (s: Chain)
    ensures Ends(LATE, 0, ListingAtTen(req), 10, s)
    ensures s.threads == map[0 := Picked(req, FIRST, Seen(10, Some(FIRST)))] && s.now == 11 && s.pins == Empty()
    ensures s.latest == Some(SECOND) && s.lives == map[] && s.issued == map[[1] := FIRST, [2] := SECOND]
    ensures FIRST.public in s.keys.items && s.keys.items[FIRST.public] == Item(FIRST, 0, 20)
  {
    var s0 := Start(0);
    var a := [Create(FIRST), Tick(10)];
    GoOnTwice(LATE, 0, [], 10, s0, Create(FIRST), Tick(10));
    assert [] + a == a;
    var s2 := Do(LATE, Do(LATE, s0, Create(FIRST)), Tick(10));
    assert s2.keys == State(map[[1] := Item(FIRST, 0, 20)], [[1]]);
    var s4 := ListOne(LATE, s2, req, FIRST);
    GoOnTwice(LATE, 0, a, 10, s2, Call(0, req), Proceed(0));
    var s6 := PickOne(LATE, s4, req, FIRST, Seen(10, Some(FIRST)));
    GoOnTwice(LATE, 0, a + [Call(0, req), Proceed(0)], 10, s4, Proceed(0), Proceed(0));
    GoOnTwice(LATE, 0, a + [Call(0, req), Proceed(0)] + [Proceed(0), Proceed(0)], 10, s6, Create(SECOND), Tick(11));
    s := Do(LATE, Do(LATE, s6, Create(SECOND)), Tick(11));
  }

  lemma PinnedAtEleven(req: Bytes, s: Chain) returns (u: Chain)
    requires Ends(LATE, 0, ListingAtTen(req), 10, s) && s.now == 11 && s.pins == Empty() && s.latest == Some(SECOND)
    requires s.threads == map[0 := Picked(req, FIRST, Seen(10, Some(FIRST)))] && s.lives == map[]
    requires FIRST.public in s.keys.items && s.keys.items[FIRST.public] == Item(FIRST, 0, 20)
    ensures Ends(LATE, 0, ListingAtTen(req) + [Proceed(0), Tick(20)], 10, u)
    ensures u.threads == map[0 := Returned(req, FIRST, 1)] && u.now == 20 && u.latest == s.latest
    ensures u.keys == s.keys && u.issued == s.issued
  {
    GoOnTwice(LATE, 0, ListingAtTen(req), 10, s, Proceed(0), Tick(20));
    u := Do(LATE, Do(LATE, s, Proceed(0)), Tick(20));
  }

  lemma GoneAtTwentyOne(req: Bytes, run: seq<Act>, s: Chain) returns (u: Chain)
    requires Ends(LATE, 0, run, 10, s) && s.now == 20 && s.latest == Some(SECOND)
    requires s.threads == map[0 := Returned(req, FIRST, 1)] && s.issued == map[[1] := FIRST, [2] := SECOND]
    requires FIRST.public in s.keys.items && s.keys.items[FIRST.public] == Item(FIRST, 0, 20)
    ensures Ends(LATE, 0, run + [Create(THIRD), Tick(21)], 10, u) && u.threads == s.threads
    ensures u.now == 21 && Lookup(u.keys, FIRST.public, u.now).None? && !MayDecrypt(FIRST, u.now)
  {
    GoOnTwice(LATE, 0, run, 10, s, Create(THIRD), Tick(21));
    u := Do(LATE, Do(LATE, s, Create(THIRD)), Tick(21));
  }

  /**
   With a keypair created between the listing and the pin, the bound counted from the pin can fail: a
   rotation every 10, an expiration of 20, a listing at 10, a pin at 11 to the keypair of time 0, which
   is gone at 21.
   */
  lemma LatePin(req: Bytes) returns (acts: seq<Act>, s: Chain, u: Chain)
    ensures ListingAtTen(req) + [Proceed(0)] <= acts
    ensures Ends(LATE, 0, ListingAtTen(req), 10, s) && Ends(LATE, 0, acts, 10, u)
    ensures s.threads == map[0 := Picked(req, FIRST, Seen(10, Some(FIRST)))]
    ensures u.threads == map[0 := Returned(req, FIRST, 1)]
    ensures u.now == s.now + LATE.expiration - 10 && Lookup(u.keys, FIRST.public, u.now).None?
    ensures !MayDecrypt(FIRST, u.now)
  {
    var run := ListingAtTen(req);
    s := ListedAtTen(req);
    var s2 := PinnedAtEleven(req, s);
    u := GoneAtTwentyOne(req, run + [Proceed(0), Tick(20)], s2);
    acts := run + [Proceed(0), Tick(20)] + [Create(THIRD), Tick(21)];
  }
}

/** The keychain's objects: its loops and an undisturbed pass through each operation. */
module BoxKeychain {
  import opened Bytes
  import opened CacheModel
  import opened TtlCache
  import opened KeychainModel

  datatype Answer = Granted(kp: Keypair) | MappedKeyExpired | NoKeypairs

  /** What a request gets: the mapped keypair if there is a mapping, else the newest one. */
  function AnswerTo(keys: State<Bytes, Keypair>, pins: State<Bytes, Bytes>, req: Bytes, now: int): Answer {
    var key := Lookup(pins, req, now);
    if key.Some? then
      var kp := Lookup(keys, key.value, now);
      if kp.Some? then Granted(kp.value) else MappedKeyExpired
    else
      var pairs := LivePairs(keys.keyList, keys, now);
      if pairs == [] then NoKeypairs else Granted(Newest(pairs))
  }

  /** A mapping is stale when it is live but its keypair is gone. */
  predicate Stale(keys: State<Bytes, Keypair>, pins: State<Bytes, Bytes>, req: Bytes, now: int) {
    var key := Lookup(pins, req, now);
    key.Some? && Lookup(keys, key.value, now).None?
  }

  /** Of the mappings of `done`, exactly the stale ones are gone; the others are as they were. */
  ghost predicate Swept(keys: State<Bytes, Keypair>, pins: State<Bytes, Bytes>, left: State<Bytes, Bytes>,
                        done: seq<Bytes>, now: int)
  {
    && (forall r :: r in left.items <==> r in pins.items && !(r in done && Stale(keys, pins, r, now)))
    && (forall r :: r in left.items ==> left.items[r] == pins.items[r])
  }

  lemma SweptStep(keys: State<Bytes, Keypair>, pins: State<Bytes, Bytes>, left: State<Bytes, Bytes>,
                  reqs: seq<Bytes>, i: nat, now: int)
    requires i < |reqs| && NoDup(reqs) && reqs[i] in pins.items && Swept(keys, pins, left, reqs[..i], now)
    ensures var next := if Stale(keys, left, reqs[i], now) then Deleted(left, reqs[i]) else left;
            Swept(keys, pins, next, reqs[..i + 1], now)
  {
    var r := reqs[i];
    assert reqs[..i + 1] == reqs[..i] + [r];
    assert r !in reqs[..i];
    assert Stale(keys, left, r, now) == Stale(keys, pins, r, now);
  }

  class BoxKeychain {
    const keypairCache: Cache<Bytes, Keypair>
    const requestKeyMap: Cache<Bytes, Bytes>

    ghost predicate Valid()
      reads this, keypairCache, requestKeyMap
    {
      && keypairCache.Valid() && keypairCache.maxEntries == 0
      && requestKeyMap.Valid()
      && keypairCache as object != requestKeyMap as object
    }

    constructor (expiration: int, requestKeyMapTtl: int, maxRequestKeyMapEntries: int)
      ensures Valid() && keypairCache.Value() == Empty() && requestKeyMap.Value() == Empty()
    {
      keypairCache := new Cache(expiration, 0);
      requestKeyMap := new Cache(requestKeyMapTtl, maxRequestKeyMapEntries);
    }

    /** `CreateKeyPair`, given the generated keypair. */
    method CreateKeyPair(kp: Keypair, now: int)
      requires Valid()
      modifies keypairCache
      ensures Valid()
      ensures keypairCache.Value() == Stored(old(keypairCache.Value()), kp.public, kp, keypairCache.timeToLive, now, 0)
    {
      keypairCache.Set(kp.public, kp, None, now);
    }

    /** `GetKeyPairs`. */
    method GetKeyPairs(now: int) returns (keypairs: seq<Keypair>)
      ensures keypairs == LivePairs(keypairCache.keyList, keypairCache.Value(), now)
    {
      var keys := keypairCache.keyList;
      keypairs := [];
      var i := 0;
      while i < |keys|
        invariant 0 <= i <= |keys|
        invariant keypairs == LivePairs(keys[..i], keypairCache.Value(), now)
      {
        var keypair := keypairCache.Get(keys[i], now);
        assert keys[..i + 1][..i] == keys[..i];
        if keypair.Some? {
          keypairs := keypairs + [keypair.value];
        }
        i := i + 1;
      }
      assert keys[..i] == keys;
    }

    static method FindNewest(keypairs: seq<Keypair>) returns (newest: Keypair)
      requires keypairs != []
      ensures newest == Newest(keypairs)
    {
      newest := keypairs[0];
      assert keypairs[..1] == [keypairs[0]];
      var i := 1;
      while i < |keypairs|
        invariant 1 <= i <= |keypairs|
        invariant newest == Newest(keypairs[..i])
      {
        assert keypairs[..i + 1][..i] == keypairs[..i];
        if keypairs[i].created > newest.created {
          newest := keypairs[i];
        }
        i := i + 1;
      }
      assert keypairs[..i] == keypairs;
    }

    /** `GetKeyPairForRequest` when nothing else runs: what it answers, and what becomes of the mapping. */
    method GetKeyPairForRequest(req: Bytes, now: int) returns (r: Answer)
      requires Valid()
      modifies requestKeyMap
      ensures Valid()
      ensures r == AnswerTo(keypairCache.Value(), old(requestKeyMap.Value()), req, now)
      ensures var pins := old(requestKeyMap.Value());
              requestKeyMap.Value() ==
              if r.MappedKeyExpired? then Deleted(pins, req)
              else if r.Granted? && Lookup(pins, req, now).None?
              then Stored(pins, req, r.kp.public, requestKeyMap.timeToLive, now, requestKeyMap.maxEntries)
              else pins
    {
      var keyID := requestKeyMap.Get(req, now);
      if keyID.Some? {
        var kp := keypairCache.Get(keyID.value, now);
        if kp.Some? {
          return Granted(kp.value);
        }
        requestKeyMap.Delete(req);
        return MappedKeyExpired;
      }
      var keypairs := GetKeyPairs(now);
      if |keypairs| == 0 {
        return NoKeypairs;
      }
      var newest := FindNewest(keypairs);
      var key, loaded := requestKeyMap.GetOrSet(req, newest.public, None, now);
      assert !loaded;
      return Granted(newest);
    }

    /** One turn of `sweepRequestKeyMap`: a stale mapping goes. */
    method SweepOne(r: Bytes, now: int)
      requires Valid()
      modifies requestKeyMap
      ensures Valid()
      ensures requestKeyMap.Value() == if Stale(keypairCache.Value(), old(requestKeyMap.Value()), r, now)
                                       then Deleted(old(requestKeyMap.Value()), r) else old(requestKeyMap.Value())
    {
      var key := requestKeyMap.Get(r, now);
      if key.Some? {
        var kp := keypairCache.Get(key.value, now);
        if kp.None? {
          requestKeyMap.Delete(r);
        }
      }
    }

    /** `sweepRequestKeyMap` when nothing else runs: exactly the stale mappings go. */
    method SweepRequestKeyMap(now: int)
      requires Valid()
      modifies requestKeyMap
      ensures Valid()
      ensures var pins := old(requestKeyMap.Value());
              && (forall r :: r in requestKeyMap.items <==>
                  r in pins.items && !Stale(keypairCache.Value(), pins, r, now))
              && (forall r :: r in requestKeyMap.items ==> requestKeyMap.items[r] == pins.items[r])
    {
      var reqs := requestKeyMap.keyList;
      ghost var pins := requestKeyMap.Value();
      var i := 0;
      while i < |reqs|
        invariant 0 <= i <= |reqs|
        invariant Valid() && unchanged(keypairCache)
        invariant Swept(keypairCache.Value(), pins, requestKeyMap.Value(), reqs[..i], now)
      {
        SweptStep(keypairCache.Value(), pins, requestKeyMap.Value(), reqs, i, now);
        SweepOne(reqs[i], now);
        i := i + 1;
      }
      assert reqs[..i] == reqs;
      assert forall r :: r in pins.items ==> r in Keys(reqs);
    }
  }
}
