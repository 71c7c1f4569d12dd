/** The single steps of a call, and of a sweep, put together: with nothing in between they are the whole operation. */
module KeychainPasses {
  import opened Bytes
  import opened CacheModel
  import opened KeychainModel
  import BK = BoxKeychain

  /** The state that thread `t` leads to when it alone goes on, as long as `going` holds of it. */
  predicate Leads<S(==)>(next: S -> Option<S>, s: S, u: S, n: nat) {
    if n == 0 then s == u else next(s).Some? && Leads(next, next(s).value, u, n - 1)
  }

  lemma {:induction false} LeadsOn<S>(next: S -> Option<S>, s: S, t: S, n: nat, u: S, m: nat)
    requires Leads(next, s, t, n) && Leads(next, t, u, m)
    ensures Leads(next, s, u, n + m)
  {
    if n > 0 {
      LeadsOn(next, next(s).value, t, n - 1, u, m);
    }
  }

  lemma LeadsStep<S>(next: S -> Option<S>, s: S, t: S, u: S, m: nat)
    requires next(s) == Some(t) && Leads(next, t, u, m)
    ensures Leads(next, s, u, m + 1)
  {
  }

  predicate InCall(th: Thread) {
    th.Missed? || th.Listing? || th.Picked? || th.Holding? || th.Expired?
  }

  predicate InSweep(th: Thread) {
    (th.Sweeping? && th.reqs != []) || th.SweepHolding? || th.SweepStale?
  }

  /** One step of thread `t`, until its call or sweep is over. */
  function Proceeding(p: Params, t: nat): Chain -> Option<Chain> {
    (s: Chain) => if t in s.threads && (InCall(s.threads[t]) || InSweep(s.threads[t])) then Some(Advance(p, s, t))
      else None
  }

  /** Undisturbed, thread `t` goes from `s` to `u` in `n` steps. */
  predicate Undisturbed(p: Params, t: nat, s: Chain, u: Chain, n: nat) {
    Leads(Proceeding(p, t), s, u, n)
  }

  /** The thread ended with `th`, the mappings are `pins`, and keys and clock are as they were. */
  predicate EndsWith(s: Chain, u: Chain, t: nat, th: Thread, pins: State<Bytes, Bytes>) {
    && t in u.threads && u.threads[t] == th && !InCall(th) && !InSweep(th)
    && u.pins == pins && u.keys == s.keys && u.now == s.now
  }

  lemma Goes(p: Params, t: nat, s: Chain, v: Chain, u: Chain, n: nat)
    requires t in s.threads && (InCall(s.threads[t]) || InSweep(s.threads[t])) && v == Advance(p, s, t)
    requires Undisturbed(p, t, v, u, n)
    ensures Undisturbed(p, t, s, u, n + 1)
  {
    assert Proceeding(p, t)(s) == Some(v);
    LeadsStep(Proceeding(p, t), s, v, u, n);
  }

  lemma Rests(p: Params, t: nat, s: Chain)
    ensures Undisturbed(p, t, s, s, 0)
  {
  }

  // --- a call ---------------------------------------------------------------------------------

  lemma {:induction false} LiveFront(list: seq<Bytes>, keys: State<Bytes, Keypair>, now: int)
    requires list != []
    ensures LivePairs(list, keys, now) ==
            (if Lookup(keys, list[0], now).Some? then [Lookup(keys, list[0], now).value] else [])
            + LivePairs(list[1..], keys, now)
  {
    var n := |list| - 1;
    if n > 0 {
      LiveFront(list[..n], keys, now);
      assert list[..n][1..] == list[1..][..n - 1];
    }
  }

  /** What a listing that has found `all` in the end comes to. */
  predicate Grants(p: Params, s: Chain, u: Chain, t: nat, req: Bytes, all: seq<Keypair>) {
    if all == [] then EndsWith(s, u, t, Failed(req), s.pins)
    else EndsWith(s, u, t, Returned(req, Newest(all), Life(s, req) + 1),
                  Stored(s.pins, req, Newest(all).public, p.pinTtl, s.now, p.pinMax))
  }

  lemma PickedFinishes(p: Params, s: Chain, t: nat) returns (u: Chain)
    requires t in s.threads && s.threads[t].Picked? && Lookup(s.pins, s.threads[t].req, s.now).None?
    ensures Undisturbed(p, t, s, u, 1)
    ensures var th := s.threads[t];
            EndsWith(s, u, t, Returned(th.req, th.kp, Life(s, th.req) + 1),
                     Stored(s.pins, th.req, th.kp.public, p.pinTtl, s.now, p.pinMax))
  {
    u := Advance(p, s, t);
    Rests(p, t, u);
    Goes(p, t, s, u, u, 0);
  }

  lemma ListedFinishes(p: Params, s: Chain, t: nat) returns (u: Chain, n: nat)
    requires t in s.threads && s.threads[t].Listing? && s.threads[t].left == []
    requires Lookup(s.pins, s.threads[t].req, s.now).None?
    ensures Undisturbed(p, t, s, u, n) && Grants(p, s, u, t, s.threads[t].req, s.threads[t].found)
  {
    var th, v := s.threads[t], Advance(p, s, t);
    if th.found == [] {
      u, n := v, 1;
      Rests(p, t, v);
      Goes(p, t, s, v, v, 0);
    } else {
      u := PickedFinishes(p, v, t);
      n := 2;
      Goes(p, t, s, v, u, 1);
    }
  }

  /** One lookup of a listing. */
  lemma LooksUp(p: Params, s: Chain, t: nat) returns (v: Chain, one: seq<Keypair>)
    requires t in s.threads && s.threads[t].Listing? && s.threads[t].left != []
    ensures Undisturbed(p, t, s, v, 1) && Alike(s, v) && t in v.threads
    ensures var th := s.threads[t];
            && v.threads[t] == Listing(th.req, th.left[1..], th.found + one, th.seen)
            && LivePairs(th.left, s.keys, s.now) == one + LivePairs(th.left[1..], s.keys, s.now)
  {
    var th := s.threads[t];
    var kp := Lookup(s.keys, th.left[0], s.now);
    v, one := Advance(p, s, t), if kp.Some? then [kp.value] else [];
    LiveFront(th.left, s.keys, s.now);
    Rests(p, t, v);
    Goes(p, t, s, v, v, 0);
  }

  /** The lookups of a listing collect the live keypairs of the list. */
  lemma {:induction false} ListingFinishes(p: Params, s: Chain, t: nat) returns (u: Chain, n: nat)
    requires t in s.threads && s.threads[t].Listing? && Lookup(s.pins, s.threads[t].req, s.now).None?
    ensures Undisturbed(p, t, s, u, n)
    ensures var th := s.threads[t]; Grants(p, s, u, t, th.req, th.found + LivePairs(th.left, s.keys, s.now))
    decreases if t in s.threads && s.threads[t].Listing? then |s.threads[t].left| else 0
  {
    var th := s.threads[t];
    if th.left == [] {
      assert th.found + LivePairs(th.left, s.keys, s.now) == th.found;
      u, n := ListedFinishes(p, s, t);
    } else {
      var v, one := LooksUp(p, s, t);
      var rest := LivePairs(th.left[1..], s.keys, s.now);
      Regroups(th.found, one, rest);
      u, n := ListingFinishes(p, v, t);
      GrantsAfter(p, s, v, u, t, th.req, th.found + one + rest, n);
      n := 1 + n;
    }
  }

  lemma Regroups(a: seq<Keypair>, b: seq<Keypair>, c: seq<Keypair>)
    ensures a + (b + c) == a + b + c
  {
  }

  lemma HoldingFinishes(p: Params, s: Chain, t: nat) returns (u: Chain, n: nat)
    requires t in s.threads && s.threads[t].Holding?
    ensures Undisturbed(p, t, s, u, n)
    ensures var th := s.threads[t];
            var kp := Lookup(s.keys, th.key, s.now);
            if kp.Some? then EndsWith(s, u, t, Returned(th.req, kp.value, th.life), s.pins)
            else EndsWith(s, u, t, Failed(th.req), Deleted(s.pins, th.req))
  {
    var v := Advance(p, s, t);
    if v.threads[t].Expired? {
      u, n := Advance(p, v, t), 2;
      Rests(p, t, u);
      Goes(p, t, v, u, u, 0);
      Goes(p, t, s, v, u, 1);
    } else {
      u, n := v, 1;
      Rests(p, t, u);
      Goes(p, t, s, u, u, 0);
    }
  }

  /** What a whole undisturbed call comes to. */
  predicate Answers(p: Params, s: Chain, u: Chain, t: nat, req: Bytes, a: BK.Answer) {
    match a
    case Granted(kp) =>
      if Lookup(s.pins, req, s.now).Some? then EndsWith(s, u, t, Returned(req, kp, Life(s, req)), s.pins)
      else EndsWith(s, u, t, Returned(req, kp, Life(s, req) + 1),
                    Stored(s.pins, req, kp.public, p.pinTtl, s.now, p.pinMax))
    case MappedKeyExpired => EndsWith(s, u, t, Failed(req), Deleted(s.pins, req))
    case NoKeypairs => EndsWith(s, u, t, Failed(req), s.pins)
  }

  /**
   A call that nothing interrupts answers as the whole operation does, in every state: a live mapping is
   followed, or removed if its keypair is gone; otherwise the newest live keypair is mapped and granted,
   if there is one.
   */
  lemma CallFinishes(p: Params, s: Chain, t: nat, req: Bytes) returns (u: Chain, n: nat)
    requires t !in s.threads
    ensures Undisturbed(p, t, Do(p, s, Call(t, req)), u, n)
    ensures Answers(p, s, u, t, req, BK.AnswerTo(s.keys, s.pins, req, s.now))
  {
    var s1 := Do(p, s, Call(t, req));
    if Lookup(s.pins, req, s.now).Some? {
      u, n := HoldingFinishes(p, s1, t);
    } else {
      u, n := MissedFinishes(p, s1, t);
    }
  }

  lemma MissedFinishes(p: Params, s: Chain, t: nat) returns (u: Chain, n: nat)
    requires t in s.threads && s.threads[t].Missed? && Lookup(s.pins, s.threads[t].req, s.now).None?
    ensures Undisturbed(p, t, s, u, n)
    ensures Grants(p, s, u, t, s.threads[t].req, LivePairs(s.keys.keyList, s.keys, s.now))
  {
    var req, all := s.threads[t].req, LivePairs(s.keys.keyList, s.keys, s.now);
    var v := ListsKeys(p, s, t);
    u, n := ListingToTheEnd(p, v, t, req, all);
    GrantsAfter(p, s, v, u, t, req, all, n);
    n := 1 + n;
  }

  lemma ListingToTheEnd(p: Params, s: Chain, t: nat, req: Bytes, all: seq<Keypair>) returns (u: Chain, n: nat)
    requires t in s.threads && s.threads[t].Listing? && s.threads[t].req == req && s.threads[t].found == []
    requires Lookup(s.pins, req, s.now).None? && all == LivePairs(s.threads[t].left, s.keys, s.now)
    ensures Undisturbed(p, t, s, u, n) && Grants(p, s, u, t, req, all)
  {
    u, n := ListingFinishes(p, s, t);
    assert [] + all == all;
  }

  /** Reading the list of keys. */
  lemma ListsKeys(p: Params, s: Chain, t: nat) returns (v: Chain)
    requires t in s.threads && s.threads[t].Missed?
    ensures Undisturbed(p, t, s, v, 1) && Alike(s, v) && t in v.threads
    ensures v.threads[t] == Listing(s.threads[t].req, s.keys.keyList, [], Seen(s.now, s.latest))
  {
    v := Advance(p, s, t);
    Rests(p, t, v);
    Goes(p, t, s, v, v, 0);
  }

  /** Only a thread has moved. */
  predicate Alike(s: Chain, v: Chain) {
    v.pins == s.pins && v.keys == s.keys && v.now == s.now && v.lives == s.lives
  }

  lemma GrantsAfter(p: Params, s: Chain, v: Chain, u: Chain, t: nat, req: Bytes, all: seq<Keypair>, n: nat)
    requires Undisturbed(p, t, s, v, 1) && Alike(s, v)
    requires Undisturbed(p, t, v, u, n) && Grants(p, v, u, t, req, all)
    ensures Undisturbed(p, t, s, u, 1 + n) && Grants(p, s, u, t, req, all)
  {
    Then(p, t, s, v, 1, u, n);
  }

  lemma Then(p: Params, t: nat, s: Chain, v: Chain, n: nat, u: Chain, m: nat)
    requires Undisturbed(p, t, s, v, n) && Undisturbed(p, t, v, u, m)
    ensures Undisturbed(p, t, s, u, n + m)
  {
    LeadsOn(Proceeding(p, t), s, v, n, u, m);
  }

  // --- a sweep --------------------------------------------------------------------------------

  /** One mapping: it goes exactly if it is stale. */
  lemma SweepsOne(p: Params, s: Chain, t: nat) returns (v: Chain, n: nat)
    requires t in s.threads && s.threads[t].Sweeping? && s.threads[t].reqs != []
    ensures Undisturbed(p, t, s, v, n)
    ensures var reqs := s.threads[t].reqs;
            && t in v.threads && v.threads[t] == Sweeping(reqs[1..]) && v.keys == s.keys && v.now == s.now
            && v.pins == if BK.Stale(s.keys, s.pins, reqs[0], s.now) then Deleted(s.pins, reqs[0]) else s.pins
  {
    var a := Advance(p, s, t);
    if a.threads[t].SweepHolding? {
      v, n := SweepsHeld(p, a, t);
    } else {
      v, n := a, 0;
      Rests(p, t, v);
    }
    Goes(p, t, s, a, v, n);
    n := n + 1;
  }

  lemma SweepsHeld(p: Params, s: Chain, t: nat) returns (v: Chain, n: nat)
    requires t in s.threads && s.threads[t].SweepHolding?
    ensures Undisturbed(p, t, s, v, n)
    ensures var th := s.threads[t];
            && t in v.threads && v.threads[t] == Sweeping(th.reqs) && v.keys == s.keys && v.now == s.now
            && v.pins == if Lookup(s.keys, th.key, s.now).None? then Deleted(s.pins, th.req) else s.pins
  {
    var b := Advance(p, s, t);
    if b.threads[t].SweepStale? {
      v, n := Advance(p, b, t), 1;
      Rests(p, t, v);
      Goes(p, t, b, v, v, 0);
    } else {
      v, n := b, 0;
      Rests(p, t, v);
    }
    Goes(p, t, s, b, v, n);
    n := n + 1;
  }

  lemma {:induction false} SweepsOn(p: Params, s: Chain, t: nat, pins: State<Bytes, Bytes>, reqs: seq<Bytes>, i: nat)
    returns (u: Chain, n: nat)
    requires t in s.threads && i <= |reqs| && s.threads[t] == Sweeping(reqs[i..]) && NoDup(reqs)
    requires (forall r :: r in reqs ==> r in pins.items) && BK.Swept(s.keys, pins, s.pins, reqs[..i], s.now)
    ensures Undisturbed(p, t, s, u, n)
    ensures EndsWith(s, u, t, Sweeping([]), u.pins) && BK.Swept(s.keys, pins, u.pins, reqs, s.now)
    decreases |reqs| - i
  {
    if i == |reqs| {
      assert reqs[..i] == reqs;
      u, n := s, 0;
      Rests(p, t, s);
    } else {
      BK.SweptStep(s.keys, pins, s.pins, reqs, i, s.now);
      var v, k := SweepsOne(p, s, t);
      assert reqs[i..][0] == reqs[i] && reqs[i..][1..] == reqs[i + 1..];
      var m;
      u, m := SweepsOn(p, v, t, pins, reqs, i + 1);
      assert Undisturbed(p, t, s, u, k + m) by { Then(p, t, s, v, k, u, m); }
      n := k + m;
    }
  }

  /** A sweep that nothing interrupts removes exactly the mappings whose keypair is gone. */
  lemma SweepFinishes(p: Params, s: Chain, t: nat) returns (u: Chain, n: nat)
    requires t !in s.threads && WellFormed(s.pins, p.pinMax)
    ensures Undisturbed(p, t, Do(p, s, StartSweep(t)), u, n) && EndsWith(s, u, t, Sweeping([]), u.pins)
    ensures forall r :: r in u.pins.items <==> r in s.pins.items && !BK.Stale(s.keys, s.pins, r, s.now)
    ensures forall r :: r in u.pins.items ==> u.pins.items[r] == s.pins.items[r]
  {
    var reqs := s.pins.keyList;
    assert reqs[0..] == reqs && reqs[..0] == [];
    assert forall r :: r in reqs ==> r in Keys(reqs);
    u, n := SweepsOn(p, Do(p, s, StartSweep(t)), t, s.pins, reqs, 0);
    assert forall r :: r in s.pins.items ==> r in Keys(reqs);
  }
}
