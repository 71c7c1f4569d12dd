/** When the record of an execution is missing although its lifetime is not over, and what that allows. */
module Replay {
  import opened Bytes
  import opened Crypto
  import opened Encoding
  import opened Preimages
  import opened Protocol
  import opened CacheModel
  import CR = CacheRuns
  import opened HostModel
  import opened System
  import opened Composition

  predicate Leads<B, C>(p: Params, s: System<B, C>, a: Act<B, C>, u: System<B, C>, f: uint32) {
    |s.handlers| == |s.host.dispatches| && MayAct(s, a, f) && u == Do(p, s, a, f)
  }

  /** A run with all its states: `states[k]` is the state before act `k`. */
  ghost predicate IsRun<B, C>(p: Params, states: seq<System<B, C>>, acts: seq<Act<B, C>>, f: uint32) {
    |states| == |acts| + 1 && forall k :: 0 <= k < |acts| ==> Leads(p, states[k], acts[k], states[k + 1], f)
  }

  /** Every feasible sequence of acts is such a run. */
  lemma {:induction false} FeasibleIsRun<B, C>(p: Params, start: System<B, C>, acts: seq<Act<B, C>>, f: uint32)
    returns (states: seq<System<B, C>>)
    requires Feasible(p, start, acts, f)
    ensures IsRun(p, states, acts, f) && states[0] == start && states[|acts|] == Reached(p, start, acts, f)
    decreases |acts|
  {
    if acts == [] {
      states := [start];
    } else {
      var n := |acts| - 1;
      var before := FeasibleIsRun(p, start, acts[..n], f);
      states := before + [Reached(p, start, acts, f)];
      forall k | 0 <= k < |acts|
        ensures Leads(p, states[k], acts[k], states[k + 1], f)
      {
        if k < n {
          assert Leads(p, before[k], acts[..n][k], before[k + 1], f);
        }
      }
    }
  }

  lemma {:induction false} ExecutedWellFormed<B, C>(p: Params, states: seq<System<B, C>>, acts: seq<Act<B, C>>,
                                                    f: uint32, k: nat)
    requires IsRun(p, states, acts, f) && states[0].executed == Empty() && k <= |acts|
    ensures WellFormed(states[k].executed, p.replayMax)
  {
    if k > 0 {
      ExecutedWellFormed(p, states, acts, f, k - 1);
      var s, a := states[k - 1], acts[k - 1];
      assert Leads(p, s, a, states[k], f);
      if a.Record? {
        StoredWellFormed(s.executed, s.host.dispatches[a.d].hash, (), p.replayTtl, s.now, p.replayMax);
      } else if a.CollectExecuted? {
        CollectedWellFormed(s.executed, s.now, p.replayMax);
      }
    }
  }

  /** The act makes a record of `hash`. */
  predicate Makes<B, C>(s: System<B, C>, a: Act<B, C>, hash: Bytes) {
    a.Record? && a.d < |s.host.dispatches| && s.host.dispatches[a.d].hash == hash
  }

  /** The act records another, new hash while the cache is full and `hash` is among its oldest entries. */
  predicate Displaces<B, C>(p: Params, s: System<B, C>, a: Act<B, C>, hash: Bytes) {
    a.Record? && a.d < |s.host.dispatches| && CR.Dropped(s.executed, s.host.dispatches[a.d].hash, p.replayMax, hash)
  }

  /** No act from `j` to before `n` makes a record of `hash`. */
  predicate NoneMade<B, C>(states: seq<System<B, C>>, acts: seq<Act<B, C>>, j: nat, n: nat, hash: Bytes)
    requires n <= |acts| < |states|
  {
    forall k :: j <= k < n ==> !Makes(states[k], acts[k], hash)
  }

  /** After act `i` and before act `n` the record of `hash` was displaced and not made again. */
  ghost predicate LostSince<B, C>(p: Params, states: seq<System<B, C>>, acts: seq<Act<B, C>>, i: nat, n: nat,
                                  hash: Bytes)
    requires n <= |acts| < |states|
  {
    exists j :: i < j < n && Displaces(p, states[j], acts[j], hash) && NoneMade(states, acts, j + 1, n, hash)
  }

  lemma NoneMadeStep<B, C>(states: seq<System<B, C>>, acts: seq<Act<B, C>>, j: nat, n: nat, hash: Bytes)
    requires j <= n < |acts| < |states|
    ensures NoneMade(states, acts, j, n + 1, hash) <==>
            NoneMade(states, acts, j, n, hash) && !Makes(states[n], acts[n], hash)
  {
  }

  lemma LostStep<B, C>(p: Params, states: seq<System<B, C>>, acts: seq<Act<B, C>>, i: nat, n: nat, hash: Bytes)
    requires i < n < |acts| < |states|
    ensures LostSince(p, states, acts, i, n + 1, hash) <==>
            || Displaces(p, states[n], acts[n], hash)
            || (LostSince(p, states, acts, i, n, hash) && !Makes(states[n], acts[n], hash))
  {
    if LostSince(p, states, acts, i, n + 1, hash) {
      var j :| i < j < n + 1 && Displaces(p, states[j], acts[j], hash) && NoneMade(states, acts, j + 1, n + 1, hash);
      if j < n {
        NoneMadeStep(states, acts, j + 1, n, hash);
      }
    }
    if Displaces(p, states[n], acts[n], hash) {
      assert NoneMade(states, acts, n + 1, n + 1, hash);
    }
    if LostSince(p, states, acts, i, n, hash) && !Makes(states[n], acts[n], hash) {
      var j :| i < j < n && Displaces(p, states[j], acts[j], hash) && NoneMade(states, acts, j + 1, n, hash);
      NoneMadeStep(states, acts, j + 1, n, hash);
    }
  }

  /** The record is there and is not older than `since`. */
  predicate OnRecord(executed: State<Bytes, ()>, hash: Bytes, since: int, ttl: int) {
    hash in executed.items && executed.items[hash].created >= since && executed.items[hash].ttl == ttl
  }

  lemma StoreOnRecord(executed: State<Bytes, ()>, hash: Bytes, other: Bytes, since: int, ttl: int, now: int, max: int)
    requires WellFormed(executed, max) && since <= now
    requires hash in executed.items ==> OnRecord(executed, hash, since, ttl)
    ensures var u := Stored(executed, other, (), ttl, now, max);
            && (hash in u.items ==> OnRecord(u, hash, since, ttl))
            && (hash !in u.items <==>
                  if hash in executed.items then CR.Dropped(executed, other, max, hash) else hash != other)
  {
    StoredWellFormed(executed, other, (), ttl, now, max);
    if hash in executed.items {
      CR.StoreDropsIff(executed, other, (), ttl, now, max, hash);
      if hash != other && hash in Stored(executed, other, (), ttl, now, max).items {
        StoreKeepsItem(executed, hash, other, ttl, now, max);
      }
    }
  }

  lemma CollectOnRecord(executed: State<Bytes, ()>, hash: Bytes, since: int, ttl: int, now: int, max: int)
    requires WellFormed(executed, max) && now <= since + ttl
    requires hash in executed.items ==> OnRecord(executed, hash, since, ttl)
    ensures var u := Collected(executed, now);
            (hash in u.items <==> hash in executed.items) && (hash in u.items ==> OnRecord(u, hash, since, ttl))
  {
    CollectedWellFormed(executed, now, max);
  }

  lemma DroppedWasThere(executed: State<Bytes, ()>, other: Bytes, max: int, hash: Bytes)
    requires WellFormed(executed, max) && CR.Dropped(executed, other, max, hash)
    ensures hash in executed.items && hash != other
  {
    var i :| 0 <= i < |executed.keyList| && executed.keyList[i] == hash;
    assert hash in CacheModel.Keys(executed.keyList);
  }

  /** One act: when the record of `hash` is missing after it. */
  lemma ActOnRecord<B, C>(p: Params, s: System<B, C>, a: Act<B, C>, u: System<B, C>, f: uint32, hash: Bytes, since: int)
    requires Leads(p, s, a, u, f) && WellFormed(s.executed, p.replayMax)
    requires since <= s.now <= since + p.replayTtl
    requires (hash in s.executed.items ==> OnRecord(s.executed, hash, since, p.replayTtl))
    ensures hash in u.executed.items ==> OnRecord(u.executed, hash, since, p.replayTtl)
    ensures hash !in u.executed.items <==> Displaces(p, s, a, hash) || (hash !in s.executed.items && !Makes(s, a, hash))
  {
    if a.Record? {
      var other := s.host.dispatches[a.d].hash;
      StoreOnRecord(s.executed, hash, other, since, p.replayTtl, s.now, p.replayMax);
      if CR.Dropped(s.executed, other, p.replayMax, hash) {
        DroppedWasThere(s.executed, other, p.replayMax, hash);
      }
    } else if a.CollectExecuted? {
      CollectOnRecord(s.executed, hash, since, p.replayTtl, s.now, p.replayMax);
    }
  }

  lemma TimeGrows<B, C>(p: Params, states: seq<System<B, C>>, acts: seq<Act<B, C>>, f: uint32, n: nat)
    requires IsRun(p, states, acts, f) && n < |acts|
    ensures states[n].now <= states[n + 1].now
  {
    assert Leads(p, states[n], acts[n], states[n + 1], f);
    ActAdvances(p, states[n], acts[n], f);
  }

  lemma MadeIsOnRecord<B, C>(p: Params, s: System<B, C>, a: Act<B, C>, u: System<B, C>, f: uint32, hash: Bytes)
    requires Leads(p, s, a, u, f) && Makes(s, a, hash) && WellFormed(s.executed, p.replayMax)
    ensures OnRecord(u.executed, hash, s.now, p.replayTtl)
  {
    StoredWellFormed(s.executed, hash, (), p.replayTtl, s.now, p.replayMax);
  }

  /** What is known, before act `n`, of the record of `hash` made at act `i`. */
  ghost predicate Accounted<B, C>(p: Params, states: seq<System<B, C>>, acts: seq<Act<B, C>>, i: nat, n: nat,
                                  hash: Bytes)
    requires i < n <= |acts| < |states|
  {
    && states[i].now <= states[n].now
    && (hash in states[n].executed.items ==> OnRecord(states[n].executed, hash, states[i].now, p.replayTtl))
    && (hash !in states[n].executed.items <==> LostSince(p, states, acts, i, n, hash))
  }

  lemma AccountedStart<B, C>(p: Params, states: seq<System<B, C>>, acts: seq<Act<B, C>>, f: uint32, i: nat, hash: Bytes)
    requires IsRun(p, states, acts, f) && states[0].executed == Empty() && i < |acts| && Makes(states[i], acts[i], hash)
    ensures Accounted(p, states, acts, i, i + 1, hash)
  {
    ExecutedWellFormed(p, states, acts, f, i);
    TimeGrows(p, states, acts, f, i);
    assert Leads(p, states[i], acts[i], states[i + 1], f);
    MadeIsOnRecord(p, states[i], acts[i], states[i + 1], f, hash);
  }

  lemma AccountedStep<B, C>(p: Params, states: seq<System<B, C>>, acts: seq<Act<B, C>>, f: uint32, i: nat, n: nat,
                            hash: Bytes)
    requires IsRun(p, states, acts, f) && states[0].executed == Empty() && i < n < |acts|
    requires Accounted(p, states, acts, i, n, hash) && states[n].now <= states[i].now + p.replayTtl
    ensures Accounted(p, states, acts, i, n + 1, hash)
  {
    ExecutedWellFormed(p, states, acts, f, n);
    TimeGrows(p, states, acts, f, n);
    assert Leads(p, states[n], acts[n], states[n + 1], f);
    ActOnRecord(p, states[n], acts[n], states[n + 1], f, hash, states[i].now);
    LostStep(p, states, acts, i, n, hash);
  }

  /** From before act `i` to before act `n` at most `ttl` passes. */
  predicate InTime<B, C>(states: seq<System<B, C>>, i: nat, n: nat, ttl: int)
    requires i <= n < |states|
  {
    forall k :: i <= k <= n ==> states[k].now <= states[i].now + ttl
  }

  lemma {:induction false} TimePasses<B, C>(p: Params, states: seq<System<B, C>>, acts: seq<Act<B, C>>, f: uint32,
                                            k: nat, n: nat)
    requires IsRun(p, states, acts, f) && k <= n <= |acts|
    ensures states[k].now <= states[n].now
  {
    if k < n {
      TimePasses(p, states, acts, f, k, n - 1);
      TimeGrows(p, states, acts, f, n - 1);
    }
  }

  lemma {:induction false} RecordAccounted<B, C>(p: Params, states: seq<System<B, C>>, acts: seq<Act<B, C>>, f: uint32,
                                                 i: nat, n: nat, hash: Bytes)
    requires IsRun(p, states, acts, f) && states[0].executed == Empty()
    requires i < n <= |acts| && Makes(states[i], acts[i], hash) && InTime(states, i, n, p.replayTtl)
    ensures Accounted(p, states, acts, i, n, hash)
    decreases n
  {
    if i == n - 1 {
      AccountedStart(p, states, acts, f, i, hash);
    } else {
      assert InTime(states, i, n - 1, p.replayTtl);
      RecordAccounted(p, states, acts, f, i, n - 1, hash);
      AccountedStep(p, states, acts, f, i, n - 1, hash);
    }
  }

  /**
   In every run, within the lifetime of a record made at act `i`, the record is missing if and only if
   a later act displaced it and none made it again since.
   */
  lemma RecordMissingIff<B, C>(p: Params, states: seq<System<B, C>>, acts: seq<Act<B, C>>, f: uint32,
                               config: EnclaveConfig, now: int, i: nat, n: nat, hash: Bytes)
    requires IsRun(p, states, acts, f) && states[0] == Start<B, C>(config, now)
    requires i < n <= |acts| && Makes(states[i], acts[i], hash) && states[n].now <= states[i].now + p.replayTtl
    ensures Lookup(states[n].executed, hash, states[n].now).None? <==> LostSince(p, states, acts, i, n, hash)
  {
    assert InTime(states, i, n, p.replayTtl) by {
      forall k | i <= k <= n ensures states[k].now <= states[i].now + p.replayTtl {
        TimePasses(p, states, acts, f, k, n);
      }
    }
    RecordAccounted(p, states, acts, f, i, n, hash);
  }

  /**
   In every feasible run that recorded a hash at act `i` and comes to call the application for that hash
   again within the record's lifetime, an act in between displaced the record and none made it again.
   */
  lemma RepeatWasDisplaced<B, C>(p: Params, config: EnclaveConfig, now: int, acts: seq<Act<B, C>>, f: uint32,
                                 i: nat, d: nat, ok: bool) returns (states: seq<System<B, C>>)
    requires Feasible(p, Start<B, C>(config, now), acts, f) && p.pendingTtl >= 0
    requires i < |acts| && acts[i].Record?
    requires MayAct(Reached(p, Start<B, C>(config, now), acts, f), Act<B, C>.Run(d, ok), f)
    ensures IsRun(p, states, acts, f) && states[0] == Start<B, C>(config, now)
    ensures var s, u := states[i], states[|acts|];
            && u == Reached(p, Start<B, C>(config, now), acts, f)
            && acts[i].d < |s.host.dispatches| && d < |u.host.dispatches|
            && var hash := s.host.dispatches[acts[i].d].hash;
               u.host.dispatches[d].hash == hash && u.now <= s.now + p.replayTtl ==>
                 LostSince(p, states, acts, i, |acts|, hash)
  {
    states := FeasibleIsRun(p, Start<B, C>(config, now), acts, f);
    NeverRunsARecordedHash(p, config, now, acts, f, d, ok);
    assert Leads(p, states[i], acts[i], states[i + 1], f);
    var s, u := states[i], states[|acts|];
    var hash := s.host.dispatches[acts[i].d].hash;
    if u.host.dispatches[d].hash == hash && u.now <= s.now + p.replayTtl {
      RecordMissingIff(p, states, acts, f, config, now, i, |acts|, hash);
    }
  }
}

/**
 A run in which the application executes a request twice at one moment: as many other requests as the
 replay cache holds are executed in between. One signer suffices where `F` is 0.
 */
module ReplayRun {
  import opened Bytes
  import opened Crypto
  import opened Encoding
  import opened Preimages
  import opened Protocol
  import opened CacheModel
  import CR = CacheRuns
  import opened HostModel
  import HA = HostAnswers
  import opened System
  import opened ExampleDeployment

  /** With each act taking one state to the next, or not possible, the acts lead from `s` to `u`. */
  predicate Walks<S(==), A>(take: (S, A) -> Option<S>, s: S, acts: seq<A>, u: S)
    decreases |acts|
  {
    if acts == [] then s == u else take(s, acts[0]).Some? && Walks(take, take(s, acts[0]).value, acts[1..], u)
  }

  lemma {:induction false} WalksOn<S, A>(take: (S, A) -> Option<S>, s: S, a: seq<A>, t: S, b: seq<A>, u: S)
    requires Walks(take, s, a, t) && Walks(take, t, b, u)
    ensures Walks(take, s, a + b, u)
    decreases |a|
  {
    if a == [] {
      assert a + b == b;
    } else {
      WalksOn(take, take(s, a[0]).value, a[1..], t, b, u);
      assert (a + b)[0] == a[0] && (a + b)[1..] == a[1..] + b;
    }
  }

  /** One act of the system, where `F` is 0. */
  function Taking(p: Params): (System<nat, nat>, Act<nat, nat>) -> Option<System<nat, nat>> {
    (s: System<nat, nat>, a: Act<nat, nat>) =>
      if |s.handlers| == |s.host.dispatches| && MayAct(s, a, 0) then Some(Do(p, s, a, 0)) else None
  }

  /** The acts lead from `s` to `u`. */
  predicate Path(p: Params, s: System<nat, nat>, acts: seq<Act<nat, nat>>, u: System<nat, nat>) {
    Walks(Taking(p), s, acts, u)
  }

  lemma OneAct(p: Params, s: System<nat, nat>, a: Act<nat, nat>, u: System<nat, nat>)
    requires |s.handlers| == |s.host.dispatches| && MayAct(s, a, 0) && u == Do(p, s, a, 0)
    ensures Path(p, s, [a], u)
  {
    assert Taking(p)(s, a) == Some(u);
    assert Walks(Taking(p), u, [a][1..], u);
  }

  lemma Chained(p: Params, s: System<nat, nat>, a: seq<Act<nat, nat>>, t: System<nat, nat>, b: seq<Act<nat, nat>>,
                u: System<nat, nat>)
    requires Path(p, s, a, t) && Path(p, t, b, u)
    ensures Path(p, s, a + b, u)
  {
    WalksOn(Taking(p), s, a, t, b, u);
  }

  predicate EndsIn(p: Params, start: System<nat, nat>, acts: seq<Act<nat, nat>>, u: System<nat, nat>) {
    Feasible(p, start, acts, 0) && Reached(p, start, acts, 0) == u
  }

  lemma OneMore(p: Params, start: System<nat, nat>, acts: seq<Act<nat, nat>>, s: System<nat, nat>, a: Act<nat, nat>)
    requires EndsIn(p, start, acts, s) && |s.handlers| == |s.host.dispatches| && MayAct(s, a, 0)
    ensures EndsIn(p, start, acts + [a], Do(p, s, a, 0))
  {
    assert (acts + [a])[..|acts|] == acts;
  }

  /** A path from the start is a feasible run. */
  lemma {:induction false} PathIsRun(p: Params, start: System<nat, nat>, before: seq<Act<nat, nat>>,
                                     s: System<nat, nat>, acts: seq<Act<nat, nat>>, u: System<nat, nat>)
    requires EndsIn(p, start, before, s) && Path(p, s, acts, u)
    ensures EndsIn(p, start, before + acts, u)
    decreases |acts|
  {
    if acts == [] {
      assert before + acts == before;
    } else {
      var a, rest := acts[0], acts[1..];
      var t := Do(p, s, a, 0);
      assert EndsIn(p, start, before + [a], t) by { OneMore(p, start, before, s, a); }
      RegroupActs(before, acts);
      PathIsRun(p, start, before + [a], t, rest, u);
    }
  }

  lemma RegroupActs(before: seq<Act<nat, nat>>, acts: seq<Act<nat, nat>>)
    requires acts != []
    ensures before + [acts[0]] + acts[1..] == before + acts
  {
  }

  predicate CanAsk(p: Params, cfg: EnclaveConfig, r: SignedRequest) {
    cfg.F == 0 && cfg.T != 0 && RequestSigner(p.env, r, cfg.signers).Some?
  }

  /** Nothing is going on after `n` dispatches. */
  predicate Idle(s: System<nat, nat>, cfg: EnclaveConfig, now: int, n: nat) {
    && s.host.pending == Empty() && s.host.responses == Empty() && s.inProgress == Empty()
    && s.config == cfg && s.now == now && |s.handlers| == |s.host.dispatches| == n
    && (forall b :: b in s.host.batches ==> b < n) && (forall c :: c in s.host.chans ==> c < n)
  }

  // --- the host's two steps --------------------------------------------------------------------

  /** The only request of its hash is dispatched at once. */
  lemma LoneArrival(p: Params, h: Host<nat, nat>, cfg: EnclaveConfig, r: SignedRequest, n: nat, now: int)
    requires h.pending == Empty() && h.responses == Empty() && CanAsk(p, cfg, r)
    ensures var u := Arrive(p.env, h, cfg, p.bft, r, n, n, now, p.pendingTtl).0;
            var hash, k := HashOf(p.env, r), RequestSigner(p.env, r, cfg.signers).value;
            && u.dispatches == h.dispatches + [Dispatch(hash, [r], false, n, [k], [cfg])]
            && u.pending == State(map[hash := Item(n, now, p.pendingTtl)], [hash]) && u.responses == Empty()
            && u.batches.Keys == h.batches.Keys + {n} && u.chans.Keys == h.chans.Keys + {n}
  {
    assert QuorumThreshold(0, p.bft) == 1;
    var hash, k := HashOf(p.env, r), RequestSigner(p.env, r, cfg.signers).value;
    assert Joined(h, hash, now, n) == n && JoinedBatch(h, hash, now) == NewBatch(hash, now);
    assert Stored<Bytes, nat>(Empty(), hash, n, p.pendingTtl, now, 0) ==
      State(map[hash := Item(n, now, p.pendingTtl)], [hash]);
    var b := NewBatch<nat>(hash, now);
    assert b.requests + [r] == [r] && b.signers + [k] == [k] && b.configs + [cfg] == [cfg];
  }

  lemma LoneCompletion(h: Host<nat, nat>, d: nat, id: nat, hash: Bytes, now: int, ttl: int)
    requires d < |h.dispatches| && h.dispatches[d].hash == hash && ttl >= 0 && id in h.batches
    requires h.pending == State(map[hash := Item(id, now, ttl)], [hash])
    ensures var u := Complete(h, d, EnclaveFailed, now, ttl);
            && u.pending == Empty() && u.responses == h.responses
            && u.dispatches == h.dispatches[d := h.dispatches[d].(completed := true)]
            && u.batches.Keys == h.batches.Keys && u.chans.Keys == h.chans.Keys
  {
    HA.SendAllKeys(h.chans, h.batches[id].waiters, EnclaveFailed);
    assert Deleted(h.pending, hash) == Empty();
  }

  // --- the enclave's eight steps -----------------------------------------------------------------

  /** One signed request satisfies the enclave where `F` is 0. */
  lemma LoneIsAdmissible(p: Params, cfg: EnclaveConfig, r: SignedRequest)
    requires CanAsk(p, cfg, r)
    ensures Admissible(p.env, [r], cfg)
  {
    FingerprintCount(p.env, [r], [RequestSigner(p.env, r, cfg.signers).value], cfg.signers);
  }

  function At(s: System<nat, nat>, d: nat, ph: Phase): System<nat, nat>
    requires d < |s.handlers|
  {
    s.(handlers := s.handlers[d := ph])
  }

  lemma Moves(p: Params, s: System<nat, nat>, d: nat, ph: Phase, a: Act<nat, nat>, next: Phase)
    requires d < |s.handlers| == |s.host.dispatches| && MayAct(At(s, d, ph), a, 0)
    requires Do(p, At(s, d, ph), a, 0) == At(At(s, d, ph), d, next)
    ensures Path(p, At(s, d, ph), [a], At(s, d, next))
  {
    assert s.handlers[d := ph][d := next] == s.handlers[d := next];
    OneAct(p, At(s, d, ph), a, At(s, d, next));
  }

  lemma Passes(p: Params, s: System<nat, nat>, d: nat)
    requires d < |s.handlers| == |s.host.dispatches| && s.handlers[d] == Received && s.inProgress == Empty()
    requires Admissible(p.env, s.host.dispatches[d].requests, s.config)
    ensures Path(p, s, [Check(d)] + [Probe(d)], At(s, d, Unclaimed))
  {
    assert At(s, d, Received) == s;
    Moves(p, s, d, Received, Check(d), Verified);
    Moves(p, s, d, Verified, Probe(d), Unclaimed);
    Chained(p, s, [Check(d)], At(s, d, Verified), [Probe(d)], At(s, d, Unclaimed));
  }

  lemma Claims(p: Params, s: System<nat, nat>, d: nat)
    requires d < |s.handlers| == |s.host.dispatches|
    ensures var marked := Stored(s.inProgress, s.host.dispatches[d].hash, (), p.replayTtl, s.now, p.replayMax);
            Path(p, At(s, d, Unclaimed), [Mark(d)], At(s.(inProgress := marked), d, Claimed))
  {
    var marked := Stored(s.inProgress, s.host.dispatches[d].hash, (), p.replayTtl, s.now, p.replayMax);
    assert s.handlers[d := Unclaimed][d := Claimed] == s.handlers[d := Claimed];
    OneAct(p, At(s, d, Unclaimed), Mark(d), At(s.(inProgress := marked), d, Claimed));
  }

  lemma Calls(p: Params, s: System<nat, nat>, d: nat)
    requires d < |s.handlers| == |s.host.dispatches| && Lookup(s.executed, s.host.dispatches[d].hash, s.now).None?
    ensures Path(p, At(s, d, Claimed), [ProbeExecuted(d)], At(s, d, Cleared))
    ensures Path(p, At(s, d, Cleared), [Run(d, true)], At(s, d, Ran(true)))
  {
    Moves(p, s, d, Claimed, ProbeExecuted(d), Cleared);
    Moves(p, s, d, Cleared, Run(d, true), Ran(true));
  }

  lemma Records(p: Params, s: System<nat, nat>, d: nat)
    requires d < |s.handlers| == |s.host.dispatches|
    ensures var executed := Stored(s.executed, s.host.dispatches[d].hash, (), p.replayTtl, s.now, p.replayMax);
            Path(p, At(s, d, Ran(true)), [Record(d)], At(s.(executed := executed), d, Recorded))
  {
    var executed := Stored(s.executed, s.host.dispatches[d].hash, (), p.replayTtl, s.now, p.replayMax);
    assert s.handlers[d := Ran(true)][d := Recorded] == s.handlers[d := Recorded];
    OneAct(p, At(s, d, Ran(true)), Record(d), At(s.(executed := executed), d, Recorded));
  }

  const DONE := Replied(Executed([]), false)

  lemma Unmarks(p: Params, s: System<nat, nat>, d: nat)
    requires d < |s.handlers| == |s.host.dispatches| && Deleted(s.inProgress, s.host.dispatches[d].hash) == Empty()
    ensures Path(p, At(s, d, Recorded), [Reply(d, Executed([]))] + [Unmark(d)], At(s.(inProgress := Empty()), d, DONE))
  {
    Moves(p, s, d, Recorded, Reply(d, Executed([])), Replied(Executed([]), true));
    var v, u := At(s, d, Replied(Executed([]), true)), At(s.(inProgress := Empty()), d, DONE);
    assert v.handlers[d := DONE] == u.handlers;
    OneAct(p, v, Unmark(d), u);
    Chained(p, At(s, d, Recorded), [Reply(d, Executed([]))], v, [Unmark(d)], u);
  }

  // --- whole executions --------------------------------------------------------------------------

  function Claiming(n: nat): seq<Act<nat, nat>> {
    [Check(n)] + [Probe(n)] + [Mark(n)]
  }

  function Finishing(n: nat): seq<Act<nat, nat>> {
    [Record(n)] + ([Reply(n, Executed([]))] + [Unmark(n)])
  }

  /** The enclave's part of an execution. */
  function Handling(n: nat): seq<Act<nat, nat>> {
    Claiming(n) + ([ProbeExecuted(n)] + [Run(n, true)]) + Finishing(n)
  }

  lemma ClaimsFrom(p: Params, s: System<nat, nat>, n: nat)
    requires n < |s.handlers| == |s.host.dispatches| && s.handlers[n] == Received && s.inProgress == Empty()
    requires Admissible(p.env, s.host.dispatches[n].requests, s.config)
    ensures var marked := Stored(Empty(), s.host.dispatches[n].hash, (), p.replayTtl, s.now, p.replayMax);
            Path(p, s, Claiming(n), At(s.(inProgress := marked), n, Claimed))
  {
    Passes(p, s, n);
    Claims(p, s, n);
    var marked := Stored(s.inProgress, s.host.dispatches[n].hash, (), p.replayTtl, s.now, p.replayMax);
    Chained(p, s, [Check(n)] + [Probe(n)], At(s, n, Unclaimed), [Mark(n)], At(s.(inProgress := marked), n, Claimed));
  }

  lemma FinishesFrom(p: Params, s: System<nat, nat>, n: nat)
    requires n < |s.handlers| == |s.host.dispatches| && Deleted(s.inProgress, s.host.dispatches[n].hash) == Empty()
    ensures var executed := Stored(s.executed, s.host.dispatches[n].hash, (), p.replayTtl, s.now, p.replayMax);
            Path(p, At(s, n, Ran(true)), Finishing(n), At(s.(executed := executed, inProgress := Empty()), n, DONE))
  {
    Records(p, s, n);
    var t := s.(executed := Stored(s.executed, s.host.dispatches[n].hash, (), p.replayTtl, s.now, p.replayMax));
    Unmarks(p, t, n);
    Chained(p, At(s, n, Ran(true)), [Record(n)], At(t, n, Recorded), [Reply(n, Executed([]))] + [Unmark(n)],
           At(t.(inProgress := Empty()), n, DONE));
  }

  lemma MarkIsRemoved(hash: Bytes, ttl: int, now: int, max: int)
    requires max >= 1
    ensures Deleted(Stored<Bytes, ()>(Empty(), hash, (), ttl, now, max), hash) == Empty()
  {
    assert Stored<Bytes, ()>(Empty(), hash, (), ttl, now, max) == State(map[hash := Item((), now, ttl)], [hash]);
  }

  lemma Handles(p: Params, s: System<nat, nat>, n: nat, hash: Bytes) returns (u: System<nat, nat>)
    requires n < |s.handlers| == |s.host.dispatches| && s.handlers[n] == Received && s.inProgress == Empty()
    requires Admissible(p.env, s.host.dispatches[n].requests, s.config) && s.host.dispatches[n].hash == hash
    requires Lookup(s.executed, hash, s.now).None? && p.replayMax >= 1
    ensures Path(p, s, Handling(n), u)
    ensures u == At(s.(executed := Stored(s.executed, hash, (), p.replayTtl, s.now, p.replayMax)), n, DONE)
  {
    ClaimsFrom(p, s, n);
    var t := s.(inProgress := Stored(Empty(), hash, (), p.replayTtl, s.now, p.replayMax));
    Calls(p, t, n);
    Chained(p, At(t, n, Claimed), [ProbeExecuted(n)], At(t, n, Cleared), [Run(n, true)], At(t, n, Ran(true)));
    MarkIsRemoved(hash, p.replayTtl, s.now, p.replayMax);
    FinishesFrom(p, t, n);
    Chained(p, s, Claiming(n), At(t, n, Claimed), [ProbeExecuted(n)] + [Run(n, true)], At(t, n, Ran(true)));
    u := At(s.(executed := Stored(s.executed, hash, (), p.replayTtl, s.now, p.replayMax)), n, DONE);
    assert u == At(t.(executed := u.executed, inProgress := Empty()), n, DONE);
    Chained(p, s, Claiming(n) + ([ProbeExecuted(n)] + [Run(n, true)]), At(t, n, Ran(true)), Finishing(n), u);
  }

  /** What an arrival from an idle state leads to. */
  ghost predicate JustArrived(p: Params, s: System<nat, nat>, u: System<nat, nat>, cfg: EnclaveConfig, now: int,
                              n: nat, r: SignedRequest)
    requires CanAsk(p, cfg, r)
  {
    var hash, k := HashOf(p.env, r), RequestSigner(p.env, r, cfg.signers).value;
    && u.handlers == s.handlers + [Received] && u.inProgress == Empty() && u.executed == s.executed
    && u.config == cfg && u.now == now
    && u.host.dispatches == s.host.dispatches + [Dispatch(hash, [r], false, n, [k], [cfg])]
    && u.host.pending == State(map[hash := Item(n, now, p.pendingTtl)], [hash]) && u.host.responses == Empty()
    && u.host.batches.Keys == s.host.batches.Keys + {n} && u.host.chans.Keys == s.host.chans.Keys + {n}
  }

  lemma Arrives(p: Params, cfg: EnclaveConfig, now: int, s: System<nat, nat>, n: nat, r: SignedRequest)
    returns (u: System<nat, nat>)
    requires Idle(s, cfg, now, n) && CanAsk(p, cfg, r)
    ensures Path(p, s, [OnHost(Arrival(cfg, r, n, n, now))], u) && JustArrived(p, s, u, cfg, now, n, r)
  {
    LoneArrival(p, s.host, cfg, r, n, now);
    var a: Act<nat, nat> := OnHost(Arrival(cfg, r, n, n, now));
    assert MayAct(s, a, 0);
    u := Do(p, s, a, 0);
    assert Extend(s.handlers, n + 1) == s.handlers + [Received];
    OneAct(p, s, a, u);
  }

  lemma Completes(p: Params, cfg: EnclaveConfig, now: int, s: System<nat, nat>, n: nat, hash: Bytes)
    returns (u: System<nat, nat>)
    requires |s.handlers| == |s.host.dispatches| == n + 1 && s.handlers[n].Replied? && p.pendingTtl >= 0
    requires s.host.pending == State(map[hash := Item(n, now, p.pendingTtl)], [hash]) && s.host.responses == Empty()
    requires s.host.dispatches[n].hash == hash && !s.host.dispatches[n].completed && n in s.host.batches
    requires (forall b :: b in s.host.batches ==> b <= n) && (forall c :: c in s.host.chans ==> c <= n)
    requires s.inProgress == Empty() && s.config == cfg && s.now == now
    ensures Path(p, s, [OnHost(Completion(n, EnclaveFailed, now))], u) && Idle(u, cfg, now, n + 1)
    ensures u.executed == s.executed && forall k :: 0 <= k <= n ==>
            u.host.dispatches[k].hash == s.host.dispatches[k].hash
  {
    var a: Act<nat, nat> := OnHost(Completion(n, EnclaveFailed, now));
    LoneCompletion(s.host, n, n, hash, now, p.pendingTtl);
    u := Do(p, s, a, 0);
    OneAct(p, s, a, u);
  }

  /**
   The acts by which a request is dispatched, executed and recorded as number `n`, and its answer
   lost on the way back.
   */
  function Execution(cfg: EnclaveConfig, r: SignedRequest, n: nat, now: int): seq<Act<nat, nat>> {
    [OnHost(Arrival(cfg, r, n, n, now))] + Handling(n) + [OnHost(Completion(n, EnclaveFailed, now))]
  }

  /** The request arrives and the enclave handles it. */
  lemma IsHandled(p: Params, cfg: EnclaveConfig, now: int, s: System<nat, nat>, n: nat, r: SignedRequest)
    returns (s1: System<nat, nat>, s2: System<nat, nat>)
    requires Idle(s, cfg, now, n) && CanAsk(p, cfg, r) && p.replayMax >= 1
    requires Lookup(s.executed, HashOf(p.env, r), now).None?
    ensures JustArrived(p, s, s1, cfg, now, n, r)
    ensures s2 == At(s1.(executed := Stored(s.executed, HashOf(p.env, r), (), p.replayTtl, now, p.replayMax)), n, DONE)
    ensures Path(p, s, [OnHost(Arrival(cfg, r, n, n, now))] + Handling(n), s2)
  {
    s1 := Arrives(p, cfg, now, s, n, r);
    LoneIsAdmissible(p, cfg, r);
    s2 := Handles(p, s1, n, HashOf(p.env, r));
    Chained(p, s, [OnHost(Arrival(cfg, r, n, n, now))], s1, Handling(n), s2);
  }

  /** From an idle state a request whose hash has no live record is executed. */
  lemma Executes(p: Params, cfg: EnclaveConfig, now: int, s: System<nat, nat>, n: nat, r: SignedRequest)
    returns (u: System<nat, nat>)
    requires Idle(s, cfg, now, n) && CanAsk(p, cfg, r) && p.replayMax >= 1 && p.pendingTtl >= 0
    requires Lookup(s.executed, HashOf(p.env, r), now).None?
    ensures Path(p, s, Execution(cfg, r, n, now), u) && Idle(u, cfg, now, n + 1)
    ensures u.executed == Stored(s.executed, HashOf(p.env, r), (), p.replayTtl, now, p.replayMax)
    ensures u.host.dispatches[n].hash == HashOf(p.env, r)
    ensures forall k :: 0 <= k < n ==> u.host.dispatches[k].hash == s.host.dispatches[k].hash
  {
    var hash, arrival := HashOf(p.env, r), [OnHost(Arrival(cfg, r, n, n, now))];
    var s1, s2 := IsHandled(p, cfg, now, s, n, r);
    u := Completes(p, cfg, now, s2, n, hash);
    Chained(p, s, arrival + Handling(n), s2, [OnHost(Completion(n, EnclaveFailed, now))], u);
  }

  // --- crowding a record out ---------------------------------------------------------------------

  /** Requests of different hashes that one signer can make. */
  predicate Asks(p: Params, cfg: EnclaveConfig, reqs: seq<SignedRequest>) {
    && (forall i :: 0 <= i < |reqs| ==> CanAsk(p, cfg, reqs[i]))
    && (forall i, j :: 0 <= i < j < |reqs| ==> HashOf(p.env, reqs[i]) != HashOf(p.env, reqs[j]))
  }

  function Hashes(env: Env, reqs: seq<SignedRequest>, n: nat): (r: seq<Bytes>)
    requires n <= |reqs|
    ensures |r| == n && forall i :: 0 <= i < n ==> r[i] == HashOf(env, reqs[i])
  {
    if n == 0 then [] else Hashes(env, reqs, n - 1) + [HashOf(env, reqs[n - 1])]
  }

  lemma NotYetHeld(p: Params, cfg: EnclaveConfig, executed: State<Bytes, ()>, reqs: seq<SignedRequest>, n: nat)
    requires Asks(p, cfg, reqs) && n < |reqs| && WellFormed(executed, p.replayMax)
    requires executed.keyList == Hashes(p.env, reqs, n)
    ensures HashOf(p.env, reqs[n]) !in executed.items
  {
    assert HashOf(p.env, reqs[n]) !in CacheModel.Keys(executed.keyList);
  }

  lemma StoreAppends(executed: State<Bytes, ()>, hash: Bytes, ttl: int, now: int, max: int)
    requires WellFormed(executed, max) && hash !in executed.items && |executed.keyList| < max
    ensures var u := Stored(executed, hash, (), ttl, now, max);
            WellFormed(u, max) && u.keyList == executed.keyList + [hash]
  {
    StoredWellFormed(executed, hash, (), ttl, now, max);
  }

  function Executions(cfg: EnclaveConfig, reqs: seq<SignedRequest>, n: nat, now: int): seq<Act<nat, nat>>
    requires n <= |reqs|
  {
    if n == 0 then [] else Executions(cfg, reqs, n - 1, now) + Execution(cfg, reqs[n - 1], n - 1, now)
  }

  lemma {:induction false} ExecutesAll(p: Params, cfg: EnclaveConfig, now: int, reqs: seq<SignedRequest>, n: nat)
    returns (s: System<nat, nat>)
    requires Asks(p, cfg, reqs) && n <= |reqs| && n <= p.replayMax && p.replayMax >= 1 && p.pendingTtl >= 0
    ensures Path(p, Start(cfg, now), Executions(cfg, reqs, n, now), s) && Idle(s, cfg, now, n)
    ensures WellFormed(s.executed, p.replayMax) && s.executed.keyList == Hashes(p.env, reqs, n)
    ensures n > 0 ==> s.host.dispatches[0].hash == HashOf(p.env, reqs[0])
  {
    if n == 0 {
      s := Start(cfg, now);
    } else {
      var before := ExecutesAll(p, cfg, now, reqs, n - 1);
      s := ExecutesNext(p, cfg, now, reqs, n - 1, before);
      StoreAppends(before.executed, HashOf(p.env, reqs[n - 1]), p.replayTtl, now, p.replayMax);
    }
  }

  lemma ExecutesNext(p: Params, cfg: EnclaveConfig, now: int, reqs: seq<SignedRequest>, n: nat,
                     before: System<nat, nat>)
    returns (s: System<nat, nat>)
    requires Asks(p, cfg, reqs) && n < |reqs| && p.replayMax >= 1 && p.pendingTtl >= 0
    requires Path(p, Start(cfg, now), Executions(cfg, reqs, n, now), before) && Idle(before, cfg, now, n)
    requires WellFormed(before.executed, p.replayMax) && before.executed.keyList == Hashes(p.env, reqs, n)
    requires n > 0 ==> before.host.dispatches[0].hash == HashOf(p.env, reqs[0])
    ensures Path(p, Start(cfg, now), Executions(cfg, reqs, n + 1, now), s) && Idle(s, cfg, now, n + 1)
    ensures HashOf(p.env, reqs[n]) !in before.executed.items
    ensures s.executed == Stored(before.executed, HashOf(p.env, reqs[n]), (), p.replayTtl, now, p.replayMax)
    ensures s.host.dispatches[0].hash == HashOf(p.env, reqs[0])
  {
    NotYetHeld(p, cfg, before.executed, reqs, n);
    s := Executes(p, cfg, now, before, n, reqs[n]);
    Chained(p, Start(cfg, now), Executions(cfg, reqs, n, now), before, Execution(cfg, reqs[n], n, now), s);
  }

  /** Recording one more than the cache holds displaces the first. */
  lemma FirstIsDisplaced(p: Params, executed: State<Bytes, ()>, first: Bytes, other: Bytes, now: int)
    requires p.replayMax >= 1 && WellFormed(executed, p.replayMax) && |executed.keyList| == p.replayMax
    requires executed.keyList[0] == first && other !in executed.items
    ensures first !in Stored(executed, other, (), p.replayTtl, now, p.replayMax).items
  {
    assert executed.keyList[0] in CacheModel.Keys(executed.keyList);
    CR.StoreDropsIff(executed, other, (), p.replayTtl, now, p.replayMax, first);
  }

  /** A request again, up to the call of the application. */
  function Again(cfg: EnclaveConfig, r: SignedRequest, n: nat, now: int): seq<Act<nat, nat>> {
    [OnHost(Arrival(cfg, r, n, n, now))] + Claiming(n) + [ProbeExecuted(n)]
  }

  lemma AsksAgain(p: Params, cfg: EnclaveConfig, now: int, s: System<nat, nat>, n: nat, r: SignedRequest)
    returns (u: System<nat, nat>)
    requires Idle(s, cfg, now, n) && CanAsk(p, cfg, r) && Lookup(s.executed, HashOf(p.env, r), now).None?
    ensures Path(p, s, Again(cfg, r, n, now), u) && MayAct(u, Act<nat, nat>.Run(n, true), 0) && u.now == now
    ensures |u.host.dispatches| == n + 1 && u.host.dispatches[n].hash == HashOf(p.env, r)
    ensures forall k :: 0 <= k < n ==> u.host.dispatches[k].hash == s.host.dispatches[k].hash
  {
    var arrival := [OnHost(Arrival(cfg, r, n, n, now))];
    var s1 := Arrives(p, cfg, now, s, n, r);
    LoneIsAdmissible(p, cfg, r);
    ClaimsFrom(p, s1, n);
    var t := s1.(inProgress := Stored(Empty(), HashOf(p.env, r), (), p.replayTtl, now, p.replayMax));
    Chained(p, s, arrival, s1, Claiming(n), At(t, n, Claimed));
    Calls(p, t, n);
    u := At(t, n, Cleared);
    Chained(p, s, arrival + Claiming(n), At(t, n, Claimed), [ProbeExecuted(n)], u);
  }

  lemma {:induction false} StartsWithFirst(cfg: EnclaveConfig, reqs: seq<SignedRequest>, n: nat, now: int)
    requires 1 <= n <= |reqs|
    ensures Execution(cfg, reqs[0], 0, now) <= Executions(cfg, reqs, n, now)
  {
    if n > 1 {
      StartsWithFirst(cfg, reqs, n - 1, now);
    }
  }

  /** The run: all requests once, then the first one again. */
  function TwiceRun(cfg: EnclaveConfig, reqs: seq<SignedRequest>, now: int): seq<Act<nat, nat>>
    requires reqs != []
  {
    Executions(cfg, reqs, |reqs|, now) + Again(cfg, reqs[0], |reqs|, now)
  }

  /** All requests executed, the first one no longer on record. */
  lemma Overfills(p: Params, cfg: EnclaveConfig, now: int, reqs: seq<SignedRequest>) returns (s: System<nat, nat>)
    requires p.replayMax >= 1 && |reqs| == p.replayMax + 1 && Asks(p, cfg, reqs) && p.pendingTtl >= 0
    ensures Path(p, Start(cfg, now), Executions(cfg, reqs, |reqs|, now), s) && Idle(s, cfg, now, |reqs|)
    ensures s.host.dispatches[0].hash == HashOf(p.env, reqs[0]) && HashOf(p.env, reqs[0]) !in s.executed.items
  {
    var n := |reqs|;
    var before := ExecutesAll(p, cfg, now, reqs, n - 1);
    s := ExecutesNext(p, cfg, now, reqs, n - 1, before);
    FirstIsDisplaced(p, before.executed, HashOf(p.env, reqs[0]), HashOf(p.env, reqs[n - 1]), now);
  }

  lemma TwicePath(p: Params, cfg: EnclaveConfig, now: int, reqs: seq<SignedRequest>) returns (s: System<nat, nat>)
    requires p.replayMax >= 1 && |reqs| == p.replayMax + 1 && Asks(p, cfg, reqs) && p.pendingTtl >= 0
    ensures Path(p, Start(cfg, now), TwiceRun(cfg, reqs, now), s) && s.now == now
    ensures |s.host.dispatches| == |reqs| + 1 && s.host.dispatches[0].hash == s.host.dispatches[|reqs|].hash
    ensures MayAct(s, Act<nat, nat>.Run(|reqs|, true), 0)
  {
    var n := |reqs|;
    var before := Overfills(p, cfg, now, reqs);
    s := AsksAgain(p, cfg, now, before, n, reqs[0]);
    Chained(p, Start(cfg, now), Executions(cfg, reqs, n, now), before, Again(cfg, reqs[0], n, now), s);
  }

  /**
   For every capacity of the replay cache, given one more request of different hashes than it holds:
   a feasible run, all at one moment, that executes and records the first request as dispatch 0 and
   then comes to call the application for the same hash again, as dispatch `n`.
   */
  lemma ExecutedTwice(p: Params, cfg: EnclaveConfig, now: int, reqs: seq<SignedRequest>) returns (s: System<nat, nat>)
    requires p.replayMax >= 1 && |reqs| == p.replayMax + 1 && Asks(p, cfg, reqs) && p.pendingTtl >= 0
    ensures var acts, n := TwiceRun(cfg, reqs, now), |reqs|;
            && Execution(cfg, reqs[0], 0, now) <= acts
            && Feasible(p, Start(cfg, now), acts, 0) && s == Reached(p, Start(cfg, now), acts, 0) && s.now == now
            && |s.host.dispatches| == n + 1 && s.host.dispatches[0].hash == s.host.dispatches[n].hash
            && MayAct(s, Act<nat, nat>.Run(n, true), 0)
  {
    s := TwicePath(p, cfg, now, reqs);
    var acts := TwiceRun(cfg, reqs, now);
    assert Feasible(p, Start(cfg, now), acts, 0) && s == Reached(p, Start(cfg, now), acts, 0) by {
      PathIsRun(p, Start(cfg, now), [], Start(cfg, now), acts, s);
      assert [] + acts == acts;
    }
    StartsWithFirst(cfg, reqs, |reqs|, now);
  }

  function NumberedRequests(n: nat): (r: seq<SignedRequest>)
    ensures |r| == n && forall i :: 0 <= i < n ==> r[i] == SignedRequest(NumberedRequest(i), SignatureBy(1))
  {
    if n == 0 then [] else NumberedRequests(n - 1) + [SignedRequest(NumberedRequest(n - 1), SignatureBy(1))]
  }

  /** Such requests in the example deployment, for every capacity that fits in 64 bits. */
  lemma RequestsExist(p: Params, n: nat)
    requires p.env == Example() && n <= TWO_64
    ensures Asks(p, TwoSigners(1, 2, 1, 0), NumberedRequests(n))
    ensures forall i :: 0 <= i < n ==> Executable(NumberedRequests(n)[i].request)
  {
    var reqs := NumberedRequests(n);
    forall i | 0 <= i < n ensures CanAsk(p, TwoSigners(1, 2, 1, 0), reqs[i]) && Executable(reqs[i].request) {
      NumberedIsExecutable(i);
      FirstOfTwo(p.env.requestPayload(HashOf(p.env, reqs[i])), 1, 2);
    }
    forall i, j | 0 <= i < j < n ensures HashOf(p.env, reqs[i]) != HashOf(p.env, reqs[j]) {
      NumbersTellApart(i, j);
    }
  }
}
