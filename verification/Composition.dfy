/**
 Host and enclave together. The enclave's `handleExecute` runs once per dispatch, in steps as
 coarse as its critical sections: the check of the in-progress record and the marking are two
 of them, and the mark is removed only after the response has been written.
 */
module System {
  import opened Bytes
  import opened Crypto
  import opened Encoding
  import opened Preimages
  import opened Protocol
  import opened CacheModel
  import opened HostModel

  datatype Phase =
    | Received                                  // the batch has reached the enclave
    | Verified                                  // hash, signature and quorum checks passed
    | Unclaimed                                 // no in-progress record was found
    | Claimed                                   // marked in progress
    | Cleared                                   // no executed record was found
    | Ran(ok: bool)                             // the application was called
    | Recorded                                  // the execution is on record
    | Replied(answer: Answer, marked: bool)     // the response is written; `marked`: the mark is still to be removed

  datatype System<B(==), C(==)> = System(
    host: Host<B, C>,
    handlers: seq<Phase>,                       // one per dispatch
    inProgress: State<Bytes, ()>,
    executed: State<Bytes, ()>,
    config: EnclaveConfig,
    now: int)

  /** The fixed parameters of a deployment. */
  datatype Params = Params(env: Env, bft: bool, pendingTtl: int, replayTtl: int, replayMax: int)

  datatype Act<B(==), C(==)> =
    | OnHost(e: Event<B, C>)
    | Tick(now: int)
    | Reconfigure(c: EnclaveConfig)
    | Check(d: nat)
    | Probe(d: nat)
    | Mark(d: nat)
    | ProbeExecuted(d: nat)
    | Reject(d: nat)
    | Run(d: nat, ok: bool)
    | Record(d: nat)
    | Reply(d: nat, answer: Answer)
    | Unmark(d: nat)
    | CollectInProgress
    | CollectExecuted

  function Start<B, C>(config: EnclaveConfig, now: int): System<B, C> {
    System(NewHost(), [], Empty(), Empty(), config, now)
  }

  /** No batch being processed expires in the pending cache by `now`. */
  predicate NoneExpires<B, C>(s: System<B, C>, now: int) {
    forall i :: 0 <= i < |s.host.dispatches| && !s.host.dispatches[i].completed ==>
      Lookup(s.host.pending, s.host.dispatches[i].hash, now).Some?
  }

  predicate InPhase<B, C>(s: System<B, C>, d: nat, p: Phase) {
    d < |s.handlers| && s.handlers[d] == p
  }

  /**
   When an act may happen. The host completes a dispatch only once the enclave's handler has
   answered it, and then with that answer or with a failure to receive it; the clock does not run
   past the expiry of a batch that is being processed; `F` is `f` in every config the host reads.
   */
  predicate MayAct<B, C>(s: System<B, C>, a: Act<B, C>, f: uint32) {
    match a
    case OnHost(e) =>
      && Enabled(s.host, e)
      && (EventTime(e).Some? ==> EventTime(e).value == s.now)
      && (e.Arrival? ==> e.cfg.F == f)
      && (e.Completion? ==> e.d < |s.handlers| && s.handlers[e.d].Replied?
                            && (e.answer == s.handlers[e.d].answer || e.answer == EnclaveFailed))
    case Tick(now) => s.now <= now && NoneExpires(s, now)
    case Reconfigure(_) => true
    case Check(d) => InPhase(s, d, Received)
    case Probe(d) => InPhase(s, d, Verified)
    case Mark(d) => InPhase(s, d, Unclaimed)
    case ProbeExecuted(d) => InPhase(s, d, Claimed)
    case Reject(d) => InPhase(s, d, Cleared) || InPhase(s, d, Ran(true)) || InPhase(s, d, Ran(false))
    case Run(d, _) => InPhase(s, d, Cleared)
    case Record(d) => InPhase(s, d, Ran(true))
    case Reply(d, answer) => InPhase(s, d, Recorded) && answer.Executed?
    case Unmark(d) => d < |s.handlers| && s.handlers[d].Replied? && s.handlers[d].marked
    case CollectInProgress => true
    case CollectExecuted => true
  }

  function Goto<B, C>(s: System<B, C>, d: nat, p: Phase): System<B, C>
    requires d < |s.handlers|
  {
    s.(handlers := s.handlers[d := p])
  }

  /** New dispatches start a handler. */
  function Extend(handlers: seq<Phase>, n: nat): seq<Phase>
    decreases n - |handlers|
  {
    if |handlers| < n then Extend(handlers + [Received], n) else handlers
  }

  function Do<B, C>(p: Params, s: System<B, C>, a: Act<B, C>, f: uint32): System<B, C>
    requires |s.handlers| == |s.host.dispatches| && MayAct(s, a, f)
  {
    match a
    case OnHost(e) =>
      var host := Next(p.env, s.host, e, p.bft, p.pendingTtl);
      s.(host := host, handlers := Extend(s.handlers, |host.dispatches|))
    case Tick(now) => s.(now := now)
    case Reconfigure(c) => s.(config := c)
    case Check(d) =>
      Goto(s, d, if Admissible(p.env, s.host.dispatches[d].requests, s.config) then Verified
           else Replied(EnclaveFailed, false))
    case Probe(d) =>
      Goto(s, d, if Lookup(s.inProgress, s.host.dispatches[d].hash, s.now).Some? then Replied(EnclaveFailed, false)
           else Unclaimed)
    case Mark(d) =>
      Goto(s.(inProgress := Stored(s.inProgress, s.host.dispatches[d].hash, (), p.replayTtl, s.now, p.replayMax)), d,
           Claimed)
    case ProbeExecuted(d) =>
      Goto(s, d, if Lookup(s.executed, s.host.dispatches[d].hash, s.now).Some? then Replied(EnclaveFailed, true)
           else Cleared)
    case Reject(d) => Goto(s, d, Replied(EnclaveFailed, true))
    case Run(d, ok) => Goto(s, d, Ran(ok))
    case Record(d) =>
      Goto(s.(executed := Stored(s.executed, s.host.dispatches[d].hash, (), p.replayTtl, s.now, p.replayMax)), d,
           Recorded)
    case Reply(d, answer) => Goto(s, d, Replied(answer, true))
    case Unmark(d) =>
      Goto(s.(inProgress := Deleted(s.inProgress, s.host.dispatches[d].hash)), d, s.handlers[d].(marked := false))
    case CollectInProgress => s.(inProgress := Collected(s.inProgress, s.now))
    case CollectExecuted => s.(executed := Collected(s.executed, s.now))
  }

  predicate Feasible<B, C>(p: Params, start: System<B, C>, acts: seq<Act<B, C>>, f: uint32)
    decreases |acts|, 0
  {
    if acts == [] then |start.handlers| == |start.host.dispatches|
    else
      var before := acts[..|acts| - 1];
      && Feasible(p, start, before, f)
      && |Reached(p, start, before, f).handlers| == |Reached(p, start, before, f).host.dispatches|
      && MayAct(Reached(p, start, before, f), acts[|acts| - 1], f)
  }

  function Reached<B, C>(p: Params, start: System<B, C>, acts: seq<Act<B, C>>, f: uint32): System<B, C>
    requires Feasible(p, start, acts, f)
    decreases |acts|, 1
  {
    if acts == [] then start else Do(p, Reached(p, start, acts[..|acts| - 1], f), acts[|acts| - 1], f)
  }
}

/** One handler per hash at a time, and no second run of a recorded execution. */
module Composition {
  import opened Bytes
  import opened Crypto
  import opened Encoding
  import opened Preimages
  import opened Protocol
  import opened CacheModel
  import opened HostModel
  import CR = CacheRuns
  import HI = HostInvariants
  import HQ = HostQuorum
  import opened System

  /** A dispatch that has not completed still holds its batch's live entry in the pending cache. */
  ghost predicate Held<B, C>(h: Host<B, C>, now: int) {
    forall i :: 0 <= i < |h.dispatches| && !h.dispatches[i].completed ==>
      Lookup(h.pending, h.dispatches[i].hash, now) == Some(h.dispatches[i].batch)
  }

  ghost predicate HostInv<B, C>(p: Params, h: Host<B, C>, now: int, f: uint32) {
    && HI.Inv(h) && HQ.QuorumInv(p.env, h, p.bft) && HQ.SingleInv(h, QuorumThreshold(f, p.bft))
    && Held(h, now)
  }

  /** A handler that has found no executed record still has none; a completed dispatch has been answered. */
  ghost predicate HandlersOk<B, C>(s: System<B, C>) {
    && |s.handlers| == |s.host.dispatches|
    && (forall i :: 0 <= i < |s.handlers| && s.handlers[i].Cleared? ==>
          Lookup(s.executed, s.host.dispatches[i].hash, s.now).None?)
    && (forall i :: 0 <= i < |s.handlers| && s.host.dispatches[i].completed ==> s.handlers[i].Replied?)
  }

  ghost predicate Inv<B, C>(p: Params, s: System<B, C>, f: uint32) {
    HostInv(p, s.host, s.now, f) && HandlersOk(s)
  }

  /** Two dispatches in flight are of different hashes. */
  lemma DistinctInFlight<B, C>(p: Params, h: Host<B, C>, now: int, f: uint32, i: nat, j: nat)
    requires HostInv(p, h, now, f)
    requires i < |h.dispatches| && j < |h.dispatches| && i != j
    requires !h.dispatches[i].completed && !h.dispatches[j].completed
    ensures h.dispatches[i].hash != h.dispatches[j].hash
  {
    var a, b := if i < j then i else j, if i < j then j else i;
    assert h.dispatches[a].batch != h.dispatches[b].batch;
    assert Lookup(h.pending, h.dispatches[i].hash, now) == Some(h.dispatches[i].batch);
    assert Lookup(h.pending, h.dispatches[j].hash, now) == Some(h.dispatches[j].batch);
  }

  // --- the host side --------------------------------------------------------------------

  /** Storing a batch under its hash keeps every entry that is held. */
  lemma EnrollKeepsHeld<B, C>(h: Host<B, C>, id: B, br: Batch<C>, ch: C, now: int, ttl: int)
    requires Held(h, now) && ttl >= 0
    requires Lookup(h.pending, br.hash, now).Some? ==> Lookup(h.pending, br.hash, now).value == id
    ensures Held(Enroll(h, id, br, ch, now, ttl), now)
    ensures Lookup(Enroll(h, id, br, ch, now, ttl).pending, br.hash, now) == Some(id)
  {
    var u := Enroll(h, id, br, ch, now, ttl);
    forall i | 0 <= i < |u.dispatches| && !u.dispatches[i].completed
      ensures Lookup(u.pending, u.dispatches[i].hash, now) == Some(u.dispatches[i].batch)
    {
      assert Lookup(h.pending, h.dispatches[i].hash, now) == Some(h.dispatches[i].batch);
    }
  }

  lemma AppendKeepsHeld<B, C>(h: Host<B, C>, d: Dispatch<B>, now: int)
    requires Held(h, now) && Lookup(h.pending, d.hash, now) == Some(d.batch)
    ensures Held(h.(dispatches := h.dispatches + [d]), now)
  {
  }

  lemma ArriveKeepsHeld<B, C>(p: Params, h: Host<B, C>, cfg: EnclaveConfig, req: SignedRequest, ch: C, newId: B,
                              now: int)
    requires HI.Inv(h) && HQ.QuorumInv(p.env, h, p.bft) && Held(h, now) && newId !in h.batches && p.pendingTtl >= 0
    ensures Held(Arrive(p.env, h, cfg, p.bft, req, ch, newId, now, p.pendingTtl).0, now)
  {
    if Screen(p.env, h, cfg, req, now).None? {
      var hash := HashOf(p.env, req);
      HQ.JoinedFacts(p.env, h, hash, now, newId, p.bft);
      JoinKeepsHeld(h, cfg, p.bft, req, hash, RequestSigner(p.env, req, cfg.signers).value, ch, newId, now,
                    p.pendingTtl);
    }
  }

  lemma JoinKeepsHeld<B, C>(h: Host<B, C>, cfg: EnclaveConfig, bft: bool, req: SignedRequest, hash: Bytes,
                            signer: Bytes, ch: C, newId: B, now: int, ttl: int)
    requires Held(h, now) && ttl >= 0 && JoinedBatch(h, hash, now).hash == hash
    ensures Held(Join(h, cfg, bft, req, hash, signer, ch, newId, now, ttl).0, now)
  {
    var id, br := Joined(h, hash, now, newId), JoinedBatch(h, hash, now);
    if signer in br.signersSeen {
      EnrollKeepsHeld(h, id, Subscribe(br, ch), ch, now, ttl);
    } else {
      var threshold := QuorumThreshold(cfg.F, bft);
      var br' := Contribute(br, req, signer, cfg, ch, threshold);
      EnrollKeepsHeld(h, id, br', ch, now, ttl);
      if |br'.requests| == threshold {
        AppendKeepsHeld(Enroll(h, id, br', ch, now, ttl),
                        Dispatch(hash, br'.requests, false, id, br'.signers, br'.configs), now);
      }
    }
  }

  /** A completion keeps the pending cache or takes its own hash out of it. */
  lemma CompleteFrame<B, C>(h: Host<B, C>, d: nat, a: Answer, now: int, ttl: int)
    requires d < |h.dispatches|
    ensures var u := Complete(h, d, a, now, ttl);
            && (u.pending == h.pending || u.pending == Deleted(h.pending, h.dispatches[d].hash))
            && u.dispatches == h.dispatches[d := h.dispatches[d].(completed := true)]
  {
  }

  /** Taking out the hash of a dispatch that is now completed leaves the other dispatches their entries. */
  lemma HeldWithoutOne<B, C>(h: Host<B, C>, u: Host<B, C>, d: nat, now: int)
    requires Held(h, now) && d < |h.dispatches|
    requires u.dispatches == h.dispatches[d := h.dispatches[d].(completed := true)]
    requires u.pending == h.pending || u.pending == Deleted(h.pending, h.dispatches[d].hash)
    requires forall i :: 0 <= i < |h.dispatches| && i != d && !h.dispatches[i].completed ==>
               h.dispatches[i].hash != h.dispatches[d].hash
    ensures Held(u, now)
  {
    forall i | 0 <= i < |u.dispatches| && !u.dispatches[i].completed
      ensures Lookup(u.pending, u.dispatches[i].hash, now) == Some(u.dispatches[i].batch)
    {
      assert Lookup(h.pending, h.dispatches[i].hash, now) == Some(h.dispatches[i].batch);
    }
  }

  lemma CompleteKeepsHeld<B, C>(p: Params, h: Host<B, C>, d: nat, a: Answer, now: int, f: uint32)
    requires HostInv(p, h, now, f) && d < |h.dispatches| && !h.dispatches[d].completed
    ensures Held(Complete(h, d, a, now, p.pendingTtl), now)
  {
    forall i | 0 <= i < |h.dispatches| && i != d && !h.dispatches[i].completed
      ensures h.dispatches[i].hash != h.dispatches[d].hash
    {
      DistinctInFlight(p, h, now, f, i, d);
    }
    CompleteFrame(h, d, a, now, p.pendingTtl);
    HeldWithoutOne(h, Complete(h, d, a, now, p.pendingTtl), d, now);
  }

  /** A timer changes nothing, or takes out the hash of a batch that is not processing. */
  lemma FailFrame<B, C>(h: Host<B, C>, hash: Bytes, tf: uint32, bft: bool, sd: bool, now: int)
    ensures var r := Fail(h, hash, tf, bft, sd, now);
            && r.0.dispatches == h.dispatches
            && (!r.1 ==> r.0.pending == h.pending)
            && (r.1 ==> r.0.pending == Deleted(h.pending, hash)
                        && Lookup(h.pending, hash, now).Some? && Lookup(h.pending, hash, now).value in h.batches
                        && !h.batches[Lookup(h.pending, hash, now).value].processing)
  {
  }

  lemma FailKeepsHeld<B, C>(p: Params, h: Host<B, C>, hash: Bytes, tf: uint32, sd: bool, now: int)
    requires HQ.QuorumInv(p.env, h, p.bft) && Held(h, now)
    ensures Held(Fail(h, hash, tf, p.bft, sd, now).0, now)
  {
    FailFrame(h, hash, tf, p.bft, sd, now);
    var u := Fail(h, hash, tf, p.bft, sd, now).0;
    forall i | 0 <= i < |u.dispatches| && !u.dispatches[i].completed
      ensures Lookup(u.pending, u.dispatches[i].hash, now) == Some(u.dispatches[i].batch)
    {
      assert Lookup(h.pending, h.dispatches[i].hash, now) == Some(h.dispatches[i].batch);
      assert HQ.DispatchOk(p.env, h, h.dispatches[i], p.bft);
    }
  }

  lemma HostEventKeepsHeld<B, C>(p: Params, h: Host<B, C>, e: Event<B, C>, now: int, f: uint32)
    requires HostInv(p, h, now, f) && Enabled(h, e) && p.pendingTtl >= 0
    requires EventTime(e).Some? ==> EventTime(e).value == now
    ensures Held(Next(p.env, h, e, p.bft, p.pendingTtl), now)
  {
    match e
    case Arrival(cfg, req, ch, newId, _) => ArriveKeepsHeld(p, h, cfg, req, ch, newId, now);
    case Completion(d, a, _) => CompleteKeepsHeld(p, h, d, a, now, f);
    case Timer(hash, tf, sd, _) => FailKeepsHeld(p, h, hash, tf, sd, now);
    case CollectPending(_) => CollectKeepsHeld(h, now);
    case CollectResponses(_) =>
    case Receive(_) =>
  }

  lemma CollectKeepsHeld<B, C>(h: Host<B, C>, now: int)
    requires Held(h, now)
    ensures Held(h.(pending := Collected(h.pending, now)), now)
  {
    var u := h.(pending := Collected(h.pending, now));
    forall i | 0 <= i < |u.dispatches| && !u.dispatches[i].completed
      ensures Lookup(u.pending, u.dispatches[i].hash, now) == Some(u.dispatches[i].batch)
    {
      assert Lookup(h.pending, h.dispatches[i].hash, now) == Some(h.dispatches[i].batch);
    }
  }

  lemma HostEventKeepsHostInv<B, C>(p: Params, h: Host<B, C>, e: Event<B, C>, now: int, f: uint32)
    requires HostInv(p, h, now, f) && Enabled(h, e) && p.pendingTtl >= 0
    requires EventTime(e).Some? ==> EventTime(e).value == now
    requires e.Arrival? ==> e.cfg.F == f
    ensures HostInv(p, Next(p.env, h, e, p.bft, p.pendingTtl), now, f)
  {
    var u := Next(p.env, h, e, p.bft, p.pendingTtl);
    assert HI.Inv(u) by { HI.NextKeepsInv(p.env, h, e, p.bft, p.pendingTtl); }
    assert HQ.QuorumInv(p.env, u, p.bft) by { HQ.NextKeepsQuorumInv(p.env, h, e, p.bft, p.pendingTtl); }
    assert HQ.SingleInv(u, QuorumThreshold(f, p.bft)) by { HQ.NextKeepsSingle(p.env, h, e, p.bft, p.pendingTtl, f); }
    assert Held(u, now) by { HostEventKeepsHeld(p, h, e, now, f); }
  }

  // --- the enclave side -----------------------------------------------------------------

  lemma {:induction false} ExtendAppends(handlers: seq<Phase>, n: nat)
    requires |handlers| <= n
    ensures |Extend(handlers, n)| == n && handlers <= Extend(handlers, n)
    ensures forall i :: |handlers| <= i < n ==> Extend(handlers, n)[i] == Received
    decreases n - |handlers|
  {
    if |handlers| < n {
      ExtendAppends(handlers + [Received], n);
    }
  }

  /** What a host event does to the list of dispatches. */
  lemma HostEventExtendsDispatches<B, C>(p: Params, h: Host<B, C>, e: Event<B, C>)
    requires Enabled(h, e)
    ensures var u := Next(p.env, h, e, p.bft, p.pendingTtl);
            && |h.dispatches| <= |u.dispatches|
            && (forall i :: 0 <= i < |h.dispatches| ==>
                  u.dispatches[i].hash == h.dispatches[i].hash
                  && (u.dispatches[i].completed ==> h.dispatches[i].completed || (e.Completion? && e.d == i)))
            && (forall i :: |h.dispatches| <= i < |u.dispatches| ==> !u.dispatches[i].completed)
  {
  }

  lemma HostActKeepsHandlers<B, C>(p: Params, s: System<B, C>, e: Event<B, C>, f: uint32)
    requires HandlersOk(s) && MayAct(s, OnHost(e), f)
    ensures HandlersOk(Do(p, s, OnHost(e), f))
  {
    HostEventExtendsDispatches(p, s.host, e);
    var u := Do(p, s, OnHost(e), f);
    ExtendAppends(s.handlers, |u.host.dispatches|);
    forall i | 0 <= i < |u.handlers| && u.handlers[i].Cleared?
      ensures Lookup(u.executed, u.host.dispatches[i].hash, u.now).None?
    {
      assert i < |s.handlers| && s.handlers[i].Cleared?;
    }
  }

  lemma HostActKeepsInv<B, C>(p: Params, s: System<B, C>, e: Event<B, C>, f: uint32)
    requires Inv(p, s, f) && MayAct(s, OnHost(e), f) && p.pendingTtl >= 0
    ensures Inv(p, Do(p, s, OnHost(e), f), f)
  {
    var u := Do(p, s, OnHost(e), f);
    assert HostInv(p, u.host, u.now, f) by { HostEventKeepsHostInv(p, s.host, e, s.now, f); }
    HostActKeepsHandlers(p, s, e, f);
  }

  /** Recording one hash, or evicting others to make room, leaves every other hash without a record if it had none. */
  lemma RecordKeepsOthersAbsent(executed: State<Bytes, ()>, hash: Bytes, other: Bytes, ttl: int, now: int, max: int)
    requires hash != other && Lookup(executed, other, now).None?
    ensures Lookup(Stored(executed, hash, (), ttl, now, max), other, now).None?
  {
  }

  lemma RecordKeepsHandlers<B, C>(p: Params, s: System<B, C>, d: nat, f: uint32)
    requires Inv(p, s, f) && MayAct(s, Act<B, C>.Record(d), f)
    ensures HandlersOk(Do(p, s, Act<B, C>.Record(d), f))
  {
    var u := Do(p, s, Act<B, C>.Record(d), f);
    forall i | 0 <= i < |u.handlers| && u.handlers[i].Cleared?
      ensures Lookup(u.executed, u.host.dispatches[i].hash, u.now).None?
    {
      DistinctInFlight(p, s.host, s.now, f, i, d);
      RecordKeepsOthersAbsent(s.executed, s.host.dispatches[d].hash, s.host.dispatches[i].hash, p.replayTtl, s.now,
                              p.replayMax);
    }
  }

  lemma TickKeepsHeld<B, C>(s: System<B, C>, now: int, f: uint32)
    requires Held(s.host, s.now) && MayAct(s, Act<B, C>.Tick(now), f)
    ensures Held(s.host, now)
  {
    forall i | 0 <= i < |s.host.dispatches| && !s.host.dispatches[i].completed
      ensures Lookup(s.host.pending, s.host.dispatches[i].hash, now) == Some(s.host.dispatches[i].batch)
    {
      assert Lookup(s.host.pending, s.host.dispatches[i].hash, s.now) == Some(s.host.dispatches[i].batch);
    }
  }

  /** Acts of the enclave and of the clock, other than recording. */
  lemma OthersKeepHandlers<B, C>(p: Params, s: System<B, C>, a: Act<B, C>, f: uint32)
    requires HandlersOk(s) && MayAct(s, a, f) && !a.OnHost? && !a.Record?
    ensures HandlersOk(Do(p, s, a, f))
  {
    var u := Do(p, s, a, f);
    forall i | 0 <= i < |u.handlers| && u.handlers[i].Cleared?
      ensures Lookup(u.executed, u.host.dispatches[i].hash, u.now).None?
    {
      if s.handlers[i].Cleared? {
        assert Lookup(s.executed, s.host.dispatches[i].hash, s.now).None?;
      }
    }
  }

  lemma DoKeepsInv<B, C>(p: Params, s: System<B, C>, a: Act<B, C>, f: uint32)
    requires Inv(p, s, f) && MayAct(s, a, f) && p.pendingTtl >= 0
    ensures Inv(p, Do(p, s, a, f), f)
  {
    if a.OnHost? {
      HostActKeepsInv(p, s, a.e, f);
    } else {
      if a.Tick? {
        TickKeepsHeld(s, a.now, f);
      }
      if a.Record? {
        RecordKeepsHandlers(p, s, a.d, f);
      } else {
        OthersKeepHandlers(p, s, a, f);
      }
    }
  }

  lemma {:induction false} RunKeepsInv<B, C>(p: Params, config: EnclaveConfig, now: int, acts: seq<Act<B, C>>,
                                             f: uint32)
    requires Feasible(p, Start<B, C>(config, now), acts, f) && p.pendingTtl >= 0
    ensures Inv(p, Reached(p, Start<B, C>(config, now), acts, f), f)
  {
    if acts != [] {
      var before := acts[..|acts| - 1];
      RunKeepsInv(p, config, now, before, f);
      DoKeepsInv(p, Reached(p, Start<B, C>(config, now), before, f), acts[|acts| - 1], f);
    }
  }

  /** In every run at most one dispatch of a hash is in flight. */
  lemma OneDispatchInFlight<B, C>(p: Params, config: EnclaveConfig, now: int, acts: seq<Act<B, C>>, f: uint32, i: nat,
                                  j: nat)
    requires Feasible(p, Start<B, C>(config, now), acts, f) && p.pendingTtl >= 0
    requires var h := Reached(p, Start<B, C>(config, now), acts, f).host;
             && i < |h.dispatches| && j < |h.dispatches| && i != j
             && !h.dispatches[i].completed && !h.dispatches[j].completed
    ensures var h := Reached(p, Start<B, C>(config, now), acts, f).host;
            h.dispatches[i].hash != h.dispatches[j].hash
  {
    RunKeepsInv(p, config, now, acts, f);
    var s := Reached(p, Start<B, C>(config, now), acts, f);
    DistinctInFlight(p, s.host, s.now, f, i, j);
  }

  /** In every run, whenever the application is called for a hash, that hash has no live executed record. */
  lemma NeverRunsARecordedHash<B, C>(p: Params, config: EnclaveConfig, now: int, acts: seq<Act<B, C>>, f: uint32,
                                     d: nat, ok: bool)
    requires Feasible(p, Start<B, C>(config, now), acts, f) && p.pendingTtl >= 0
    requires MayAct(Reached(p, Start<B, C>(config, now), acts, f), Act<B, C>.Run(d, ok), f)
    ensures var s := Reached(p, Start<B, C>(config, now), acts, f);
            d < |s.host.dispatches| && Lookup(s.executed, s.host.dispatches[d].hash, s.now).None?
  {
    RunKeepsInv(p, config, now, acts, f);
  }

  /** In every run, two handlers that have not replied yet are of different hashes. */
  lemma OneHandlerPerHash<B, C>(p: Params, config: EnclaveConfig, now: int, acts: seq<Act<B, C>>, f: uint32, i: nat,
                                j: nat)
    requires Feasible(p, Start<B, C>(config, now), acts, f) && p.pendingTtl >= 0
    requires var s := Reached(p, Start<B, C>(config, now), acts, f);
             i < |s.handlers| && j < |s.handlers| && i != j && !s.handlers[i].Replied? && !s.handlers[j].Replied?
    ensures var s := Reached(p, Start<B, C>(config, now), acts, f);
            && i < |s.host.dispatches| && j < |s.host.dispatches|
            && s.host.dispatches[i].hash != s.host.dispatches[j].hash
  {
    RunKeepsInv(p, config, now, acts, f);
    var s := Reached(p, Start<B, C>(config, now), acts, f);
    DistinctInFlight(p, s.host, s.now, f, i, j);
  }

  // --- no second execution within the lifetime of a record --------------------------------

  lemma {:induction false} PrefixFeasible<B, C>(p: Params, start: System<B, C>, acts: seq<Act<B, C>>, i: nat, f: uint32)
    requires Feasible(p, start, acts, f) && i <= |acts|
    ensures Feasible(p, start, acts[..i], f)
    decreases |acts|
  {
    if i < |acts| {
      PrefixFeasible(p, start, acts[..|acts| - 1], i, f);
      assert acts[..|acts| - 1][..i] == acts[..i];
    } else {
      assert acts[..i] == acts;
    }
  }

  /** What an act does to the executed record, as an event of its cache. */
  function RecordEvent<B, C>(p: Params, s: System<B, C>, a: Act<B, C>, f: uint32): Option<CR.Event<Bytes, ()>>
    requires |s.handlers| == |s.host.dispatches| && MayAct(s, a, f)
  {
    match a
    case Record(d) => Some(CR.Event(s.now, CR.Set(s.host.dispatches[d].hash, (), p.replayTtl)))
    case CollectExecuted => Some(CR.Event(s.now, CR.Collect))
    case _ => None
  }

  /** The executed record with the insertion number of each hash. */
  function RecordTrace<B, C>(p: Params, start: System<B, C>, acts: seq<Act<B, C>>, f: uint32): CR.Traced<Bytes, ()>
    requires Feasible(p, start, acts, f)
    decreases |acts|
  {
    if acts == [] then CR.Traced(start.executed, map[], 0)
    else
      var before := acts[..|acts| - 1];
      Traced(p, RecordTrace(p, start, before, f), RecordEvent(p, Reached(p, start, before, f), acts[|acts| - 1], f))
  }

  function Traced(p: Params, t: CR.Traced<Bytes, ()>, e: Option<CR.Event<Bytes, ()>>): CR.Traced<Bytes, ()> {
    if e.None? then t else CR.TracedNext(t, e.value, p.replayMax)
  }

  lemma TraceStep<B, C>(p: Params, s: System<B, C>, a: Act<B, C>, f: uint32, t: CR.Traced<Bytes, ()>)
    requires |s.handlers| == |s.host.dispatches| && MayAct(s, a, f)
    requires t.cache == s.executed && CR.TracedInv(t, p.replayMax)
    ensures var u := Traced(p, t, RecordEvent(p, s, a, f));
            u.cache == Do(p, s, a, f).executed && CR.TracedInv(u, p.replayMax)
  {
    var e := RecordEvent(p, s, a, f);
    if e.Some? {
      CR.TracedNextInv(t, e.value, p.replayMax);
    }
  }

  lemma {:induction false} TraceIsExecuted<B, C>(p: Params, config: EnclaveConfig, now: int, acts: seq<Act<B, C>>,
                                                 f: uint32)
    requires Feasible(p, Start<B, C>(config, now), acts, f)
    ensures var t := RecordTrace(p, Start<B, C>(config, now), acts, f);
            t.cache == Reached(p, Start<B, C>(config, now), acts, f).executed && CR.TracedInv(t, p.replayMax)
  {
    if acts != [] {
      var before := acts[..|acts| - 1];
      TraceIsExecuted(p, config, now, before, f);
      TraceStep(p, Reached(p, Start<B, C>(config, now), before, f), acts[|acts| - 1], f,
                RecordTrace(p, Start<B, C>(config, now), before, f));
    }
  }

  /** The record of `hash` made at `t` or later is there, or its time is over. */
  predicate RecordHolds(executed: State<Bytes, ()>, hash: Bytes, t: int, ttl: int, now: int) {
    now > t + ttl || (hash in executed.items && executed.items[hash].created >= t && executed.items[hash].ttl == ttl)
  }

  lemma CollectKeepsRecord(executed: State<Bytes, ()>, hash: Bytes, t: int, ttl: int, now: int, max: int)
    requires WellFormed(executed, max) && RecordHolds(executed, hash, t, ttl, now)
    ensures RecordHolds(Collected(executed, now), hash, t, ttl, now)
  {
    CollectedWellFormed(executed, now, max);
  }

  /** A record keeps, or so many hashes were inserted after its own that it may have been pushed out. */
  predicate HoldsUnlessCrowded(t: CR.Traced<Bytes, ()>, hash: Bytes, since: int, p: Params, now: int) {
    RecordHolds(t.cache, hash, since, p.replayTtl, now) || CR.Crowded(t, hash, p.replayMax)
  }

  lemma StoreMakesRecord(p: Params, t: CR.Traced<Bytes, ()>, hash: Bytes, since: int, now: int)
    requires CR.TracedInv(t, p.replayMax) && since <= now
    ensures HoldsUnlessCrowded(CR.TracedNext(t, CR.Event(now, CR.Set(hash, (), p.replayTtl)), p.replayMax), hash,
                               since, p, now)
  {
    CR.TracedStore(t, CR.Event(now, CR.Set(hash, (), p.replayTtl)), p.replayMax);
    StoredWellFormed(t.cache, hash, (), p.replayTtl, now, p.replayMax);
  }

  lemma StoreKeepsRecord(p: Params, t: CR.Traced<Bytes, ()>, hash: Bytes, other: Bytes, since: int, now: int)
    requires CR.TracedInv(t, p.replayMax) && hash != other && HoldsUnlessCrowded(t, hash, since, p, now)
    ensures HoldsUnlessCrowded(CR.TracedNext(t, CR.Event(now, CR.Set(other, (), p.replayTtl)), p.replayMax), hash,
                               since, p, now)
  {
    var e := CR.Event(now, CR.Set(other, (), p.replayTtl));
    if CR.Crowded(t, hash, p.replayMax) {
      CR.StaysCrowded(t, e, p.replayMax, hash);
    } else if now <= since + p.replayTtl {
      CR.StoreKeepsUnlessCrowded(t, e, p.replayMax, hash);
      if hash in CR.TracedNext(t, e, p.replayMax).cache.items {
        CR.TracedStore(t, e, p.replayMax);
        StoreKeepsItem(t.cache, hash, other, p.replayTtl, now, p.replayMax);
      }
    }
  }

  lemma StoreKeepsItem(executed: State<Bytes, ()>, hash: Bytes, other: Bytes, ttl: int, now: int, max: int)
    requires hash != other && hash in executed.items && hash in Stored(executed, other, (), ttl, now, max).items
    ensures Stored(executed, other, (), ttl, now, max).items[hash] == executed.items[hash]
  {
  }

  lemma EventKeepsRecord(p: Params, t: CR.Traced<Bytes, ()>, e: CR.Event<Bytes, ()>, hash: Bytes, since: int)
    requires CR.TracedInv(t, p.replayMax) && since <= e.now && HoldsUnlessCrowded(t, hash, since, p, e.now)
    requires e.action.Collect? || (e.action.Set? && e.action.ttl == p.replayTtl)
    ensures HoldsUnlessCrowded(CR.TracedNext(t, e, p.replayMax), hash, since, p, e.now)
  {
    if e.action.Collect? {
      if RecordHolds(t.cache, hash, since, p.replayTtl, e.now) {
        CollectKeepsRecord(t.cache, hash, since, p.replayTtl, e.now, p.replayMax);
      }
    } else if hash == e.action.key {
      StoreMakesRecord(p, t, hash, since, e.now);
    } else {
      StoreKeepsRecord(p, t, hash, e.action.key, since, e.now);
    }
  }

  lemma ActAdvances<B, C>(p: Params, s: System<B, C>, a: Act<B, C>, f: uint32)
    requires |s.handlers| == |s.host.dispatches| && MayAct(s, a, f)
    ensures s.now <= Do(p, s, a, f).now
    ensures RecordEvent(p, s, a, f).Some? ==> Do(p, s, a, f).now == s.now
  {
  }

  /** From the act that records a hash on, in every run. */
  lemma {:induction false} RecordLasts<B, C>(p: Params, config: EnclaveConfig, now: int, acts: seq<Act<B, C>>,
                                             f: uint32, i: nat)
    requires Feasible(p, Start<B, C>(config, now), acts, f) && i < |acts| && acts[i].Record?
    ensures Feasible(p, Start<B, C>(config, now), acts[..i], f)
    ensures var s := Reached(p, Start<B, C>(config, now), acts[..i], f);
            var u := Reached(p, Start<B, C>(config, now), acts, f);
            && acts[i].d < |s.host.dispatches| && s.now <= u.now
            && HoldsUnlessCrowded(RecordTrace(p, Start<B, C>(config, now), acts, f), s.host.dispatches[acts[i].d].hash,
                                  s.now, p, u.now)
    decreases |acts|
  {
    var start := Start<B, C>(config, now);
    var before, a := acts[..|acts| - 1], acts[|acts| - 1];
    PrefixFeasible(p, start, acts, i, f);
    TraceIsExecuted(p, config, now, before, f);
    var v, t := Reached(p, start, before, f), RecordTrace(p, start, before, f);
    ActAdvances(p, v, a, f);
    if i == |acts| - 1 {
      StoreMakesRecord(p, t, v.host.dispatches[a.d].hash, v.now, v.now);
    } else {
      RecordLasts(p, config, now, before, f, i);
      assert before[..i] == acts[..i];
      var s := Reached(p, start, acts[..i], f);
      var e := RecordEvent(p, v, a, f);
      if e.Some? {
        EventKeepsRecord(p, t, e.value, s.host.dispatches[acts[i].d].hash, s.now);
      }
    }
  }

  /**
   Once an execution of a hash is on record, the application is not called for that hash again until
   the record's lifetime is over, in every run in which fewer than `max - max/10` hashes were recorded
   for the first time since this one was last entered.
   */
  lemma NoRepeatWithinLifetime<B, C>(p: Params, config: EnclaveConfig, now: int, acts: seq<Act<B, C>>, f: uint32,
                                     i: nat, d: nat, ok: bool)
    requires Feasible(p, Start<B, C>(config, now), acts, f) && p.pendingTtl >= 0
    requires i < |acts| && acts[i].Record?
    requires MayAct(Reached(p, Start<B, C>(config, now), acts, f), Act<B, C>.Run(d, ok), f)
    ensures Feasible(p, Start<B, C>(config, now), acts[..i], f)
    ensures var s := Reached(p, Start<B, C>(config, now), acts[..i], f);
            var u := Reached(p, Start<B, C>(config, now), acts, f);
            && acts[i].d < |s.host.dispatches| && d < |u.host.dispatches|
            && (u.host.dispatches[d].hash == s.host.dispatches[acts[i].d].hash ==>
                  || u.now > s.now + p.replayTtl
                  || CR.Crowded(RecordTrace(p, Start<B, C>(config, now), acts, f), u.host.dispatches[d].hash,
                                p.replayMax))
  {
    NeverRunsARecordedHash(p, config, now, acts, f, d, ok);
    RecordLasts(p, config, now, acts, f, i);
    TraceIsExecuted(p, config, now, acts, f);
  }
}
