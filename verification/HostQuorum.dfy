/** What every batch and every dispatch holds, and when a batch is dispatched. */
module HostQuorum {
  import opened Bytes
  import opened Crypto
  import opened Encoding
  import opened Preimages
  import opened Protocol
  import opened CacheModel
  import opened HostModel
  import opened HostInvariants
  import HostFate

  /** One request per signer seen, each of the batch's hash and signed under the config it was checked under. */
  predicate Gathered(env: Env, hash: Bytes, requests: seq<SignedRequest>, signers: seq<Bytes>,
                     configs: seq<EnclaveConfig>)
  {
    && |requests| == |signers| == |configs|
    && NoDup(signers)
    && forall i :: 0 <= i < |requests| ==>
         HashOf(env, requests[i]) == hash && RequestSigner(env, requests[i], configs[i].signers) == Some(signers[i])
  }

  ghost predicate BatchOk<C>(env: Env, br: Batch<C>) {
    && Gathered(env, br.hash, br.requests, br.signers, br.configs)
    && br.signersSeen == set k | k in br.signers
  }

  /** A dispatch is the state of its batch when the threshold was reached, under the config of the last arrival. */
  ghost predicate DispatchOk<B, C>(env: Env, h: Host<B, C>, d: Dispatch<B>, bft: bool) {
    && d.batch in h.batches
    && h.batches[d.batch].processing
    && d.hash == h.batches[d.batch].hash
    && d.requests <= h.batches[d.batch].requests
    && Gathered(env, d.hash, d.requests, d.signers, d.configs)
    && d.requests != []
    && |d.requests| == QuorumThreshold(d.configs[|d.configs| - 1].F, bft)
  }

  ghost predicate QuorumInv<B, C>(env: Env, h: Host<B, C>, bft: bool) {
    && (forall id :: id in h.batches ==> BatchOk(env, h.batches[id]))
    && (forall i :: 0 <= i < |h.dispatches| ==> DispatchOk(env, h, h.dispatches[i], bft))
  }

  lemma ContributeBatchOk<C>(env: Env, br: Batch<C>, req: SignedRequest, signer: Bytes, cfg: EnclaveConfig, ch: C,
                             threshold: nat)
    requires BatchOk(env, br) && signer !in br.signersSeen
    requires HashOf(env, req) == br.hash && RequestSigner(env, req, cfg.signers) == Some(signer)
    ensures BatchOk(env, Contribute(br, req, signer, cfg, ch, threshold))
  {
    var r := Contribute(br, req, signer, cfg, ch, threshold);
    assert signer !in br.signers;
    assert r.signersSeen == set k | k in r.signers;
  }

  /** The batch has not lost a request, nor stopped processing. */
  ghost predicate Grown<C>(a: Batch<C>, b: Batch<C>) {
    a.hash == b.hash && a.requests <= b.requests && (a.processing ==> b.processing)
  }

  ghost predicate BatchesGrow<B, C>(h: Host<B, C>, u: Host<B, C>) {
    forall id :: id in h.batches ==> id in u.batches && Grown(h.batches[id], u.batches[id])
  }

  lemma DispatchStays<B, C>(env: Env, h: Host<B, C>, u: Host<B, C>, d: Dispatch<B>, completed: bool, bft: bool)
    requires BatchesGrow(h, u) && DispatchOk(env, h, d, bft)
    ensures DispatchOk(env, u, d.(completed := completed), bft)
  {
    assert Grown(h.batches[d.batch], u.batches[d.batch]);
  }

  lemma EnrollKeepsQuorumInv<B, C>(env: Env, h: Host<B, C>, id: B, br: Batch<C>, ch: C, now: int, ttl: int, bft: bool)
    requires QuorumInv(env, h, bft) && BatchOk(env, br)
    requires id in h.batches ==> Grown(h.batches[id], br)
    ensures QuorumInv(env, Enroll(h, id, br, ch, now, ttl), bft)
  {
    var u := Enroll(h, id, br, ch, now, ttl);
    assert BatchesGrow(h, u);
    forall i | 0 <= i < |u.dispatches| ensures DispatchOk(env, u, u.dispatches[i], bft) {
      DispatchStays(env, h, u, h.dispatches[i], h.dispatches[i].completed, bft);
    }
  }

  lemma AppendKeepsQuorumInv<B, C>(env: Env, h: Host<B, C>, d: Dispatch<B>, bft: bool)
    requires QuorumInv(env, h, bft) && DispatchOk(env, h, d, bft)
    ensures QuorumInv(env, h.(dispatches := h.dispatches + [d]), bft)
  {
    var u := h.(dispatches := h.dispatches + [d]);
    forall i | 0 <= i < |u.dispatches| ensures DispatchOk(env, u, u.dispatches[i], bft) {
      var was := if i < |h.dispatches| then h.dispatches[i] else d;
      DispatchStays(env, h, u, was, was.completed, bft);
    }
  }

  /** What an arrival joins: the pending batch of its hash, or an empty new one. */
  lemma JoinedFacts<B, C>(env: Env, h: Host<B, C>, hash: Bytes, now: int, newId: B, bft: bool)
    requires Inv(h) && QuorumInv(env, h, bft) && newId !in h.batches
    ensures var id, was := Joined(h, hash, now, newId), JoinedBatch(h, hash, now);
            && was.hash == hash && BatchOk(env, was) && !was.answered
            && (id in h.batches ==> was == h.batches[id])
            && (id !in h.batches ==> id == newId && was == NewBatch(hash, now))
  {
  }

  lemma ArriveKeepsQuorumInv<B, C>(env: Env, h: Host<B, C>, cfg: EnclaveConfig, bft: bool, req: SignedRequest, ch: C,
                                   newId: B, now: int, ttl: int)
    requires Inv(h) && QuorumInv(env, h, bft) && newId !in h.batches
    ensures QuorumInv(env, Arrive(env, h, cfg, bft, req, ch, newId, now, ttl).0, bft)
  {
    var r := Arrive(env, h, cfg, bft, req, ch, newId, now, ttl);
    if r.1.Waiting? {
      var hash := HashOf(env, req);
      var signer := RequestSigner(env, req, cfg.signers).value;
      var id, was := Joined(h, hash, now, newId), JoinedBatch(h, hash, now);
      JoinedFacts(env, h, hash, now, newId, bft);
      if signer in was.signersSeen {
        EnrollKeepsQuorumInv(env, h, id, Subscribe(was, ch), ch, now, ttl, bft);
      } else {
        ContributionKeepsQuorumInv(env, h, id, was, req, signer, cfg, ch, now, ttl, bft);
      }
    }
  }

  lemma ContributionKeepsQuorumInv<B, C>(env: Env, h: Host<B, C>, id: B, was: Batch<C>, req: SignedRequest,
                                         signer: Bytes, cfg: EnclaveConfig, ch: C, now: int, ttl: int, bft: bool)
    requires QuorumInv(env, h, bft) && BatchOk(env, was) && signer !in was.signersSeen
    requires id in h.batches ==> was == h.batches[id]
    requires HashOf(env, req) == was.hash && RequestSigner(env, req, cfg.signers) == Some(signer)
    ensures var br := Contribute(was, req, signer, cfg, ch, QuorumThreshold(cfg.F, bft));
            var u := Enroll(h, id, br, ch, now, ttl);
            && QuorumInv(env, u, bft)
            && (|br.requests| == QuorumThreshold(cfg.F, bft) ==>
                  var d := Dispatch(was.hash, br.requests, false, id, br.signers, br.configs);
                  QuorumInv(env, u.(dispatches := u.dispatches + [d]), bft))
  {
    var br := Contribute(was, req, signer, cfg, ch, QuorumThreshold(cfg.F, bft));
    ContributeBatchOk(env, was, req, signer, cfg, ch, QuorumThreshold(cfg.F, bft));
    EnrollKeepsQuorumInv(env, h, id, br, ch, now, ttl, bft);
    if |br.requests| == QuorumThreshold(cfg.F, bft) {
      AppendKeepsQuorumInv(env, Enroll(h, id, br, ch, now, ttl),
                           Dispatch(was.hash, br.requests, false, id, br.signers, br.configs), bft);
    }
  }

  /** Settling changes no batch beyond marking it answered or done. */
  lemma SettleKeepsBatches<B, C>(env: Env, h: Host<B, C>, id: B, hash: Bytes, a: Answer, done: bool, bft: bool)
    requires QuorumInv(env, h, bft) && id in h.batches
    ensures QuorumInv(env, Settle(h, id, hash, a, done), bft)
  {
    var u := Settle(h, id, hash, a, done);
    assert BatchesGrow(h, u);
    assert BatchOk(env, h.batches[id]);
    forall i | 0 <= i < |u.dispatches| ensures DispatchOk(env, u, u.dispatches[i], bft) {
      DispatchStays(env, h, u, h.dispatches[i], h.dispatches[i].completed, bft);
    }
  }

  lemma CompleteKeepsQuorumInv<B, C>(env: Env, h: Host<B, C>, d: nat, a: Answer, now: int, ttl: int, bft: bool)
    requires QuorumInv(env, h, bft) && d < |h.dispatches|
    ensures QuorumInv(env, Complete(h, d, a, now, ttl), bft)
  {
    var h' := h.(dispatches := h.dispatches[d := h.dispatches[d].(completed := true)]);
    forall i | 0 <= i < |h'.dispatches| ensures DispatchOk(env, h', h'.dispatches[i], bft) {
      DispatchStays(env, h, h', h.dispatches[i], h'.dispatches[i].completed, bft);
    }
    var found := Lookup(h.pending, h.dispatches[d].hash, now);
    if found.Some? && found.value in h.batches {
      SettleKeepsBatches(env, h', found.value, h.dispatches[d].hash, a, true, bft);
      var h'' := Settle(h', found.value, h.dispatches[d].hash, a, true);
      SameBatchesKeepQuorumInv(env, h'', Complete(h, d, a, now, ttl), bft);
    }
  }

  lemma SameBatchesKeepQuorumInv<B, C>(env: Env, h: Host<B, C>, u: Host<B, C>, bft: bool)
    requires QuorumInv(env, h, bft) && u.batches == h.batches && u.dispatches == h.dispatches
    ensures QuorumInv(env, u, bft)
  {
    forall i | 0 <= i < |u.dispatches| ensures DispatchOk(env, u, u.dispatches[i], bft) {
      assert DispatchOk(env, h, h.dispatches[i], bft);
    }
  }

  lemma NextKeepsQuorumInv<B, C>(env: Env, h: Host<B, C>, e: Event<B, C>, bft: bool, ttl: int)
    requires Inv(h) && QuorumInv(env, h, bft) && Enabled(h, e)
    ensures QuorumInv(env, Next(env, h, e, bft, ttl), bft)
  {
    var u := Next(env, h, e, bft, ttl);
    match e
    case Arrival(cfg, req, ch, newId, now) => ArriveKeepsQuorumInv(env, h, cfg, bft, req, ch, newId, now, ttl);
    case Completion(d, a, now) => CompleteKeepsQuorumInv(env, h, d, a, now, ttl, bft);
    case Timer(hash, f, sd, now) =>
      if Fail(h, hash, f, bft, sd, now).1 {
        var id := h.pending.items[hash].value;
        var a := if sd then ShutDown else QuorumTimeout(|h.batches[id].requests|, QuorumThreshold(f, bft));
        SettleKeepsBatches(env, h, id, hash, a, false, bft);
      }
    case CollectPending(now) => SameBatchesKeepQuorumInv(env, h, u, bft);
    case CollectResponses(now) => SameBatchesKeepQuorumInv(env, h, u, bft);
    case Receive(ch) => SameBatchesKeepQuorumInv(env, h, u, bft);
  }

  lemma {:induction false} RunKeepsQuorumInv<B, C>(env: Env, events: seq<Event<B, C>>, bft: bool, ttl: int)
    requires Possible(env, events, bft, ttl)
    ensures QuorumInv(env, After(env, events, bft, ttl), bft)
  {
    if events != [] {
      var before := events[..|events| - 1];
      var e := events[|events| - 1];
      var h := After(env, before, bft, ttl);
      RunKeepsQuorumInv(env, before, bft, ttl);
      RunKeepsInv(env, before, bft, ttl);
      NextKeepsQuorumInv(env, h, e, bft, ttl);
    }
  }

  // --- single dispatch ------------------------------------------------------------------

  ghost predicate Dispatched<B, C>(h: Host<B, C>, id: B) {
    exists i :: 0 <= i < |h.dispatches| && h.dispatches[i].batch == id
  }

  /**
   A batch is processing, and was dispatched, exactly when it has reached the threshold; no batch is
   dispatched twice.
   */
  ghost predicate SingleInv<B, C>(h: Host<B, C>, threshold: nat) {
    && (forall id :: id in h.batches ==> (h.batches[id].processing <==> 1 <= threshold <= |h.batches[id].requests|))
    && (forall id :: id in h.batches && h.batches[id].processing ==> Dispatched(h, id))
    && (forall i, j :: 0 <= i < j < |h.dispatches| ==> h.dispatches[i].batch != h.dispatches[j].batch)
    && (forall i :: 0 <= i < |h.dispatches| ==> |h.dispatches[i].requests| == threshold)
  }

  /** A batch that is not processing has not been dispatched. */
  lemma NotYetDispatched<B, C>(env: Env, h: Host<B, C>, id: B, bft: bool)
    requires QuorumInv(env, h, bft) && (id in h.batches ==> !h.batches[id].processing)
    ensures forall i :: 0 <= i < |h.dispatches| ==> h.dispatches[i].batch != id
  {
    forall i | 0 <= i < |h.dispatches| ensures h.dispatches[i].batch != id {
      assert DispatchOk(env, h, h.dispatches[i], bft);
    }
  }

  /** A batch that grows without reaching the threshold just now. */
  lemma GrowthKeepsSingle<B, C>(h: Host<B, C>, u: Host<B, C>, id: B, br: Batch<C>, threshold: nat)
    requires SingleInv(h, threshold) && u.batches == h.batches[id := br] && u.dispatches == h.dispatches
    requires br.processing <==> 1 <= threshold <= |br.requests|
    requires br.processing ==> id in h.batches && h.batches[id].processing
    ensures SingleInv(u, threshold)
  {
    forall b | b in u.batches && u.batches[b].processing ensures Dispatched(u, b) {
      assert Dispatched(h, b);
      var i :| 0 <= i < |h.dispatches| && h.dispatches[i].batch == b;
      assert u.dispatches[i].batch == b;
    }
  }

  /** A batch that reaches the threshold and is dispatched. */
  lemma DispatchKeepsSingle<B, C>(h: Host<B, C>, u: Host<B, C>, id: B, br: Batch<C>, d: Dispatch<B>, threshold: nat)
    requires SingleInv(h, threshold) && u.batches == h.batches[id := br] && u.dispatches == h.dispatches + [d]
    requires br.processing && |br.requests| == |d.requests| == threshold >= 1 && d.batch == id
    requires forall i :: 0 <= i < |h.dispatches| ==> h.dispatches[i].batch != id
    ensures SingleInv(u, threshold)
  {
    forall b | b in u.batches && u.batches[b].processing ensures Dispatched(u, b) {
      if b == id {
        assert u.dispatches[|h.dispatches|].batch == id;
      } else {
        assert Dispatched(h, b);
        var i :| 0 <= i < |h.dispatches| && h.dispatches[i].batch == b;
        assert u.dispatches[i].batch == b;
      }
    }
  }

  lemma ContributionKeepsSingle<B, C>(env: Env, h: Host<B, C>, id: B, was: Batch<C>, req: SignedRequest, signer: Bytes,
                                      cfg: EnclaveConfig, ch: C, now: int, ttl: int, bft: bool)
    requires QuorumInv(env, h, bft) && SingleInv(h, QuorumThreshold(cfg.F, bft))
    requires if id in h.batches then was == h.batches[id] else was.requests == [] && !was.processing
    ensures var threshold := QuorumThreshold(cfg.F, bft);
            var br := Contribute(was, req, signer, cfg, ch, threshold);
            var u := Enroll(h, id, br, ch, now, ttl);
            if |br.requests| == threshold
            then
              var d := Dispatch(was.hash, br.requests, false, id, br.signers, br.configs);
              SingleInv(u.(dispatches := u.dispatches + [d]), threshold)
            else SingleInv(u, threshold)
  {
    var threshold := QuorumThreshold(cfg.F, bft);
    var br := Contribute(was, req, signer, cfg, ch, threshold);
    var u := Enroll(h, id, br, ch, now, ttl);
    if |br.requests| == threshold {
      var d := Dispatch(was.hash, br.requests, false, id, br.signers, br.configs);
      NotYetDispatched(env, h, id, bft);
      DispatchKeepsSingle(h, u.(dispatches := u.dispatches + [d]), id, br, d, threshold);
    } else {
      GrowthKeepsSingle(h, u, id, br, threshold);
    }
  }

  /** A change that keeps requests, processing marks and dispatched batches keeps the invariant. */
  lemma SameCountsKeepSingle<B, C>(h: Host<B, C>, u: Host<B, C>, threshold: nat)
    requires SingleInv(h, threshold)
    requires |u.dispatches| == |h.dispatches|
    requires forall i :: 0 <= i < |h.dispatches| ==>
               u.dispatches[i].batch == h.dispatches[i].batch && u.dispatches[i].requests == h.dispatches[i].requests
    requires forall id :: id in u.batches ==>
               if id in h.batches
               then u.batches[id].requests == h.batches[id].requests
                 && u.batches[id].processing == h.batches[id].processing
               else u.batches[id].requests == [] && !u.batches[id].processing
    ensures SingleInv(u, threshold)
  {
    forall id | id in u.batches && u.batches[id].processing ensures Dispatched(u, id) {
      assert Dispatched(h, id);
      var i :| 0 <= i < |h.dispatches| && h.dispatches[i].batch == id;
      assert u.dispatches[i].batch == id;
    }
  }

  lemma JoinKeepsSingle<B, C>(env: Env, h: Host<B, C>, cfg: EnclaveConfig, bft: bool, req: SignedRequest, hash: Bytes,
                              signer: Bytes, ch: C, newId: B, now: int, ttl: int)
    requires Inv(h) && QuorumInv(env, h, bft) && newId !in h.batches && SingleInv(h, QuorumThreshold(cfg.F, bft))
    ensures SingleInv(Join(h, cfg, bft, req, hash, signer, ch, newId, now, ttl).0, QuorumThreshold(cfg.F, bft))
  {
    JoinedFacts(env, h, hash, now, newId, bft);
    var id, was := Joined(h, hash, now, newId), JoinedBatch(h, hash, now);
    if signer in was.signersSeen {
      var br := Subscribe(was, ch);
      GrowthKeepsSingle(h, Enroll(h, id, br, ch, now, ttl), id, br, QuorumThreshold(cfg.F, bft));
    } else {
      ContributionKeepsSingle(env, h, id, was, req, signer, cfg, ch, now, ttl, bft);
    }
  }

  lemma ArriveKeepsSingle<B, C>(env: Env, h: Host<B, C>, cfg: EnclaveConfig, bft: bool, req: SignedRequest, ch: C,
                                newId: B, now: int, ttl: int)
    requires Inv(h) && QuorumInv(env, h, bft) && newId !in h.batches && SingleInv(h, QuorumThreshold(cfg.F, bft))
    ensures SingleInv(Arrive(env, h, cfg, bft, req, ch, newId, now, ttl).0, QuorumThreshold(cfg.F, bft))
  {
    if Screen(env, h, cfg, req, now).None? {
      JoinKeepsSingle(env, h, cfg, bft, req, HashOf(env, req), RequestSigner(env, req, cfg.signers).value, ch, newId,
                      now, ttl);
    }
  }

  lemma SettleKeepsSingle<B, C>(h: Host<B, C>, id: B, hash: Bytes, a: Answer, done: bool, threshold: nat)
    requires SingleInv(h, threshold) && id in h.batches
    ensures SingleInv(Settle(h, id, hash, a, done), threshold)
  {
    SameCountsKeepSingle(h, Settle(h, id, hash, a, done), threshold);
  }

  lemma CompleteKeepsSingle<B, C>(h: Host<B, C>, d: nat, a: Answer, now: int, ttl: int, threshold: nat)
    requires SingleInv(h, threshold) && d < |h.dispatches|
    ensures SingleInv(Complete(h, d, a, now, ttl), threshold)
  {
    var h' := h.(dispatches := h.dispatches[d := h.dispatches[d].(completed := true)]);
    SameCountsKeepSingle(h, h', threshold);
    var hash := h.dispatches[d].hash;
    var found := Lookup(h.pending, hash, now);
    if found.Some? && found.value in h.batches {
      SettleKeepsSingle(h', found.value, hash, a, true, threshold);
      SameCountsKeepSingle(Settle(h', found.value, hash, a, true), Complete(h, d, a, now, ttl), threshold);
    }
  }

  lemma NextKeepsSingle<B, C>(env: Env, h: Host<B, C>, e: Event<B, C>, bft: bool, ttl: int, f: uint32)
    requires Inv(h) && QuorumInv(env, h, bft) && Enabled(h, e)
    requires SingleInv(h, QuorumThreshold(f, bft)) && (e.Arrival? ==> e.cfg.F == f)
    ensures SingleInv(Next(env, h, e, bft, ttl), QuorumThreshold(f, bft))
  {
    var u := Next(env, h, e, bft, ttl);
    var threshold := QuorumThreshold(f, bft);
    match e
    case Arrival(cfg, req, ch, newId, now) => ArriveKeepsSingle(env, h, cfg, bft, req, ch, newId, now, ttl);
    case Completion(d, a, now) => CompleteKeepsSingle(h, d, a, now, ttl, threshold);
    case Timer(hash, tf, sd, now) =>
      if Fail(h, hash, tf, bft, sd, now).1 {
        var id := h.pending.items[hash].value;
        var a := if sd then ShutDown else QuorumTimeout(|h.batches[id].requests|, QuorumThreshold(tf, bft));
        SettleKeepsSingle(h, id, hash, a, false, threshold);
      }
    case CollectPending(now) => SameCountsKeepSingle(h, u, threshold);
    case CollectResponses(now) => SameCountsKeepSingle(h, u, threshold);
    case Receive(ch) => SameCountsKeepSingle(h, u, threshold);
  }

  /**
   In every run, a timer or a shutdown leaves a batch that was dispatched, and every channel waiting
   on it, as they were.
   */
  lemma DispatchedIsNeverTimedOut<B, C>(env: Env, events: seq<Event<B, C>>, e: Event<B, C>, bft: bool, ttl: int, id: B)
    requires Possible(env, events, bft, ttl) && e.Timer?
    requires Dispatched(After(env, events, bft, ttl), id)
    ensures var h := After(env, events, bft, ttl);
            var u := Next(env, h, e, bft, ttl);
            && id in h.batches && id in u.batches && u.batches[id] == h.batches[id]
            && forall ch :: ch in h.batches[id].waiters ==> ch in h.chans && ch in u.chans && u.chans[ch] == h.chans[ch]
  {
    var h := After(env, events, bft, ttl);
    RunKeepsQuorumInv(env, events, bft, ttl);
    RunKeepsInv(env, events, bft, ttl);
    var i :| 0 <= i < |h.dispatches| && h.dispatches[i].batch == id;
    assert DispatchOk(env, h, h.dispatches[i], bft);
    TimerSparesProcessing(h, e.hash, e.f, bft, e.isShutdown, e.now, id);
  }

  lemma TimerSparesProcessing<B, C>(h: Host<B, C>, hash: Bytes, f: uint32, bft: bool, isShutdown: bool, now: int, id: B)
    requires Inv(h) && id in h.batches && h.batches[id].processing
    ensures var u := Fail(h, hash, f, bft, isShutdown, now).0;
            && id in u.batches && u.batches[id] == h.batches[id]
            && forall ch :: ch in h.batches[id].waiters ==> ch in h.chans && ch in u.chans && u.chans[ch] == h.chans[ch]
  {
    if Fail(h, hash, f, bft, isShutdown, now).1 {
      var other := h.pending.items[hash].value;
      var a := if isShutdown then ShutDown else QuorumTimeout(|h.batches[other].requests|, QuorumThreshold(f, bft));
      SendAllDelivers(h.chans, h.batches[other].waiters, a);
      forall ch | ch in h.batches[id].waiters ensures ch in h.chans && ch !in h.batches[other].waiters {
        assert ChanOk(h.chans[ch], id, h.batches[id].answered);
      }
    }
  }

  // --- when a batch is dispatched again ---------------------------------------------------

  ghost predicate MarkedOnlyIfDispatched<B, C>(h: Host<B, C>) {
    forall id :: id in h.batches && h.batches[id].processing ==> Dispatched(h, id)
  }

  lemma MarksStay<B, C>(h: Host<B, C>, u: Host<B, C>)
    requires MarkedOnlyIfDispatched(h) && |h.dispatches| <= |u.dispatches|
    requires forall i :: 0 <= i < |h.dispatches| ==> u.dispatches[i].batch == h.dispatches[i].batch
    requires forall id :: id in u.batches && u.batches[id].processing ==>
               (id in h.batches && h.batches[id].processing) || Dispatched(u, id)
    ensures MarkedOnlyIfDispatched(u)
  {
    forall id | id in u.batches && u.batches[id].processing ensures Dispatched(u, id) {
      if id in h.batches && h.batches[id].processing {
        assert Dispatched(h, id);
        var i :| 0 <= i < |h.dispatches| && h.dispatches[i].batch == id;
        assert u.dispatches[i].batch == id;
      }
    }
  }

  lemma JoinKeepsMarks<B, C>(env: Env, h: Host<B, C>, cfg: EnclaveConfig, bft: bool, req: SignedRequest, hash: Bytes,
                             signer: Bytes, ch: C, newId: B, now: int, ttl: int)
    requires Inv(h) && QuorumInv(env, h, bft) && newId !in h.batches && MarkedOnlyIfDispatched(h)
    ensures MarkedOnlyIfDispatched(Join(h, cfg, bft, req, hash, signer, ch, newId, now, ttl).0)
  {
    JoinedFacts(env, h, hash, now, newId, bft);
    var u := Join(h, cfg, bft, req, hash, signer, ch, newId, now, ttl).0;
    var id := Joined(h, hash, now, newId);
    if |u.dispatches| > |h.dispatches| {
      assert u.dispatches[|h.dispatches|].batch == id;
      assert Dispatched(u, id);
    }
    MarksStay(h, u);
  }

  lemma CompleteKeepsMarks<B, C>(h: Host<B, C>, d: nat, a: Answer, now: int, ttl: int)
    requires d < |h.dispatches| && MarkedOnlyIfDispatched(h)
    ensures MarkedOnlyIfDispatched(Complete(h, d, a, now, ttl))
  {
    MarksStay(h, Complete(h, d, a, now, ttl));
  }

  lemma FailKeepsMarks<B, C>(h: Host<B, C>, hash: Bytes, f: uint32, bft: bool, sd: bool, now: int)
    requires MarkedOnlyIfDispatched(h)
    ensures MarkedOnlyIfDispatched(Fail(h, hash, f, bft, sd, now).0)
  {
    MarksStay(h, Fail(h, hash, f, bft, sd, now).0);
  }

  lemma SameBatchesKeepMarks<B, C>(h: Host<B, C>, u: Host<B, C>)
    requires MarkedOnlyIfDispatched(h) && u.batches == h.batches && u.dispatches == h.dispatches
    ensures MarkedOnlyIfDispatched(u)
  {
    MarksStay(h, u);
  }

  lemma NextKeepsMarks<B, C>(env: Env, h: Host<B, C>, e: Event<B, C>, bft: bool, ttl: int)
    requires Inv(h) && QuorumInv(env, h, bft) && Enabled(h, e) && MarkedOnlyIfDispatched(h)
    ensures MarkedOnlyIfDispatched(Next(env, h, e, bft, ttl))
  {
    match e
    case Arrival(cfg, req, ch, newId, now) =>
      if Screen(env, h, cfg, req, now).None? {
        JoinKeepsMarks(env, h, cfg, bft, req, HashOf(env, req), RequestSigner(env, req, cfg.signers).value, ch, newId,
                       now, ttl);
      }
    case Completion(d, a, now) => CompleteKeepsMarks(h, d, a, now, ttl);
    case Timer(hash, f, sd, now) => FailKeepsMarks(h, hash, f, bft, sd, now);
    case CollectPending(_) => SameBatchesKeepMarks(h, Next(env, h, e, bft, ttl));
    case CollectResponses(_) => SameBatchesKeepMarks(h, Next(env, h, e, bft, ttl));
    case Receive(_) => SameBatchesKeepMarks(h, Next(env, h, e, bft, ttl));
  }

  lemma {:induction false} RunKeepsMarks<B, C>(env: Env, events: seq<Event<B, C>>, bft: bool, ttl: int)
    requires Possible(env, events, bft, ttl)
    ensures MarkedOnlyIfDispatched(After(env, events, bft, ttl))
  {
    if events != [] {
      var before := events[..|events| - 1];
      RunKeepsMarks(env, before, bft, ttl);
      RunKeepsInv(env, before, bft, ttl);
      RunKeepsQuorumInv(env, before, bft, ttl);
      NextKeepsMarks(env, After(env, before, bft, ttl), events[|events| - 1], bft, ttl);
    }
  }

  /** A batch is processing exactly when it was dispatched. */
  lemma MarkedIffDispatched<B, C>(env: Env, h: Host<B, C>, hash: Bytes, now: int, newId: B, bft: bool)
    requires Inv(h) && QuorumInv(env, h, bft) && MarkedOnlyIfDispatched(h) && newId !in h.batches
    ensures Dispatched(h, Joined(h, hash, now, newId)) <==> JoinedBatch(h, hash, now).processing
  {
    JoinedFacts(env, h, hash, now, newId, bft);
    var id := Joined(h, hash, now, newId);
    if Dispatched(h, id) {
      var i :| 0 <= i < |h.dispatches| && h.dispatches[i].batch == id;
      assert DispatchOk(env, h, h.dispatches[i], bft);
    }
  }

  /** When an arrival adds a dispatch, and of which batch. */
  lemma ArrivalDispatchesIff<B, C>(env: Env, h: Host<B, C>, cfg: EnclaveConfig, req: SignedRequest, ch: C, newId: B,
                                   now: int, bft: bool, ttl: int)
    ensures var u := Arrive(env, h, cfg, bft, req, ch, newId, now, ttl).0;
            var br := JoinedBatch(h, HashOf(env, req), now);
            && (|u.dispatches| == |h.dispatches| + 1 <==>
                  && Screen(env, h, cfg, req, now).None?
                  && RequestSigner(env, req, cfg.signers).value !in br.signersSeen
                  && |br.requests| + 1 == QuorumThreshold(cfg.F, bft))
            && (|u.dispatches| == |h.dispatches| + 1 ==>
                  u.dispatches[|h.dispatches|].batch == Joined(h, HashOf(env, req), now, newId))
  {
  }

  /**
   With no assumption on `F`, in every run an arrival dispatches a batch that was dispatched before
   exactly when it passes the screening, its signer is new to the batch, the batch is processing, and
   with it the batch has as many requests as the threshold computed from the config of the moment.
   */
  lemma SecondDispatchIff<B, C>(env: Env, events: seq<Event<B, C>>, cfg: EnclaveConfig, req: SignedRequest, ch: C,
                                newId: B, now: int, bft: bool, ttl: int)
    requires Possible(env, events, bft, ttl)
    requires Enabled(After(env, events, bft, ttl), Arrival(cfg, req, ch, newId, now))
    ensures var h := After(env, events, bft, ttl);
            var u := Arrive(env, h, cfg, bft, req, ch, newId, now, ttl).0;
            var br := JoinedBatch(h, HashOf(env, req), now);
            |u.dispatches| == |h.dispatches| + 1 && Dispatched(h, u.dispatches[|h.dispatches|].batch) <==>
            && Screen(env, h, cfg, req, now).None?
            && RequestSigner(env, req, cfg.signers).value !in br.signersSeen
            && br.processing && |br.requests| + 1 == QuorumThreshold(cfg.F, bft)
  {
    RunKeepsMarks(env, events, bft, ttl);
    RunKeepsInv(env, events, bft, ttl);
    RunKeepsQuorumInv(env, events, bft, ttl);
    var h := After(env, events, bft, ttl);
    MarkedIffDispatched(env, h, HashOf(env, req), now, newId, bft);
    ArrivalDispatchesIff(env, h, cfg, req, ch, newId, now, bft, ttl);
  }

  // --- agreement with the enclave --------------------------------------------------------

  /**
   A batch gathered and dispatched under one config passes the enclave's checks under that config
   exactly when the host's threshold did not wrap around: `F < 2^31` for the BFT quorum,
   `F < 2^32 - 1` otherwise.
   */
  lemma DispatchIsAdmissible<B, C>(env: Env, events: seq<Event<B, C>>, bft: bool, ttl: int, i: nat, c: EnclaveConfig)
    requires Possible(env, events, bft, ttl)
    requires i < |After(env, events, bft, ttl).dispatches|
    requires forall k :: 0 <= k < |After(env, events, bft, ttl).dispatches[i].configs| ==>
               After(env, events, bft, ttl).dispatches[i].configs[k] == c
    ensures Admissible(env, After(env, events, bft, ttl).dispatches[i].requests, c) <==>
            (if bft then c.F < TWO_32 / 2 else c.F < TWO_32 - 1)
  {
    RunKeepsQuorumInv(env, events, bft, ttl);
    var h := After(env, events, bft, ttl);
    var d := h.dispatches[i];
    assert DispatchOk(env, h, d, bft);
    FingerprintCount(env, d.requests, d.signers, c.signers);
    ThresholdExceedsFaults(c.F, bft);
  }

  /**
   In every run, a completion gives its answer to the waiters of the batch that was dispatched if and
   only if that batch's pending entry is there and has not expired; otherwise none of them gets anything.
   */
  lemma CompletionReachesIff<B, C>(env: Env, events: seq<Event<B, C>>, e: Event<B, C>, bft: bool, ttl: int)
    requires Possible(env, events, bft, ttl) && e.Completion? && Enabled(After(env, events, bft, ttl), e)
    ensures var h := After(env, events, bft, ttl);
            var u := Next(env, h, e, bft, ttl);
            var id := h.dispatches[e.d].batch;
            && id in h.batches && h.batches[id].waiters != []
            && (AllAnswered(h, u, id, e.answer) <==> Lookup(h.pending, h.dispatches[e.d].hash, e.now) == Some(id))
            && (Lookup(h.pending, h.dispatches[e.d].hash, e.now) != Some(id) ==>
                  forall ch :: ch in h.batches[id].waiters ==>
                    ch in h.chans && ch in u.chans && u.chans[ch].delivered == h.chans[ch].delivered)
  {
    var h := After(env, events, bft, ttl);
    var d := h.dispatches[e.d];
    RunKeepsInv(env, events, bft, ttl);
    RunKeepsQuorumInv(env, events, bft, ttl);
    assert DispatchOk(env, h, d, bft);
    HostFate.EnoughWaiters(env, events, bft, ttl, d.batch);
    assert h.batches[d.batch].waiters[0] in h.batches[d.batch].waiters;
    forall ch | ch in h.batches[d.batch].waiters
      ensures ch in h.chans && ch in Complete(h, e.d, e.answer, e.now, ttl).chans
      ensures if Lookup(h.pending, d.hash, e.now) == Some(d.batch)
              then h.chans[ch].delivered == []
                && Complete(h, e.d, e.answer, e.now, ttl).chans[ch].delivered == [e.answer]
              else Complete(h, e.d, e.answer, e.now, ttl).chans[ch].delivered == h.chans[ch].delivered
    {
      HostFate.CompletionReaches(h, e, ttl, d.batch, ch);
    }
  }
}
