/**
 Exactly when a batch is dispatched, with `F` free to change from one arrival to the next: at every size
 that equals the threshold of the config under which the batch reached it, once each.
 */
module HostDispatch {
  import opened Bytes
  import opened Crypto
  import opened Encoding
  import opened Preimages
  import opened Protocol
  import opened CacheModel
  import opened HostModel
  import opened HostInvariants
  import opened HostQuorum
  import opened ExampleDeployment

  /** At size `n` the batch met the threshold of the config its `n`-th request was checked under. */
  predicate MeetsAt<C>(br: Batch<C>, n: nat, bft: bool) {
    1 <= n <= |br.configs| && n == QuorumThreshold(br.configs[n - 1].F, bft)
  }

  /** Dispatch `i` is of batch `id`, with `n` requests. */
  predicate IsDispatch<B, C>(h: Host<B, C>, i: nat, id: B, n: nat) {
    i < |h.dispatches| && h.dispatches[i].batch == id && |h.dispatches[i].requests| == n
  }

  ghost predicate DispatchedAt<B, C>(h: Host<B, C>, id: B, n: nat) {
    exists i: nat :: IsDispatch(h, i, id, n)
  }

  /** Dispatches are at the sizes at which the threshold was met. */
  ghost predicate OnlyMet<B, C>(h: Host<B, C>, bft: bool) {
    forall i: nat :: i < |h.dispatches| ==>
      h.dispatches[i].batch in h.batches && MeetsAt(h.batches[h.dispatches[i].batch], |h.dispatches[i].requests|, bft)
  }

  /** At each such size there is one. */
  ghost predicate AllMet<B, C>(h: Host<B, C>, bft: bool) {
    forall id, n: nat :: id in h.batches && MeetsAt(h.batches[id], n, bft) ==> DispatchedAt(h, id, n)
  }

  /** Dispatches of one batch grow. */
  predicate SizesGrow<B, C>(h: Host<B, C>) {
    forall i, j :: 0 <= i < j < |h.dispatches| && h.dispatches[i].batch == h.dispatches[j].batch ==>
      |h.dispatches[i].requests| < |h.dispatches[j].requests|
  }

  ghost predicate Exact<B, C>(h: Host<B, C>, bft: bool) {
    OnlyMet(h, bft) && AllMet(h, bft) && SizesGrow(h)
  }

  // --- one event ------------------------------------------------------------------------------

  predicate SameDispatches<B, C>(h: Host<B, C>, u: Host<B, C>) {
    && |u.dispatches| == |h.dispatches|
    && forall i :: 0 <= i < |h.dispatches| ==>
         u.dispatches[i].batch == h.dispatches[i].batch && u.dispatches[i].requests == h.dispatches[i].requests
  }

  predicate SameConfigs<B, C>(h: Host<B, C>, u: Host<B, C>) {
    && (forall id :: id in h.batches ==> id in u.batches)
    && forall id :: id in u.batches ==> if id in h.batches then u.batches[id].configs == h.batches[id].configs
       else u.batches[id].configs == []
  }

  lemma StaysDispatchedAt<B, C>(h: Host<B, C>, u: Host<B, C>, id: B, n: nat)
    requires DispatchedAt(h, id, n) && |h.dispatches| <= |u.dispatches|
    requires forall i :: 0 <= i < |h.dispatches| ==>
               u.dispatches[i].batch == h.dispatches[i].batch && u.dispatches[i].requests == h.dispatches[i].requests
    ensures DispatchedAt(u, id, n)
  {
    var i: nat :| IsDispatch(h, i, id, n);
    assert IsDispatch(u, i, id, n);
  }

  /** An event that dispatches nothing and counts nothing. */
  lemma QuietKeepsExact<B, C>(h: Host<B, C>, u: Host<B, C>, bft: bool)
    requires Exact(h, bft) && SameDispatches(h, u) && SameConfigs(h, u)
    ensures Exact(u, bft)
  {
    forall id, n: nat | id in u.batches && MeetsAt(u.batches[id], n, bft) ensures DispatchedAt(u, id, n) {
      assert MeetsAt(h.batches[id], n, bft);
      StaysDispatchedAt(h, u, id, n);
    }
    forall i: nat | i < |u.dispatches|
      ensures u.dispatches[i].batch in u.batches
      ensures MeetsAt(u.batches[u.dispatches[i].batch], |u.dispatches[i].requests|, bft)
    {
      assert MeetsAt(h.batches[h.dispatches[i].batch], |h.dispatches[i].requests|, bft);
    }
  }

  /** A batch counts one more request, under `cfg`. */
  predicate Counted<B, C>(h: Host<B, C>, u: Host<B, C>, id: B, was: Batch<C>, br: Batch<C>, cfg: EnclaveConfig) {
    && (if id in h.batches then was == h.batches[id] else was.configs == [])
    && u.batches == h.batches[id := br] && br.configs == was.configs + [cfg]
  }

  lemma MeetsStep<C>(was: Batch<C>, br: Batch<C>, cfg: EnclaveConfig, n: nat, bft: bool)
    requires br.configs == was.configs + [cfg]
    ensures MeetsAt(br, n, bft) <==> MeetsAt(was, n, bft) || (n == |br.configs| && n == QuorumThreshold(cfg.F, bft))
  {
  }

  /** Without a dispatch, because the threshold is not met just now. */
  lemma CountKeepsExact<B, C>(h: Host<B, C>, u: Host<B, C>, id: B, was: Batch<C>, br: Batch<C>, cfg: EnclaveConfig,
                              bft: bool)
    requires Exact(h, bft) && Counted(h, u, id, was, br, cfg) && u.dispatches == h.dispatches
    requires |br.configs| != QuorumThreshold(cfg.F, bft)
    ensures Exact(u, bft)
  {
    forall b, n: nat | b in u.batches && MeetsAt(u.batches[b], n, bft) ensures DispatchedAt(u, b, n) {
      if b == id {
        MeetsStep(was, br, cfg, n, bft);
      }
      assert MeetsAt(h.batches[b], n, bft);
      StaysDispatchedAt(h, u, b, n);
    }
    OldDispatchesMeet(h, u, id, was, br, cfg, bft);
  }

  lemma OldDispatchesMeet<B, C>(h: Host<B, C>, u: Host<B, C>, id: B, was: Batch<C>, br: Batch<C>, cfg: EnclaveConfig,
                                bft: bool)
    requires OnlyMet(h, bft) && Counted(h, u, id, was, br, cfg)
    ensures forall i: nat :: i < |h.dispatches| ==>
              h.dispatches[i].batch in u.batches
                && MeetsAt(u.batches[h.dispatches[i].batch], |h.dispatches[i].requests|, bft)
  {
    forall i: nat | i < |h.dispatches|
      ensures h.dispatches[i].batch in u.batches
      ensures MeetsAt(u.batches[h.dispatches[i].batch], |h.dispatches[i].requests|, bft)
    {
      assert MeetsAt(h.batches[h.dispatches[i].batch], |h.dispatches[i].requests|, bft);
      if h.dispatches[i].batch == id {
        MeetsStep(was, br, cfg, |h.dispatches[i].requests|, bft);
      }
    }
  }

  /** With one, because it is. */
  lemma MetIsDispatched<B, C>(h: Host<B, C>, u: Host<B, C>, id: B, was: Batch<C>, br: Batch<C>, cfg: EnclaveConfig,
                              d: Dispatch<B>, bft: bool, b: B, n: nat)
    requires Exact(h, bft) && Counted(h, u, id, was, br, cfg) && u.dispatches == h.dispatches + [d]
    requires d.batch == id && |d.requests| == |br.configs| == QuorumThreshold(cfg.F, bft)
    requires b in u.batches && MeetsAt(u.batches[b], n, bft)
    ensures DispatchedAt(u, b, n)
  {
    assert IsDispatch(u, |h.dispatches|, id, |br.configs|);
    if b == id {
      MeetsStep(was, br, cfg, n, bft);
    }
    if b != id || n != |br.configs| {
      assert MeetsAt(h.batches[b], n, bft);
      StaysDispatchedAt(h, u, b, n);
    }
  }

  lemma DispatchKeepsExact<B, C>(h: Host<B, C>, u: Host<B, C>, id: B, was: Batch<C>, br: Batch<C>, cfg: EnclaveConfig,
                                 d: Dispatch<B>, bft: bool)
    requires Exact(h, bft) && Counted(h, u, id, was, br, cfg) && u.dispatches == h.dispatches + [d]
    requires d.batch == id && |d.requests| == |br.configs| == QuorumThreshold(cfg.F, bft)
    ensures Exact(u, bft)
  {
    var last := |h.dispatches|;
    forall b, n: nat | b in u.batches && MeetsAt(u.batches[b], n, bft) ensures DispatchedAt(u, b, n) {
      MetIsDispatched(h, u, id, was, br, cfg, d, bft, b, n);
    }
    OldDispatchesMeet(h, u, id, was, br, cfg, bft);
    forall i | 0 <= i < last && u.dispatches[i].batch == id ensures |u.dispatches[i].requests| < |d.requests| {
      assert MeetsAt(h.batches[h.dispatches[i].batch], |h.dispatches[i].requests|, bft);
    }
  }

  lemma JoinKeepsExact<B, C>(env: Env, h: Host<B, C>, cfg: EnclaveConfig, bft: bool, req: SignedRequest, hash: Bytes,
                             signer: Bytes, ch: C, newId: B, now: int, ttl: int)
    requires Inv(h) && QuorumInv(env, h, bft) && newId !in h.batches && Exact(h, bft)
    ensures Exact(Join(h, cfg, bft, req, hash, signer, ch, newId, now, ttl).0, bft)
  {
    JoinedFacts(env, h, hash, now, newId, bft);
    var id, was := Joined(h, hash, now, newId), JoinedBatch(h, hash, now);
    var u := Join(h, cfg, bft, req, hash, signer, ch, newId, now, ttl).0;
    if signer in was.signersSeen {
      QuietKeepsExact(h, u, bft);
    } else {
      var br := Contribute(was, req, signer, cfg, ch, QuorumThreshold(cfg.F, bft));
      assert |br.requests| == |br.configs|;
      if |br.requests| == QuorumThreshold(cfg.F, bft) {
        DispatchKeepsExact(h, u, id, was, br, cfg, Dispatch(hash, br.requests, false, id, br.signers, br.configs), bft);
      } else {
        CountKeepsExact(h, u, id, was, br, cfg, bft);
      }
    }
  }

  lemma CompleteIsQuiet<B, C>(h: Host<B, C>, d: nat, a: Answer, now: int, ttl: int)
    requires d < |h.dispatches|
    ensures SameDispatches(h, Complete(h, d, a, now, ttl)) && SameConfigs(h, Complete(h, d, a, now, ttl))
  {
  }

  lemma FailIsQuiet<B, C>(h: Host<B, C>, hash: Bytes, f: uint32, bft: bool, sd: bool, now: int)
    ensures SameDispatches(h, Fail(h, hash, f, bft, sd, now).0) && SameConfigs(h, Fail(h, hash, f, bft, sd, now).0)
  {
  }

  lemma NextKeepsExact<B, C>(env: Env, h: Host<B, C>, e: Event<B, C>, bft: bool, ttl: int)
    requires Inv(h) && QuorumInv(env, h, bft) && Enabled(h, e) && Exact(h, bft)
    ensures Exact(Next(env, h, e, bft, ttl), bft)
  {
    var u := Next(env, h, e, bft, ttl);
    match e
    case Arrival(cfg, req, ch, newId, now) =>
      if Screen(env, h, cfg, req, now).None? {
        JoinKeepsExact(env, h, cfg, bft, req, HashOf(env, req), RequestSigner(env, req, cfg.signers).value, ch, newId,
                       now, ttl);
      }
    case Completion(d, a, now) =>
      CompleteIsQuiet(h, d, a, now, ttl);
      QuietKeepsExact(h, u, bft);
    case Timer(hash, f, sd, now) =>
      FailIsQuiet(h, hash, f, bft, sd, now);
      QuietKeepsExact(h, u, bft);
    case CollectPending(_) => QuietKeepsExact(h, u, bft);
    case CollectResponses(_) => QuietKeepsExact(h, u, bft);
    case Receive(_) => QuietKeepsExact(h, u, bft);
  }

  lemma {:induction false} RunKeepsExact<B, C>(env: Env, events: seq<Event<B, C>>, bft: bool, ttl: int)
    requires Possible(env, events, bft, ttl)
    ensures Exact(After(env, events, bft, ttl), bft)
  {
    if events != [] {
      var before := events[..|events| - 1];
      RunKeepsExact(env, before, bft, ttl);
      RunKeepsInv(env, before, bft, ttl);
      RunKeepsQuorumInv(env, before, bft, ttl);
      NextKeepsExact(env, After(env, before, bft, ttl), events[|events| - 1], bft, ttl);
    }
  }

  // --- the results ----------------------------------------------------------------------------

  /**
   In every run, however `F` changes, a batch is dispatched with `n` requests if and only if `n` was the
   threshold of the config its `n`-th request was checked under, and then exactly once.
   */
  lemma DispatchedExactlyAt<B, C>(env: Env, events: seq<Event<B, C>>, bft: bool, ttl: int, id: B, n: nat)
    requires Possible(env, events, bft, ttl) && id in After(env, events, bft, ttl).batches
    ensures var h := After(env, events, bft, ttl);
            && (DispatchedAt(h, id, n) <==> MeetsAt(h.batches[id], n, bft))
            && forall i: nat, j: nat :: IsDispatch(h, i, id, n) && IsDispatch(h, j, id, n) ==> i == j
  {
    RunKeepsExact(env, events, bft, ttl);
    var h := After(env, events, bft, ttl);
    if DispatchedAt(h, id, n) {
      var i: nat :| IsDispatch(h, i, id, n);
      assert MeetsAt(h.batches[h.dispatches[i].batch], |h.dispatches[i].requests|, bft);
    }
  }

  /** Every request of the batch was checked under a config with this `F`. */
  predicate AgreesOnF<C>(br: Batch<C>, f: uint32) {
    forall k :: 0 <= k < |br.configs| ==> br.configs[k].F == f
  }

  /**
   In every run, for a batch whose requests were all checked under the same `F`, whatever happened to
   `F` otherwise: it holds one request per signer seen, it is processing exactly when it has reached the
   threshold and exactly when it was dispatched, and it was dispatched at most once.
   */
  lemma SingleDispatch<B, C>(env: Env, events: seq<Event<B, C>>, bft: bool, ttl: int, id: B, f: uint32)
    requires Possible(env, events, bft, ttl) && id in After(env, events, bft, ttl).batches
    requires AgreesOnF(After(env, events, bft, ttl).batches[id], f)
    ensures var h := After(env, events, bft, ttl);
            var br := h.batches[id];
            && |br.requests| == |br.signersSeen|
            && (br.processing <==> 1 <= QuorumThreshold(f, bft) <= |br.requests|)
            && (br.processing <==> Dispatched(h, id))
            && forall i, j :: (0 <= i < |h.dispatches| && 0 <= j < |h.dispatches|
                               && h.dispatches[i].batch == id && h.dispatches[j].batch == id) ==> i == j
  {
    var h := After(env, events, bft, ttl);
    RunKeepsExact(env, events, bft, ttl);
    RunKeepsQuorumInv(env, events, bft, ttl);
    OneSignerEach(env, h.batches[id]);
    forall i: nat | i < |h.dispatches| && h.dispatches[i].batch == id
      ensures |h.dispatches[i].requests| == QuorumThreshold(f, bft) && h.batches[id].processing
    {
      SizeIsThreshold(env, h, bft, id, f, i);
    }
    ProcessingIffReached(env, events, bft, ttl, id, f);
  }

  lemma OneSignerEach<C>(env: Env, br: Batch<C>)
    requires BatchOk(env, br)
    ensures |br.requests| == |br.signersSeen| == |br.configs|
  {
    NoDupCardinality(br.signers);
  }

  lemma SizeIsThreshold<B, C>(env: Env, h: Host<B, C>, bft: bool, id: B, f: uint32, i: nat)
    requires Exact(h, bft) && QuorumInv(env, h, bft) && id in h.batches && AgreesOnF(h.batches[id], f)
    requires i < |h.dispatches| && h.dispatches[i].batch == id
    ensures |h.dispatches[i].requests| == QuorumThreshold(f, bft) && h.batches[id].processing
    ensures 1 <= QuorumThreshold(f, bft) <= |h.batches[id].configs|
  {
    assert MeetsAt(h.batches[h.dispatches[i].batch], |h.dispatches[i].requests|, bft);
    assert DispatchOk(env, h, h.dispatches[i], bft);
  }

  lemma ProcessingIffReached<B, C>(env: Env, events: seq<Event<B, C>>, bft: bool, ttl: int, id: B, f: uint32)
    requires Possible(env, events, bft, ttl) && id in After(env, events, bft, ttl).batches
    requires AgreesOnF(After(env, events, bft, ttl).batches[id], f)
    ensures var h := After(env, events, bft, ttl);
            && (h.batches[id].processing <==> 1 <= QuorumThreshold(f, bft) <= |h.batches[id].configs|)
            && (h.batches[id].processing <==> Dispatched(h, id))
  {
    var h, t := After(env, events, bft, ttl), QuorumThreshold(f, bft);
    RunKeepsExact(env, events, bft, ttl);
    RunKeepsQuorumInv(env, events, bft, ttl);
    RunKeepsMarks(env, events, bft, ttl);
    if 1 <= t <= |h.batches[id].configs| {
      assert MeetsAt(h.batches[id], t, bft);
      var i: nat :| IsDispatch(h, i, id, t);
      assert Dispatched(h, id);
    }
    if Dispatched(h, id) {
      var i: nat :| i < |h.dispatches| && h.dispatches[i].batch == id;
      SizeIsThreshold(env, h, bft, id, f, i);
    }
  }

  /**
   What every dispatch of a run holds: valid requests of one hash by as many different signers as its
   last config asks for.
   */
  lemma DispatchHolds<B, C>(env: Env, events: seq<Event<B, C>>, bft: bool, ttl: int, i: nat)
    requires Possible(env, events, bft, ttl) && i < |After(env, events, bft, ttl).dispatches|
    ensures var d := After(env, events, bft, ttl).dispatches[i];
            && Gathered(env, d.hash, d.requests, d.signers, d.configs) && d.requests != []
            && |d.signers| == QuorumThreshold(d.configs[|d.configs| - 1].F, bft)
  {
    RunKeepsQuorumInv(env, events, bft, ttl);
    var h := After(env, events, bft, ttl);
    assert DispatchOk(env, h, h.dispatches[i], bft);
  }

  lemma MarkedIsDispatched<B, C>(env: Env, events: seq<Event<B, C>>, bft: bool, ttl: int, id: B)
    requires Possible(env, events, bft, ttl) && id in After(env, events, bft, ttl).batches
    ensures var h := After(env, events, bft, ttl); h.batches[id].processing ==> exists n: nat :: DispatchedAt(h, id, n)
  {
    RunKeepsMarks(env, events, bft, ttl);
    var h := After(env, events, bft, ttl);
    if h.batches[id].processing {
      assert Dispatched(h, id);
      var i :| 0 <= i < |h.dispatches| && h.dispatches[i].batch == id;
      assert IsDispatch(h, i, id, |h.dispatches[i].requests|);
      assert DispatchedAt(h, id, |h.dispatches[i].requests|);
    }
  }

  // --- when a batch is stranded ---------------------------------------------------------------

  /** The batch has as many requests as `cfg` asks for or more, and was not dispatched. */
  predicate Stranded<C>(br: Batch<C>, cfg: EnclaveConfig, bft: bool) {
    !br.processing && |br.requests| >= QuorumThreshold(cfg.F, bft)
  }

  /**
   A request that is counted leaves its batch stranded if and only if the batch was not processing and
   had the threshold of the moment already, that is, the threshold has fallen to or below its size.
   */
  lemma StrandsIff<B, C>(env: Env, events: seq<Event<B, C>>, cfg: EnclaveConfig, req: SignedRequest, ch: C, newId: B,
                         now: int, bft: bool, ttl: int)
    requires Possible(env, events, bft, ttl) && Enabled(After(env, events, bft, ttl), Arrival(cfg, req, ch, newId, now))
    requires Screen(env, After(env, events, bft, ttl), cfg, req, now).None?
    requires RequestSigner(env, req, cfg.signers).value !in
             JoinedBatch(After(env, events, bft, ttl), HashOf(env, req), now).signersSeen
    ensures var h := After(env, events, bft, ttl);
            var u, id := Arrive(env, h, cfg, bft, req, ch, newId, now, ttl).0, Joined(h, HashOf(env, req), now, newId);
            id in u.batches && (Stranded(u.batches[id], cfg, bft) <==>
                                Stranded(JoinedBatch(h, HashOf(env, req), now), cfg, bft))
  {
  }

  /** From then on it is dispatched only under a config that asks for more than it had. */
  lemma StrandedUntilMoreAsked<B, C>(env: Env, events: seq<Event<B, C>>, bft: bool, ttl: int, id: B, size: nat, n: nat)
    requires Possible(env, events, bft, ttl) && id in After(env, events, bft, ttl).batches
    requires var br := After(env, events, bft, ttl).batches[id];
             size <= |br.configs| && forall k :: size <= k < |br.configs| ==>
               QuorumThreshold(br.configs[k].F, bft) <= size
    requires n > size
    ensures !DispatchedAt(After(env, events, bft, ttl), id, n)
  {
    DispatchedExactlyAt(env, events, bft, ttl, id, n);
  }

  // --- examples -------------------------------------------------------------------------------

  /** Two requests of one hash by different signers, the second under another `F`. */
  predicate Pair(env: Env, a: SignedRequest, cfgA: EnclaveConfig, b: SignedRequest, cfgB: EnclaveConfig) {
    && HashOf(env, a) == HashOf(env, b) && cfgA.T != 0 && cfgB.T != 0
    && RequestSigner(env, a, cfgA.signers).Some? && RequestSigner(env, b, cfgB.signers).Some?
    && RequestSigner(env, a, cfgA.signers).value != RequestSigner(env, b, cfgB.signers).value
  }

  function PairRun(a: SignedRequest, cfgA: EnclaveConfig, b: SignedRequest, cfgB: EnclaveConfig): seq<Event<nat, nat>> {
    [Arrival(cfgA, a, 0, 0, 0), Arrival(cfgB, b, 1, 1, 0)]
  }

  lemma PairArrives(env: Env, a: SignedRequest, cfgA: EnclaveConfig, b: SignedRequest, cfgB: EnclaveConfig, bft: bool,
                    ttl: int)
    requires Pair(env, a, cfgA, b, cfgB) && ttl >= 0
    ensures Possible(env, PairRun(a, cfgA, b, cfgB), bft, ttl)
    ensures var h := After(env, PairRun(a, cfgA, b, cfgB), bft, ttl);
            0 in h.batches && h.batches[0].requests == [a, b] && h.batches[0].configs == [cfgA, cfgB]
  {
    var e1: Event<nat, nat> := Arrival(cfgA, a, 0, 0, 0);
    var e2: Event<nat, nat> := Arrival(cfgB, b, 1, 1, 0);
    var h := Next(env, NewHost<nat, nat>(), e1, bft, ttl);
    FirstOfPair(env, a, cfgA, bft, ttl);
    SecondOfPair(env, h, a, cfgA, b, cfgB, bft, ttl);
    TwoEvents(env, e1, e2, bft, ttl);
  }

  lemma SecondOfPair(env: Env, h: Host<nat, nat>, a: SignedRequest, cfgA: EnclaveConfig, b: SignedRequest,
                     cfgB: EnclaveConfig, bft: bool, ttl: int)
    requires Pair(env, a, cfgA, b, cfgB) && h.responses == Empty() && 0 in h.batches
    requires Lookup(h.pending, HashOf(env, a), 0) == Some(0)
    requires h.batches[0].requests == [a] && h.batches[0].configs == [cfgA]
    requires h.batches[0].signersSeen == {RequestSigner(env, a, cfgA.signers).value}
    ensures var u := Arrive(env, h, cfgB, bft, b, 1, 1, 0, ttl).0;
            0 in u.batches && u.batches[0].requests == [a, b] && u.batches[0].configs == [cfgA, cfgB]
  {
    assert Joined(h, HashOf(env, b), 0, 1) == 0 && JoinedBatch(h, HashOf(env, b), 0) == h.batches[0];
    assert [a] + [b] == [a, b] && [cfgA] + [cfgB] == [cfgA, cfgB];
  }

  lemma FirstOfPair(env: Env, a: SignedRequest, cfg: EnclaveConfig, bft: bool, ttl: int)
    requires cfg.T != 0 && RequestSigner(env, a, cfg.signers).Some? && ttl >= 0
    ensures var h := Next(env, NewHost<nat, nat>(), Arrival(cfg, a, 0, 0, 0), bft, ttl);
            && h.batches.Keys == {0} && h.chans.Keys == {0} && h.responses == Empty()
            && h.batches[0].requests == [a] && h.batches[0].configs == [cfg]
            && h.batches[0].signersSeen == {RequestSigner(env, a, cfg.signers).value}
            && Lookup(h.pending, HashOf(env, a), 0) == Some(0)
  {
    var h0, hash := NewHost<nat, nat>(), HashOf(env, a);
    assert Joined(h0, hash, 0, 0) == 0 && JoinedBatch(h0, hash, 0) == NewBatch(hash, 0);
    assert [] + [a] == [a] && [] + [cfg] == [cfg];
  }

  /** When `F` rises from 0 to 1 between the two, the batch is dispatched twice, with one request and with both. */
  lemma RisingFDispatchesTwice(env: Env, a: SignedRequest, cfgA: EnclaveConfig, b: SignedRequest, cfgB: EnclaveConfig,
                               ttl: int)
    requires Pair(env, a, cfgA, b, cfgB) && ttl >= 0 && cfgA.F == 0 && cfgB.F == 1
    ensures Possible(env, PairRun(a, cfgA, b, cfgB), false, ttl)
    ensures var h := After(env, PairRun(a, cfgA, b, cfgB), false, ttl); DispatchedAt(h, 0, 1) && DispatchedAt(h, 0, 2)
  {
    PairArrives(env, a, cfgA, b, cfgB, false, ttl);
    DispatchedExactlyAt(env, PairRun(a, cfgA, b, cfgB), false, ttl, 0, 1);
    DispatchedExactlyAt(env, PairRun(a, cfgA, b, cfgB), false, ttl, 0, 2);
  }

  lemma MeetsNowhere(env: Env, run: seq<Event<nat, nat>>, ttl: int, cfgA: EnclaveConfig, cfgB: EnclaveConfig)
    requires Possible(env, run, false, ttl) && cfgA.F == 1 && cfgB.F == 0
    requires 0 in After(env, run, false, ttl).batches && After(env, run, false, ttl).batches[0].configs == [cfgA, cfgB]
    ensures forall n: nat :: !DispatchedAt(After(env, run, false, ttl), 0, n)
  {
    forall n: nat ensures !DispatchedAt(After(env, run, false, ttl), 0, n) {
      DispatchedExactlyAt(env, run, false, ttl, 0, n);
    }
  }

  /** When it falls from 1 to 0, the batch has more than its threshold and is not dispatched at all. */
  lemma FallingFStrands(env: Env, a: SignedRequest, cfgA: EnclaveConfig, b: SignedRequest, cfgB: EnclaveConfig,
                        ttl: int)
    requires Pair(env, a, cfgA, b, cfgB) && ttl >= 0 && cfgA.F == 1 && cfgB.F == 0
    ensures Possible(env, PairRun(a, cfgA, b, cfgB), false, ttl)
    ensures var h := After(env, PairRun(a, cfgA, b, cfgB), false, ttl);
            0 in h.batches && Stranded(h.batches[0], cfgB, false) && forall n: nat :: !DispatchedAt(h, 0, n)
  {
    var run := PairRun(a, cfgA, b, cfgB);
    PairArrives(env, a, cfgA, b, cfgB, false, ttl);
    MeetsNowhere(env, run, ttl, cfgA, cfgB);
    MarkedIsDispatched(env, run, false, ttl, 0);
  }

  /** Such a pair in the example deployment, for every request and both ways round. */
  lemma PairExists(req: ComputeRequest, fA: uint32, fB: uint32)
    ensures var a, b := SignedRequest(req, SignatureBy(1)), SignedRequest(req, SignatureBy(2));
            Pair(Example(), a, TwoSigners(1, 2, 1, fA), b, TwoSigners(1, 2, 1, fB))
  {
    FirstOfTwo(Example().requestPayload(Example().requestHash(req)), 1, 2);
    KeysDiffer(1, 2);
  }
}
