/** The host's objects and the critical sections that change them, proved against `HostModel`. */
module HostServer {
  import opened Bytes
  import opened Crypto
  import opened Encoding
  import opened Preimages
  import opened Protocol
  import opened CacheModel
  import opened TtlCache
  import opened HostModel
  import opened HostInvariants

  /** A Go channel of capacity one. */
  class Channel {
    var buffer: Option<Answer>
    ghost var delivered: seq<Answer>
    ghost var dropped: nat

    ghost function Value<B>(home: B): Chan<B>
      reads this
    {
      Chan(buffer, home, delivered, dropped)
    }

    constructor ()
      ensures buffer == None && delivered == [] && dropped == 0
    {
      buffer := None;
      delivered := [];
      dropped := 0;
    }

    /** `select { case ch <- a: default: }`. */
    method TrySend(a: Answer) returns (sent: bool)
      modifies this
      ensures sent <==> old(buffer).None?
      ensures sent ==> buffer == Some(a) && delivered == old(delivered) + [a] && dropped == old(dropped)
      ensures !sent ==> buffer == old(buffer) && delivered == old(delivered) && dropped == old(dropped) + 1
    {
      if buffer.None? {
        buffer := Some(a);
        delivered := delivered + [a];
        return true;
      }
      dropped := dropped + 1;
      return false;
    }
  }

  class BatchRequest {
    var requests: seq<SignedRequest>
    var responseCh: seq<Channel>
    var signersSeen: set<Bytes>
    var processingRequest: bool
    var createdAt: int
    var done: bool
    ghost var hash: Bytes
    ghost var signers: seq<Bytes>
    ghost var configs: seq<EnclaveConfig>
    ghost var answered: bool

    ghost function Value(): Batch<Channel>
      reads this
    {
      Batch(requests, responseCh, signersSeen, processingRequest, createdAt, done, hash, signers, configs, answered)
    }

    constructor (now: int, ghost hash: Bytes)
      ensures Value() == NewBatch(hash, now)
    {
      requests, responseCh, signersSeen := [], [], {};
      processingRequest, createdAt, done := false, now, false;
      this.hash, signers, configs, answered := hash, [], [], false;
    }

    /** Adds a waiter whose signer has already contributed. */
    method Subscribe(ch: Channel)
      modifies this
      ensures Value() == HostModel.Subscribe(old(Value()), ch)
    {
      responseCh := responseCh + [ch];
    }

    /** Counts a request by a new signer; the one that reaches the threshold starts the processing. */
    method Contribute(req: SignedRequest, signer: Bytes, ghost cfg: EnclaveConfig, ch: Channel, threshold: nat)
      returns (shouldProcess: bool)
      modifies this
      ensures Value() == HostModel.Contribute(old(Value()), req, signer, cfg, ch, threshold)
      ensures shouldProcess == (|requests| == threshold)
    {
      signersSeen := signersSeen + {signer};
      requests := requests + [req];
      responseCh := responseCh + [ch];
      signers, configs := signers + [signer], configs + [cfg];
      shouldProcess := |requests| == threshold;
      if shouldProcess {
        processingRequest := true;
      }
    }
  }

  class HostServer {
    const env: Env
    const requireBftQuorum: bool
    const pendingRequestsCache: Cache<Bytes, BatchRequest>
    const responseCache: Cache<Bytes, Answer>
    ghost var batches: set<BatchRequest>
    ghost var homes: map<Channel, BatchRequest>
    ghost var dispatches: seq<Dispatch<BatchRequest>>

    ghost function Batches(): map<BatchRequest, Batch<Channel>>
      reads this, batches
    {
      map b | b in batches :: b.Value()
    }

    ghost function Chans(): map<Channel, Chan<BatchRequest>>
      reads this, homes.Keys
    {
      map c | c in homes :: c.Value(homes[c])
    }

    ghost function Value(): Host<BatchRequest, Channel>
      reads this, batches, homes.Keys, pendingRequestsCache, responseCache
    {
      Host(Batches(), pendingRequestsCache.Value(), responseCache.Value(), Chans(), dispatches)
    }

    ghost predicate Valid()
      reads this, batches, homes.Keys, pendingRequestsCache, responseCache
    {
      && pendingRequestsCache.Valid() && pendingRequestsCache.maxEntries == 0
      && responseCache.Valid() && responseCache.maxEntries == 0
      && pendingRequestsCache as object != responseCache as object
      && pendingRequestsCache.timeToLive == responseCache.timeToLive
      && (forall k :: k in pendingRequestsCache.items ==>
            pendingRequestsCache.items[k].value in batches && pendingRequestsCache.items[k].value.hash == k)
      && (forall b, c :: b in batches && c in b.responseCh ==> c in homes)
    }

    constructor (env: Env, requireBftQuorum: bool, cacheTtl: int)
      ensures Valid() && Value() == NewHost()
      ensures fresh(pendingRequestsCache) && fresh(responseCache)
      ensures this.env == env && this.requireBftQuorum == requireBftQuorum
      ensures pendingRequestsCache.timeToLive == cacheTtl
    {
      this.env := env;
      this.requireBftQuorum := requireBftQuorum;
      pendingRequestsCache := new Cache(cacheTtl, 0);
      responseCache := new Cache(cacheTtl, 0);
      batches, homes, dispatches := {}, map[], [];
      new;
      assert Value() == NewHost();
    }

    /** `notifyWaiters`. */
    method NotifyWaiters(br: BatchRequest, a: Answer)
      requires forall c :: c in br.responseCh ==> c in homes
      modifies homes.Keys
      ensures Chans() == SendAll(old(Chans()), br.responseCh, a)
    {
      var i := 0;
      while i < |br.responseCh|
        invariant 0 <= i <= |br.responseCh|
        invariant Chans() == SendAll(old(Chans()), br.responseCh[..i], a)
      {
        var ch := br.responseCh[i];
        label before:
        var sent := ch.TrySend(a);
        OneChannelChanged@before(ch);
        assert br.responseCh[..i + 1][..i] == br.responseCh[..i];
        i := i + 1;
      }
      assert br.responseCh[..i] == br.responseCh;
    }

    /** Changing one batch changes the table of batches at that batch only. */
    twostate lemma OneBatchChanged(new br: BatchRequest)
      requires batches == old(batches) + {br}
      requires forall b :: b in old(batches) && b != br ==> unchanged(b)
      ensures Batches() == old(Batches())[br := br.Value()]
    {
    }

    twostate lemma OneChannelChanged(ch: Channel)
      requires homes == old(homes) && ch in homes
      requires forall c :: c in homes && c != ch ==> unchanged(c)
      ensures Chans() == old(Chans())[ch := ch.Value(homes[ch])]
    {
    }

    twostate lemma OneChannelOpened(new ch: Channel, new br: BatchRequest)
      requires homes == old(homes)[ch := br] && ch.buffer == None && ch.delivered == [] && ch.dropped == 0
      requires forall c :: c in old(homes) && c != ch ==> unchanged(c)
      ensures Chans() == old(Chans())[ch := Chan(None, br, [], 0)]
    {
    }

    /** Puts the batch, with its new waiter, back into the pending cache. */
    method Store(br: BatchRequest, requestHash: Bytes, responseCh: Channel, now: int)
      requires pendingRequestsCache.Valid() && pendingRequestsCache.maxEntries == 0
      modifies this`batches, this`homes, pendingRequestsCache
      ensures pendingRequestsCache.Valid()
      ensures pendingRequestsCache.Value() ==
              Stored(old(pendingRequestsCache.Value()), requestHash, br, pendingRequestsCache.timeToLive, now, 0)
      ensures batches == old(batches) + {br} && homes == old(homes)[responseCh := br]
    {
      pendingRequestsCache.Set(requestHash, br, None, now);
      batches := batches + {br};
      homes := homes[responseCh := br];
    }

    /**
     The critical section of `handleExecute` on the config snapshot `cfg`. It returns the channel
     to wait on and, when the threshold is reached, the requests to hand to the enclave.
     */
    method HandleExecute(req: SignedRequest, cfg: EnclaveConfig, now: int)
      returns (outcome: Outcome, responseCh: Channel, dispatch: Option<seq<SignedRequest>>, ghost br: BatchRequest?)
      requires Valid()
      modifies this, batches, pendingRequestsCache
      ensures Valid() && fresh(responseCh)
      ensures var early := Screen(env, old(Value()), cfg, req, now);
              if early.Some? then outcome == early.value && Value() == old(Value())
              else
                && br != null
                && (Value(), outcome) == Arrive(env, old(Value()), cfg, requireBftQuorum, req, responseCh, br, now,
                                                pendingRequestsCache.timeToLive)
      ensures dispatch == if outcome == Waiting(true) then Some(Value().dispatches[|Value().dispatches| - 1].requests)
              else None
    {
      responseCh := new Channel();
      br, dispatch := null, None;
      if cfg.T == 0 && cfg.F == 0 {
        outcome := NotConfigured;
        return;
      }
      var signer := RequestSigner(env, req, cfg.signers);
      if signer.None? {
        outcome := InvalidSignature;
        return;
      }
      var hash := HashOf(env, req);
      var cached := responseCache.Get(hash, now);
      if cached.Some? {
        outcome := Cached(cached.value);
        return;
      }
      outcome, dispatch, br := JoinBatch(req, cfg, hash, signer.value, responseCh, now);
    }

    /** The pending batch of a hash, or a new one. */
    method FindOrCreate(hash: Bytes, now: int) returns (br: BatchRequest)
      requires Valid()
      ensures (br in batches || fresh(br)) && Valid() && Value() == old(Value())
      ensures br.hash == hash && br.Value() == JoinedBatch(Value(), hash, now) && br == Joined(Value(), hash, now, br)
      ensures br !in batches ==> br.responseCh == []
    {
      var found := pendingRequestsCache.Get(hash, now);
      if found.None? {
        br := new BatchRequest(now, hash);
      } else {
        br := found.value;
      }
    }

    method SubscribeTo(br: BatchRequest, hash: Bytes, responseCh: Channel, now: int)
      requires Valid() && br.hash == hash && responseCh !in homes
      requires br !in batches ==> br.responseCh == []
      requires responseCh.buffer == None && responseCh.delivered == [] && responseCh.dropped == 0
      modifies this`batches, this`homes, br, pendingRequestsCache
      ensures Valid()
      ensures Value() == Enroll(old(Value()), br, HostModel.Subscribe(old(br.Value()), responseCh), responseCh, now,
                                pendingRequestsCache.timeToLive)
    {
      br.Subscribe(responseCh);
      Store(br, hash, responseCh, now);
      assert Batches() == old(Batches())[br := br.Value()] by { OneBatchChanged(br); }
      assert Chans() == old(Chans())[responseCh := Chan(None, br, [], 0)] by { OneChannelOpened(responseCh, br); }
    }

    method ContributeTo(br: BatchRequest, req: SignedRequest, cfg: EnclaveConfig, hash: Bytes, signer: Bytes,
                        responseCh: Channel, now: int)
      returns (shouldProcess: bool)
      requires Valid() && br.hash == hash && responseCh !in homes
      requires br !in batches ==> br.responseCh == []
      requires responseCh.buffer == None && responseCh.delivered == [] && responseCh.dropped == 0
      modifies this`batches, this`homes, br, pendingRequestsCache
      ensures Valid() && dispatches == old(dispatches)
      ensures br.Value() == HostModel.Contribute(old(br.Value()), req, signer, cfg, responseCh,
                                                 QuorumThreshold(cfg.F, requireBftQuorum))
      ensures Value() == Enroll(old(Value()), br, br.Value(), responseCh, now, pendingRequestsCache.timeToLive)
      ensures shouldProcess == (|br.requests| == QuorumThreshold(cfg.F, requireBftQuorum))
    {
      shouldProcess := br.Contribute(req, signer, cfg, responseCh, QuorumThreshold(cfg.F, requireBftQuorum));
      Store(br, hash, responseCh, now);
      assert Batches() == old(Batches())[br := br.Value()] by { OneBatchChanged(br); }
      assert Chans() == old(Chans())[responseCh := Chan(None, br, [], 0)] by { OneChannelOpened(responseCh, br); }
    }

    method JoinBatch(req: SignedRequest, cfg: EnclaveConfig, hash: Bytes, signer: Bytes, responseCh: Channel, now: int)
      returns (outcome: Outcome, dispatch: Option<seq<SignedRequest>>, ghost joined: BatchRequest)
      requires Valid() && responseCh !in homes
      requires responseCh.buffer == None && responseCh.delivered == [] && responseCh.dropped == 0
      modifies this, batches, pendingRequestsCache
      ensures Valid()
      ensures (Value(), outcome) == Join(old(Value()), cfg, requireBftQuorum, req, hash, signer, responseCh, joined,
                                         now, pendingRequestsCache.timeToLive)
      ensures dispatch == if outcome == Waiting(true) then Some(Value().dispatches[|Value().dispatches| - 1].requests)
              else None
    {
      dispatch := None;
      var br := FindOrCreate(hash, now);
      joined := br;
      if signer in br.signersSeen {
        SubscribeTo(br, hash, responseCh, now);
        outcome := Waiting(false);
      } else {
        var shouldProcess := ContributeTo(br, req, cfg, hash, signer, responseCh, now);
        if shouldProcess {
          dispatch := Some(br.requests);
          RecordDispatch(hash, br);
        }
        outcome := Waiting(shouldProcess);
      }
    }

    /** The goroutine that will call the enclave, seen as an entry of the dispatch history. */
    ghost method RecordDispatch(hash: Bytes, br: BatchRequest)
      requires Valid()
      modifies this`dispatches
      ensures Valid()
      ensures var d := Dispatch(hash, br.requests, false, br, br.signers, br.configs);
              Value() == old(Value()).(dispatches := old(dispatches) + [d])
    {
      dispatches := dispatches + [Dispatch(hash, br.requests, false, br, br.signers, br.configs)];
    }

    method Notify(br: BatchRequest, a: Answer)
      requires Valid() && br in batches
      modifies homes.Keys
      ensures Valid()
      ensures Value() == old(Value()).(chans := SendAll(old(Chans()), br.responseCh, a))
    {
      NotifyWaiters(br, a);
    }

    method MarkAnswered(br: BatchRequest, completed: bool)
      requires Valid() && br in batches
      modifies br
      ensures Valid()
      ensures Value() == old(Value()).(
                           batches := old(Batches())[br := old(br.Value()).(answered := true,
                                                                            done := old(br.done) || completed)])
      ensures br.responseCh == old(br.responseCh)
    {
      if completed {
        br.done := true;
      }
      br.answered := true;
      assert Batches() == old(Batches())[br := br.Value()] by { OneBatchChanged(br); }
    }

    method DropPending(requestHash: Bytes)
      requires Valid()
      modifies pendingRequestsCache
      ensures Valid()
      ensures Value() == old(Value()).(pending := Deleted(old(Value()).pending, requestHash))
    {
      pendingRequestsCache.Delete(requestHash);
    }

    /** Answers the waiters of a pending batch and drops it from the cache. */
    method Settle(br: BatchRequest, requestHash: Bytes, a: Answer, completed: bool)
      requires Valid() && br in batches
      modifies br, homes.Keys, pendingRequestsCache
      ensures Valid()
      ensures Value() == HostModel.Settle(old(Value()), br, requestHash, a, completed)
    {
      ghost var h := Value();
      MarkAnswered(br, completed);
      ghost var marked := Value();
      assert marked == h.(batches := h.batches[br := h.batches[br].(answered := true,
                                                                    done := h.batches[br].done || completed)]);
      Notify(br, a);
      assert Value() == marked.(chans := SendAll(h.chans, h.batches[br].waiters, a));
      DropPending(requestHash);
    }

    /** `completeBatch`, for dispatch `d` of the history. */
    method CompleteBatch(requestHash: Bytes, a: Answer, now: int, ghost d: nat)
      requires Valid()
      requires d < |dispatches| && dispatches[d].hash == requestHash
      modifies this`dispatches, batches, homes.Keys, pendingRequestsCache, responseCache
      ensures Valid()
      ensures Value() == Complete(old(Value()), d, a, now, responseCache.timeToLive)
    {
      MarkCompleted(d);
      var found := pendingRequestsCache.Get(requestHash, now);
      if found.None? {
        return;
      }
      Settle(found.value, requestHash, a, true);
      if a.Executed? {
        CacheResponse(requestHash, a, now);
      }
    }

    method CacheResponse(requestHash: Bytes, a: Answer, now: int)
      requires Valid()
      modifies responseCache
      ensures Valid()
      ensures Value() == old(Value()).(responses :=
                                       Stored(old(Value()).responses, requestHash, a, responseCache.timeToLive, now, 0))
    {
      responseCache.Set(requestHash, a, None, now);
    }

    ghost method MarkCompleted(d: nat)
      requires Valid() && d < |dispatches|
      modifies this`dispatches
      ensures Valid()
      ensures Value() == old(Value()).(dispatches := old(dispatches)[d := old(dispatches)[d].(completed := true)])
    {
      dispatches := dispatches[d := dispatches[d].(completed := true)];
    }

    /** `failBatchIfNotProcessed`. */
    method FailBatchIfNotProcessed(requestHash: Bytes, f: uint32, isShutdown: bool, now: int) returns (failed: bool)
      requires Valid()
      modifies batches, homes.Keys, pendingRequestsCache
      ensures Valid()
      ensures (Value(), failed) == Fail(old(Value()), requestHash, f, requireBftQuorum, isShutdown, now)
      ensures failed <==> && requestHash in old(pendingRequestsCache.items)
                          && Live(old(pendingRequestsCache.items)[requestHash], now)
                          && !old(pendingRequestsCache.items[requestHash].value.processingRequest)
    {
      var found := pendingRequestsCache.Get(requestHash, now);
      if found.None? || found.value.processingRequest {
        return false;
      }
      var br := found.value;
      var batchErr := if isShutdown then ShutDown
        else QuorumTimeout(|br.requests|, QuorumThreshold(f, requireBftQuorum));
      Settle(br, requestHash, batchErr, false);
      return true;
    }
  }
}
