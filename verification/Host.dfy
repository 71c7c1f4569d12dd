/**
 The host's request batching on values, one function per critical section under
 `processRequestMutex`. Batches and response channels are named by the identities `B` and
 `C` of their heap objects. The fields marked auxiliary record history; no branch reads them.
 */
module HostModel {
  import opened Bytes
  import opened Crypto
  import opened Encoding
  import opened Preimages
  import opened Protocol
  import opened CacheModel

  datatype Answer = Executed(output: Bytes) | EnclaveFailed | QuorumTimeout(received: nat, required: nat) | ShutDown

  datatype Batch<C> = Batch(
    requests: seq<SignedRequest>,
    waiters: seq<C>,
    signersSeen: set<Bytes>,
    processing: bool,
    createdAt: int,
    done: bool,
    hash: Bytes,                     // auxiliary: the hash the batch was created for
    signers: seq<Bytes>,             // auxiliary: the signer of each request
    configs: seq<EnclaveConfig>,     // auxiliary: the config each request was checked under
    answered: bool)                  // auxiliary: the waiters have been notified

  /** A response channel of capacity one. */
  datatype Chan<B> = Chan(
    buffer: Option<Answer>,
    home: B,                         // auxiliary: the batch it waits on
    delivered: seq<Answer>,          // auxiliary: every answer it accepted
    dropped: nat)                    // auxiliary: answers refused because it was full

  /** A batch handed to the enclave. */
  datatype Dispatch<B> = Dispatch(
    hash: Bytes,
    requests: seq<SignedRequest>,
    completed: bool,
    batch: B,                        // auxiliary
    signers: seq<Bytes>,             // auxiliary
    configs: seq<EnclaveConfig>)     // auxiliary

  datatype Host<B(==), C(==)> = Host(
    batches: map<B, Batch<C>>,
    pending: State<Bytes, B>,
    responses: State<Bytes, Answer>,
    chans: map<C, Chan<B>>,
    dispatches: seq<Dispatch<B>>)

  datatype Outcome = NotConfigured | InvalidSignature | Cached(answer: Answer) | Waiting(dispatched: bool)

  function NewHost<B, C>(): Host<B, C> {
    Host(map[], Empty(), Empty(), map[], [])
  }

  function NewBatch<C>(hash: Bytes, now: int): Batch<C> {
    Batch([], [], {}, false, now, false, hash, [], [], false)
  }

  // --- arrival ------------------------------------------------------------------------

  /** The batch a request of this hash joins: the live pending one, or a new one. */
  function Joined<B, C>(h: Host<B, C>, hash: Bytes, now: int, newId: B): B {
    var found := Lookup(h.pending, hash, now);
    if found.Some? then found.value else newId
  }

  function JoinedBatch<B, C>(h: Host<B, C>, hash: Bytes, now: int): Batch<C> {
    var found := Lookup(h.pending, hash, now);
    if found.Some? && found.value in h.batches then h.batches[found.value] else NewBatch(hash, now)
  }

  /** The batch with the request counted and its channel subscribed. */
  function Contribute<C>(br: Batch<C>, req: SignedRequest, signer: Bytes, cfg: EnclaveConfig, ch: C,
                         threshold: nat): Batch<C>
  {
    br.(signersSeen := br.signersSeen + {signer},
        requests := br.requests + [req],
        waiters := br.waiters + [ch],
        processing := br.processing || |br.requests| + 1 == threshold,
        signers := br.signers + [signer],
        configs := br.configs + [cfg])
  }

  function Subscribe<C>(br: Batch<C>, ch: C): Batch<C> {
    br.(waiters := br.waiters + [ch])
  }

  /** The state with batch `id` stored and its new channel open. */
  function Enroll<B, C>(h: Host<B, C>, id: B, br: Batch<C>, ch: C, now: int, ttl: int): Host<B, C> {
    h.(batches := h.batches[id := br],
       chans := h.chans[ch := Chan(None, id, [], 0)],
       pending := Stored(h.pending, br.hash, id, ttl, now, 0))
  }

  /** The answers given before any batch is touched: not configured, bad signature, or a cached response. */
  function Screen<B, C>(env: Env, h: Host<B, C>, cfg: EnclaveConfig, req: SignedRequest, now: int): Option<Outcome> {
    if cfg.T == 0 && cfg.F == 0 then Some(NotConfigured)
    else if RequestSigner(env, req, cfg.signers).None? then Some(InvalidSignature)
    else
      var cached := Lookup(h.responses, HashOf(env, req), now);
      if cached.Some? then Some(Cached(cached.value)) else None
  }

  /** Joining the batch of the request's hash, and dispatching it when this request completes the quorum. */
  function Join<B, C>(h: Host<B, C>, cfg: EnclaveConfig, bft: bool, req: SignedRequest, hash: Bytes, signer: Bytes,
                      ch: C, newId: B, now: int, ttl: int): (Host<B, C>, Outcome)
  {
    var id, br := Joined(h, hash, now, newId), JoinedBatch(h, hash, now);
    if signer in br.signersSeen
    then (Enroll(h, id, Subscribe(br, ch), ch, now, ttl), Waiting(false))
    else
      var threshold := QuorumThreshold(cfg.F, bft);
      var br' := Contribute(br, req, signer, cfg, ch, threshold);
      var h' := Enroll(h, id, br', ch, now, ttl);
      if |br'.requests| == threshold
      then (h'.(dispatches := h'.dispatches + [Dispatch(hash, br'.requests, false, id, br'.signers, br'.configs)]),
            Waiting(true))
      else (h', Waiting(false))
  }

  /** The critical section of `handleExecute`, on the config snapshot taken before it. */
  function Arrive<B, C>(env: Env, h: Host<B, C>, cfg: EnclaveConfig, bft: bool, req: SignedRequest, ch: C, newId: B,
                        now: int, ttl: int): (Host<B, C>, Outcome)
  {
    var early := Screen(env, h, cfg, req, now);
    if early.Some? then (h, early.value)
    else Join(h, cfg, bft, req, HashOf(env, req), RequestSigner(env, req, cfg.signers).value, ch, newId, now, ttl)
  }

  // --- answering ----------------------------------------------------------------------

  /** A non-blocking send. */
  function Send<B>(c: Chan<B>, a: Answer): Chan<B> {
    if c.buffer.None? then c.(buffer := Some(a), delivered := c.delivered + [a]) else c.(dropped := c.dropped + 1)
  }

  /** `notifyWaiters`. */
  function SendAll<B, C>(chans: map<C, Chan<B>>, waiters: seq<C>, a: Answer): map<C, Chan<B>> {
    if waiters == [] then chans
    else
      var rest := SendAll(chans, waiters[..|waiters| - 1], a);
      var ch := waiters[|waiters| - 1];
      if ch in rest then rest[ch := Send(rest[ch], a)] else rest
  }

  /** Notifies the waiters of a batch and takes its hash out of the pending cache. */
  function Settle<B, C>(h: Host<B, C>, id: B, hash: Bytes, a: Answer, done: bool): Host<B, C>
    requires id in h.batches
  {
    var br := h.batches[id];
    h.(chans := SendAll(h.chans, br.waiters, a),
       batches := h.batches[id := br.(answered := true, done := br.done || done)],
       pending := Deleted(h.pending, hash))
  }

  /** `completeBatch`, called when `processBatch` returns for dispatch `d`. */
  function Complete<B, C>(h: Host<B, C>, d: nat, a: Answer, now: int, ttl: int): Host<B, C>
    requires d < |h.dispatches|
  {
    var hash := h.dispatches[d].hash;
    var h' := h.(dispatches := h.dispatches[d := h.dispatches[d].(completed := true)]);
    var found := Lookup(h.pending, hash, now);
    if found.None? || found.value !in h.batches then h'
    else
      var h'' := Settle(h', found.value, hash, a, true);
      if a.Executed? then h''.(responses := Stored(h.responses, hash, a, ttl, now, 0)) else h''
  }

  /** `failBatchIfNotProcessed`. */
  function Fail<B, C>(h: Host<B, C>, hash: Bytes, f: uint32, bft: bool, isShutdown: bool, now: int)
    : (Host<B, C>, bool)
  {
    var found := Lookup(h.pending, hash, now);
    if found.None? || found.value !in h.batches || h.batches[found.value].processing then (h, false)
    else
      var a := if isShutdown then ShutDown
               else QuorumTimeout(|h.batches[found.value].requests|, QuorumThreshold(f, bft));
      (Settle(h, found.value, hash, a, false), true)
  }

  // --- events -------------------------------------------------------------------------

  datatype Event<B(==), C(==)> =
    | Arrival(cfg: EnclaveConfig, req: SignedRequest, ch: C, newId: B, now: int)
    | Completion(d: nat, answer: Answer, now: int)
    | Timer(hash: Bytes, f: uint32, isShutdown: bool, now: int)
    | CollectPending(now: int)
    | CollectResponses(now: int)
    | Receive(ch: C)

  /** The clock reading of an event. */
  function EventTime<B, C>(e: Event<B, C>): Option<int> {
    match e
    case Arrival(_, _, _, _, now) => Some(now)
    case Completion(_, _, now) => Some(now)
    case Timer(_, _, _, now) => Some(now)
    case CollectPending(now) => Some(now)
    case CollectResponses(now) => Some(now)
    case Receive(_) => None
  }

  /**
   New objects are new; a completion is of a dispatch that has not completed, with an answer an
   enclave call can give.
   */
  predicate Enabled<B, C>(h: Host<B, C>, e: Event<B, C>) {
    match e
    case Arrival(_, _, ch, newId, _) => ch !in h.chans && newId !in h.batches
    case Completion(d, a, _) => d < |h.dispatches| && !h.dispatches[d].completed && (a.Executed? || a.EnclaveFailed?)
    case Receive(ch) => ch in h.chans
    case _ => true
  }

  function Next<B, C>(env: Env, h: Host<B, C>, e: Event<B, C>, bft: bool, ttl: int): Host<B, C>
    requires Enabled(h, e)
  {
    match e
    case Arrival(cfg, req, ch, newId, now) => Arrive(env, h, cfg, bft, req, ch, newId, now, ttl).0
    case Completion(d, a, now) => Complete(h, d, a, now, ttl)
    case Timer(hash, f, sd, now) => Fail(h, hash, f, bft, sd, now).0
    case CollectPending(now) => h.(pending := Collected(h.pending, now))
    case CollectResponses(now) => h.(responses := Collected(h.responses, now))
    case Receive(ch) => h.(chans := h.chans[ch := h.chans[ch].(buffer := None)])
  }

  /** Every event of the run is enabled where it happens. */
  predicate Possible<B, C>(env: Env, events: seq<Event<B, C>>, bft: bool, ttl: int)
    decreases |events|, 0
  {
    events == [] ||
    var before := events[..|events| - 1];
    Possible(env, before, bft, ttl) && Enabled(After(env, before, bft, ttl), events[|events| - 1])
  }

  function After<B, C>(env: Env, events: seq<Event<B, C>>, bft: bool, ttl: int): Host<B, C>
    requires Possible(env, events, bft, ttl)
    decreases |events|, 1
  {
    if events == [] then NewHost()
    else Next(env, After(env, events[..|events| - 1], bft, ttl), events[|events| - 1], bft, ttl)
  }
}
