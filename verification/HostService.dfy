/**
 What the host does for its callers in every run: whom it counts, whom a timer fails, what it serves
 from the cache.
 */
module HostService {
  import opened Bytes
  import opened Crypto
  import opened Encoding
  import opened Preimages
  import opened Protocol
  import opened CacheModel
  import opened HostModel
  import opened HostInvariants
  import opened HostAnswers
  import opened HostFate

  // --- every batch has a waiter ---------------------------------------------------------------

  lemma {:induction false} SomebodyWaits<B, C>(env: Env, events: seq<Event<B, C>>, bft: bool, ttl: int, id: B)
    requires Possible(env, events, bft, ttl) && id in After(env, events, bft, ttl).batches
    ensures After(env, events, bft, ttl).batches[id].waiters != []
  {
    if events != [] {
      var before, e := events[..|events| - 1], events[|events| - 1];
      var h := After(env, before, bft, ttl);
      forall b | b in h.batches ensures h.batches[b].waiters != [] {
        SomebodyWaits(env, before, bft, ttl, b);
      }
      NextKeepsWaiters(env, h, e, bft, ttl, id);
    }
  }

  lemma NextKeepsWaiters<B, C>(env: Env, h: Host<B, C>, e: Event<B, C>, bft: bool, ttl: int, id: B)
    requires Enabled(h, e) && id in Next(env, h, e, bft, ttl).batches
    requires forall b :: b in h.batches ==> h.batches[b].waiters != []
    ensures Next(env, h, e, bft, ttl).batches[id].waiters != []
  {
    match e
    case Arrival(_, _, _, _, _) => ArriveKeepsWaiters(env, h, e, bft, ttl, id);
    case Completion(_, _, _) => CompleteKeepsWaiters(h, e, ttl, id);
    case Timer(_, _, _, _) =>
    case CollectPending(_) =>
    case CollectResponses(_) =>
    case Receive(_) =>
  }

  lemma ArriveKeepsWaiters<B, C>(env: Env, h: Host<B, C>, e: Event<B, C>, bft: bool, ttl: int, id: B)
    requires e.Arrival? && id in Arrive(env, h, e.cfg, bft, e.req, e.ch, e.newId, e.now, ttl).0.batches
    requires forall b :: b in h.batches ==> h.batches[b].waiters != []
    ensures Arrive(env, h, e.cfg, bft, e.req, e.ch, e.newId, e.now, ttl).0.batches[id].waiters != []
  {
  }

  lemma CompleteKeepsWaiters<B, C>(h: Host<B, C>, e: Event<B, C>, ttl: int, id: B)
    requires e.Completion? && e.d < |h.dispatches| && id in Complete(h, e.d, e.answer, e.now, ttl).batches
    requires forall b :: b in h.batches ==> h.batches[b].waiters != []
    ensures Complete(h, e.d, e.answer, e.now, ttl).batches[id].waiters != []
  {
  }

  // --- timers -----------------------------------------------------------------------------------

  /** The error a timer or the shutdown gives to the waiters of a batch. */
  function ErrorOf<C>(br: Batch<C>, f: uint32, bft: bool, isShutdown: bool): Answer {
    if isShutdown then ShutDown else QuorumTimeout(|br.requests|, QuorumThreshold(f, bft))
  }

  /**
   From `h` to `u` the batch pending under `hash` has left with answer `a`, done if it was completed, and
   nobody else was touched.
   */
  ghost predicate LeavesWith<B, C>(h: Host<B, C>, u: Host<B, C>, hash: Bytes, id: B, a: Answer, completed: bool) {
    && AllAnswered(h, u, id, a) && h.batches[id].waiters != []
    && id in u.batches
    && u.batches[id] == h.batches[id].(answered := true, done := h.batches[id].done || completed)
    && hash !in u.pending.items
    && (forall k :: k in h.pending.items && k != hash ==>
          k in u.pending.items && u.pending.items[k] == h.pending.items[k])
    && (forall ch :: ch in h.chans && ch !in h.batches[id].waiters ==> ch in u.chans && u.chans[ch] == h.chans[ch])
    && (forall b :: b in h.batches && b != id ==> b in u.batches && u.batches[b] == h.batches[b])
  }

  lemma SettleLeaves<B, C>(h: Host<B, C>, id: B, hash: Bytes, a: Answer, done: bool)
    requires Inv(h) && hash in h.pending.items && h.pending.items[hash].value == id
    requires id in h.batches && h.batches[id].waiters != []
    ensures LeavesWith(h, Settle(h, id, hash, a, done), hash, id, a, done)
  {
    SettleKeepsInv(h, id, hash, a, done);
    SendAllDelivers(h.chans, h.batches[id].waiters, a);
  }

  /**
   What a timer, or the shutdown, does after any run. A hash that has a live pending entry leaves the
   pending cache if and only if its batch is not processing; then each of its waiters, none of whom had
   an answer, gets the error, and nothing else changes. In every other case nothing changes at all.
   */
  lemma TimerFails<B, C>(env: Env, events: seq<Event<B, C>>, e: Event<B, C>, bft: bool, ttl: int)
    requires Possible(env, events, bft, ttl) && e.Timer?
    ensures var h := After(env, events, bft, ttl);
            var u := Next(env, h, e, bft, ttl);
            if e.hash in h.pending.items && Live(h.pending.items[e.hash], e.now)
            then
              var id := h.pending.items[e.hash].value;
              && id in h.batches
              && (e.hash !in u.pending.items <==> !h.batches[id].processing)
              && (h.batches[id].processing ==> u == h)
              && (!h.batches[id].processing ==>
                    LeavesWith(h, u, e.hash, id, ErrorOf(h.batches[id], e.f, bft, e.isShutdown), false))
            else u == h
  {
    RunKeepsInv(env, events, bft, ttl);
    var h := After(env, events, bft, ttl);
    if e.hash in h.pending.items && Live(h.pending.items[e.hash], e.now) {
      var id := h.pending.items[e.hash].value;
      SomebodyWaits(env, events, bft, ttl, id);
      LiveTimer(h, e, bft, id);
    }
  }

  lemma LiveTimer<B, C>(h: Host<B, C>, e: Event<B, C>, bft: bool, id: B)
    requires Inv(h) && e.Timer? && e.hash in h.pending.items && Live(h.pending.items[e.hash], e.now)
    requires h.pending.items[e.hash].value == id && id in h.batches && h.batches[id].waiters != []
    ensures var u := Fail(h, e.hash, e.f, bft, e.isShutdown, e.now).0;
            && (h.batches[id].processing ==> u == h)
            && (!h.batches[id].processing ==>
                  LeavesWith(h, u, e.hash, id, ErrorOf(h.batches[id], e.f, bft, e.isShutdown), false))
  {
    if !h.batches[id].processing {
      SettleLeaves(h, id, e.hash, ErrorOf(h.batches[id], e.f, bft, e.isShutdown), false);
    }
  }

  // --- the response cache -------------------------------------------------------------------------

  /** Event `j` completed a dispatch of this hash with output `o` while the hash had a live pending entry. */
  ghost predicate SucceededAt<B, C>(env: Env, events: seq<Event<B, C>>, bft: bool, ttl: int, j: nat, hash: Bytes,
                                    o: Bytes)
  {
    && CompletedAt(env, events, bft, ttl, j, hash, Executed(o))
    && Lookup(After(env, events[..j], bft, ttl).pending, hash, events[j].now).Some?
  }

  /** The response cache holds an output for the hash, stored at `since` or later with the full lifetime. */
  predicate Holds<B, C>(h: Host<B, C>, hash: Bytes, o: Bytes, since: int, ttl: int) {
    && hash in h.responses.items && h.responses.items[hash].value == Executed(o)
    && h.responses.items[hash].ttl == ttl && h.responses.items[hash].created >= since
  }

  /** A success of the hash is in the cache after the event, stored at its time. */
  lemma SuccessIsHeld<B, C>(h: Host<B, C>, d: nat, o: Bytes, now: int, ttl: int)
    requires PendingOk(h) && d < |h.dispatches| && Lookup(h.pending, h.dispatches[d].hash, now).Some?
    ensures Holds(Complete(h, d, Executed(o), now, ttl), h.dispatches[d].hash, o, now, ttl)
  {
  }

  /** Whatever the event, up to the end of the lifetime the cache goes on to hold an output: the same or a later one. */
  lemma NextHolds<B, C>(env: Env, h: Host<B, C>, e: Event<B, C>, bft: bool, ttl: int, hash: Bytes, o: Bytes, since: int)
    requires PendingOk(h) && Enabled(h, e) && Holds(h, hash, o, since, ttl)
    requires EventTime(e).Some? ==> since <= EventTime(e).value <= since + ttl
    ensures var u := Next(env, h, e, bft, ttl);
            || Holds(u, hash, o, since, ttl)
            || (e.Completion? && e.answer.Executed? && h.dispatches[e.d].hash == hash
                && Holds(u, hash, e.answer.output, since, ttl))
  {
  }

  /** The clock readings from event `j` on lie in the lifetime that starts with it. */
  predicate Within<B, C>(events: seq<Event<B, C>>, j: nat, ttl: int) {
    && j < |events| && EventTime(events[j]).Some?
    && forall k :: j <= k < |events| && EventTime(events[k]).Some? ==>
         EventTime(events[j]).value <= EventTime(events[k]).value <= EventTime(events[j]).value + ttl
  }

  lemma {:induction false} OutputIsHeld<B, C>(env: Env, events: seq<Event<B, C>>, bft: bool, ttl: int, j: nat,
                                              hash: Bytes, o: Bytes) returns (k: nat, p: Bytes)
    requires Possible(env, events, bft, ttl) && SucceededAt(env, events, bft, ttl, j, hash, o) && Within(events, j, ttl)
    ensures j <= k && CompletedAt(env, events, bft, ttl, k, hash, Executed(p)) && (k == j ==> p == o)
    ensures Holds(After(env, events, bft, ttl), hash, p, EventTime(events[j]).value, ttl)
    decreases |events|
  {
    var before, e := events[..|events| - 1], events[|events| - 1];
    var h := After(env, before, bft, ttl);
    assert PendingOk(h) by { RunKeepsInv(env, before, bft, ttl); }
    if j == |events| - 1 {
      k, p := j, o;
      assert events[..j] == before;
      SuccessIsHeld(h, e.d, o, e.now, ttl);
    } else {
      assert Within(before, j, ttl) && SucceededAt(env, before, bft, ttl, j, hash, o) by {
        assert before[..j] == events[..j];
      }
      k, p := OutputIsHeld(env, before, bft, ttl, j, hash, o);
      k, p := HeldOn(env, events, bft, ttl, j, hash, k, p);
    }
  }

  lemma HeldOn<B, C>(env: Env, events: seq<Event<B, C>>, bft: bool, ttl: int, j: nat, hash: Bytes, i: nat, o: Bytes)
    returns (k: nat, p: Bytes)
    requires events != [] && Possible(env, events, bft, ttl) && j < |events| - 1 && j <= i && Within(events, j, ttl)
    requires var before := events[..|events| - 1];
             && CompletedAt(env, before, bft, ttl, i, hash, Executed(o))
             && Holds(After(env, before, bft, ttl), hash, o, EventTime(events[j]).value, ttl)
    ensures i <= k && CompletedAt(env, events, bft, ttl, k, hash, Executed(p)) && (k == i ==> p == o)
    ensures Holds(After(env, events, bft, ttl), hash, p, EventTime(events[j]).value, ttl)
  {
    var before, e := events[..|events| - 1], events[|events| - 1];
    var h := After(env, before, bft, ttl);
    assert PendingOk(h) by { RunKeepsInv(env, before, bft, ttl); }
    NextHolds(env, h, e, bft, ttl, hash, o, EventTime(events[j]).value);
    if Holds(After(env, events, bft, ttl), hash, o, EventTime(events[j]).value, ttl) {
      k, p := i, o;
      assert before[..i] == events[..i];
    } else {
      k, p := |before|, e.answer.output;
    }
  }

  /**
   Once a dispatch of a hash has succeeded, every validly signed request of that hash that arrives within
   the lifetime is answered with that output, or with the output of a later completion of the hash; it
   opens no batch and changes nothing, whatever happened in between.
   */
  lemma ServedFromCache<B, C>(env: Env, events: seq<Event<B, C>>, bft: bool, ttl: int, j: nat, o: Bytes, e: Event<B, C>)
    returns (k: nat, p: Bytes)
    requires Possible(env, events, bft, ttl) && e.Arrival?
    requires SucceededAt(env, events, bft, ttl, j, HashOf(env, e.req), o)
    requires Within(events + [e], j, ttl)
    requires !(e.cfg.T == 0 && e.cfg.F == 0) && RequestSigner(env, e.req, e.cfg.signers).Some?
    ensures j <= k && CompletedAt(env, events, bft, ttl, k, HashOf(env, e.req), Executed(p)) && (k == j ==> p == o)
    ensures var h := After(env, events, bft, ttl);
            Arrive(env, h, e.cfg, bft, e.req, e.ch, e.newId, e.now, ttl) == (h, Cached(Executed(p)))
  {
    assert Within(events, j, ttl) by {
      assert forall i :: 0 <= i < |events| ==> (events + [e])[i] == events[i];
    }
    k, p := OutputIsHeld(env, events, bft, ttl, j, HashOf(env, e.req), o);
    assert (events + [e])[|events|] == e && (events + [e])[j] == events[j];
  }

  // --- completions --------------------------------------------------------------------------------

  lemma CompleteLeaves<B, C>(h: Host<B, C>, e: Event<B, C>, ttl: int, id: B)
    requires Inv(h) && e.Completion? && Enabled(h, e)
    requires Lookup(h.pending, h.dispatches[e.d].hash, e.now) == Some(id) && id in h.batches
    requires h.batches[id].waiters != []
    ensures LeavesWith(h, Complete(h, e.d, e.answer, e.now, ttl), h.dispatches[e.d].hash, id, e.answer, true)
  {
    var hash, h' := h.dispatches[e.d].hash, Returned(h, e.d);
    SameViewKeepsInv(h, h');
    SettleLeaves(h', id, hash, e.answer, true);
    CompleteIsSettle(h, e.d, e.answer, e.now, ttl);
  }

  /**
   What a completion does after any run. If the hash has a live pending entry, its batch leaves with the
   answer, and a success is held by the response cache from then on. Otherwise nobody hears and nothing
   is cached. A failure is never cached.
   */
  lemma CompletionSettles<B, C>(env: Env, events: seq<Event<B, C>>, e: Event<B, C>, bft: bool, ttl: int)
    requires Possible(env, events, bft, ttl) && e.Completion? && Enabled(After(env, events, bft, ttl), e)
    ensures var h := After(env, events, bft, ttl);
            var u := Next(env, h, e, bft, ttl);
            var hash := h.dispatches[e.d].hash;
            && |u.dispatches| == |h.dispatches| && u.dispatches[e.d] == h.dispatches[e.d].(completed := true)
            && (forall i :: 0 <= i < |h.dispatches| && i != e.d ==> u.dispatches[i] == h.dispatches[i])
            && if hash in h.pending.items && Live(h.pending.items[hash], e.now)
               then
                 && LeavesWith(h, u, hash, h.pending.items[hash].value, e.answer, true)
                 && (if e.answer.Executed? then Holds(u, hash, e.answer.output, e.now, ttl)
                     else u.responses == h.responses)
               else u.pending == h.pending && u.chans == h.chans && u.batches == h.batches && u.responses == h.responses
  {
    RunKeepsInv(env, events, bft, ttl);
    var h := After(env, events, bft, ttl);
    var hash := h.dispatches[e.d].hash;
    CompleteIsSettle(h, e.d, e.answer, e.now, ttl);
    if hash in h.pending.items && Live(h.pending.items[hash], e.now) {
      var id := h.pending.items[hash].value;
      SomebodyWaits(env, events, bft, ttl, id);
      CompleteLeaves(h, e, ttl, id);
      if e.answer.Executed? {
        SuccessIsHeld(h, e.d, e.answer.output, e.now, ttl);
      }
    }
  }

  // --- arrivals -----------------------------------------------------------------------------------

  /**
   The request waits in batch `id` of its hash, which was `was` before: its channel is the last waiter,
   it is counted unless its signer was, the batch is pending for a full lifetime from now on, and no
   other batch, channel or entry changes.
   */
  ghost predicate WaitsIn<B, C>(h: Host<B, C>, u: Host<B, C>, e: Event<B, C>, id: B, was: Batch<C>, hash: Bytes,
                                signer: Bytes, ttl: int)
    requires e.Arrival?
  {
    && id in u.batches && u.batches[id].hash == hash && !u.batches[id].answered
    && u.batches[id].waiters == was.waiters + [e.ch]
    && u.batches[id].requests == was.requests + (if signer in was.signersSeen then [] else [e.req])
    && u.batches[id].signersSeen == was.signersSeen + {signer}
    && u.chans == h.chans[e.ch := Chan(None, id, [], 0)]
    && (forall t :: t <= e.now + ttl ==> Lookup(u.pending, hash, t) == Some(id))
    && (forall t :: t > e.now + ttl ==> Lookup(u.pending, hash, t) == None)
    && (forall k :: k in h.pending.items && k != hash ==>
          k in u.pending.items && u.pending.items[k] == h.pending.items[k])
    && (forall b :: b in h.batches && b != id ==> b in u.batches && u.batches[b] == h.batches[b])
    && u.responses == h.responses
  }

  /**
   What the arrival of a request does after any run. It is refused, with nothing changed, exactly when
   the host has no config or no current signer signed it, and answered from the cache exactly when an
   output of its hash is there. Otherwise it waits: in the batch of its hash if that has a live pending
   entry, and in a new one if not.
   */
  lemma ArrivalIsServed<B, C>(env: Env, events: seq<Event<B, C>>, e: Event<B, C>, bft: bool, ttl: int)
    requires Possible(env, events, bft, ttl) && e.Arrival? && Enabled(After(env, events, bft, ttl), e)
    ensures var h := After(env, events, bft, ttl);
            var (u, outcome) := Arrive(env, h, e.cfg, bft, e.req, e.ch, e.newId, e.now, ttl);
            var hash, signer := HashOf(env, e.req), RequestSigner(env, e.req, e.cfg.signers);
            if e.cfg.T == 0 && e.cfg.F == 0 then outcome == NotConfigured && u == h
            else if signer.None? then outcome == InvalidSignature && u == h
            else if hash in h.responses.items && Live(h.responses.items[hash], e.now)
            then outcome == Cached(h.responses.items[hash].value) && u == h
            else
              && outcome.Waiting?
              && if hash in h.pending.items && Live(h.pending.items[hash], e.now)
                 then
                   var id := h.pending.items[hash].value;
                   id in h.batches && WaitsIn(h, u, e, id, h.batches[id], hash, signer.value, ttl)
                 else WaitsIn(h, u, e, e.newId, NewBatch(hash, e.now), hash, signer.value, ttl)
  {
    RunKeepsInv(env, events, bft, ttl);
    var h := After(env, events, bft, ttl);
    if Screen(env, h, e.cfg, e.req, e.now).None? {
      JoinWaits(env, h, e, bft, ttl);
    }
  }

  lemma StoredIsFound<B>(pending: State<Bytes, B>, hash: Bytes, id: B, ttl: int, now: int)
    ensures var u := Stored(pending, hash, id, ttl, now, 0);
            && (forall t :: t <= now + ttl ==> Lookup(u, hash, t) == Some(id))
            && (forall t :: t > now + ttl ==> Lookup(u, hash, t) == None)
            && (forall k :: k in pending.items && k != hash ==> k in u.items && u.items[k] == pending.items[k])
  {
  }

  lemma JoinCounts<B, C>(env: Env, h: Host<B, C>, e: Event<B, C>, bft: bool, ttl: int)
    requires e.Arrival? && Screen(env, h, e.cfg, e.req, e.now).None?
    ensures var hash, signer := HashOf(env, e.req), RequestSigner(env, e.req, e.cfg.signers).value;
            var r := Arrive(env, h, e.cfg, bft, e.req, e.ch, e.newId, e.now, ttl);
            var id, was := Joined(h, hash, e.now, e.newId), JoinedBatch(h, hash, e.now);
            && r.1.Waiting? && r.0.responses == h.responses
            && id in r.0.batches && r.0.batches[id].waiters == was.waiters + [e.ch]
            && r.0.batches[id].requests == was.requests + (if signer in was.signersSeen then [] else [e.req])
            && r.0.batches[id].signersSeen == was.signersSeen + {signer}
  {
  }

  lemma JoinWaits<B, C>(env: Env, h: Host<B, C>, e: Event<B, C>, bft: bool, ttl: int)
    requires Inv(h) && e.Arrival? && Enabled(h, e) && Screen(env, h, e.cfg, e.req, e.now).None?
    ensures var hash, signer := HashOf(env, e.req), RequestSigner(env, e.req, e.cfg.signers).value;
            var u := Arrive(env, h, e.cfg, bft, e.req, e.ch, e.newId, e.now, ttl).0;
            WaitsIn(h, u, e, Joined(h, hash, e.now, e.newId), JoinedBatch(h, hash, e.now), hash, signer, ttl)
  {
    var hash := HashOf(env, e.req);
    JoinCounts(env, h, e, bft, ttl);
    ArrivalShape(env, h, e.cfg, bft, e.req, e.ch, e.newId, e.now, ttl);
    StoredIsFound(h.pending, hash, Joined(h, hash, e.now, e.newId), ttl, e.now);
  }
}
