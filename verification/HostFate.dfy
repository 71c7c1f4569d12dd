/** What becomes of a batch: it is answered, it waits, or its pending entry expired. */
module HostFate {
  import opened Bytes
  import opened Crypto
  import opened Encoding
  import opened Preimages
  import opened Protocol
  import opened CacheModel
  import opened HostModel
  import opened HostInvariants
  import opened HostAnswers

  /** The pending cache leads from the batch's hash to the batch. */
  predicate PendingUnder<B, C>(h: Host<B, C>, id: B) {
    id in h.batches && h.batches[id].hash in h.pending.items && h.pending.items[h.batches[id].hash].value == id
  }

  /** The batch can no longer be found, and its waiters have no answer. */
  predicate Forgotten<B, C>(h: Host<B, C>, id: B) {
    id in h.batches && !h.batches[id].answered && !PendingUnder(h, id)
  }

  /** No event takes a batch away, changes its hash, or takes an answer back. */
  predicate Persists<B, C>(h: Host<B, C>, u: Host<B, C>, id: B) {
    id in h.batches && id in u.batches && u.batches[id].hash == h.batches[id].hash
    && (h.batches[id].answered ==> u.batches[id].answered)
  }

  lemma JoinPersists<B, C>(h: Host<B, C>, u: Host<B, C>, id: B, br: Batch<C>, x: B)
    requires u.batches == h.batches[id := br] && PendingUnder(u, id)
    requires id in h.batches ==> br.hash == h.batches[id].hash && br.answered == h.batches[id].answered
    ensures x in h.batches ==> Persists(h, u, x) && u.batches[x].answered == h.batches[x].answered
    ensures x in u.batches && x !in h.batches ==> PendingUnder(u, x)
  {
  }

  lemma ArrivalPersists<B, C>(env: Env, h: Host<B, C>, e: Event<B, C>, bft: bool, ttl: int, id: B)
    requires Inv(h) && e.Arrival? && Enabled(h, e)
    ensures var u := Arrive(env, h, e.cfg, bft, e.req, e.ch, e.newId, e.now, ttl).0;
            && (id in h.batches ==> Persists(h, u, id) && u.batches[id].answered == h.batches[id].answered)
            && (id in u.batches && id !in h.batches ==> PendingUnder(u, id))
  {
    ArrivalShape(env, h, e.cfg, bft, e.req, e.ch, e.newId, e.now, ttl);
    var r := Arrive(env, h, e.cfg, bft, e.req, e.ch, e.newId, e.now, ttl);
    if r.1.Waiting? {
      var joined := Joined(h, HashOf(env, e.req), e.now, e.newId);
      JoinPersists(h, r.0, joined, r.0.batches[joined], id);
    }
  }

  lemma NextPersists<B, C>(env: Env, h: Host<B, C>, e: Event<B, C>, bft: bool, ttl: int, id: B)
    requires Inv(h) && Enabled(h, e)
    ensures var u := Next(env, h, e, bft, ttl);
            && (id in h.batches ==> Persists(h, u, id))
            && (id in u.batches && id !in h.batches ==> PendingUnder(u, id))
  {
    match e
    case Arrival(_, _, _, _, _) => ArrivalPersists(env, h, e, bft, ttl, id);
    case Completion(_, _, _) => CompletionPersists(h, e, ttl, id);
    case Timer(_, _, _, _) =>
    case CollectPending(_) =>
    case CollectResponses(_) =>
    case Receive(_) =>
  }

  lemma CompletionPersists<B, C>(h: Host<B, C>, e: Event<B, C>, ttl: int, id: B)
    requires Inv(h) && e.Completion? && Enabled(h, e)
    ensures var u := Complete(h, e.d, e.answer, e.now, ttl);
            (id in u.batches <==> id in h.batches) && (id in h.batches ==> Persists(h, u, id))
  {
    CompleteIsSettle(h, e.d, e.answer, e.now, ttl);
  }

  lemma ArrivalKeepsPending<B, C>(env: Env, h: Host<B, C>, e: Event<B, C>, bft: bool, ttl: int, id: B)
    requires Inv(h) && e.Arrival? && Enabled(h, e) && PendingUnder(h, id)
    requires Live(h.pending.items[h.batches[id].hash], e.now)
    ensures PendingUnder(Arrive(env, h, e.cfg, bft, e.req, e.ch, e.newId, e.now, ttl).0, id)
  {
    ArrivalKeepsEntry(env, h, e.cfg, bft, e.req, e.ch, e.newId, e.now, ttl, h.batches[id].hash);
    ArrivalPersists(env, h, e, bft, ttl, id);
  }

  lemma CompletionKeepsOrAnswers<B, C>(h: Host<B, C>, e: Event<B, C>, ttl: int, id: B)
    requires Inv(h) && e.Completion? && Enabled(h, e) && PendingUnder(h, id)
    requires Live(h.pending.items[h.batches[id].hash], e.now)
    ensures var u := Complete(h, e.d, e.answer, e.now, ttl);
            id in u.batches && (PendingUnder(u, id) || u.batches[id].answered)
  {
  }

  lemma TimerKeepsOrAnswers<B, C>(h: Host<B, C>, e: Event<B, C>, bft: bool, id: B)
    requires Inv(h) && e.Timer? && PendingUnder(h, id) && Live(h.pending.items[h.batches[id].hash], e.now)
    ensures var u := Fail(h, e.hash, e.f, bft, e.isShutdown, e.now).0;
            id in u.batches && (PendingUnder(u, id) || u.batches[id].answered)
  {
  }

  /** A pending batch whose entry has not expired stays pending or is answered. */
  lemma StepFate<B, C>(env: Env, h: Host<B, C>, e: Event<B, C>, bft: bool, ttl: int, id: B)
    requires Inv(h) && Enabled(h, e) && PendingUnder(h, id)
    requires EventTime(e).Some? ==> Live(h.pending.items[h.batches[id].hash], EventTime(e).value)
    ensures var u := Next(env, h, e, bft, ttl); id in u.batches && (PendingUnder(u, id) || u.batches[id].answered)
  {
    match e
    case Arrival(_, _, _, _, _) => ArrivalKeepsPending(env, h, e, bft, ttl, id);
    case Completion(_, _, _) => CompletionKeepsOrAnswers(h, e, ttl, id);
    case Timer(_, _, _, _) => TimerKeepsOrAnswers(h, e, bft, id);
    case CollectPending(_) =>
    case CollectResponses(_) =>
    case Receive(_) =>
  }

  /** Before event `j` the batch was pending, and at that event's time its entry had expired. */
  ghost predicate LapsedAt<B, C>(env: Env, events: seq<Event<B, C>>, bft: bool, ttl: int, j: nat, id: B) {
    && j < |events| && Possible(env, events[..j], bft, ttl) && EventTime(events[j]).Some?
    && var h := After(env, events[..j], bft, ttl);
       PendingUnder(h, id) && !Live(h.pending.items[h.batches[id].hash], EventTime(events[j]).value)
  }

  ghost predicate Lapsed<B, C>(env: Env, events: seq<Event<B, C>>, bft: bool, ttl: int, id: B) {
    exists j: nat :: LapsedAt(env, events, bft, ttl, j, id)
  }

  lemma StaysLapsed<B, C>(env: Env, events: seq<Event<B, C>>, bft: bool, ttl: int, id: B)
    requires events != [] && Lapsed(env, events[..|events| - 1], bft, ttl, id)
    ensures Lapsed(env, events, bft, ttl, id)
  {
    var before := events[..|events| - 1];
    var j: nat :| LapsedAt(env, before, bft, ttl, j, id);
    assert before[..j] == events[..j];
    assert LapsedAt(env, events, bft, ttl, j, id);
  }

  /**
   In every run every batch has been answered, is pending under its hash, or had its pending entry
   expire at some event of the run.
   */
  lemma {:induction false} EveryBatchIsAccountedFor<B, C>(env: Env, events: seq<Event<B, C>>, bft: bool, ttl: int,
                                                          id: B)
    requires Possible(env, events, bft, ttl) && id in After(env, events, bft, ttl).batches
    ensures var h := After(env, events, bft, ttl);
            h.batches[id].answered || PendingUnder(h, id) || Lapsed(env, events, bft, ttl, id)
  {
    if events != [] {
      var before, e := events[..|events| - 1], events[|events| - 1];
      var h := After(env, before, bft, ttl);
      RunKeepsInv(env, before, bft, ttl);
      NextPersists(env, h, e, bft, ttl, id);
      if id in h.batches {
        EveryBatchIsAccountedFor(env, before, bft, ttl, id);
        if Lapsed(env, before, bft, ttl, id) {
          StaysLapsed(env, events, bft, ttl, id);
        } else if PendingUnder(h, id) {
          if EventTime(e).Some? && !Live(h.pending.items[h.batches[id].hash], EventTime(e).value) {
            assert LapsedAt(env, events, bft, ttl, |before|, id);
          } else {
            StepFate(env, h, e, bft, ttl, id);
          }
        }
      }
    }
  }

  // --- what an expired entry means -----------------------------------------------------------------

  /** The batch is unanswered, and from time `t` on no lookup leads to it. */
  predicate Lost<B, C>(h: Host<B, C>, id: B, t: int) {
    && id in h.batches && !h.batches[id].answered
    && (PendingUnder(h, id) ==> !Live(h.pending.items[h.batches[id].hash], t))
  }

  /** From `h` to `u` the batch stays as it is, unanswered and not to be found from time `t` on. */
  predicate StaysLost<B, C>(h: Host<B, C>, u: Host<B, C>, id: B, t: int) {
    id in h.batches && Lost(u, id, t) && u.batches[id] == h.batches[id] && (PendingUnder(u, id) ==> PendingUnder(h, id))
  }

  lemma ArrivalKeepsLost<B, C>(env: Env, h: Host<B, C>, e: Event<B, C>, bft: bool, ttl: int, id: B, t: int)
    requires Inv(h) && e.Arrival? && Enabled(h, e) && Lost(h, id, t) && (PendingUnder(h, id) ==> t <= e.now)
    ensures StaysLost(h, Arrive(env, h, e.cfg, bft, e.req, e.ch, e.newId, e.now, ttl).0, id, t)
  {
    ArrivalShape(env, h, e.cfg, bft, e.req, e.ch, e.newId, e.now, ttl);
  }

  lemma CompletionKeepsLost<B, C>(h: Host<B, C>, e: Event<B, C>, ttl: int, id: B, t: int)
    requires Inv(h) && e.Completion? && Enabled(h, e) && Lost(h, id, t) && (PendingUnder(h, id) ==> t <= e.now)
    ensures StaysLost(h, Complete(h, e.d, e.answer, e.now, ttl), id, t)
  {
    CompleteIsSettle(h, e.d, e.answer, e.now, ttl);
  }

  lemma TimerKeepsLost<B, C>(h: Host<B, C>, e: Event<B, C>, bft: bool, id: B, t: int)
    requires Inv(h) && e.Timer? && Lost(h, id, t) && (PendingUnder(h, id) ==> t <= e.now)
    ensures StaysLost(h, Fail(h, e.hash, e.f, bft, e.isShutdown, e.now).0, id, t)
  {
  }

  lemma NextKeepsLost<B, C>(env: Env, h: Host<B, C>, e: Event<B, C>, bft: bool, ttl: int, id: B, t: int)
    requires Inv(h) && Enabled(h, e) && Lost(h, id, t)
    requires PendingUnder(h, id) && EventTime(e).Some? ==> t <= EventTime(e).value
    ensures StaysLost(h, Next(env, h, e, bft, ttl), id, t)
  {
    match e
    case Arrival(_, _, _, _, _) => ArrivalKeepsLost(env, h, e, bft, ttl, id, t);
    case Completion(_, _, _) => CompletionKeepsLost(h, e, ttl, id, t);
    case Timer(_, _, _, _) => TimerKeepsLost(h, e, bft, id, t);
    case CollectPending(_) =>
    case CollectResponses(_) =>
    case Receive(_) =>
  }

  /** The state before event `n`. */
  ghost predicate Before<B, C>(env: Env, events: seq<Event<B, C>>, bft: bool, ttl: int, n: nat, h: Host<B, C>) {
    n <= |events| && Possible(env, events[..n], bft, ttl) && h == After(env, events[..n], bft, ttl)
  }

  /** Each event from `n` on that looks at the clock reads `t` or later. */
  predicate NotBefore<B, C>(events: seq<Event<B, C>>, n: nat, t: int) {
    forall k :: n <= k < |events| && EventTime(events[k]).Some? ==> t <= EventTime(events[k]).value
  }

  /** Along a run a lost batch stays as it was. */
  lemma {:induction false} RunKeepsLost<B, C>(env: Env, events: seq<Event<B, C>>, bft: bool, ttl: int, id: B, t: int,
                                              n: nat, h: Host<B, C>)
    requires Possible(env, events, bft, ttl) && Before(env, events, bft, ttl, n, h) && Lost(h, id, t)
    requires PendingUnder(h, id) ==> NotBefore(events, n, t)
    ensures StaysLost(h, After(env, events, bft, ttl), id, t)
    decreases |events|
  {
    if n == |events| {
      assert events[..n] == events;
    } else {
      var before, e := events[..|events| - 1], events[|events| - 1];
      assert before[..n] == events[..n];
      RunKeepsLost(env, before, bft, ttl, id, t, n, h);
      RunKeepsInv(env, before, bft, ttl);
      NextKeepsLost(env, After(env, before, bft, ttl), e, bft, ttl, id, t);
    }
  }

  /** Every waiter of the batch has an empty channel that never held an answer. */
  ghost predicate Unheard<B, C>(h: Host<B, C>, id: B) {
    && id in h.batches
    && forall ch :: ch in h.batches[id].waiters ==>
         ch in h.chans && h.chans[ch].delivered == [] && h.chans[ch].buffer.None?
  }

  lemma LostIsUnheard<B, C>(h: Host<B, C>, id: B, t: int)
    requires Inv(h) && Lost(h, id, t)
    ensures Unheard(h, id)
  {
  }

  /**
   Once a batch is forgotten it stays so over every continuation of the run, whatever the clock reads:
   nobody joins it, and none of its waiters gets an answer.
   */
  lemma ForgottenForGood<B, C>(env: Env, events: seq<Event<B, C>>, bft: bool, ttl: int, id: B, n: nat, h: Host<B, C>)
    requires Possible(env, events, bft, ttl) && Before(env, events, bft, ttl, n, h) && Forgotten(h, id)
    ensures var u := After(env, events, bft, ttl);
            Forgotten(u, id) && u.batches[id] == h.batches[id] && Unheard(u, id)
  {
    RunKeepsLost(env, events, bft, ttl, id, 0, n, h);
    RunKeepsInv(env, events, bft, ttl);
    LostIsUnheard(After(env, events, bft, ttl), id, 0);
  }

  /** The clock never runs back. */
  predicate ClockForward<B, C>(events: seq<Event<B, C>>) {
    forall i, j :: 0 <= i < j < |events| && EventTime(events[i]).Some? && EventTime(events[j]).Some? ==>
      EventTime(events[i]).value <= EventTime(events[j]).value
  }

  lemma ForwardIsNotBefore<B, C>(events: seq<Event<B, C>>, n: nat)
    requires ClockForward(events) && n < |events| && EventTime(events[n]).Some?
    ensures NotBefore(events, n, EventTime(events[n]).value)
  {
  }

  lemma ExpiredIsLost<B, C>(h: Host<B, C>, id: B, t: int)
    requires Inv(h) && PendingUnder(h, id) && !Live(h.pending.items[h.batches[id].hash], t)
    ensures Lost(h, id, t)
  {
  }

  lemma LossLasts<B, C>(env: Env, events: seq<Event<B, C>>, bft: bool, ttl: int, id: B, j: nat) returns (t: int)
    requires Possible(env, events, bft, ttl) && ClockForward(events) && LapsedAt(env, events, bft, ttl, j, id)
    ensures Lost(After(env, events, bft, ttl), id, t)
  {
    t := EventTime(events[j]).value;
    var h := After(env, events[..j], bft, ttl);
    assert Lost(h, id, t) by {
      RunKeepsInv(env, events[..j], bft, ttl);
      ExpiredIsLost(h, id, t);
    }
    ForwardIsNotBefore(events, j);
    RunKeepsLost(env, events, bft, ttl, id, t, j, h);
  }

  /** Once its entry has expired a batch is never answered, and none of its waiters hears. */
  lemma LapsedIsUnheard<B, C>(env: Env, events: seq<Event<B, C>>, bft: bool, ttl: int, id: B)
    requires Possible(env, events, bft, ttl) && ClockForward(events) && Lapsed(env, events, bft, ttl, id)
    ensures var h := After(env, events, bft, ttl); id in h.batches && !h.batches[id].answered && Unheard(h, id)
  {
    var j: nat :| LapsedAt(env, events, bft, ttl, j, id);
    var t := LossLasts(env, events, bft, ttl, id, j);
    RunKeepsInv(env, events, bft, ttl);
    LostIsUnheard(After(env, events, bft, ttl), id, t);
  }

  /**
   In every run whose clock never runs back, a batch is answered if and only if it has left the pending
   cache and its entry never expired. So of the batches gone from the cache exactly those whose entry
   expired are without an answer, and none of their waiters has one.
   */
  lemma AnsweredIff<B, C>(env: Env, events: seq<Event<B, C>>, bft: bool, ttl: int, id: B)
    requires Possible(env, events, bft, ttl) && ClockForward(events) && id in After(env, events, bft, ttl).batches
    ensures var h := After(env, events, bft, ttl);
            && (h.batches[id].answered <==> !PendingUnder(h, id) && !Lapsed(env, events, bft, ttl, id))
            && (!PendingUnder(h, id) ==> (Forgotten(h, id) <==> Lapsed(env, events, bft, ttl, id)))
            && (!h.batches[id].answered ==> Unheard(h, id))
  {
    EveryBatchIsAccountedFor(env, events, bft, ttl, id);
    RunKeepsInv(env, events, bft, ttl);
    if Lapsed(env, events, bft, ttl, id) {
      LapsedIsUnheard(env, events, bft, ttl, id);
    }
  }

  /** It does happen: a request that waits when its entry expires and is collected. */
  lemma ExpiryForgets(env: Env, cfg: EnclaveConfig, req: SignedRequest, bft: bool, ttl: int, later: int)
    requires !(cfg.T == 0 && cfg.F == 0) && RequestSigner(env, req, cfg.signers).Some? && 0 <= ttl < later
    ensures var run: seq<Event<nat, nat>> := [Arrival(cfg, req, 0, 0, 0), CollectPending(later)];
            && Possible(env, run, bft, ttl)
            && var h := After(env, run, bft, ttl);
               Forgotten(h, 0) && h.batches[0].waiters == [0] && 0 in h.chans && h.chans[0].delivered == []
  {
    var first: Event<nat, nat> := Arrival(cfg, req, 0, 0, 0);
    WaitsAlone(env, cfg, req, bft, ttl);
    TwoEvents(env, first, CollectPending(later), bft, ttl);
  }

  lemma WaitsAlone(env: Env, cfg: EnclaveConfig, req: SignedRequest, bft: bool, ttl: int)
    requires !(cfg.T == 0 && cfg.F == 0) && RequestSigner(env, req, cfg.signers).Some?
    ensures var h := Arrive(env, NewHost<nat, nat>(), cfg, bft, req, 0, 0, 0, ttl).0;
            && 0 in h.batches && h.batches[0].waiters == [0] && !h.batches[0].answered
               && h.batches[0].hash == HashOf(env, req)
            && 0 in h.chans && h.chans[0].delivered == []
            && h.pending.items == map[HashOf(env, req) := Item(0, 0, ttl)]
  {
    var h0 := NewHost<nat, nat>();
    assert Joined(h0, HashOf(env, req), 0, 0) == 0
      && JoinedBatch(h0, HashOf(env, req), 0) == NewBatch(HashOf(env, req), 0);
    assert NewBatch<nat>(HashOf(env, req), 0).waiters + [0] == [0];
    assert Stored<Bytes, nat>(Empty(), HashOf(env, req), 0, ttl, 0, 0).items ==
      map[HashOf(env, req) := Item(0, 0, ttl)];
  }

  // --- whom a completion answers -----------------------------------------------------------------

  /** The completion of a dispatch answers the waiters of its batch, or touches none of them. */
  lemma CompletionReaches<B, C>(h: Host<B, C>, e: Event<B, C>, ttl: int, id: B, ch: C)
    requires Inv(h) && e.Completion? && Enabled(h, e) && id in h.batches && ch in h.batches[id].waiters
    ensures var u := Complete(h, e.d, e.answer, e.now, ttl);
            ch in h.chans && ch in u.chans &&
            if Lookup(h.pending, h.dispatches[e.d].hash, e.now) == Some(id)
            then h.chans[ch].delivered == [] && u.chans[ch].delivered == [e.answer]
            else u.chans[ch].delivered == h.chans[ch].delivered
  {
    var hash := h.dispatches[e.d].hash;
    var h' := h.(dispatches := h.dispatches[e.d := h.dispatches[e.d].(completed := true)]);
    var found := Lookup(h.pending, hash, e.now);
    assert ChanOk(h.chans[ch], id, h.batches[id].answered);
    if found.Some? {
      SettleDelivers(h', found.value, hash, e.answer, true, ch);
    }
  }

  lemma ContributedWaiters<B, C>(env: Env, h: Host<B, C>, e: Event<B, C>, bft: bool, ttl: int, id: B)
    requires e.Arrival? && Enabled(h, e) && id in Arrive(env, h, e.cfg, bft, e.req, e.ch, e.newId, e.now, ttl).0.batches
    requires forall b :: b in h.batches ==> |h.batches[b].requests| <= |h.batches[b].waiters|
    ensures var u := Arrive(env, h, e.cfg, bft, e.req, e.ch, e.newId, e.now, ttl).0;
            |u.batches[id].requests| <= |u.batches[id].waiters|
  {
  }

  /** Every request of a batch has its waiter. */
  lemma {:induction false} EnoughWaiters<B, C>(env: Env, events: seq<Event<B, C>>, bft: bool, ttl: int, id: B)
    requires Possible(env, events, bft, ttl) && id in After(env, events, bft, ttl).batches
    ensures var br := After(env, events, bft, ttl).batches[id]; |br.requests| <= |br.waiters|
  {
    if events != [] {
      var before, e := events[..|events| - 1], events[|events| - 1];
      var h := After(env, before, bft, ttl);
      forall b | b in h.batches ensures |h.batches[b].requests| <= |h.batches[b].waiters| {
        EnoughWaiters(env, before, bft, ttl, b);
      }
      if e.Arrival? {
        ContributedWaiters(env, h, e, bft, ttl, id);
      }
    }
  }
}
