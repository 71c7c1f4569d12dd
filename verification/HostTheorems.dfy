/** What holds in every run of the host, whatever the interleaving, the configs and the clock. */
module HostInvariants {
  import opened Bytes
  import opened Crypto
  import opened Encoding
  import opened Preimages
  import opened Protocol
  import opened CacheModel
  import opened HostModel

  /** A pending hash names a batch of that hash whose waiters are still unanswered. */
  ghost predicate PendingOk<B, C>(h: Host<B, C>) {
    forall k :: k in h.pending.items ==>
      var id := h.pending.items[k].value;
      id in h.batches && h.batches[id].hash == k && !h.batches[id].answered
  }

  /** A channel that waits holds nothing; one that was answered got exactly one answer. */
  ghost predicate ChanOk<B>(c: Chan<B>, id: B, answered: bool) {
    && c.home == id
    && c.dropped == 0
    && (if answered then |c.delivered| == 1 else c.buffer.None? && c.delivered == [])
  }

  ghost predicate WaitersOk<B, C>(h: Host<B, C>) {
    && (forall id :: id in h.batches ==> NoDup(h.batches[id].waiters))
    && (forall id, ch :: id in h.batches && ch in h.batches[id].waiters ==>
          ch in h.chans && ChanOk(h.chans[ch], id, h.batches[id].answered))
    && (forall ch :: ch in h.chans ==> h.chans[ch].home in h.batches && ch in h.batches[h.chans[ch].home].waiters)
  }

  ghost predicate Inv<B, C>(h: Host<B, C>) {
    PendingOk(h) && WaitersOk(h)
  }

  // --- notifying ----------------------------------------------------------------------

  /** Notifying distinct empty channels fills each of them once and touches nothing else. */
  lemma {:induction false} SendAllDelivers<B, C>(chans: map<C, Chan<B>>, waiters: seq<C>, a: Answer)
    requires NoDup(waiters)
    requires forall ch :: ch in waiters ==> ch in chans && chans[ch].buffer.None?
    ensures SendAll(chans, waiters, a).Keys == chans.Keys
    ensures forall ch :: ch in chans ==>
              SendAll(chans, waiters, a)[ch] ==
              if ch in waiters then chans[ch].(buffer := Some(a), delivered := chans[ch].delivered + [a]) else chans[ch]
  {
    if waiters != [] {
      var last := |waiters| - 1;
      SendAllDelivers(chans, waiters[..last], a);
      assert waiters[last] !in waiters[..last];
      assert forall ch :: ch in waiters <==> ch in waiters[..last] || ch == waiters[last];
    }
  }

  lemma SettleKeepsPending<B, C>(h: Host<B, C>, id: B, hash: Bytes, a: Answer, done: bool)
    requires PendingOk(h) && hash in h.pending.items && h.pending.items[hash].value == id
    ensures id in h.batches && PendingOk(Settle(h, id, hash, a, done))
  {
  }

  lemma SettleOnChannel<B, C>(h: Host<B, C>, id: B, hash: Bytes, a: Answer, done: bool, b: B, ch: C)
    requires WaitersOk(h) && id in h.batches && !h.batches[id].answered && b in h.batches && ch in h.batches[b].waiters
    ensures var u := Settle(h, id, hash, a, done);
            && ch in h.chans && ch in u.chans && ChanOk(u.chans[ch], b, h.batches[b].answered || b == id)
            && (b == id ==> h.chans[ch].delivered == [] && u.chans[ch].delivered == [a])
  {
    SendAllDelivers(h.chans, h.batches[id].waiters, a);
    assert ChanOk(h.chans[ch], b, h.batches[b].answered);
    if ch in h.batches[id].waiters {
      assert ChanOk(h.chans[ch], id, false);
    }
  }

  lemma SettleKeepsWaiters<B, C>(h: Host<B, C>, id: B, hash: Bytes, a: Answer, done: bool)
    requires WaitersOk(h) && id in h.batches && !h.batches[id].answered
    ensures WaitersOk(Settle(h, id, hash, a, done))
  {
    var u := Settle(h, id, hash, a, done);
    forall b, ch | b in u.batches && ch in u.batches[b].waiters
      ensures ch in u.chans && ChanOk(u.chans[ch], b, u.batches[b].answered)
    {
      SettleOnChannel(h, id, hash, a, done, b, ch);
    }
    SendAllDelivers(h.chans, h.batches[id].waiters, a);
  }

  /** Settling a pending batch answers each of its waiters and keeps the invariant. */
  lemma SettleKeepsInv<B, C>(h: Host<B, C>, id: B, hash: Bytes, a: Answer, done: bool)
    requires Inv(h)
    requires hash in h.pending.items && h.pending.items[hash].value == id
    ensures id in h.batches
    ensures Inv(Settle(h, id, hash, a, done))
    ensures forall ch :: ch in h.batches[id].waiters ==>
              ch in h.chans && h.chans[ch].delivered == []
              && ch in Settle(h, id, hash, a, done).chans && Settle(h, id, hash, a, done).chans[ch].delivered == [a]
  {
    SettleKeepsPending(h, id, hash, a, done);
    SettleKeepsWaiters(h, id, hash, a, done);
    forall ch | ch in h.batches[id].waiters
      ensures ch in h.chans && h.chans[ch].delivered == []
      ensures ch in Settle(h, id, hash, a, done).chans && Settle(h, id, hash, a, done).chans[ch].delivered == [a]
    {
      SettleOnChannel(h, id, hash, a, done, id, ch);
    }
  }

  // --- arriving -----------------------------------------------------------------------

  /** Storing a batch with one more waiter on a new channel keeps the invariant. */
  lemma EnrollKeepsInv<B, C>(h: Host<B, C>, id: B, was: Batch<C>, br: Batch<C>, ch: C, now: int, ttl: int)
    requires Inv(h) && ch !in h.chans
    requires br.waiters == was.waiters + [ch] && br.hash == was.hash && !br.answered && !was.answered
    requires if id in h.batches then was == h.batches[id] else was.waiters == []
    requires forall k :: k in h.pending.items && h.pending.items[k].value == id ==> k == br.hash
    ensures Inv(Enroll(h, id, br, ch, now, ttl))
  {
    var u := Enroll(h, id, br, ch, now, ttl);
    forall b, c | b in u.batches && c in u.batches[b].waiters
      ensures c in u.chans && ChanOk(u.chans[c], b, u.batches[b].answered)
    {
      if b != id {
        assert c in h.batches[b].waiters && c in h.chans;
      } else if c != ch {
        assert c in was.waiters;
      }
    }
    EnrollKeepsHomes(h, id, was, br, ch, now, ttl);
  }

  /** The waiters stay distinct, and each channel is among the waiters of its batch. */
  lemma EnrollKeepsHomes<B, C>(h: Host<B, C>, id: B, was: Batch<C>, br: Batch<C>, ch: C, now: int, ttl: int)
    requires WaitersOk(h) && ch !in h.chans && br.waiters == was.waiters + [ch]
    requires if id in h.batches then was == h.batches[id] else was.waiters == []
    ensures var u := Enroll(h, id, br, ch, now, ttl);
            && (forall b :: b in u.batches ==> NoDup(u.batches[b].waiters))
            && (forall c :: c in u.chans ==> u.chans[c].home in u.batches && c in u.batches[u.chans[c].home].waiters)
  {
    var u := Enroll(h, id, br, ch, now, ttl);
    if id in h.batches {
      assert ch !in was.waiters;
    }
    assert NoDup(br.waiters);
    forall c | c in u.chans ensures u.chans[c].home in u.batches && c in u.batches[u.chans[c].home].waiters {
      if c != ch && h.chans[c].home == id {
        assert c in was.waiters;
      }
    }
  }

  /**
   An arrival leaves the state alone, or changes the batch it joins, opens a channel and stores the
   batch under its hash.
   */
  lemma ArrivalShape<B, C>(env: Env, h: Host<B, C>, cfg: EnclaveConfig, bft: bool, req: SignedRequest, ch: C, newId: B,
                           now: int, ttl: int)
    requires PendingOk(h)
    ensures var r, hash := Arrive(env, h, cfg, bft, req, ch, newId, now, ttl), HashOf(env, req);
            if !r.1.Waiting? then r.0 == h
            else
              var id := Joined(h, hash, now, newId);
              && id in r.0.batches && r.0.batches == h.batches[id := r.0.batches[id]]
              && r.0.batches[id].hash == hash && !r.0.batches[id].answered
              && r.0.chans == h.chans[ch := Chan(None, id, [], 0)]
              && r.0.pending == Stored(h.pending, hash, id, ttl, now, 0)
              && (if Lookup(h.pending, hash, now).Some?
                  then id in h.batches && h.batches[id].hash == hash && !h.batches[id].answered
                    && Lookup(h.pending, hash, now) == Some(id)
                  else id == newId)
  {
  }

  lemma ArriveKeepsInv<B, C>(env: Env, h: Host<B, C>, cfg: EnclaveConfig, bft: bool, req: SignedRequest, ch: C,
                             newId: B, now: int, ttl: int)
    requires Inv(h) && ch !in h.chans && newId !in h.batches
    ensures Inv(Arrive(env, h, cfg, bft, req, ch, newId, now, ttl).0)
  {
    var r := Arrive(env, h, cfg, bft, req, ch, newId, now, ttl);
    if r.1.Waiting? {
      var hash := HashOf(env, req);
      var signer := RequestSigner(env, req, cfg.signers).value;
      var id, was := Joined(h, hash, now, newId), JoinedBatch(h, hash, now);
      var br := if signer in was.signersSeen then Subscribe(was, ch)
                else Contribute(was, req, signer, cfg, ch, QuorumThreshold(cfg.F, bft));
      EnrollKeepsInv(h, id, was, br, ch, now, ttl);
    }
  }

  // --- runs ---------------------------------------------------------------------------

  /** The state in which dispatch `d` has returned. */
  function Returned<B, C>(h: Host<B, C>, d: nat): Host<B, C>
    requires d < |h.dispatches|
  {
    h.(dispatches := h.dispatches[d := h.dispatches[d].(completed := true)])
  }

  /** A completion settles the pending batch of its hash, if there is one, and at most caches the answer. */
  lemma CompleteIsSettle<B, C>(h: Host<B, C>, d: nat, a: Answer, now: int, ttl: int)
    requires PendingOk(h) && d < |h.dispatches|
    ensures var u, found := Complete(h, d, a, now, ttl), Lookup(h.pending, h.dispatches[d].hash, now);
            && (found.None? ==> u == Returned(h, d))
            && (found.Some? ==> found.value in h.batches
                                && u == Settle(Returned(h, d), found.value, h.dispatches[d].hash, a,
                                               true).(responses := u.responses))
  {
  }

  /** The invariant is about batches, pending entries and channels only. */
  lemma SameViewKeepsInv<B, C>(h: Host<B, C>, u: Host<B, C>)
    requires Inv(h) && u.batches == h.batches && u.pending == h.pending && u.chans == h.chans
    ensures Inv(u)
  {
  }

  lemma CompleteKeepsInv<B, C>(h: Host<B, C>, d: nat, a: Answer, now: int, ttl: int)
    requires Inv(h) && d < |h.dispatches|
    ensures Inv(Complete(h, d, a, now, ttl))
  {
    CompleteIsSettle(h, d, a, now, ttl);
    var hash, h' := h.dispatches[d].hash, Returned(h, d);
    SameViewKeepsInv(h, h');
    var found := Lookup(h.pending, hash, now);
    if found.Some? {
      assert Inv(Settle(h', found.value, hash, a, true)) by { SettleKeepsInv(h', found.value, hash, a, true); }
      SameViewKeepsInv(Settle(h', found.value, hash, a, true), Complete(h, d, a, now, ttl));
    }
  }

  lemma FailKeepsInv<B, C>(h: Host<B, C>, hash: Bytes, f: uint32, bft: bool, isShutdown: bool, now: int)
    requires Inv(h)
    ensures Inv(Fail(h, hash, f, bft, isShutdown, now).0)
  {
    if Fail(h, hash, f, bft, isShutdown, now).1 {
      var id := h.pending.items[hash].value;
      var a := if isShutdown then ShutDown else QuorumTimeout(|h.batches[id].requests|, QuorumThreshold(f, bft));
      SettleKeepsInv(h, id, hash, a, false);
    }
  }

  lemma ReceiveKeepsInv<B, C>(h: Host<B, C>, ch: C)
    requires Inv(h) && ch in h.chans
    ensures Inv(h.(chans := h.chans[ch := h.chans[ch].(buffer := None)]))
  {
    var u := h.(chans := h.chans[ch := h.chans[ch].(buffer := None)]);
    assert u.chans.Keys == h.chans.Keys;
  }

  lemma NextKeepsInv<B, C>(env: Env, h: Host<B, C>, e: Event<B, C>, bft: bool, ttl: int)
    requires Inv(h) && Enabled(h, e)
    ensures Inv(Next(env, h, e, bft, ttl))
  {
    match e
    case Arrival(cfg, req, ch, newId, now) => ArriveKeepsInv(env, h, cfg, bft, req, ch, newId, now, ttl);
    case Completion(d, a, now) => CompleteKeepsInv(h, d, a, now, ttl);
    case Timer(hash, f, sd, now) =>
      FailKeepsInv(h, hash, f, bft, sd, now);
    case CollectPending(now) =>
    case CollectResponses(now) => SameViewKeepsInv(h, Next(env, h, e, bft, ttl));
    case Receive(ch) => ReceiveKeepsInv(h, ch);
  }

  lemma {:induction false} RunKeepsInv<B, C>(env: Env, events: seq<Event<B, C>>, bft: bool, ttl: int)
    requires Possible(env, events, bft, ttl)
    ensures Inv(After(env, events, bft, ttl))
  {
    if events != [] {
      var before := events[..|events| - 1];
      RunKeepsInv(env, before, bft, ttl);
      NextKeepsInv(env, After(env, before, bft, ttl), events[|events| - 1], bft, ttl);
    }
  }

  /** A run of two events. */
  lemma TwoEvents<B, C>(env: Env, a: Event<B, C>, b: Event<B, C>, bft: bool, ttl: int)
    requires Enabled(NewHost<B, C>(), a) && Enabled(Next(env, NewHost<B, C>(), a, bft, ttl), b)
    ensures Possible(env, [a, b], bft, ttl)
    ensures After(env, [a, b], bft, ttl) == Next(env, Next(env, NewHost<B, C>(), a, bft, ttl), b, bft, ttl)
  {
    var none: seq<Event<B, C>> := [];
    var one, two := [a], [a, b];
    assert one[..|one| - 1] == none && two[..|two| - 1] == one;
    assert Possible(env, none, bft, ttl) && After(env, none, bft, ttl) == NewHost();
    assert Possible(env, one, bft, ttl) && After(env, one, bft, ttl) == Next(env, NewHost(), a, bft, ttl);
  }

  /**
   In every run each waiter's channel accepts at most one answer, and no answer is dropped because a
   channel is full.
   */
  lemma AtMostOneAnswer<B, C>(env: Env, events: seq<Event<B, C>>, bft: bool, ttl: int)
    requires Possible(env, events, bft, ttl)
    ensures var h := After(env, events, bft, ttl);
            forall ch :: ch in h.chans ==> |h.chans[ch].delivered| <= 1 && h.chans[ch].dropped == 0
  {
    RunKeepsInv(env, events, bft, ttl);
    var h := After(env, events, bft, ttl);
    forall ch | ch in h.chans ensures |h.chans[ch].delivered| <= 1 && h.chans[ch].dropped == 0 {
      var id := h.chans[ch].home;
      assert ch in h.batches[id].waiters;
    }
  }

  /** From `h` to `u`, every waiter of batch `id`, none of whom had an answer, got the answer `a`. */
  ghost predicate AllAnswered<B, C>(h: Host<B, C>, u: Host<B, C>, id: B, a: Answer) {
    id in h.batches && forall ch :: ch in h.batches[id].waiters ==>
      && ch in h.chans && h.chans[ch].delivered == []
      && ch in u.chans && u.chans[ch].delivered == [a]
  }

  ghost predicate Stays<B, C>(h: Host<B, C>, u: Host<B, C>, hash: Bytes)
    requires hash in h.pending.items
  {
    hash in u.pending.items && u.pending.items[hash].value == h.pending.items[hash].value
  }

  ghost predicate LeavesByCompletion<B, C>(h: Host<B, C>, u: Host<B, C>, e: Event<B, C>, hash: Bytes)
    requires hash in h.pending.items
  {
    && e.Completion? && e.d < |h.dispatches| && h.dispatches[e.d].hash == hash
    && AllAnswered(h, u, h.pending.items[hash].value, e.answer)
  }

  ghost predicate LeavesByTimer<B, C>(h: Host<B, C>, u: Host<B, C>, e: Event<B, C>, bft: bool, hash: Bytes)
    requires hash in h.pending.items
  {
    var id := h.pending.items[hash].value;
    && e.Timer? && e.hash == hash && id in h.batches && !h.batches[id].processing
    && AllAnswered(h, u, id, if e.isShutdown then ShutDown
                   else QuorumTimeout(|h.batches[id].requests|, QuorumThreshold(e.f, bft)))
  }

  /**
   In every run, an event that takes an unexpired batch out of the pending cache is a completion of a
   dispatch of its hash, whose answer every one of its waiters gets, or a timer on a batch that is not
   processing, whose error they all get; none of them had an answer before.
   */
  lemma LeavesOnlyAnswered<B, C>(env: Env, events: seq<Event<B, C>>, e: Event<B, C>, bft: bool, ttl: int, hash: Bytes)
    requires Possible(env, events, bft, ttl) && Enabled(After(env, events, bft, ttl), e)
    requires var h := After(env, events, bft, ttl);
             && hash in h.pending.items
             && (EventTime(e).Some? ==> Live(h.pending.items[hash], EventTime(e).value))
    ensures var h := After(env, events, bft, ttl);
            var u := Next(env, h, e, bft, ttl);
            Stays(h, u, hash) || LeavesByCompletion(h, u, e, hash) || LeavesByTimer(h, u, e, bft, hash)
  {
    RunKeepsInv(env, events, bft, ttl);
    LeavingStep(env, After(env, events, bft, ttl), e, bft, ttl, hash);
  }

  /** An arrival takes no live entry out. */
  lemma ArrivalKeepsEntry<B, C>(env: Env, h: Host<B, C>, cfg: EnclaveConfig, bft: bool, req: SignedRequest, ch: C,
                                newId: B, now: int, ttl: int, hash: Bytes)
    requires Inv(h) && hash in h.pending.items && Live(h.pending.items[hash], now)
    ensures Stays(h, Arrive(env, h, cfg, bft, req, ch, newId, now, ttl).0, hash)
  {
  }

  lemma CompletionAnswers<B, C>(h: Host<B, C>, e: Event<B, C>, ttl: int, hash: Bytes)
    requires Inv(h) && e.Completion? && Enabled(h, e) && hash in h.pending.items && Live(h.pending.items[hash], e.now)
    ensures var u := Complete(h, e.d, e.answer, e.now, ttl); Stays(h, u, hash) || LeavesByCompletion(h, u, e, hash)
  {
    if h.dispatches[e.d].hash == hash {
      CompleteIsSettle(h, e.d, e.answer, e.now, ttl);
      SettleKeepsInv(Returned(h, e.d), h.pending.items[hash].value, hash, e.answer, true);
    }
  }

  lemma TimerAnswers<B, C>(h: Host<B, C>, e: Event<B, C>, bft: bool, hash: Bytes)
    requires Inv(h) && e.Timer? && hash in h.pending.items && Live(h.pending.items[hash], e.now)
    ensures var u := Fail(h, e.hash, e.f, bft, e.isShutdown, e.now).0;
            Stays(h, u, hash) || LeavesByTimer(h, u, e, bft, hash)
  {
    if e.hash == hash && Fail(h, hash, e.f, bft, e.isShutdown, e.now).1 {
      var id := h.pending.items[hash].value;
      var a := if e.isShutdown then ShutDown else QuorumTimeout(|h.batches[id].requests|, QuorumThreshold(e.f, bft));
      SettleKeepsInv(h, id, hash, a, false);
    }
  }

  lemma LeavingStep<B, C>(env: Env, h: Host<B, C>, e: Event<B, C>, bft: bool, ttl: int, hash: Bytes)
    requires Inv(h) && Enabled(h, e) && hash in h.pending.items
    requires EventTime(e).Some? ==> Live(h.pending.items[hash], EventTime(e).value)
    ensures var u := Next(env, h, e, bft, ttl);
            Stays(h, u, hash) || LeavesByCompletion(h, u, e, hash) || LeavesByTimer(h, u, e, bft, hash)
  {
    match e
    case Arrival(cfg, req, ch, newId, now) => ArrivalKeepsEntry(env, h, cfg, bft, req, ch, newId, now, ttl, hash);
    case Completion(d, a, now) => CompletionAnswers(h, e, ttl, hash);
    case Timer(k, f, sd, now) => TimerAnswers(h, e, bft, hash);
    case CollectPending(now) =>
    case CollectResponses(now) =>
    case Receive(ch) =>
  }
}

/** Where a successful answer comes from. */
module HostAnswers {
  import opened Bytes
  import opened Crypto
  import opened Encoding
  import opened Preimages
  import opened Protocol
  import opened CacheModel
  import opened HostModel
  import opened HostInvariants

  /** Event `j` of the run completed a dispatch of this hash with the answer `a`. */
  ghost predicate CompletedAt<B, C>(env: Env, events: seq<Event<B, C>>, bft: bool, ttl: int, j: nat, hash: Bytes,
                                    a: Answer)
  {
    && j < |events| && Possible(env, events[..j], bft, ttl)
    && events[j].Completion? && events[j].answer == a
    && events[j].d < |After(env, events[..j], bft, ttl).dispatches|
    && After(env, events[..j], bft, ttl).dispatches[events[j].d].hash == hash
  }

  ghost predicate Produced<B, C>(env: Env, events: seq<Event<B, C>>, bft: bool, ttl: int, hash: Bytes, a: Answer) {
    exists j: nat :: CompletedAt(env, events, bft, ttl, j, hash, a)
  }

  lemma StaysProduced<B, C>(env: Env, events: seq<Event<B, C>>, bft: bool, ttl: int, hash: Bytes, a: Answer)
    requires events != [] && Produced(env, events[..|events| - 1], bft, ttl, hash, a)
    ensures Produced(env, events, bft, ttl, hash, a)
  {
    var before := events[..|events| - 1];
    var j: nat :| CompletedAt(env, before, bft, ttl, j, hash, a);
    assert before[..j] == events[..j];
    assert CompletedAt(env, events, bft, ttl, j, hash, a);
  }

  lemma NowProduced<B, C>(env: Env, events: seq<Event<B, C>>, bft: bool, ttl: int)
    requires Possible(env, events, bft, ttl) && events != [] && events[|events| - 1].Completion?
    ensures var e, h := events[|events| - 1], After(env, events[..|events| - 1], bft, ttl);
            e.d < |h.dispatches| && Produced(env, events, bft, ttl, h.dispatches[e.d].hash, e.answer)
  {
    var h := After(env, events[..|events| - 1], bft, ttl);
    var e := events[|events| - 1];
    assert CompletedAt(env, events, bft, ttl, |events| - 1, h.dispatches[e.d].hash, e.answer);
  }

  /** One event caches at most the successful answer of the dispatch it completes, under that dispatch's hash. */
  lemma NextResponses<B, C>(env: Env, h: Host<B, C>, e: Event<B, C>, bft: bool, ttl: int, hash: Bytes)
    requires Enabled(h, e) && hash in Next(env, h, e, bft, ttl).responses.items
    ensures var a := Next(env, h, e, bft, ttl).responses.items[hash].value;
            || (hash in h.responses.items && h.responses.items[hash].value == a)
            || (e.Completion? && e.answer == a && a.Executed? && h.dispatches[e.d].hash == hash)
  {
  }

  lemma {:induction false} CachedWasProduced<B, C>(env: Env, events: seq<Event<B, C>>, bft: bool, ttl: int, hash: Bytes)
    requires Possible(env, events, bft, ttl) && hash in After(env, events, bft, ttl).responses.items
    ensures var a := After(env, events, bft, ttl).responses.items[hash].value;
            a.Executed? && Produced(env, events, bft, ttl, hash, a)
  {
    if events != [] {
      var before, e := events[..|events| - 1], events[|events| - 1];
      var h := After(env, before, bft, ttl);
      var a := After(env, events, bft, ttl).responses.items[hash].value;
      NextResponses(env, h, e, bft, ttl, hash);
      if hash in h.responses.items && h.responses.items[hash].value == a {
        CachedWasProduced(env, before, bft, ttl, hash);
        StaysProduced(env, events, bft, ttl, hash, a);
      } else {
        NowProduced(env, events, bft, ttl);
      }
    }
  }

  /**
   In every run, a request answered from the response cache gets the output of a completed dispatch
   of its own hash.
   */
  lemma CachedAnswerIsGenuine<B, C>(env: Env, events: seq<Event<B, C>>, cfg: EnclaveConfig, req: SignedRequest, ch: C,
                                    newId: B, now: int, bft: bool, ttl: int)
    requires Possible(env, events, bft, ttl)
    ensures var r := Arrive(env, After(env, events, bft, ttl), cfg, bft, req, ch, newId, now, ttl);
            r.1.Cached? ==> r.1.answer.Executed? && Produced(env, events, bft, ttl, HashOf(env, req), r.1.answer)
  {
    var h := After(env, events, bft, ttl);
    if Arrive(env, h, cfg, bft, req, ch, newId, now, ttl).1.Cached? {
      CachedWasProduced(env, events, bft, ttl, HashOf(env, req));
    }
  }

  /** What channel `ch` holds after one event: what it held, nothing, the completion's answer, or an error. */
  ghost predicate Delivers<B, C>(h: Host<B, C>, u: Host<B, C>, e: Event<B, C>, ch: C)
    requires ch in u.chans
  {
    var home, delivered := u.chans[ch].home, u.chans[ch].delivered;
    home in u.batches &&
    (|| delivered == []
     || (ch in h.chans && h.chans[ch].delivered == delivered && h.chans[ch].home == home
         && home in h.batches && h.batches[home].hash == u.batches[home].hash)
     || (e.Completion? && e.d < |h.dispatches| && delivered == [e.answer]
         && u.batches[home].hash == h.dispatches[e.d].hash)
     || (e.Timer? && |delivered| == 1 && !delivered[0].Executed?))
  }

  lemma {:induction false} SendAllKeys<B, C>(chans: map<C, Chan<B>>, waiters: seq<C>, a: Answer)
    ensures SendAll(chans, waiters, a).Keys == chans.Keys
  {
    if waiters != [] {
      SendAllKeys(chans, waiters[..|waiters| - 1], a);
    }
  }

  lemma SettleDelivers<B, C>(h: Host<B, C>, id: B, hash: Bytes, a: Answer, done: bool, ch: C)
    requires Inv(h) && hash in h.pending.items && h.pending.items[hash].value == id && ch in h.chans
    ensures id in h.batches && h.batches[id].hash == hash
    ensures var u := Settle(h, id, hash, a, done);
            && ch in u.chans && u.chans[ch].home == h.chans[ch].home
            && u.chans[ch].home in u.batches && u.chans[ch].home in h.batches
            && u.batches[u.chans[ch].home].hash == h.batches[u.chans[ch].home].hash
            && (if ch in h.batches[id].waiters then h.chans[ch].home == id && u.chans[ch].delivered == [a]
                else u.chans[ch].delivered == h.chans[ch].delivered)
  {
    SettleKeepsInv(h, id, hash, a, done);
    SendAllDelivers(h.chans, h.batches[id].waiters, a);
  }

  /** Settling batch `id` as a completion does. */
  lemma SettledDelivers<B, C>(h: Host<B, C>, u: Host<B, C>, e: Event<B, C>, id: B, ch: C)
    requires Inv(h) && e.Completion? && e.d < |h.dispatches|
    requires var hash := h.dispatches[e.d].hash;
             hash in h.pending.items && h.pending.items[hash].value == id
               && id in h.batches
    requires var v := Settle(Returned(h, e.d), id, h.dispatches[e.d].hash, e.answer, true);
             u.chans == v.chans && u.batches == v.batches
    requires ch in u.chans
    ensures Delivers(h, u, e, ch)
  {
    var h' := Returned(h, e.d);
    assert ch in h.chans by { SendAllKeys(h.chans, h.batches[id].waiters, e.answer); }
    assert Inv(h') by { SameViewKeepsInv(h, h'); }
    SettleDelivers(h', id, h.dispatches[e.d].hash, e.answer, true, ch);
  }

  lemma CompleteDelivers<B, C>(h: Host<B, C>, e: Event<B, C>, ttl: int, ch: C)
    requires Inv(h) && e.Completion? && Enabled(h, e) && ch in Complete(h, e.d, e.answer, e.now, ttl).chans
    ensures Delivers(h, Complete(h, e.d, e.answer, e.now, ttl), e, ch)
  {
    CompleteIsSettle(h, e.d, e.answer, e.now, ttl);
    var found := Lookup(h.pending, h.dispatches[e.d].hash, e.now);
    if found.Some? {
      SettledDelivers(h, Complete(h, e.d, e.answer, e.now, ttl), e, found.value, ch);
    }
  }

  lemma FailDelivers<B, C>(h: Host<B, C>, e: Event<B, C>, bft: bool, ch: C)
    requires Inv(h) && e.Timer? && ch in Fail(h, e.hash, e.f, bft, e.isShutdown, e.now).0.chans
    ensures Delivers(h, Fail(h, e.hash, e.f, bft, e.isShutdown, e.now).0, e, ch)
  {
    if Fail(h, e.hash, e.f, bft, e.isShutdown, e.now).1 {
      var id := h.pending.items[e.hash].value;
      var a := if e.isShutdown then ShutDown else QuorumTimeout(|h.batches[id].requests|, QuorumThreshold(e.f, bft));
      SendAllKeys(h.chans, h.batches[id].waiters, a);
      SettleDelivers(h, id, e.hash, a, false, ch);
    }
  }

  lemma EnrollDelivers<B, C>(h: Host<B, C>, u: Host<B, C>, e: Event<B, C>, id: B, br: Batch<C>, newCh: C, ch: C)
    requires Inv(h) && (id in h.batches ==> br.hash == h.batches[id].hash)
    requires u.batches == h.batches[id := br] && u.chans == h.chans[newCh := Chan(None, id, [], 0)] && ch in u.chans
    ensures Delivers(h, u, e, ch)
  {
  }

  lemma ArriveDelivers<B, C>(env: Env, h: Host<B, C>, e: Event<B, C>, bft: bool, ttl: int, ch: C)
    requires Inv(h) && e.Arrival? && Enabled(h, e)
    requires ch in Arrive(env, h, e.cfg, bft, e.req, e.ch, e.newId, e.now, ttl).0.chans
    ensures Delivers(h, Arrive(env, h, e.cfg, bft, e.req, e.ch, e.newId, e.now, ttl).0, e, ch)
  {
    ArrivalShape(env, h, e.cfg, bft, e.req, e.ch, e.newId, e.now, ttl);
    var r := Arrive(env, h, e.cfg, bft, e.req, e.ch, e.newId, e.now, ttl);
    if r.1.Waiting? {
      var id := Joined(h, HashOf(env, e.req), e.now, e.newId);
      EnrollDelivers(h, r.0, e, id, r.0.batches[id], e.ch, ch);
    }
  }

  lemma NextDelivers<B, C>(env: Env, h: Host<B, C>, e: Event<B, C>, bft: bool, ttl: int, ch: C)
    requires Inv(h) && Enabled(h, e) && ch in Next(env, h, e, bft, ttl).chans
    ensures Delivers(h, Next(env, h, e, bft, ttl), e, ch)
  {
    match e
    case Arrival(_, _, _, _, _) => ArriveDelivers(env, h, e, bft, ttl, ch);
    case Completion(_, _, _) => CompleteDelivers(h, e, ttl, ch);
    case Timer(_, _, _, _) => FailDelivers(h, e, bft, ch);
    case CollectPending(_) =>
    case CollectResponses(_) =>
    case Receive(_) =>
  }

  /**
   In every run, a waiter that was given an output was given the answer of a completed dispatch of the
   hash its batch was created for.
   */
  lemma {:induction false} DeliveredAnswerIsGenuine<B, C>(env: Env, events: seq<Event<B, C>>, bft: bool, ttl: int,
                                                          ch: C, a: Answer)
    requires Possible(env, events, bft, ttl) && ch in After(env, events, bft, ttl).chans
    requires After(env, events, bft, ttl).chans[ch].delivered == [a] && a.Executed?
    ensures var h := After(env, events, bft, ttl);
            h.chans[ch].home in h.batches && Produced(env, events, bft, ttl, h.batches[h.chans[ch].home].hash, a)
  {
    if events != [] {
      var before, e := events[..|events| - 1], events[|events| - 1];
      var h := After(env, before, bft, ttl);
      RunKeepsInv(env, before, bft, ttl);
      NextDelivers(env, h, e, bft, ttl, ch);
      var u := After(env, events, bft, ttl);
      var hash := u.batches[u.chans[ch].home].hash;
      if ch in h.chans && h.chans[ch].delivered == [a] && h.chans[ch].home == u.chans[ch].home
        && h.chans[ch].home in h.batches
         && h.batches[h.chans[ch].home].hash == hash {
        DeliveredAnswerIsGenuine(env, before, bft, ttl, ch, a);
        StaysProduced(env, events, bft, ttl, hash, a);
      } else {
        NowProduced(env, events, bft, ttl);
      }
    }
  }
}
