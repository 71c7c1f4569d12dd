/**
 The configuration as a ledger of ballots: per proposed config the keys that voted and the time of the
 last vote. There is no cache, nothing is collected, and a ballot is void when its last vote is older
 than the lifetime of votes. The server, with its cache of digests, behaves like this ledger.
 */
module ConfigLedger {
  import opened Bytes
  import opened Crypto
  import opened Encoding
  import opened Preimages
  import opened Protocol
  import opened CacheModel
  import opened ConfigModel
  import opened ConfigChain

  datatype Ballot = Ballot(keys: set<Bytes>, last: int)

  datatype Ledger = Ledger(config: EnclaveConfig, configSet: bool, ballots: map<Bytes, Ballot>)

  /** Who has voted for the config of this hash and still counts. */
  function Voters(l: Ledger, hash: Bytes, now: int, ttl: int): set<Bytes> {
    if hash in l.ballots && now <= l.ballots[hash].last + ttl then l.ballots[hash].keys else {}
  }

  function Vote(env: Env, l: Ledger, c: EnclaveConfig, key: Bytes, now: int, ttl: int): (Ledger, Reply) {
    var hash := env.configHash(c);
    var voters := Voters(l, hash, now, ttl) + {key};
    if |voters| > l.config.F then (Ledger(c, true, map[]), Applied)
    else (l.(ballots := l.ballots[hash := Ballot(voters, now)]), Pending(|voters|, l.config.F + 1))
  }

  function LedgerStep(env: Env, l: Ledger, e: Event, ttl: int, allowReconfig: bool): (Ledger, Reply) {
    match e
    case Post(c) =>
      if allowReconfig || !l.configSet then (l.(config := c, configSet := true), Accepted) else (l, Conflict)
    case Patch(c, signature, now) =>
      var key := VoteSigner(env, c, signature, l.config.signers);
      if !l.configSet then (l, Uninitialized)
      else if key.None? then (l, BadVote)
      else if env.configHash(c) == env.configHash(l.config) then (l, AlreadyCurrent)
      else Vote(env, l, c, key.value, now, ttl)
    case Collect(_) => (l, Accepted)
  }

  function LedgerAfter(env: Env, initial: EnclaveConfig, events: seq<Event>, ttl: int, allowReconfig: bool): Ledger {
    if events == [] then Ledger(initial, false, map[])
    else LedgerStep(env, LedgerAfter(env, initial, events[..|events| - 1], ttl, allowReconfig), events[|events| - 1],
                    ttl, allowReconfig).0
  }

  function TimeOf(e: Event): Option<int> {
    if e.Post? then None else Some(e.now)
  }

  /** The clock never runs back. */
  predicate Forward(events: seq<Event>) {
    forall i, j :: 0 <= i < j < |events| && TimeOf(events[i]).Some? && TimeOf(events[j]).Some? ==>
      TimeOf(events[i]).value <= TimeOf(events[j]).value
  }

  function Digested(keys: set<Bytes>): set<Digest> {
    set k | k in keys :: Sha256(k)
  }

  lemma {:induction false} DigestedSize(keys: set<Bytes>)
    ensures |Digested(keys)| == |keys|
  {
    if keys != {} {
      var k :| k in keys;
      DigestedSize(keys - {k});
      assert Digested(keys) == Digested(keys - {k}) + {Sha256(k)};
    } else {
      assert Digested(keys) == {};
    }
  }

  /** What the cache holds is on the ledger, and what it lost had expired before `t`. */
  ghost predicate Agree(s: Server, l: Ledger, t: int, ttl: int) {
    && s.config == l.config && s.configSet == l.configSet && WellFormed(s.votes, 0)
    && (forall h :: h in s.votes.items ==>
          h in l.ballots && s.votes.items[h] == Item(Digested(l.ballots[h].keys), l.ballots[h].last, ttl))
    && (forall h :: h in l.ballots && h !in s.votes.items ==> l.ballots[h].last + ttl < t)
  }

  lemma SameVoters(s: Server, l: Ledger, t: int, ttl: int, hash: Bytes, now: int)
    requires Agree(s, l, t, ttl) && t <= now
    ensures VotesFor(s, hash, now) == Digested(Voters(l, hash, now, ttl))
  {
    assert Digested({}) == {};
  }

  lemma StoreAgrees(s: Server, l: Ledger, t: int, ttl: int, hash: Bytes, voters: set<Bytes>, now: int)
    requires Agree(s, l, t, ttl) && t <= now
    ensures Agree(s.(votes := Stored(s.votes, hash, Digested(voters), ttl, now, 0)),
                  l.(ballots := l.ballots[hash := Ballot(voters, now)]), now, ttl)
  {
    StoredWellFormed(s.votes, hash, Digested(voters), ttl, now, 0);
  }

  /** A vote of a current signer for another config, with the votes it makes. */
  lemma VoteShape(env: Env, s: Server, e: Event, ttl: int, key: Bytes, votes: set<Digest>)
    requires e.Patch? && s.configSet && VoteSigner(env, e.config, e.signature, s.config.signers) == Some(key)
    requires env.configHash(e.config) != env.configHash(s.config)
    requires votes == VotesFor(s, env.configHash(e.config), e.now) + {Sha256(key)}
    ensures OnPatch(env, s, e.config, e.signature, e.now, ttl) ==
            if |votes| > s.config.F then (Server(e.config, true, Empty()), Applied)
            else (s.(votes := Stored(s.votes, env.configHash(e.config), votes, ttl, e.now, 0)),
                  Pending(|votes|, s.config.F + 1))
  {
  }

  lemma VoteAgrees(env: Env, s: Server, l: Ledger, t: int, e: Event, ttl: int, key: Bytes)
    requires Agree(s, l, t, ttl) && e.Patch? && t <= e.now && s.configSet
    requires VoteSigner(env, e.config, e.signature, s.config.signers) == Some(key)
    requires env.configHash(e.config) != env.configHash(s.config)
    ensures var r, q := OnPatch(env, s, e.config, e.signature, e.now, ttl), Vote(env, l, e.config, key, e.now, ttl);
            Agree(r.0, q.0, e.now, ttl) && r.1 == q.1
  {
    var hash := env.configHash(e.config);
    var voters := Voters(l, hash, e.now, ttl) + {key};
    var votes := VotesFor(s, hash, e.now) + {Sha256(key)};
    TallyAgrees(s, l, t, ttl, hash, key, e.now);
    VoteShape(env, s, e, ttl, key, votes);
    EmptyAgrees(e.config, e.now, ttl);
    StoreAgrees(s, l, t, ttl, hash, voters, e.now);
  }

  lemma TallyAgrees(s: Server, l: Ledger, t: int, ttl: int, hash: Bytes, key: Bytes, now: int)
    requires Agree(s, l, t, ttl) && t <= now
    ensures var votes, voters := VotesFor(s, hash, now) + {Sha256(key)}, Voters(l, hash, now, ttl) + {key};
            votes == Digested(voters) && |votes| == |voters|
  {
    SameVoters(s, l, t, ttl, hash, now);
    DigestedMore(Voters(l, hash, now, ttl), key);
    DigestedSize(Voters(l, hash, now, ttl) + {key});
  }

  lemma DigestedMore(keys: set<Bytes>, key: Bytes)
    ensures Digested(keys) + {Sha256(key)} == Digested(keys + {key})
  {
  }

  lemma EmptyAgrees(c: EnclaveConfig, t: int, ttl: int)
    ensures Agree(Server(c, true, Empty()), Ledger(c, true, map[]), t, ttl)
  {
  }

  lemma StepAgrees(env: Env, s: Server, l: Ledger, t: int, e: Event, ttl: int, allowReconfig: bool)
    requires Agree(s, l, t, ttl) && (TimeOf(e).Some? ==> t <= TimeOf(e).value)
    ensures var r, q := Step(env, s, e, ttl, allowReconfig), LedgerStep(env, l, e, ttl, allowReconfig);
            Agree(r.0, q.0, if TimeOf(e).Some? then TimeOf(e).value else t, ttl) && r.1 == q.1
  {
    match e
    case Post(_) =>
    case Patch(c, signature, now) =>
      var key := VoteSigner(env, c, signature, s.config.signers);
      if s.configSet && key.Some? && env.configHash(c) != env.configHash(s.config) {
        VoteAgrees(env, s, l, t, e, ttl, key.value);
      }
    case Collect(now) => CollectedWellFormed(s.votes, now, 0);
  }

  /** No event of the run that looks at the clock reads more than `t`. */
  predicate UpTo(events: seq<Event>, t: int) {
    forall i :: 0 <= i < |events| && TimeOf(events[i]).Some? ==> TimeOf(events[i]).value <= t
  }

  lemma LaterAgrees(s: Server, l: Ledger, t: int, u: int, ttl: int)
    requires Agree(s, l, t, ttl) && t <= u
    ensures Agree(s, l, u, ttl)
  {
  }

  lemma {:induction false} RunAgrees(env: Env, initial: EnclaveConfig, events: seq<Event>, ttl: int,
                                     allowReconfig: bool, t: int)
    requires Forward(events) && UpTo(events, t)
    ensures var s := After(env, initial, events, ttl, allowReconfig);
            Agree(s, LedgerAfter(env, initial, events, ttl, allowReconfig), t, ttl)
  {
    if events != [] {
      var before, e := events[..|events| - 1], events[|events| - 1];
      var at := if TimeOf(e).Some? then TimeOf(e).value else t;
      RunAgrees(env, initial, before, ttl, allowReconfig, at);
      var s, l := After(env, initial, before, ttl, allowReconfig),
        LedgerAfter(env, initial, before, ttl, allowReconfig);
      StepAgrees(env, s, l, at, e, ttl, allowReconfig);
      LaterAgrees(Step(env, s, e, ttl, allowReconfig).0, LedgerStep(env, l, e, ttl, allowReconfig).0, at, t, ttl);
    }
  }

  /**
   In every run whose clock never runs back, with or without reconfiguration, the server has the
   ledger's config and gives the ledger's reply to the next request, collections included. So a PATCH
   is applied exactly when more than `F` different keys have voted for its config under the signers of
   their moment, each vote within the lifetime of the one before, since the last PATCH that was applied.
   */
  lemma ServerIsLedger(env: Env, initial: EnclaveConfig, events: seq<Event>, e: Event, ttl: int, allowReconfig: bool)
    requires Forward(events + [e])
    ensures var s := After(env, initial, events, ttl, allowReconfig);
            var l := LedgerAfter(env, initial, events, ttl, allowReconfig);
            && s.config == l.config && s.configSet == l.configSet
            && Step(env, s, e, ttl, allowReconfig).1 == LedgerStep(env, l, e, ttl, allowReconfig).1
  {
    var at := if TimeOf(e).Some? then TimeOf(e).value else Latest(events);
    assert Forward(events) && UpTo(events, at) by {
      var all := events + [e];
      assert forall i :: 0 <= i < |events| ==> all[i] == events[i];
      assert all[|events|] == e;
      LatestIsLatest(events);
    }
    RunAgrees(env, initial, events, ttl, allowReconfig, at);
    var s, l := After(env, initial, events, ttl, allowReconfig), LedgerAfter(env, initial, events, ttl, allowReconfig);
    StepAgrees(env, s, l, at, e, ttl, allowReconfig);
  }

  /** The latest clock reading of a run. */
  function Latest(events: seq<Event>): int {
    if events == [] then 0
    else
      var before, e := Latest(events[..|events| - 1]), events[|events| - 1];
      if TimeOf(e).Some? && TimeOf(e).value > before then TimeOf(e).value else before
  }

  lemma {:induction false} LatestIsLatest(events: seq<Event>)
    ensures UpTo(events, Latest(events))
  {
    if events != [] {
      LatestIsLatest(events[..|events| - 1]);
    }
  }
}
