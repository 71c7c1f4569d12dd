/**
 The enclave's configuration on values: set once by POST, then changed only by votes of
 current signers. An event is one critical section under `configLock`, or a collection of
 the vote cache.
 */
module ConfigModel {
  import opened Bytes
  import opened Crypto
  import opened Encoding
  import opened Preimages
  import opened Protocol
  import opened CacheModel

  datatype Server = Server(config: EnclaveConfig, configSet: bool, votes: State<Bytes, set<Digest>>)

  datatype Event =
    | Post(config: EnclaveConfig)
    | Patch(config: EnclaveConfig, signature: Bytes, now: int)
    | Collect(now: int)

  datatype Reply =
    | Conflict | Accepted | Uninitialized | BadVote | AlreadyCurrent | Pending(collected: nat, required: nat) | Applied

  /** The votes for a config hash that have not expired. */
  function VotesFor(s: Server, hash: Bytes, now: int): set<Digest> {
    var votes := Lookup(s.votes, hash, now);
    if votes.Some? then votes.value else {}
  }

  function OnPost(s: Server, c: EnclaveConfig, allowReconfig: bool): (Server, Reply) {
    if s.configSet && !allowReconfig then (s, Conflict)
    else (s.(config := c, configSet := true), Accepted)
  }

  function OnPatch(env: Env, s: Server, c: EnclaveConfig, signature: Bytes, now: int, ttl: int): (Server, Reply) {
    if !s.configSet then (s, Uninitialized)
    else
      var signer := VoteSigner(env, c, signature, s.config.signers);
      if signer.None? then (s, BadVote)
      else if env.configHash(c) == env.configHash(s.config) then (s, AlreadyCurrent)
      else
        var votes := VotesFor(s, env.configHash(c), now) + {Sha256(signer.value)};
        var required := s.config.F + 1;
        if |votes| < required
        then (s.(votes := Stored(s.votes, env.configHash(c), votes, ttl, now, 0)), Pending(|votes|, required))
        else (Server(c, true, Empty()), Applied)
  }

  function Step(env: Env, s: Server, e: Event, ttl: int, allowReconfig: bool): (Server, Reply) {
    match e
    case Post(c) => OnPost(s, c, allowReconfig)
    case Patch(c, sig, now) => OnPatch(env, s, c, sig, now, ttl)
    case Collect(now) => (s.(votes := Collected(s.votes, now)), Accepted)
  }

  /** The server after a run, from a start that has no config set and no votes. */
  function After(env: Env, initial: EnclaveConfig, events: seq<Event>, ttl: int, allowReconfig: bool): Server {
    if events == [] then Server(initial, false, Empty())
    else Step(env, After(env, initial, events[..|events| - 1], ttl, allowReconfig), events[|events| - 1], ttl,
              allowReconfig).0
  }
}

/** Whole runs: who stands behind every change of the configuration. */
module ConfigChain {
  import opened Bytes
  import opened Crypto
  import opened Encoding
  import opened Preimages
  import opened PreimageTheorems
  import opened Protocol
  import opened CacheModel
  import opened ConfigModel

  /**
   Event `j` of the run is a vote by `key`, a signer of `under`, which was in force then, for a
   config of this hash.
   */
  ghost predicate Cast(env: Env, initial: EnclaveConfig, events: seq<Event>, ttl: int, allowReconfig: bool,
                       j: nat, key: Bytes, hash: Bytes, under: EnclaveConfig)
  {
    && j < |events| && events[j].Patch?
    && After(env, initial, events[..j], ttl, allowReconfig).config == under
    && key in under.signers
    && VoteSigner(env, events[j].config, events[j].signature, under.signers) == Some(key)
    && env.configHash(events[j].config) == hash
  }

  /** `key` signed, in this run and under config `under`, a vote for a config of this hash. */
  ghost predicate Approved(env: Env, initial: EnclaveConfig, events: seq<Event>, ttl: int, allowReconfig: bool,
                           key: Bytes, hash: Bytes, under: EnclaveConfig)
  {
    exists j: nat :: Cast(env, initial, events, ttl, allowReconfig, j, key, hash, under)
  }

  /** Every stored vote was cast in this run by a signer of the current config, under that config. */
  ghost predicate VotesBacked(env: Env, initial: EnclaveConfig, events: seq<Event>, ttl: int, allowReconfig: bool) {
    var s := After(env, initial, events, ttl, allowReconfig);
    forall hash, d :: hash in s.votes.items && d in s.votes.items[hash].value ==>
      Approved(env, initial, events, ttl, allowReconfig, d.preimage, hash, s.config)
  }

  ghost predicate Inv(env: Env, initial: EnclaveConfig, events: seq<Event>, ttl: int) {
    var s := After(env, initial, events, ttl, false);
    && WellFormed(s.votes, 0)
    && (!s.configSet ==> s.votes == Empty())
    && VotesBacked(env, initial, events, ttl, false)
  }

  // --- setting the config -----------------------------------------------------------------

  predicate Posted(events: seq<Event>) {
    exists i :: 0 <= i < |events| && events[i].Post?
  }

  lemma PostedStep(events: seq<Event>)
    requires events != []
    ensures Posted(events) <==> Posted(events[..|events| - 1]) || events[|events| - 1].Post?
  {
    var before := events[..|events| - 1];
    if Posted(before) {
      var i :| 0 <= i < |before| && before[i].Post?;
      assert events[i].Post?;
    }
    if Posted(events) {
      var i :| 0 <= i < |events| && events[i].Post?;
      assert i < |before| ==> before[i].Post?;
    }
  }

  /** After every run, with or without reconfiguration, a config is set if and only if there was a POST. */
  lemma {:induction false} SetIffPosted(env: Env, initial: EnclaveConfig, events: seq<Event>, ttl: int,
                                        allowReconfig: bool)
    ensures After(env, initial, events, ttl, allowReconfig).configSet <==> Posted(events)
  {
    if events != [] {
      SetIffPosted(env, initial, events[..|events| - 1], ttl, allowReconfig);
      PostedStep(events);
    }
  }

  /**
   What a POST does after any run. The first one, and with reconfiguration every one, is accepted: its
   config is in force and the votes are as before. Without reconfiguration a later one changes nothing.
   */
  lemma PostSetsConfig(env: Env, initial: EnclaveConfig, events: seq<Event>, c: EnclaveConfig, ttl: int,
                       allowReconfig: bool)
    ensures var s := After(env, initial, events, ttl, allowReconfig);
            var u := After(env, initial, events + [Post(c)], ttl, allowReconfig);
            var reply := Step(env, s, Post(c), ttl, allowReconfig).1;
            if allowReconfig || !Posted(events)
            then reply == Accepted && u.configSet && u.config == c && u.votes == s.votes
            else reply == Conflict && u == s
  {
    SetIffPosted(env, initial, events, ttl, allowReconfig);
    AfterStep(env, initial, events, Post(c), ttl, allowReconfig);
  }

  /** Before the first POST of a run no PATCH does anything: the config is the initial one and there are no votes. */
  lemma {:induction false} NothingBeforePost(env: Env, initial: EnclaveConfig, events: seq<Event>, ttl: int,
                                             allowReconfig: bool)
    requires !Posted(events)
    ensures After(env, initial, events, ttl, allowReconfig) == Server(initial, false, Empty())
  {
    if events != [] {
      PostedStep(events);
      NothingBeforePost(env, initial, events[..|events| - 1], ttl, allowReconfig);
    }
  }

  /** A vote stays cast when the run goes on. */
  lemma CastExtends(env: Env, initial: EnclaveConfig, events: seq<Event>, e: Event, ttl: int, allowReconfig: bool,
                    key: Bytes, hash: Bytes, under: EnclaveConfig)
    requires Approved(env, initial, events, ttl, allowReconfig, key, hash, under)
    ensures Approved(env, initial, events + [e], ttl, allowReconfig, key, hash, under)
  {
    var j: nat :| Cast(env, initial, events, ttl, allowReconfig, j, key, hash, under);
    assert (events + [e])[..j] == events[..j];
    assert Cast(env, initial, events + [e], ttl, allowReconfig, j, key, hash, under);
  }

  lemma AfterStep(env: Env, initial: EnclaveConfig, events: seq<Event>, e: Event, ttl: int, allowReconfig: bool)
    ensures After(env, initial, events + [e], ttl, allowReconfig)
            == Step(env, After(env, initial, events, ttl, allowReconfig), e, ttl, allowReconfig).0
  {
    assert (events + [e])[..|events|] == events;
  }

  /** A vote that passes the signature check is cast. */
  lemma NewVoteIsCast(env: Env, initial: EnclaveConfig, events: seq<Event>, e: Event, ttl: int, allowReconfig: bool)
    requires e.Patch?
    requires VoteSigner(env, e.config, e.signature,
                        After(env, initial, events, ttl, allowReconfig).config.signers).Some?
    ensures var s := After(env, initial, events, ttl, allowReconfig);
            Approved(env, initial, events + [e], ttl, allowReconfig,
                     VoteSigner(env, e.config, e.signature, s.config.signers).value, env.configHash(e.config), s.config)
  {
    var s := After(env, initial, events, ttl, allowReconfig);
    assert (events + [e])[..|events|] == events;
    assert Cast(env, initial, events + [e], ttl, allowReconfig, |events|,
                VoteSigner(env, e.config, e.signature, s.config.signers).value, env.configHash(e.config), s.config);
  }

  /** The votes a patch counts, its own included, are all cast under the current config. */
  lemma CountedVotesAreCast(env: Env, initial: EnclaveConfig, events: seq<Event>, e: Event, ttl: int, d: Digest)
    requires Inv(env, initial, events, ttl) && e.Patch?
    requires VoteSigner(env, e.config, e.signature, After(env, initial, events, ttl, false).config.signers).Some?
    requires var s := After(env, initial, events, ttl, false);
             d in VotesFor(s, env.configHash(e.config), e.now)
                  + {Sha256(VoteSigner(env, e.config, e.signature, s.config.signers).value)}
    ensures Approved(env, initial, events + [e], ttl, false, d.preimage, env.configHash(e.config),
                   After(env, initial, events, ttl, false).config)
  {
    var s := After(env, initial, events, ttl, false);
    if d in VotesFor(s, env.configHash(e.config), e.now) {
      CastExtends(env, initial, events, e, ttl, false, d.preimage, env.configHash(e.config), s.config);
    } else {
      NewVoteIsCast(env, initial, events, e, ttl, false);
    }
  }

  lemma PatchKeepsInv(env: Env, initial: EnclaveConfig, events: seq<Event>, e: Event, ttl: int)
    requires Inv(env, initial, events, ttl) && e.Patch?
    ensures Inv(env, initial, events + [e], ttl)
  {
    var s := After(env, initial, events, ttl, false);
    var u := After(env, initial, events + [e], ttl, false);
    AfterStep(env, initial, events, e, ttl, false);
    if OnPatch(env, s, e.config, e.signature, e.now, ttl).1.Pending? {
      var hash := env.configHash(e.config);
      var votes := VotesFor(s, hash, e.now) + {Sha256(VoteSigner(env, e.config, e.signature, s.config.signers).value)};
      StoredWellFormed(s.votes, hash, votes, ttl, e.now, 0);
      forall h, d | h in u.votes.items && d in u.votes.items[h].value
        ensures Approved(env, initial, events + [e], ttl, false, d.preimage, h, u.config)
      {
        if h == hash {
          CountedVotesAreCast(env, initial, events, e, ttl, d);
        } else {
          CastExtends(env, initial, events, e, ttl, false, d.preimage, h, s.config);
        }
      }
    } else if u == s {
      forall h, d | h in u.votes.items && d in u.votes.items[h].value
        ensures Approved(env, initial, events + [e], ttl, false, d.preimage, h, u.config)
      {
        CastExtends(env, initial, events, e, ttl, false, d.preimage, h, s.config);
      }
    }
  }

  lemma StepKeepsInv(env: Env, initial: EnclaveConfig, events: seq<Event>, e: Event, ttl: int)
    requires Inv(env, initial, events, ttl)
    ensures Inv(env, initial, events + [e], ttl)
  {
    if e.Patch? {
      PatchKeepsInv(env, initial, events, e, ttl);
    } else {
      var s := After(env, initial, events, ttl, false);
      var u := After(env, initial, events + [e], ttl, false);
      AfterStep(env, initial, events, e, ttl, false);
      if e.Collect? {
        CollectedWellFormed(s.votes, e.now, 0);
      }
      forall h, d | h in u.votes.items && d in u.votes.items[h].value
        ensures Approved(env, initial, events + [e], ttl, false, d.preimage, h, u.config)
      {
        CastExtends(env, initial, events, e, ttl, false, d.preimage, h, s.config);
      }
    }
  }

  lemma {:induction false} RunKeepsInv(env: Env, initial: EnclaveConfig, events: seq<Event>, ttl: int)
    ensures Inv(env, initial, events, ttl)
  {
    if events != [] {
      var last := |events| - 1;
      RunKeepsInv(env, initial, events[..last], ttl);
      StepKeepsInv(env, initial, events[..last], events[last], ttl);
      assert events[..last] + [events[last]] == events;
    }
  }

  /** With reconfiguration disallowed, in every run every pending vote is by a signer of the current config. */
  lemma PendingVotesAreCurrent(env: Env, initial: EnclaveConfig, events: seq<Event>, ttl: int)
    ensures var s := After(env, initial, events, ttl, false);
            forall hash, d :: hash in s.votes.items && d in s.votes.items[hash].value ==> d.preimage in s.config.signers
  {
    RunKeepsInv(env, initial, events, ttl);
    var s := After(env, initial, events, ttl, false);
    forall hash, d | hash in s.votes.items && d in s.votes.items[hash].value ensures d.preimage in s.config.signers {
      assert Approved(env, initial, events, ttl, false, d.preimage, hash, s.config);
    }
  }

  /**
   With reconfiguration disallowed, whenever an event changes a config that was already set, more
   than `F` distinct signers of the replaced config voted, under that config, for the new one.
   */
  lemma EveryChangeIsApproved(env: Env, initial: EnclaveConfig, events: seq<Event>, e: Event, ttl: int)
    returns (who: set<Bytes>)
    requires After(env, initial, events, ttl, false).configSet
    requires After(env, initial, events + [e], ttl, false).config != After(env, initial, events, ttl, false).config
    ensures var s, u := After(env, initial, events, ttl, false), After(env, initial, events + [e], ttl, false);
            && |who| >= s.config.F + 1
            && forall k :: k in who ==>
                 k in s.config.signers && Approved(env, initial, events + [e], ttl, false, k, env.configHash(u.config),
                                                   s.config)
  {
    RunKeepsInv(env, initial, events, ttl);
    AfterStep(env, initial, events, e, ttl, false);
    var s := After(env, initial, events, ttl, false);
    assert e.Patch? && OnPatch(env, s, e.config, e.signature, e.now, ttl).1.Applied?;
    var votes := VotesFor(s, env.configHash(e.config), e.now)
                 + {Sha256(VoteSigner(env, e.config, e.signature, s.config.signers).value)};
    who := KeysOf(votes);
    forall k | k in who
      ensures k in s.config.signers
      ensures Approved(env, initial, events + [e], ttl, false, k, env.configHash(e.config), s.config)
    {
      CountedVotesAreCast(env, initial, events, e, ttl, Sha256(k));
    }
  }

  /** So as long as at most `F` signers of the replaced config are faulty, an honest one approved the change. */
  lemma HonestSignerApproved(env: Env, initial: EnclaveConfig, events: seq<Event>, e: Event, ttl: int,
                             faulty: set<Bytes>)
    returns (k: Bytes)
    requires After(env, initial, events, ttl, false).configSet
    requires After(env, initial, events + [e], ttl, false).config != After(env, initial, events, ttl, false).config
    requires var s := After(env, initial, events, ttl, false);
             |set x | x in s.config.signers && x in faulty| <= s.config.F
    ensures var s, u := After(env, initial, events, ttl, false), After(env, initial, events + [e], ttl, false);
            k !in faulty && k in s.config.signers
            && Approved(env, initial, events + [e], ttl, false, k, env.configHash(u.config), s.config)
  {
    var who := EveryChangeIsApproved(env, initial, events, e, ttl);
    var bad := set x | x in After(env, initial, events, ttl, false).config.signers && x in faulty;
    if who <= bad {
      SubsetCardinality(who, bad);
    }
    k :| k in who && k !in bad;
  }

  /**
   With the deployed hash, an approval is for exactly the config that was installed, short of a
   SHA-256 collision between two configs.
   */
  lemma ApprovalIsForThatConfig(sha: Sha, ed25519: Ed25519, initial: EnclaveConfig, events: seq<Event>, ttl: int,
                                allowReconfig: bool, k: Bytes, c: EnclaveConfig, under: EnclaveConfig) returns (j: nat)
    requires SizedConfig(c) && forall i :: 0 <= i < |events| && events[i].Patch? ==> SizedConfig(events[i].config)
    requires var env := Deployed(sha, ed25519);
             Approved(env, initial, events, ttl, allowReconfig, k, env.configHash(c), under)
    ensures var env := Deployed(sha, ed25519);
            Cast(env, initial, events, ttl, allowReconfig, j, k, env.configHash(c), under)
    ensures events[j].config == c || ConfigCollision(sha, events[j].config, c)
  {
    var env := Deployed(sha, ed25519);
    j :| Cast(env, initial, events, ttl, allowReconfig, j, k, env.configHash(c), under);
    ConfigHashInjective(sha, events[j].config, c);
  }

  // --- a quorum of votes is enough -----------------------------------------------------

  function RunFrom(env: Env, s: Server, events: seq<Event>, ttl: int, allowReconfig: bool): Server
    decreases |events|
  {
    if events == [] then s else RunFrom(env, Step(env, s, events[0], ttl, allowReconfig).0, events[1..], ttl,
                                        allowReconfig)
  }

  /**
   The events are votes for `c`, valid under `allowed` and by keys not in `seen` and all different,
   each within `ttl` of the last.
   */
  ghost predicate Campaign(env: Env, events: seq<Event>, c: EnclaveConfig, allowed: seq<Bytes>, seen: set<Digest>,
                           last: int, ttl: int)
    decreases |events|
  {
    events != [] ==>
      && events[0].Patch? && events[0].config == c && events[0].now - last <= ttl
      && VoteSigner(env, c, events[0].signature, allowed).Some?
      && Sha256(VoteSigner(env, c, events[0].signature, allowed).value) !in seen
      && Campaign(env, events[1..], c, allowed,
                  seen + {Sha256(VoteSigner(env, c, events[0].signature, allowed).value)}, events[0].now, ttl)
  }

  /** Once a config is in force, further votes for it change nothing. */
  lemma {:induction false} CampaignAfterwards(env: Env, s: Server, events: seq<Event>, c: EnclaveConfig,
                                              allowed: seq<Bytes>,
                                              seen: set<Digest>, last: int, ttl: int, allowReconfig: bool)
    requires s.config == c && Campaign(env, events, c, allowed, seen, last, ttl)
    ensures RunFrom(env, s, events, ttl, allowReconfig).config == c
    decreases |events|
  {
    if events != [] {
      var seen' := seen + {Sha256(VoteSigner(env, c, events[0].signature, allowed).value)};
      CampaignAfterwards(env, Step(env, s, events[0], ttl, allowReconfig).0, events[1..], c, allowed, seen',
                         events[0].now, ttl, allowReconfig);
    }
  }

  lemma {:induction false} CampaignFrom(env: Env, s: Server, events: seq<Event>, c: EnclaveConfig,
                                        seen: set<Digest>, last: int, ttl: int, allowReconfig: bool)
    requires s.configSet && env.configHash(c) != env.configHash(s.config)
    requires Campaign(env, events, c, s.config.signers, seen, last, ttl)
    requires seen == {} || (env.configHash(c) in s.votes.items && seen <= s.votes.items[env.configHash(c)].value
                            && s.votes.items[env.configHash(c)].created == last
                            && s.votes.items[env.configHash(c)].ttl == ttl)
    requires |seen| + |events| >= s.config.F + 1 && events != []
    ensures RunFrom(env, s, events, ttl, allowReconfig).config == c
    decreases |events|
  {
    var e := events[0];
    var mine := Sha256(VoteSigner(env, c, e.signature, s.config.signers).value);
    var votes := VotesFor(s, env.configHash(c), e.now) + {mine};
    var u := Step(env, s, e, ttl, allowReconfig).0;
    SubsetCardinality(seen + {mine}, votes);
    if |votes| >= s.config.F + 1 {
      CampaignAfterwards(env, u, events[1..], c, s.config.signers, seen + {mine}, e.now, ttl, allowReconfig);
    } else {
      CampaignFrom(env, u, events[1..], c, seen + {mine}, e.now, ttl, allowReconfig);
    }
  }

  /** `F + 1` votes by different current signers for one new config, none expiring in between, install it. */
  lemma QuorumInstalls(env: Env, s: Server, events: seq<Event>, c: EnclaveConfig, start: int, ttl: int,
                       allowReconfig: bool)
    requires s.configSet && env.configHash(c) != env.configHash(s.config)
    requires Campaign(env, events, c, s.config.signers, {}, start, ttl)
    requires |events| >= s.config.F + 1
    ensures RunFrom(env, s, events, ttl, allowReconfig).config == c
  {
    CampaignFrom(env, s, events, c, {}, start, ttl, allowReconfig);
  }

  // --- with reconfiguration allowed -------------------------------------------------------

  /** Every stored vote is by a signer of the config in force. */
  ghost predicate VotesCurrent(s: Server) {
    forall hash, d :: hash in s.votes.items && d in s.votes.items[hash].value ==> d.preimage in s.config.signers
  }

  ghost predicate ListsVoters(s: Server, c: EnclaveConfig) {
    forall hash, d :: hash in s.votes.items && d in s.votes.items[hash].value ==> d.preimage in c.signers
  }

  /** At every moment of the run. */
  ghost predicate AlwaysCurrent(env: Env, initial: EnclaveConfig, events: seq<Event>, ttl: int) {
    forall i :: 0 <= i <= |events| ==> VotesCurrent(After(env, initial, events[..i], ttl, true))
  }

  /** Each POST of the run lists every voter whose vote is pending when it arrives. */
  ghost predicate PostsListVoters(env: Env, initial: EnclaveConfig, events: seq<Event>, ttl: int) {
    forall i :: 0 <= i < |events| && events[i].Post? ==>
      ListsVoters(After(env, initial, events[..i], ttl, true), events[i].config)
  }

  /** Anything but a POST keeps the votes current; a POST does exactly when it lists the voters. */
  lemma StepKeepsCurrent(env: Env, s: Server, e: Event, ttl: int)
    requires VotesCurrent(s) && WellFormed(s.votes, 0)
    ensures VotesCurrent(Step(env, s, e, ttl, true).0) <==> (e.Post? ==> ListsVoters(s, e.config))
  {
    var u := Step(env, s, e, ttl, true).0;
    if e.Collect? {
      CollectedWellFormed(s.votes, e.now, 0);
    } else if e.Patch? && OnPatch(env, s, e.config, e.signature, e.now, ttl).1.Pending? {
      var hash := env.configHash(e.config);
      forall h, d | h in u.votes.items && d in u.votes.items[h].value ensures d.preimage in u.config.signers {
        if h != hash {
          assert h in s.votes.items;
        }
      }
    }
  }

  lemma {:induction false} VotesWellFormed(env: Env, initial: EnclaveConfig, events: seq<Event>, ttl: int,
                                           allowReconfig: bool)
    ensures WellFormed(After(env, initial, events, ttl, allowReconfig).votes, 0)
  {
    if events != [] {
      var before, e := events[..|events| - 1], events[|events| - 1];
      VotesWellFormed(env, initial, before, ttl, allowReconfig);
      StepWellFormed(env, After(env, initial, before, ttl, allowReconfig), e, ttl, allowReconfig);
    }
  }

  lemma StepWellFormed(env: Env, s: Server, e: Event, ttl: int, allowReconfig: bool)
    requires WellFormed(s.votes, 0)
    ensures WellFormed(Step(env, s, e, ttl, allowReconfig).0.votes, 0)
  {
    match e
    case Post(_) =>
    case Collect(now) => CollectedWellFormed(s.votes, now, 0);
    case Patch(c, sig, now) =>
      var signer := VoteSigner(env, c, sig, s.config.signers);
      if signer.Some? {
        StoredWellFormed(s.votes, env.configHash(c), VotesFor(s, env.configHash(c), now) + {Sha256(signer.value)}, ttl,
                         now, 0);
      }
  }

  /** The state before event `i` and after it. */
  lemma AfterAt(env: Env, initial: EnclaveConfig, events: seq<Event>, ttl: int, i: nat)
    requires i < |events|
    ensures After(env, initial, events[..i + 1], ttl, true) ==
            Step(env, After(env, initial, events[..i], ttl, true), events[i], ttl, true).0
  {
    assert events[..i + 1] == events[..i] + [events[i]];
    AfterStep(env, initial, events[..i], events[i], ttl, true);
  }

  lemma {:induction false} CurrentUpTo(env: Env, initial: EnclaveConfig, events: seq<Event>, ttl: int, i: nat)
    requires PostsListVoters(env, initial, events, ttl) && i <= |events|
    ensures VotesCurrent(After(env, initial, events[..i], ttl, true))
  {
    if i > 0 {
      CurrentUpTo(env, initial, events, ttl, i - 1);
      VotesWellFormed(env, initial, events[..i - 1], ttl, true);
      AfterAt(env, initial, events, ttl, i - 1);
      StepKeepsCurrent(env, After(env, initial, events[..i - 1], ttl, true), events[i - 1], ttl);
    }
  }

  /**
   With reconfiguration allowed, over every run: pending votes are by current signers at every moment if
   and only if each POST lists every voter whose vote is pending when it arrives.
   */
  lemma VotesStayCurrentIff(env: Env, initial: EnclaveConfig, events: seq<Event>, ttl: int)
    ensures AlwaysCurrent(env, initial, events, ttl) <==> PostsListVoters(env, initial, events, ttl)
  {
    if PostsListVoters(env, initial, events, ttl) {
      forall i | 0 <= i <= |events| ensures VotesCurrent(After(env, initial, events[..i], ttl, true)) {
        CurrentUpTo(env, initial, events, ttl, i);
      }
    }
    if AlwaysCurrent(env, initial, events, ttl) {
      forall i | 0 <= i < |events| && events[i].Post?
        ensures ListsVoters(After(env, initial, events[..i], ttl, true), events[i].config)
      {
        VotesWellFormed(env, initial, events[..i], ttl, true);
        AfterAt(env, initial, events, ttl, i);
        StepKeepsCurrent(env, After(env, initial, events[..i], ttl, true), events[i], ttl);
        assert VotesCurrent(After(env, initial, events[..i + 1], ttl, true));
      }
    }
  }

  /** `key` cast a vote in this run for a config of this hash, under a config that listed it then. */
  ghost predicate CastBy(env: Env, initial: EnclaveConfig, events: seq<Event>, ttl: int, allowReconfig: bool,
                         key: Bytes, hash: Bytes)
  {
    exists under :: Approved(env, initial, events, ttl, allowReconfig, key, hash, under)
  }

  ghost predicate VotesWereCast(env: Env, initial: EnclaveConfig, events: seq<Event>, ttl: int, allowReconfig: bool) {
    var s := After(env, initial, events, ttl, allowReconfig);
    forall hash, d :: hash in s.votes.items && d in s.votes.items[hash].value ==>
      CastBy(env, initial, events, ttl, allowReconfig, d.preimage, hash)
  }

  lemma StaysCast(env: Env, initial: EnclaveConfig, events: seq<Event>, e: Event, ttl: int, allowReconfig: bool,
                  key: Bytes, hash: Bytes)
    requires CastBy(env, initial, events, ttl, allowReconfig, key, hash)
    ensures CastBy(env, initial, events + [e], ttl, allowReconfig, key, hash)
  {
    var under :| Approved(env, initial, events, ttl, allowReconfig, key, hash, under);
    CastExtends(env, initial, events, e, ttl, allowReconfig, key, hash, under);
  }

  /** A vote stored after an event was stored before it, or is the event's own. */
  lemma StoredVote(env: Env, s: Server, e: Event, ttl: int, allowReconfig: bool, hash: Bytes, d: Digest)
    requires WellFormed(s.votes, 0)
    requires var u := Step(env, s, e, ttl, allowReconfig).0; hash in u.votes.items && d in u.votes.items[hash].value
    ensures || (hash in s.votes.items && d in s.votes.items[hash].value)
            || (e.Patch? && hash == env.configHash(e.config)
                && VoteSigner(env, e.config, e.signature, s.config.signers) == Some(d.preimage))
  {
    if e.Collect? {
      CollectedWellFormed(s.votes, e.now, 0);
    }
  }

  lemma {:induction false} RunKeepsCast(env: Env, initial: EnclaveConfig, events: seq<Event>, ttl: int,
                                        allowReconfig: bool)
    ensures VotesWereCast(env, initial, events, ttl, allowReconfig)
  {
    if events != [] {
      var before, e := events[..|events| - 1], events[|events| - 1];
      RunKeepsCast(env, initial, before, ttl, allowReconfig);
      VotesWellFormed(env, initial, before, ttl, allowReconfig);
      var s, u := After(env, initial, before, ttl, allowReconfig), After(env, initial, events, ttl, allowReconfig);
      assert before + [e] == events;
      forall hash, d | hash in u.votes.items && d in u.votes.items[hash].value
        ensures CastBy(env, initial, events, ttl, allowReconfig, d.preimage, hash)
      {
        StoredVote(env, s, e, ttl, allowReconfig, hash, d);
        if hash in s.votes.items && d in s.votes.items[hash].value {
          StaysCast(env, initial, before, e, ttl, allowReconfig, d.preimage, hash);
        } else {
          NewVoteIsCast(env, initial, before, e, ttl, allowReconfig);
        }
      }
    }
  }

  /**
   With or without reconfiguration, a PATCH is applied only with more than `F` keys that cast a vote for
   that config in the run; and where each POST listed the pending voters, all of them are signers of
   the config it replaces.
   */
  lemma AppliedPatchIsVoted(env: Env, initial: EnclaveConfig, events: seq<Event>, e: Event, ttl: int,
                            allowReconfig: bool) returns (who: set<Bytes>)
    requires e.Patch?
    requires Step(env, After(env, initial, events, ttl, allowReconfig), e, ttl, allowReconfig).1.Applied?
    ensures var s := After(env, initial, events, ttl, allowReconfig);
            && |who| >= s.config.F + 1
            && (forall k :: k in who ==> CastBy(env, initial, events + [e], ttl, allowReconfig, k,
                                                env.configHash(e.config)))
            && (allowReconfig && PostsListVoters(env, initial, events, ttl) ==> forall k :: k in who ==>
                k in s.config.signers)
  {
    var s := After(env, initial, events, ttl, allowReconfig);
    var hash := env.configHash(e.config);
    var mine := VoteSigner(env, e.config, e.signature, s.config.signers).value;
    who := KeysOf(VotesFor(s, hash, e.now) + {Sha256(mine)});
    RunKeepsCast(env, initial, events, ttl, allowReconfig);
    forall k | k in who ensures CastBy(env, initial, events + [e], ttl, allowReconfig, k, hash) {
      if Sha256(k) in VotesFor(s, hash, e.now) {
        assert CastBy(env, initial, events, ttl, allowReconfig, Sha256(k).preimage, hash);
        StaysCast(env, initial, events, e, ttl, allowReconfig, k, hash);
      } else {
        NewVoteIsCast(env, initial, events, e, ttl, allowReconfig);
      }
    }
    if allowReconfig && PostsListVoters(env, initial, events, ttl) {
      CurrentUpTo(env, initial, events, ttl, |events|);
      assert events[..|events|] == events;
      forall k | k in who ensures k in s.config.signers {
        if Sha256(k) in VotesFor(s, hash, e.now) {
          assert Sha256(k).preimage in s.config.signers;
        }
      }
    }
  }

  /** Of two signatures for `c`, one is by `k` under `a`, the other by `own` under `b`, which does not list `k`. */
  predicate ForeignVote(env: Env, a: EnclaveConfig, b: EnclaveConfig, c: EnclaveConfig, k: Bytes, sigK: Bytes,
                        own: Bytes, sigOwn: Bytes)
  {
    && env.configHash(c) != env.configHash(a) && env.configHash(c) != env.configHash(b) && a.F == b.F == 1
    && VoteSigner(env, c, sigK, a.signers) == Some(k) && VoteSigner(env, c, sigOwn, b.signers) == Some(own)
    && k !in b.signers
  }

  /**
   After POST `a`, a vote for `c` and POST `b`: `k` is the pending voter for `c`, is not a signer of `b`,
   and the next vote for `c`, by a signer of `b`, installs `c`.
   */
  ghost predicate CountsForeignVote(env: Env, initial: EnclaveConfig, a: EnclaveConfig, b: EnclaveConfig,
                                    c: EnclaveConfig, k: Bytes, sigK: Bytes, own: Bytes, sigOwn: Bytes, ttl: int)
  {
    var run := [Post(a), Patch(c, sigK, 0), Post(b)];
    var s := After(env, initial, run, ttl, true);
    var r := Step(env, s, Patch(c, sigOwn, 0), ttl, true);
    && s.config == b && !VotesCurrent(s) && !PostsListVoters(env, initial, run, ttl)
    && VotesFor(s, env.configHash(c), 0) == {Sha256(k)}
    && r.1.Applied? && r.0.config == c && own in b.signers && k !in b.signers
  }

  /**
   Where a POST replaces config `a` by `b` without listing `k`, whose vote for `c` is pending, that vote
   stays and still counts: one current signer then installs `c`, although `b` asks for two.
   */
  lemma ForeignVoteCounts(env: Env, initial: EnclaveConfig, a: EnclaveConfig, b: EnclaveConfig, c: EnclaveConfig,
                          k: Bytes, sigK: Bytes, own: Bytes, sigOwn: Bytes, ttl: int)
    requires ForeignVote(env, a, b, c, k, sigK, own, sigOwn) && ttl >= 0
    ensures CountsForeignVote(env, initial, a, b, c, k, sigK, own, sigOwn, ttl)
  {
    var run := [Post(a), Patch(c, sigK, 0), Post(b)];
    var hash := env.configHash(c);
    var s1 := Server(a, true, Empty());
    AfterStep(env, initial, [], run[0], ttl, true);
    AfterStep(env, initial, [run[0]], run[1], ttl, true);
    AfterStep(env, initial, run[..2], run[2], ttl, true);
    assert [] + [run[0]] == [run[0]] && [run[0]] + [run[1]] == run[..2] && run[..2] + [run[2]] == run;
    assert After(env, initial, [run[0]], ttl, true) == s1;
    var s2 := After(env, initial, run[..2], ttl, true);
    assert s2.votes == Stored(Empty(), hash, {Sha256(k)}, ttl, 0, 0);
    var s := After(env, initial, run, ttl, true);
    assert hash in s.votes.items && s.votes.items[hash] == Item({Sha256(k)}, 0, ttl);
    assert Sha256(k) in s.votes.items[hash].value;
    assert !ListsVoters(s2, b);
    assert VoteSigner(env, c, sigOwn, b.signers).value in b.signers;
    assert own != k;
    assert |{Sha256(k)} + {Sha256(own)}| == 2;
  }
}

/** A deployment and configs for which that happens. */
module ConfigExamples {
  import opened Bytes
  import opened Crypto
  import opened Encoding
  import opened Preimages
  import opened Protocol
  import opened CacheModel
  import opened ConfigModel
  import opened ConfigChain
  import opened ExampleDeployment

  lemma FirstVotes(c: EnclaveConfig, x: byte, y: byte, t: uint32, f: uint32)
    requires x != y
    ensures VoteSigner(Example(), c, SignatureBy(x), TwoSigners(x, y, t, f).signers) == Some(Key(x))
  {
    FirstOfTwo(Example().votePayload(Example().configHash(c)), x, y);
  }

  lemma VotesOfTwoConfigs()
    ensures ForeignVote(Example(), TwoSigners(1, 2, 1, 1), TwoSigners(3, 4, 2, 1), TwoSigners(5, 6, 3, 1),
                        Key(1), SignatureBy(1), Key(3), SignatureBy(3))
  {
    var a, b, c := TwoSigners(1, 2, 1, 1), TwoSigners(3, 4, 2, 1), TwoSigners(5, 6, 3, 1);
    ThresholdsTellApart(c, a);
    ThresholdsTellApart(c, b);
    FirstVotes(c, 1, 2, 1, 1);
    FirstVotes(c, 3, 4, 2, 1);
    KeysDiffer(1, 3);
    KeysDiffer(1, 4);
  }

  /** There the vote of a replaced config counts, although the config in force asks for two of its own signers. */
  lemma ReconfigurationKeepsForeignVotes(initial: EnclaveConfig, ttl: int)
    requires ttl >= 0
    ensures var a, b, c := TwoSigners(1, 2, 1, 1), TwoSigners(3, 4, 2, 1), TwoSigners(5, 6, 3, 1);
            && CountsForeignVote(Example(), initial, a, b, c, Key(1), SignatureBy(1), Key(3), SignatureBy(3), ttl)
            && b.F + 1 == 2
  {
    VotesOfTwoConfigs();
    ForeignVoteCounts(Example(), initial, TwoSigners(1, 2, 1, 1), TwoSigners(3, 4, 2, 1), TwoSigners(5, 6, 3, 1),
                      Key(1), SignatureBy(1), Key(3), SignatureBy(3), ttl);
  }
}
