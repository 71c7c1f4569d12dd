/** The enclave server's objects: its config handlers and one undisturbed pass through `handleExecute`. */
module EnclaveServer {
  import opened Bytes
  import opened Crypto
  import opened Encoding
  import opened Preimages
  import opened Protocol
  import opened CacheModel
  import opened TtlCache
  import CM = ConfigModel

  /** How the parts of `handleExecute` outside this model end. */
  datatype Outside = Outside(prechecks: bool, app: Option<Bytes>, attestation: bool)

  datatype Result = Rejected(verdict: Verdict) | Conflict | Replay | BadRequest | Failed | Executed(output: Bytes)

  class EnclaveServer {
    const env: Env
    const allowReconfig: bool
    var config: EnclaveConfig
    var configSet: bool
    const pendingConfigVotes: Cache<Bytes, set<Digest>>
    const inProgressReqs: Cache<Bytes, ()>
    const executedReqs: Cache<Bytes, ()>

    ghost predicate Valid()
      reads this, pendingConfigVotes, inProgressReqs, executedReqs
    {
      && pendingConfigVotes.Valid() && pendingConfigVotes.maxEntries == 0
      && inProgressReqs.Valid() && executedReqs.Valid()
      && inProgressReqs != executedReqs
      && pendingConfigVotes as object != inProgressReqs && pendingConfigVotes as object != executedReqs
    }

    ghost function Value(): CM.Server
      reads this, pendingConfigVotes
    {
      CM.Server(config, configSet, pendingConfigVotes.Value())
    }

    constructor (env: Env, config: EnclaveConfig, allowReconfig: bool, voteTtl: int, replayTtl: int, replayMax: int)
      ensures Valid() && Value() == CM.Server(config, false, Empty())
      ensures this.env == env && this.allowReconfig == allowReconfig && pendingConfigVotes.timeToLive == voteTtl
    {
      this.env, this.allowReconfig, this.config, configSet := env, allowReconfig, config, false;
      pendingConfigVotes := new Cache(voteTtl, 0);
      inProgressReqs := new Cache(replayTtl, replayMax);
      executedReqs := new Cache(replayTtl, replayMax);
    }

    /** `handleSetConfig`. */
    method HandleSetConfig(newConfig: EnclaveConfig) returns (reply: CM.Reply)
      requires Valid()
      modifies this
      ensures Valid()
      ensures (Value(), reply) == CM.OnPost(old(Value()), newConfig, allowReconfig)
    {
      if configSet && !allowReconfig {
        return CM.Conflict;
      }
      config := newConfig;
      configSet := true;
      return CM.Accepted;
    }

    /** `handleUpdateConfig`. */
    method HandleUpdateConfig(newConfig: EnclaveConfig, signature: Bytes, now: int) returns (reply: CM.Reply)
      requires Valid()
      modifies this, pendingConfigVotes
      ensures Valid()
      ensures (Value(), reply) == CM.OnPatch(env, old(Value()), newConfig, signature, now,
                                             pendingConfigVotes.timeToLive)
    {
      if !configSet {
        return CM.Uninitialized;
      }
      var newHash := env.configHash(newConfig);
      var signer := VerifySignature(env.ed25519, env.votePayload(newHash), signature, config.signers);
      if signer.None? {
        return CM.BadVote;
      }
      if newHash == env.configHash(config) {
        return CM.AlreadyCurrent;
      }
      var found := pendingConfigVotes.Get(newHash, now);
      var votes := if found.Some? then found.value else {};
      votes := votes + {Sha256(signer.value)};
      pendingConfigVotes.Set(newHash, votes, None, now);
      var required := config.F + 1;
      if |votes| < required {
        return CM.Pending(|votes|, required);
      }
      config := newConfig;
      pendingConfigVotes.Flush();
      return CM.Applied;
    }

    /**
     `handleExecute` when no other handler runs. The application is called exactly when the batch
     is admissible, its hash is neither in progress nor on record and the remaining checks pass;
     the hash goes on record exactly when the call and the attestation succeed; and no mark is left.
     */
    method HandleExecute(reqs: seq<SignedRequest>, outside: Outside, now: int) returns (r: Result, called: bool)
      requires Valid()
      modifies inProgressReqs, executedReqs
      ensures Valid()
      ensures r.Rejected? <==> !Admissible(env, reqs, config)
      ensures called <==> && Admissible(env, reqs, config) && outside.prechecks
                          && Lookup(old(inProgressReqs.Value()), HashOf(env, reqs[0]), now).None?
                          && Lookup(old(executedReqs.Value()), HashOf(env, reqs[0]), now).None?
      ensures r.Executed? <==> called && outside.app.Some? && outside.attestation
      ensures r.Executed? ==> r.output == outside.app.value
      ensures executedReqs.Value() ==
              if r.Executed?
              then Stored(old(executedReqs.Value()), HashOf(env, reqs[0]), (), executedReqs.timeToLive, now,
                          executedReqs.maxEntries)
              else old(executedReqs.Value())
      ensures inProgressReqs.Value() ==
              if r.Rejected? || r.Conflict? then old(inProgressReqs.Value())
              else Deleted(Stored(old(inProgressReqs.Value()), HashOf(env, reqs[0]), (), inProgressReqs.timeToLive, now,
                                  inProgressReqs.maxEntries), HashOf(env, reqs[0]))
    {
      called := false;
      var verdict := CheckBatch(env, reqs, config);
      if !verdict.Admitted? {
        return Rejected(verdict), called;
      }
      var hash := verdict.hash;
      var busy := inProgressReqs.Get(hash, now);
      if busy.Some? {
        return Conflict, called;
      }
      inProgressReqs.Set(hash, (), None, now);
      r, called := Process(hash, outside, now);
      inProgressReqs.Delete(hash);
    }

    /** The part of `handleExecute` between marking the hash and removing the mark. */
    method Process(hash: Bytes, outside: Outside, now: int) returns (r: Result, called: bool)
      requires executedReqs.Valid()
      modifies executedReqs
      ensures executedReqs.Valid()
      ensures called <==> outside.prechecks && Lookup(old(executedReqs.Value()), hash, now).None?
      ensures r.Replay? || r.BadRequest? || r.Failed? || r.Executed?
      ensures r.Executed? <==> called && outside.app.Some? && outside.attestation
      ensures r.Executed? ==> r.output == outside.app.value
      ensures executedReqs.Value() ==
              if r.Executed?
              then Stored(old(executedReqs.Value()), hash, (), executedReqs.timeToLive, now, executedReqs.maxEntries)
              else old(executedReqs.Value())
    {
      called := false;
      var done := executedReqs.Get(hash, now);
      if done.Some? {
        return Replay, called;
      }
      if !outside.prechecks {
        return BadRequest, called;
      }
      called := true;
      if outside.app.None? || !outside.attestation {
        return Failed, called;
      }
      executedReqs.Set(hash, (), None, now);
      return Executed(outside.app.value), called;
    }
  }
}

/** How the host's copy of the config follows the enclave's. */
module ConfigSync {
  import opened Bytes
  import opened Crypto
  import opened Encoding
  import opened Preimages
  import opened Protocol
  import opened CacheModel
  import CM = ConfigModel

  const ZERO := EnclaveConfig([], [], 0, 0)

  predicate IsZero(c: EnclaveConfig) {
    c.T == 0 && c.F == 0 && |c.signers| == 0 && |c.masterPublicKey| == 0
  }

  /** A response of the enclave as the host sees it; responses may be lost, repeated or arrive in any order. */
  datatype Response =
    | SetResponse(config: EnclaveConfig)
    | UpdateResponse(applied: bool, config: EnclaveConfig)
    | KeysResponse(config: EnclaveConfig)

  /** What the host makes of a response. */
  function Adopt(host: EnclaveConfig, r: Response): EnclaveConfig {
    match r
    case SetResponse(c) => c
    case UpdateResponse(applied, c) => if applied then c else host
    case KeysResponse(c) =>
      if !IsZero(host) || c.T == 0 || |c.signers| == 0 || |c.masterPublicKey| == 0 then host else c
  }

  datatype Sync = Sync(enclave: CM.Server, held: set<EnclaveConfig>, responses: set<Response>, host: EnclaveConfig)

  datatype Event =
    | Enclave(e: CM.Event)
    | ReadKeys
    | Deliver(r: Response)
    | HostRestart

  /** The response to a config request: the proposal, which is the current config only if it was applied. */
  function ResponseTo(env: Env, s: CM.Server, e: CM.Event, ttl: int, allowReconfig: bool): set<Response> {
    var (s', reply) := CM.Step(env, s, e, ttl, allowReconfig);
    match e
    case Post(c) => if reply.Accepted? then {SetResponse(c)} else {}
    case Patch(c, _, _) =>
      if reply.AlreadyCurrent? then {UpdateResponse(true, s.config)}
      else if reply.Applied? then {UpdateResponse(true, c)}
      else if reply.Pending? then {UpdateResponse(false, c)}
      else {}
    case Collect(_) => {}
  }

  function Step(env: Env, s: Sync, e: Event, ttl: int, allowReconfig: bool): Sync {
    match e
    case Enclave(ce) =>
      var s' := CM.Step(env, s.enclave, ce, ttl, allowReconfig).0;
      s.(enclave := s', held := s.held + {s'.config},
         responses := s.responses + ResponseTo(env, s.enclave, ce, ttl, allowReconfig))
    case ReadKeys =>
      if IsZero(s.enclave.config) then s else s.(responses := s.responses + {KeysResponse(s.enclave.config)})
    case Deliver(r) => if r in s.responses then s.(host := Adopt(s.host, r)) else s
    case HostRestart => s.(host := ZERO)
  }

  function Run(env: Env, initial: EnclaveConfig, events: seq<Event>, ttl: int, allowReconfig: bool): Sync {
    if events == [] then Sync(CM.Server(initial, false, Empty()), {initial}, {}, ZERO)
    else Step(env, Run(env, initial, events[..|events| - 1], ttl, allowReconfig), events[|events| - 1], ttl,
              allowReconfig)
  }

  ghost predicate Inv(s: Sync) {
    && s.enclave.config in s.held
    && (s.host == ZERO || s.host in s.held)
    && (forall r :: r in s.responses && !(r.UpdateResponse? && !r.applied) ==> r.config in s.held)
  }

  /** A response that lets the host adopt a config names one the enclave then holds. */
  lemma ResponseIsHeld(env: Env, s: CM.Server, e: CM.Event, ttl: int, allowReconfig: bool, r: Response)
    requires r in ResponseTo(env, s, e, ttl, allowReconfig) && !(r.UpdateResponse? && !r.applied)
    ensures r.config == CM.Step(env, s, e, ttl, allowReconfig).0.config
  {
  }

  lemma StepKeepsInv(env: Env, s: Sync, e: Event, ttl: int, allowReconfig: bool)
    requires Inv(s)
    ensures Inv(Step(env, s, e, ttl, allowReconfig))
  {
    if e.Enclave? {
      var u := Step(env, s, e, ttl, allowReconfig);
      forall r | r in u.responses && !(r.UpdateResponse? && !r.applied) ensures r.config in u.held {
        if r !in s.responses {
          ResponseIsHeld(env, s.enclave, e.e, ttl, allowReconfig, r);
        }
      }
    }
  }

  lemma {:induction false} RunKeepsInv(env: Env, initial: EnclaveConfig, events: seq<Event>, ttl: int,
                                       allowReconfig: bool)
    ensures Inv(Run(env, initial, events, ttl, allowReconfig))
  {
    if events != [] {
      var before := events[..|events| - 1];
      RunKeepsInv(env, initial, before, ttl, allowReconfig);
      StepKeepsInv(env, Run(env, initial, before, ttl, allowReconfig), events[|events| - 1], ttl, allowReconfig);
    }
  }

  /** In every run the host's config is the zero config or one the enclave has held, with or without reconfiguration. */
  lemma HostConfigWasHeld(env: Env, initial: EnclaveConfig, events: seq<Event>, ttl: int, allowReconfig: bool)
    ensures var s := Run(env, initial, events, ttl, allowReconfig); s.host == ZERO || s.host in s.held
  {
    RunKeepsInv(env, initial, events, ttl, allowReconfig);
  }

  // --- following the enclave ----------------------------------------------------------------

  lemma RunStep(env: Env, initial: EnclaveConfig, events: seq<Event>, e: Event, ttl: int, allowReconfig: bool)
    ensures Run(env, initial, events + [e], ttl, allowReconfig)
            == Step(env, Run(env, initial, events, ttl, allowReconfig), e, ttl, allowReconfig)
  {
    assert (events + [e])[..|events|] == events;
  }

  /** A response that was sent stays on its way. */
  lemma {:induction false} StaysSent(env: Env, initial: EnclaveConfig, events: seq<Event>, ttl: int,
                                     allowReconfig: bool, i: nat, r: Response)
    requires i <= |events| && r in Run(env, initial, events[..i], ttl, allowReconfig).responses
    ensures r in Run(env, initial, events, ttl, allowReconfig).responses
    decreases |events|
  {
    if i < |events| {
      var before := events[..|events| - 1];
      assert before[..i] == events[..i];
      StaysSent(env, initial, before, ttl, allowReconfig, i, r);
    } else {
      assert events[..i] == events;
    }
  }

  /** What the enclave answers to a POST or a PATCH, and the response that carries it. */
  predicate Answers(reply: CM.Reply, e: CM.Event, current: EnclaveConfig, r: Response) {
    || (e.Post? && reply.Accepted? && r == SetResponse(current))
    || (e.Patch? && (reply.Applied? || reply.AlreadyCurrent?) && r == UpdateResponse(true, current))
    || (e.Patch? && reply.Pending? && r == UpdateResponse(false, e.config))
  }

  /** Event `i` of the run is a request to the enclave that was answered by `r`. */
  ghost predicate AnsweredBy(env: Env, initial: EnclaveConfig, events: seq<Event>, ttl: int, allowReconfig: bool,
                             i: nat, r: Response)
  {
    && i < |events| && events[i].Enclave?
    && var step := CM.Step(env, Run(env, initial, events[..i], ttl, allowReconfig).enclave, events[i].e, ttl,
                           allowReconfig);
       Answers(step.1, events[i].e, step.0.config, r)
  }

  lemma AnswerIsSent(env: Env, initial: EnclaveConfig, events: seq<Event>, ttl: int, allowReconfig: bool, i: nat,
                     r: Response)
    requires AnsweredBy(env, initial, events, ttl, allowReconfig, i, r)
    ensures r in Run(env, initial, events, ttl, allowReconfig).responses
    ensures Run(env, initial, events[..i + 1], ttl, allowReconfig).enclave
            == CM.Step(env, Run(env, initial, events[..i], ttl, allowReconfig).enclave, events[i].e, ttl,
                       allowReconfig).0
  {
    var s, e := Run(env, initial, events[..i], ttl, allowReconfig), events[i];
    assert Run(env, initial, events[..i + 1], ttl, allowReconfig) == Step(env, s, e, ttl, allowReconfig) by {
      assert events[..i + 1] == events[..i] + [e];
      RunStep(env, initial, events[..i], e, ttl, allowReconfig);
    }
    SendsAnswer(env, s, e.e, ttl, allowReconfig, r);
    StaysSent(env, initial, events, ttl, allowReconfig, i + 1, r);
  }

  lemma SendsAnswer(env: Env, s: Sync, e: CM.Event, ttl: int, allowReconfig: bool, r: Response)
    requires var step := CM.Step(env, s.enclave, e, ttl, allowReconfig); Answers(step.1, e, step.0.config, r)
    ensures r in Step(env, s, Event.Enclave(e), ttl, allowReconfig).responses
  {
  }

  /**
   When the answer to a POST, or to a PATCH that was applied or proposed the current config, reaches the
   host, and the enclave's config is still the one of that answer, host and enclave have the same
   config. An answer to a PATCH that was not applied leaves the host's config as it is.
   */
  lemma HostFollows(env: Env, initial: EnclaveConfig, events: seq<Event>, ttl: int, allowReconfig: bool, i: nat,
                    r: Response)
    requires AnsweredBy(env, initial, events, ttl, allowReconfig, i, r)
    requires Run(env, initial, events, ttl, allowReconfig).enclave.config ==
             Run(env, initial, events[..i + 1], ttl, allowReconfig).enclave.config
    ensures var s := Run(env, initial, events, ttl, allowReconfig);
            var u := Run(env, initial, events + [Deliver(r)], ttl, allowReconfig);
            && u.enclave == s.enclave
            && u.host == if r.UpdateResponse? && !r.applied then s.host else u.enclave.config
  {
    AnswerIsSent(env, initial, events, ttl, allowReconfig, i, r);
    RunStep(env, initial, events, Deliver(r), ttl, allowReconfig);
  }

  predicate Complete(c: EnclaveConfig) {
    c.T != 0 && c.signers != [] && c.masterPublicKey != []
  }

  /**
   When the host has no config, as after a restart, and the answer to a read of the keys reaches it
   while the enclave's config is still the one read, it takes it over if it is complete and stays
   without a config otherwise. A host that has a config keeps it.
   */
  lemma HostRecovers(env: Env, initial: EnclaveConfig, events: seq<Event>, ttl: int, allowReconfig: bool, i: nat)
    requires i < |events| && events[i] == ReadKeys
    requires var c := Run(env, initial, events, ttl, allowReconfig).enclave.config;
             !IsZero(c) && Run(env, initial, events[..i], ttl, allowReconfig).enclave.config == c
    ensures var s := Run(env, initial, events, ttl, allowReconfig);
            var u := Run(env, initial, events + [Deliver(KeysResponse(s.enclave.config))], ttl, allowReconfig);
            && u.enclave == s.enclave
            && u.host == if IsZero(s.host) && Complete(s.enclave.config) then u.enclave.config else s.host
  {
    var s := Run(env, initial, events, ttl, allowReconfig);
    var r := KeysResponse(s.enclave.config);
    assert r in s.responses by { KeysAreSent(env, initial, events, ttl, allowReconfig, i, s.enclave.config); }
    RunStep(env, initial, events, Deliver(r), ttl, allowReconfig);
    DeliverKeys(env, s, s.enclave.config, ttl, allowReconfig);
  }

  lemma KeysAreSent(env: Env, initial: EnclaveConfig, events: seq<Event>, ttl: int, allowReconfig: bool, i: nat,
                    c: EnclaveConfig)
    requires i < |events| && events[i] == ReadKeys && !IsZero(c)
    requires Run(env, initial, events[..i], ttl, allowReconfig).enclave.config == c
    ensures KeysResponse(c) in Run(env, initial, events, ttl, allowReconfig).responses
  {
    assert KeysResponse(c) in Run(env, initial, events[..i + 1], ttl, allowReconfig).responses by {
      assert events[..i + 1] == events[..i] + [ReadKeys];
      RunStep(env, initial, events[..i], ReadKeys, ttl, allowReconfig);
    }
    StaysSent(env, initial, events, ttl, allowReconfig, i + 1, KeysResponse(c));
  }

  lemma DeliverKeys(env: Env, s: Sync, c: EnclaveConfig, ttl: int, allowReconfig: bool)
    requires KeysResponse(c) in s.responses
    ensures var u := Step(env, s, Deliver(KeysResponse(c)), ttl, allowReconfig);
            u.enclave == s.enclave && u.host == if IsZero(s.host) && Complete(c) then c else s.host
  {
  }

  /** So after a restart, a read of the keys and its answer, host and enclave agree whenever the config is complete. */
  lemma AgreeAfterRestart(env: Env, initial: EnclaveConfig, events: seq<Event>, ttl: int, allowReconfig: bool)
    requires Complete(Run(env, initial, events, ttl, allowReconfig).enclave.config)
    ensures var c := Run(env, initial, events, ttl, allowReconfig).enclave.config;
            var u := Run(env, initial, events + [HostRestart, ReadKeys] + [Deliver(KeysResponse(c))], ttl,
                         allowReconfig);
            u.host == u.enclave.config == c
  {
    var restarted, read := events + [HostRestart], events + [HostRestart, ReadKeys];
    RunStep(env, initial, events, HostRestart, ttl, allowReconfig);
    assert read == restarted + [ReadKeys] && read[..|restarted|] == restarted;
    RunStep(env, initial, restarted, ReadKeys, ttl, allowReconfig);
    HostRecovers(env, initial, read, ttl, allowReconfig, |restarted|);
  }

  /** The host's config field and the three places that assign it. */
  class HostConfig {
    var config: EnclaveConfig

    constructor ()
      ensures config == ZERO
    {
      config := ZERO;
    }

    method OnSetConfigResponse(c: EnclaveConfig)
      modifies this
      ensures config == Adopt(old(config), SetResponse(c))
    {
      config := c;
    }

    method OnUpdateConfigResponse(applied: bool, c: EnclaveConfig)
      modifies this
      ensures config == Adopt(old(config), UpdateResponse(applied, c))
    {
      if applied {
        config := c;
      }
    }

    /** `maybeRecoverConfig`; false means the response's config is incomplete. */
    method MaybeRecoverConfig(c: EnclaveConfig) returns (ok: bool)
      modifies this
      ensures config == Adopt(old(config), KeysResponse(c))
      ensures !ok <==> IsZero(old(config)) && (c.T == 0 || c.signers == [] || c.masterPublicKey == [])
    {
      if !IsZero(config) {
        return true;
      }
      if c.T == 0 || |c.signers| == 0 || |c.masterPublicKey| == 0 {
        return false;
      }
      config := c;
      return true;
    }
  }
}
