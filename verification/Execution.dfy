/** What stands behind an output: in every joint run, whatever is answered was admitted, executed and recorded. */
module Execution {
  import opened Bytes
  import opened Crypto
  import opened Encoding
  import opened Preimages
  import opened Protocol
  import opened CacheModel
  import opened HostModel
  import opened System
  import opened Composition

  /** Act `k` checked the batch of dispatch `d`, and it was admissible under the config of that moment. */
  ghost predicate AdmittedAt<B, C>(p: Params, start: System<B, C>, acts: seq<Act<B, C>>, f: uint32, d: nat, k: nat) {
    && k < |acts| && acts[k] == Check(d) && Feasible(p, start, acts[..k], f)
    && var s := Reached(p, start, acts[..k], f);
       d < |s.host.dispatches| && Admissible(p.env, s.host.dispatches[d].requests, s.config)
  }

  ghost predicate Admitted<B, C>(p: Params, start: System<B, C>, acts: seq<Act<B, C>>, f: uint32, d: nat) {
    exists k: nat :: AdmittedAt(p, start, acts, f, d, k)
  }

  /** What a handler that has got so far has behind it. */
  ghost predicate Behind<B, C>(p: Params, start: System<B, C>, acts: seq<Act<B, C>>, f: uint32, d: nat, phase: Phase) {
    match phase
    case Received => true
    case Verified => Admitted(p, start, acts, f, d)
    case Unclaimed => Admitted(p, start, acts, f, d)
    case Claimed => Admitted(p, start, acts, f, d)
    case Cleared => Admitted(p, start, acts, f, d)
    case Ran(ok) => Admitted(p, start, acts, f, d) && Act<B, C>.Run(d, ok) in acts
    case Recorded => Admitted(p, start, acts, f, d) && Act<B, C>.Run(d, true) in acts && Act<B, C>.Record(d) in acts
    case Replied(answer, _) =>
      answer.Executed? ==>
        Admitted(p, start, acts, f, d) && Act<B, C>.Run(d, true) in acts && Act<B, C>.Record(d) in acts
  }

  lemma StaysAdmitted<B, C>(p: Params, start: System<B, C>, acts: seq<Act<B, C>>, f: uint32, d: nat)
    requires acts != [] && Admitted(p, start, acts[..|acts| - 1], f, d)
    ensures Admitted(p, start, acts, f, d)
  {
    var before := acts[..|acts| - 1];
    var k: nat :| AdmittedAt(p, start, before, f, d, k);
    assert before[..k] == acts[..k];
    assert AdmittedAt(p, start, acts, f, d, k);
  }

  lemma StaysBehind<B, C>(p: Params, start: System<B, C>, acts: seq<Act<B, C>>, f: uint32, d: nat, phase: Phase)
    requires acts != [] && Behind(p, start, acts[..|acts| - 1], f, d, phase)
    ensures Behind(p, start, acts, f, d, phase)
  {
    if Admitted(p, start, acts[..|acts| - 1], f, d) {
      StaysAdmitted(p, start, acts, f, d);
    }
  }

  /** The handler an act is about. */
  function Concerns<B, C>(a: Act<B, C>): Option<nat> {
    match a
    case Check(d) => Some(d)
    case Probe(d) => Some(d)
    case Mark(d) => Some(d)
    case ProbeExecuted(d) => Some(d)
    case Reject(d) => Some(d)
    case Run(d, _) => Some(d)
    case Record(d) => Some(d)
    case Reply(d, _) => Some(d)
    case Unmark(d) => Some(d)
    case _ => None
  }

  lemma {:induction false} ExtendedAt(handlers: seq<Phase>, n: nat, d: nat)
    requires d < |Extend(handlers, n)|
    ensures Extend(handlers, n)[d] == if d < |handlers| then handlers[d] else Received
    decreases n - |handlers|
  {
    if |handlers| < n {
      ExtendedAt(handlers + [Received], n, d);
    }
  }

  /** An act moves at most the handler it is about; a new handler has received its batch. */
  lemma OthersStay<B, C>(p: Params, s: System<B, C>, a: Act<B, C>, f: uint32, d: nat)
    requires |s.handlers| == |s.host.dispatches| && MayAct(s, a, f)
    requires Concerns(a) != Some(d) && d < |Do(p, s, a, f).handlers|
    ensures Do(p, s, a, f).handlers[d] == if d < |s.handlers| then s.handlers[d] else Received
  {
    if a.OnHost? {
      ExtendedAt(s.handlers, |Next(p.env, s.host, a.e, p.bft, p.pendingTtl).dispatches|, d);
    }
  }

  /** The act about a handler: what it moves on to is backed by what it had and this act. */
  lemma MovesOn<B, C>(p: Params, start: System<B, C>, acts: seq<Act<B, C>>, f: uint32, d: nat)
    requires acts != [] && Feasible(p, start, acts, f)
    requires var before, a := acts[..|acts| - 1], acts[|acts| - 1];
             var s := Reached(p, start, before, f);
             Concerns(a) == Some(d) && d < |s.handlers| && Behind(p, start, before, f, d, s.handlers[d])
    ensures var u := Reached(p, start, acts, f); d < |u.handlers| && Behind(p, start, acts, f, d, u.handlers[d])
  {
    var before, a := acts[..|acts| - 1], acts[|acts| - 1];
    var s := Reached(p, start, before, f);
    PhaseMoves(p, s, a, f, d);
    StaysBehind(p, start, acts, f, d, s.handlers[d]);
    if a.Check? && Admissible(p.env, s.host.dispatches[d].requests, s.config) {
      assert AdmittedAt(p, start, acts, f, d, |before|);
    }
    var phase := Reached(p, start, acts, f).handlers[d];
    assert a in acts;
    MovedIsBehind(p, start, acts, f, d, s.handlers[d], a, phase,
                  Admissible(p.env, s.host.dispatches[d].requests, s.config));
  }

  /** By which act, and from where, a handler gets to each phase. */
  predicate CameFrom<B, C>(was: Phase, a: Act<B, C>, d: nat, phase: Phase, admissible: bool) {
    match phase
    case Received => false
    case Verified => a == Check(d) && admissible
    case Unclaimed => was.Verified?
    case Claimed => was.Unclaimed?
    case Cleared => was.Claimed?
    case Ran(ok) => was.Cleared? && a == Act<B, C>.Run(d, ok)
    case Recorded => was == Ran(true) && a == Act<B, C>.Record(d)
    case Replied(answer, _) => answer.Executed? ==> was.Recorded? || (was.Replied? && was.answer == answer)
  }

  lemma PhaseMoves<B, C>(p: Params, s: System<B, C>, a: Act<B, C>, f: uint32, d: nat)
    requires |s.handlers| == |s.host.dispatches| && MayAct(s, a, f) && Concerns(a) == Some(d) && d < |s.handlers|
    ensures var u := Do(p, s, a, f);
            && d < |u.handlers|
            && CameFrom(s.handlers[d], a, d, u.handlers[d], Admissible(p.env, s.host.dispatches[d].requests, s.config))
  {
  }

  lemma MovedIsBehind<B, C>(p: Params, start: System<B, C>, acts: seq<Act<B, C>>, f: uint32, d: nat, was: Phase,
                            a: Act<B, C>, phase: Phase, admissible: bool)
    requires Behind(p, start, acts, f, d, was) && a in acts && CameFrom(was, a, d, phase, admissible)
    requires a == Check(d) && admissible ==> Admitted(p, start, acts, f, d)
    ensures Behind(p, start, acts, f, d, phase)
  {
  }

  lemma {:induction false} HandlersAreBacked<B, C>(p: Params, config: EnclaveConfig, now: int, acts: seq<Act<B, C>>,
                                                   f: uint32, d: nat)
    requires Feasible(p, Start<B, C>(config, now), acts, f)
    requires d < |Reached(p, Start<B, C>(config, now), acts, f).handlers|
    ensures Behind(p, Start<B, C>(config, now), acts, f, d, Reached(p, Start<B, C>(config, now), acts, f).handlers[d])
  {
    if acts != [] {
      var start := Start<B, C>(config, now);
      var before, a := acts[..|acts| - 1], acts[|acts| - 1];
      var s := Reached(p, start, before, f);
      if d < |s.handlers| {
        HandlersAreBacked(p, config, now, before, f, d);
      }
      if Concerns(a) == Some(d) {
        MovesOn(p, start, acts, f, d);
      } else {
        OthersStay(p, s, a, f, d);
        if d < |s.handlers| {
          StaysBehind(p, start, acts, f, d, s.handlers[d]);
        }
      }
    }
  }

  /**
   In every joint run, whenever the application is called for a dispatch, the enclave has found its
   batch admissible under the config in force at that moment.
   */
  lemma CalledWasAdmitted<B, C>(p: Params, config: EnclaveConfig, now: int, acts: seq<Act<B, C>>, f: uint32, d: nat,
                                ok: bool)
    requires Feasible(p, Start<B, C>(config, now), acts, f)
    requires MayAct(Reached(p, Start<B, C>(config, now), acts, f), Act<B, C>.Run(d, ok), f)
    ensures Admitted(p, Start<B, C>(config, now), acts, f, d)
  {
    HandlersAreBacked(p, config, now, acts, f, d);
  }

  /**
   In every joint run, when the host completes a dispatch with an output, the enclave had admitted its
   batch, the application had been called for it with success, and the execution had been recorded.
   */
  lemma OutputWasExecuted<B, C>(p: Params, config: EnclaveConfig, now: int, acts: seq<Act<B, C>>, f: uint32,
                                e: Event<B, C>)
    requires Feasible(p, Start<B, C>(config, now), acts, f) && e.Completion? && e.answer.Executed?
    requires MayAct(Reached(p, Start<B, C>(config, now), acts, f), Act<B, C>.OnHost(e), f)
    ensures Admitted(p, Start<B, C>(config, now), acts, f, e.d)
    ensures Act<B, C>.Run(e.d, true) in acts && Act<B, C>.Record(e.d) in acts
  {
    HandlersAreBacked(p, config, now, acts, f, e.d);
  }

  // --- when the application comes to be called ---------------------------------------------------

  /** The handler goes on, alone, with the acts up to the call, until it is cleared for it or has replied. */
  function Prepared<B, C>(p: Params, s: System<B, C>, f: uint32, d: nat): System<B, C>
    requires |s.handlers| == |s.host.dispatches| && InPhase(s, d, Received)
  {
    var s1 := Do(p, s, Check(d), f);
    if !InPhase(s1, d, Verified) then s1
    else
      var s2 := Do(p, s1, Probe(d), f);
      if !InPhase(s2, d, Unclaimed) then s2 else Do(p, Do(p, s2, Mark(d), f), ProbeExecuted(d), f)
  }

  /**
   With nothing in between, a handler is cleared to call the application if and only if its batch is
   admissible and its hash has neither a live mark nor a live record. Otherwise it has replied with a
   failure; it leaves a mark to remove only if a record stopped it.
   */
  lemma ClearedIff<B, C>(p: Params, s: System<B, C>, f: uint32, d: nat)
    requires |s.handlers| == |s.host.dispatches| && InPhase(s, d, Received)
    ensures var u := Prepared(p, s, f, d);
            var hash := s.host.dispatches[d].hash;
            var admissible := Admissible(p.env, s.host.dispatches[d].requests, s.config);
            var marked := Stored(s.inProgress, hash, (), p.replayTtl, s.now, p.replayMax);
            && u.executed == s.executed && u.host == s.host && d < |u.handlers|
            && if !admissible || Lookup(s.inProgress, hash, s.now).Some?
               then u.handlers[d] == Replied(EnclaveFailed, false) && u.inProgress == s.inProgress
               else
                 && u.inProgress == marked
                 && u.handlers[d] == if Lookup(s.executed, hash, s.now).Some? then Replied(EnclaveFailed, true)
                                     else Cleared
  {
  }

  /** A mark is there from the claim on for its lifetime, and gone when it is removed. */
  lemma MarkComesAndGoes<B, C>(p: Params, s: System<B, C>, f: uint32, d: nat, t: int)
    requires |s.handlers| == |s.host.dispatches| && d < |s.handlers| && WellFormed(s.inProgress, p.replayMax)
    ensures var hash := s.host.dispatches[d].hash;
            && (InPhase(s, d, Unclaimed) && t <= s.now + p.replayTtl ==>
                  Lookup(Do(p, s, Mark(d), f).inProgress, hash, t) == Some(()))
            && (MayAct(s, Act<B, C>.Unmark(d), f) ==>
                  hash !in Do(p, s, Unmark(d), f).inProgress.items && Do(p, s, Unmark(d), f).handlers[d] ==
                  Replied(s.handlers[d].answer, false))
  {
    StoredWellFormed(s.inProgress, s.host.dispatches[d].hash, (), p.replayTtl, s.now, p.replayMax);
  }
}
