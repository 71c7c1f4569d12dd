/**
 What host and enclave share: the hash and signature functions they call, the signed
 requests they exchange, and the batch check of the enclave.
 */
module Protocol {
  import opened Bytes
  import opened Crypto
  import opened Encoding
  import opened Preimages
  import opened Payload

  datatype SignedRequest = SignedRequest(request: ComputeRequest, signature: Bytes)

  /** The functions the protocol calls without looking inside; `Deployed` gives the ones it is built with. */
  datatype Env = Env(
    ed25519: Ed25519,
    configHash: EnclaveConfig -> Bytes,
    requestHash: ComputeRequest -> Bytes,
    votePayload: Bytes -> Bytes,
    requestPayload: Bytes -> Bytes)

  function Deployed(sha: Sha, ed25519: Ed25519): Env {
    Env(ed25519,
        c => sha(Encode(ConfigFields(c))),
        r => sha(Encode(ComputeFields(r))),
        h => SignedPayload(sha, CONFIG_UPDATE_PREFIX, h),
        h => SignedPayload(sha, COMPUTE_PREFIX, h))
  }

  function HashOf(env: Env, r: SignedRequest): Bytes {
    env.requestHash(r.request)
  }

  /** The signer of a request among the allowed keys. */
  function RequestSigner(env: Env, r: SignedRequest, allowed: seq<Bytes>): Option<Bytes> {
    VerifySignature(env.ed25519, env.requestPayload(HashOf(env, r)), r.signature, allowed)
  }

  /** The signer of a vote for a config among the allowed keys. */
  function VoteSigner(env: Env, c: EnclaveConfig, signature: Bytes, allowed: seq<Bytes>): Option<Bytes> {
    VerifySignature(env.ed25519, env.votePayload(env.configHash(c)), signature, allowed)
  }

  // --- the enclave's batch check ---------------------------------------------------

  predicate RequestOk(env: Env, r: SignedRequest, hash: Bytes, allowed: seq<Bytes>) {
    HashOf(env, r) == hash && RequestSigner(env, r, allowed).Some?
  }

  /** The fingerprints of the signers of a batch. */
  function Fingerprints(env: Env, reqs: seq<SignedRequest>, allowed: seq<Bytes>): set<Digest> {
    if reqs == [] then {}
    else
      var signer := RequestSigner(env, reqs[|reqs| - 1], allowed);
      Fingerprints(env, reqs[..|reqs| - 1], allowed) + if signer.Some? then {Sha256(signer.value)} else {}
  }

  /** The batch passes: one hash, every signature by an allowed signer, more than `F` of them different. */
  predicate Admissible(env: Env, reqs: seq<SignedRequest>, config: EnclaveConfig) {
    && reqs != []
    && (forall i :: 0 <= i < |reqs| ==> RequestOk(env, reqs[i], HashOf(env, reqs[0]), config.signers))
    && |Fingerprints(env, reqs, config.signers)| >= config.F + 1
  }

  datatype Verdict =
    | EmptyBatch | HashMismatch(index: nat) | BadSignature(index: nat) | NoQuorum(signers: nat) | Admitted(hash: Bytes)

  /** The checks `handleExecute` makes before it looks at its request records. */
  method CheckBatch(env: Env, reqs: seq<SignedRequest>, config: EnclaveConfig) returns (v: Verdict)
    ensures v.EmptyBatch? <==> reqs == []
    ensures v.HashMismatch? || v.BadSignature? ==> v.index < |reqs| && FirstBad(env, reqs, config.signers, v.index)
    ensures v.HashMismatch? ==> HashOf(env, reqs[v.index]) != HashOf(env, reqs[0])
    ensures v.NoQuorum? ==> v.signers == |Fingerprints(env, reqs, config.signers)|
    ensures v.Admitted? <==> Admissible(env, reqs, config)
    ensures v.Admitted? ==> v.hash == HashOf(env, reqs[0])
  {
    if |reqs| == 0 {
      return EmptyBatch;
    }
    var bad, signerSet := CheckSignatures(env, reqs, config.signers);
    if bad.Some? {
      return if HashOf(env, reqs[bad.value]) != HashOf(env, reqs[0]) then HashMismatch(bad.value)
        else BadSignature(bad.value);
    }
    if |signerSet| < config.F + 1 {
      return NoQuorum(|signerSet|);
    }
    return Admitted(HashOf(env, reqs[0]));
  }

  /** Request `i` is the first one with another hash or without a valid signature. */
  predicate FirstBad(env: Env, reqs: seq<SignedRequest>, allowed: seq<Bytes>, i: nat)
    requires i < |reqs|
  {
    && !RequestOk(env, reqs[i], HashOf(env, reqs[0]), allowed)
    && forall j :: 0 <= j < i ==> RequestOk(env, reqs[j], HashOf(env, reqs[0]), allowed)
  }

  lemma FingerprintsStep(env: Env, reqs: seq<SignedRequest>, allowed: seq<Bytes>, i: nat)
    requires i < |reqs| && RequestSigner(env, reqs[i], allowed).Some?
    ensures Fingerprints(env, reqs[..i + 1], allowed)
         == Fingerprints(env, reqs[..i], allowed) + {Sha256(RequestSigner(env, reqs[i], allowed).value)}
  {
    assert reqs[..i + 1][..i] == reqs[..i];
  }

  method CheckSignatures(env: Env, reqs: seq<SignedRequest>, allowed: seq<Bytes>)
    returns (bad: Option<nat>, signerSet: set<Digest>)
    requires reqs != []
    ensures bad.Some? ==> bad.value < |reqs| && FirstBad(env, reqs, allowed, bad.value)
    ensures bad.None? ==> forall i :: 0 <= i < |reqs| ==> RequestOk(env, reqs[i], HashOf(env, reqs[0]), allowed)
    ensures bad.None? ==> signerSet == Fingerprints(env, reqs, allowed)
  {
    signerSet := {};
    var hash := HashOf(env, reqs[0]);
    var i := 0;
    while i < |reqs|
      invariant 0 <= i <= |reqs|
      invariant forall j :: 0 <= j < i ==> RequestOk(env, reqs[j], hash, allowed)
      invariant signerSet == Fingerprints(env, reqs[..i], allowed)
    {
      if HashOf(env, reqs[i]) != hash {
        return Some(i), signerSet;
      }
      var signer := RequestSigner(env, reqs[i], allowed);
      if signer.None? {
        return Some(i), signerSet;
      }
      FingerprintsStep(env, reqs, allowed, i);
      signerSet := signerSet + {Sha256(signer.value)};
      i := i + 1;
    }
    assert reqs[..i] == reqs;
    bad := None;
  }

  function Digests(keys: seq<Bytes>): set<Digest> {
    if keys == [] then {} else Digests(keys[..|keys| - 1]) + {Sha256(keys[|keys| - 1])}
  }

  lemma {:induction false} DigestsCount(keys: seq<Bytes>)
    requires NoDup(keys)
    ensures |Digests(keys)| == |keys|
    ensures forall d :: d in Digests(keys) ==> d.preimage in keys
  {
    if keys != [] {
      var n := |keys| - 1;
      DigestsCount(keys[..n]);
      assert keys[n] !in keys[..n];
    }
  }

  lemma {:induction false} FingerprintsAre(env: Env, reqs: seq<SignedRequest>, signers: seq<Bytes>, allowed: seq<Bytes>)
    requires |reqs| == |signers|
    requires forall i :: 0 <= i < |reqs| ==> RequestSigner(env, reqs[i], allowed) == Some(signers[i])
    ensures Fingerprints(env, reqs, allowed) == Digests(signers)
  {
    if reqs != [] {
      FingerprintsAre(env, reqs[..|reqs| - 1], signers[..|reqs| - 1], allowed);
    }
  }

  /** Requests by different signers have as many fingerprints. */
  lemma FingerprintCount(env: Env, reqs: seq<SignedRequest>, signers: seq<Bytes>, allowed: seq<Bytes>)
    requires |reqs| == |signers| && NoDup(signers)
    requires forall i :: 0 <= i < |reqs| ==> RequestSigner(env, reqs[i], allowed) == Some(signers[i])
    ensures |Fingerprints(env, reqs, allowed)| == |reqs|
    ensures forall d :: d in Fingerprints(env, reqs, allowed) ==> d.preimage in signers
  {
    FingerprintsAre(env, reqs, signers, allowed);
    DigestsCount(signers);
  }

  /** Some request of the batch is signed by this key. */
  ghost predicate SignedBy(env: Env, reqs: seq<SignedRequest>, allowed: seq<Bytes>, key: Bytes) {
    exists i :: 0 <= i < |reqs| && RequestSigner(env, reqs[i], allowed) == Some(key)
  }

  lemma {:induction false} FingerprintOf(env: Env, reqs: seq<SignedRequest>, allowed: seq<Bytes>, key: Bytes)
    ensures Sha256(key) in Fingerprints(env, reqs, allowed) <==> SignedBy(env, reqs, allowed, key)
  {
    if reqs != [] {
      var n := |reqs| - 1;
      FingerprintOf(env, reqs[..n], allowed, key);
      if SignedBy(env, reqs[..n], allowed, key) {
        var i :| 0 <= i < n && RequestSigner(env, reqs[..n][i], allowed) == Some(key);
        assert RequestSigner(env, reqs[i], allowed) == Some(key);
      }
      if SignedBy(env, reqs, allowed, key) {
        var i :| 0 <= i < |reqs| && RequestSigner(env, reqs[i], allowed) == Some(key);
        assert i < n ==> reqs[..n][i] == reqs[i];
      }
    }
  }

  /** The signers of a batch: there are as many as fingerprints. */
  lemma SignersOfBatch(env: Env, reqs: seq<SignedRequest>, allowed: seq<Bytes>) returns (keys: set<Bytes>)
    ensures forall k :: k in keys <==> SignedBy(env, reqs, allowed, k)
    ensures |keys| == |Fingerprints(env, reqs, allowed)|
  {
    keys := KeysOf(Fingerprints(env, reqs, allowed));
    forall k ensures k in keys <==> SignedBy(env, reqs, allowed, k) {
      FingerprintOf(env, reqs, allowed, k);
    }
  }

  /**
   A batch is admissible if and only if it is not empty, all its requests have the hash of the first,
   each is signed by an allowed key, and these keys are more than `F` different ones.
   */
  lemma AdmissibleIff(env: Env, reqs: seq<SignedRequest>, config: EnclaveConfig) returns (keys: set<Bytes>)
    ensures forall k :: k in keys <==> SignedBy(env, reqs, config.signers, k)
    ensures Admissible(env, reqs, config) <==>
            && reqs != [] && |keys| > config.F
            && (forall i :: 0 <= i < |reqs| ==> env.requestHash(reqs[i].request) == env.requestHash(reqs[0].request))
            && (forall i :: 0 <= i < |reqs| ==> RequestSigner(env, reqs[i], config.signers).Some?)
  {
    keys := SignersOfBatch(env, reqs, config.signers);
  }

  /** With at most `F` faulty signers, an admissible batch has a request that an honest signer signed. */
  lemma HonestSignerAsked(env: Env, reqs: seq<SignedRequest>, config: EnclaveConfig, faulty: set<Bytes>)
    returns (i: nat)
    requires Admissible(env, reqs, config) && |set k | k in config.signers && k in faulty| <= config.F
    ensures i < |reqs| && RequestSigner(env, reqs[i], config.signers).Some?
    ensures RequestSigner(env, reqs[i], config.signers).value !in faulty
  {
    var keys := AdmissibleIff(env, reqs, config);
    var bad := set k | k in config.signers && k in faulty;
    if keys <= bad {
      SubsetCardinality(keys, bad);
    }
    var key :| key in keys && key !in bad;
    i :| 0 <= i < |reqs| && RequestSigner(env, reqs[i], config.signers) == Some(key);
  }

  // --- thresholds ---------------------------------------------------------------------

  /** `quorumThreshold`: the arithmetic is that of `uint32`. */
  function QuorumThreshold(f: uint32, bft: bool): (t: nat) {
    if bft then (2 * f + 1) % TWO_32 else (f + 1) % TWO_32
  }

  /** The threshold asks for more than `f` signers exactly when its computation does not wrap around. */
  lemma ThresholdExceedsFaults(f: uint32, bft: bool)
    ensures QuorumThreshold(f, bft) >= f + 1 <==> (if bft then f < TWO_32 / 2 else f < TWO_32 - 1)
    ensures QuorumThreshold(f, bft) >= f + 1 ==> QuorumThreshold(f, bft) == if bft then 2 * f + 1 else f + 1
  {
    if bft {
      if f >= TWO_32 / 2 {
        assert (2 * f + 1) % TWO_32 == 2 * f + 1 - TWO_32;
      }
    }
  }
}
