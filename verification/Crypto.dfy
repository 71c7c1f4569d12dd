/**
 Cryptography as the protocol uses it. The fingerprint of a signer's key is a free constructor
 applied to the key, so different keys have different fingerprints; everywhere else SHA-256 is a
 function parameter. `ed25519.Verify` is a parameter of every member that checks signatures, so
 nothing here depends on what it accepts.
 */
module Crypto {
  import opened Bytes

  datatype Digest = Sha256(preimage: Bytes)

  /** `ed25519.Verify(publicKey, message, signature)`. */
  type Ed25519 = (Bytes, Bytes, Bytes) -> bool

  const SIGNATURE_SIZE := 64

  /** The first allowed signer whose key verifies the signature, as `VerifySignature` returns it. */
  function VerifySignature(ed25519: Ed25519, message: Bytes, signature: Bytes, allowed: seq<Bytes>): (r: Option<Bytes>)
    ensures r.Some? ==> r.value in allowed && ed25519(r.value, message, signature)
  {
    if |signature| != SIGNATURE_SIZE || allowed == [] then None
    else if ed25519(allowed[0], message, signature) then Some(allowed[0])
    else VerifySignature(ed25519, message, signature, allowed[1..])
  }

  /** A signer is found exactly when the signature has its length and some allowed key verifies it. */
  lemma {:induction false} SignerFoundIff(ed25519: Ed25519, message: Bytes, signature: Bytes, allowed: seq<Bytes>)
    ensures VerifySignature(ed25519, message, signature, allowed).Some? <==>
            |signature| == SIGNATURE_SIZE && exists k :: k in allowed && ed25519(k, message, signature)
  {
    if allowed != [] && !ed25519(allowed[0], message, signature) {
      SignerFoundIff(ed25519, message, signature, allowed[1..]);
      assert allowed == [allowed[0]] + allowed[1..];
    }
  }

  /** And it is the first such key. */
  lemma {:induction false} SignerIsFirst(ed25519: Ed25519, message: Bytes, signature: Bytes, allowed: seq<Bytes>)
    returns (i: nat)
    requires VerifySignature(ed25519, message, signature, allowed).Some?
    ensures i < |allowed| && VerifySignature(ed25519, message, signature, allowed) == Some(allowed[i])
    ensures forall j :: 0 <= j < i ==> !ed25519(allowed[j], message, signature)
  {
    if ed25519(allowed[0], message, signature) {
      i := 0;
    } else {
      var k := SignerIsFirst(ed25519, message, signature, allowed[1..]);
      i := k + 1;
      assert forall j :: 1 <= j < i ==> allowed[j] == allowed[1..][j - 1];
    }
  }

  /** The keys behind a set of fingerprints are as many as the fingerprints. */
  lemma {:induction false} KeysOf(ds: set<Digest>) returns (keys: set<Bytes>)
    ensures |keys| == |ds|
    ensures forall k :: k in keys <==> Sha256(k) in ds
  {
    if ds == {} {
      keys := {};
    } else {
      var d :| d in ds;
      var rest := KeysOf(ds - {d});
      keys := rest + {d.preimage};
      assert Sha256(d.preimage) == d;
    }
  }
}
