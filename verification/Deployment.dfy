/**
 A concrete deployment for the runs that show what can go wrong. Its hash is the last eight bytes of
 its input, and a signature is by the key whose first byte it starts with.
 */
module ExampleDeployment {
  import opened Bytes
  import opened Crypto
  import opened Encoding
  import opened Preimages
  import opened Protocol

  function Repeated(b: byte, n: nat): (r: Bytes)
    ensures |r| == n && forall i :: 0 <= i < n ==> r[i] == b
  {
    if n == 0 then [] else Repeated(b, n - 1) + [b]
  }

  function LastEight(b: Bytes): Hash32 {
    if |b| < 8 then Repeated(0, 32) else b[|b| - 8..] + Repeated(0, 24)
  }

  predicate ByFirstByte(key: Bytes, message: Bytes, signature: Bytes) {
    |key| > 0 && |signature| > 0 && signature[0] == key[0]
  }

  function Example(): Env {
    Deployed(LastEight, ByFirstByte)
  }

  function SignatureBy(b: byte): Bytes {
    Repeated(b, SIGNATURE_SIZE)
  }

  /** A public key of the length Ed25519 has. */
  function Key(b: byte): Bytes {
    Repeated(b, 32)
  }

  /** A config of two signers. */
  function TwoSigners(x: byte, y: byte, t: uint32, f: uint32): EnclaveConfig {
    EnclaveConfig([Key(x), Key(y)], Repeated(9, 32), t, f)
  }

  lemma LastEightOf(a: Bytes, b: Bytes)
    requires |b| == 8
    ensures LastEight(a + b) == b + Repeated(0, 24)
  {
    assert (a + b)[|a + b| - 8..] == b;
  }

  /** The hash of a config is its `T` and `F`, padded. */
  lemma ConfigHashIs(c: EnclaveConfig)
    ensures Example().configHash(c) == BigEndian(c.T, 4) + BigEndian(c.F, 4) + Repeated(0, 24)
  {
    var tail := BigEndian(c.T, 4) + BigEndian(c.F, 4);
    var list, key := EncodeList(EncodeBytes, c.signers), EncodeBytes(c.masterPublicKey);
    assert Encode(ConfigFields(c)) == Tag(ENCLAVE_CONFIG) + (list + (key + tail));
    Flatten3(Tag(ENCLAVE_CONFIG) + list, key, tail);
    Flatten3(Tag(ENCLAVE_CONFIG), list, key + tail);
    LastEightOf(Tag(ENCLAVE_CONFIG) + list + key, tail);
  }

  /** So configs with different thresholds have different hashes. */
  lemma ThresholdsTellApart(a: EnclaveConfig, b: EnclaveConfig)
    requires a.T != b.T
    ensures Example().configHash(a) != Example().configHash(b)
  {
    ConfigHashIs(a);
    ConfigHashIs(b);
    WordSizes();
    BigEndianRoundTrip(a.T, 4);
    BigEndianRoundTrip(b.T, 4);
    assert (BigEndian(a.T, 4) + BigEndian(a.F, 4) + Repeated(0, 24))[..4] == BigEndian(a.T, 4);
    assert (BigEndian(b.T, 4) + BigEndian(b.F, 4) + Repeated(0, 24))[..4] == BigEndian(b.T, 4);
  }

  lemma KeysDiffer(x: byte, y: byte)
    requires x != y
    ensures Key(x) != Key(y)
  {
    assert Key(x)[0] != Key(y)[0];
  }

  /** Of two keys, the one whose byte the signature starts with is found. */
  lemma FirstOfTwo(message: Bytes, x: byte, y: byte)
    requires x != y
    ensures VerifySignature(ByFirstByte, message, SignatureBy(x), [Key(x), Key(y)]) == Some(Key(x))
    ensures VerifySignature(ByFirstByte, message, SignatureBy(y), [Key(x), Key(y)]) == Some(Key(y))
  {
    assert [Key(x), Key(y)][1..] == [Key(y)];
    assert VerifySignature(ByFirstByte, message, SignatureBy(y), [Key(y)]) == Some(Key(y));
  }

  predicate EndsIn(s: Bytes, tail: Bytes) {
    |tail| <= |s| && s[|s| - |tail|..] == tail
  }

  lemma StillEndsIn(front: Bytes, s: Bytes, tail: Bytes)
    requires EndsIn(s, tail)
    ensures EndsIn(front + s, tail)
  {
    assert (front + s)[|front + s| - |tail|..] == s[|s| - |tail|..];
  }

  const APP := Ascii("confidential-http")
  const VERSION := Ascii("0.0.7")

  /** Requests that differ in their application request ID. */
  function NumberedRequest(i: nat): ComputeRequest {
    ComputeRequest(Repeated(0, 32), BigEndian(i, 8), [], [], [], [], Repeated(5, 32), [], APP, VERSION)
  }

  lemma NumberedIsExecutable(i: nat)
    ensures Executable(NumberedRequest(i)) && NumberedRequest(i).version != LEGACY_VERSION
  {
    assert |APP| > 0 && |VERSION| > 0 && VERSION[4] != LEGACY_VERSION[4];
  }

  lemma NumberedEnds(i: nat)
    ensures EndsIn(Encode(ComputeFields(NumberedRequest(i))), BigEndian(i, 8))
  {
    var r := NumberedRequest(i);
    var tail, empty, none := BigEndian(i, 8), EncodeBytes([]), EncodeList(EncodeBytes, []);
    var s0 := EncodeBytes(tail);
    var s1 := EncodeBytes(APP) + s0;
    var s2 := empty + s1;
    var s3 := EncodeBytes(r.ephemeralKey) + s2;
    var s4 := none + s3;
    var s5 := none + s4;
    var s6 := empty + s5;
    var s7 := r.requestID + s6;
    StillEndsIn(BigEndian(8, 8), tail, tail);
    StillEndsIn(EncodeBytes(APP), s0, tail);
    StillEndsIn(empty, s1, tail);
    StillEndsIn(EncodeBytes(r.ephemeralKey), s2, tail);
    StillEndsIn(none, s3, tail);
    StillEndsIn(none, s4, tail);
    StillEndsIn(empty, s5, tail);
    StillEndsIn(r.requestID, s6, tail);
    StillEndsIn(Tag(COMPUTE_REQUEST), s7, tail);
    assert LastField(r) == tail by { NumberedIsExecutable(i); }
    assert EncodeBody(ComputeFields(r)) == s7;
  }

  lemma HashOfEnd(s: Bytes, tail: Bytes)
    requires EndsIn(s, tail) && |tail| == 8
    ensures LastEight(s)[..8] == tail
  {
  }

  lemma NumberedHashIs(i: nat)
    ensures Example().requestHash(NumberedRequest(i)) == LastEight(Encode(ComputeFields(NumberedRequest(i))))
  {
  }

  lemma WordsDiffer(i: nat, j: nat)
    requires i != j && i < TWO_64 && j < TWO_64
    ensures BigEndian(i, 8) != BigEndian(j, 8)
  {
    WordSizes();
    BigEndianRoundTrip(i, 8);
    BigEndianRoundTrip(j, 8);
  }

  /** Their hashes differ, up to the number of 64-bit integers. */
  lemma NumbersTellApart(i: nat, j: nat)
    requires i != j && i < TWO_64 && j < TWO_64
    ensures Example().requestHash(NumberedRequest(i)) != Example().requestHash(NumberedRequest(j))
  {
    var a, b := Encode(ComputeFields(NumberedRequest(i))), Encode(ComputeFields(NumberedRequest(j)));
    assert LastEight(a) != LastEight(b) by {
      assert EndsIn(a, BigEndian(i, 8)) && EndsIn(b, BigEndian(j, 8)) by {
        NumberedEnds(i);
        NumberedEnds(j);
      }
      HashOfEnd(a, BigEndian(i, 8));
      HashOfEnd(b, BigEndian(j, 8));
      WordsDiffer(i, j);
    }
    NumberedHashIs(i);
    NumberedHashIs(j);
  }
}
