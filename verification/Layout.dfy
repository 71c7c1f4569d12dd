/** Where each field stands in the bytes that are hashed or signed. */
module Layout {
  import opened Bytes
  import opened Encoding
  import opened Preimages
  import opened Payload
  import opened Crypto
  import opened Protocol

  // --- parts one after the other --------------------------------------------------------------

  function Joined(parts: seq<Bytes>): Bytes {
    if parts == [] then [] else parts[0] + Joined(parts[1..])
  }

  /** Where part `i` starts: after the lengths of the parts before it. */
  function Offset(parts: seq<Bytes>, i: nat): nat
    requires i <= |parts|
  {
    if i == 0 then 0 else Offset(parts, i - 1) + |parts[i - 1]|
  }

  predicate StandsAt(s: Bytes, at: nat, part: Bytes) {
    at + |part| <= |s| && s[at..at + |part|] == part
  }

  lemma {:induction false} OffsetStep(parts: seq<Bytes>, i: nat)
    requires 0 < i <= |parts|
    ensures Offset(parts, i) == |parts[0]| + Offset(parts[1..], i - 1)
  {
    if i > 1 {
      OffsetStep(parts, i - 1);
    }
  }

  /** Every part stands at its offset, and the whole ends with the last one. */
  lemma {:induction false} PartStands(parts: seq<Bytes>, i: nat)
    requires i < |parts|
    ensures StandsAt(Joined(parts), Offset(parts, i), parts[i])
    ensures |Joined(parts)| == Offset(parts, |parts|)
  {
    var rest := parts[1..];
    OffsetStep(parts, |parts|);
    if |parts| > 1 {
      PartStands(rest, if i == 0 then 0 else i - 1);
    }
    if i > 0 {
      OffsetStep(parts, i);
      var at := Offset(rest, i - 1);
      assert Joined(parts)[|parts[0]| + at..|parts[0]| + at + |parts[i]|] == Joined(rest)[at..at + |parts[i]|];
    }
  }

  /** The bytes consist of the parts, each at its offset. */
  ghost predicate LaidOut(s: Bytes, parts: seq<Bytes>) {
    && |s| == Offset(parts, |parts|)
    && forall i :: 0 <= i < |parts| ==> StandsAt(s, Offset(parts, i), parts[i])
  }

  lemma JoinedIsLaidOut(parts: seq<Bytes>)
    ensures LaidOut(Joined(parts), parts)
  {
    forall i | 0 <= i < |parts| ensures StandsAt(Joined(parts), Offset(parts, i), parts[i]) {
      PartStands(parts, i);
    }
    if parts != [] {
      PartStands(parts, 0);
    }
  }

  lemma JoinedMore(part: Bytes, rest: seq<Bytes>)
    ensures Joined([part] + rest) == part + Joined(rest)
  {
    assert ([part] + rest)[1..] == rest;
  }

  lemma JoinedOne(part: Bytes)
    ensures Joined([part]) == part
  {
    assert [part][1..] == [];
  }

  lemma TwoAreLaidOut(a: Bytes, b: Bytes)
    ensures LaidOut(a + b, [a, b])
  {
    JoinedOne(b);
    JoinedMore(a, [b]);
    assert [a] + [b] == [a, b];
    JoinedIsLaidOut([a, b]);
  }

  // --- numbers, strings and lists --------------------------------------------------------------

  /** The most significant byte comes first. */
  lemma {:induction false} BigEndianByte(n: nat, width: nat, i: nat)
    requires i < width
    ensures BigEndian(n, width)[i] == n / Pow256(width - 1 - i) % 256
  {
    if i < width - 1 {
      BigEndianByte(n / 256, width - 1, i);
      DivideTwice(n, 256, Pow256(width - 2 - i));
    }
  }

  lemma DivideTwice(n: nat, a: nat, b: nat)
    requires a > 0 && b > 0
    ensures a * b > 0 && n / a / b == n / (a * b)
  {
    var q, r := n / a, n % a;
    var p, s := q / b, q % b;
    Regroup(n, a, b, q, r, p, s);
    QuotientIs(n, a * b, p, a * s + r);
  }

  lemma Regroup(n: nat, a: nat, b: nat, q: nat, r: nat, p: nat, s: nat)
    requires n == a * q + r && r < a && q == b * p + s && s < b
    ensures n == (a * b) * p + (a * s + r) && 0 <= a * s + r < a * b
  {
    assert a * q == a * (b * p) + a * s;
    assert a * (b * p) == (a * b) * p;
    Scales(a, s, b - 1);
    assert a * (b - 1) == a * b - a;
  }

  lemma Scales(a: nat, s: nat, t: nat)
    requires s <= t
    ensures a * s <= a * t
  {
  }

  lemma QuotientIs(n: nat, d: nat, q: nat, r: nat)
    requires d > 0 && r < d && n == d * q + r
    ensures n / d == q
  {
    var e := n / d - q;
    assert d * e == r - n % d;
    AtLeastOne(d, e);
  }

  lemma AtLeastOne(d: nat, e: int)
    ensures e > 0 ==> d * e >= d
    ensures e < 0 ==> d * e + d <= 0
  {
  }

  /** A string is its length in eight bytes and then itself. */
  lemma StringStands(b: Bytes)
    ensures LaidOut(EncodeBytes(b), [BigEndian(|b|, 8), b])
  {
    TwoAreLaidOut(BigEndian(|b|, 8), b);
  }

  function Encoded<T>(encode: T -> Bytes, xs: seq<T>): (r: seq<Bytes>)
    ensures |r| == |xs| && forall i :: 0 <= i < |xs| ==> r[i] == encode(xs[i])
  {
    if xs == [] then [] else [encode(xs[0])] + Encoded(encode, xs[1..])
  }

  lemma {:induction false} ItemsAreJoined<T>(encode: T -> Bytes, xs: seq<T>)
    ensures EncodeItems(encode, xs) == Joined(Encoded(encode, xs))
  {
    if xs != [] {
      ItemsAreJoined(encode, xs[1..]);
      JoinedMore(encode(xs[0]), Encoded(encode, xs[1..]));
    }
  }

  /** A list is its length in eight bytes and then its items, the first one first. */
  lemma ListStands<T>(encode: T -> Bytes, xs: seq<T>)
    ensures LaidOut(EncodeList(encode, xs), [BigEndian(|xs|, 8)] + Encoded(encode, xs))
  {
    ItemsAreJoined(encode, xs);
    JoinedMore(BigEndian(|xs|, 8), Encoded(encode, xs));
    JoinedIsLaidOut([BigEndian(|xs|, 8)] + Encoded(encode, xs));
  }

  // --- the messages ----------------------------------------------------------------------------

  lemma Join3(a: Bytes, b: Bytes, c: Bytes)
    ensures Joined([a, b, c]) == a + (b + c)
  {
    JoinedOne(c);
    JoinedMore(b, [c]);
    JoinedMore(a, [b, c]);
    assert [b] + [c] == [b, c] && [a] + [b, c] == [a, b, c];
  }

  lemma Join5(a: Bytes, b: Bytes, c: Bytes, d: Bytes, e: Bytes)
    ensures Joined([a, b, c, d, e]) == a + (b + (c + (d + e)))
  {
    Join3(c, d, e);
    JoinedMore(b, [c, d, e]);
    JoinedMore(a, [b, c, d, e]);
    assert [b] + [c, d, e] == [b, c, d, e] && [a] + [b, c, d, e] == [a, b, c, d, e];
  }

  lemma Join7(a: Bytes, b: Bytes, c: Bytes, d: Bytes, e: Bytes, f: Bytes, g: Bytes)
    ensures Joined([a, b, c, d, e, f, g]) == a + (b + (c + (d + (e + (f + g)))))
  {
    Join5(c, d, e, f, g);
    JoinedMore(b, [c, d, e, f, g]);
    JoinedMore(a, [b, c, d, e, f, g]);
    assert [b] + [c, d, e, f, g] == [b, c, d, e, f, g] && [a] + [b, c, d, e, f, g] == [a, b, c, d, e, f, g];
  }

  lemma Join9(a: Bytes, b: Bytes, c: Bytes, d: Bytes, e: Bytes, f: Bytes, g: Bytes, h: Bytes, i: Bytes)
    ensures Joined([a, b, c, d, e, f, g, h, i]) == a + (b + (c + (d + (e + (f + (g + (h + i)))))))
  {
    Join7(c, d, e, f, g, h, i);
    JoinedMore(b, [c, d, e, f, g, h, i]);
    JoinedMore(a, [b, c, d, e, f, g, h, i]);
    assert [b] + [c, d, e, f, g, h, i] == [b, c, d, e, f, g, h, i];
    assert [a] + [b, c, d, e, f, g, h, i] == [a, b, c, d, e, f, g, h, i];
  }

  /** The parts of a compute request's preimage, in the order in which they stand. */
  function RequestParts(r: ComputeRequest): seq<Bytes> {
    [Tag("\nComputeRequest\n"), r.requestID, EncodeBytes(r.publicData), EncodeList(EncodeBytes, r.ciphertextNames),
     EncodeList(EncodeBytes, r.ciphertexts), EncodeBytes(r.ephemeralKey), EncodeBytes(r.masterPublicKey),
     EncodeBytes(r.appID), EncodeBytes(if r.version == LEGACY_VERSION then r.version else r.applicationRequestID)]
  }

  lemma RequestIsLaidOut(sha: Sha, r: ComputeRequest)
    ensures LaidOut(Preimage(sha, Compute(r)), RequestParts(r))
  {
    var p := RequestParts(r);
    Join9(p[0], p[1], p[2], p[3], p[4], p[5], p[6], p[7], p[8]);
    JoinedIsLaidOut(p);
  }

  function ConfigParts(c: EnclaveConfig): seq<Bytes> {
    [Tag("\nEnclaveConfig\n"), EncodeList(EncodeBytes, c.signers), EncodeBytes(c.masterPublicKey), BigEndian(c.T, 4),
     BigEndian(c.F, 4)]
  }

  lemma ConfigIsLaidOut(sha: Sha, c: EnclaveConfig)
    ensures LaidOut(Preimage(sha, Config(c)), ConfigParts(c))
  {
    var p := ConfigParts(c);
    Join5(p[0], p[1], p[2], p[3], p[4]);
    JoinedIsLaidOut(p);
  }

  function KeysParts(sha: Sha, k: PublicKeyResponse): seq<Bytes> {
    [Tag("\nPublicKeyResponse\n"), EncodeList(EncodeBytes, k.publicKeys), EncodeList(EncodeInt64, k.creationTimes),
     EncodeList(EncodeInt64, k.ttls), sha(Preimage(sha, Config(k.config)))]
  }

  lemma KeysAreLaidOut(sha: Sha, k: PublicKeyResponse)
    ensures LaidOut(Preimage(sha, Keys(k)), KeysParts(sha, k))
  {
    var p := KeysParts(sha, k);
    Join5(p[0], p[1], p[2], p[3], p[4]);
    JoinedIsLaidOut(p);
  }

  /** A response to a legacy request lacks the application request ID at the end. */
  function ResponseParts(sha: Sha, e: ExecuteResponse, version: Bytes): seq<Bytes> {
    [e.requestID, Tag("\nExecuteResponse\n"), EncodeBytes(e.output), sha(Preimage(sha, Config(e.config))),
     e.requestHash]
    + if version == LEGACY_VERSION then [] else [EncodeBytes(e.applicationRequestID)]
  }

  lemma ResponseIsLaidOut(sha: Sha, e: ExecuteResponse, version: Bytes)
    ensures LaidOut(Preimage(sha, Execute(e, version)), ResponseParts(sha, e, version))
  {
    var p := ResponseParts(sha, e, version);
    if version == LEGACY_VERSION {
      assert p == [p[0], p[1], p[2], p[3], p[4]];
      Join5(p[0], p[1], p[2], p[3], p[4]);
      assert e.requestHash + [] == e.requestHash;
    } else {
      assert p == [p[0]] + [p[1], p[2], p[3], p[4], p[5]];
      JoinedMore(p[0], [p[1], p[2], p[3], p[4], p[5]]);
      Join5(p[1], p[2], p[3], p[4], p[5]);
    }
    JoinedIsLaidOut(p);
  }

  function EnclaveParts(e: Enclave): seq<Bytes> {
    [e.id, EncodeBytes(e.url), EncodeList(EncodeBytes, e.trustedValues), EncodeBytes(e.kind), EncodeBytes(e.authHeader),
     EncodeBytes(e.extraData), EncodeBytes(e.region)]
  }

  /** The enclaves of a list stand one after the other, each with its fields in this order. */
  lemma ListIsLaidOut(sha: Sha, es: seq<Enclave>, i: nat)
    requires i < |es|
    ensures LaidOut(Preimage(sha, List(es)), [Tag("\nEnclavesList\n"), EncodeList(EncodeEnclave, es)])
    ensures LaidOut(EncodeEnclave(es[i]), EnclaveParts(es[i]))
  {
    var tag, list, p := Tag("\nEnclavesList\n"), EncodeList(EncodeEnclave, es), EnclaveParts(es[i]);
    TwoAreLaidOut(tag, list);
    Join7(p[0], p[1], p[2], p[3], p[4], p[5], p[6]);
    JoinedIsLaidOut(p);
  }

  /** The parts of what is signed for a message: a short one is carried itself, a long one by its digest. */
  function PayloadParts(sha: Sha, separator: Bytes, message: Bytes): seq<Bytes> {
    if |message| <= 1024
    then [Spaces(64), CONTEXT, [0], EncodeBytes(separator), [0], EncodeBytes(message)]
    else [Spaces(64), CONTEXT, [0], EncodeBytes(separator), [1], sha(message)]
  }

  lemma PayloadIsLaidOut(sha: Sha, separator: Bytes, message: Bytes)
    ensures LaidOut(SignedPayload(sha, separator, message), PayloadParts(sha, separator, message))
    ensures |Spaces(64)| == 64 && forall i :: 0 <= i < 64 ==> Spaces(64)[i] == 0x20
  {
    var p := PayloadParts(sha, separator, message);
    assert p == [p[0]] + [p[1], p[2], p[3], p[4], p[5]];
    JoinedMore(p[0], [p[1], p[2], p[3], p[4], p[5]]);
    Join5(p[1], p[2], p[3], p[4], p[5]);
    JoinedIsLaidOut(p);
    Flatten3(p[0], CONTEXT, [0]);
    Flatten3(p[0], CONTEXT + [0], p[3] + (p[4] + p[5]));
    Flatten3(CONTEXT, [0], p[3] + (p[4] + p[5]));
    AllSpaces(64);
  }

  /** A request and a vote are signed under their own prefixes. */
  lemma DeployedPayloads(sha: Sha, ed25519: Ed25519, hash: Hash32)
    ensures LaidOut(Deployed(sha, ed25519).requestPayload(hash),
                    [Spaces(64), CONTEXT, [0], EncodeBytes(Ascii("CONFIDENTIAL_COMPUTE_PAYLOAD_")), [0],
                     EncodeBytes(hash)])
    ensures LaidOut(Deployed(sha, ed25519).votePayload(hash),
                    [Spaces(64), CONTEXT, [0], EncodeBytes(Ascii("CONFIDENTIAL_COMPUTE_CONFIG_UPDATE_")), [0],
                     EncodeBytes(hash)])
  {
    PayloadIsLaidOut(sha, COMPUTE_PREFIX, hash);
    PayloadIsLaidOut(sha, CONFIG_UPDATE_PREFIX, hash);
  }

  lemma {:induction false} AllSpaces(n: nat)
    ensures |Spaces(n)| == n && forall i :: 0 <= i < n ==> Spaces(n)[i] == 0x20
  {
    if n > 0 {
      AllSpaces(n - 1);
    }
  }
}
