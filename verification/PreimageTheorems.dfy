/**
 Decoding inverts encoding for every kind of message, so a preimage determines its kind and
 all its hashed fields: the hash is injective on them and the kinds are separated.
 */
module PreimageTheorems {
  import opened Bytes
  import opened Encoding
  import opened Preimages

  // --- sizes: every length fits its 64-bit prefix -------------------------------

  predicate SizedList(xs: seq<Bytes>) {
    |xs| < TWO_64 && forall x :: x in xs ==> |x| < TWO_64
  }

  predicate SizedEnclave(e: Enclave) {
    && |e.url| < TWO_64 && SizedList(e.trustedValues) && |e.kind| < TWO_64
    && |e.authHeader| < TWO_64 && |e.extraData| < TWO_64 && |e.region| < TWO_64
  }

  predicate Sized(h: Hashed) {
    match h
    case HList(es) => |es| < TWO_64 && forall e :: e in es ==> SizedEnclave(e)
    case HCompute(_, pd, names, cts, ek, mpk, app, last) =>
      && |pd| < TWO_64 && SizedList(names) && SizedList(cts) && |ek| < TWO_64
      && |mpk| < TWO_64 && |app| < TWO_64 && |last| < TWO_64
    case HConfig(signers, mpk, _, _) => SizedList(signers) && |mpk| < TWO_64
    case HKeys(pks, times, ttls, _) => SizedList(pks) && |times| < TWO_64 && |ttls| < TWO_64
    case HExecute(_, out, _, _, app) => |out| < TWO_64 && (app.Some? ==> |app.value| < TWO_64)
    case HSetConfig(_) => true
  }

  // --- round trips of the parts ---------------------------------------------------

  lemma HashRoundTrip(b: Hash32, rest: Bytes)
    ensures ParseHash(b + rest) == Ok(b, rest)
  {
    FixedRoundTrip(b, rest);
  }

  lemma Uint32RoundTrip(x: uint32, rest: Bytes)
    ensures ParseUint32(BigEndian(x, 4) + rest) == Ok(x, rest)
  {
    WordSizes();
    NatRoundTrip(x, 4, rest);
  }

  lemma BytesListRoundTrip(xs: seq<Bytes>, rest: Bytes)
    requires SizedList(xs)
    ensures ParseList(ParseBytes, EncodeList(EncodeBytes, xs) + rest) == Ok(xs, rest)
  {
    forall x, r | x in xs ensures ParseBytes(EncodeBytes(x) + r) == Ok(x, r) {
      BytesRoundTrip(x, r);
    }
    ListRoundTrip(EncodeBytes, ParseBytes, xs, rest);
  }

  lemma Int64ListRoundTrip(xs: seq<int64>, rest: Bytes)
    requires |xs| < TWO_64
    ensures ParseList(ParseInt64, EncodeList(EncodeInt64, xs) + rest) == Ok(xs, rest)
  {
    forall x, r | x in xs ensures ParseInt64(EncodeInt64(x) + r) == Ok(x, r) {
      Int64RoundTrip(x, r);
    }
    ListRoundTrip(EncodeInt64, ParseInt64, xs, rest);
  }

  lemma EnclaveRoundTrip(e: Enclave, rest: Bytes)
    requires SizedEnclave(e)
    ensures ParseEnclave(EncodeEnclave(e) + rest) == Ok(e, rest)
  {
    var s6 := EncodeBytes(e.region) + rest;
    var s5 := EncodeBytes(e.extraData) + s6;
    var s4 := EncodeBytes(e.authHeader) + s5;
    var s3 := EncodeBytes(e.kind) + s4;
    var s2 := EncodeList(EncodeBytes, e.trustedValues) + s3;
    var s1 := EncodeBytes(e.url) + s2;
    Regroup(e.id, EncodeBytes(e.url), EncodeList(EncodeBytes, e.trustedValues), EncodeBytes(e.kind),
            EncodeBytes(e.authHeader), EncodeBytes(e.extraData), EncodeBytes(e.region), rest);
    assert EncodeEnclave(e) + rest == e.id + s1;
    HashRoundTrip(e.id, s1);
    BytesRoundTrip(e.url, s2);
    BytesListRoundTrip(e.trustedValues, s3);
    BytesRoundTrip(e.kind, s4);
    BytesRoundTrip(e.authHeader, s5);
    BytesRoundTrip(e.extraData, s6);
    BytesRoundTrip(e.region, rest);
  }

  lemma ListBodyRoundTrip(h: Hashed)
    requires h.HList? && Sized(h)
    ensures ParseEnclaves(EncodeBody(h)) == Ok(h, [])
  {
    forall e, r | e in h.enclaves ensures ParseEnclave(EncodeEnclave(e) + r) == Ok(e, r) {
      EnclaveRoundTrip(e, r);
    }
    ListRoundTrip(EncodeEnclave, ParseEnclave, h.enclaves, []);
    assert EncodeBody(h) + [] == EncodeBody(h);
  }

  lemma ComputeBodyRoundTrip(h: Hashed)
    requires h.HCompute? && Sized(h)
    ensures ParseCompute(EncodeBody(h)) == Ok(h, [])
  {
    var s7 := EncodeBytes(h.last);
    var s6 := EncodeBytes(h.appID) + s7;
    var s5 := EncodeBytes(h.masterPublicKey) + s6;
    var s4 := EncodeBytes(h.ephemeralKey) + s5;
    var s3 := EncodeList(EncodeBytes, h.ciphertexts) + s4;
    var s2 := EncodeList(EncodeBytes, h.names) + s3;
    var s1 := EncodeBytes(h.publicData) + s2;
    HashRoundTrip(h.requestID, s1);
    BytesRoundTrip(h.publicData, s2);
    BytesListRoundTrip(h.names, s3);
    BytesListRoundTrip(h.ciphertexts, s4);
    BytesRoundTrip(h.ephemeralKey, s5);
    BytesRoundTrip(h.masterPublicKey, s6);
    BytesRoundTrip(h.appID, s7);
    BytesRoundTrip(h.last, []);
    assert s7 + [] == s7;
  }

  lemma ConfigBodyRoundTrip(h: Hashed)
    requires h.HConfig? && Sized(h)
    ensures ParseConfig(EncodeBody(h)) == Ok(h, [])
  {
    var s3 := BigEndian(h.F, 4);
    var s2 := BigEndian(h.T, 4) + s3;
    var s1 := EncodeBytes(h.masterKey) + s2;
    BytesListRoundTrip(h.signers, s1);
    BytesRoundTrip(h.masterKey, s2);
    Uint32RoundTrip(h.T, s3);
    Uint32RoundTrip(h.F, []);
    assert s3 + [] == s3;
  }

  lemma KeysBodyRoundTrip(h: Hashed)
    requires h.HKeys? && Sized(h)
    ensures ParseKeys(EncodeBody(h)) == Ok(h, [])
  {
    var s3: Bytes := h.configHash;
    var s2 := EncodeList(EncodeInt64, h.ttls) + s3;
    var s1 := EncodeList(EncodeInt64, h.creationTimes) + s2;
    BytesListRoundTrip(h.publicKeys, s1);
    Int64ListRoundTrip(h.creationTimes, s2);
    Int64ListRoundTrip(h.ttls, s3);
    HashRoundTrip(h.configHash, []);
    assert s3 + [] == s3;
  }

  lemma ExecuteBodyRoundTrip(h: Hashed)
    requires h.HExecute? && Sized(h)
    ensures ParseExecute(h.responseID, EncodeBody(h)) == Ok(h, [])
  {
    var s3 := if h.application.Some? then EncodeBytes(h.application.value) else [];
    var s2 := h.requestHash + s3;
    var s1 := h.responseConfig + s2;
    BytesRoundTrip(h.output, s1);
    HashRoundTrip(h.responseConfig, s2);
    HashRoundTrip(h.requestHash, s3);
    if h.application.Some? {
      BytesRoundTrip(h.application.value, []);
      assert s3 + [] == s3;
    }
  }

  lemma SetConfigBodyRoundTrip(h: Hashed)
    requires h.HSetConfig?
    ensures ParseSetConfig(EncodeBody(h)) == Ok(h, [])
  {
    HashRoundTrip(h.newConfigHash, []);
    assert h.newConfigHash + [] == h.newConfigHash;
  }

  // --- the tags ---------------------------------------------------------------------

  lemma DiffersAt(a: Bytes, s: Bytes, i: nat)
    requires i < |a| && i < |s| && a[i] != s[i]
    ensures !(a <= s)
  {
  }

  lemma TagAt(name: string, i: nat)
    requires i < |name|
    ensures |DOMAIN| == 28 && Tag(name)[28 + i] == name[i] as int % 256
  {
  }

  /** Two tags that differ at some character separate whatever follows them. */
  lemma TagsDiffer(x: string, y: string, i: nat, body: Bytes)
    requires i < |x| && i < |y| && x[i] as int % 256 != y[i] as int % 256
    ensures !(Tag(x) <= Tag(y) + body)
  {
    TagAt(x, i);
    TagAt(y, i);
    DiffersAt(Tag(x), Tag(y) + body, 28 + i);
  }

  /** A tag cannot start an execute response, although its first 32 bytes are free. */
  lemma TagIsNotExecute(x: string, id: Hash32, body: Bytes)
    requires x in {ENCLAVES_LIST, COMPUTE_REQUEST, ENCLAVE_CONFIG, PUBLIC_KEY_RESPONSE, SET_CONFIG_RESPONSE}
    ensures !(Tag(x) <= id + (Tag(EXECUTE_RESPONSE) + body))
  {
    var s := id + (Tag(EXECUTE_RESPONSE) + body);
    assert DOMAIN[0] == 'C' as int && DOMAIN[1] == 'O' as int;
    assert s[32] == DOMAIN[0] && s[33] == DOMAIN[1];
    TagAt(x, 4);
    TagAt(x, 5);
    if x == SET_CONFIG_RESPONSE {
      DiffersAt(Tag(x), s, 33);
    } else {
      DiffersAt(Tag(x), s, 32);
    }
  }

  lemma SkipTag(name: string, body: Bytes)
    ensures Tag(name) <= Tag(name) + body
    ensures (Tag(name) + body)[|Tag(name)|..] == body
  {
  }

  /** Dispatch on the tag reaches the parser of the kind that was encoded. */
  lemma EarlyTagDispatch(h: Hashed)
    requires h.HList? || h.HCompute? || h.HConfig?
    ensures ParseTagged(Encode(h)) ==
            if h.HList? then ParseEnclaves(EncodeBody(h))
            else if h.HCompute? then ParseCompute(EncodeBody(h))
            else ParseConfig(EncodeBody(h))
  {
    var body := EncodeBody(h);
    SkipTag(TagOf(h), body);
    if h.HCompute? {
      TagsDiffer(ENCLAVES_LIST, COMPUTE_REQUEST, 1, body);
    } else if h.HConfig? {
      TagsDiffer(ENCLAVES_LIST, ENCLAVE_CONFIG, 8, body);
      TagsDiffer(COMPUTE_REQUEST, ENCLAVE_CONFIG, 1, body);
    }
  }

  lemma KeysDispatch(h: Hashed)
    requires h.HKeys?
    ensures ParseTagged(Encode(h)) == ParseKeys(EncodeBody(h))
  {
    var body := EncodeBody(h);
    SkipTag(PUBLIC_KEY_RESPONSE, body);
    TagsDiffer(ENCLAVES_LIST, PUBLIC_KEY_RESPONSE, 1, body);
    TagsDiffer(COMPUTE_REQUEST, PUBLIC_KEY_RESPONSE, 1, body);
    TagsDiffer(ENCLAVE_CONFIG, PUBLIC_KEY_RESPONSE, 1, body);
  }

  lemma SetConfigDispatch(h: Hashed)
    requires h.HSetConfig?
    ensures ParseTagged(Encode(h)) == ParseSetConfig(EncodeBody(h))
  {
    var body := EncodeBody(h);
    SkipTag(SET_CONFIG_RESPONSE, body);
    TagsDiffer(ENCLAVES_LIST, SET_CONFIG_RESPONSE, 1, body);
    TagsDiffer(COMPUTE_REQUEST, SET_CONFIG_RESPONSE, 1, body);
    TagsDiffer(ENCLAVE_CONFIG, SET_CONFIG_RESPONSE, 1, body);
    TagsDiffer(PUBLIC_KEY_RESPONSE, SET_CONFIG_RESPONSE, 1, body);
  }

  lemma ExecuteDispatch(h: Hashed)
    requires h.HExecute?
    ensures ParseTagged(Encode(h)) == ParseExecute(h.responseID, EncodeBody(h))
  {
    var body := EncodeBody(h);
    TagIsNotExecute(ENCLAVES_LIST, h.responseID, body);
    TagIsNotExecute(COMPUTE_REQUEST, h.responseID, body);
    TagIsNotExecute(ENCLAVE_CONFIG, h.responseID, body);
    TagIsNotExecute(PUBLIC_KEY_RESPONSE, h.responseID, body);
    TagIsNotExecute(SET_CONFIG_RESPONSE, h.responseID, body);
    SkipTag(EXECUTE_RESPONSE, body);
    assert Encode(h)[..32] == h.responseID && Encode(h)[32..] == Tag(EXECUTE_RESPONSE) + body;
  }

  // --- the decoder accepts nothing but encodings ----------------------------------------

  lemma BytesListOnto(s: Bytes)
    ensures var r := ParseList(ParseBytes, s);
            r.Ok? ==> SizedList(r.value) && s == EncodeList(EncodeBytes, r.value) + r.rest
  {
    forall t | ParseBytes(t).Ok?
      ensures t == EncodeBytes(ParseBytes(t).value) + ParseBytes(t).rest && |ParseBytes(t).value| < TWO_64
    {
      BytesOnto(t);
    }
    ListOnto(EncodeBytes, ParseBytes, s);
  }

  lemma Int64ListOnto(s: Bytes)
    ensures var r := ParseList(ParseInt64, s);
            r.Ok? ==> |r.value| < TWO_64 && s == EncodeList(EncodeInt64, r.value) + r.rest
  {
    forall t | ParseInt64(t).Ok? ensures t == EncodeInt64(ParseInt64(t).value) + ParseInt64(t).rest {
      Int64Onto(t);
    }
    ListOnto(EncodeInt64, ParseInt64, s);
  }

  lemma EnclaveOnto(s: Bytes)
    ensures var r := ParseEnclave(s); r.Ok? ==> SizedEnclave(r.value) && s == EncodeEnclave(r.value) + r.rest
  {
    var r := ParseEnclave(s);
    if r.Ok? {
      var e := r.value;
      var s1 := ParseHash(s).rest;
      var s2 := ParseBytes(s1).rest;
      var s3 := ParseList(ParseBytes, s2).rest;
      var s4 := ParseBytes(s3).rest;
      var s5 := ParseBytes(s4).rest;
      var s6 := ParseBytes(s5).rest;
      assert s == e.id + s1;
      assert s1 == EncodeBytes(e.url) + s2 && |e.url| < TWO_64 by { BytesOnto(s1); }
      assert s2 == EncodeList(EncodeBytes, e.trustedValues) + s3 && SizedList(e.trustedValues) by { BytesListOnto(s2); }
      assert s3 == EncodeBytes(e.kind) + s4 && |e.kind| < TWO_64 by { BytesOnto(s3); }
      assert s4 == EncodeBytes(e.authHeader) + s5 && |e.authHeader| < TWO_64 by { BytesOnto(s4); }
      assert s5 == EncodeBytes(e.extraData) + s6 && |e.extraData| < TWO_64 by { BytesOnto(s5); }
      assert s6 == EncodeBytes(e.region) + r.rest && |e.region| < TWO_64 by { BytesOnto(s6); }
      Regroup(e.id, EncodeBytes(e.url), EncodeList(EncodeBytes, e.trustedValues), EncodeBytes(e.kind),
              EncodeBytes(e.authHeader), EncodeBytes(e.extraData), EncodeBytes(e.region), r.rest);
    }
  }

  lemma Regroup(a: Bytes, b: Bytes, c: Bytes, d: Bytes, e: Bytes, f: Bytes, g: Bytes, rest: Bytes)
    ensures a + (b + (c + (d + (e + (f + g))))) + rest == a + (b + (c + (d + (e + (f + (g + rest))))))
  {
    Flatten3(a, b + (c + (d + (e + (f + g)))), rest);
    Flatten3(b, c + (d + (e + (f + g))), rest);
    Flatten3(c, d + (e + (f + g)), rest);
    Flatten3(d, e + (f + g), rest);
    Flatten3(e, f + g, rest);
    Flatten3(f, g, rest);
  }

  lemma ListBodyOnto(s: Bytes)
    ensures var r := ParseEnclaves(s);
            r.Ok? && r.rest == [] ==> r.value.HList? && Sized(r.value) && s == EncodeBody(r.value)
  {
    forall t | ParseEnclave(t).Ok?
      ensures t == EncodeEnclave(ParseEnclave(t).value) + ParseEnclave(t).rest && SizedEnclave(ParseEnclave(t).value)
    {
      EnclaveOnto(t);
    }
    ListOnto(EncodeEnclave, ParseEnclave, s);
  }

  lemma ComputeBodyOnto(s: Bytes)
    ensures var r := ParseCompute(s);
            r.Ok? && r.rest == [] ==> r.value.HCompute? && Sized(r.value) && s == EncodeBody(r.value)
  {
    var r := ParseCompute(s);
    if r.Ok? && r.rest == [] {
      var h := r.value;
      var s1 := ParseHash(s).rest;
      var s2 := ParseBytes(s1).rest;
      var s3 := ParseList(ParseBytes, s2).rest;
      var s4 := ParseList(ParseBytes, s3).rest;
      var s5 := ParseBytes(s4).rest;
      var s6 := ParseBytes(s5).rest;
      var s7 := ParseBytes(s6).rest;
      assert s == h.requestID + s1;
      assert s1 == EncodeBytes(h.publicData) + s2 && |h.publicData| < TWO_64 by { BytesOnto(s1); }
      assert s2 == EncodeList(EncodeBytes, h.names) + s3 && SizedList(h.names) by { BytesListOnto(s2); }
      assert s3 == EncodeList(EncodeBytes, h.ciphertexts) + s4 && SizedList(h.ciphertexts) by { BytesListOnto(s3); }
      assert s4 == EncodeBytes(h.ephemeralKey) + s5 && |h.ephemeralKey| < TWO_64 by { BytesOnto(s4); }
      assert s5 == EncodeBytes(h.masterPublicKey) + s6 && |h.masterPublicKey| < TWO_64 by { BytesOnto(s5); }
      assert s6 == EncodeBytes(h.appID) + s7 && |h.appID| < TWO_64 by { BytesOnto(s6); }
      assert s7 == EncodeBytes(h.last) && |h.last| < TWO_64 by { BytesOnto(s7); }
    }
  }

  lemma Uint32Onto(s: Bytes)
    ensures var r := ParseUint32(s); r.Ok? ==> s == BigEndian(r.value, 4) + r.rest
  {
    NatOnto(4, s);
  }

  lemma ConfigBodyOnto(s: Bytes)
    ensures var r := ParseConfig(s);
            r.Ok? && r.rest == [] ==> r.value.HConfig? && Sized(r.value) && s == EncodeBody(r.value)
  {
    var r := ParseConfig(s);
    if r.Ok? && r.rest == [] {
      var s1 := ParseList(ParseBytes, s).rest;
      var s2 := ParseBytes(s1).rest;
      var s3 := ParseUint32(s2).rest;
      BytesListOnto(s);
      BytesOnto(s1);
      Uint32Onto(s2);
      Uint32Onto(s3);
      assert s3 == BigEndian(r.value.F, 4);
    }
  }

  lemma KeysBodyOnto(s: Bytes)
    ensures var r := ParseKeys(s);
            r.Ok? && r.rest == [] ==> r.value.HKeys? && Sized(r.value) && s == EncodeBody(r.value)
  {
    var r := ParseKeys(s);
    if r.Ok? && r.rest == [] {
      var s1 := ParseList(ParseBytes, s).rest;
      var s2 := ParseList(ParseInt64, s1).rest;
      var s3 := ParseList(ParseInt64, s2).rest;
      BytesListOnto(s);
      Int64ListOnto(s1);
      Int64ListOnto(s2);
      assert s3 == r.value.configHash;
    }
  }

  lemma ExecuteBodyOnto(id: Hash32, s: Bytes)
    ensures var r := ParseExecute(id, s);
            r.Ok? && r.rest == [] ==>
              r.value.HExecute? && r.value.responseID == id && Sized(r.value) && s == EncodeBody(r.value)
  {
    var r := ParseExecute(id, s);
    if r.Ok? && r.rest == [] {
      var s1 := ParseBytes(s).rest;
      var s2 := ParseHash(s1).rest;
      var s3 := ParseHash(s2).rest;
      BytesOnto(s);
      assert s1 == r.value.responseConfig + s2 && s2 == r.value.requestHash + s3;
      if s3 != [] {
        BytesOnto(s3);
        assert s3 == EncodeBytes(r.value.application.value);
      }
    }
  }

  lemma AfterPrefix(t: Bytes, s: Bytes)
    requires t <= s
    ensures s == t + s[|t|..]
  {
  }

  lemma SetConfigBodyOnto(s: Bytes)
    ensures var r := ParseSetConfig(s); r.Ok? && r.rest == [] ==> r.value.HSetConfig? && s == EncodeBody(r.value)
  {
  }

  ghost predicate DecodesOnto(s: Bytes) {
    Decode(s).Some? ==> Sized(Decode(s).value) && Encode(Decode(s).value) == s
  }

  lemma ListAndComputeOnto(s: Bytes)
    requires Tag(ENCLAVES_LIST) <= s || Tag(COMPUTE_REQUEST) <= s
    ensures DecodesOnto(s)
  {
    if Tag(ENCLAVES_LIST) <= s {
      AfterPrefix(Tag(ENCLAVES_LIST), s);
      ListBodyOnto(s[|Tag(ENCLAVES_LIST)|..]);
    } else {
      AfterPrefix(Tag(COMPUTE_REQUEST), s);
      ComputeBodyOnto(s[|Tag(COMPUTE_REQUEST)|..]);
    }
  }

  lemma ConfigAndKeysOnto(s: Bytes)
    requires !(Tag(ENCLAVES_LIST) <= s) && !(Tag(COMPUTE_REQUEST) <= s)
    requires Tag(ENCLAVE_CONFIG) <= s || Tag(PUBLIC_KEY_RESPONSE) <= s
    ensures DecodesOnto(s)
  {
    if Tag(ENCLAVE_CONFIG) <= s {
      AfterPrefix(Tag(ENCLAVE_CONFIG), s);
      ConfigBodyOnto(s[|Tag(ENCLAVE_CONFIG)|..]);
    } else {
      AfterPrefix(Tag(PUBLIC_KEY_RESPONSE), s);
      KeysBodyOnto(s[|Tag(PUBLIC_KEY_RESPONSE)|..]);
    }
  }

  lemma ResponsesOnto(s: Bytes)
    requires !(Tag(ENCLAVES_LIST) <= s) && !(Tag(COMPUTE_REQUEST) <= s)
    requires !(Tag(ENCLAVE_CONFIG) <= s) && !(Tag(PUBLIC_KEY_RESPONSE) <= s)
    ensures DecodesOnto(s)
  {
    if Tag(SET_CONFIG_RESPONSE) <= s {
      AfterPrefix(Tag(SET_CONFIG_RESPONSE), s);
      SetConfigBodyOnto(s[|Tag(SET_CONFIG_RESPONSE)|..]);
    } else if |s| >= 32 && Tag(EXECUTE_RESPONSE) <= s[32..] {
      AfterPrefix(Tag(EXECUTE_RESPONSE), s[32..]);
      ExecuteBodyOnto(s[..32], s[32..][|Tag(EXECUTE_RESPONSE)|..]);
      assert s == s[..32] + s[32..];
    }
  }

  /** The decoder answers only on preimages, and then with the fields that produce exactly them. */
  lemma EncodeDecode(s: Bytes)
    ensures Decode(s).Some? ==> Sized(Decode(s).value) && Encode(Decode(s).value) == s
  {
    if Tag(ENCLAVES_LIST) <= s || Tag(COMPUTE_REQUEST) <= s {
      ListAndComputeOnto(s);
    } else if Tag(ENCLAVE_CONFIG) <= s || Tag(PUBLIC_KEY_RESPONSE) <= s {
      ConfigAndKeysOnto(s);
    } else {
      ResponsesOnto(s);
    }
    assert DecodesOnto(s);
  }

  // --- main theorems ------------------------------------------------------------------

  /** The decoder recovers every hashed field of every kind of message. */
  lemma DecodeEncode(h: Hashed)
    requires Sized(h)
    ensures Decode(Encode(h)) == Some(h)
  {
    if h.HExecute? {
      ExecuteDispatch(h);
      ExecuteBodyRoundTrip(h);
    } else {
      if h.HList? || h.HCompute? || h.HConfig? {
        EarlyTagDispatch(h);
      } else if h.HKeys? {
        KeysDispatch(h);
      } else {
        SetConfigDispatch(h);
      }
      match h
      case HList(_) => ListBodyRoundTrip(h);
      case HCompute(_, _, _, _, _, _, _, _) => ComputeBodyRoundTrip(h);
      case HConfig(_, _, _, _) => ConfigBodyRoundTrip(h);
      case HKeys(_, _, _, _) => KeysBodyRoundTrip(h);
      case HSetConfig(_) => SetConfigBodyRoundTrip(h);
    }
  }

  /** Two messages have the same preimage exactly when they are of one kind and agree on every hashed field. */
  lemma PreimageInjective(sha: Sha, a: Message, b: Message)
    requires Sized(HashedFields(sha, a)) && Sized(HashedFields(sha, b))
    ensures Preimage(sha, a) == Preimage(sha, b) <==> HashedFields(sha, a) == HashedFields(sha, b)
  {
    DecodeEncode(HashedFields(sha, a));
    DecodeEncode(HashedFields(sha, b));
  }

  /** No preimage of one kind of message is a preimage of another kind. */
  lemma KindsAreSeparated(sha: Sha, a: Message, b: Message)
    requires Sized(HashedFields(sha, a)) && Sized(HashedFields(sha, b))
    requires Preimage(sha, a) == Preimage(sha, b)
    ensures a.List? <==> b.List?
    ensures a.Compute? <==> b.Compute?
    ensures a.Config? <==> b.Config?
    ensures a.Keys? <==> b.Keys?
    ensures a.Execute? <==> b.Execute?
    ensures a.SetConfig? <==> b.SetConfig?
  {
    PreimageInjective(sha, a, b);
  }

  predicate SizedConfig(c: EnclaveConfig) {
    Sized(ConfigFields(c))
  }

  /** Different configs that SHA-256 does not tell apart. */
  ghost predicate ConfigCollision(sha: Sha, a: EnclaveConfig, b: EnclaveConfig) {
    && Encode(ConfigFields(a)) != Encode(ConfigFields(b))
    && sha(Encode(ConfigFields(a))) == sha(Encode(ConfigFields(b)))
  }

  /** Config hashes agree only on equal configs, short of a SHA-256 collision. */
  lemma ConfigHashInjective(sha: Sha, a: EnclaveConfig, b: EnclaveConfig)
    requires SizedConfig(a) && SizedConfig(b)
    requires sha(Encode(ConfigFields(a))) == sha(Encode(ConfigFields(b)))
    ensures a == b || ConfigCollision(sha, a, b)
  {
    DecodeEncode(ConfigFields(a));
    DecodeEncode(ConfigFields(b));
  }

  /**
   Execute responses with equal preimages agree on the request, output, request hash and config,
   even when one answers a legacy request and the other does not, and on the application
   request ID whenever the preimage carries it.
   */
  lemma ExecutePreimageInjective(sha: Sha, a: ExecuteResponse, va: Bytes, b: ExecuteResponse, vb: Bytes)
    requires Sized(HashedFields(sha, Execute(a, va))) && Sized(HashedFields(sha, Execute(b, vb)))
    requires SizedConfig(a.config) && SizedConfig(b.config)
    requires Preimage(sha, Execute(a, va)) == Preimage(sha, Execute(b, vb))
    ensures a.requestID == b.requestID && a.output == b.output && a.requestHash == b.requestHash
    ensures va == LEGACY_VERSION <==> vb == LEGACY_VERSION
    ensures va != LEGACY_VERSION ==> a.applicationRequestID == b.applicationRequestID
    ensures a.config == b.config || ConfigCollision(sha, a.config, b.config)
  {
    PreimageInjective(sha, Execute(a, va), Execute(b, vb));
    ConfigHashInjective(sha, a.config, b.config);
  }

  lemma KeysPreimageInjective(sha: Sha, a: PublicKeyResponse, b: PublicKeyResponse)
    requires Sized(HashedFields(sha, Keys(a))) && Sized(HashedFields(sha, Keys(b)))
    requires SizedConfig(a.config) && SizedConfig(b.config)
    requires Preimage(sha, Keys(a)) == Preimage(sha, Keys(b))
    ensures a == b || ConfigCollision(sha, a.config, b.config)
  {
    PreimageInjective(sha, Keys(a), Keys(b));
    ConfigHashInjective(sha, a.config, b.config);
  }

  /**
   The version is hashed only when it is the legacy one, in the place of the application request
   ID. So a legacy request and a current one share a preimage exactly when the current one's
   application request ID spells the legacy version and the other covered fields agree.
   */
  lemma LegacyRequestAmbiguity(sha: Sha, a: ComputeRequest, b: ComputeRequest)
    requires Sized(HashedFields(sha, Compute(a))) && Sized(HashedFields(sha, Compute(b)))
    requires a.version == LEGACY_VERSION && b.version != LEGACY_VERSION
    ensures Preimage(sha, Compute(a)) == Preimage(sha, Compute(b)) <==>
            && b.applicationRequestID == LEGACY_VERSION
            && a.requestID == b.requestID && a.publicData == b.publicData
            && a.ciphertextNames == b.ciphertextNames && a.ciphertexts == b.ciphertexts
            && a.ephemeralKey == b.ephemeralKey && a.masterPublicKey == b.masterPublicKey && a.appID == b.appID
  {
    PreimageInjective(sha, Compute(a), Compute(b));
  }

  /** Such a pair: a legacy request, and a current one whose application request ID spells the legacy version. */
  lemma LegacyPair(id: Hash32, sha: Sha) returns (a: ComputeRequest, b: ComputeRequest)
    ensures a.version == LEGACY_VERSION && b.version != LEGACY_VERSION && Executable(a) && Executable(b)
    ensures Preimage(sha, Compute(a)) == Preimage(sha, Compute(b))
  {
    var app := Ascii("confidential-http");
    var version := Ascii("0.0.7");
    a := ComputeRequest(id, [], [], [], [], [], [], [], app, LEGACY_VERSION);
    b := ComputeRequest(id, LEGACY_VERSION, [], [], [], [], [], [], app, version);
    assert |app| > 0 && |LEGACY_VERSION| > 0 && version[4] != LEGACY_VERSION[4];
    assert HashedFields(sha, Compute(a)) == HashedFields(sha, Compute(b));
  }
}
