/**
 The byte strings that types/types.go hashes, for each of its six kinds of message, with
 the decoder that recovers every hashed field. `sha` stands for SHA-256 where a digest is
 itself part of a preimage; nothing is assumed of it beyond its output length.
 */
module Preimages {
  import opened Bytes
  import opened Encoding

  type Hash32 = b: Bytes | |b| == 32 witness seq(32, _ => 0)
  type Sha = Bytes -> Hash32

  const DOMAIN := Ascii("CONFIDENTIAL_COMPUTE_PAYLOAD")
  const LEGACY_VERSION := Ascii("0.0.6")

  function Tag(name: string): Bytes {
    DOMAIN + Ascii(name)
  }

  const ENCLAVES_LIST := "\nEnclavesList\n"
  const COMPUTE_REQUEST := "\nComputeRequest\n"
  const PUBLIC_KEY_RESPONSE := "\nPublicKeyResponse\n"
  const ENCLAVE_CONFIG := "\nEnclaveConfig\n"
  const EXECUTE_RESPONSE := "\nExecuteResponse\n"
  const SET_CONFIG_RESPONSE := "\nSetConfigResponse\n"

  // --- the source's records ---------------------------------------------------

  datatype Enclave = Enclave(
    id: Hash32, url: Bytes, trustedValues: seq<Bytes>, kind: Bytes, authHeader: Bytes, extraData: Bytes, region: Bytes)

  datatype ComputeRequest = ComputeRequest(
    requestID: Hash32, applicationRequestID: Bytes, publicData: Bytes, ciphertexts: seq<Bytes>,
    ciphertextNames: seq<Bytes>, keyShares: seq<seq<Bytes>>, ephemeralKey: Bytes, masterPublicKey: Bytes,
    appID: Bytes, version: Bytes)

  /** What the enclave asks of a request's own fields before it executes it. */
  predicate Executable(r: ComputeRequest) {
    |r.ciphertexts| == |r.ciphertextNames| == |r.keyShares| && r.appID != [] && r.version != []
  }

  datatype EnclaveConfig = EnclaveConfig(signers: seq<Bytes>, masterPublicKey: Bytes, T: uint32, F: uint32)

  datatype PublicKeyResponse = PublicKeyResponse(
    publicKeys: seq<Bytes>, creationTimes: seq<int64>, ttls: seq<int64>, config: EnclaveConfig)

  datatype ExecuteResponse = ExecuteResponse(
    requestID: Hash32, applicationRequestID: Bytes, requestHash: Hash32, output: Bytes, config: EnclaveConfig)

  /** Everything the system hashes; an `Execute` carries the version of the request it answers. */
  datatype Message =
    | List(enclaves: seq<Enclave>)
    | Compute(request: ComputeRequest)
    | Config(config: EnclaveConfig)
    | Keys(keys: PublicKeyResponse)
    | Execute(response: ExecuteResponse, version: Bytes)
    | SetConfig(newConfig: EnclaveConfig)

  /** What a preimage carries: exactly the fields the hash covers. */
  datatype Hashed =
    | HList(enclaves: seq<Enclave>)
    | HCompute(requestID: Hash32, publicData: Bytes, names: seq<Bytes>, ciphertexts: seq<Bytes>, ephemeralKey: Bytes,
               masterPublicKey: Bytes, appID: Bytes, last: Bytes)
    | HConfig(signers: seq<Bytes>, masterKey: Bytes, T: uint32, F: uint32)
    | HKeys(publicKeys: seq<Bytes>, creationTimes: seq<int64>, ttls: seq<int64>, configHash: Hash32)
    | HExecute(responseID: Hash32, output: Bytes, responseConfig: Hash32, requestHash: Hash32,
               application: Option<Bytes>)
    | HSetConfig(newConfigHash: Hash32)

  /** The last hashed field of a compute request. */
  function LastField(r: ComputeRequest): Bytes {
    if r.version == LEGACY_VERSION then r.version else r.applicationRequestID
  }

  function ConfigFields(c: EnclaveConfig): Hashed {
    HConfig(c.signers, c.masterPublicKey, c.T, c.F)
  }

  function ComputeFields(r: ComputeRequest): Hashed {
    HCompute(r.requestID, r.publicData, r.ciphertextNames, r.ciphertexts, r.ephemeralKey, r.masterPublicKey, r.appID,
             LastField(r))
  }

  function HashedFields(sha: Sha, m: Message): Hashed {
    match m
    case List(es) => HList(es)
    case Compute(r) => ComputeFields(r)
    case Config(c) => ConfigFields(c)
    case Keys(k) => HKeys(k.publicKeys, k.creationTimes, k.ttls, sha(Encode(ConfigFields(k.config))))
    case Execute(e, v) => HExecute(e.requestID, e.output, sha(Encode(ConfigFields(e.config))), e.requestHash,
                                   if v == LEGACY_VERSION then None else Some(e.applicationRequestID))
    case SetConfig(c) => HSetConfig(sha(Encode(ConfigFields(c))))
  }

  /** The bytes hashed for a message. */
  function Preimage(sha: Sha, m: Message): Bytes {
    Encode(HashedFields(sha, m))
  }

  // --- encoding ---------------------------------------------------------------

  function EncodeEnclave(e: Enclave): Bytes {
    e.id + (EncodeBytes(e.url) + (EncodeList(EncodeBytes, e.trustedValues) + (EncodeBytes(e.kind)
    + (EncodeBytes(e.authHeader) + (EncodeBytes(e.extraData) + EncodeBytes(e.region))))))
  }

  function EncodeBody(h: Hashed): Bytes {
    match h
    case HList(es) => EncodeList(EncodeEnclave, es)
    case HCompute(id, pd, names, cts, ek, mpk, app, last) =>
      id + (EncodeBytes(pd) + (EncodeList(EncodeBytes, names) + (EncodeList(EncodeBytes, cts)
      + (EncodeBytes(ek) + (EncodeBytes(mpk) + (EncodeBytes(app) + EncodeBytes(last)))))))
    case HConfig(signers, mpk, t, f) =>
      EncodeList(EncodeBytes, signers) + (EncodeBytes(mpk) + (BigEndian(t, 4) + BigEndian(f, 4)))
    case HKeys(pks, times, ttls, c) =>
      EncodeList(EncodeBytes, pks) + (EncodeList(EncodeInt64, times) + (EncodeList(EncodeInt64, ttls) + c))
    case HExecute(_, out, c, rh, app) =>
      EncodeBytes(out) + (c + (rh + (if app.Some? then EncodeBytes(app.value) else [])))
    case HSetConfig(c) => c
  }

  function TagOf(h: Hashed): string {
    match h
    case HList(_) => ENCLAVES_LIST
    case HCompute(_, _, _, _, _, _, _, _) => COMPUTE_REQUEST
    case HConfig(_, _, _, _) => ENCLAVE_CONFIG
    case HKeys(_, _, _, _) => PUBLIC_KEY_RESPONSE
    case HExecute(_, _, _, _, _) => EXECUTE_RESPONSE
    case HSetConfig(_) => SET_CONFIG_RESPONSE
  }

  /** Every kind starts with its tag, except that an execute response puts its request ID in front. */
  function Encode(h: Hashed): Bytes {
    if h.HExecute? then h.responseID + (Tag(EXECUTE_RESPONSE) + EncodeBody(h))
    else Tag(TagOf(h)) + EncodeBody(h)
  }

  // --- decoding ---------------------------------------------------------------

  function ParseHash(s: Bytes): Parsed<Hash32> {
    if |s| < 32 then Bad else Ok(s[..32], s[32..])
  }

  function ParseUint32(s: Bytes): Parsed<uint32> {
    var (n, s) :- ParseNat(4, s);
    if n < TWO_32 then Ok(n, s) else Bad
  }

  function ParseEnclave(s: Bytes): Parsed<Enclave> {
    var (id, s) :- ParseHash(s);
    var (url, s) :- ParseBytes(s);
    var (tvs, s) :- ParseList(ParseBytes, s);
    var (kind, s) :- ParseBytes(s);
    var (auth, s) :- ParseBytes(s);
    var (extra, s) :- ParseBytes(s);
    var (region, s) :- ParseBytes(s);
    Ok(Enclave(id, url, tvs, kind, auth, extra, region), s)
  }

  function ParseCompute(s: Bytes): Parsed<Hashed> {
    var (id, s) :- ParseHash(s);
    var (pd, s) :- ParseBytes(s);
    var (names, s) :- ParseList(ParseBytes, s);
    var (cts, s) :- ParseList(ParseBytes, s);
    var (ek, s) :- ParseBytes(s);
    var (mpk, s) :- ParseBytes(s);
    var (app, s) :- ParseBytes(s);
    var (last, s) :- ParseBytes(s);
    Ok(HCompute(id, pd, names, cts, ek, mpk, app, last), s)
  }

  function ParseConfig(s: Bytes): Parsed<Hashed> {
    var (signers, s) :- ParseList(ParseBytes, s);
    var (mpk, s) :- ParseBytes(s);
    var (t, s) :- ParseUint32(s);
    var (f, s) :- ParseUint32(s);
    Ok(HConfig(signers, mpk, t, f), s)
  }

  function ParseKeys(s: Bytes): Parsed<Hashed> {
    var (pks, s) :- ParseList(ParseBytes, s);
    var (times, s) :- ParseList(ParseInt64, s);
    var (ttls, s) :- ParseList(ParseInt64, s);
    var (c, s) :- ParseHash(s);
    Ok(HKeys(pks, times, ttls, c), s)
  }

  function ParseExecute(id: Hash32, s: Bytes): Parsed<Hashed> {
    var (out, s) :- ParseBytes(s);
    var (c, s) :- ParseHash(s);
    var (rh, s) :- ParseHash(s);
    if s == [] then Ok(HExecute(id, out, c, rh, None), s)
    else
      var (app, s) :- ParseBytes(s);
      Ok(HExecute(id, out, c, rh, Some(app)), s)
  }

  function ParseEnclaves(s: Bytes): Parsed<Hashed> {
    var (es, s) :- ParseList(ParseEnclave, s);
    Ok(HList(es), s)
  }

  function ParseSetConfig(s: Bytes): Parsed<Hashed> {
    var (c, s) :- ParseHash(s);
    Ok(HSetConfig(c), s)
  }

  /** Parses the body that follows a tag. */
  function ParseTagged(s: Bytes): Parsed<Hashed> {
    if Tag(ENCLAVES_LIST) <= s then ParseEnclaves(s[|Tag(ENCLAVES_LIST)|..])
    else if Tag(COMPUTE_REQUEST) <= s then ParseCompute(s[|Tag(COMPUTE_REQUEST)|..])
    else if Tag(ENCLAVE_CONFIG) <= s then ParseConfig(s[|Tag(ENCLAVE_CONFIG)|..])
    else if Tag(PUBLIC_KEY_RESPONSE) <= s then ParseKeys(s[|Tag(PUBLIC_KEY_RESPONSE)|..])
    else if Tag(SET_CONFIG_RESPONSE) <= s then ParseSetConfig(s[|Tag(SET_CONFIG_RESPONSE)|..])
    else if |s| >= 32 && Tag(EXECUTE_RESPONSE) <= s[32..]
    then ParseExecute(s[..32], s[32..][|Tag(EXECUTE_RESPONSE)|..])
    else Bad
  }

  /** The decoder: which kind a preimage is of, and every hashed field. */
  function Decode(s: Bytes): Option<Hashed> {
    var r := ParseTagged(s);
    if r.Ok? && r.rest == [] then Some(r.value) else None
  }
}

/** The hash methods of types/types.go, writing to the hasher field by field. */
module PreimageWriters {
  import opened Bytes
  import opened Encoding
  import opened Preimages

  method WriteTag(h: Bytes, name: string) returns (r: Bytes)
    ensures r == h + Tag(name)
  {
    r := h + DOMAIN;
    r := r + Ascii(name);
  }

  method StartTag(name: string) returns (r: Bytes)
    ensures r == Tag(name)
  {
    r := WriteTag([], name);
    assert [] + Tag(name) == Tag(name);
  }

  /** `EnclavesList.Hash`, up to the final digest. */
  method WriteEnclavesList(es: seq<Enclave>) returns (r: Bytes)
    ensures r == Encode(HList(es))
  {
    var h := StartTag(ENCLAVES_LIST);
    r := WriteEnclaves(h, es);
  }

  method WriteEnclaves(h: Bytes, es: seq<Enclave>) returns (r: Bytes)
    ensures r == h + EncodeList(EncodeEnclave, es)
  {
    r := h + BigEndian(|es|, 8);
    var i := 0;
    while i < |es|
      invariant 0 <= i <= |es|
      invariant r == h + BigEndian(|es|, 8) + EncodeItems(EncodeEnclave, es[..i])
    {
      EncodeItemsAppend(EncodeEnclave, es[..i], es[i]);
      assert es[..i + 1] == es[..i] + [es[i]];
      Flatten3(h + BigEndian(|es|, 8), EncodeItems(EncodeEnclave, es[..i]), EncodeEnclave(es[i]));
      r := WriteEnclave(r, es[i]);
      i := i + 1;
    }
    assert es[..i] == es;
    Flatten3(h, BigEndian(|es|, 8), EncodeItems(EncodeEnclave, es));
  }

  method WriteEnclave(h: Bytes, e: Enclave) returns (r: Bytes)
    ensures r == h + EncodeEnclave(e)
  {
    r := h + e.id;
    r := WriteWithLength(r, e.url);
    r := WriteList(r, e.trustedValues);
    r := WriteWithLength(r, e.kind);
    r := WriteWithLength(r, e.authHeader);
    r := WriteWithLength(r, e.extraData);
    r := WriteWithLength(r, e.region);
    Flatten8(h, e.id, EncodeBytes(e.url), EncodeList(EncodeBytes, e.trustedValues), EncodeBytes(e.kind),
             EncodeBytes(e.authHeader), EncodeBytes(e.extraData), EncodeBytes(e.region));
  }

  /** `ComputeRequest.Hash`. */
  method WriteComputeRequest(cr: ComputeRequest) returns (r: Bytes)
    ensures r == Encode(ComputeFields(cr))
  {
    var h := StartTag(COMPUTE_REQUEST);
    r := WriteComputeFields(h, cr);
  }

  method WriteComputeFields(h: Bytes, cr: ComputeRequest) returns (r: Bytes)
    ensures r == h + EncodeBody(ComputeFields(cr))
  {
    r := h + cr.requestID;
    r := WriteWithLength(r, cr.publicData);
    r := WriteList(r, cr.ciphertextNames);
    r := WriteList(r, cr.ciphertexts);
    r := WriteWithLength(r, cr.ephemeralKey);
    r := WriteWithLength(r, cr.masterPublicKey);
    r := WriteWithLength(r, cr.appID);
    if cr.version == LEGACY_VERSION {
      r := WriteWithLength(r, cr.version);
    } else {
      r := WriteWithLength(r, cr.applicationRequestID);
    }
    Flatten8(h + cr.requestID, EncodeBytes(cr.publicData), EncodeList(EncodeBytes, cr.ciphertextNames),
             EncodeList(EncodeBytes, cr.ciphertexts), EncodeBytes(cr.ephemeralKey), EncodeBytes(cr.masterPublicKey),
             EncodeBytes(cr.appID), EncodeBytes(LastField(cr)));
    Flatten3(h, cr.requestID, EncodeBytes(cr.publicData) + (EncodeList(EncodeBytes, cr.ciphertextNames)
             + (EncodeList(EncodeBytes, cr.ciphertexts) + (EncodeBytes(cr.ephemeralKey)
             + (EncodeBytes(cr.masterPublicKey) + (EncodeBytes(cr.appID) + EncodeBytes(LastField(cr))))))));
  }

  /** `EnclaveConfig.Hash`. */
  method WriteConfig(c: EnclaveConfig) returns (r: Bytes)
    ensures r == Encode(ConfigFields(c))
  {
    var h := StartTag(ENCLAVE_CONFIG);
    r := WriteConfigFields(h, c);
  }

  method WriteConfigFields(h: Bytes, c: EnclaveConfig) returns (r: Bytes)
    ensures r == h + EncodeBody(ConfigFields(c))
  {
    r := WriteList(h, c.signers);
    r := WriteWithLength(r, c.masterPublicKey);
    r := r + BigEndian(c.T, 4);
    r := r + BigEndian(c.F, 4);
    Flatten5(h, EncodeList(EncodeBytes, c.signers), EncodeBytes(c.masterPublicKey), BigEndian(c.T, 4),
             BigEndian(c.F, 4));
  }

  /** `PublicKeyResponse.PublicKeyHash`. */
  method WriteKeys(sha: Sha, k: PublicKeyResponse) returns (r: Bytes)
    ensures r == Preimage(sha, Keys(k))
  {
    var h := StartTag(PUBLIC_KEY_RESPONSE);
    var c := WriteConfig(k.config);
    r := WriteKeyFields(h, k, sha(c));
  }

  method WriteKeyFields(h: Bytes, k: PublicKeyResponse, configHash: Hash32) returns (r: Bytes)
    ensures r == h + EncodeBody(HKeys(k.publicKeys, k.creationTimes, k.ttls, configHash))
  {
    r := WriteList(h, k.publicKeys);
    r := WriteInt64s(r, k.creationTimes);
    r := WriteInt64s(r, k.ttls);
    r := r + configHash;
    Flatten5(h, EncodeList(EncodeBytes, k.publicKeys), EncodeList(EncodeInt64, k.creationTimes),
             EncodeList(EncodeInt64, k.ttls), configHash);
  }

  /** `ExecuteResponse.UserDataHash`. */
  method WriteExecute(sha: Sha, e: ExecuteResponse, requestVersion: Bytes) returns (r: Bytes)
    ensures r == Preimage(sha, Execute(e, requestVersion))
  {
    var h := WriteTag(e.requestID, EXECUTE_RESPONSE);
    r := WriteExecuteFields(sha, h, e, requestVersion);
    Flatten3(e.requestID, Tag(EXECUTE_RESPONSE), EncodeBody(HashedFields(sha, Execute(e, requestVersion))));
  }

  method WriteExecuteFields(sha: Sha, h: Bytes, e: ExecuteResponse, requestVersion: Bytes) returns (r: Bytes)
    ensures r == h + EncodeBody(HashedFields(sha, Execute(e, requestVersion)))
  {
    r := WriteWithLength(h, e.output);
    var c := WriteConfig(e.config);
    r := r + sha(c);
    r := r + e.requestHash;
    ghost var last := if requestVersion != LEGACY_VERSION then EncodeBytes(e.applicationRequestID) else [];
    if requestVersion != LEGACY_VERSION {
      r := WriteWithLength(r, e.applicationRequestID);
    }
    assert r == h + EncodeBytes(e.output) + sha(c) + e.requestHash + last;
    Flatten5(h, EncodeBytes(e.output), sha(c), e.requestHash, last);
  }

  /** `SetConfigResponse.UserDataHash`. */
  method WriteSetConfig(sha: Sha, config: EnclaveConfig) returns (r: Bytes)
    ensures r == Preimage(sha, SetConfig(config))
  {
    var h := StartTag(SET_CONFIG_RESPONSE);
    var c := WriteConfig(config);
    r := h + sha(c);
  }
}
