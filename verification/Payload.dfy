/**
 The payload that is signed: the domain separation of section 4.4.3 of RFC 8446 with the
 library's own context string, then the caller's separator and the message, which is
 replaced by its digest when it is longer than 1024 bytes.
 */
module Payload {
  import opened Bytes
  import opened Encoding
  import opened Preimages

  const CONTEXT := Ascii("ragep2p arbitrary message signing")
  const SHORT_MESSAGE_MAX := 1024
  const COMPUTE_PREFIX := Ascii("CONFIDENTIAL_COMPUTE_PAYLOAD_")
  const CONFIG_UPDATE_PREFIX := Ascii("CONFIDENTIAL_COMPUTE_CONFIG_UPDATE_")

  /** `n` bytes of 0x20. */
  function Spaces(n: nat): Bytes {
    if n == 0 then [] else Spaces(n - 1) + [0x20]
  }

  function Header(): Bytes {
    Spaces(64) + CONTEXT + [0]
  }

  function MessagePart(sha: Sha, message: Bytes): Bytes {
    if |message| <= SHORT_MESSAGE_MAX then [0] + EncodeBytes(message) else [1] + sha(message)
  }

  function SignedPayload(sha: Sha, separator: Bytes, message: Bytes): Bytes {
    Header() + (EncodeBytes(separator) + MessagePart(sha, message))
  }

  /** `MakePeerIDSignatureDomainSeparatedPayload`. */
  method MakePayload(sha: Sha, separator: Bytes, message: Bytes) returns (payload: Bytes)
    ensures payload == SignedPayload(sha, separator, message)
  {
    payload := [];
    var i := 0;
    while i < 64
      invariant 0 <= i <= 64
      invariant payload == Spaces(i)
    {
      payload := payload + [0x20];
      i := i + 1;
    }
    payload := payload + CONTEXT;
    payload := payload + [0];
    assert payload == Header();
    payload := payload + BigEndian(|separator|, 8);
    payload := payload + separator;
    ghost var head := payload;
    Flatten3(Header(), BigEndian(|separator|, 8), separator);
    if |message| <= SHORT_MESSAGE_MAX {
      payload := payload + [0];
      payload := payload + BigEndian(|message|, 8);
      payload := payload + message;
      Flatten3(head + [0], BigEndian(|message|, 8), message);
      Flatten3(head, [0], EncodeBytes(message));
    } else {
      payload := payload + [1];
      payload := payload + sha(message);
      Flatten3(head, [1], sha(message));
    }
    Flatten3(Header(), EncodeBytes(separator), MessagePart(sha, message));
  }

  /** What a verifier of the payload can read back: the separator, and the message or its digest. */
  datatype Signed = Short(separator: Bytes, message: Bytes) | Long(separator: Bytes, digest: Hash32)

  function Content(sha: Sha, separator: Bytes, message: Bytes): Signed {
    if |message| <= SHORT_MESSAGE_MAX then Short(separator, message) else Long(separator, sha(message))
  }

  function ParsePayload(s: Bytes): Parsed<Signed> {
    var (ok, s) :- ParseLiteral(Header(), s);
    var (separator, s) :- ParseBytes(s);
    var (kind, s) :- ParseFixed(1, s);
    if kind == [0] then
      var (message, s) :- ParseBytes(s);
      Ok(Short(separator, message), s)
    else
      var (digest, s) :- ParseHash(s);
      Ok(Long(separator, digest), s)
  }

  lemma PayloadRoundTrip(sha: Sha, separator: Bytes, message: Bytes)
    requires |separator| < TWO_64
    ensures ParsePayload(SignedPayload(sha, separator, message)) == Ok(Content(sha, separator, message), [])
  {
    var part := MessagePart(sha, message);
    FixedRoundTrip(Header(), EncodeBytes(separator) + part);
    BytesRoundTrip(separator, part);
    if |message| <= SHORT_MESSAGE_MAX {
      FixedRoundTrip([0], EncodeBytes(message));
      BytesRoundTrip(message, []);
      assert EncodeBytes(message) + [] == EncodeBytes(message);
    } else {
      FixedRoundTrip([1], sha(message));
      FixedRoundTrip(sha(message), []);
      assert sha(message) + [] == sha(message);
    }
  }

  /**
   The payload determines the separator and a message of up to 1024 bytes; longer messages with
   one payload are equal or collide under SHA-256; and a short message is never taken for a long one.
   */
  lemma PayloadInjective(sha: Sha, sepA: Bytes, msgA: Bytes, sepB: Bytes, msgB: Bytes)
    requires |sepA| < TWO_64 && |sepB| < TWO_64
    requires SignedPayload(sha, sepA, msgA) == SignedPayload(sha, sepB, msgB)
    ensures sepA == sepB
    ensures |msgA| <= SHORT_MESSAGE_MAX <==> |msgB| <= SHORT_MESSAGE_MAX
    ensures msgA == msgB || (|msgA| > SHORT_MESSAGE_MAX && sha(msgA) == sha(msgB))
  {
    PayloadRoundTrip(sha, sepA, msgA);
    PayloadRoundTrip(sha, sepB, msgB);
  }

  /** A signed config vote is never a signed compute request, whatever they say. */
  lemma VoteIsNotRequest(sha: Sha, vote: Bytes, request: Bytes)
    ensures SignedPayload(sha, CONFIG_UPDATE_PREFIX, vote) != SignedPayload(sha, COMPUTE_PREFIX, request)
  {
    assert |COMPUTE_PREFIX| != |CONFIG_UPDATE_PREFIX|;
    PayloadRoundTrip(sha, CONFIG_UPDATE_PREFIX, vote);
    PayloadRoundTrip(sha, COMPUTE_PREFIX, request);
  }
}
