/**
 The relay quorum: the enclave's vote over the responses a gateway collected. Signatures are
 checked against the hash a node signed, and responses agree when their group hashes are equal.
 */
module Relay {
  import opened Bytes
  import opened Crypto
  import opened Encoding
  import opened Preimages

  datatype RelayEntry = RelayEntry(sigHash: Bytes, groupHash: Bytes, signature: Bytes, idx: nat)

  /** The signature check of one deployment: the verifier and the payload it is given. */
  datatype Checker = Checker(ed25519: Ed25519, payload: Bytes -> Bytes)

  /** Which configured signer's valid signature an entry carries, if any. */
  type Signing = RelayEntry -> Option<Bytes>

  function SigningUnder(c: Checker, allowed: seq<Bytes>): Signing {
    (e: RelayEntry) => VerifySignature(c.ed25519, c.payload(e.sigHash), e.signature, allowed)
  }

  // --- the specification: what the votes are and which group wins -------------------------

  /** The entry carries a valid signature for the group. */
  predicate Counts(signing: Signing, e: RelayEntry, group: Bytes) {
    e.groupHash == group && signing(e).Some?
  }

  /** The pairs of group and signer among the entries with a valid signature. */
  function Votes(signing: Signing, entries: seq<RelayEntry>): set<(Bytes, Bytes)> {
    set i | 0 <= i < |entries| && signing(entries[i]).Some? :: (entries[i].groupHash, signing(entries[i]).value)
  }

  /** The fingerprints of the signers of a group. */
  function Tally(votes: set<(Bytes, Bytes)>, group: Bytes): set<Digest> {
    set v | v in votes && v.0 == group :: Sha256(v.1)
  }

  predicate Qualifies(votes: set<(Bytes, Bytes)>, required: nat, group: Bytes) {
    |Tally(votes, group)| >= required
  }

  /** More signers, then the lexicographically smaller hash. */
  predicate Beats(votes: set<(Bytes, Bytes)>, a: Bytes, b: Bytes) {
    || |Tally(votes, a)| > |Tally(votes, b)|
    || (|Tally(votes, a)| == |Tally(votes, b)| && Less(a, b))
  }

  ghost predicate Wins(votes: set<(Bytes, Bytes)>, required: nat, group: Bytes) {
    Qualifies(votes, required, group) && forall g :: g != group && Qualifies(votes, required, g) ==>
      Beats(votes, group, g)
  }

  /** Entry `i` is valid and the first valid one of its group. */
  predicate FirstOfGroup(signing: Signing, entries: seq<RelayEntry>, i: nat)
    requires i < |entries|
  {
    && signing(entries[i]).Some?
    && forall j :: 0 <= j < i ==> !Counts(signing, entries[j], entries[i].groupHash)
  }

  ghost predicate HasFirst(signing: Signing, entries: seq<RelayEntry>, group: Bytes, idx: nat) {
    exists i :: 0 <= i < |entries| && entries[i].idx == idx && entries[i].groupHash == group
      && FirstOfGroup(signing, entries, i)
  }

  /** `idx` is the index of the first valid entry of the winning group. */
  ghost predicate Selects(signing: Signing, entries: seq<RelayEntry>, required: nat, idx: nat, group: Bytes) {
    Wins(Votes(signing, entries), required, group) && HasFirst(signing, entries, group, idx)
  }

  // --- the code: grouping -----------------------------------------------------------------

  predicate NoneCounts(signing: Signing, entries: seq<RelayEntry>, group: Bytes) {
    forall j :: 0 <= j < |entries| ==> !Counts(signing, entries[j], group)
  }

  /** Both maps describe the entries: the tally of each group that has a vote, and its first valid index. */
  ghost predicate Grouped(signing: Signing, entries: seq<RelayEntry>, sets: map<Bytes, set<Digest>>,
                          first: map<Bytes, nat>)
  {
    && sets.Keys == first.Keys
    && (forall g :: g in sets ==>
          sets[g] == Tally(Votes(signing, entries), g) && HasFirst(signing, entries, g, first[g]))
    && (forall g :: g !in sets ==> NoneCounts(signing, entries, g))
  }

  /** Grouping: the signers of each group and the first index that contributed to it. */
  method Collect(signing: Signing, entries: seq<RelayEntry>)
    returns (signersByHash: map<Bytes, set<Digest>>, firstIdxByHash: map<Bytes, nat>)
    ensures Grouped(signing, entries, signersByHash, firstIdxByHash)
  {
    signersByHash, firstIdxByHash := map[], map[];
    var i := 0;
    while i < |entries|
      invariant 0 <= i <= |entries|
      invariant Grouped(signing, entries[..i], signersByHash, firstIdxByHash)
    {
      var e := entries[i];
      assert entries[..i + 1] == entries[..i] + [e];
      GroupedStep(signing, entries[..i], e, signersByHash, firstIdxByHash);
      var signer := signing(e);
      if signer.Some? {
        if e.groupHash !in signersByHash {
          signersByHash := signersByHash[e.groupHash := {}];
          firstIdxByHash := firstIdxByHash[e.groupHash := e.idx];
        }
        signersByHash := signersByHash[e.groupHash := signersByHash[e.groupHash] + {Sha256(signer.value)}];
      }
      i := i + 1;
    }
    assert entries[..i] == entries;
  }

  lemma VotesStep(signing: Signing, entries: seq<RelayEntry>, e: RelayEntry)
    ensures Votes(signing, entries + [e]) ==
            Votes(signing, entries) + if signing(e).Some? then {(e.groupHash, signing(e).value)} else {}
  {
    var all := entries + [e];
    assert all[|entries|] == e;
    forall v | v in Votes(signing, entries) ensures v in Votes(signing, all) {
      var i :| 0 <= i < |entries| && signing(entries[i]).Some?
        && v == (entries[i].groupHash, signing(entries[i]).value);
      assert all[i] == entries[i];
    }
    forall v | v in Votes(signing, all) && v !in Votes(signing, entries)
      ensures signing(e).Some? && v == (e.groupHash, signing(e).value)
    {
      var i :| 0 <= i < |all| && signing(all[i]).Some? && v == (all[i].groupHash, signing(all[i]).value);
    }
  }

  lemma TallyStep(signing: Signing, entries: seq<RelayEntry>, e: RelayEntry, g: Bytes)
    ensures Tally(Votes(signing, entries + [e]), g) ==
            Tally(Votes(signing, entries), g) + if Counts(signing, e, g) then {Sha256(signing(e).value)} else {}
  {
    VotesStep(signing, entries, e);
  }

  lemma NoneCountsNoTally(signing: Signing, entries: seq<RelayEntry>, group: Bytes)
    requires NoneCounts(signing, entries, group)
    ensures Tally(Votes(signing, entries), group) == {}
  {
    forall v | v in Votes(signing, entries) ensures v.0 != group {
      var i :| 0 <= i < |entries| && signing(entries[i]).Some?
        && v == (entries[i].groupHash, signing(entries[i]).value);
      assert !Counts(signing, entries[i], group);
    }
  }

  lemma FirstStays(signing: Signing, entries: seq<RelayEntry>, e: RelayEntry, g: Bytes, idx: nat)
    requires HasFirst(signing, entries, g, idx)
    ensures HasFirst(signing, entries + [e], g, idx)
  {
    var i :| 0 <= i < |entries| && entries[i].idx == idx && entries[i].groupHash == g
      && FirstOfGroup(signing, entries, i);
    assert FirstOfGroup(signing, entries + [e], i);
  }

  lemma FirstAppears(signing: Signing, entries: seq<RelayEntry>, e: RelayEntry)
    requires NoneCounts(signing, entries, e.groupHash) && signing(e).Some?
    ensures HasFirst(signing, entries + [e], e.groupHash, e.idx)
  {
    assert FirstOfGroup(signing, entries + [e], |entries|);
  }

  /** The maps after one more entry. */
  function SetsWith(signing: Signing, e: RelayEntry, sets: map<Bytes, set<Digest>>): map<Bytes, set<Digest>> {
    if signing(e).None? then sets
    else sets[e.groupHash := (if e.groupHash in sets then sets[e.groupHash] else {}) + {Sha256(signing(e).value)}]
  }

  function FirstWith(signing: Signing, e: RelayEntry, first: map<Bytes, nat>): map<Bytes, nat> {
    if signing(e).None? || e.groupHash in first then first else first[e.groupHash := e.idx]
  }

  lemma GroupedStep(signing: Signing, entries: seq<RelayEntry>, e: RelayEntry, sets: map<Bytes, set<Digest>>,
                    first: map<Bytes, nat>)
    requires Grouped(signing, entries, sets, first)
    ensures Grouped(signing, entries + [e], SetsWith(signing, e, sets), FirstWith(signing, e, first))
  {
    var sets', first' := SetsWith(signing, e, sets), FirstWith(signing, e, first);
    forall g | g in sets'
      ensures sets'[g] == Tally(Votes(signing, entries + [e]), g) && HasFirst(signing, entries + [e], g, first'[g])
    {
      TallyStep(signing, entries, e, g);
      if g in sets {
        FirstStays(signing, entries, e, g, first[g]);
      } else {
        NoneCountsNoTally(signing, entries, g);
        FirstAppears(signing, entries, e);
      }
    }
    forall g | g !in sets' ensures NoneCounts(signing, entries + [e], g) {
      assert NoneCounts(signing, entries, g);
    }
  }

  // --- the code: picking the winner ---------------------------------------------------------

  /** The groups that reached the quorum, in whatever order the map is walked. */
  method Winners(signersByHash: map<Bytes, set<Digest>>, required: nat) returns (winners: seq<Bytes>)
    ensures forall g :: g in winners <==> g in signersByHash && |signersByHash[g]| >= required
  {
    winners := [];
    var rest := signersByHash.Keys;
    while rest != {}
      invariant rest <= signersByHash.Keys
      invariant forall g :: g in winners <==> g in signersByHash && g !in rest && |signersByHash[g]| >= required
      decreases |rest|
    {
      var h :| h in rest;
      rest := rest - {h};
      if |signersByHash[h]| >= required {
        winners := winners + [h];
      }
    }
  }

  /** The comparison the winners are sorted by. */
  predicate Before(signersByHash: map<Bytes, set<Digest>>, a: Bytes, b: Bytes)
    requires a in signersByHash && b in signersByHash
  {
    if |signersByHash[a]| != |signersByHash[b]| then |signersByHash[a]| > |signersByHash[b]| else Less(a, b)
  }

  /** The first of the winners once they are sorted. */
  method Foremost(signersByHash: map<Bytes, set<Digest>>, winners: seq<Bytes>) returns (best: Bytes)
    requires winners != [] && forall g :: g in winners ==> g in signersByHash
    ensures best in winners
    ensures forall g :: g in winners ==> |signersByHash[g]| <= |signersByHash[best]|
    ensures forall g :: g in winners && g != best && |signersByHash[g]| == |signersByHash[best]| ==> Less(best, g)
    ensures forall g :: g in winners && g != best ==> Before(signersByHash, best, g)
  {
    best := winners[0];
    var i := 1;
    while i < |winners|
      invariant 1 <= i <= |winners|
      invariant best in winners[..i]
      invariant forall g :: g in winners[..i] && g != best ==> Before(signersByHash, best, g)
    {
      var w := winners[i];
      assert winners[..i + 1] == winners[..i] + [w];
      if w != best {
        BeforeTotal(signersByHash, w, best);
        if Before(signersByHash, w, best) {
          forall g | g in winners[..i] && g != w ensures Before(signersByHash, w, g) {
            if g != best {
              BeforeTransitive(signersByHash, w, best, g);
            }
          }
          best := w;
        }
      }
      i := i + 1;
    }
    assert winners[..i] == winners;
  }

  lemma BeforeTotal(m: map<Bytes, set<Digest>>, a: Bytes, b: Bytes)
    requires a in m && b in m && a != b
    ensures Before(m, a, b) || Before(m, b, a)
  {
    LessTotal(a, b);
  }

  lemma BeforeTransitive(m: map<Bytes, set<Digest>>, a: Bytes, b: Bytes, c: Bytes)
    requires a in m && b in m && c in m && Before(m, a, b) && Before(m, b, c)
    ensures Before(m, a, c)
  {
    if |m[a]| == |m[b]| == |m[c]| {
      LessTransitive(a, b, c);
    }
  }

  datatype Selection = NoVerifier | NoSigners | NoQuorum | Chosen(idx: nat, group: Bytes)

  ghost predicate AnyQualifies(votes: set<(Bytes, Bytes)>, required: nat) {
    exists g :: Qualifies(votes, required, g)
  }

  /** `selectQuorumResult`; the chosen group is returned beside the index. */
  method SelectQuorumResult(checker: Option<Checker>, entries: seq<RelayEntry>, config: EnclaveConfig)
    returns (r: Selection)
    ensures r.NoVerifier? <==> checker.None?
    ensures r.NoSigners? <==> checker.Some? && config.signers == []
    ensures r.NoQuorum? ==> !AnyQualifies(Votes(SigningUnder(checker.value, config.signers), entries), config.F + 1)
    ensures r.Chosen? ==> Selects(SigningUnder(checker.value, config.signers), entries, config.F + 1, r.idx, r.group)
  {
    if checker.None? {
      return NoVerifier;
    }
    if |config.signers| == 0 {
      return NoSigners;
    }
    r := Select(SigningUnder(checker.value, config.signers), entries, config.F + 1);
  }

  method Select(signing: Signing, entries: seq<RelayEntry>, required: nat) returns (r: Selection)
    requires required > 0
    ensures r.NoQuorum? || r.Chosen?
    ensures r.NoQuorum? ==> !AnyQualifies(Votes(signing, entries), required)
    ensures r.Chosen? ==> Selects(signing, entries, required, r.idx, r.group)
  {
    var signersByHash, firstIdxByHash := Collect(signing, entries);
    ghost var votes := Votes(signing, entries);
    forall g | g !in signersByHash ensures Tally(votes, g) == {} {
      NoneCountsNoTally(signing, entries, g);
    }
    var winners := Winners(signersByHash, required);
    assert forall g :: Qualifies(votes, required, g) <==> g in winners;
    if |winners| == 0 {
      return NoQuorum;
    }
    var best := Foremost(signersByHash, winners);
    forall g | g != best && Qualifies(votes, required, g) ensures Beats(votes, best, g) {
      assert g in winners;
    }
    return Chosen(firstIdxByHash[best], best);
  }

  // --- the bundle ---------------------------------------------------------------------------

  /** What canonicalizing a result gave: a failure, the same payload, or another one with its hash if it has one. */
  datatype Canonical = CanonicalFailed | Unchanged | Changed(hash: Option<Bytes>)

  /** One per-node response: the hash of its result, if it can be hashed, and the node's signature. */
  datatype RelayResponse = RelayResponse(hash: Option<Bytes>, canonical: Canonical, signature: Bytes)

  function GroupHash(r: RelayResponse): Bytes
    requires r.hash.Some?
  {
    if r.canonical.Changed? && r.canonical.hash.Some? then r.canonical.hash.value else r.hash.value
  }

  function EntryAt(bundle: seq<RelayResponse>, i: nat): RelayEntry
    requires i < |bundle| && bundle[i].hash.Some?
  {
    RelayEntry(bundle[i].hash.value, GroupHash(bundle[i]), bundle[i].signature, i)
  }

  /** The entries are those of the hashable responses of the bundle, in its order. */
  ghost predicate EntriesOf(bundle: seq<RelayResponse>, entries: seq<RelayEntry>) {
    && (forall k :: 0 <= k < |entries| ==>
          entries[k].idx < |bundle| && bundle[entries[k].idx].hash.Some?
            && entries[k] == EntryAt(bundle, entries[k].idx))
    && (forall j, k :: 0 <= j < k < |entries| ==> entries[j].idx < entries[k].idx)
    && (forall i :: 0 <= i < |bundle| && bundle[i].hash.Some? ==> EntryAt(bundle, i) in entries)
  }

  /**
   What an entry of the bundle carries: its own index and signature, the hash its node signed, and as
   group the hash of the canonical result where canonicalizing changed the result and it can be hashed,
   and otherwise the hash the node signed.
   */
  lemma EntryCarries(bundle: seq<RelayResponse>, entries: seq<RelayEntry>, k: nat)
    requires EntriesOf(bundle, entries) && k < |entries|
    ensures var e := entries[k];
            && e.idx < |bundle| && bundle[e.idx].hash == Some(e.sigHash) && bundle[e.idx].signature == e.signature
            && (forall h :: bundle[e.idx].canonical == Changed(Some(h)) ==> e.groupHash == h)
            && (bundle[e.idx].canonical in {CanonicalFailed, Unchanged, Changed(None)} ==> e.groupHash == e.sigHash)
  {
  }

  /** `capabilityEntries`; the second result holds the indices of the responses left out. */
  method CapabilityEntries(bundle: seq<RelayResponse>) returns (entries: seq<RelayEntry>, skipped: seq<nat>)
    ensures EntriesOf(bundle, entries)
    ensures |entries| + |skipped| == |bundle|
    ensures forall i :: i in skipped ==> i < |bundle| && bundle[i].hash.None?
  {
    entries, skipped := [], [];
    var i := 0;
    while i < |bundle|
      invariant 0 <= i <= |bundle|
      invariant EntriesOf(bundle[..i], entries)
      invariant |entries| + |skipped| == i
      invariant forall j :: j in skipped ==> j < i && bundle[j].hash.None?
    {
      var r := bundle[i];
      EntriesStep(bundle, entries, i);
      if r.hash.None? {
        skipped := skipped + [i];
      } else {
        var groupHash := r.hash.value;
        match r.canonical {
          case CanonicalFailed =>
          case Unchanged =>
          case Changed(h) =>
            if h.Some? {
              groupHash := h.value;
            }
        }
        entries := entries + [RelayEntry(r.hash.value, groupHash, r.signature, i)];
      }
      i := i + 1;
    }
    assert bundle[..i] == bundle;
  }

  /** `secretsEntries`: a secrets result has no canonical form, so it is grouped by the hash the node signed. */
  method SecretsEntries(bundle: seq<RelayResponse>) returns (entries: seq<RelayEntry>, skipped: seq<nat>)
    requires forall i :: 0 <= i < |bundle| ==> bundle[i].canonical.Unchanged?
    ensures EntriesOf(bundle, entries)
    ensures forall e :: e in entries ==> e.sigHash == e.groupHash
    ensures |entries| + |skipped| == |bundle|
    ensures forall i :: i in skipped ==> i < |bundle| && bundle[i].hash.None?
  {
    entries, skipped := [], [];
    var i := 0;
    while i < |bundle|
      invariant 0 <= i <= |bundle|
      invariant EntriesOf(bundle[..i], entries)
      invariant forall e :: e in entries ==> e.sigHash == e.groupHash
      invariant |entries| + |skipped| == i
      invariant forall j :: j in skipped ==> j < i && bundle[j].hash.None?
    {
      var r := bundle[i];
      EntriesStep(bundle, entries, i);
      if r.hash.None? {
        skipped := skipped + [i];
      } else {
        entries := entries + [RelayEntry(r.hash.value, r.hash.value, r.signature, i)];
      }
      i := i + 1;
    }
    assert bundle[..i] == bundle;
  }

  lemma EntriesStep(bundle: seq<RelayResponse>, entries: seq<RelayEntry>, i: nat)
    requires i < |bundle| && EntriesOf(bundle[..i], entries)
    ensures EntriesOf(bundle[..i + 1], entries + if bundle[i].hash.Some? then [EntryAt(bundle, i)] else [])
  {
    var a, b := bundle[..i], bundle[..i + 1];
    var all := entries + if bundle[i].hash.Some? then [EntryAt(bundle, i)] else [];
    forall j | 0 <= j < |b| && b[j].hash.Some? ensures EntryAt(b, j) in all {
      if j < i {
        assert a[j] == b[j] && EntryAt(a, j) in entries;
      }
    }
  }
}

/** What the vote decides, with and without an assumption on how many signers are faulty. */
module RelayTheorems {
  import opened Bytes
  import opened Crypto
  import opened Encoding
  import opened Preimages
  import opened Relay

  lemma BeatsTotal(votes: set<(Bytes, Bytes)>, a: Bytes, b: Bytes)
    requires a != b
    ensures Beats(votes, a, b) || Beats(votes, b, a)
  {
    LessTotal(a, b);
  }

  lemma BeatsAsymmetric(votes: set<(Bytes, Bytes)>, a: Bytes, b: Bytes)
    requires Beats(votes, a, b)
    ensures !Beats(votes, b, a)
  {
    if Less(a, b) && Less(b, a) {
      LessTransitive(a, b, a);
    }
    LessIrreflexive(a);
  }

  lemma BeatsTransitive(votes: set<(Bytes, Bytes)>, a: Bytes, b: Bytes, c: Bytes)
    requires Beats(votes, a, b) && Beats(votes, b, c)
    ensures Beats(votes, a, c)
  {
    if Less(a, b) && Less(b, c) {
      LessTransitive(a, b, c);
    }
  }

  /** At most one group wins. */
  lemma WinnerUnique(votes: set<(Bytes, Bytes)>, required: nat, a: Bytes, b: Bytes)
    requires Wins(votes, required, a) && Wins(votes, required, b)
    ensures a == b
  {
    if a != b {
      BeatsAsymmetric(votes, a, b);
    }
  }

  /** The best of a non-empty set of groups. */
  lemma {:induction false} BestOf(votes: set<(Bytes, Bytes)>, groups: set<Bytes>) returns (best: Bytes)
    requires groups != {}
    ensures best in groups && forall g :: g in groups && g != best ==> Beats(votes, best, g)
  {
    var x :| x in groups;
    var rest := groups - {x};
    if rest == {} {
      assert groups == {x};
      best := x;
    } else {
      var y := BestOf(votes, rest);
      BeatsTotal(votes, x, y);
      if Beats(votes, x, y) {
        best := x;
        forall g | g in groups && g != x ensures Beats(votes, x, g) {
          if g != y {
            BeatsTransitive(votes, x, y, g);
          }
        }
      } else {
        best := y;
      }
    }
  }

  /** If some group reaches the quorum, one wins. */
  lemma WinnerExists(votes: set<(Bytes, Bytes)>, required: nat) returns (group: Bytes)
    requires required > 0 && AnyQualifies(votes, required)
    ensures Wins(votes, required, group)
  {
    var all := set v | v in votes :: v.0;
    var groups := set g | g in all && Qualifies(votes, required, g);
    forall g | Qualifies(votes, required, g) ensures g in groups {
      assert g !in all ==> Tally(votes, g) == {};
    }
    var some :| Qualifies(votes, required, some);
    assert some in groups;
    group := BestOf(votes, groups);
  }

  lemma VoteHasEntry(signing: Signing, entries: seq<RelayEntry>, group: Bytes, d: Digest) returns (i: nat)
    requires d in Tally(Votes(signing, entries), group)
    ensures i < |entries| && Counts(signing, entries[i], group) && signing(entries[i]) == Some(d.preimage)
  {
    var v :| v in Votes(signing, entries) && v.0 == group && Sha256(v.1) == d;
    i :| 0 <= i < |entries| && signing(entries[i]).Some? && v == (entries[i].groupHash, signing(entries[i]).value);
  }

  // --- the largest group ------------------------------------------------------------------

  /** Some entry of the group carries a valid signature by this key. */
  ghost predicate SignedGroup(signing: Signing, entries: seq<RelayEntry>, group: Bytes, key: Bytes) {
    exists i :: 0 <= i < |entries| && entries[i].groupHash == group && signing(entries[i]) == Some(key)
  }

  /** The keys that signed entries of a group. */
  lemma SignersOf(signing: Signing, entries: seq<RelayEntry>, group: Bytes) returns (keys: set<Bytes>)
    ensures forall k :: k in keys <==> SignedGroup(signing, entries, group, k)
    ensures |keys| == |Tally(Votes(signing, entries), group)|
  {
    var votes := Votes(signing, entries);
    keys := KeysOf(Tally(votes, group));
    forall k ensures k in keys <==> SignedGroup(signing, entries, group, k) {
      if k in keys {
        var i := VoteHasEntry(signing, entries, group, Sha256(k));
      }
      if SignedGroup(signing, entries, group, k) {
        var i :| 0 <= i < |entries| && entries[i].groupHash == group && signing(entries[i]) == Some(k);
        assert (group, k) in votes && (group, k).0 == group;
      }
    }
  }

  /**
   The chosen group has at least `required` signers and at least as many as any other group. Where
   another group has equally many, the chosen hash is the smaller one: at the first place where the
   two part it ends or has the smaller byte.
   */
  lemma ChosenHasMostSigners(signing: Signing, entries: seq<RelayEntry>, required: nat, idx: nat, group: Bytes,
                             other: Bytes, keys: set<Bytes>) returns (chosen: set<Bytes>, at: nat)
    requires Selects(signing, entries, required, idx, group) && other != group
    requires forall k :: k in keys ==> SignedGroup(signing, entries, other, k)
    ensures forall k :: k in chosen <==> SignedGroup(signing, entries, group, k)
    ensures |chosen| >= required && |chosen| >= |keys| && PartAt(group, other, at)
    ensures |chosen| == |keys| ==> at < |other| && (at == |group| || group[at] < other[at])
  {
    var votes := Votes(signing, entries);
    chosen := SignersOf(signing, entries, group);
    var all := SignersOf(signing, entries, other);
    SubsetCardinality(keys, all);
    assert Qualifies(votes, required, group);
    assert Qualifies(votes, required, other) ==> Beats(votes, group, other);
    at := PartSomewhere(group, other);
    LessIff(group, other, at);
  }

  // --- determinism ----------------------------------------------------------------------

  /** What the vote sees of an entry. */
  function Content(e: RelayEntry): (Bytes, Bytes, Bytes) {
    (e.sigHash, e.groupHash, e.signature)
  }

  /** Whether a signature is valid does not depend on where in the bundle it is. */
  ghost predicate IndexBlind(signing: Signing) {
    forall e: RelayEntry, idx: nat :: signing(e.(idx := idx)) == signing(e)
  }

  lemma SigningIsIndexBlind(c: Checker, allowed: seq<Bytes>)
    ensures IndexBlind(SigningUnder(c, allowed))
  {
  }

  ghost predicate Covers(signing: Signing, a: seq<RelayEntry>, b: seq<RelayEntry>) {
    forall i :: 0 <= i < |a| && signing(a[i]).Some? ==> exists j :: 0 <= j < |b| && Content(b[j]) == Content(a[i])
  }

  lemma CoveredVotes(signing: Signing, a: seq<RelayEntry>, b: seq<RelayEntry>)
    requires IndexBlind(signing) && Covers(signing, a, b)
    ensures Votes(signing, a) <= Votes(signing, b)
  {
    forall v | v in Votes(signing, a) ensures v in Votes(signing, b) {
      var i :| 0 <= i < |a| && signing(a[i]).Some? && v == (a[i].groupHash, signing(a[i]).value);
      var j :| 0 <= j < |b| && Content(b[j]) == Content(a[i]);
      assert b[j] == a[i].(idx := b[j].idx);
    }
  }

  lemma SameVotes(c: Checker, allowed: seq<Bytes>, a: seq<RelayEntry>, b: seq<RelayEntry>)
    requires Covers(SigningUnder(c, allowed), a, b) && Covers(SigningUnder(c, allowed), b, a)
    ensures Votes(SigningUnder(c, allowed), a) == Votes(SigningUnder(c, allowed), b)
  {
    var signing := SigningUnder(c, allowed);
    assert IndexBlind(signing) by { SigningIsIndexBlind(c, allowed); }
    CoveredVotes(signing, a, b);
    CoveredVotes(signing, b, a);
  }

  /** A group with a vote has a first valid entry. */
  lemma FirstEntry(signing: Signing, entries: seq<RelayEntry>, g: Bytes) returns (i: nat)
    requires |Tally(Votes(signing, entries), g)| > 0
    ensures i < |entries| && entries[i].groupHash == g && FirstOfGroup(signing, entries, i)
  {
    var d :| d in Tally(Votes(signing, entries), g);
    i := VoteHasEntry(signing, entries, g, d);
    while exists j :: 0 <= j < i && Counts(signing, entries[j], g)
      invariant i < |entries| && Counts(signing, entries[i], g)
      decreases i
    {
      var j :| 0 <= j < i && Counts(signing, entries[j], g);
      i := j;
    }
  }

  /** There is a group to choose, and it is `group`. */
  ghost predicate Chooses(signing: Signing, entries: seq<RelayEntry>, required: nat, group: Bytes) {
    exists idx: nat :: Selects(signing, entries, required, idx, group)
  }

  /** The winner has a first valid entry, so winning is being chosen. */
  lemma ChoosesIff(signing: Signing, entries: seq<RelayEntry>, required: nat, group: Bytes)
    requires required > 0
    ensures Chooses(signing, entries, required, group) <==> Wins(Votes(signing, entries), required, group)
  {
    if Wins(Votes(signing, entries), required, group) {
      var i := FirstEntry(signing, entries, group);
      assert HasFirst(signing, entries, group, entries[i].idx);
      assert Selects(signing, entries, required, entries[i].idx, group);
    }
  }

  /** The choice is a function of the set of valid votes: equal sets choose the same group, or none. */
  lemma SelectionDependsOnVotes(signingA: Signing, a: seq<RelayEntry>, signingB: Signing, b: seq<RelayEntry>,
                                required: nat, group: Bytes)
    requires required > 0 && Votes(signingA, a) == Votes(signingB, b)
    ensures Chooses(signingA, a, required, group) <==> Chooses(signingB, b, required, group)
  {
    ChoosesIff(signingA, a, required, group);
    ChoosesIff(signingB, b, required, group);
  }

  /**
   So bundles that contain the same valid entries, in any order, any number of times and among any
   invalid ones, both fail or choose the same group.
   */
  lemma SelectionIsDeterministic(c: Checker, config: EnclaveConfig, a: seq<RelayEntry>, b: seq<RelayEntry>,
                                 idxA: nat, groupA: Bytes, idxB: nat, groupB: Bytes)
    requires var signing := SigningUnder(c, config.signers); Covers(signing, a, b) && Covers(signing, b, a)
    ensures var signing := SigningUnder(c, config.signers);
            Chooses(signing, a, config.F + 1, groupA) <==> Chooses(signing, b, config.F + 1, groupA)
    ensures var signing := SigningUnder(c, config.signers);
            AnyQualifies(Votes(signing, a), config.F + 1) <==> AnyQualifies(Votes(signing, b), config.F + 1)
    ensures var signing := SigningUnder(c, config.signers);
            Selects(signing, a, config.F + 1, idxA, groupA) && Selects(signing, b, config.F + 1, idxB, groupB) ==>
              groupA == groupB
  {
    var signing := SigningUnder(c, config.signers);
    SameVotes(c, config.signers, a, b);
    SelectionDependsOnVotes(signing, a, signing, b, config.F + 1, groupA);
    if Selects(signing, a, config.F + 1, idxA, groupA) && Selects(signing, b, config.F + 1, idxB, groupB) {
      WinnerUnique(Votes(signing, a), config.F + 1, groupA, groupB);
    }
  }

  /** On one list of entries there is one choice, in whatever order the groups are walked. */
  lemma SelectionIsAFunction(signing: Signing, entries: seq<RelayEntry>, required: nat, idxA: nat, groupA: Bytes,
                             idxB: nat, groupB: Bytes)
    requires Selects(signing, entries, required, idxA, groupA) && Selects(signing, entries, required, idxB, groupB)
    ensures groupA == groupB && idxA == idxB
  {
    WinnerUnique(Votes(signing, entries), required, groupA, groupB);
    FirstIsUnique(signing, entries, groupA, idxA, idxB);
  }

  lemma FirstIsUnique(signing: Signing, entries: seq<RelayEntry>, group: Bytes, idxA: nat, idxB: nat)
    requires HasFirst(signing, entries, group, idxA) && HasFirst(signing, entries, group, idxB)
    ensures idxA == idxB
  {
    var i :| 0 <= i < |entries| && entries[i].idx == idxA && entries[i].groupHash == group
      && FirstOfGroup(signing, entries, i);
    var j :| 0 <= j < |entries| && entries[j].idx == idxB && entries[j].groupHash == group
      && FirstOfGroup(signing, entries, j);
    assert Counts(signing, entries[i], group) && Counts(signing, entries[j], group);
  }

  /**
   The chosen index is in the bundle, and no earlier response of the bundle carries a valid signature
   for that group.
   */
  lemma ChosenIsFirstInBundle(signing: Signing, bundle: seq<RelayResponse>, entries: seq<RelayEntry>, required: nat,
                              idx: nat, group: Bytes)
    requires EntriesOf(bundle, entries) && Selects(signing, entries, required, idx, group)
    ensures idx < |bundle| && bundle[idx].hash.Some? && Counts(signing, EntryAt(bundle, idx), group)
    ensures forall i :: 0 <= i < idx && bundle[i].hash.Some? ==> !Counts(signing, EntryAt(bundle, i), group)
  {
    var k :| 0 <= k < |entries| && entries[k].idx == idx && entries[k].groupHash == group
      && FirstOfGroup(signing, entries, k);
    forall i | 0 <= i < idx && bundle[i].hash.Some? ensures !Counts(signing, EntryAt(bundle, i), group) {
      var j :| 0 <= j < |entries| && entries[j] == EntryAt(bundle, i);
      assert j < k;
    }
  }

  // --- faulty signers -------------------------------------------------------------------

  /** Every valid signature of a signer that is not faulty is on an entry of group `g`. */
  predicate HonestAgree(signing: Signing, entries: seq<RelayEntry>, faulty: set<Bytes>, g: Bytes) {
    forall i :: 0 <= i < |entries| && signing(entries[i]).Some? && signing(entries[i]).value !in faulty ==>
      entries[i].groupHash == g
  }

  /** A group the honest signers did not sign has at most the faulty signers behind it. */
  lemma ForeignTally(signing: Signing, entries: seq<RelayEntry>, allowed: seq<Bytes>, faulty: set<Bytes>, g: Bytes,
                     other: Bytes)
    requires HonestAgree(signing, entries, faulty, g) && other != g
    requires forall e :: signing(e).Some? ==> signing(e).value in allowed
    ensures |Tally(Votes(signing, entries), other)| <= |set k | k in allowed && k in faulty|
  {
    var keys := KeysOf(Tally(Votes(signing, entries), other));
    var bad := set k | k in allowed && k in faulty;
    forall k | k in keys ensures k in bad {
      var i := VoteHasEntry(signing, entries, other, Sha256(k));
    }
    SubsetCardinality(keys, bad);
  }

  lemma SigningIsByAllowed(c: Checker, allowed: seq<Bytes>)
    ensures forall e :: SigningUnder(c, allowed)(e).Some? ==> SigningUnder(c, allowed)(e).value in allowed
  {
    forall e: RelayEntry | SigningUnder(c, allowed)(e).Some? ensures SigningUnder(c, allowed)(e).value in allowed {
      assert SigningUnder(c, allowed)(e) == VerifySignature(c.ed25519, c.payload(e.sigHash), e.signature, allowed);
    }
  }

  /**
   Safety: with at most `F` faulty configured signers, and every valid honest signature on group `g`,
   whatever is chosen is of group `g`, however the rest of the bundle looks.
   */
  lemma FaultySignersCannotWin(c: Checker, entries: seq<RelayEntry>, config: EnclaveConfig, faulty: set<Bytes>,
                               g: Bytes, idx: nat, group: Bytes)
    requires |set k | k in config.signers && k in faulty| <= config.F
    requires HonestAgree(SigningUnder(c, config.signers), entries, faulty, g)
    requires Selects(SigningUnder(c, config.signers), entries, config.F + 1, idx, group)
    ensures group == g
  {
    var signing := SigningUnder(c, config.signers);
    if group != g {
      SigningIsByAllowed(c, config.signers);
      ForeignTally(signing, entries, config.signers, faulty, g, group);
    }
  }

  /** Liveness: if more than `F` different honest signers signed results of group `g`, that group is chosen. */
  lemma HonestQuorumIsSelected(c: Checker, entries: seq<RelayEntry>, config: EnclaveConfig, faulty: set<Bytes>,
                               g: Bytes, honest: set<Bytes>) returns (idx: nat)
    requires |set k | k in config.signers && k in faulty| <= config.F
    requires HonestAgree(SigningUnder(c, config.signers), entries, faulty, g)
    requires |honest| >= config.F + 1
    requires forall k :: k in honest ==> (g, k) in Votes(SigningUnder(c, config.signers), entries)
    ensures Selects(SigningUnder(c, config.signers), entries, config.F + 1, idx, g)
  {
    var signing := SigningUnder(c, config.signers);
    var votes := Votes(signing, entries);
    HonestTally(votes, g, honest);
    assert Qualifies(votes, config.F + 1, g);
    var w := WinnerExists(votes, config.F + 1);
    var i := FirstEntry(signing, entries, w);
    idx := entries[i].idx;
    FaultySignersCannotWin(c, entries, config, faulty, g, idx, w);
  }

  lemma HonestTally(votes: set<(Bytes, Bytes)>, g: Bytes, honest: set<Bytes>)
    requires forall k :: k in honest ==> (g, k) in votes
    ensures |Tally(votes, g)| >= |honest|
  {
    var keys := KeysOf(Tally(votes, g));
    forall k | k in honest ensures k in keys {
      assert (g, k) in votes && (g, k).0 == g;
    }
    SubsetCardinality(honest, keys);
  }
}
