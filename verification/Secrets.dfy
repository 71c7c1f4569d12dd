/**
 `orderRelaySecrets`: a relay's secret entries checked against the requested identifiers and put in
 request order.
 */
module RelaySecrets {
  import opened Bytes

  datatype SecretIdentifier = SecretIdentifier(namespace: string, key: string)

  datatype SecretEntry = SecretEntry(id: SecretIdentifier, ciphertext: Bytes, encryptedShares: seq<Bytes>)

  /** `entry` is missing when the relay omitted the secret. */
  datatype OrderedSecret = OrderedSecret(id: SecretIdentifier, entry: Option<SecretEntry>)

  datatype Outcome = Unexpected(index: nat) | Duplicate(index: nat) | Ordered(secrets: seq<OrderedSecret>)

  /** The requested identifiers, each where it is first asked for. */
  function FirstRequests(requested: seq<SecretIdentifier>): seq<SecretIdentifier> {
    if requested == [] then []
    else
      var before, last := FirstRequests(requested[..|requested| - 1]), requested[|requested| - 1];
      if last in before then before else before + [last]
  }

  predicate Has(got: seq<SecretEntry>, id: SecretIdentifier) {
    exists i :: 0 <= i < |got| && got[i].id == id
  }

  /** Entry `i` was asked for and is not a repetition. */
  predicate Acceptable(requested: seq<SecretIdentifier>, got: seq<SecretEntry>, i: nat)
    requires i < |got|
  {
    got[i].id in requested && !Has(got[..i], got[i].id)
  }

  /** Every entry was asked for, and none twice. */
  predicate AllAcceptable(requested: seq<SecretIdentifier>, got: seq<SecretEntry>) {
    forall i :: 0 <= i < |got| ==> Acceptable(requested, got, i)
  }

  function Find(got: seq<SecretEntry>, id: SecretIdentifier): (r: Option<SecretEntry>)
    ensures r.Some? <==> Has(got, id)
    ensures r.Some? ==> r.value in got && r.value.id == id
  {
    if got == [] then None
    else
      var n := |got| - 1;
      assert forall i :: 0 <= i < n ==> got[..n][i] == got[i];
      if got[n].id == id then Some(got[n]) else Find(got[..n], id)
  }

  function Aligned(order: seq<SecretIdentifier>, got: seq<SecretEntry>): (r: seq<OrderedSecret>)
    ensures |r| == |order| && forall i :: 0 <= i < |order| ==> r[i] == OrderedSecret(order[i], Find(got, order[i]))
  {
    seq(|order|, i requires 0 <= i < |order| => OrderedSecret(order[i], Find(got, order[i])))
  }

  /** The map of entries by identifier. */
  function Index(got: seq<SecretEntry>): (m: map<SecretIdentifier, SecretEntry>)
    ensures forall id :: id in m <==> Has(got, id)
    ensures forall id :: id in m ==> Find(got, id) == Some(m[id])
  {
    if got == [] then map[]
    else
      var n := |got| - 1;
      assert forall i :: 0 <= i < n ==> got[..n][i] == got[i];
      assert forall id :: Has(got, id) <==> Has(got[..n], id) || got[n].id == id;
      Index(got[..n])[got[n].id := got[n]]
  }

  method OrderRelaySecrets(requested: seq<SecretIdentifier>, got: seq<SecretEntry>) returns (r: Outcome)
    ensures r.Ordered? <==> AllAcceptable(requested, got)
    ensures r.Ordered? ==> r.secrets == Aligned(FirstRequests(requested), got)
    ensures !r.Ordered? ==>
              r.index < |got| && AllAcceptable(requested, got[..r.index]) && !Acceptable(requested, got, r.index)
    ensures r.Unexpected? ==> got[r.index].id !in requested
    ensures r.Duplicate? ==> got[r.index].id in requested
  {
    var want, order := CollectRequests(requested);
    var byID: map<SecretIdentifier, SecretEntry> := map[];
    var i := 0;
    while i < |got|
      invariant 0 <= i <= |got|
      invariant AllAcceptable(requested, got[..i])
      invariant byID == Index(got[..i])
    {
      assert Acceptable(requested, got, i) <==> got[i].id in want && got[i].id !in byID;
      if got[i].id !in want {
        return Unexpected(i);
      }
      if got[i].id in byID {
        return Duplicate(i);
      }
      AcceptableStep(requested, got, i);
      assert got[..i + 1][..i] == got[..i];
      byID := byID[got[i].id := got[i]];
      i := i + 1;
    }
    assert got[..i] == got;
    var secrets := Align(order, byID, got);
    return Ordered(secrets);
  }

  lemma AcceptableStep(requested: seq<SecretIdentifier>, got: seq<SecretEntry>, i: nat)
    requires i < |got| && AllAcceptable(requested, got[..i]) && Acceptable(requested, got, i)
    ensures AllAcceptable(requested, got[..i + 1])
  {
    var longer := got[..i + 1];
    forall j | 0 <= j < |longer|
      ensures Acceptable(requested, longer, j)
    {
      assert longer[..j] == got[..j];
      if j < i {
        assert Acceptable(requested, got[..i], j);
        assert got[..i][..j] == got[..j];
      }
    }
  }

  method CollectRequests(requested: seq<SecretIdentifier>)
    returns (want: set<SecretIdentifier>, order: seq<SecretIdentifier>)
    ensures want == set id | id in requested
    ensures order == FirstRequests(requested)
  {
    want, order := {}, [];
    var i := 0;
    while i < |requested|
      invariant 0 <= i <= |requested|
      invariant want == set id | id in requested[..i]
      invariant order == FirstRequests(requested[..i])
      invariant forall id :: id in order <==> id in want
    {
      assert requested[..i + 1][..i] == requested[..i];
      if requested[i] !in want {
        want := want + {requested[i]};
        order := order + [requested[i]];
      }
      i := i + 1;
    }
    assert requested[..i] == requested;
  }

  method Align(order: seq<SecretIdentifier>, byID: map<SecretIdentifier, SecretEntry>, got: seq<SecretEntry>)
    returns (secrets: seq<OrderedSecret>)
    requires byID == Index(got)
    ensures secrets == Aligned(order, got)
  {
    secrets := [];
    var i := 0;
    while i < |order|
      invariant 0 <= i <= |order|
      invariant secrets == Aligned(order[..i], got)
    {
      var id := order[i];
      secrets := secrets + [OrderedSecret(id, if id in byID then Some(byID[id]) else None)];
      i := i + 1;
    }
    assert order[..i] == order;
  }

  /** Every requested identifier appears once in the answer, and earlier requests come first. */
  lemma {:induction false} FirstRequestsOnceEach(requested: seq<SecretIdentifier>)
    ensures NoDup(FirstRequests(requested))
    ensures forall id :: id in FirstRequests(requested) <==> id in requested
  {
    if requested != [] {
      var n := |requested| - 1;
      FirstRequestsOnceEach(requested[..n]);
      assert requested == requested[..n] + [requested[n]];
    }
  }

  /** Asking for more keeps the order of what was asked for before. */
  lemma {:induction false} FirstRequestsKeepOrder(a: seq<SecretIdentifier>, b: seq<SecretIdentifier>)
    ensures FirstRequests(a) <= FirstRequests(a + b)
  {
    if b == [] {
      assert a + b == a;
    } else {
      var n := |b| - 1;
      assert (a + b)[..|a + b| - 1] == a + b[..n];
      FirstRequestsKeepOrder(a, b[..n]);
    }
  }

  /** In an acceptable list an identifier has one entry. */
  lemma OneEntryEach(requested: seq<SecretIdentifier>, got: seq<SecretEntry>, i: nat, j: nat)
    requires AllAcceptable(requested, got) && i < |got| && j < |got| && got[i].id == got[j].id
    ensures i == j
  {
    AcceptableIff(requested, got);
    assert Ids(got)[i] == Ids(got)[j];
  }

  /** Nothing the relay sent is lost or changed: each entry stands under its own identifier, and there only. */
  lemma EveryEntryIsDelivered(requested: seq<SecretIdentifier>, got: seq<SecretEntry>, e: SecretEntry)
    requires AllAcceptable(requested, got)
    ensures var secrets := Aligned(FirstRequests(requested), got);
            e in got <==> exists i :: 0 <= i < |secrets| && secrets[i] == OrderedSecret(e.id, Some(e))
  {
    var order := FirstRequests(requested);
    FirstRequestsOnceEach(requested);
    if e in got {
      var k :| 0 <= k < |got| && got[k] == e;
      assert Acceptable(requested, got, k);
      var i :| 0 <= i < |order| && order[i] == e.id;
      FoundIs(requested, got, k);
      assert Aligned(order, got)[i] == OrderedSecret(e.id, Some(e));
    }
  }

  lemma FoundIs(requested: seq<SecretIdentifier>, got: seq<SecretEntry>, k: nat)
    requires AllAcceptable(requested, got) && k < |got|
    ensures Find(got, got[k].id) == Some(got[k])
  {
    var r := Find(got, got[k].id);
    assert Has(got, got[k].id);
    var j :| 0 <= j < |got| && got[j] == r.value;
    OneEntryEach(requested, got, j, k);
  }

  /** Acceptance, stated without positions: asked for, and never the same identifier twice. */
  lemma AcceptableIff(requested: seq<SecretIdentifier>, got: seq<SecretEntry>)
    ensures AllAcceptable(requested, got) <==>
            (forall i :: 0 <= i < |got| ==> got[i].id in requested) && NoDup(Ids(got))
  {
    if AllAcceptable(requested, got) {
      forall i, j | 0 <= i < j < |got|
        ensures Ids(got)[i] != Ids(got)[j]
      {
        assert Acceptable(requested, got, j);
        assert got[..j][i] == got[i];
      }
      forall i | 0 <= i < |got|
        ensures got[i].id in requested
      {
        assert Acceptable(requested, got, i);
      }
    } else {
      var i :| 0 <= i < |got| && !Acceptable(requested, got, i);
      if Has(got[..i], got[i].id) {
        var j :| 0 <= j < |got[..i]| && got[..i][j].id == got[i].id;
        assert Ids(got)[j] == Ids(got)[i];
      }
    }
  }

  function Ids(got: seq<SecretEntry>): (r: seq<SecretIdentifier>)
    ensures |r| == |got| && forall i :: 0 <= i < |got| ==> r[i] == got[i].id
  {
    seq(|got|, i requires 0 <= i < |got| => got[i].id)
  }

  /** A list with the same entries in another order is accepted alike and gives the same answer. */
  lemma ArrivalOrderDoesNotMatter(requested: seq<SecretIdentifier>, got: seq<SecretEntry>, other: seq<SecretEntry>)
    requires multiset(got) == multiset(other) && AllAcceptable(requested, got)
    ensures AllAcceptable(requested, other)
    ensures Aligned(FirstRequests(requested), got) == Aligned(FirstRequests(requested), other)
  {
    assert forall e :: e in got <==> e in multiset(got);
    assert forall e :: e in other <==> e in multiset(other);
    OtherAcceptable(requested, got, other);
    forall id
      ensures Find(got, id) == Find(other, id)
    {
      SameFind(requested, got, other, id);
    }
  }

  lemma SameFind(requested: seq<SecretIdentifier>, got: seq<SecretEntry>, other: seq<SecretEntry>, id: SecretIdentifier)
    requires AllAcceptable(requested, got) && AllAcceptable(requested, other) && forall e :: e in got <==> e in other
    ensures Find(got, id) == Find(other, id)
  {
    if Has(other, id) {
      var j :| 0 <= j < |other| && other[j].id == id;
      assert other[j] in got;
    }
    if Has(got, id) {
      var k :| 0 <= k < |got| && got[k].id == id;
      FoundIs(requested, got, k);
      assert got[k] in other;
      var j :| 0 <= j < |other| && other[j] == got[k];
      FoundIs(requested, other, j);
    }
  }

  lemma OtherAcceptable(requested: seq<SecretIdentifier>, got: seq<SecretEntry>, other: seq<SecretEntry>)
    requires multiset(got) == multiset(other) && AllAcceptable(requested, got)
    ensures AllAcceptable(requested, other)
  {
    AcceptableIff(requested, got);
    forall i | 0 <= i < |other|
      ensures Acceptable(requested, other, i)
    {
      assert other[i] in multiset(other);
      if Has(other[..i], other[i].id) {
        var j :| 0 <= j < i && other[..i][j].id == other[i].id;
        DistinctAlike(got, other, j, i);
      }
    }
  }

  /** Entries of one identifier at two positions show as two occurrences. */
  lemma DistinctAlike(got: seq<SecretEntry>, other: seq<SecretEntry>, j: nat, i: nat)
    requires multiset(got) == multiset(other) && NoDup(Ids(got)) && j < i < |other|
    ensures other[j].id != other[i].id
  {
    assert other == other[..j] + [other[j]] + other[j + 1..i] + [other[i]] + other[i + 1..];
    assert multiset{other[j], other[i]} <= multiset(other);
    TwoOccurrences(got, other[j], other[i]);
  }

  /** The last entry and one before it have different identifiers. */
  lemma LastIsNoTwin(got: seq<SecretEntry>, n: nat, other: SecretEntry)
    requires NoDup(Ids(got)) && |got| == n + 1 && multiset{got[n], other} <= multiset(got[..n]) + multiset{got[n]}
    ensures got[n].id != other.id
  {
    assert other in multiset(got[..n]) by {
      assert (multiset{got[n], other} - multiset{got[n]})[other] == 1;
    }
    var i :| 0 <= i < n && got[i] == other;
    assert Ids(got)[i] != Ids(got)[n];
  }

  lemma {:induction false} TwoOccurrences(got: seq<SecretEntry>, a: SecretEntry, b: SecretEntry)
    requires NoDup(Ids(got)) && multiset{a, b} <= multiset(got)
    ensures a.id != b.id
  {
    var n := |got| - 1;
    assert got != [] by {
      assert a in multiset(got);
    }
    assert got == got[..n] + [got[n]];
    assert multiset(got) == multiset(got[..n]) + multiset{got[n]};
    assert forall i :: 0 <= i < n ==> Ids(got[..n])[i] == Ids(got)[i];
    if got[n] != a && got[n] != b {
      assert multiset{a, b} <= multiset(got[..n]);
      TwoOccurrences(got[..n], a, b);
    } else if got[n] == a {
      LastIsNoTwin(got, n, b);
    } else {
      LastIsNoTwin(got, n, a);
    }
  }
}
