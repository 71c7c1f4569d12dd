/** The order every client puts its enclaves in: descending by identifier. */
module EnclaveOrder {
  import opened Bytes
  import opened Preimages

  predicate Descending(s: seq<Enclave>) {
    forall i, j :: 0 <= i < j < |s| ==> !Less(s[i].id, s[j].id)
  }

  /** Of two enclaves with different identifiers, the one with the larger byte where these first differ comes first. */
  lemma LargerIdFirst(s: seq<Enclave>, i: nat, j: nat, k: nat)
    requires Descending(s) && i < j < |s| && PartAt(s[i].id, s[j].id, k) && k < 32
    ensures s[i].id[k] > s[j].id[k]
  {
    LessIff(s[i].id, s[j].id, k);
  }

  /** What sorting may return: some descending arrangement of the same entries. */
  predicate IsSorted(s: seq<Enclave>, sorted: seq<Enclave>) {
    multiset(s) == multiset(sorted) && Descending(sorted)
  }

  /** Entries with the same identifier are the same entry. */
  predicate IdsIdentify(s: seq<Enclave>) {
    forall i, j :: 0 <= i < |s| && 0 <= j < |s| && s[i].id == s[j].id ==> s[i] == s[j]
  }

  /** `e` put before the first entry it does not come after. */
  function Inserted(e: Enclave, s: seq<Enclave>): seq<Enclave> {
    if s == [] || Less(s[0].id, e.id) then [e] + s else [s[0]] + Inserted(e, s[1..])
  }

  function Arranged(s: seq<Enclave>): seq<Enclave> {
    if s == [] then [] else Inserted(s[0], Arranged(s[1..]))
  }

  lemma {:induction false} InsertedMembers(e: Enclave, s: seq<Enclave>)
    ensures multiset(Inserted(e, s)) == multiset([e] + s)
  {
    if s != [] && !Less(s[0].id, e.id) {
      InsertedMembers(e, s[1..]);
      assert s == [s[0]] + s[1..];
    }
  }

  /** An entry none of the rest exceeds may stand in front. */
  lemma PrependedDescending(e: Enclave, s: seq<Enclave>)
    requires Descending(s) && forall k :: k in s ==> !Less(e.id, k.id)
    ensures Descending([e] + s)
  {
    var r := [e] + s;
    forall i, j | 0 <= i < j < |r|
      ensures !Less(r[i].id, r[j].id)
    {
      assert r[j] == s[j - 1];
      if i > 0 {
        assert r[i] == s[i - 1];
      }
    }
  }

  lemma {:induction false} InsertedDescending(e: Enclave, s: seq<Enclave>)
    requires Descending(s)
    ensures Descending(Inserted(e, s))
  {
    if s == [] {
    } else if Less(s[0].id, e.id) {
      forall k | k in s
        ensures !Less(e.id, k.id)
      {
        if Less(e.id, k.id) {
          LessTransitive(s[0].id, e.id, k.id);
          LessIrreflexive(s[0].id);
        }
      }
      PrependedDescending(e, s);
    } else {
      var rest := Inserted(e, s[1..]);
      InsertedDescending(e, s[1..]);
      InsertedMembers(e, s[1..]);
      SameMembers(rest, [e] + s[1..]);
      PrependedDescending(s[0], rest);
    }
  }

  /** Every list can be sorted. */
  lemma {:induction false} ArrangedIsSorted(s: seq<Enclave>)
    ensures IsSorted(s, Arranged(s))
  {
    if s != [] {
      ArrangedIsSorted(s[1..]);
      InsertedMembers(s[0], Arranged(s[1..]));
      InsertedDescending(s[0], Arranged(s[1..]));
      assert s == [s[0]] + s[1..];
    }
  }

  lemma SameMembers(a: seq<Enclave>, b: seq<Enclave>)
    requires multiset(a) == multiset(b)
    ensures |a| == |b| && forall e :: e in a <==> e in b
  {
    assert |multiset(a)| == |a| && |multiset(b)| == |b|;
    assert forall e :: e in a <==> e in multiset(a);
  }

  /** The first entry of a sorted list has the greatest identifier. */
  lemma FirstIsGreatest(x: seq<Enclave>, y: seq<Enclave>)
    requires multiset(x) == multiset(y) && Descending(x) && Descending(y) && x != [] && y != []
    ensures x[0].id == y[0].id
  {
    SameMembers(x, y);
    assert y[0] in x && x[0] in y;
    var i :| 0 <= i < |x| && x[i] == y[0];
    var j :| 0 <= j < |y| && y[j] == x[0];
    LessTotal(x[0].id, y[0].id);
    LessIrreflexive(x[0].id);
  }

  lemma TailDescending(s: seq<Enclave>)
    requires Descending(s) && s != []
    ensures Descending(s[1..])
  {
    forall i, j | 0 <= i < j < |s| - 1
      ensures !Less(s[1..][i].id, s[1..][j].id)
    {
      assert s[1..][i] == s[i + 1] && s[1..][j] == s[j + 1];
    }
  }

  lemma FirstAlike(x: seq<Enclave>, y: seq<Enclave>)
    requires multiset(x) == multiset(y) && Descending(x) && Descending(y) && IdsIdentify(x) && x != []
    ensures y != [] && x[0] == y[0] && multiset(x[1..]) == multiset(y[1..])
  {
    SameMembers(x, y);
    FirstIsGreatest(x, y);
    assert y[0] in x;
    assert x == [x[0]] + x[1..] && y == [y[0]] + y[1..];
    assert multiset(x[1..]) == multiset(x) - multiset{x[0]};
    assert multiset(y[1..]) == multiset(y) - multiset{y[0]};
  }

  lemma {:induction false} SortedTwiceAlike(x: seq<Enclave>, y: seq<Enclave>)
    requires multiset(x) == multiset(y) && Descending(x) && Descending(y) && IdsIdentify(x)
    ensures x == y
  {
    if x != [] {
      FirstAlike(x, y);
      TailDescending(x);
      TailDescending(y);
      SortedTwiceAlike(x[1..], y[1..]);
      assert x == [x[0]] + x[1..] && y == [y[0]] + y[1..];
    } else {
      SameMembers(x, y);
    }
  }

  /** Two entries under one identifier can stand either way round. */
  lemma SwappedIsSorted(s: seq<Enclave>, x: seq<Enclave>, i: nat, j: nat)
    requires IsSorted(s, x) && i < j < |x| && x[i].id == x[j].id
    ensures IsSorted(s, x[i := x[j]][j := x[i]])
  {
    var y := x[i := x[j]][j := x[i]];
    assert multiset(y) == multiset(x);
    assert forall k :: 0 <= k < |x| ==> y[k].id == x[k].id;
  }

  lemma IdentifyAlike(a: seq<Enclave>, b: seq<Enclave>)
    requires multiset(a) == multiset(b) && IdsIdentify(a)
    ensures IdsIdentify(b)
  {
    SameMembers(a, b);
    forall i, j | 0 <= i < |b| && 0 <= j < |b| && b[i].id == b[j].id
      ensures b[i] == b[j]
    {
      assert b[i] in a && b[j] in a;
    }
  }

  lemma DivergentSorts(s: seq<Enclave>) returns (x: seq<Enclave>, y: seq<Enclave>)
    requires !IdsIdentify(s)
    ensures IsSorted(s, x) && IsSorted(s, y) && x != y
  {
    x := Arranged(s);
    ArrangedIsSorted(s);
    if IdsIdentify(x) {
      IdentifyAlike(x, s);
    }
    var i, j :| 0 <= i < |x| && 0 <= j < |x| && x[i].id == x[j].id && x[i] != x[j];
    var lo, hi := if i < j then i else j, if i < j then j else i;
    SwappedIsSorted(s, x, lo, hi);
    y := x[lo := x[hi]][hi := x[lo]];
    assert y[lo] != x[lo];
  }

  lemma SortsAlike(s: seq<Enclave>, x: seq<Enclave>, y: seq<Enclave>)
    requires IdsIdentify(s) && IsSorted(s, x) && IsSorted(s, y)
    ensures x == y
  {
    IdentifyAlike(s, x);
    SortedTwiceAlike(x, y);
  }

  /** Sorting gives every client the same list if and only if an identifier stands for one entry. */
  lemma SortingConverges(s: seq<Enclave>)
    ensures (forall x, y :: IsSorted(s, x) && IsSorted(s, y) ==> x == y) <==> IdsIdentify(s)
  {
    if IdsIdentify(s) {
      forall x, y | IsSorted(s, x) && IsSorted(s, y)
        ensures x == y
      {
        SortsAlike(s, x, y);
      }
    } else {
      var x, y := DivergentSorts(s);
    }
  }
}

/** The round-robin choice of an enclave. */
module Selection {
  import opened Bytes
  import opened Encoding
  import opened Preimages
  import opened EnclaveOrder

  datatype Outcome = NoNodes | NoLive | Chosen(enclave: Enclave)

  /** The optional requirements check; without one, every enclave will do. */
  type Checker = Option<Enclave -> bool>

  predicate Accepts(check: Checker, e: Enclave) {
    check.None? || check.value(e)
  }

  function Matching(enclaves: seq<Enclave>, check: Checker): (r: seq<Enclave>)
    ensures forall e :: e in r <==> e in enclaves && Accepts(check, e)
  {
    if enclaves == [] then []
    else
      var n := |enclaves| - 1;
      assert enclaves == enclaves[..n] + [enclaves[n]];
      Matching(enclaves[..n], check) + if Accepts(check, enclaves[n]) then [enclaves[n]] else []
  }

  /** The matching nodes are in the order of the list: those of its front come before those of its rest. */
  lemma {:induction false} MatchingKeepsOrder(a: seq<Enclave>, b: seq<Enclave>, check: Checker)
    ensures Matching(a + b, check) == Matching(a, check) + Matching(b, check)
  {
    if b == [] {
      assert a + b == a;
    } else {
      var n := |b| - 1;
      assert (a + b)[..|a + b| - 1] == a + b[..n];
      MatchingKeepsOrder(a, b[..n], check);
    }
  }

  /** `calcMod`. */
  function CalcMod(requestID: Hash32, modulus: nat): (r: nat)
    requires modulus > 0
    ensures r < modulus
  {
    FromBigEndian(requestID) % modulus
  }

  function Slot(base: nat, offset: nat, n: nat): (r: nat)
    requires n > 0
    ensures r < n
  {
    (base + offset) % n
  }

  /** The first live node counting cyclically from `base`. */
  predicate FirstLive(nodes: seq<Enclave>, dead: set<Hash32>, base: nat, offset: nat)
    requires nodes != []
  {
    && nodes[Slot(base, offset, |nodes|)].id !in dead
    && forall k :: 0 <= k < offset ==> nodes[Slot(base, k, |nodes|)].id in dead
  }

  /** What the choice must be, given the matching nodes. */
  predicate Chooses(nodes: seq<Enclave>, dead: set<Hash32>, requestID: Hash32, r: Outcome) {
    match r
    case NoNodes => nodes == []
    case NoLive => nodes != [] && forall k :: 0 <= k < |nodes| ==> nodes[k].id in dead
    case Chosen(e) =>
      nodes != [] && exists offset ::
        0 <= offset < |nodes| && FirstLive(nodes, dead, CalcMod(requestID, |nodes|), offset)
        && e == nodes[Slot(CalcMod(requestID, |nodes|), offset, |nodes|)]
  }

  lemma MultipleBounds(d: int, n: nat)
    ensures d >= 1 ==> d * n >= n
    ensures d <= -1 ==> d * n <= 0 - n
  {
  }

  lemma ModIs(x: int, q: int, r: int, n: nat)
    requires n > 0 && x == q * n + r && 0 <= r < n
    ensures x % n == r
  {
    var d := x / n - q;
    MultipleBounds(d, n);
    assert d * n == x / n * n - q * n;
    assert d == 0;
  }

  /** The scan reaches every node. */
  lemma EverySlot(base: nat, n: nat, j: nat) returns (offset: nat)
    requires base < n && j < n
    ensures offset < n && Slot(base, offset, n) == j
  {
    if j >= base {
      offset := j - base;
      ModIs(base + offset, 0, j, n);
    } else {
      offset := j + n - base;
      ModIs(base + offset, 1, j, n);
    }
  }

  /** An enclave is chosen exactly when a matching one is alive, and then it is one of those. */
  lemma ChosenIffLive(nodes: seq<Enclave>, dead: set<Hash32>, requestID: Hash32, r: Outcome)
    requires Chooses(nodes, dead, requestID, r)
    ensures r.Chosen? <==> exists e :: e in nodes && e.id !in dead
    ensures r.Chosen? ==> r.enclave in nodes && r.enclave.id !in dead
    ensures r.NoNodes? <==> nodes == []
  {
  }

  /** The choice is determined by the request and by which of the matching nodes are dead. */
  lemma ChoiceIsDetermined(nodes: seq<Enclave>, dead: set<Hash32>, other: set<Hash32>, requestID: Hash32,
                           r: Outcome, t: Outcome)
    requires Chooses(nodes, dead, requestID, r) && Chooses(nodes, other, requestID, t)
    requires forall e :: e in nodes ==> (e.id in dead <==> e.id in other)
    ensures r == t
  {
    ChosenIffLive(nodes, dead, requestID, r);
    ChosenIffLive(nodes, other, requestID, t);
    if r.Chosen? {
      var n := |nodes|;
      var base := CalcMod(requestID, n);
      var i :| 0 <= i < n && FirstLive(nodes, dead, base, i) && r.enclave == nodes[Slot(base, i, n)];
      var j :| 0 <= j < n && FirstLive(nodes, other, base, j) && t.enclave == nodes[Slot(base, j, n)];
      assert nodes[Slot(base, i, n)] in nodes && nodes[Slot(base, j, n)] in nodes;
      assert i == j;
    }
  }

  /**
   Clients that hold the same enclaves in any order, sort them, and agree on which of them are dead
   send a request to the same enclave.
   */
  lemma ClientsConverge(a: seq<Enclave>, b: seq<Enclave>, sortedA: seq<Enclave>, sortedB: seq<Enclave>, check: Checker,
                        dead: set<Hash32>, other: set<Hash32>, requestID: Hash32, r: Outcome, t: Outcome)
    requires multiset(a) == multiset(b) && IdsIdentify(a) && IsSorted(a, sortedA) && IsSorted(b, sortedB)
    requires Chooses(Matching(sortedA, check), dead, requestID, r)
    requires Chooses(Matching(sortedB, check), other, requestID, t)
    requires forall e :: e in a ==> (e.id in dead <==> e.id in other)
    ensures r == t
  {
    SortsAlike(a, sortedA, sortedB);
    SameMembers(a, sortedA);
    ChoiceIsDetermined(Matching(sortedA, check), dead, other, requestID, r, t);
  }

  /** Marking an enclave that was not chosen as dead leaves the choice as it is. */
  lemma OthersMayDie(nodes: seq<Enclave>, dead: set<Hash32>, id: Hash32, requestID: Hash32, r: Outcome, t: Outcome)
    requires Chooses(nodes, dead, requestID, r) && Chooses(nodes, dead + {id}, requestID, t)
    requires r.Chosen? ==> r.enclave.id != id
    ensures r == t
  {
    if r.Chosen? {
      var n := |nodes|;
      var base := CalcMod(requestID, n);
      var i :| 0 <= i < n && FirstLive(nodes, dead, base, i) && r.enclave == nodes[Slot(base, i, n)];
      assert FirstLive(nodes, dead + {id}, base, i);
      assert Chooses(nodes, dead + {id}, requestID, r);
      ChoiceIsDetermined(nodes, dead + {id}, dead + {id}, requestID, r, t);
    } else {
      ChosenIffLive(nodes, dead, requestID, r);
      ChosenIffLive(nodes, dead + {id}, requestID, t);
    }
  }

  // --- liveness changing under a scan --------------------------------------------------------

  /** The set of dead enclaves as the scan finds it when it looks at its `k`-th node: it is read anew each time. */
  type Reads = nat -> set<Hash32>

  predicate FirstSeenLive(nodes: seq<Enclave>, dead: Reads, base: nat, offset: nat)
    requires nodes != []
  {
    && nodes[Slot(base, offset, |nodes|)].id !in dead(offset)
    && forall k: nat :: k < offset ==> nodes[Slot(base, k, |nodes|)].id in dead(k)
  }

  /** What a scan with these reads returns. */
  ghost predicate ScanReturns(nodes: seq<Enclave>, dead: Reads, requestID: Hash32, r: Outcome) {
    match r
    case NoNodes => nodes == []
    case NoLive => nodes != [] && forall k: nat :: k < |nodes| ==>
      nodes[Slot(CalcMod(requestID, |nodes|), k, |nodes|)].id in dead(k)
    case Chosen(e) =>
      nodes != [] && exists offset: nat ::
        offset < |nodes| && FirstSeenLive(nodes, dead, CalcMod(requestID, |nodes|), offset)
        && e == nodes[Slot(CalcMod(requestID, |nodes|), offset, |nodes|)]
  }

  /** With liveness unchanged during the scan it is the choice above. */
  lemma SteadyScan(nodes: seq<Enclave>, dead: set<Hash32>, requestID: Hash32, r: Outcome)
    ensures ScanReturns(nodes, (_: nat) => dead, requestID, r) <==> Chooses(nodes, dead, requestID, r)
  {
    var n := |nodes|;
    if n > 0 {
      var base := CalcMod(requestID, n);
      forall offset: nat ensures FirstSeenLive(nodes, (_: nat) => dead, base, offset) <==>
        FirstLive(nodes, dead, base, offset) {
      }
      if ScanReturns(nodes, (_: nat) => dead, requestID, NoLive) {
        forall j | 0 <= j < n ensures nodes[j].id in dead {
          var k := EverySlot(base, n, j);
        }
      }
    }
  }

  /**
   However liveness changes during the scan: the enclave returned was alive when it was looked at, and
   if some matching enclave is alive throughout, one is returned.
   */
  lemma ScanFindsSteadyOne(nodes: seq<Enclave>, dead: Reads, requestID: Hash32, r: Outcome, j: nat)
    requires ScanReturns(nodes, dead, requestID, r)
    ensures r.Chosen? ==> r.enclave in nodes && exists k: nat :: k < |nodes| && r.enclave.id !in dead(k)
    ensures j < |nodes| && (forall k: nat :: nodes[j].id !in dead(k)) ==> r.Chosen?
  {
    if r.Chosen? {
      var n := |nodes|;
      var offset: nat :| offset < n && FirstSeenLive(nodes, dead, CalcMod(requestID, n), offset)
                         && r.enclave == nodes[Slot(CalcMod(requestID, n), offset, n)];
    }
    if j < |nodes| && r.NoLive? {
      var k := EverySlot(CalcMod(requestID, |nodes|), |nodes|, j);
      assert nodes[j].id in dead(k);
    }
  }

  /** Request k of a run of consecutive identifiers starts its scan one node after request k - 1. */
  lemma ConsecutiveSlot(first: nat, k: nat, n: nat)
    requires k < n
    ensures (first + k) % n == if first % n + k < n then first % n + k else first % n + k - n
  {
    var q, b := first / n, first % n;
    assert first == q * n + b;
    if b + k < n {
      ModIs(first + k, q, b + k, n);
    } else {
      assert (q + 1) * n == q * n + n;
      ModIs(first + k, q + 1, b + k - n, n);
    }
  }

  lemma AllAliveChooses(nodes: seq<Enclave>, dead: set<Hash32>, requestID: Hash32, r: Outcome)
    requires nodes != [] && (forall e :: e in nodes ==> e.id !in dead) && Chooses(nodes, dead, requestID, r)
    ensures r == Chosen(nodes[CalcMod(requestID, |nodes|)])
  {
    var n := |nodes|;
    var base := CalcMod(requestID, n);
    ModIs(base, 0, base, n);
    assert nodes[0] in nodes && nodes[0].id !in dead;
    ChosenIffLive(nodes, dead, requestID, r);
    var i :| 0 <= i < n && FirstLive(nodes, dead, base, i) && r.enclave == nodes[Slot(base, i, n)];
    assert nodes[Slot(base, 0, n)] in nodes;
    assert i == 0;
  }

  /** The nodes in the order in which a request tries them: upwards from its slot, then from the first one on. */
  function Tried(nodes: seq<Enclave>, requestID: Hash32): seq<Enclave>
    requires nodes != []
  {
    var start := FromBigEndian(requestID) % |nodes|;
    nodes[start..] + nodes[..start]
  }

  lemma TriedAt(nodes: seq<Enclave>, requestID: Hash32, k: nat)
    requires nodes != [] && k < |nodes|
    ensures |Tried(nodes, requestID)| == |nodes|
    ensures Tried(nodes, requestID)[k] == nodes[Slot(CalcMod(requestID, |nodes|), k, |nodes|)]
  {
    var n, base := |nodes|, CalcMod(requestID, |nodes|);
    ConsecutiveSlot(base, k, n);
    ModIs(base, 0, base, n);
  }

  /** The enclave chosen is the first live one among the nodes in the order in which the request tries them. */
  lemma FailsOverInOrder(nodes: seq<Enclave>, dead: set<Hash32>, requestID: Hash32, e: Enclave) returns (i: nat)
    requires Chooses(nodes, dead, requestID, Chosen(e))
    ensures nodes != [] && i < |Tried(nodes, requestID)|
    ensures Tried(nodes, requestID)[i] == e && e.id !in dead
    ensures forall k :: 0 <= k < i ==> Tried(nodes, requestID)[k].id in dead
  {
    var n, base := |nodes|, CalcMod(requestID, |nodes|);
    i :| 0 <= i < n && FirstLive(nodes, dead, base, i) && e == nodes[Slot(base, i, n)];
    forall k | 0 <= k <= i ensures Tried(nodes, requestID)[k] == nodes[Slot(base, k, n)] {
      TriedAt(nodes, requestID, k);
    }
    TriedAt(nodes, requestID, i);
  }

  /**
   As many consecutive requests as there are live enclaves visit the enclaves once each, in order,
   from some start.
   */
  lemma RoundRobin(nodes: seq<Enclave>, dead: set<Hash32>, requests: seq<Hash32>, chosen: seq<Enclave>)
    requires nodes != [] && forall e :: e in nodes ==> e.id !in dead
    requires |requests| == |chosen| == |nodes|
    requires forall k :: 0 <= k < |requests| ==> FromBigEndian(requests[k]) == FromBigEndian(requests[0]) + k
    requires forall k :: 0 <= k < |requests| ==> Chooses(nodes, dead, requests[k], Chosen(chosen[k]))
    ensures var start := FromBigEndian(requests[0]) % |nodes|; chosen == nodes[start..] + nodes[..start]
    ensures multiset(chosen) == multiset(nodes)
  {
    var n := |nodes|;
    var start := CalcMod(requests[0], n);
    forall k | 0 <= k < n
      ensures chosen[k] == (nodes[start..] + nodes[..start])[k]
    {
      AllAliveChooses(nodes, dead, requests[k], Chosen(chosen[k]));
      ConsecutiveSlot(FromBigEndian(requests[0]), k, n);
    }
    assert nodes == nodes[..start] + nodes[start..];
  }
}

/** `roundRobinEnclaveSelector` as an object. */
module RoundRobinSelector {
  import opened Bytes
  import opened Preimages
  import opened Selection

  class RoundRobinEnclaveSelector {
    var deadEnclaves: set<Hash32>

    constructor ()
      ensures deadEnclaves == {}
    {
      deadEnclaves := {};
    }

    method SelectEnclaves(enclaves: seq<Enclave>, requestID: Hash32, check: Checker) returns (r: Outcome)
      ensures Chooses(Matching(enclaves, check), deadEnclaves, requestID, r)
    {
      var nodes: seq<Enclave> := [];
      var i := 0;
      while i < |enclaves|
        invariant 0 <= i <= |enclaves|
        invariant nodes == Matching(enclaves[..i], check)
      {
        assert enclaves[..i + 1][..i] == enclaves[..i];
        if check.None? || check.value(enclaves[i]) {
          nodes := nodes + [enclaves[i]];
        }
        i := i + 1;
      }
      assert enclaves[..i] == enclaves;
      if |nodes| == 0 {
        return NoNodes;
      }
      r := Scan(nodes, requestID);
    }

    method Scan(nodes: seq<Enclave>, requestID: Hash32) returns (r: Outcome)
      requires nodes != []
      ensures Chooses(nodes, deadEnclaves, requestID, r)
    {
      var base := CalcMod(requestID, |nodes|);
      var offset := 0;
      while offset < |nodes|
        invariant 0 <= offset <= |nodes|
        invariant forall k :: 0 <= k < offset ==> nodes[Slot(base, k, |nodes|)].id in deadEnclaves
      {
        var node := nodes[(base + offset) % |nodes|];
        if node.id !in deadEnclaves {
          assert FirstLive(nodes, deadEnclaves, base, offset);
          return Chosen(node);
        }
        offset := offset + 1;
      }
      forall j | 0 <= j < |nodes|
        ensures nodes[j].id in deadEnclaves
      {
        var k := EverySlot(base, |nodes|, j);
      }
      return NoLive;
    }

    method SetEnclaveLiveness(id: Hash32, isAlive: bool)
      modifies this
      ensures deadEnclaves == if isAlive then old(deadEnclaves) - {id} else old(deadEnclaves) + {id}
    {
      if isAlive {
        deadEnclaves := deadEnclaves - {id};
        return;
      }
      deadEnclaves := deadEnclaves + {id};
    }
  }
}
