/**
 The building blocks of the hash preimages in types/types.go: big-endian integers,
 length-prefixed byte strings and counted lists, each with the parser that undoes it.
 A parser returns what it read and the bytes it left.
 */
module Encoding {
  import opened Bytes

  datatype Parsed<+T> = Bad | Ok(value: T, rest: Bytes) {
    predicate IsFailure() { Bad? }
    function PropagateFailure<U>(): Parsed<U>
      requires Bad?
    { Bad }
    function Extract(): (T, Bytes)
      requires Ok?
    { (value, rest) }
  }

  const TWO_63 := 0x8000_0000_0000_0000
  const TWO_64 := 0x1_0000_0000_0000_0000
  const TWO_32 := 0x1_0000_0000

  type uint32 = x: int | 0 <= x < 0x1_0000_0000
  type int64 = x: int | -0x8000_0000_0000_0000 <= x < 0x8000_0000_0000_0000

  function Pow256(w: nat): (p: nat)
    ensures p > 0
  {
    if w == 0 then 1 else 256 * Pow256(w - 1)
  }

  /** `binary.BigEndian.PutUint…`: the low `width` bytes of `n`, most significant first. */
  function BigEndian(n: nat, width: nat): (r: Bytes)
    ensures |r| == width
  {
    if width == 0 then [] else BigEndian(n / 256, width - 1) + [n % 256]
  }

  function FromBigEndian(b: Bytes): nat {
    if b == [] then 0 else 256 * FromBigEndian(b[..|b| - 1]) + b[|b| - 1]
  }

  lemma {:induction false} BigEndianRoundTrip(n: nat, width: nat)
    requires n < Pow256(width)
    ensures FromBigEndian(BigEndian(n, width)) == n
  {
    if width > 0 {
      BigEndianRoundTrip(n / 256, width - 1);
      assert BigEndian(n, width)[..width - 1] == BigEndian(n / 256, width - 1);
    }
  }

  lemma {:induction false} BigEndianOnto(b: Bytes)
    ensures FromBigEndian(b) < Pow256(|b|)
    ensures BigEndian(FromBigEndian(b), |b|) == b
  {
    if b != [] {
      BigEndianOnto(b[..|b| - 1]);
      assert b == b[..|b| - 1] + [b[|b| - 1]];
    }
  }

  lemma WordSizes()
    ensures Pow256(8) == TWO_64 && Pow256(4) == TWO_32
  {
    assert Pow256(1) == 256;
    assert Pow256(2) == 0x1_0000;
    assert Pow256(3) == 0x100_0000;
    assert Pow256(4) == 0x1_0000_0000;
    assert Pow256(5) == 0x100_0000_0000;
    assert Pow256(6) == 0x1_0000_0000_0000;
    assert Pow256(7) == 0x100_0000_0000_0000;
  }

  // --- fixed-width fields -----------------------------------------------------

  function ParseFixed(width: nat, s: Bytes): Parsed<Bytes> {
    if |s| < width then Bad else Ok(s[..width], s[width..])
  }

  function ParseLiteral(literal: Bytes, s: Bytes): Parsed<()> {
    if literal <= s then Ok((), s[|literal|..]) else Bad
  }

  function ParseNat(width: nat, s: Bytes): Parsed<nat> {
    if |s| < width then Bad else Ok(FromBigEndian(s[..width]), s[width..])
  }

  lemma FixedRoundTrip(b: Bytes, rest: Bytes)
    ensures ParseFixed(|b|, b + rest) == Ok(b, rest)
    ensures ParseLiteral(b, b + rest) == Ok((), rest)
  {
    assert (b + rest)[..|b|] == b && (b + rest)[|b|..] == rest;
  }

  lemma NatRoundTrip(n: nat, width: nat, rest: Bytes)
    requires n < Pow256(width)
    ensures ParseNat(width, BigEndian(n, width) + rest) == Ok(n, rest)
  {
    BigEndianRoundTrip(n, width);
    FixedRoundTrip(BigEndian(n, width), rest);
  }

  lemma NatOnto(width: nat, s: Bytes)
    ensures var r := ParseNat(width, s);
            r.Ok? ==> r.value < Pow256(width) && s == BigEndian(r.value, width) + r.rest
  {
    if |s| >= width {
      BigEndianOnto(s[..width]);
    }
  }

  /** A signed 64-bit value, written as `uint64(value)`. */
  function EncodeInt64(x: int64): Bytes {
    BigEndian(if x < 0 then x + TWO_64 else x, 8)
  }

  function ParseInt64(s: Bytes): Parsed<int64> {
    if |s| < 8 then Bad
    else
      var n := FromBigEndian(s[..8]);
      if n < TWO_63 then Ok(n, s[8..])
      else if n < TWO_64 then Ok(n - TWO_64, s[8..])
      else Bad
  }

  lemma Int64RoundTrip(x: int64, rest: Bytes)
    ensures ParseInt64(EncodeInt64(x) + rest) == Ok(x, rest)
  {
    WordSizes();
    NatRoundTrip(if x < 0 then x + TWO_64 else x, 8, rest);
  }

  lemma Int64Onto(s: Bytes)
    ensures var r := ParseInt64(s); r.Ok? ==> s == EncodeInt64(r.value) + r.rest
  {
    if |s| >= 8 {
      BigEndianOnto(s[..8]);
    }
  }

  // --- length-prefixed byte strings -------------------------------------------

  function EncodeBytes(b: Bytes): Bytes {
    BigEndian(|b|, 8) + b
  }

  function ParseBytes(s: Bytes): Parsed<Bytes> {
    var (n, s) :- ParseNat(8, s);
    ParseFixed(n, s)
  }

  lemma BytesRoundTrip(b: Bytes, rest: Bytes)
    requires |b| < TWO_64
    ensures ParseBytes(EncodeBytes(b) + rest) == Ok(b, rest)
  {
    WordSizes();
    assert EncodeBytes(b) + rest == BigEndian(|b|, 8) + (b + rest);
    NatRoundTrip(|b|, 8, b + rest);
    FixedRoundTrip(b, rest);
  }

  lemma BytesOnto(s: Bytes)
    ensures var r := ParseBytes(s); r.Ok? ==> |r.value| < TWO_64 && s == EncodeBytes(r.value) + r.rest
  {
    WordSizes();
    NatOnto(8, s);
    var r := ParseBytes(s);
    if r.Ok? {
      var word, rest := s[..8], s[8..];
      assert word == BigEndian(|r.value|, 8) && rest == r.value + r.rest;
      assert s == word + rest;
      Flatten3(word, r.value, r.rest);
    }
  }

  // --- counted lists ------------------------------------------------------------

  function EncodeItems<T>(encode: T -> Bytes, xs: seq<T>): Bytes {
    if xs == [] then [] else encode(xs[0]) + EncodeItems(encode, xs[1..])
  }

  function ParseItems<T>(parse: Bytes -> Parsed<T>, n: nat, s: Bytes): Parsed<seq<T>> {
    if n == 0 then Ok([], s)
    else
      var (x, s) :- parse(s);
      var (xs, s) :- ParseItems(parse, n - 1, s);
      Ok([x] + xs, s)
  }

  function EncodeList<T>(encode: T -> Bytes, xs: seq<T>): Bytes {
    BigEndian(|xs|, 8) + EncodeItems(encode, xs)
  }

  function ParseList<T>(parse: Bytes -> Parsed<T>, s: Bytes): Parsed<seq<T>> {
    var (n, s) :- ParseNat(8, s);
    ParseItems(parse, n, s)
  }

  lemma {:induction false} ItemsRoundTrip<T>(encode: T -> Bytes, parse: Bytes -> Parsed<T>, xs: seq<T>, rest: Bytes)
    requires forall x, r :: x in xs ==> parse(encode(x) + r) == Ok(x, r)
    ensures ParseItems(parse, |xs|, EncodeItems(encode, xs) + rest) == Ok(xs, rest)
  {
    if xs != [] {
      var tail := EncodeItems(encode, xs[1..]) + rest;
      assert EncodeItems(encode, xs) + rest == encode(xs[0]) + tail;
      assert parse(encode(xs[0]) + tail) == Ok(xs[0], tail);
      ItemsRoundTrip(encode, parse, xs[1..], rest);
      assert xs == [xs[0]] + xs[1..];
    } else {
      assert EncodeItems(encode, xs) + rest == rest;
    }
  }

  lemma ListRoundTrip<T>(encode: T -> Bytes, parse: Bytes -> Parsed<T>, xs: seq<T>, rest: Bytes)
    requires |xs| < TWO_64
    requires forall x, r :: x in xs ==> parse(encode(x) + r) == Ok(x, r)
    ensures ParseList(parse, EncodeList(encode, xs) + rest) == Ok(xs, rest)
  {
    WordSizes();
    assert EncodeList(encode, xs) + rest == BigEndian(|xs|, 8) + (EncodeItems(encode, xs) + rest);
    NatRoundTrip(|xs|, 8, EncodeItems(encode, xs) + rest);
    ItemsRoundTrip(encode, parse, xs, rest);
  }

  lemma {:induction false} ItemsOnto<T>(encode: T -> Bytes, parse: Bytes -> Parsed<T>, n: nat, s: Bytes)
    requires forall t :: parse(t).Ok? ==> t == encode(parse(t).value) + parse(t).rest
    ensures var r := ParseItems(parse, n, s);
            r.Ok? ==> |r.value| == n && s == EncodeItems(encode, r.value) + r.rest
                      && forall x :: x in r.value ==> exists t :: parse(t).Ok? && parse(t).value == x
  {
    if n == 0 {
      assert s == EncodeItems(encode, []) + s;
    } else if parse(s).Ok? {
      var (x, t) := parse(s).Extract();
      ItemsOnto(encode, parse, n - 1, t);
      var r := ParseItems(parse, n - 1, t);
      if r.Ok? {
        var xs := [x] + r.value;
        assert xs[1..] == r.value;
        assert s == encode(x) + (EncodeItems(encode, r.value) + r.rest);
        assert s == EncodeItems(encode, xs) + r.rest;
      }
    }
  }

  lemma ListOnto<T>(encode: T -> Bytes, parse: Bytes -> Parsed<T>, s: Bytes)
    requires forall t :: parse(t).Ok? ==> t == encode(parse(t).value) + parse(t).rest
    ensures var r := ParseList(parse, s);
            r.Ok? ==> |r.value| < TWO_64 && s == EncodeList(encode, r.value) + r.rest
                      && forall x :: x in r.value ==> exists t :: parse(t).Ok? && parse(t).value == x
  {
    WordSizes();
    NatOnto(8, s);
    var p := ParseNat(8, s);
    if p.Ok? {
      ItemsOnto(encode, parse, p.value, p.rest);
      var r := ParseItems(parse, p.value, p.rest);
      if r.Ok? {
        assert s == BigEndian(p.value, 8) + (EncodeItems(encode, r.value) + r.rest);
      }
    }
  }

  /** Appending an item to a list appends its encoding. */
  lemma {:induction false} EncodeItemsAppend<T>(encode: T -> Bytes, xs: seq<T>, x: T)
    ensures EncodeItems(encode, xs + [x]) == EncodeItems(encode, xs) + encode(x)
  {
    if xs == [] {
      assert xs + [x] == [x];
    } else {
      EncodeItemsAppend(encode, xs[1..], x);
      assert (xs + [x])[1..] == xs[1..] + [x];
    }
  }

  // --- regrouping concatenations ----------------------------------------------------

  lemma Flatten3(a: Bytes, b: Bytes, c: Bytes)
    ensures a + b + c == a + (b + c)
  {
  }

  lemma Flatten5(a: Bytes, b: Bytes, c: Bytes, d: Bytes, e: Bytes)
    ensures a + b + c + d + e == a + (b + (c + (d + e)))
  {
    Flatten3(a + b + c, d, e);
    Flatten3(a + b, c, d + e);
    Flatten3(a, b, c + (d + e));
  }

  lemma Flatten8(a: Bytes, b: Bytes, c: Bytes, d: Bytes, e: Bytes, f: Bytes, g: Bytes, h: Bytes)
    ensures a + b + c + d + e + f + g + h == a + (b + (c + (d + (e + (f + (g + h))))))
  {
    Flatten5(a + b + c, d, e, f, g + h);
    Flatten3(a + b + c + d + e + f, g, h);
    Flatten3(a + b, c, d + (e + (f + (g + h))));
    Flatten3(a, b, c + (d + (e + (f + (g + h)))));
  }

  // --- the writers ----------------------------------------------------------------

  /** `writeWithLength`, on the bytes written to the hasher so far. */
  method WriteWithLength(h: Bytes, data: Bytes) returns (r: Bytes)
    ensures r == h + EncodeBytes(data)
  {
    r := h + BigEndian(|data|, 8);
    r := r + data;
  }

  /** A count followed by each element with its length. */
  method WriteList(h: Bytes, xs: seq<Bytes>) returns (r: Bytes)
    ensures r == h + EncodeList(EncodeBytes, xs)
  {
    r := h + BigEndian(|xs|, 8);
    var i := 0;
    while i < |xs|
      invariant 0 <= i <= |xs|
      invariant r == h + BigEndian(|xs|, 8) + EncodeItems(EncodeBytes, xs[..i])
    {
      r := WriteWithLength(r, xs[i]);
      EncodeItemsAppend(EncodeBytes, xs[..i], xs[i]);
      assert xs[..i + 1] == xs[..i] + [xs[i]];
      Flatten3(h + BigEndian(|xs|, 8), EncodeItems(EncodeBytes, xs[..i]), EncodeBytes(xs[i]));
      i := i + 1;
    }
    assert xs[..i] == xs;
    Flatten3(h, BigEndian(|xs|, 8), EncodeItems(EncodeBytes, xs));
  }

  /** A count followed by each value as eight bytes. */
  method WriteInt64s(h: Bytes, xs: seq<int64>) returns (r: Bytes)
    ensures r == h + EncodeList(EncodeInt64, xs)
  {
    r := h + BigEndian(|xs|, 8);
    var i := 0;
    while i < |xs|
      invariant 0 <= i <= |xs|
      invariant r == h + BigEndian(|xs|, 8) + EncodeItems(EncodeInt64, xs[..i])
    {
      r := r + EncodeInt64(xs[i]);
      EncodeItemsAppend(EncodeInt64, xs[..i], xs[i]);
      assert xs[..i + 1] == xs[..i] + [xs[i]];
      Flatten3(h + BigEndian(|xs|, 8), EncodeItems(EncodeInt64, xs[..i]), EncodeInt64(xs[i]));
      i := i + 1;
    }
    assert xs[..i] == xs;
    Flatten3(h, BigEndian(|xs|, 8), EncodeItems(EncodeInt64, xs));
  }
}
