/** Bytes, fixed-width little-endian integers, and hashing as a parameter.

    BLAKE2b is foreign code. Every hashed structure takes the hash function as
    a parameter, so a theorem holds for every function from byte strings to
    32-byte digests. Binding theorems do not assume collision freedom: they
    conclude "equal, or here are two hashed strings that collide", with the two
    strings confined to the ones the data at hand makes the program hash. */
module Hashing {

  type Byte = b: int | 0 <= b < 256
  type Bytes = seq<Byte>

  /** A 32-byte digest, held as the number its bytes spell. */
  newtype Digest = x: int | 0 <= x < 0x1_0000_0000_0000_0000_0000_0000_0000_0000_0000_0000_0000_0000_0000_0000_0000_0000

  type Hash = Bytes -> Digest

  datatype Option<+T> = None | Some(value: T)

  /** The digest of `x`, by whichever hash function is in force. */
  function Blake(h: Hash, x: Bytes): Digest { h(x) }

  predicate Collides(h: Hash, x: Bytes, y: Bytes) {
    x != y && Blake(h, x) == Blake(h, y)
  }

  /** Some string of `xs` collides with some string of `ys`. */
  ghost predicate CollisionBetween(h: Hash, xs: set<Bytes>, ys: set<Bytes>) {
    exists x, y :: x in xs && y in ys && Collides(h, x, y)
  }

  lemma CollisionGrows(h: Hash, xs: set<Bytes>, ys: set<Bytes>, xs': set<Bytes>, ys': set<Bytes>)
    requires xs <= xs' && ys <= ys' && CollisionBetween(h, xs, ys)
    ensures CollisionBetween(h, xs', ys')
  {
    var x, y :| x in xs && y in ys && Collides(h, x, y);
    assert x in xs' && y in ys';
  }

  // ---- little-endian integers ----

  function Pow256(w: nat): (p: nat)
    ensures p > 0
  {
    if w == 0 then 1 else 256 * Pow256(w - 1)
  }

  function ToLE(n: nat, width: nat): (b: Bytes)
    ensures |b| == width
  {
    if width == 0 then [] else [n % 256] + ToLE(n / 256, width - 1)
  }

  function FromLE(b: Bytes): (n: nat)
    ensures n < Pow256(|b|)
  {
    if b == [] then 0 else b[0] + 256 * FromLE(b[1..])
  }

  /** Decoding undoes encoding for every value that fits the width. */
  lemma {:induction false} FromToLE(n: nat, width: nat)
    requires n < Pow256(width)
    ensures FromLE(ToLE(n, width)) == n
  {
    if width > 0 {
      FromToLE(n / 256, width - 1);
      assert ToLE(n, width)[1..] == ToLE(n / 256, width - 1);
    }
  }

  /** The low byte stands first: byte k counts 256^k. */
  lemma {:induction false} LowByteFirst(n: nat, width: nat, k: nat)
    requires k < width
    ensures ToLE(n, width)[k] == n / Pow256(k) % 256
  {
    if k > 0 {
      LowByteFirst(n / 256, width - 1, k - 1);
      DivideTwice(n, Pow256(k - 1));
    }
  }

  lemma DivideTwice(n: nat, p: nat)
    requires p > 0
    ensures n / (256 * p) == n / 256 / p
  {
    var a, r := n / 256, n % 256;
    var b, t := a / p, a % p;
    assert n == 256 * (b * p + t) + r;
    assert n == b * (256 * p) + (256 * t + r) by { assert 256 * (b * p) == b * (256 * p); }
    assert 256 * t + r < 256 * p;
    QuotientIs(n, 256 * p, b, 256 * t + r);
  }

  lemma QuotientIs(n: nat, d: nat, q: nat, r: nat)
    requires d > 0 && n == q * d + r && r < d
    ensures n / d == q
  {
    var e := n / d - q;
    assert n == (n / d) * d + n % d;
    assert (n / d) * d == q * d + e * d;
  }

  /** Two equal sums of equal-length halves have equal halves. */
  lemma ConcatSplits(a: Bytes, b: Bytes, a': Bytes, b': Bytes)
    requires |a| == |a'| && a + b == a' + b'
    ensures a == a' && b == b'
  {
    assert a == (a + b)[..|a|] && a' == (a' + b')[..|a|];
    assert b == (a + b)[|a|..] && b' == (a' + b')[|a|..];
  }

  // ---- digests as bytes ----

  function Raw(d: Digest): (b: Bytes)
    ensures |b| == 32
  {
    ToLE(d as int, 32)
  }

  function FromRaw(b: Bytes): (d: Digest)
    requires |b| == 32
  {
    Pow256At32();
    FromLE(b) as Digest
  }

  lemma Pow256Plus8(w: nat)
    ensures Pow256(w + 8) == 0x1_0000_0000_0000_0000 * Pow256(w)
  {
    assert Pow256(w + 8) == 0x1_0000 * Pow256(w + 6);
    assert Pow256(w + 6) == 0x1_0000 * Pow256(w + 4);
    assert Pow256(w + 4) == 0x1_0000 * Pow256(w + 2);
    assert Pow256(w + 2) == 0x1_0000 * Pow256(w);
  }

  lemma Pow256At32()
    ensures Pow256(32) == 0x1_0000_0000_0000_0000_0000_0000_0000_0000_0000_0000_0000_0000_0000_0000_0000_0000
  {
    Pow256Plus8(0);
    Pow256Plus8(8);
    Pow256Plus8(16);
    Pow256Plus8(24);
  }

  lemma RawInverts(d: Digest)
    ensures FromRaw(Raw(d)) == d
  {
    Pow256At32();
    FromToLE(d as int, 32);
  }

  /** Hashing two digests side by side binds both. */
  lemma PairSplits(a: Digest, b: Digest, a': Digest, b': Digest)
    requires Raw(a) + Raw(b) == Raw(a') + Raw(b')
    ensures a == a' && b == b'
  {
    ConcatSplits(Raw(a), Raw(b), Raw(a'), Raw(b'));
    RawInverts(a);
    RawInverts(a');
    RawInverts(b);
    RawInverts(b');
  }

  // ---- digests as lower-case hexadecimal text ----

  function Nibble(x: nat): (c: Byte)
    requires x < 16
  {
    if x < 10 then 48 + x else 87 + x
  }

  function Hex(b: Bytes): (t: Bytes)
    ensures |t| == 2 * |b|
  {
    if b == [] then [] else [Nibble(b[0] / 16), Nibble(b[0] % 16)] + Hex(b[1..])
  }

  /** Digits and lower-case letters, the high half of a byte first. */
  lemma HexDigits()
    ensures Hex([0x09, 0xaf]) == ['0' as int, '9' as int, 'a' as int, 'f' as int]
  {
    assert [0x09, 0xaf][1..] == [0xaf];
    assert Hex([0xaf]) == [97, 102] + Hex([]);
  }

  lemma {:induction false} HexInjective(a: Bytes, b: Bytes)
    requires Hex(a) == Hex(b)
    ensures a == b
  {
    assert |Hex(a)| == |Hex(b)|;
    if a != [] {
      assert Hex(a)[0] == Hex(b)[0] && Hex(a)[1] == Hex(b)[1];
      assert Hex(a)[2..] == Hex(a[1..]) && Hex(b)[2..] == Hex(b[1..]);
      HexInjective(a[1..], b[1..]);
      assert a == [a[0]] + a[1..] && b == [b[0]] + b[1..];
    }
  }

  function HexOf(d: Digest): (t: Bytes)
    ensures |t| == 64
  {
    Hex(Raw(d))
  }

  lemma HexOfInjective(a: Digest, b: Digest)
    requires HexOf(a) == HexOf(b)
    ensures a == b
  {
    HexInjective(Raw(a), Raw(b));
    RawInverts(a);
    RawInverts(b);
  }
}
