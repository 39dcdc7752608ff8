/** Content-defined chunking and the deduplicating blob store (python/nedb/cascade.py). */
module Cascade {
  import opened Collections
  import opened Hashing

  const MIN: nat := 2048
  const MAX: nat := 65536
  const MASKED: nat := 8192
  const WORD: nat := 0x1_0000_0000_0000_0000

  /** The Gear table: one 64-bit word per byte value. */
  type Gear = Byte -> nat

  function Word(gear: Gear, b: Byte): nat { gear(b) }

  /** One rolling-hash step in 64-bit arithmetic. */
  function Roll(gear: Gear, x: nat, b: Byte): nat { (2 * x + Word(gear, b)) % WORD }

  /** The rolling hash after the bytes [i, pos). */
  function Rolled(gear: Gear, data: Bytes, i: nat, pos: nat): (x: nat)
    requires i <= pos <= |data|
    decreases pos
  {
    if i == pos then 0 else Roll(gear, Rolled(gear, data, i, pos - 1), data[pos - 1])
  }

  /** A chunk that starts at i may be cut before position pos. */
  predicate Cuts(gear: Gear, data: Bytes, i: nat, pos: nat)
    requires i <= pos <= |data|
  {
    pos - i >= MIN && Rolled(gear, data, i, pos) % MASKED == 0
  }

  function Limit(data: Bytes, i: nat): nat {
    if i + MAX < |data| then i + MAX else |data|
  }

  /** The first cut at or after pos, or the limit. */
  function CutFrom(gear: Gear, data: Bytes, i: nat, pos: nat): (cut: nat)
    requires i < pos <= Limit(data, i)
    ensures pos <= cut <= Limit(data, i)
    ensures cut < Limit(data, i) ==> cut - i >= MIN
    decreases |data| - pos
  {
    if pos == Limit(data, i) || Cuts(gear, data, i, pos) then pos else CutFrom(gear, data, i, pos + 1)
  }

  function Cut(gear: Gear, data: Bytes, i: nat): (cut: nat)
    requires i < |data|
    ensures i < cut <= Limit(data, i)
  {
    CutFrom(gear, data, i, i + 1)
  }

  function ChunksFrom(gear: Gear, data: Bytes, i: nat): seq<Bytes>
    requires i <= |data|
    decreases |data| - i
  {
    if i == |data| then [] else [data[i..Cut(gear, data, i)]] + ChunksFrom(gear, data, Cut(gear, data, i))
  }

  function Chunks(gear: Gear, data: Bytes): seq<Bytes> { ChunksFrom(gear, data, 0) }

  function Flatten(cs: seq<Bytes>): Bytes {
    if cs == [] then [] else cs[0] + Flatten(cs[1..])
  }

  // ---- the chunking loop ----

  method FindCut(gear: Gear, data: Bytes, i: nat) returns (cut: nat)
    requires i < |data|
    ensures cut == Cut(gear, data, i) && EndsAt(gear, data, i, cut)
  {
    CutEnds(gear, data, i);
    hide EndsAt;
    var limit := if i + MAX < |data| then i + MAX else |data|;
    var x: nat := 0;
    var pos := i;
    cut := limit;
    while pos < limit
      invariant i <= pos <= limit && x == Rolled(gear, data, i, pos)
      invariant pos == limit ==> Cut(gear, data, i) == limit
      invariant pos < limit ==> Cut(gear, data, i) == CutFrom(gear, data, i, pos + 1)
    {
      x := Roll(gear, x, data[pos]);
      pos := pos + 1;
      if pos - i >= MIN && x % MASKED == 0 {
        return pos;
      }
    }
  }

  method Chunk(gear: Gear, data: Bytes) returns (chunks: seq<Bytes>)
    ensures chunks == Chunks(gear, data)
    ensures WellCut(gear, data, 0, chunks)
  {
    ChunksWellCut(gear, data, 0);
    hide *;
    chunks := [];
    var i := 0;
    ChunksNext(gear, data, 0);
    while i < |data|
      invariant 0 <= i <= |data| && chunks + ChunksFrom(gear, data, i) == Chunks(gear, data)
    {
      var cut := FindCut(gear, data, i);
      ChunksNext(gear, data, i);
      ChunksNext(gear, data, cut);
      chunks := chunks + [data[i..cut]];
      i := cut;
    }
  }

  lemma ChunksNext(gear: Gear, data: Bytes, i: nat)
    requires i <= |data|
    ensures ChunksFrom(gear, data, 0) == Chunks(gear, data)
    ensures i == |data| ==> ChunksFrom(gear, data, i) == []
    ensures i < |data| ==> ChunksFrom(gear, data, i) == [data[i..Cut(gear, data, i)]] + ChunksFrom(gear, data, Cut(gear, data, i))
  {
    hide Cut;
  }

  // ---- where the cuts fall ----

  /** The words of bytes i to pos - 1, each doubled once for every byte after it. */
  function GearSum(gear: Gear, data: Bytes, i: nat, pos: nat): nat
    requires i <= pos <= |data|
    decreases pos - i
  {
    if i == pos then 0 else Pow2(pos - 1 - i) * Word(gear, data[i]) + GearSum(gear, data, i + 1, pos)
  }

  /** One byte more doubles the sum and adds its word. */
  lemma {:induction false} GearSumNext(gear: Gear, data: Bytes, i: nat, pos: nat)
    requires i < pos <= |data|
    ensures GearSum(gear, data, i, pos) == 2 * GearSum(gear, data, i, pos - 1) + Word(gear, data[pos - 1])
    decreases pos - i
  {
    if i < pos - 1 {
      GearSumNext(gear, data, i + 1, pos);
      var w, p := Word(gear, data[i]), Pow2(pos - 2 - i);
      assert Pow2(pos - 1 - i) == 2 * p;
      assert 2 * p * w == 2 * (p * w);
    } else {
      assert Pow2(0) == 1;
    }
  }

  /** The rolling hash is that sum in 64 bits. */
  lemma {:induction false} RolledIsSum(gear: Gear, data: Bytes, i: nat, pos: nat)
    requires i <= pos <= |data|
    ensures Rolled(gear, data, i, pos) == GearSum(gear, data, i, pos) % 0x1_0000_0000_0000_0000
    decreases pos
  {
    if i < pos {
      RolledIsSum(gear, data, i, pos - 1);
      GearSumNext(gear, data, i, pos);
      DoubleMod(GearSum(gear, data, i, pos - 1), Word(gear, data[pos - 1]));
    }
  }

  lemma DoubleMod(s: nat, w: nat)
    ensures (2 * (s % 0x1_0000_0000_0000_0000) + w) % 0x1_0000_0000_0000_0000 == (2 * s + w) % 0x1_0000_0000_0000_0000
  {}

  /** The low thirteen bits of the 64-bit sum are zero. */
  predicate LowBitsZero(gear: Gear, data: Bytes, i: nat, pos: nat)
    requires i <= pos <= |data|
  {
    GearSum(gear, data, i, pos) % 0x1_0000_0000_0000_0000 % 8192 == 0
  }

  /** A chunk from i ends at c: at the least position, 2048 bytes or more on, where
      the low bits are zero; if there is none before 65536 bytes or the end of the
      data, there. */
  ghost predicate EndsAt(gear: Gear, data: Bytes, i: nat, c: nat) {
    var limit := if i + 65536 < |data| then i + 65536 else |data|;
    && i < c <= limit
    && (forall pos :: i + 2048 <= pos < c ==> !LowBitsZero(gear, data, i, pos))
    && (c < limit ==> i + 2048 <= c && LowBitsZero(gear, data, i, c))
  }

  lemma {:induction false} CutFromEnds(gear: Gear, data: Bytes, i: nat, pos: nat)
    requires i < pos <= Limit(data, i)
    ensures var c := CutFrom(gear, data, i, pos);
            && (forall p :: pos <= p < c && i + 2048 <= p ==> !LowBitsZero(gear, data, i, p))
            && (c < Limit(data, i) ==> i + 2048 <= c && LowBitsZero(gear, data, i, c))
    decreases |data| - pos
  {
    RolledIsSum(gear, data, i, pos);
    hide GearSum, Rolled;
    if pos != Limit(data, i) && !Cuts(gear, data, i, pos) {
      CutFromEnds(gear, data, i, pos + 1);
    }
  }

  lemma CutEnds(gear: Gear, data: Bytes, i: nat)
    requires i < |data|
    ensures EndsAt(gear, data, i, Cut(gear, data, i))
  {
    hide CutFrom, LowBitsZero;
    CutFromEnds(gear, data, i, i + 1);
  }

  /** There is one such end. */
  lemma EndIsUnique(gear: Gear, data: Bytes, i: nat, c: nat, c': nat)
    requires EndsAt(gear, data, i, c) && EndsAt(gear, data, i, c')
    ensures c == c'
  {
    hide LowBitsZero;
  }

  /** The chunks from position i on, each ending where it must. */
  ghost predicate WellCut(gear: Gear, data: Bytes, i: nat, chunks: seq<Bytes>)
    decreases |chunks|
  {
    if chunks == [] then i == |data|
    else
      var c := i + |chunks[0]|;
      i <= c <= |data| && chunks[0] == data[i..c] && EndsAt(gear, data, i, c) && WellCut(gear, data, c, chunks[1..])
  }

  lemma {:induction false} ChunksWellCut(gear: Gear, data: Bytes, i: nat)
    requires i <= |data|
    ensures WellCut(gear, data, i, ChunksFrom(gear, data, i))
    decreases |data| - i
  {
    hide EndsAt;
    if i < |data| {
      CutEnds(gear, data, i);
      ChunksWellCut(gear, data, Cut(gear, data, i));
      assert ChunksFrom(gear, data, i)[1..] == ChunksFrom(gear, data, Cut(gear, data, i));
    }
  }

  /** The bytes and the words alone decide the chunks. */
  lemma {:induction false} WellCutIsUnique(gear: Gear, data: Bytes, i: nat, xs: seq<Bytes>, ys: seq<Bytes>)
    requires WellCut(gear, data, i, xs) && WellCut(gear, data, i, ys)
    ensures xs == ys
    decreases |xs|
  {
    hide EndsAt;
    if xs != [] && ys != [] {
      EndIsUnique(gear, data, i, i + |xs[0]|, i + |ys[0]|);
      WellCutIsUnique(gear, data, i + |xs[0]|, xs[1..], ys[1..]);
      assert xs == [xs[0]] + xs[1..] && ys == [ys[0]] + ys[1..];
    } else if xs != ys {
      NoEndAtEnd(gear, data);
    }
  }

  lemma NoEndAtEnd(gear: Gear, data: Bytes)
    ensures forall c :: !EndsAt(gear, data, |data|, c)
  {
    hide LowBitsZero;
  }

  // ---- what chunking keeps ----

  /** Chunks concatenate to the input. */
  lemma {:induction false} ChunksFlatten(gear: Gear, data: Bytes, i: nat)
    requires i <= |data|
    ensures Flatten(ChunksFrom(gear, data, i)) == data[i..]
    decreases |data| - i
  {
    if i < |data| {
      var c := Cut(gear, data, i);
      ChunksFlatten(gear, data, c);
      assert ChunksFrom(gear, data, i)[1..] == ChunksFrom(gear, data, c);
      assert data[i..] == data[i..c] + data[c..];
    }
  }

  /** Every chunk but the last is between MIN and MAX long; none is empty. */
  lemma {:induction false} ChunkSizes(gear: Gear, data: Bytes, i: nat, k: nat)
    requires i <= |data| && k < |ChunksFrom(gear, data, i)|
    ensures 0 < |ChunksFrom(gear, data, i)[k]| <= MAX
    ensures k < |ChunksFrom(gear, data, i)| - 1 ==> |ChunksFrom(gear, data, i)[k]| >= MIN
    decreases |data| - i
  {
    var c := Cut(gear, data, i);
    if k > 0 {
      ChunkSizes(gear, data, c, k - 1);
      assert ChunksFrom(gear, data, i)[k] == ChunksFrom(gear, data, c)[k - 1];
    }
  }

  // ---- locality ----

  /** The rolling hash of a window does not see where the window stands. */
  lemma {:induction false} RolledMoves(gear: Gear, d: Bytes, i: nat, pos: nat, e: Bytes, j: nat)
    requires i <= pos <= |d| && j + (pos - i) <= |e|
    requires d[i..pos] == e[j..j + (pos - i)]
    ensures Rolled(gear, d, i, pos) == Rolled(gear, e, j, j + (pos - i))
    decreases pos
  {
    if i < pos {
      assert d[i..pos - 1] == d[i..pos][..pos - 1 - i];
      assert e[j..j + (pos - 1 - i)] == e[j..j + (pos - i)][..pos - 1 - i];
      RolledMoves(gear, d, i, pos - 1, e, j);
      assert d[pos - 1] == d[i..pos][pos - 1 - i] == e[j..j + (pos - i)][pos - 1 - i];
    }
  }

  lemma SameFront(d: Bytes, i: nat, e: Bytes, j: nat, n: nat, m: nat)
    requires m <= n && i + n <= |d| && j + n <= |e| && d[i..i + n] == e[j..j + n]
    ensures d[i..i + m] == e[j..j + m]
  {
    assert d[i..i + n][..m] == d[i..i + m] && e[j..j + n][..m] == e[j..j + m];
  }

  /** A cut before the end of the data is decided by the bytes up to it. */
  lemma {:induction false} CutFromMoves(gear: Gear, d: Bytes, i: nat, pos: nat, e: Bytes, j: nat)
    requires i < pos <= Limit(d, i)
    requires var n := CutFrom(gear, d, i, pos) - i;
             j + n <= |e| && d[i..i + n] == e[j..j + n] && (i + n < |d| || j + n == |e|)
    ensures CutFrom(gear, e, j, j + (pos - i)) == j + (CutFrom(gear, d, i, pos) - i)
    decreases |d| - pos
  {
    var n := CutFrom(gear, d, i, pos) - i;
    SameFront(d, i, e, j, n, pos - i);
    RolledMoves(gear, d, i, pos, e, j);
    if pos != Limit(d, i) && !Cuts(gear, d, i, pos) {
      CutFromMoves(gear, d, i, pos + 1, e, j);
    }
  }

  lemma CutMoves(gear: Gear, d: Bytes, i: nat, e: Bytes, j: nat)
    requires i < |d|
    requires var n := Cut(gear, d, i) - i;
             j + n <= |e| && d[i..i + n] == e[j..j + n] && (i + n < |d| || j + n == |e|)
    ensures Cut(gear, e, j) == j + (Cut(gear, d, i) - i)
  {
    CutFromMoves(gear, d, i, i + 1, e, j);
  }

  lemma SameRest(d: Bytes, i: nat, e: Bytes, j: nat, n: nat)
    requires i + n <= |d| && j <= |e| && d[i..] == e[j..]
    ensures j + n <= |e| && d[i..i + n] == e[j..j + n] && d[i + n..] == e[j + n..]
  {
    assert |d[i..]| == |e[j..]|;
    assert d[i..][..n] == d[i..i + n] && e[j..][..n] == e[j..j + n];
    assert d[i..][n..] == d[i + n..] && e[j..][n..] == e[j + n..];
  }

  /** Chunking starts afresh at every boundary: the chunks of equal remainders
      are equal, whatever came before. */
  lemma {:induction false} ChunksRestart(gear: Gear, d: Bytes, i: nat, e: Bytes, j: nat)
    requires i <= |d| && j <= |e| && d[i..] == e[j..]
    ensures ChunksFrom(gear, d, i) == ChunksFrom(gear, e, j)
    decreases |d| - i
  {
    assert |d| - i == |e| - j;
    if i < |d| {
      var c := Cut(gear, d, i);
      var n := c - i;
      SameRest(d, i, e, j, n);
      CutMoves(gear, d, i, e, j);
      ChunksRestart(gear, d, c, e, j + n);
    }
  }

  /** Position b is reached as a chunk boundary after exactly k chunks. */
  predicate Boundary(gear: Gear, data: Bytes, k: nat, b: nat)
    requires b <= |data|
  {
    k <= |Chunks(gear, data)| && Flatten(Chunks(gear, data)[..k]) == data[..b]
  }

  /** The chunks before and after the k-th boundary. */
  lemma {:induction false} BoundarySplits(gear: Gear, data: Bytes, i: nat, k: nat) returns (b: nat)
    requires i <= |data| && k <= |ChunksFrom(gear, data, i)|
    ensures i <= b <= |data| && Flatten(ChunksFrom(gear, data, i)[..k]) == data[i..b]
    ensures ChunksFrom(gear, data, i)[k..] == ChunksFrom(gear, data, b)
    decreases k
  {
    if k == 0 {
      b := i;
    } else {
      var c, cs := Cut(gear, data, i), ChunksFrom(gear, data, i);
      b := BoundarySplits(gear, data, c, k - 1);
      assert cs[1..] == ChunksFrom(gear, data, c);
      assert cs[..k][1..] == cs[1..][..k - 1] && cs[k..] == cs[1..][k - 1..];
      assert data[i..b] == data[i..c] + data[c..b];
    }
  }

  lemma SameInPrefix(d: Bytes, e: Bytes, p: nat, i: nat, c: nat)
    requires i <= c <= p <= |d| && p <= |e| && d[..p] == e[..p]
    ensures d[i..c] == e[i..c]
  {
    assert d[..p][i..c] == d[i..c];
    assert e[..p][i..c] == e[i..c];
  }

  /** A change after a common prefix keeps every chunk that ends inside it (and
      is not the last one). */
  lemma {:induction false} PrefixLocal(gear: Gear, d: Bytes, e: Bytes, i: nat, p: nat, k: nat)
    requires i <= p <= |d| && p <= |e| && d[..p] == e[..p]
    requires k <= |ChunksFrom(gear, d, i)|
    requires i + |Flatten(ChunksFrom(gear, d, i)[..k])| <= p
    requires i + |Flatten(ChunksFrom(gear, d, i)[..k])| < |d|
    ensures k <= |ChunksFrom(gear, e, i)| && ChunksFrom(gear, e, i)[..k] == ChunksFrom(gear, d, i)[..k]
    decreases k
  {
    if k > 0 {
      var cs, c := ChunksFrom(gear, d, i), Cut(gear, d, i);
      assert cs[..k][1..] == cs[1..][..k - 1] && cs[1..] == ChunksFrom(gear, d, c);
      assert |Flatten(cs[..k])| == (c - i) + |Flatten(ChunksFrom(gear, d, c)[..k - 1])|;
      var n := c - i;
      SameInPrefix(d, e, p, i, c);
      CutMoves(gear, d, i, e, i);
      PrefixLocal(gear, d, e, c, p, k - 1);
      var es := ChunksFrom(gear, e, i);
      assert es[1..] == ChunksFrom(gear, e, c);
      assert es[..k] == [es[0]] + es[1..][..k - 1] && cs[..k] == [cs[0]] + cs[1..][..k - 1];
    }
  }

  /** Edit locality. Replace the middle of P + A + S by B: every chunk of the
      old data that ends inside P (and is not its last) is kept, and from the
      first pair of boundaries that stand at one place of S the two chunk lists
      are the same. */
  lemma EditLocality(gear: Gear, P: Bytes, A: Bytes, B: Bytes, S: Bytes, k: nat, m: nat, n: nat, s: nat)
    requires k <= |Chunks(gear, P + A + S)| && s <= |S|
    requires |Flatten(Chunks(gear, P + A + S)[..k])| <= |P|
    requires |Flatten(Chunks(gear, P + A + S)[..k])| < |P + A + S|
    requires Boundary(gear, P + A + S, m, |P + A| + s) && Boundary(gear, P + B + S, n, |P + B| + s)
    ensures k <= |Chunks(gear, P + B + S)| && Chunks(gear, P + B + S)[..k] == Chunks(gear, P + A + S)[..k]
    ensures Chunks(gear, P + A + S)[m..] == Chunks(gear, P + B + S)[n..]
  {
    var d, e := P + A + S, P + B + S;
    hide ChunksFrom, Flatten, Boundary;
    PrefixOf(P, A, S);
    PrefixOf(P, B, S);
    PrefixLocal(gear, d, e, 0, |P|, k);
    AtBoundary(gear, d, m, |P + A| + s);
    AtBoundary(gear, e, n, |P + B| + s);
    SuffixOf(P + A, S, s);
    SuffixOf(P + B, S, s);
    ChunksRestart(gear, d, |P + A| + s, e, |P + B| + s);
  }

  lemma PrefixOf(P: Bytes, A: Bytes, S: Bytes)
    ensures (P + A + S)[..|P|] == P
  {}

  lemma SuffixOf(a: Bytes, S: Bytes, s: nat)
    requires s <= |S|
    ensures (a + S)[|a| + s..] == S[s..]
  {}

  /** Past a boundary the chunk list is the chunk list of the remainder. */
  lemma AtBoundary(gear: Gear, data: Bytes, k: nat, b: nat)
    requires b <= |data| && Boundary(gear, data, k, b)
    ensures Chunks(gear, data)[k..] == ChunksFrom(gear, data, b)
  {
    var x := BoundarySplits(gear, data, 0, k);
    assert |data[..b]| == b && |data[..x]| == x;
  }

  // ---- the cut test sees thirteen bytes ----

  /** x and y have the same low k bits. */
  ghost predicate LowBitsAgree(x: nat, y: nat, k: nat) {
    exists q: int :: x - y == q * Pow2(k)
  }

  /** Each rolled-in byte makes one more low bit independent of the past. */
  lemma RollForgets(gear: Gear, x: nat, y: nat, b: Byte, k: nat)
    requires LowBitsAgree(x, y, k) && k < 64
    ensures LowBitsAgree(Roll(gear, x, b), Roll(gear, y, b), k + 1)
  {
    var q: int :| x - y == q * Pow2(k);
    var u, v := 2 * x + Word(gear, b), 2 * y + Word(gear, b);
    var r := Pow2Divides(k + 1);
    assert u - v == q * Pow2(k + 1) by { assert u - v == 2 * (x - y); Doubles(q, Pow2(k)); }
    assert u % WORD == u - (u / WORD) * WORD && v % WORD == v - (v / WORD) * WORD;
    Collect(q, u / WORD, v / WORD, r, Pow2(k + 1));
    assert Roll(gear, x, b) - Roll(gear, y, b) == (q - (u / WORD) * r + (v / WORD) * r) * Pow2(k + 1);
  }

  lemma Doubles(q: int, p: int)
    ensures 2 * (q * p) == q * (2 * p)
  {}

  lemma Collect(q: int, a: int, b: int, r: int, p: int)
    ensures q * p - a * (r * p) + b * (r * p) == (q - a * r + b * r) * p
  {}

  /** 2^64 is a multiple of 2^k for k up to 64. */
  lemma {:induction false} Pow2Divides(k: nat) returns (r: nat)
    requires k <= 64
    ensures WORD == r * Pow2(k)
    decreases 64 - k
  {
    if k == 64 {
      Pow2At64();
      r := 1;
    } else {
      var r' := Pow2Divides(k + 1);
      r := 2 * r';
      Doubles(r', Pow2(k));
    }
  }

  lemma Pow2At64()
    ensures Pow2(64) == WORD && Pow2(13) == MASKED
  {
    Pow2Plus8(0);
    Pow2Plus8(8);
    Pow2Plus8(16);
    Pow2Plus8(24);
    Pow2Plus8(32);
    Pow2Plus8(40);
    Pow2Plus8(48);
    Pow2Plus8(56);
    assert Pow2(13) == 8 * Pow2(10) == 32 * Pow2(8);
  }

  lemma Pow2Plus8(k: nat)
    ensures Pow2(k + 8) == 256 * Pow2(k)
  {
    assert Pow2(k + 8) == 4 * Pow2(k + 6);
    assert Pow2(k + 6) == 4 * Pow2(k + 4);
    assert Pow2(k + 4) == 4 * Pow2(k + 2);
  }

  lemma {:induction false} WindowDecides(gear: Gear, d: Bytes, i: nat, p: nat, e: Bytes, j: nat, q: nat, k: nat)
    requires i + k <= p <= |d| && j + k <= q <= |e| && k <= 64
    requires d[p - k..p] == e[q - k..q]
    ensures LowBitsAgree(Rolled(gear, d, i, p), Rolled(gear, e, j, q), k)
    decreases k
  {
    if k == 0 {
      assert Rolled(gear, d, i, p) - Rolled(gear, e, j, q) == (Rolled(gear, d, i, p) - Rolled(gear, e, j, q)) * Pow2(0);
    } else {
      assert d[p - k..p - 1] == d[p - k..p][..k - 1] && e[q - k..q - 1] == e[q - k..q][..k - 1];
      assert d[p - 1] == d[p - k..p][k - 1] && e[q - 1] == e[q - k..q][k - 1];
      WindowDecides(gear, d, i, p - 1, e, j, q - 1, k - 1);
      RollForgets(gear, Rolled(gear, d, i, p - 1), Rolled(gear, e, j, q - 1), d[p - 1], k - 1);
    }
  }

  /** The cut test at a position depends on the last thirteen bytes only,
      wherever the two chunks started. */
  lemma CutTestSeesThirteenBytes(gear: Gear, d: Bytes, i: nat, p: nat, e: Bytes, j: nat, q: nat)
    requires i + MIN <= p <= |d| && j + MIN <= q <= |e|
    requires d[p - 13..p] == e[q - 13..q]
    ensures Cuts(gear, d, i, p) <==> Cuts(gear, e, j, q)
  {
    hide Rolled, LowBitsAgree;
    WindowDecides(gear, d, i, p, e, j, q, 13);
    var x, y := Rolled(gear, d, i, p), Rolled(gear, e, j, q);
    LowBitsDecide(x, y);
  }

  /** Numbers with the same thirteen low bits are alike to the cut test. */
  lemma LowBitsDecide(x: nat, y: nat)
    requires LowBitsAgree(x, y, 13)
    ensures x % MASKED == y % MASKED
  {
    Pow2Plus8(5);
    var r: int :| x - y == r * Pow2(13);
    assert x == y + r * 8192;
  }
}
