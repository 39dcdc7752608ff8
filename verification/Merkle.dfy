/** Merkle commitments over chunk digests (python/nedb/merkle.py). */
module Merkle {
  import opened Collections
  import opened Hashing

  /** The right child of parent k; an odd level pairs its last node with itself. */
  function Right(level: seq<Digest>, k: nat): Digest
    requires 2 * k < |level|
  {
    if 2 * k + 1 < |level| then level[2 * k + 1] else level[2 * k]
  }

  /** The string hashed into parent k. */
  function Siblings(level: seq<Digest>, k: nat): Bytes
    requires 2 * k < |level|
  {
    Raw(level[2 * k]) + Raw(Right(level, k))
  }

  /** The next level up. */
  function Up(h: Hash, level: seq<Digest>): (up: seq<Digest>)
    ensures |up| == (|level| + 1) / 2
    ensures forall k {:trigger up[k]} :: 0 <= k < |up| ==> up[k] == Blake(h, Siblings(level, k))
  {
    seq((|level| + 1) / 2, k requires 0 <= k < (|level| + 1) / 2 => Blake(h, Siblings(level, k)))
  }

  function Root(h: Hash, level: seq<Digest>): Digest
    requires level != []
    decreases |level|
  {
    if |level| == 1 then level[0] else Root(h, Up(h, level))
  }

  function RootOf(h: Hash, leaves: seq<Digest>): Digest {
    if leaves == [] then 0 else Root(h, leaves)
  }

  /** The root of no leaves is zero, of one the leaf, of two the hash of both in
      order, of three that of the hash of the first two and of the last doubled. */
  lemma SmallRoots(h: Hash, a: Digest, b: Digest, c: Digest)
    ensures RootOf(h, []) == 0 && RootOf(h, [a]) == a
    ensures RootOf(h, [a, b]) == Blake(h, Raw(a) + Raw(b))
    ensures RootOf(h, [a, b, c]) == Blake(h, Raw(Blake(h, Raw(a) + Raw(b))) + Raw(Blake(h, Raw(c) + Raw(c))))
  {
    var two, three := Up(h, [a, b]), Up(h, [a, b, c]);
    assert |two| == 1 && two[0] == Blake(h, Raw(a) + Raw(b));
    assert |three| == 2 && three[0] == Blake(h, Raw(a) + Raw(b)) && three[1] == Blake(h, Raw(c) + Raw(c));
    assert Root(h, [a, b]) == Root(h, two) == two[0];
    var top := Up(h, three);
    assert |top| == 1 && top[0] == Blake(h, Raw(three[0]) + Raw(three[1]));
    assert Root(h, [a, b, c]) == Root(h, three) == Root(h, top);
  }

  datatype Side = L | R
  datatype Step = Step(sibling: Digest, side: Side)

  /** The proof step for the node at idx: its sibling and the side it stands on. */
  function StepAt(level: seq<Digest>, idx: nat): Step
    requires idx < |level|
  {
    if idx % 2 == 0 then Step(Right(level, idx / 2), R) else Step(level[idx - 1], L)
  }

  function Proof(h: Hash, level: seq<Digest>, idx: nat): seq<Step>
    requires idx < |level|
    decreases |level|
  {
    if |level| == 1 then []
    else [StepAt(level, idx)] + Proof(h, Up(h, level), idx / 2)
  }

  /** What `merkle_verify` folds one step into: the string that is hashed. */
  function Input(x: Digest, s: Step): Bytes {
    if s.side == R then Raw(x) + Raw(s.sibling) else Raw(s.sibling) + Raw(x)
  }

  function Climb(h: Hash, leaf: Digest, path: seq<Step>): Digest
    decreases |path|
  {
    if path == [] then leaf else Climb(h, Blake(h, Input(leaf, path[0])), path[1..])
  }

  // ---- the three operations, as the loops they are ----

  method BuildLevel(h: Hash, level: seq<Digest>) returns (nxt: seq<Digest>)
    ensures nxt == Up(h, level)
  {
    nxt := [];
    var i := 0;
    while i < |level|
      invariant i == 2 * |nxt| && |nxt| <= (|level| + 1) / 2
      invariant nxt == Up(h, level)[..|nxt|]
    {
      var a := level[i];
      var b := if i + 1 < |level| then level[i + 1] else level[i];
      nxt := nxt + [Blake(h, Raw(a) + Raw(b))];
      i := i + 2;
    }
  }

  method MerkleRoot(h: Hash, leaves: seq<Digest>) returns (root: Digest)
    ensures root == RootOf(h, leaves)
  {
    if leaves == [] {
      return 0;
    }
    var level := leaves;
    while |level| > 1
      invariant level != [] && Root(h, level) == Root(h, leaves)
      decreases |level|
    {
      level := BuildLevel(h, level);
    }
    return level[0];
  }

  lemma StepIs(level: seq<Digest>, i: nat)
    requires i < |level|
    ensures StepAt(level, i) == if i % 2 == 0 then Step(if i + 1 < |level| then level[i + 1] else level[i], R) else Step(level[i - 1], L)
  {
    assert i == 2 * (i / 2) + i % 2;
  }

  /** A step with the sibling on the right hashes it behind, one on the left in front;
      the two leaves of a tree have each other for their only step. */
  lemma SmallProofs(h: Hash, a: Digest, b: Digest)
    ensures Climb(h, a, [Step(b, R)]) == Blake(h, Raw(a) + Raw(b)) && Climb(h, b, [Step(a, L)]) == Blake(h, Raw(a) + Raw(b))
    ensures Proof(h, [a, b], 0) == [Step(b, R)] && Proof(h, [a, b], 1) == [Step(a, L)] && Proof(h, [a], 0) == []
  {
    assert |Up(h, [a, b])| == 1;
    assert Climb(h, Blake(h, Raw(a) + Raw(b)), []) == Blake(h, Raw(a) + Raw(b));
    assert Climb(h, a, [Step(b, R)]) == Climb(h, Blake(h, Input(a, Step(b, R))), [Step(b, R)][1..]);
    assert Climb(h, b, [Step(a, L)]) == Climb(h, Blake(h, Input(b, Step(a, L))), [Step(a, L)][1..]);
  }

  method MerkleProof(h: Hash, leaves: seq<Digest>, idx: nat) returns (path: seq<Step>)
    requires idx < |leaves|
    ensures path == Proof(h, leaves, idx)
  {
    hide Up, StepAt;
    path := [];
    var level, i := leaves, idx;
    while |level| > 1
      invariant 0 <= i < |level| && path + Proof(h, level, i) == Proof(h, leaves, idx)
      decreases |level|
    {
      var step := if i % 2 == 0 then Step(if i + 1 < |level| then level[i + 1] else level[i], R)
                  else Step(level[i - 1], L);
      StepIs(level, i);
      assert path + Proof(h, level, i) == path + [step] + Proof(h, Up(h, level), i / 2);
      path := path + [step];
      level := BuildLevel(h, level);
      i := i / 2;
    }
  }

  method MerkleVerify(h: Hash, leaf: Digest, path: seq<Step>, root: Digest) returns (ok: bool)
    ensures ok <==> Climb(h, leaf, path) == root
  {
    var x := leaf;
    for k := 0 to |path|
      invariant Climb(h, x, path[k..]) == Climb(h, leaf, path)
    {
      assert path[k..][1..] == path[k + 1..];
      x := Blake(h, if path[k].side == R then Raw(x) + Raw(path[k].sibling) else Raw(path[k].sibling) + Raw(x));
    }
    ok := x == root;
  }

  // ---- completeness: every generated proof is accepted, and is short ----

  /** `d` is the ceiling of the base-two logarithm of `n`. */
  predicate IsCeilLog2(n: nat, d: nat) {
    n <= Pow2(d) && (d > 0 ==> Pow2(d - 1) < n)
  }

  /** One step of the climb reaches the parent. */
  lemma StepClimbs(h: Hash, level: seq<Digest>, idx: nat)
    requires idx < |level|
    ensures Blake(h, Input(level[idx], StepAt(level, idx))) == Up(h, level)[idx / 2]
  {
    hide Up;
    var up := Up(h, level);
    assert up[idx / 2] == Blake(h, Siblings(level, idx / 2));
    assert idx == 2 * (idx / 2) + idx % 2;
  }

  lemma {:induction false} ProofVerifies(h: Hash, level: seq<Digest>, idx: nat)
    requires idx < |level|
    ensures Climb(h, level[idx], Proof(h, level, idx)) == Root(h, level)
    decreases |level|
  {
    if |level| > 1 {
      StepClimbs(h, level, idx);
      ProofVerifies(h, Up(h, level), idx / 2);
      assert Proof(h, level, idx)[1..] == Proof(h, Up(h, level), idx / 2);
    }
  }

  lemma {:induction false} ProofLength(h: Hash, level: seq<Digest>, idx: nat)
    requires idx < |level|
    ensures IsCeilLog2(|level|, |Proof(h, level, idx)|)
    decreases |level|
  {
    if |level| > 1 {
      ProofLength(h, Up(h, level), idx / 2);
    }
  }

  // ---- binding ----

  /** Every string the fold of `path` hashes. */
  function ClimbInputs(h: Hash, leaf: Digest, path: seq<Step>): set<Bytes>
    decreases |path|
  {
    if path == [] then {}
    else {Input(leaf, path[0])} + ClimbInputs(h, Blake(h, Input(leaf, path[0])), path[1..])
  }

  predicate SameSides(p: seq<Step>, q: seq<Step>) {
    |p| == |q| && forall k :: 0 <= k < |p| ==> p[k].side == q[k].side
  }

  /** Two accepted proofs for one position and one root carry the same leaf and
      the same siblings, or two strings hashed by the two checks collide. */
  lemma {:induction false} ProofBinds(h: Hash, x: Digest, p: seq<Step>, y: Digest, q: seq<Step>)
    requires SameSides(p, q) && Climb(h, x, p) == Climb(h, y, q)
    ensures (x == y && p == q) || CollisionBetween(h, ClimbInputs(h, x, p), ClimbInputs(h, y, q))
    decreases |p|
  {
    if p != [] {
      var i, j := Input(x, p[0]), Input(y, q[0]);
      if i != j && Blake(h, i) == Blake(h, j) {
        assert Collides(h, i, j) && i in ClimbInputs(h, x, p) && j in ClimbInputs(h, y, q);
      } else {
        ProofBinds(h, Blake(h, i), p[1..], Blake(h, j), q[1..]);
        if CollisionBetween(h, ClimbInputs(h, Blake(h, i), p[1..]), ClimbInputs(h, Blake(h, j), q[1..])) {
          CollisionGrows(h, ClimbInputs(h, Blake(h, i), p[1..]), ClimbInputs(h, Blake(h, j), q[1..]),
                         ClimbInputs(h, x, p), ClimbInputs(h, y, q));
        } else {
          if p[0].side == R { PairSplits(x, p[0].sibling, y, q[0].sibling); }
          else { PairSplits(p[0].sibling, x, q[0].sibling, y); }
          assert p == [p[0]] + p[1..] && q == [q[0]] + q[1..];
        }
      }
    }
  }

  /** The strings hashed to build one level. */
  function LevelInputs(level: seq<Digest>): set<Bytes> {
    set k | 0 <= k < (|level| + 1) / 2 :: Siblings(level, k)
  }

  /** Every string hashed to compute the root. */
  function RootInputs(h: Hash, level: seq<Digest>): set<Bytes>
    decreases |level|
  {
    if |level| <= 1 then {} else LevelInputs(level) + RootInputs(h, Up(h, level))
  }

  /** One level: equal parents have equal children, or a collision is at hand. */
  lemma UpBinds(h: Hash, xs: seq<Digest>, ys: seq<Digest>)
    requires |xs| == |ys| && Up(h, xs) == Up(h, ys)
    ensures xs == ys || CollisionBetween(h, LevelInputs(xs), LevelInputs(ys))
  {
    if !CollisionBetween(h, LevelInputs(xs), LevelInputs(ys)) {
      forall i | 0 <= i < |xs| ensures xs[i] == ys[i] {
        var k := i / 2;
        var a, b := Siblings(xs, k), Siblings(ys, k);
        assert a in LevelInputs(xs) && b in LevelInputs(ys);
        assert Up(h, xs)[k] == Up(h, ys)[k];
        assert !Collides(h, a, b);
        PairSplits(xs[2 * k], Right(xs, k), ys[2 * k], Right(ys, k));
      }
    }
  }

  /** Equally long leaf lists with one root are equal, or a collision is at hand. */
  lemma {:induction false} RootBinds(h: Hash, xs: seq<Digest>, ys: seq<Digest>)
    requires |xs| == |ys| > 0 && Root(h, xs) == Root(h, ys)
    ensures xs == ys || CollisionBetween(h, RootInputs(h, xs), RootInputs(h, ys))
    decreases |xs|
  {
    if |xs| > 1 {
      var us, vs := Up(h, xs), Up(h, ys);
      RootBinds(h, us, vs);
      if CollisionBetween(h, RootInputs(h, us), RootInputs(h, vs)) {
        CollisionGrows(h, RootInputs(h, us), RootInputs(h, vs), RootInputs(h, xs), RootInputs(h, ys));
      } else {
        UpBinds(h, xs, ys);
        if xs != ys {
          CollisionGrows(h, LevelInputs(xs), LevelInputs(ys), RootInputs(h, xs), RootInputs(h, ys));
        }
      }
    }
  }

  // ---- lists of different lengths ----

  /** Odd-node duplication makes lists of different lengths share a root. */
  lemma LengthsAreNotBound(h: Hash, a: Digest, b: Digest, c: Digest)
    ensures [a, b, c] != [a, b, c, c] && RootOf(h, [a, b, c]) == RootOf(h, [a, b, c, c])
  {
    assert Up(h, [a, b, c]) == Up(h, [a, b, c, c]);
  }

  /** The leaf that odd-node duplication puts at position p of the complete tree
      of depth d over n leaves. */
  function Source(n: nat, d: nat, p: nat): (i: nat)
    requires n > 0 && n <= Pow2(d) && p < Pow2(d)
    ensures i < n
  {
    if d == 0 then 0
    else
      var q := Source((n + 1) / 2, d - 1, p / 2);
      if p % 2 == 0 || 2 * q + 1 >= n then 2 * q else 2 * q + 1
  }

  /** The complete leaf list a root of depth d really commits to. */
  function Complete(xs: seq<Digest>, d: nat): (full: seq<Digest>)
    requires 0 < |xs| <= Pow2(d)
    ensures |full| == Pow2(d)
    ensures forall p :: 0 <= p < Pow2(d) ==> full[p] == xs[Source(|xs|, d, p)]
  {
    seq(Pow2(d), p requires 0 <= p < Pow2(d) => xs[Source(|xs|, d, p)])
  }

  /** One position of the complete tree in which leaf i stands. */
  function Place(n: nat, d: nat, i: nat): (p: nat)
    requires i < n <= Pow2(d)
    ensures p < Pow2(d)
  {
    if d == 0 then 0 else 2 * Place((n + 1) / 2, d - 1, i / 2) + i % 2
  }

  /** Every leaf stands somewhere in the complete tree. */
  lemma {:induction false} SourceOfPlace(n: nat, d: nat, i: nat)
    requires i < n <= Pow2(d)
    ensures Source(n, d, Place(n, d, i)) == i
  {
    if d > 0 {
      SourceOfPlace((n + 1) / 2, d - 1, i / 2);
      assert Place(n, d, i) / 2 == Place((n + 1) / 2, d - 1, i / 2);
    }
  }

  /** Parent k of the complete tree has the children of the node it stands for. */
  lemma CompleteSiblings(xs: seq<Digest>, d: nat, k: nat)
    requires d > 0 && 0 < |xs| <= Pow2(d) && k < Pow2(d - 1)
    ensures Siblings(Complete(xs, d), k) == Siblings(xs, Source((|xs| + 1) / 2, d - 1, k))
  {
    assert (2 * k) / 2 == k && (2 * k + 1) / 2 == k;
    assert (2 * k) % 2 == 0 && (2 * k + 1) % 2 == 1;
  }

  /** Going up commutes with completing. */
  lemma CompleteUp(h: Hash, xs: seq<Digest>, d: nat)
    requires d > 0 && 0 < |xs| <= Pow2(d)
    ensures Up(h, Complete(xs, d)) == Complete(Up(h, xs), d - 1)
  {
    var a, b := Up(h, Complete(xs, d)), Complete(Up(h, xs), d - 1);
    forall k | 0 <= k < Pow2(d - 1) ensures a[k] == b[k] {
      CompleteSiblings(xs, d, k);
    }
  }

  lemma CompleteInputs(xs: seq<Digest>, d: nat)
    requires d > 0 && 0 < |xs| <= Pow2(d)
    ensures LevelInputs(Complete(xs, d)) == LevelInputs(xs)
  {
    var full, n := Complete(xs, d), (|xs| + 1) / 2;
    assert |full| == 2 * Pow2(d - 1);
    forall i | 0 <= i < n ensures Siblings(xs, i) in LevelInputs(full) {
      SourceOfPlace(n, d - 1, i);
      CompleteSiblings(xs, d, Place(n, d - 1, i));
    }
    forall p | 0 <= p < Pow2(d - 1) ensures Siblings(full, p) in LevelInputs(xs) {
      CompleteSiblings(xs, d, p);
    }
  }

  lemma {:induction false} CompleteKeepsRoot(h: Hash, xs: seq<Digest>, d: nat)
    requires xs != [] && IsCeilLog2(|xs|, d)
    ensures Root(h, Complete(xs, d)) == Root(h, xs)
    ensures RootInputs(h, Complete(xs, d)) == RootInputs(h, xs)
    decreases d
  {
    if d == 0 {
      assert Complete(xs, d) == xs;
    } else {
      CompleteUp(h, xs, d);
      CompleteInputs(xs, d);
      CompleteKeepsRoot(h, Up(h, xs), d - 1);
    }
  }

  /** Two leaf lists of one depth share a root exactly when their complete leaf
      lists are the same (up to a collision among the strings hashed). */
  lemma SameDepthRoots(h: Hash, xs: seq<Digest>, ys: seq<Digest>, d: nat)
    requires xs != [] && ys != [] && IsCeilLog2(|xs|, d) && IsCeilLog2(|ys|, d)
    requires !CollisionBetween(h, RootInputs(h, xs), RootInputs(h, ys))
    ensures Root(h, xs) == Root(h, ys) <==> Complete(xs, d) == Complete(ys, d)
  {
    CompleteKeepsRoot(h, xs, d);
    CompleteKeepsRoot(h, ys, d);
    if Root(h, xs) == Root(h, ys) {
      RootBinds(h, Complete(xs, d), Complete(ys, d));
    }
  }

  /** The level n steps up. */
  function UpN(h: Hash, level: seq<Digest>, n: nat): seq<Digest>
    decreases n
  {
    if n == 0 then level else UpN(h, Up(h, level), n - 1)
  }

  lemma UpSharesRoot(h: Hash, xs: seq<Digest>, d: nat)
    requires xs != [] && IsCeilLog2(|xs|, d) && d > 0
    ensures Up(h, xs) != [] && IsCeilLog2(|Up(h, xs)|, d - 1)
    ensures Root(h, Up(h, xs)) == Root(h, xs) && RootInputs(h, Up(h, xs)) <= RootInputs(h, xs)
  {
    hide LevelInputs;
  }

  /** Any level of the tree, taken for leaves, has the root of the tree. */
  lemma {:induction false} LevelsShareRoot(h: Hash, xs: seq<Digest>, d: nat, n: nat)
    requires xs != [] && IsCeilLog2(|xs|, d) && n <= d
    ensures UpN(h, xs, n) != [] && IsCeilLog2(|UpN(h, xs, n)|, d - n) && |UpN(h, xs, n)| <= Pow2(d - n)
    ensures Root(h, UpN(h, xs, n)) == Root(h, xs) && RootInputs(h, UpN(h, xs, n)) <= RootInputs(h, xs)
    decreases n
  {
    hide Root, RootInputs;
    if n > 0 {
      UpSharesRoot(h, xs, d);
      LevelsShareRoot(h, Up(h, xs), d - 1, n - 1);
    }
  }

  /** Exactly when two leaf lists of any depths share a root: when the deeper one,
      raised to the depth of the other, has the same complete leaf list (up to a
      collision among the strings hashed). */
  lemma SharedRoots(h: Hash, xs: seq<Digest>, dx: nat, ys: seq<Digest>, dy: nat)
    requires xs != [] && ys != [] && IsCeilLog2(|xs|, dx) && IsCeilLog2(|ys|, dy) && dy <= dx
    requires !CollisionBetween(h, RootInputs(h, xs), RootInputs(h, ys))
    ensures UpN(h, xs, dx - dy) != [] && |UpN(h, xs, dx - dy)| <= Pow2(dy)
    ensures Root(h, xs) == Root(h, ys) <==> Complete(UpN(h, xs, dx - dy), dy) == Complete(ys, dy)
  {
    hide Root, RootInputs, UpN, CollisionBetween, IsCeilLog2;
    LevelsShareRoot(h, xs, dx, dx - dy);
    var raised := UpN(h, xs, dx - dy);
    if CollisionBetween(h, RootInputs(h, raised), RootInputs(h, ys)) {
      CollisionGrows(h, RootInputs(h, raised), RootInputs(h, ys), RootInputs(h, xs), RootInputs(h, ys));
      assert false;
    }
    SameDepthRoots(h, raised, ys, dy);
  }

  lemma {:induction false} DepthOf(n: nat) returns (d: nat)
    requires n > 0
    ensures IsCeilLog2(n, d)
  {
    if n == 1 {
      d := 0;
    } else {
      var e := DepthOf((n + 1) / 2);
      d := e + 1;
      assert Pow2(d) == 2 * Pow2(e);
    }
  }

  /** The two children of the root: hashed side by side they give it. */
  lemma RootHasChildren(h: Hash, xs: seq<Digest>) returns (a: Digest, b: Digest)
    requires |xs| >= 2
    ensures Blake(h, Raw(a) + Raw(b)) == RootOf(h, xs)
  {
    var d := DepthOf(|xs|);
    LevelsShareRoot(h, xs, d, d - 1);
    var top := UpN(h, xs, d - 1);
    assert Pow2(0) == 1 && Pow2(1) == 2 && |top| == 2;
    a, b := top[0], top[1];
    assert Siblings(top, 0) == Raw(a) + Raw(b);
    assert |Up(h, top)| == 1 && Root(h, top) == Up(h, top)[0];
  }
}
