/** Inclusion proofs over the fold of op hashes (python/nedb/proof.py, server.py). */
module InclusionProof {
  import opened Hashing

  const GENESIS: Digest := 0

  function StepInput(head: Digest, opHash: Digest): Bytes { Raw(head) + Raw(opHash) }

  function FoldHead(h: Hash, hashes: seq<Digest>, start: Digest): Digest
    decreases |hashes|
  {
    if hashes == [] then start else FoldHead(h, hashes[1..], Blake(h, StepInput(start, hashes[0])))
  }

  /** Every string the fold hashes. */
  function FoldInputs(h: Hash, hashes: seq<Digest>, start: Digest): set<Bytes>
    decreases |hashes|
  {
    if hashes == [] then {}
    else {StepInput(start, hashes[0])} + FoldInputs(h, hashes[1..], Blake(h, StepInput(start, hashes[0])))
  }

  /** One step hashes the head so far, then the op's hash; the first head is zero. */
  lemma FoldSteps(h: Hash, x: Digest, y: Digest)
    ensures FoldHead(h, [], GENESIS) == 0
    ensures FoldHead(h, [x], GENESIS) == Blake(h, Raw(0) + Raw(x))
    ensures FoldHead(h, [x, y], GENESIS) == Blake(h, Raw(Blake(h, Raw(0) + Raw(x))) + Raw(y))
  {
    assert [x, y][1..] == [y] && [x][1..] == [] && [y][1..] == [];
    var one := Blake(h, StepInput(GENESIS, x));
    assert FoldHead(h, [x], GENESIS) == one;
    assert FoldHead(h, [x, y], GENESIS) == FoldHead(h, [y], one) == Blake(h, StepInput(one, y));
  }

  datatype Proof = Proof(hash: Digest, seqNo: int, prevHead: Digest, subsequent: seq<Digest>, head: Digest)

  /** The op hashes a proof covers, the proved one first. */
  function Covered(p: Proof): seq<Digest> { [p.hash] + p.subsequent }

  predicate Accepted(h: Hash, p: Proof) {
    p.seqNo >= 0 && FoldHead(h, Covered(p), p.prevHead) == p.head
  }

  method Fold(h: Hash, hashes: seq<Digest>, start: Digest) returns (head: Digest)
    ensures head == FoldHead(h, hashes, start)
  {
    head := start;
    for i := 0 to |hashes|
      invariant FoldHead(h, hashes[i..], head) == FoldHead(h, hashes, start)
    {
      assert hashes[i..][1..] == hashes[i + 1..];
      head := Blake(h, StepInput(head, hashes[i]));
    }
  }

  method Verify(h: Hash, p: Proof) returns (ok: bool)
    ensures ok <==> Accepted(h, p)
  {
    if p.seqNo < 0 {
      return false;
    }
    var head := Blake(h, StepInput(p.prevHead, p.hash));
    assert Covered(p)[1..] == p.subsequent;
    head := Fold(h, p.subsequent, head);
    return head == p.head;
  }

  /** The proof the server builds for the first op carrying the wanted hash. */
  method Serve(h: Hash, opHashes: seq<Digest>, want: Digest) returns (r: Option<Proof>)
    ensures r.None? <==> want !in opHashes
    ensures r.Some? ==>
              var p := r.value;
              && Accepted(h, p)
              && p.hash == want && p.head == FoldHead(h, opHashes, GENESIS)
              && 0 <= p.seqNo < |opHashes| && want !in opHashes[..p.seqNo]
              && Covered(p) == opHashes[p.seqNo..]
              && p.prevHead == FoldHead(h, opHashes[..p.seqNo], GENESIS)
  {
    hide FoldHead;
    var k := 0;
    while k < |opHashes| && opHashes[k] != want
      invariant 0 <= k <= |opHashes| && want !in opHashes[..k]
    {
      k := k + 1;
    }
    if k == |opHashes| {
      return None;
    }
    var prev := Fold(h, opHashes[..k], GENESIS);
    var head := Fold(h, opHashes, GENESIS);
    var p := Proof(want, k, prev, opHashes[k + 1..], head);
    assert Covered(p) == opHashes[k..];
    assert opHashes[..k] + opHashes[k..] == opHashes;
    FoldAppends(h, opHashes[..k], opHashes[k..], GENESIS);
    r := Some(p);
  }

  lemma {:induction false} FoldAppends(h: Hash, xs: seq<Digest>, ys: seq<Digest>, start: Digest)
    ensures FoldHead(h, xs + ys, start) == FoldHead(h, ys, FoldHead(h, xs, start))
    ensures FoldInputs(h, xs + ys, start) == FoldInputs(h, xs, start) + FoldInputs(h, ys, FoldHead(h, xs, start))
    decreases |xs|
  {
    if xs == [] {
      assert xs + ys == ys;
    } else {
      assert (xs + ys)[1..] == xs[1..] + ys;
      FoldAppends(h, xs[1..], ys, Blake(h, StepInput(start, xs[0])));
    }
  }

  /** Equally long folds with one result fold the same hashes from the same
      start, or two strings they hash collide. */
  lemma {:induction false} FoldBinds(h: Hash, xs: seq<Digest>, a: Digest, ys: seq<Digest>, b: Digest)
    requires |xs| == |ys| && FoldHead(h, xs, a) == FoldHead(h, ys, b)
    ensures (xs == ys && a == b) || CollisionBetween(h, FoldInputs(h, xs, a), FoldInputs(h, ys, b))
    decreases |xs|
  {
    if xs != [] {
      var i, j := StepInput(a, xs[0]), StepInput(b, ys[0]);
      var a', b' := Blake(h, i), Blake(h, j);
      FoldBinds(h, xs[1..], a', ys[1..], b');
      if CollisionBetween(h, FoldInputs(h, xs[1..], a'), FoldInputs(h, ys[1..], b')) {
        CollisionGrows(h, FoldInputs(h, xs[1..], a'), FoldInputs(h, ys[1..], b'),
                       FoldInputs(h, xs, a), FoldInputs(h, ys, b));
      } else if i == j {
        PairSplits(a, xs[0], b, ys[0]);
        assert xs == [xs[0]] + xs[1..] && ys == [ys[0]] + ys[1..];
      } else {
        assert Collides(h, i, j) && i in FoldInputs(h, xs, a) && j in FoldInputs(h, ys, b);
      }
    }
  }

  /** Of two accepted proofs with one head, the shorter covers a suffix of what
      the longer covers, and its earlier head is the longer's own fold at that
      point; or two strings hashed by the two checks collide. */
  lemma ProofsAgree(h: Hash, p: Proof, q: Proof)
    requires Accepted(h, p) && Accepted(h, q) && p.head == q.head
    requires |p.subsequent| <= |q.subsequent|
    ensures
      var extra := |q.subsequent| - |p.subsequent|;
      || (Covered(p) == Covered(q)[extra..] && p.prevHead == FoldHead(h, Covered(q)[..extra], q.prevHead))
      || CollisionBetween(h, FoldInputs(h, Covered(p), p.prevHead), FoldInputs(h, Covered(q), q.prevHead))
  {
    var extra := |q.subsequent| - |p.subsequent|;
    var early, late := Covered(q)[..extra], Covered(q)[extra..];
    assert Covered(q) == early + late;
    FoldAppends(h, early, late, q.prevHead);
    var mid := FoldHead(h, early, q.prevHead);
    FoldBinds(h, Covered(p), p.prevHead, late, mid);
    if CollisionBetween(h, FoldInputs(h, Covered(p), p.prevHead), FoldInputs(h, late, mid)) {
      CollisionGrows(h, FoldInputs(h, Covered(p), p.prevHead), FoldInputs(h, late, mid),
                     FoldInputs(h, Covered(p), p.prevHead), FoldInputs(h, Covered(q), q.prevHead));
    }
  }

  /** The claimed sequence number is not bound: any other non-negative one passes. */
  lemma SeqIsNotBound(h: Hash, p: Proof, n: nat)
    requires Accepted(h, p)
    ensures Accepted(h, p.(seqNo := n))
  {
    assert Covered(p.(seqNo := n)) == Covered(p);
  }

  /** The proof tells the truth about a log: from the number it claims on, the log
      holds the hashes it covers. */
  predicate TrueOf(opHashes: seq<Digest>, p: Proof) {
    0 <= p.seqNo <= |opHashes| && opHashes[p.seqNo..] == Covered(p)
  }

  /** Exactly when the claimed number is right, for a proof accepted against the
      head of a log: when it and the number of hashes covered add up to the length
      of the log (up to a collision among the strings hashed). */
  lemma SeqIsRight(h: Hash, opHashes: seq<Digest>, p: Proof)
    requires Accepted(h, p) && p.head == FoldHead(h, opHashes, GENESIS)
    requires !CollisionBetween(h, FoldInputs(h, Covered(p), p.prevHead), FoldInputs(h, opHashes, GENESIS))
    ensures TrueOf(opHashes, p) <==> p.seqNo + |Covered(p)| == |opHashes|
  {
    hide FoldHead, FoldInputs, CollisionBetween;
    if p.seqNo + |Covered(p)| == |opHashes| {
      var whole := Proof(opHashes[0], 0, GENESIS, opHashes[1..], p.head);
      assert Covered(whole) == opHashes;
      ProofsAgree(h, p, whole);
    }
  }
}
