/** How compaction fills the new segments: the cap decides where each one ends
    (rust/nedb-v2/src/segment.rs). */
module SegmentPacking {
  import opened Hashing
  import opened SegmentFormat
  import opened SegmentDisk
  import opened SegmentSteps

  // ---- where a segment ends ----

  /** Within the cap, or a single record. */
  predicate InCap(f: Bytes, max: nat) { |f| <= max || |Records(f)| == 1 }

  /** The segment is not empty, and the first record of the next one would have
      pushed it past the cap. */
  ghost predicate Closed(dat: map<nat, Bytes>, id: nat, max: nat) {
    && id in dat && id + 1 in dat && |dat[id]| > 0 && Records(dat[id + 1]) != []
    && |dat[id]| + 4 + |Records(dat[id + 1])[0]| > max
  }

  /** Every segment above base fits, and all but the last are full. */
  ghost predicate Packed(dat: map<nat, Bytes>, base: nat, top: nat, max: nat) {
    && (forall id :: base < id < top ==> Closed(dat, id, max))
    && (forall id :: base < id <= top ==> id in dat && InCap(dat[id], max))
  }

  lemma PackedStart(dat: map<nat, Bytes>, base: nat, max: nat)
    ensures Packed(dat[base + 1 := []], base, base + 1, max)
  {}

  /** A record that fits, or that starts the last segment. */
  lemma PackedAppend(dat: map<nat, Bytes>, base: nat, top: nat, max: nat, c: Bytes)
    requires Packed(dat, base, top, max) && top > base && Tail(dat[top]) == [] && |c| < U32
    requires !(|dat[top]| > 0 && |dat[top]| + 4 + |c| > max)
    ensures Packed(dat[top := dat[top] + Frame(c)], base, top, max)
  {
    var dat' := dat[top := dat[top] + Frame(c)];
    AppendRecord(dat[top], c);
    if |dat[top]| == 0 { assert Records(dat[top]) == []; }
    hide Records, Frame, Tail;
    forall id | base < id < top ensures Closed(dat', id, max) {
      assert Closed(dat, id, max);
    }
  }

  /** A record that does not fit starts the next segment. */
  lemma PackedRoll(dat: map<nat, Bytes>, base: nat, top: nat, max: nat, c: Bytes)
    requires Packed(dat, base, top, max) && top > base && |c| < U32
    requires |dat[top]| > 0 && |dat[top]| + 4 + |c| > max
    ensures Packed(dat[top + 1 := [] + Frame(c)], base, top + 1, max)
  {
    var dat' := dat[top + 1 := [] + Frame(c)];
    assert Tail([]) == [] && Records([]) == [];
    AppendRecord([], c);
    hide Records, Frame, Tail;
    forall id | base < id < top + 1 ensures Closed(dat', id, max) {
      if id < top { assert Closed(dat, id, max); }
    }
  }

  lemma PackedSame(a: map<nat, Bytes>, b: map<nat, Bytes>, base: nat, top: nat, max: nat)
    requires Packed(a, base, top, max) && forall id :: base < id <= top ==> id in a && id in b && a[id] == b[id]
    ensures Packed(b, base, top, max)
  {
    forall id | base < id < top ensures Closed(b, id, max) {
      assert Closed(a, id, max);
    }
  }

  // ---- how many bytes ----

  /** The total length of the segment files numbered below n. */
  function Lengths(dat: map<nat, Bytes>, n: nat): nat {
    if n == 0 then 0 else Lengths(dat, n - 1) + (if n - 1 in dat then |dat[n - 1]| else 0)
  }

  lemma {:induction false} LengthsSame(a: map<nat, Bytes>, b: map<nat, Bytes>, n: nat)
    requires forall id :: id < n ==> (id in a <==> id in b) && (id in a ==> a[id] == b[id])
    ensures Lengths(a, n) == Lengths(b, n)
  {
    if n > 0 { LengthsSame(a, b, n - 1); }
  }

  lemma {:induction false} LengthsDrop(dat: map<nat, Bytes>, n: nat, id: nat)
    requires id in dat && id < n
    ensures Lengths(dat - {id}, n) + |dat[id]| == Lengths(dat, n)
  {
    if id < n - 1 {
      LengthsDrop(dat, n - 1, id);
    } else {
      LengthsSame(dat - {id}, dat, n - 1);
    }
  }

  lemma {:induction false} LengthsNone(dat: map<nat, Bytes>, n: nat)
    requires forall id :: id in dat ==> id >= n
    ensures Lengths(dat, n) == 0
  {
    if n > 0 { LengthsNone(dat, n - 1); }
  }

  /** Files that agree from base on, with none below it in the second. */
  lemma {:induction false} LengthsAbove(a: map<nat, Bytes>, b: map<nat, Bytes>, base: nat, n: nat)
    requires base <= n && forall id :: id in b ==> id >= base
    requires forall id :: base <= id < n ==> (id in a <==> id in b) && (id in a ==> a[id] == b[id])
    ensures Lengths(a, n) == Lengths(a, base) + Lengths(b, n)
  {
    if n > base {
      LengthsAbove(a, b, base, n - 1);
    } else {
      LengthsNone(b, n);
    }
  }

  lemma {:induction false} LengthsOfTwo(dat: map<nat, Bytes>, n: nat, i: nat)
    requires i + 1 < n && i in dat && i + 1 in dat
    ensures Lengths(dat, n) >= |dat[i]| + |dat[i + 1]|
  {
    if i + 1 < n - 1 {
      LengthsOfTwo(dat, n - 1, i);
    } else {
      assert Lengths(dat, n) == Lengths(dat, i + 1) + |dat[i + 1]| && Lengths(dat, i + 1) == Lengths(dat, i) + |dat[i]|;
    }
  }

  /** The bytes the listed contents take, framed. */
  ghost function Framed(index: map<Digest, Loc>, xs: set<Digest>): nat
    requires xs <= index.Keys
  {
    if xs == {} then 0
    else
      var x :| x in xs;
      4 + index[x].len + Framed(index, xs - {x})
  }

  lemma {:induction false} FramedAdds(index: map<Digest, Loc>, xs: set<Digest>, x: Digest)
    requires xs <= index.Keys && x in xs
    ensures Framed(index, xs) == 4 + index[x].len + Framed(index, xs - {x})
    decreases |xs|
  {
    var y :| y in xs && Framed(index, xs) == 4 + index[y].len + Framed(index, xs - {y});
    if x != y {
      FramedAdds(index, xs - {y}, x);
      FramedAdds(index, xs - {x}, y);
      assert xs - {y} - {x} == xs - {x} - {y};
    }
  }

  /** Packed segments that hold no more than the cap are one segment. */
  lemma SmallIsOne(dat: map<nat, Bytes>, base: nat, top: nat, max: nat)
    requires Packed(dat, base, top, max) && top > base && Lengths(dat, top + 1) <= max
    ensures top == base + 1
  {
    if top > base + 1 {
      assert Closed(dat, base + 1, max);
      FirstFits(dat[base + 2]);
      LengthsOfTwo(dat, top + 1, base + 1);
      assert false;
    }
  }

  lemma FirstFits(f: Bytes)
    requires Records(f) != []
    ensures |f| >= 4 + |Records(f)[0]|
  {}
}
