/** Document versions linked by `prev`, and the walk that reads AS OF a sequence
    number (rust/nedb-v2/src/db.rs). */
module VersionChain {
  import opened Hashing

  datatype Node = Node(coll: string, id: string, seqNo: nat, data: Bytes, prev: Option<Digest>)

  /** Serialisation of a node; foreign code, so a parameter. */
  type Serial = Node -> Bytes

  function HashOf(h: Hash, ser: Serial, n: Node): Digest { Blake(h, ser(n)) }

  datatype Write = Write(coll: string, id: string, data: Bytes)

  datatype State = State(nextSeq: nat, ids: map<(string, string), Digest>, objects: map<Digest, Node>)

  function PutNode(s: State, w: Write): Node {
    Node(w.coll, w.id, s.nextSeq, w.data, if (w.coll, w.id) in s.ids then Some(s.ids[(w.coll, w.id)]) else None)
  }

  /** A put: an object already stored under the hash is left as it is. */
  function PutTo(h: Hash, ser: Serial, s: State, w: Write): State {
    var n := PutNode(s, w);
    var hash := HashOf(h, ser, n);
    State(s.nextSeq + 1, s.ids[(w.coll, w.id) := hash],
          if hash in s.objects then s.objects else s.objects[hash := n])
  }

  function After(h: Hash, ser: Serial, first: nat, ws: seq<Write>): State {
    if ws == [] then State(first, map[], map[])
    else PutTo(h, ser, After(h, ser, first, ws[..|ws| - 1]), ws[|ws| - 1])
  }

  /** Sequence numbers strictly decrease along `prev`. */
  ghost predicate Descends(s: State) {
    && (forall d :: d in s.objects ==> s.objects[d].seqNo < s.nextSeq)
    && (forall k :: k in s.ids ==> s.ids[k] in s.objects)
    && (forall d :: d in s.objects && s.objects[d].prev.Some? ==>
          s.objects[d].prev.value in s.objects && s.objects[s.objects[d].prev.value].seqNo < s.objects[d].seqNo)
  }

  lemma {:induction false} PutsDescend(h: Hash, ser: Serial, first: nat, ws: seq<Write>)
    ensures Descends(After(h, ser, first, ws)) && After(h, ser, first, ws).nextSeq == first + |ws|
  {
    if ws != [] {
      PutsDescend(h, ser, first, ws[..|ws| - 1]);
    }
  }

  /** Follow `prev` from a node until a version is old enough. */
  function Back(s: State, n: Node, target: nat): Option<Node>
    requires Descends(s)
    requires n.prev.Some? ==> n.prev.value in s.objects && s.objects[n.prev.value].seqNo < n.seqNo
    decreases n.seqNo
  {
    if n.seqNo <= target then Some(n)
    else if n.prev.None? then None
    else Back(s, s.objects[n.prev.value], target)
  }

  function AsOf(s: State, coll: string, id: string, target: nat): Option<Node>
    requires Descends(s)
  {
    if (coll, id) !in s.ids then None else Back(s, s.objects[s.ids[(coll, id)]], target)
  }

  // ---- what the walk should return ----

  /** The node the k-th write creates. */
  function NodeAt(h: Hash, ser: Serial, first: nat, ws: seq<Write>, k: nat): Node
    requires k < |ws|
  {
    PutNode(After(h, ser, first, ws[..k]), ws[k])
  }

  /** The newest of the first `bound` writes to one document. */
  function Newest(ws: seq<Write>, coll: string, id: string, bound: nat): (r: Option<nat>)
    requires bound <= |ws|
    ensures r.Some? ==> r.value < bound && ws[r.value].coll == coll && ws[r.value].id == id
    ensures forall k :: (if r.Some? then r.value + 1 else 0) <= k < bound ==> !(ws[k].coll == coll && ws[k].id == id)
  {
    if bound == 0 then None
    else if ws[bound - 1].coll == coll && ws[bound - 1].id == id then Some(bound - 1)
    else Newest(ws, coll, id, bound - 1)
  }

  /** Two of the written nodes hash alike. */
  ghost predicate Clash(h: Hash, ser: Serial, first: nat, ws: seq<Write>) {
    exists i, j :: 0 <= i < j < |ws|
      && HashOf(h, ser, NodeAt(h, ser, first, ws, i)) == HashOf(h, ser, NodeAt(h, ser, first, ws, j))
  }

  lemma PrefixNodes(h: Hash, ser: Serial, first: nat, ws: seq<Write>, n: nat, k: nat)
    requires k < n <= |ws|
    ensures NodeAt(h, ser, first, ws[..n], k) == NodeAt(h, ser, first, ws, k)
  {
    assert ws[..n][..k] == ws[..k];
  }

  lemma PrefixClash(h: Hash, ser: Serial, first: nat, ws: seq<Write>, n: nat)
    requires n <= |ws| && Clash(h, ser, first, ws[..n])
    ensures Clash(h, ser, first, ws)
  {
    var i, j :| 0 <= i < j < n
      && HashOf(h, ser, NodeAt(h, ser, first, ws[..n], i)) == HashOf(h, ser, NodeAt(h, ser, first, ws[..n], j));
    PrefixNodes(h, ser, first, ws, n, i);
    PrefixNodes(h, ser, first, ws, n, j);
  }

  function LinkTo(h: Hash, ser: Serial, first: nat, ws: seq<Write>, r: Option<nat>): Option<Digest>
    requires r.Some? ==> r.value < |ws|
  {
    if r.None? then None else Some(HashOf(h, ser, NodeAt(h, ser, first, ws, r.value)))
  }

  lemma {:induction false} NewestOfPrefix(ws: seq<Write>, coll: string, id: string, n: nat, bound: nat)
    requires bound <= n <= |ws|
    ensures Newest(ws[..n], coll, id, bound) == Newest(ws, coll, id, bound)
  {
    if bound > 0 {
      NewestOfPrefix(ws, coll, id, n, bound - 1);
    }
  }

  /** Without a clash the id index names the newest write, and every written node
      is stored under its hash. */
  lemma {:induction false} IndexMeans(h: Hash, ser: Serial, first: nat, ws: seq<Write>, coll: string, id: string)
    requires !Clash(h, ser, first, ws)
    ensures var s, r := After(h, ser, first, ws), Newest(ws, coll, id, |ws|);
            (if (coll, id) in s.ids then Some(s.ids[(coll, id)]) else None) == LinkTo(h, ser, first, ws, r)
  {
    if ws != [] {
      var n := |ws| - 1;
      if Clash(h, ser, first, ws[..n]) { PrefixClash(h, ser, first, ws, n); }
      IndexMeans(h, ser, first, ws[..n], coll, id);
      NewestOfPrefix(ws, coll, id, n, n);
      var r := Newest(ws, coll, id, n);
      if r.Some? { PrefixNodes(h, ser, first, ws, n, r.value); }
    }
  }

  /** Every stored object is one of the written nodes. */
  lemma {:induction false} ObjectsAreWritten(h: Hash, ser: Serial, first: nat, ws: seq<Write>, d: Digest)
    requires d in After(h, ser, first, ws).objects
    ensures exists k :: 0 <= k < |ws| && After(h, ser, first, ws).objects[d] == NodeAt(h, ser, first, ws, k)
                        && HashOf(h, ser, NodeAt(h, ser, first, ws, k)) == d
  {
    var n := |ws| - 1;
    var front := ws[..n];
    if d in After(h, ser, first, front).objects {
      ObjectsAreWritten(h, ser, first, front, d);
      var k :| 0 <= k < n && After(h, ser, first, front).objects[d] == NodeAt(h, ser, first, front, k)
               && HashOf(h, ser, NodeAt(h, ser, first, front, k)) == d;
      PrefixNodes(h, ser, first, ws, n, k);
    } else {
      assert After(h, ser, first, ws).objects[d] == NodeAt(h, ser, first, ws, n);
    }
  }

  lemma {:induction false} WrittenAreObjects(h: Hash, ser: Serial, first: nat, ws: seq<Write>, k: nat)
    requires k < |ws| && !Clash(h, ser, first, ws)
    ensures var d := HashOf(h, ser, NodeAt(h, ser, first, ws, k));
            d in After(h, ser, first, ws).objects && After(h, ser, first, ws).objects[d] == NodeAt(h, ser, first, ws, k)
  {
    var n := |ws| - 1;
    var front, d := ws[..n], HashOf(h, ser, NodeAt(h, ser, first, ws, k));
    if k < n {
      if Clash(h, ser, first, front) { PrefixClash(h, ser, first, ws, n); }
      PrefixNodes(h, ser, first, ws, n, k);
      WrittenAreObjects(h, ser, first, front, k);
    } else if d in After(h, ser, first, front).objects {
      ObjectsAreWritten(h, ser, first, front, d);
      var i :| 0 <= i < n && HashOf(h, ser, NodeAt(h, ser, first, front, i)) == d;
      PrefixNodes(h, ser, first, ws, n, i);
      assert Clash(h, ser, first, ws);
    }
  }

  lemma {:induction false} BackFinds(h: Hash, ser: Serial, first: nat, ws: seq<Write>, target: nat, k: nat)
    requires k < |ws| && !Clash(h, ser, first, ws)
    ensures Descends(After(h, ser, first, ws))
    ensures var s, n := After(h, ser, first, ws), NodeAt(h, ser, first, ws, k);
            var bound := if target < first then 0 else if target - first < k then target - first + 1 else k + 1;
            var r := Newest(ws, n.coll, n.id, bound);
            && (n.prev.Some? ==> n.prev.value in s.objects && s.objects[n.prev.value].seqNo < n.seqNo)
            && Back(s, n, target) == (if r.None? then None else Some(NodeAt(h, ser, first, ws, r.value)))
    decreases k
  {
    PutsDescend(h, ser, first, ws);
    PutsDescend(h, ser, first, ws[..k]);
    WrittenAreObjects(h, ser, first, ws, k);
    var s, n := After(h, ser, first, ws), NodeAt(h, ser, first, ws, k);
    assert n.seqNo == first + k;
    if Clash(h, ser, first, ws[..k]) { PrefixClash(h, ser, first, ws, k); }
    IndexMeans(h, ser, first, ws[..k], n.coll, n.id);
    NewestOfPrefix(ws, n.coll, n.id, k, k);
    var p := Newest(ws, n.coll, n.id, k);
    if p.Some? {
      PrefixNodes(h, ser, first, ws, k, p.value);
      WrittenAreObjects(h, ser, first, ws, p.value);
      BackFinds(h, ser, first, ws, target, p.value);
    }
    var bound := if target < first then 0 else if target - first < k then target - first + 1 else k + 1;
    if bound <= k { NewestSkips(ws, n.coll, n.id, bound, k); }
  }

  /** Lowering the bound past no match changes nothing. */
  lemma {:induction false} NewestSkips(ws: seq<Write>, coll: string, id: string, bound: nat, upper: nat)
    requires bound <= upper <= |ws|
    ensures var p := Newest(ws, coll, id, upper);
            p.None? || p.value < bound ==> Newest(ws, coll, id, bound) == p
    decreases upper
  {
    if bound < upper {
      NewestSkips(ws, coll, id, bound, upper - 1);
    }
  }

  /** Reading AS OF a sequence number returns exactly the newest version written
      at or before it, or none if there is none; unless two written nodes hash
      alike. */
  lemma AsOfIsNewest(h: Hash, ser: Serial, first: nat, ws: seq<Write>, coll: string, id: string, target: nat)
    requires !Clash(h, ser, first, ws)
    ensures Descends(After(h, ser, first, ws))
    ensures var bound := if target < first then 0 else if target - first < |ws| then target - first + 1 else |ws|;
            var r := Newest(ws, coll, id, bound);
            AsOf(After(h, ser, first, ws), coll, id, target) == (if r.None? then None else Some(NodeAt(h, ser, first, ws, r.value)))
  {
    PutsDescend(h, ser, first, ws);
    IndexMeans(h, ser, first, ws, coll, id);
    var bound := if target < first then 0 else if target - first < |ws| then target - first + 1 else |ws|;
    var p := Newest(ws, coll, id, |ws|);
    NewestSkips(ws, coll, id, bound, |ws|);
    if p.Some? {
      WrittenAreObjects(h, ser, first, ws, p.value);
      BackFinds(h, ser, first, ws, target, p.value);
    }
  }

  /** The node of write k is that write, numbered first + k, behind the node its id
      pointed to before. */
  lemma NodeMeans(h: Hash, ser: Serial, first: nat, ws: seq<Write>, k: nat)
    requires k < |ws|
    ensures var n := NodeAt(h, ser, first, ws, k);
            && n.coll == ws[k].coll && n.id == ws[k].id && n.data == ws[k].data && n.seqNo == first + k
            && (n.prev.Some? <==> exists j :: 0 <= j < k && ws[j].coll == ws[k].coll && ws[j].id == ws[k].id)
  {
    PutsDescend(h, ser, first, ws[..k]);
    IdsWritten(h, ser, first, ws[..k], ws[k].coll, ws[k].id);
    if j :| 0 <= j < k && ws[j].coll == ws[k].coll && ws[j].id == ws[k].id { assert ws[..k][j] == ws[j]; }
    if j :| 0 <= j < k && ws[..k][j].coll == ws[k].coll && ws[..k][j].id == ws[k].id { assert ws[..k][j] == ws[j]; }
  }

  lemma {:induction false} IdsWritten(h: Hash, ser: Serial, first: nat, ws: seq<Write>, coll: string, id: string)
    ensures (coll, id) in After(h, ser, first, ws).ids <==> exists j :: 0 <= j < |ws| && ws[j].coll == coll && ws[j].id == id
  {
    if ws != [] {
      var n := |ws| - 1;
      IdsWritten(h, ser, first, ws[..n], coll, id);
      if j :| 0 <= j < n && ws[..n][j].coll == coll && ws[..n][j].id == id { assert ws[j] == ws[..n][j]; }
      if j :| 0 <= j < |ws| && ws[j].coll == coll && ws[j].id == id { assert j < n ==> ws[..n][j] == ws[j]; }
    }
  }

  /** What a read AS OF a number returns is the newest write to the document up to
      it: its collection, id and data, under its own number. */
  lemma AsOfReturnsWrite(h: Hash, ser: Serial, first: nat, ws: seq<Write>, coll: string, id: string, target: nat)
    requires !Clash(h, ser, first, ws)
    ensures Descends(After(h, ser, first, ws))
    ensures var r := AsOf(After(h, ser, first, ws), coll, id, target);
            && (r.None? <==> forall k :: 0 <= k < |ws| && first + k <= target ==> ws[k].coll != coll || ws[k].id != id)
            && (r.Some? ==> exists k :: 0 <= k < |ws| && IsRead(first, ws, coll, id, target, k, r.value))
  {
    AsOfIsNewest(h, ser, first, ws, coll, id, target);
    var bound := if target < first then 0 else if target - first < |ws| then target - first + 1 else |ws|;
    var p := Newest(ws, coll, id, bound);
    hide After, Newest, NodeAt, AsOf, Descends;
    if p.Some? {
      NodeMeans(h, ser, first, ws, p.value);
      assert IsRead(first, ws, coll, id, target, p.value, NodeAt(h, ser, first, ws, p.value));
    }
  }

  /** Write k is the newest to the document up to target, and n is its node. */
  ghost predicate IsRead(first: nat, ws: seq<Write>, coll: string, id: string, target: nat, k: nat, n: Node)
    requires k < |ws|
  {
    && ws[k].coll == coll && ws[k].id == id && first + k <= target
    && n.coll == coll && n.id == id && n.data == ws[k].data && n.seqNo == first + k
    && forall j :: k < j < |ws| && first + j <= target ==> ws[j].coll != coll || ws[j].id != id
  }

  // ---- the database object ----

  class Db {
    const h: Hash
    const ser: Serial
    var nextSeq: nat
    var ids: map<(string, string), Digest>
    var objects: map<Digest, Node>

    ghost function Abs(): State
      reads this
    {
      State(nextSeq, ids, objects)
    }

    constructor (h: Hash, ser: Serial, first: nat)
      ensures this.h == h && this.ser == ser && Abs() == After(h, ser, first, [])
    {
      this.h, this.ser := h, ser;
      nextSeq, ids, objects := first, map[], map[];
    }

    method Put(w: Write) returns (n: Node)
      modifies this
      ensures Abs() == PutTo(h, ser, old(Abs()), w) && n == PutNode(old(Abs()), w)
    {
      var seqNo := nextSeq;
      nextSeq := nextSeq + 1;
      var prev := if (w.coll, w.id) in ids then Some(ids[(w.coll, w.id)]) else None;
      n := Node(w.coll, w.id, seqNo, w.data, prev);
      var hash := HashOf(h, ser, n);
      if hash !in objects {
        objects := objects[hash := n];
      }
      ids := ids[(w.coll, w.id) := hash];
    }

    method GetAsOf(coll: string, id: string, target: nat) returns (r: Option<Node>)
      requires Descends(Abs())
      ensures r == AsOf(Abs(), coll, id, target)
    {
      if (coll, id) !in ids {
        return None;
      }
      var current := objects[ids[(coll, id)]];
      while current.seqNo > target
        invariant current.prev.Some? ==> current.prev.value in objects && objects[current.prev.value].seqNo < current.seqNo
        invariant Back(Abs(), current, target) == AsOf(Abs(), coll, id, target)
        decreases current.seqNo
      {
        if current.prev.None? {
          return None;
        }
        current := objects[current.prev.value];
      }
      return Some(current);
    }
  }
}
