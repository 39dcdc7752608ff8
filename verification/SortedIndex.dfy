/** The sorted index and the ORDER BY ... LIMIT fast path
    (rust/crates/nedb-core/src/index.rs, lib.rs). */
module SortedIndex {
  import opened Collections
  import opened OrderedValue

  type Doc = map<string, Value>

  /** One entry of the ordered map: a value and its keys, oldest first. */
  datatype Bucket = Bucket(val: Value, keys: seq<string>)

  /** The contents of the ordered map, in iteration order. */
  type Buckets = seq<Bucket>

  ghost predicate Ascending(bs: Buckets) {
    forall i, j :: 0 <= i < j < |bs| ==> Cmp(bs[i].val, bs[j].val) == Less
  }

  /** Where the ordered map holds, or would hold, a value. */
  function Pos(bs: Buckets, v: Value): (p: nat)
    ensures p <= |bs|
    ensures forall i :: 0 <= i < p ==> Cmp(bs[i].val, v) == Less
    ensures p < |bs| ==> Cmp(bs[p].val, v) != Less
  {
    if bs == [] || Cmp(bs[0].val, v) != Less then 0 else 1 + Pos(bs[1..], v)
  }

  predicate Found(bs: Buckets, v: Value) {
    Pos(bs, v) < |bs| && Cmp(bs[Pos(bs, v)].val, v) == Equal
  }

  function Without(keys: seq<string>, key: string): (r: seq<string>)
    ensures forall k :: k in r <==> k in keys && k != key
  {
    if keys == [] then []
    else if keys[0] == key then Without(keys[1..], key)
    else [keys[0]] + Without(keys[1..], key)
  }

  lemma {:induction false} WithoutNoDup(keys: seq<string>, key: string)
    requires Distinct(keys)
    ensures Distinct(Without(keys, key))
  {
    if keys != [] {
      WithoutNoDup(keys[1..], key);
      assert keys[0] !in keys[1..];
    }
  }

  /** `entry(v).or_default().push(key)`. */
  function InsertKey(bs: Buckets, v: Value, key: string): Buckets {
    var p := Pos(bs, v);
    if Found(bs, v) then bs[p := Bucket(bs[p].val, bs[p].keys + [key])]
    else bs[..p] + [Bucket(v, [key])] + bs[p..]
  }

  /** Drop a key from a value's bucket, and the bucket once it is empty. */
  function DropKey(bs: Buckets, v: Value, key: string): Buckets {
    var p := Pos(bs, v);
    if Found(bs, v) then Emptied(bs, p, Without(bs[p].keys, key)) else bs
  }

  /** ... with the keys of one bucket replaced by what is left of them. */
  function Emptied(bs: Buckets, p: nat, rest: seq<string>): Buckets
    requires p < |bs|
  {
    if rest == [] then bs[..p] + bs[p + 1..] else bs[p := Bucket(bs[p].val, rest)]
  }

  /** Among equal values the key inserted last stands last. */
  lemma InsertsLast(bs: Buckets, v: Value, key: string)
    ensures exists i :: 0 <= i < |InsertKey(bs, v, key)| && EndsWith(InsertKey(bs, v, key)[i], v, key)
  {
    var r, p := InsertKey(bs, v, key), Pos(bs, v);
    CmpOrder(v, v);
    assert r[p].keys[|r[p].keys| - 1] == key;
    assert EndsWith(r[p], v, key);
  }

  predicate EndsWith(b: Bucket, v: Value, key: string) {
    Cmp(b.val, v) == Equal && b.keys != [] && b.keys[|b.keys| - 1] == key
  }

  // ---- the two tables agree ----

  ghost predicate BucketOk(b: Bucket, byKey: map<string, Value>) {
    b.keys != [] && Distinct(b.keys) && forall k :: k in b.keys ==> k in byKey && Cmp(b.val, byKey[k]) == Equal
  }

  ghost predicate AllOk(bs: Buckets, byKey: map<string, Value>) {
    forall i :: 0 <= i < |bs| ==> BucketOk(bs[i], byKey)
  }

  ghost predicate Stands(bs: Buckets, k: string) {
    exists i :: 0 <= i < |bs| && k in bs[i].keys
  }

  /** Each live key stands in exactly one bucket, the one of its value, exactly
      once; no bucket is empty; buckets ascend. */
  ghost predicate Agree(bs: Buckets, byKey: map<string, Value>) {
    Ascending(bs) && AllOk(bs, byKey) && forall k :: k in byKey ==> Stands(bs, k)
  }

  lemma PosIs(bs: Buckets, v: Value, i: nat)
    requires Ascending(bs) && i < |bs| && Cmp(bs[i].val, v) == Equal
    ensures Pos(bs, v) == i && Found(bs, v)
  {
    var p := Pos(bs, v);
    if p < i {
      LessThenLeq(bs[p].val, bs[i].val, v);
    }
  }

  /** A key's bucket is the one its value leads to. */
  lemma KeyAt(bs: Buckets, byKey: map<string, Value>, k: string)
    requires Agree(bs, byKey) && k in byKey
    ensures Found(bs, byKey[k]) && k in bs[Pos(bs, byKey[k])].keys
    ensures forall i :: 0 <= i < |bs| && k in bs[i].keys ==> i == Pos(bs, byKey[k])
  {
    forall i | 0 <= i < |bs| && k in bs[i].keys ensures i == Pos(bs, byKey[k]) && Found(bs, byKey[k]) {
      PosIs(bs, byKey[k], i);
    }
  }

  /** Changing one bucket, keeping its value. */
  lemma ReplaceKeeps(bs: Buckets, byKey: map<string, Value>, p: nat, keys: seq<string>, byKey': map<string, Value>, key: string)
    requires Agree(bs, byKey) && p < |bs| && BucketOk(Bucket(bs[p].val, keys), byKey')
    requires forall i :: 0 <= i < |bs| && i != p ==> BucketOk(bs[i], byKey')
    requires forall k :: k in byKey' ==> k == key || k in byKey
    requires forall k :: k in bs[p].keys && k in byKey' ==> k in keys
    requires key in byKey' ==> key in keys
    ensures Agree(bs[p := Bucket(bs[p].val, keys)], byKey')
  {
    hide Cmp;
    var bs' := bs[p := Bucket(bs[p].val, keys)];
    forall k | k in byKey' ensures Stands(bs', k) {
      if k == key {
        assert k in bs'[p].keys;
      } else {
        assert Stands(bs, k);
        var i :| 0 <= i < |bs| && k in bs[i].keys;
        assert k in bs'[i].keys;
      }
    }
  }

  lemma InsertAscends(bs: Buckets, v: Value, key: string)
    requires Ascending(bs) && !Found(bs, v)
    ensures Ascending(InsertKey(bs, v, key))
  {
    var p, bs' := Pos(bs, v), InsertKey(bs, v, key);
    forall i, j | 0 <= i < j < |bs'| ensures Cmp(bs'[i].val, bs'[j].val) == Less {
      if i == p {
        CmpOrder(bs[p].val, v);
        if j > p + 1 { LessThenLeq(v, bs[p].val, bs[j - 1].val); }
      }
    }
  }

  lemma InsertStands(bs: Buckets, p: nat, b: Bucket, k: string)
    requires p <= |bs| && (k in b.keys || Stands(bs, k))
    ensures Stands(bs[..p] + [b] + bs[p..], k)
  {
    var bs' := bs[..p] + [b] + bs[p..];
    if k in b.keys {
      assert bs'[p] == b;
    } else {
      var i :| 0 <= i < |bs| && k in bs[i].keys;
      assert bs[i] == bs'[if i < p then i else i + 1];
    }
  }

  lemma RemoveStands(bs: Buckets, p: nat, k: string)
    requires p < |bs| && Stands(bs, k) && k !in bs[p].keys
    ensures Stands(bs[..p] + bs[p + 1..], k)
  {
    var bs' := bs[..p] + bs[p + 1..];
    var i :| 0 <= i < |bs| && k in bs[i].keys;
    assert bs[i] == bs'[if i < p then i else i - 1];
  }

  lemma OkGrows(b: Bucket, byKey: map<string, Value>, key: string, v: Value)
    requires BucketOk(b, byKey) && key !in byKey
    ensures BucketOk(b, byKey[key := v])
  {}

  lemma InsertNew(bs: Buckets, byKey: map<string, Value>, v: Value, key: string)
    requires Agree(bs, byKey) && key !in byKey && !Found(bs, v)
    ensures Agree(InsertKey(bs, v, key), byKey[key := v])
  {
    var p, b, byKey' := Pos(bs, v), Bucket(v, [key]), byKey[key := v];
    var bs' := bs[..p] + [b] + bs[p..];
    InsertAscends(bs, v, key);
    forall i | 0 <= i < |bs'| ensures BucketOk(bs'[i], byKey') {
      if i == p {
        CmpOrder(v, v);
      } else {
        var j := if i < p then i else i - 1;
        assert bs'[i] == bs[j];
        OkGrows(bs[j], byKey, key, v);
      }
    }
    forall k | k in byKey' ensures Stands(bs', k) {
      InsertStands(bs, p, b, k);
    }
  }

  lemma InsertKeeps(bs: Buckets, byKey: map<string, Value>, v: Value, key: string)
    requires Agree(bs, byKey) && key !in byKey
    ensures Agree(InsertKey(bs, v, key), byKey[key := v])
  {
    if Found(bs, v) {
      var p := Pos(bs, v);
      forall i | 0 <= i < |bs| ensures BucketOk(bs[i], byKey[key := v]) {
        OkGrows(bs[i], byKey, key, v);
      }
      assert BucketOk(Bucket(bs[p].val, bs[p].keys + [key]), byKey[key := v]);
      ReplaceKeeps(bs, byKey, p, bs[p].keys + [key], byKey[key := v], key);
    } else {
      InsertNew(bs, byKey, v, key);
    }
  }

  lemma OkShrinks(b: Bucket, byKey: map<string, Value>, key: string)
    requires BucketOk(b, byKey) && key !in b.keys
    ensures BucketOk(b, byKey - {key})
  {}

  lemma RemoveKeeps(bs: Buckets, byKey: map<string, Value>, p: nat, key: string)
    requires Agree(bs, byKey) && p < |bs| && forall k :: k in bs[p].keys ==> k == key
    requires forall i :: 0 <= i < |bs| && i != p ==> BucketOk(bs[i], byKey - {key})
    ensures Agree(bs[..p] + bs[p + 1..], byKey - {key})
  {
    var bs' := bs[..p] + bs[p + 1..];
    forall i | 0 <= i < |bs'| ensures BucketOk(bs'[i], byKey - {key}) {
      assert bs'[i] == bs[if i < p then i else i + 1];
    }
    forall k | k in byKey - {key} ensures Stands(bs', k) {
      RemoveStands(bs, p, k);
    }
  }

  lemma BucketShrinks(b: Bucket, byKey: map<string, Value>, key: string)
    requires BucketOk(b, byKey) && Without(b.keys, key) != []
    ensures BucketOk(Bucket(b.val, Without(b.keys, key)), byKey - {key})
  {
    hide Without;
    WithoutNoDup(b.keys, key);
  }

  lemma OthersShrink(bs: Buckets, byKey: map<string, Value>, p: nat, key: string)
    requires AllOk(bs, byKey) && forall i :: 0 <= i < |bs| && key in bs[i].keys ==> i == p
    ensures forall i :: 0 <= i < |bs| && i != p ==> BucketOk(bs[i], byKey - {key})
  {
    forall i | 0 <= i < |bs| && i != p ensures BucketOk(bs[i], byKey - {key}) {
      OkShrinks(bs[i], byKey, key);
    }
  }

  lemma DropAt(bs: Buckets, byKey: map<string, Value>, key: string, p: nat)
    requires Agree(bs, byKey) && p < |bs| && forall i :: 0 <= i < |bs| && key in bs[i].keys ==> i == p
    ensures Agree(Emptied(bs, p, Without(bs[p].keys, key)), byKey - {key})
  {
    var rest := Without(bs[p].keys, key);
    OthersShrink(bs, byKey, p, key);
    assert BucketOk(bs[p], byKey);
    hide Cmp, Without, BucketOk, Agree;
    if rest == [] {
      forall k | k in bs[p].keys ensures k == key {
        assert k in rest <==> k != key;
      }
      RemoveKeeps(bs, byKey, p, key);
    } else {
      BucketShrinks(bs[p], byKey, key);
      ReplaceKeeps(bs, byKey, p, rest, byKey - {key}, key);
    }
  }

  lemma DropKeeps(bs: Buckets, byKey: map<string, Value>, key: string)
    requires Agree(bs, byKey) && key in byKey
    ensures Agree(DropKey(bs, byKey[key], key), byKey - {key})
  {
    KeyAt(bs, byKey, key);
    DropAt(bs, byKey, key, Pos(bs, byKey[key]));
    hide Agree, Emptied;
  }

  // ---- iteration ----

  function First(bs: Buckets, desc: bool): Bucket
    requires bs != []
  {
    if desc then bs[|bs| - 1] else bs[0]
  }

  function Rest(bs: Buckets, desc: bool): (r: Buckets)
    requires bs != []
    ensures |r| == |bs| - 1
  {
    if desc then bs[..|bs| - 1] else bs[1..]
  }

  /** The keys in index order. */
  function AllKeys(bs: Buckets, desc: bool): seq<string>
    decreases |bs|
  {
    if bs == [] then [] else First(bs, desc).keys + AllKeys(Rest(bs, desc), desc)
  }

  /** part stands in all from k on, without a gap. */
  predicate StandsAt(part: seq<string>, all: seq<string>, k: nat) {
    k + |part| <= |all| && all[k..k + |part|] == part
  }

  /** Keys of equal value are walked in the order they were filed, whichever way the
      walk runs. */
  lemma {:induction false} TiesInOrder(bs: Buckets, desc: bool, i: nat)
    requires i < |bs|
    ensures exists k :: StandsAt(bs[i].keys, AllKeys(bs, desc), k)
    decreases |bs|
  {
    var keys, first, rest := bs[i].keys, First(bs, desc).keys, AllKeys(Rest(bs, desc), desc);
    assert AllKeys(bs, desc) == first + rest;
    if i == (if desc then |bs| - 1 else 0) {
      assert keys == first;
      assert StandsAt(keys, AllKeys(bs, desc), 0);
    } else {
      var j := if desc then i else i - 1;
      assert Rest(bs, desc)[j] == bs[i];
      TiesInOrder(Rest(bs, desc), desc, j);
      var k :| StandsAt(keys, rest, k);
      assert StandsAt(keys, AllKeys(bs, desc), |first| + k);
    }
  }

  class Index {
    const field: string
    var sorted: Buckets
    var byKey: map<string, Value>

    ghost predicate Valid()
      reads this
    {
      Agree(sorted, byKey)
    }

    constructor (field: string)
      ensures Valid() && this.field == field && byKey == map[]
    {
      this.field, sorted, byKey := field, [], map[];
    }

    /** Take a key out of both tables. */
    method Evict(key: string)
      requires Valid() && key in byKey
      modifies this
      ensures Valid() && byKey == old(byKey) - {key}
    {
      DropKeeps(sorted, byKey, key);
      sorted := DropKey(sorted, byKey[key], key);
      byKey := byKey - {key};
    }

    method Add(key: string, doc: Doc)
      requires Valid()
      modifies this
      ensures Valid()
      ensures byKey == if field in doc then old(byKey)[key := doc[field]] else old(byKey)
    {
      if field !in doc {
        return;
      }
      if key in byKey {
        Evict(key);
      }
      InsertKeeps(sorted, byKey, doc[field], key);
      sorted := InsertKey(sorted, doc[field], key);
      byKey := byKey[key := doc[field]];
    }

    method Remove(key: string, doc: Doc)
      requires Valid()
      modifies this
      ensures Valid()
      ensures byKey == if field in doc then old(byKey) - {key} else old(byKey)
    {
      if field !in doc {
        return;
      }
      if key in byKey {
        Evict(key);
      } else {
        AbsentDrop(sorted, byKey, doc[field], key);
        sorted := DropKey(sorted, doc[field], key);
      }
    }

    /** The first `limit` keys in index order. */
    method TopK(desc: bool, limit: nat) returns (out: seq<string>)
      ensures out == Take(AllKeys(sorted, desc), limit)
    {
      out := [];
      if limit == 0 {
        return;
      }
      var left := sorted;
      while left != []
        invariant out + AllKeys(left, desc) == AllKeys(sorted, desc) && |out| < limit
        decreases |left|
      {
        ghost var after := AllKeys(Rest(left, desc), desc);
        var keys := First(left, desc).keys;
        TakeOf(out, keys, after, limit);
        out := PushUpTo(out, keys, limit);
        if |out| == limit {
          return;
        }
        left := Rest(left, desc);
      }
    }

    /** All keys in index order. */
    method All(desc: bool) returns (out: seq<string>)
      ensures out == AllKeys(sorted, desc)
    {
      out := [];
      var left := sorted;
      while left != []
        invariant out + AllKeys(left, desc) == AllKeys(sorted, desc)
        decreases |left|
      {
        out := out + First(left, desc).keys;
        left := Rest(left, desc);
      }
    }
  }

  /** Append keys one by one until there are `limit` of them. */
  method PushUpTo(out0: seq<string>, keys: seq<string>, limit: nat) returns (out: seq<string>)
    requires |out0| < limit
    ensures out == Take(out0 + keys, limit)
  {
    out := out0;
    for i := 0 to |keys|
      invariant out == out0 + keys[..i] && |out| < limit
    {
      out := out + [keys[i]];
      if |out| == limit {
        assert (out0 + keys)[..limit] == out0 + keys[..i + 1];
        return;
      }
    }
  }

  lemma TakeOf(before: seq<string>, keys: seq<string>, after: seq<string>, limit: nat)
    requires |before| <= limit
    ensures |before + keys| >= limit ==> Take(before + (keys + after), limit) == Take(before + keys, limit)
    ensures before + (keys + after) == (before + keys) + after
  {
  }

  /** Dropping a key that is in no bucket changes nothing. */
  lemma AbsentDrop(bs: Buckets, byKey: map<string, Value>, v: Value, key: string)
    requires Agree(bs, byKey) && key !in byKey
    ensures DropKey(bs, v, key) == bs
  {
    if Found(bs, v) {
      var p := Pos(bs, v);
      assert BucketOk(bs[p], byKey);
      WithoutAbsent(bs[p].keys, key);
      assert bs[p := bs[p]] == bs;
    }
  }

  lemma {:induction false} WithoutAbsent(keys: seq<string>, key: string)
    requires key !in keys
    ensures Without(keys, key) == keys
  {
    if keys != [] {
      WithoutAbsent(keys[1..], key);
      assert keys == [keys[0]] + keys[1..];
    }
  }
}
