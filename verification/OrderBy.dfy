/** ORDER BY field [DESC] LIMIT n: the sorted-index fast path against sorting the
    rows and truncating (rust/crates/nedb-core/src/lib.rs). */
module OrderBy {
  import opened Collections
  import opened OrderedValue
  import opened SortedIndex

  type Live = map<string, Doc>

  /** What the sort compares: the field, or null when the document lacks it. */
  function FieldOf(live: Live, field: string, k: string): Value {
    if k in live && field in live[k] then live[k][field] else Null
  }

  /** The index's reverse table holds the field of every live document that has it. */
  ghost predicate Mirrors(byKey: map<string, Value>, live: Live, field: string) {
    && (forall k :: k in byKey <==> k in live && field in live[k])
    && (forall k :: k in byKey ==> byKey[k] == live[k][field])
  }

  predicate Before(desc: bool, a: Value, b: Value) {
    if desc then Leq(b, a) else Leq(a, b)
  }

  /** A listing of all live keys that the sort may produce. */
  ghost predicate SortedListing(live: Live, field: string, desc: bool, keys: seq<string>) {
    && Distinct(keys)
    && (forall k :: k in keys <==> k in live)
    && InOrder(live, field, desc, keys)
  }

  /** The values of rows, as far as the comparison can tell them apart. */
  function Classes(live: Live, field: string, keys: seq<string>): seq<Value> {
    seq(|keys|, i requires 0 <= i < |keys| => Class(FieldOf(live, field, keys[i])))
  }

  // ---- the listing the index yields ----

  lemma {:induction false} AllKeysMembers(bs: Buckets, desc: bool)
    ensures forall k :: k in AllKeys(bs, desc) <==> Stands(bs, k)
    decreases |bs|
  {
    if bs != [] {
      var b, rest := First(bs, desc), Rest(bs, desc);
      AllKeysMembers(rest, desc);
      forall k ensures k in AllKeys(bs, desc) <==> Stands(bs, k) {
        if Stands(bs, k) && k !in b.keys {
          var i :| 0 <= i < |bs| && k in bs[i].keys;
          assert bs[i] == rest[if desc then i else i - 1];
        }
        if Stands(rest, k) {
          var i :| 0 <= i < |rest| && k in rest[i].keys;
          assert rest[i] == bs[if desc then i else i + 1];
        }
        if k in b.keys { assert b == bs[if desc then |bs| - 1 else 0]; }
      }
    }
  }

  /** Buckets of a stretch of the index: what the walk needs of them. */
  ghost predicate Stretch(bs: Buckets, byKey: map<string, Value>) {
    Ascending(bs) && AllOk(bs, byKey)
  }

  lemma RestStretch(bs: Buckets, byKey: map<string, Value>, desc: bool)
    requires bs != [] && Stretch(bs, byKey)
    ensures Stretch(Rest(bs, desc), byKey) && BucketOk(First(bs, desc), byKey)
    ensures forall i :: 0 <= i < |bs| - 1 ==>
              (if desc then Cmp(Rest(bs, desc)[i].val, First(bs, desc).val) == Less
               else Cmp(First(bs, desc).val, Rest(bs, desc)[i].val) == Less)
  {
    var rest := Rest(bs, desc);
    forall i | 0 <= i < |rest| ensures rest[i] == bs[if desc then i else i + 1] {}
  }

  /** A key of the rest of the walk stands elsewhere and sorts strictly later. */
  lemma LaterKey(bs: Buckets, byKey: map<string, Value>, desc: bool, a: string, b: string)
    requires bs != [] && Stretch(bs, byKey) && a in First(bs, desc).keys && b in AllKeys(Rest(bs, desc), desc)
    ensures a in byKey && b in byKey && a != b && Before(desc, byKey[a], byKey[b])
  {
    var f, rest := First(bs, desc), Rest(bs, desc);
    RestStretch(bs, byKey, desc);
    AllKeysMembers(rest, desc);
    var i :| 0 <= i < |rest| && b in rest[i].keys;
    assert BucketOk(rest[i], byKey);
    CmpOrder(f.val, byKey[a]);
    CmpOrder(rest[i].val, byKey[b]);
    CmpOrder(f.val, rest[i].val);
    if desc {
      LessThenLeq(rest[i].val, f.val, byKey[a]);
      LeqTransitive(byKey[b], rest[i].val, byKey[a]);
    } else {
      LessThenLeq(f.val, rest[i].val, byKey[b]);
      LeqTransitive(byKey[a], f.val, byKey[b]);
    }
  }

  ghost predicate WalkSorted(keys: seq<string>, byKey: map<string, Value>, desc: bool) {
    && Distinct(keys)
    && (forall k :: k in keys ==> k in byKey)
    && (forall i, j :: 0 <= i < j < |keys| ==> Before(desc, byKey[keys[i]], byKey[keys[j]]))
  }

  lemma BucketSorted(b: Bucket, byKey: map<string, Value>, desc: bool)
    requires BucketOk(b, byKey)
    ensures WalkSorted(b.keys, byKey, desc)
  {
    forall i, j | 0 <= i < j < |b.keys| ensures Before(desc, byKey[b.keys[i]], byKey[b.keys[j]]) {
      CmpOrder(b.val, byKey[b.keys[i]]);
      CmpOrder(b.val, byKey[b.keys[j]]);
      CmpOrder(byKey[b.keys[i]], byKey[b.keys[j]]);
    }
  }

  lemma {:induction false} AllKeysSorted(bs: Buckets, byKey: map<string, Value>, desc: bool)
    requires Stretch(bs, byKey)
    ensures WalkSorted(AllKeys(bs, desc), byKey, desc)
    decreases |bs|
  {
    if bs != [] {
      var f, r := First(bs, desc).keys, AllKeys(Rest(bs, desc), desc);
      RestStretch(bs, byKey, desc);
      AllKeysSorted(Rest(bs, desc), byKey, desc);
      BucketSorted(First(bs, desc), byKey, desc);
      forall a, b | a in f && b in r ensures a != b && Before(desc, byKey[a], byKey[b]) {
        LaterKey(bs, byKey, desc, a, b);
      }
      JoinSorted(f, r, byKey, desc);
    }
  }

  lemma JoinSorted(f: seq<string>, r: seq<string>, byKey: map<string, Value>, desc: bool)
    requires WalkSorted(f, byKey, desc) && WalkSorted(r, byKey, desc)
    requires forall a, b :: a in f && b in r ==> a != b && Before(desc, byKey[a], byKey[b])
    ensures WalkSorted(f + r, byKey, desc)
  {
    forall i, j | 0 <= i < j < |f + r|
      ensures (f + r)[i] != (f + r)[j] && Before(desc, byKey[(f + r)[i]], byKey[(f + r)[j]])
    {
      if i < |f| <= j { assert f[i] in f && r[j - |f|] in r; }
    }
  }

  // ---- two sorted listings of one set of keys ----

  function ClassMap(live: Live, field: string): map<string, Value> {
    map k | k in live :: Class(FieldOf(live, field, k))
  }

  function MapSeq(f: map<string, Value>, keys: seq<string>): (cs: seq<Value>)
    requires forall k :: k in keys ==> k in f
  {
    seq(|keys|, i requires 0 <= i < |keys| => f[keys[i]])
  }

  function Drop<T>(xs: seq<T>, i: nat): seq<T>
    requires i < |xs|
  {
    xs[..i] + xs[i + 1..]
  }

  lemma DropMultiset<T>(xs: seq<T>, i: nat)
    requires i < |xs|
    ensures multiset(Drop(xs, i)) == multiset(xs) - multiset{xs[i]}
  {
    assert xs == xs[..i] + ([xs[i]] + xs[i + 1..]);
  }

  lemma {:induction false} MapKeepsMultiset(f: map<string, Value>, xs: seq<string>, ys: seq<string>)
    requires (forall k :: k in xs ==> k in f) && (forall k :: k in ys ==> k in f)
    requires multiset(xs) == multiset(ys)
    ensures multiset(MapSeq(f, xs)) == multiset(MapSeq(f, ys))
    decreases |xs|
  {
    if xs == [] {
      assert |ys| == |multiset(ys)| == 0;
    } else {
      assert xs[0] in multiset(ys);
      var i :| 0 <= i < |ys| && ys[i] == xs[0];
      DropMultiset(xs, 0);
      DropMultiset(ys, i);
      MapKeepsMultiset(f, Drop(xs, 0), Drop(ys, i));
      MapDrop(f, xs, 0);
      MapDrop(f, ys, i);
    }
  }

  lemma MapDrop(f: map<string, Value>, xs: seq<string>, i: nat)
    requires i < |xs| && forall k :: k in xs ==> k in f
    ensures multiset(MapSeq(f, xs)) == multiset(MapSeq(f, Drop(xs, i))) + multiset{f[xs[i]]}
  {
    var ms := MapSeq(f, xs);
    DropMultiset(ms, i);
    MapOfDrop(f, xs, i);
    hide MapSeq, Drop;
    assert ms[i] in multiset(ms);
  }

  lemma MapOfDrop(f: map<string, Value>, xs: seq<string>, i: nat)
    requires i < |xs| && forall k :: k in xs ==> k in f
    ensures forall k :: k in Drop(xs, i) ==> k in f
    ensures Drop(MapSeq(f, xs), i) == MapSeq(f, Drop(xs, i))
  {}

  lemma {:induction false} NoDupMultiset(xs: seq<string>, k: string)
    requires Distinct(xs)
    ensures multiset(xs)[k] == if k in xs then 1 else 0
  {
    if xs != [] {
      NoDupMultiset(xs[1..], k);
      assert xs == [xs[0]] + xs[1..];
      assert xs[0] !in xs[1..];
    }
  }

  lemma ListingsPermute(xs: seq<string>, ys: seq<string>)
    requires Distinct(xs) && Distinct(ys) && forall k :: k in xs <==> k in ys
    ensures multiset(xs) == multiset(ys)
  {
    forall k ensures multiset(xs)[k] == multiset(ys)[k] {
      NoDupMultiset(xs, k);
      NoDupMultiset(ys, k);
    }
  }

  ghost predicate ClassSorted(cs: seq<Value>, desc: bool) {
    && (forall i :: 0 <= i < |cs| ==> Class(cs[i]) == cs[i])
    && (forall i, j :: 0 <= i < j < |cs| ==> Before(desc, cs[i], cs[j]))
  }

  lemma FirstAgrees(xs: seq<Value>, ys: seq<Value>, desc: bool)
    requires ClassSorted(xs, desc) && ClassSorted(ys, desc) && xs != [] && ys != []
    requires xs[0] in ys && ys[0] in xs
    ensures xs[0] == ys[0]
  {
    var i :| 0 <= i < |ys| && ys[i] == xs[0];
    var j :| 0 <= j < |xs| && xs[j] == ys[0];
    CmpOrder(xs[0], ys[0]);
    assert i > 0 ==> Before(desc, ys[0], xs[0]);
    assert j > 0 ==> Before(desc, xs[0], ys[0]);
  }

  lemma RestSorted(xs: seq<Value>, desc: bool)
    requires ClassSorted(xs, desc) && xs != []
    ensures ClassSorted(xs[1..], desc)
  {
    hide Before, Class;
  }

  lemma RestMultiset(xs: seq<Value>)
    requires xs != []
    ensures multiset(xs[1..]) == multiset(xs) - multiset{xs[0]} && xs == [xs[0]] + xs[1..]
  {
    DropMultiset(xs, 0);
    assert Drop(xs, 0) == xs[1..];
  }

  /** Sorting determines the sequence of values. */
  lemma {:induction false} SortIsUnique(xs: seq<Value>, ys: seq<Value>, desc: bool)
    requires ClassSorted(xs, desc) && ClassSorted(ys, desc) && multiset(xs) == multiset(ys)
    ensures xs == ys
    decreases |xs|
  {
    assert |xs| == |multiset(xs)| == |multiset(ys)| == |ys|;
    if xs != [] {
      assert xs[0] in multiset(ys) && ys[0] in multiset(xs);
      FirstAgrees(xs, ys, desc);
      RestSorted(xs, desc);
      RestSorted(ys, desc);
      hide ClassSorted;
      RestMultiset(xs);
      RestMultiset(ys);
      SortIsUnique(xs[1..], ys[1..], desc);
    }
  }

  lemma ListingClasses(live: Live, field: string, desc: bool, keys: seq<string>)
    requires SortedListing(live, field, desc, keys)
    ensures ClassSorted(Classes(live, field, keys), desc)
    ensures Classes(live, field, keys) == MapSeq(ClassMap(live, field), keys)
  {
    var cs := Classes(live, field, keys);
    forall i | 0 <= i < |cs| ensures Class(cs[i]) == cs[i] {
      ClassDecides(FieldOf(live, field, keys[i]), Null);
    }
    forall i, j | 0 <= i < j < |cs| ensures Before(desc, cs[i], cs[j]) {
      ClassDecides(FieldOf(live, field, keys[i]), FieldOf(live, field, keys[j]));
      ClassDecides(FieldOf(live, field, keys[j]), FieldOf(live, field, keys[i]));
    }
  }

  lemma SortedListingsAgree(live: Live, field: string, desc: bool, xs: seq<string>, ys: seq<string>)
    requires SortedListing(live, field, desc, xs) && SortedListing(live, field, desc, ys)
    ensures Classes(live, field, xs) == Classes(live, field, ys)
  {
    ListingClasses(live, field, desc, xs);
    ListingClasses(live, field, desc, ys);
    ListingsPermute(xs, ys);
    MapKeepsMultiset(ClassMap(live, field), xs, ys);
    SortIsUnique(Classes(live, field, xs), Classes(live, field, ys), desc);
  }

  // ---- documents that lack the field ----

  function Missing(live: Live, field: string): set<string> {
    set k | k in live && field !in live[k]
  }

  function ExplicitNulls(live: Live, field: string): set<string> {
    set k | k in live && field in live[k] && live[k][field].Null?
  }

  function Nulls(n: nat): seq<Value> {
    seq(n, i => Null)
  }

  function CountNulls(cs: seq<Value>): (n: nat)
    ensures n <= |cs|
  {
    if cs == [] then 0 else CountNulls(cs[..|cs| - 1]) + (if cs[|cs| - 1].Null? then 1 else 0)
  }

  lemma {:induction false} NullsLead(cs: seq<Value>, i: nat)
    requires forall i, j :: 0 <= i < j < |cs| && cs[j].Null? ==> cs[i].Null?
    requires i < |cs|
    ensures cs[i].Null? <==> i < CountNulls(cs)
  {
    var front := cs[..|cs| - 1];
    if i < |front| {
      NullsLead(front, i);
      if cs[|cs| - 1].Null? { NullsLead(front, |front| - 1); }
    } else if 0 < |front| {
      NullsLead(front, |front| - 1);
    }
  }

  /** Leading nulls show in the first `limit` values exactly when there are any
      and `limit` reaches past the nulls already there. */
  lemma PadFront(cs: seq<Value>, m: nat, limit: nat)
    requires forall i, j :: 0 <= i < j < |cs| && cs[j].Null? ==> cs[i].Null?
    ensures Take(Nulls(m) + cs, limit) == Take(cs, limit) <==> m == 0 || limit <= CountNulls(cs)
  {
    forall i | 0 <= i < |cs| ensures cs[i].Null? <==> i < CountNulls(cs) {
      NullsLead(cs, i);
    }
    PadSplit(cs, m, CountNulls(cs), limit);
  }

  lemma PadSplit(cs: seq<Value>, m: nat, z: nat, limit: nat)
    requires z <= |cs| && forall i :: 0 <= i < |cs| ==> (cs[i].Null? <==> i < z)
    ensures Take(Nulls(m) + cs, limit) == Take(cs, limit) <==> m == 0 || limit <= z
  {
    var padded := Nulls(m) + cs;
    if m == 0 {
      assert padded == cs;
    } else if limit > z {
      assert padded[z] == Null;
      assert Take(padded, limit)[z] == Null;
      assert |Take(cs, limit)| > z ==> Take(cs, limit)[z] == cs[z];
    }
  }

  lemma PadBack(cs: seq<Value>, m: nat, limit: nat)
    ensures Take(cs + Nulls(m), limit) == Take(cs, limit) <==> m == 0 || limit <= |cs|
  {
    var a, b := Take(cs + Nulls(m), limit), Take(cs, limit);
    if m == 0 {
      assert cs + Nulls(m) == cs;
    } else if limit > |cs| {
      assert |a| > |b|;
    } else {
      assert a == b;
    }
  }

  lemma {:induction false} ListingOf(s: set<string>) returns (keys: seq<string>)
    ensures Distinct(keys) && |keys| == |s| && forall k :: k in keys <==> k in s
  {
    if s == {} {
      keys := [];
    } else {
      var x :| x in s;
      var rest := ListingOf(s - {x});
      keys := [x] + rest;
    }
  }

  /** The index order, padded with the documents the index does not list, is a
      listing the slow sort may produce. */
  lemma PaddedListing(live: Live, field: string, desc: bool, indexed: seq<string>, missing: seq<string>, byKey: map<string, Value>)
    requires Mirrors(byKey, live, field) && WalkSorted(indexed, byKey, desc)
    requires (forall k :: k in indexed <==> k in byKey)
    requires Distinct(missing) && forall k :: k in missing <==> k in Missing(live, field)
    ensures SortedListing(live, field, desc, if desc then indexed + missing else missing + indexed)
  {
    var all := if desc then indexed + missing else missing + indexed;
    forall k ensures k in all <==> k in live {
      assert k in all <==> k in indexed || k in missing;
    }
    PartsInOrder(live, field, desc, indexed, missing, byKey);
    if desc {
      JoinListings(live, field, desc, indexed, missing);
    } else {
      JoinListings(live, field, desc, missing, indexed);
    }
  }

  lemma PartsInOrder(live: Live, field: string, desc: bool, indexed: seq<string>, missing: seq<string>, byKey: map<string, Value>)
    requires Mirrors(byKey, live, field) && WalkSorted(indexed, byKey, desc)
    requires forall k :: k in missing <==> k in Missing(live, field)
    ensures InOrder(live, field, desc, indexed) && InOrder(live, field, desc, missing)
    ensures forall a :: a in indexed ==> a !in missing && FieldOf(live, field, a) == byKey[a]
    ensures forall b :: b in missing ==> FieldOf(live, field, b) == Null
  {
    forall a | a in indexed ensures FieldOf(live, field, a) == byKey[a] && a !in missing {
      assert a !in Missing(live, field);
    }
    forall b | b in missing ensures FieldOf(live, field, b) == Null {
      assert b in Missing(live, field);
    }
  }

  ghost predicate InOrder(live: Live, field: string, desc: bool, keys: seq<string>) {
    forall i, j :: 0 <= i < j < |keys| ==> Before(desc, FieldOf(live, field, keys[i]), FieldOf(live, field, keys[j]))
  }

  lemma JoinListings(live: Live, field: string, desc: bool, f: seq<string>, r: seq<string>)
    requires Distinct(f) && Distinct(r) && InOrder(live, field, desc, f) && InOrder(live, field, desc, r)
    requires forall a, b :: a in f && b in r ==> a != b && Before(desc, FieldOf(live, field, a), FieldOf(live, field, b))
    ensures Distinct(f + r) && InOrder(live, field, desc, f + r)
  {
    var all := f + r;
    forall i, j | 0 <= i < j < |all|
      ensures all[i] != all[j] && Before(desc, FieldOf(live, field, all[i]), FieldOf(live, field, all[j]))
    {
      if i < |f| <= j { assert f[i] in f && r[j - |f|] in r; }
    }
  }

  function NullKeys(live: Live, field: string, keys: seq<string>): set<string> {
    set k | k in keys && FieldOf(live, field, k).Null?
  }

  lemma NullKeysGrow(live: Live, field: string, keys: seq<string>)
    requires Distinct(keys) && keys != []
    ensures var front, last := keys[..|keys| - 1], keys[|keys| - 1];
            |NullKeys(live, field, keys)| == |NullKeys(live, field, front)| + (if FieldOf(live, field, last).Null? then 1 else 0)
  {
    var front, last := keys[..|keys| - 1], keys[|keys| - 1];
    hide FieldOf;
    assert last !in front;
    assert forall k :: k in keys <==> k in front || k == last;
    assert NullKeys(live, field, keys)
        == NullKeys(live, field, front) + (if FieldOf(live, field, last).Null? then {last} else {});
  }

  lemma {:induction false} CountMeans(live: Live, field: string, keys: seq<string>)
    requires Distinct(keys)
    ensures CountNulls(Classes(live, field, keys)) == |NullKeys(live, field, keys)|
  {
    if keys == [] {
      assert NullKeys(live, field, keys) == {};
    } else {
      var front := keys[..|keys| - 1];
      CountMeans(live, field, front);
      NullKeysGrow(live, field, keys);
      assert Classes(live, field, front) == Classes(live, field, keys)[..|keys| - 1];
    }
  }

  /** How many rows the fast path can show before the missing documents count. */
  function Shown(live: Live, field: string, desc: bool): nat {
    if desc then |live.Keys - Missing(live, field)| else |ExplicitNulls(live, field)|
  }

  lemma NullsLeadInWalk(live: Live, field: string, keys: seq<string>, byKey: map<string, Value>)
    requires Mirrors(byKey, live, field) && WalkSorted(keys, byKey, false) && forall k :: k in keys ==> k in live
    ensures var cs := Classes(live, field, keys);
            forall i, j :: 0 <= i < j < |cs| && cs[j].Null? ==> cs[i].Null?
  {
    var cs := Classes(live, field, keys);
    forall i, j | 0 <= i < j < |cs| && cs[j].Null? ensures cs[i].Null? {
      assert FieldOf(live, field, keys[i]) == byKey[keys[i]] && FieldOf(live, field, keys[j]) == byKey[keys[j]];
      assert Before(false, byKey[keys[i]], byKey[keys[j]]);
    }
  }

  lemma TakeClasses(live: Live, field: string, keys: seq<string>, limit: nat)
    ensures Classes(live, field, Take(keys, limit)) == Take(Classes(live, field, keys), limit)
  {
  }

  /** The classes of the padded listing are the index's own, padded with nulls. */
  lemma PaddedClasses(live: Live, field: string, desc: bool, indexed: seq<string>, missing: seq<string>)
    requires forall k :: k in missing <==> k in Missing(live, field)
    ensures var all := if desc then indexed + missing else missing + indexed;
            var cs := Classes(live, field, indexed);
            Classes(live, field, all) == if desc then cs + Nulls(|missing|) else Nulls(|missing|) + cs
  {
    forall i | 0 <= i < |missing| ensures FieldOf(live, field, missing[i]) == Null {
      assert missing[i] in Missing(live, field);
    }
  }

  /** The rows of the fast path and of the slow sort have the same values in the
      same order, as far as the comparison sees, exactly when every live document
      has the field or the limit stops before the documents that lack it would
      show. `slow` is any order the sort may leave. */
  lemma FastPathIsSort(bs: Buckets, byKey: map<string, Value>, live: Live, field: string, desc: bool,
                       slow: seq<string>, limit: nat)
    requires Agree(bs, byKey) && Mirrors(byKey, live, field) && SortedListing(live, field, desc, slow)
    ensures (forall k :: k in Take(AllKeys(bs, desc), limit) ==> k in live)
    ensures Classes(live, field, Take(AllKeys(bs, desc), limit)) == Classes(live, field, Take(slow, limit))
            <==> Missing(live, field) == {} || limit <= Shown(live, field, desc)
  {
    var indexed := AllKeys(bs, desc);
    AllKeysSorted(bs, byKey, desc);
    AllKeysMembers(bs, desc);
    forall k ensures k in indexed <==> k in byKey {
      if k in byKey { assert Stands(bs, k); }
    }
    var missing := ListingOf(Missing(live, field));
    var all := if desc then indexed + missing else missing + indexed;
    PaddedListing(live, field, desc, indexed, missing, byKey);
    SortedListingsAgree(live, field, desc, all, slow);
    TakeClasses(live, field, indexed, limit);
    TakeClasses(live, field, slow, limit);
    PaddedClasses(live, field, desc, indexed, missing);
    ShownMeans(live, field, desc, indexed, byKey);
    hide Agree, Mirrors, SortedListing, Shown, AllKeys;
    var cs := Classes(live, field, indexed);
    if desc {
      PadBack(cs, |missing|, limit);
    } else {
      NullsLeadInWalk(live, field, indexed, byKey);
      PadFront(cs, |missing|, limit);
    }
  }

  /** Without a limit: the walk has the values of the slow sort exactly when every
      live document has the field. */
  lemma FullWalkIsSort(bs: Buckets, byKey: map<string, Value>, live: Live, field: string, desc: bool, slow: seq<string>)
    requires Agree(bs, byKey) && Mirrors(byKey, live, field) && SortedListing(live, field, desc, slow)
    ensures Classes(live, field, AllKeys(bs, desc)) == Classes(live, field, slow) <==> Missing(live, field) == {}
  {
    var limit := |AllKeys(bs, desc)| + |slow| + 1;
    FastPathIsSort(bs, byKey, live, field, desc, slow, limit);
    NoDupSize(slow);
    assert (set k | k in slow) == live.Keys;
    SubsetSize(live.Keys - Missing(live, field), live.Keys);
    SubsetSize(ExplicitNulls(live, field), live.Keys);
    assert Shown(live, field, desc) <= |slow|;
    assert Take(AllKeys(bs, desc), limit) == AllKeys(bs, desc) && Take(slow, limit) == slow;
  }

  /** Every stored document carries its id. */
  function WithId(doc: Doc, id: string): Doc { doc["_id" := Str(id)] }

  lemma NothingListed(bs: Buckets, byKey: map<string, Value>, live: Live, field: string, desc: bool)
    requires Agree(bs, byKey) && Mirrors(byKey, live, field) && Missing(live, field) == live.Keys
    ensures AllKeys(bs, desc) == []
  {
    AllKeysMembers(bs, desc);
    FirstIn(AllKeys(bs, desc));
    forall k ensures k !in AllKeys(bs, desc) {
      assert Stands(bs, k) ==> k in byKey;
      assert k in live ==> k in Missing(live, field);
    }
  }

  /** A document without the field that the fast path does not show: put it into an
      empty collection, and the sort shows it where the fast path shows nothing. */
  method MissingIsHidden(key: string, id: string, doc: Doc, field: string) returns (fast: seq<string>)
    requires field !in doc && field != "_id"
    ensures fast == []
    ensures var live: Live := map[key := WithId(doc, id)];
            SortedListing(live, field, false, [key]) && Classes(live, field, Take([key], 1)) == [Null]
  {
    var c := new Collection(field);
    c.Put(key, id, doc);
    assert c.live == map[key := WithId(doc, id)];
    NothingListed(c.idx.sorted, c.idx.byKey, c.live, field, false);
    fast := c.OrderedRows(false, 1);
    ClassDecides(Null, Null);
  }

  lemma {:induction false} NoDupSize(keys: seq<string>)
    requires Distinct(keys)
    ensures |set k | k in keys| == |keys|
  {
    if keys != [] {
      var front := keys[..|keys| - 1];
      NoDupSize(front);
      assert (set k | k in keys) == (set k | k in front) + {keys[|keys| - 1]};
      assert keys[|keys| - 1] !in front;
    }
  }

  lemma ShownMeans(live: Live, field: string, desc: bool, indexed: seq<string>, byKey: map<string, Value>)
    requires Mirrors(byKey, live, field) && Distinct(indexed) && forall k :: k in indexed <==> k in byKey
    ensures Shown(live, field, desc) == if desc then |indexed| else CountNulls(Classes(live, field, indexed))
  {
    if desc {
      NoDupSize(indexed);
      assert (set k | k in indexed) == live.Keys - Missing(live, field);
    } else {
      CountMeans(live, field, indexed);
      assert NullKeys(live, field, indexed) == ExplicitNulls(live, field);
    }
  }

  // ---- one collection and its sorted index ----

  lemma MirrorsRemove(byKey: map<string, Value>, live: Live, field: string, key: string)
    requires Mirrors(byKey, live, field)
    ensures Mirrors(if key in live && field in live[key] then byKey - {key} else byKey, live - {key}, field)
  {
  }

  lemma MirrorsAdd(byKey: map<string, Value>, live: Live, field: string, key: string, doc: Doc)
    requires Mirrors(byKey, live - {key}, field)
    ensures Mirrors(if field in doc then byKey[key := doc[field]] else byKey, live[key := doc], field)
  {
    assert key !in live - {key};
    forall k | k != key ensures k in live[key := doc] <==> k in live - {key} {}
  }

  /** Numbers run upwards in their size and strings in their first difference, or
      downwards with desc. */
  ghost predicate RunsRight(live: Live, field: string, desc: bool, keys: seq<string>) {
    forall i, j :: 0 <= i < j < |keys| && keys[i] in live && keys[j] in live && field in live[keys[i]] && field in live[keys[j]] ==>
      RightWay(desc, live[keys[i]][field], live[keys[j]][field])
  }

  ghost predicate RightWay(desc: bool, a: Value, b: Value) {
    && (a.Num? && a.f.Real? && b.Num? && b.f.Real? ==> if desc then a.f.r >= b.f.r else a.f.r <= b.f.r)
    && (a.Str? && b.Str? ==> if desc then !ComesBefore(a.s, b.s) else !ComesBefore(b.s, a.s))
  }

  lemma BeforeIsRight(desc: bool, a: Value, b: Value)
    requires Before(desc, a, b)
    ensures RightWay(desc, a, b)
  {
    hide Cmp, ComesBefore;
    CmpMeans(a, b);
    CmpMeans(b, a);
  }

  /** What the sort may produce runs the right way. */
  lemma SortedRunsRight(live: Live, field: string, desc: bool, keys: seq<string>)
    requires InOrder(live, field, desc, keys)
    ensures RunsRight(live, field, desc, keys)
  {
    hide RightWay, Before;
    forall i, j | 0 <= i < j < |keys| && keys[i] in live && keys[j] in live && field in live[keys[i]] && field in live[keys[j]]
      ensures RightWay(desc, live[keys[i]][field], live[keys[j]][field])
    {
      assert Before(desc, FieldOf(live, field, keys[i]), FieldOf(live, field, keys[j]));
      BeforeIsRight(desc, live[keys[i]][field], live[keys[j]][field]);
    }
  }

  /** What a listing leaves out comes after what it shows. */
  ghost predicate LeavesLater(live: Live, field: string, desc: bool, keys: seq<string>) {
    forall a, b :: a in keys && a in live && field in live[a] && b in live && field in live[b] && b !in keys ==>
      RightWay(desc, live[a][field], live[b][field])
  }

  lemma TakeLeavesLater(live: Live, field: string, desc: bool, all: seq<string>, limit: nat)
    requires RunsRight(live, field, desc, all) && forall k :: k in live && field in live[k] ==> k in all
    ensures LeavesLater(live, field, desc, Take(all, limit))
  {
    hide RightWay;
    var keys := Take(all, limit);
    forall a, b | a in keys && a in live && field in live[a] && b in live && field in live[b] && b !in keys
      ensures RightWay(desc, live[a][field], live[b][field])
    {
      var i :| 0 <= i < |keys| && keys[i] == a;
      var j :| 0 <= j < |all| && all[j] == b;
      assert all[i] == a && i < j;
    }
  }

  lemma TakeInOrder(live: Live, field: string, desc: bool, keys: seq<string>, limit: nat)
    requires InOrder(live, field, desc, keys)
    ensures InOrder(live, field, desc, Take(keys, limit))
  {
    hide Before, FieldOf;
  }

  class Collection {
    const idx: Index
    var live: Live

    ghost predicate Valid()
      reads this, idx
    {
      idx.Valid() && Mirrors(idx.byKey, live, idx.field)
    }

    constructor (field: string)
      ensures Valid() && fresh(idx) && live == map[] && idx.field == field
    {
      idx := new Index(field);
      live := map[];
    }

    /** Take a live document's entry out of the index. */
    method Unindex(key: string)
      requires Valid()
      modifies idx
      ensures idx.Valid() && Mirrors(idx.byKey, live - {key}, idx.field)
    {
      MirrorsRemove(idx.byKey, live, idx.field, key);
      if key in live {
        idx.Remove(key, live[key]);
      }
    }

    method Put(key: string, id: string, given: Doc)
      requires Valid()
      modifies this, idx
      ensures Valid() && live == old(live)[key := WithId(given, id)]
    {
      var doc := given["_id" := Str(id)];
      Unindex(key);
      MirrorsAdd(idx.byKey, live, idx.field, key, doc);
      live := live[key := doc];
      idx.Add(key, doc);
    }

    method Delete(key: string)
      requires Valid()
      modifies this, idx
      ensures Valid() && live == old(live) - {key}
    {
      Unindex(key);
      live := live - {key};
    }

    /** ORDER BY the indexed field, LIMIT `limit`, by the fast path. */
    method OrderedRows(desc: bool, limit: nat) returns (keys: seq<string>)
      requires Valid()
      ensures keys == Take(AllKeys(idx.sorted, desc), limit) && RunsRight(live, idx.field, desc, keys)
      ensures LeavesLater(live, idx.field, desc, keys)
      ensures Distinct(keys) && forall k :: k in keys ==> k in live && idx.field in live[k]
      ensures forall slow :: SortedListing(live, idx.field, desc, slow) ==>
                (Classes(live, idx.field, keys) == Classes(live, idx.field, Take(slow, limit))
                 <==> Missing(live, idx.field) == {} || limit <= Shown(live, idx.field, desc))
    {
      keys := idx.TopK(desc, limit);
      WalkLists(idx.sorted, idx.byKey, live, idx.field, desc);
      TakeInOrder(live, idx.field, desc, AllKeys(idx.sorted, desc), limit);
      SortedRunsRight(live, idx.field, desc, keys);
      SortedRunsRight(live, idx.field, desc, AllKeys(idx.sorted, desc));
      TakeLeavesLater(live, idx.field, desc, AllKeys(idx.sorted, desc), limit);
      KeysLive(idx.sorted, idx.byKey, live, idx.field, desc, limit);
      forall slow | SortedListing(live, idx.field, desc, slow)
        ensures Classes(live, idx.field, keys) == Classes(live, idx.field, Take(slow, limit))
                <==> Missing(live, idx.field) == {} || limit <= Shown(live, idx.field, desc)
      {
        FastPathIsSort(idx.sorted, idx.byKey, live, idx.field, desc, slow, limit);
      }
    }

    /** ORDER BY the indexed field without a LIMIT. */
    method AllRows(desc: bool) returns (keys: seq<string>)
      requires Valid()
      ensures Distinct(keys) && forall k :: k in keys <==> k in live && idx.field in live[k]
      ensures InOrder(live, idx.field, desc, keys) && RunsRight(live, idx.field, desc, keys)
      ensures forall slow :: SortedListing(live, idx.field, desc, slow) ==>
                (Classes(live, idx.field, keys) == Classes(live, idx.field, slow) <==> Missing(live, idx.field) == {})
    {
      keys := idx.All(desc);
      WalkLists(idx.sorted, idx.byKey, live, idx.field, desc);
      SortedRunsRight(live, idx.field, desc, keys);
      forall slow | SortedListing(live, idx.field, desc, slow)
        ensures Classes(live, idx.field, keys) == Classes(live, idx.field, slow) <==> Missing(live, idx.field) == {}
      {
        FullWalkIsSort(idx.sorted, idx.byKey, live, idx.field, desc, slow);
      }
    }
  }

  lemma WalkLists(bs: Buckets, byKey: map<string, Value>, live: Live, field: string, desc: bool)
    requires Agree(bs, byKey) && Mirrors(byKey, live, field)
    ensures var keys := AllKeys(bs, desc);
            Distinct(keys) && (forall k :: k in keys <==> k in live && field in live[k]) && InOrder(live, field, desc, keys)
  {
    var keys := AllKeys(bs, desc);
    var missing := ListingOf(Missing(live, field));
    AllKeysSorted(bs, byKey, desc);
    AllKeysMembers(bs, desc);
    forall k ensures k in keys <==> k in byKey {
      if k in byKey { assert Stands(bs, k); }
    }
    PartsInOrder(live, field, desc, keys, missing, byKey);
  }

  lemma KeysLive(bs: Buckets, byKey: map<string, Value>, live: Live, field: string, desc: bool, limit: nat)
    requires Agree(bs, byKey) && Mirrors(byKey, live, field)
    ensures forall k :: k in Take(AllKeys(bs, desc), limit) ==> k in live && field in live[k]
    ensures Distinct(Take(AllKeys(bs, desc), limit))
  {
    AllKeysSorted(bs, byKey, desc);
  }
}
