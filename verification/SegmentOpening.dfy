/** Opening a segment directory: find the segments, read the sealed ones from
    their sidecars or heal them, scan the last and cut its torn tail
    (rust/nedb-v2/src/segment.rs). */
module SegmentOpening {
  import opened Hashing
  import opened SegmentFormat
  import opened SegmentDisk
  import opened SegmentSteps
  import opened SegmentRuns

  predicate Ascending(s: seq<nat>) {
    forall i, j :: 0 <= i < j < |s| ==> s[i] < s[j]
  }

  ghost predicate IsLeast(m: nat, s: set<nat>) {
    m in s && forall k :: k in s ==> m <= k
  }

  lemma {:induction false} Least(s: set<nat>) returns (m: nat)
    requires s != {}
    ensures IsLeast(m, s)
    decreases |s|
  {
    var x :| x in s;
    var rest := s - {x};
    m := x;
    if rest != {} {
      var n := Least(rest);
      m := if x < n then x else n;
      forall k | k in s ensures m <= k {
        if k != x { assert k in rest; }
      }
    }
  }

  lemma AscendingNext(s: seq<nat>, m: nat)
    requires Ascending(s) && forall x :: x in s ==> x < m
    ensures Ascending(s + [m])
  {
    assert forall i :: 0 <= i < |s| ==> s[i] in s;
  }

  method SortedIds(ids: set<nat>) returns (s: seq<nat>)
    ensures Ascending(s) && forall x :: x in s <==> x in ids
  {
    s := [];
    var rest := ids;
    while rest != {}
      invariant rest <= ids && Ascending(s)
      invariant forall x :: x in s <==> x in ids && x !in rest
      invariant forall x, y :: x in s && y in rest ==> x < y
      decreases |rest|
    {
      ghost var least := Least(rest);
      var m :| m in rest && forall k :: k in rest ==> m <= k;
      AscendingNext(s, m);
      s := s + [m];
      rest := rest - {m};
    }
  }

  method InsertAll(index: map<Digest, Loc>, id: nat, es: seq<Entry>) returns (r: map<Digest, Loc>)
    ensures r == index + Located(id, es)
  {
    r := index;
    for i := 0 to |es|
      invariant r == index + Located(id, es[..i])
    {
      assert es[..i + 1][..i] == es[..i];
      r := r[es[i].hash := Loc(id, es[i].off, es[i].len)];
    }
    assert es[..|es|] == es;
  }

  /** The sidecars after the segments listed in ids have been read. */
  function Healed(h: Hash, d: Disk, ids: seq<nat>): map<nat, Bytes> {
    d.idx + map id | id in ids && id in d.dat && !Loadable(h, d, id) :: IdxFile(h, ScanList(h, d.dat[id]))
  }

  lemma HealNext(h: Hash, d: Disk, ids: seq<nat>, id: nat)
    requires id in d.dat
    ensures Healed(h, d, ids + [id]) ==
              if Loadable(h, d, id) then Healed(h, d, ids) else Healed(h, d, ids)[id := IdxFile(h, ScanList(h, d.dat[id]))]
  {
    hide Loadable, IdxFile, ScanList;
  }

  lemma HealAll(h: Hash, d: Disk, ids: seq<nat>, top: nat)
    requires forall id :: id in d.dat <==> id in ids || id == top
    requires top !in ids
    ensures Healed(h, d, ids) == OpenDisk(h, d, top).idx
  {
    hide Loadable, IdxFile, ScanList, Records;
  }

  /** The first i segment numbers are those below the bound. */
  lemma FirstOnes(ids: seq<nat>, i: nat, id: nat)
    requires Ascending(ids) && i < |ids|
    ensures id in ids[..i] <==> id in ids && id < Bound(ids, i) && id != ids[|ids| - 1]
  {
    if id in ids {
      var j :| 0 <= j < |ids| && ids[j] == id;
      assert j < i ==> ids[..i][j] == id;
      if j >= i && i > 0 { assert ids[i - 1] < ids[j]; }
    }
    if id in ids[..i] {
      var j :| 0 <= j < i && ids[j] == id;
      assert ids[j] in ids && ids[j] < ids[|ids| - 1];
      if j < i - 1 { assert ids[j] < ids[i - 1]; }
    }
  }

  lemma SameHealed(h: Hash, d: Disk, ids: seq<nat>, top: nat, n: nat)
    requires forall id :: id in d.dat ==> (id in ids <==> id < n && id != top)
    ensures Disk(d.dat, d.synced, Healed(h, d, ids)) == Healing(h, d, top, n)
  {
    hide Loadable, IdxFile, ScanList;
  }

  /** After i segments the directory is one that opening passes through. */
  lemma HealingSoFar(h: Hash, d: Disk, ids: seq<nat>, i: nat)
    requires IdsOf(d, ids) && i < |ids|
    ensures Disk(d.dat, d.synced, Healed(h, d, ids[..i])) == Healing(h, d, ids[|ids| - 1], Bound(ids, i))
  {
    hide Healed, Healing, Bound, Ascending;
    forall id | id in d.dat ensures id in ids[..i] <==> id < Bound(ids, i) && id != ids[|ids| - 1] { FirstOnes(ids, i, id); }
    SameHealed(h, d, ids[..i], ids[|ids| - 1], Bound(ids, i));
  }

  /** Segment numbers that are not listed add nothing to the index. */
  lemma GatherGap(lists: Lists, ids: seq<nat>, i: nat)
    requires i < |ids| && Ascending(ids) && forall id :: id in lists <==> id in ids
    ensures Gather(lists, ids[i] + 1) == Gather(lists, Bound(ids, i)) + Located(ids[i], lists[ids[i]])
  {
    NoneBetween(ids, i);
    GatherSkips(lists, Bound(ids, i), ids[i]);
  }

  /** Everything below this number has been read after i segments. */
  function Bound(ids: seq<nat>, i: nat): (n: nat)
    requires i <= |ids| && Ascending(ids)
    ensures i < |ids| ==> n <= ids[i]
  {
    if i == 0 then 0 else ids[i - 1] + 1
  }

  lemma NoneBetween(ids: seq<nat>, i: nat)
    requires i < |ids| && Ascending(ids)
    ensures forall j :: 0 <= j < |ids| ==> !(Bound(ids, i) <= ids[j] < ids[i])
  {
    forall j | 0 <= j < |ids| ensures ids[j] < Bound(ids, i) || ids[i] <= ids[j] {
      if j < i - 1 { assert ids[j] < ids[i - 1]; }
      if i < j { assert ids[i] < ids[j]; }
    }
  }

  lemma CutTail(h: Hash, f: Bytes, end: nat)
    requires end <= |f| && f[..end] == Encode(Records(f))
    ensures (if end < |f| then f[..end] else f) == Encode(Records(f)) && end == |Encode(Records(f))|
  {
    assert f[..|f|] == f;
  }

  /** One sealed segment: its sidecar if usable, else a scan and a new sidecar. */
  method ReadSealed(h: Hash, d: Disk, top: nat, id: nat) returns (es: seq<Entry>, side: Option<Bytes>)
    requires id in d.dat && id != top
    ensures es == OpenList(h, d, top, id)
    ensures side == if Loadable(h, d, id) then None else Some(IdxFile(h, ScanList(h, d.dat[id])))
  {
    var loaded: Option<seq<Entry>> := None;
    if id in d.idx {
      loaded := ReadIdx(h, d.idx[id]);
    }
    match loaded {
      case Some(entries) =>
        es, side := entries, None;
      case None =>
        var end;
        end, es := ScanSegment(h, d.dat[id]);
        var data := WriteIdx(h, es);
        side := Some(data);
    }
  }

  /** What has been read after i segments. */
  ghost predicate ReadSoFar(h: Hash, d: Disk, top: nat, ids: seq<nat>, i: nat, d': Disk, index: map<Digest, Loc>) {
    && i <= |ids| && Ascending(ids) && index == Gather(OpenLists(h, d, top), Bound(ids, i))
    && d' == Disk(d.dat, d.synced, Healed(h, d, ids[..i]))
  }

  ghost predicate IdsOf(d: Disk, ids: seq<nat>) {
    Ascending(ids) && forall id :: id in d.dat <==> id in ids
  }

  lemma ReadNext(h: Hash, d: Disk, top: nat, ids: seq<nat>, i: nat, d': Disk, index: map<Digest, Loc>)
    requires ReadSoFar(h, d, top, ids, i, d', index) && IdsOf(d, ids) && i < |ids|
    ensures var id := ids[i];
            id in d.dat
            && ReadSoFar(h, d, top, ids, i + 1,
                         if Loadable(h, d, id) then d' else d'.(idx := d'.idx[id := IdxFile(h, ScanList(h, d.dat[id]))]),
                         index + Located(id, OpenList(h, d, top, id)))
  {
    hide Healed, OpenList, Located, Gather, Loadable, ScanList, IdxFile;
    assert ids[i] in ids;
    GatherGap(OpenLists(h, d, top), ids, i);
    HealNext(h, d, ids[..i], ids[i]);
    assert ids[..i + 1] == ids[..i] + [ids[i]];
  }

  lemma ReadFirst(h: Hash, d: Disk, top: nat, ids: seq<nat>)
    requires IdsOf(d, ids)
    ensures ReadSoFar(h, d, top, ids, 0, d, map[])
  {
    assert Healed(h, d, []) == d.idx;
    assert ids[..0] == [];
  }

  lemma LastIndex(h: Hash, d: Disk, top: nat, ids: seq<nat>, d': Disk, index: map<Digest, Loc>)
    requires ids != [] && IdsOf(d, ids) && top == ids[|ids| - 1] && top in d.dat
    requires ReadSoFar(h, d, top, ids, |ids| - 1, d', index)
    ensures index + Located(top, EntriesOf(h, Records(d.dat[top]))) == OpenIndex(h, d, top)
  {
    hide Located, Gather, Records, Healed;
    TopIsScanned(h, d, top);
    hide OpenList;
    GatherGap(OpenLists(h, d, top), ids, |ids| - 1);
  }

  lemma LastDisk(h: Hash, d: Disk, top: nat, ids: seq<nat>, end: nat)
    requires ids != [] && IdsOf(d, ids) && top == ids[|ids| - 1] && top in d.dat
    requires end <= |d.dat[top]| && d.dat[top][..end] == Encode(Records(d.dat[top]))
    ensures Disk(d.dat[top := if end < |d.dat[top]| then d.dat[top][..end] else d.dat[top]], d.synced[top := end], Healed(h, d, ids[..|ids| - 1]))
         == OpenDisk(h, d, top)
    ensures end == |OpenDisk(h, d, top).dat[top]| && IsTop(d, top)
  {
    hide Records, Encode, Healed;
    LastIsTop(ids);
    CutTail(h, d.dat[top], end);
    HealAll(h, d, ids[..|ids| - 1], top);
  }

  /** Each directory listed is the one opened, with some of its sidecars written. */
  ghost predicate Passed(h: Hash, d: Disk, top: nat, trail: seq<Disk>) {
    forall k :: 0 <= k < |trail| ==> exists n: nat :: trail[k] == Healing(h, d, top, n)
  }

  /** Read a directory as open finds it; `trail` are the directories it passes
      through before the last write, one per segment read. */
  method Recover(h: Hash, d: Disk) returns (d': Disk, index: map<Digest, Loc>, top: nat, end: nat, ghost trail: seq<Disk>)
    ensures Passed(h, d, top, trail)
    ensures d.dat == map[] ==> top == 0 && d' == NewFile(d, 0) && index == map[] && end == 0
    ensures d.dat != map[] ==> IsTop(d, top) && d' == OpenDisk(h, d, top) && end == |d'.dat[top]|
    ensures d.dat != map[] ==> index == OpenIndex(h, d, top)
  {
    hide Loadable, ScanList, OpenList, IdxFile, LoadIdx, Located, Records, Encode, OpenDisk, ReadSoFar, OpenIndex, Healed, Healing, Bound;
    var ids := SortedIds(d.dat.Keys);
    index := map[];
    trail := [];
    if ids == [] {
      assert d.dat == map[];
      return NewFile(d, 0), index, 0, 0, [];
    }
    assert d.dat != map[] by { assert ids[0] in ids; }
    top := ids[|ids| - 1];
    assert top in ids;
    d' := d;
    ReadFirst(h, d, top, ids);
    for i := 0 to |ids| - 1
      invariant ReadSoFar(h, d, top, ids, i, d', index) && Passed(h, d, top, trail)
    {
      SoFarDisk(h, d, top, ids, i, d', index);
      HealingSoFar(h, d, ids, i);
      trail := trail + [d'];
      var id := ids[i];
      assert id != top && id in ids;
      var es, side := ReadSealed(h, d, top, id);
      ReadNext(h, d, top, ids, i, d', index);
      index := InsertAll(index, id, es);
      if side.Some? {
        d' := d'.(idx := d'.idx[id := side.value]);
      }
    }
    SoFarDisk(h, d, top, ids, |ids| - 1, d', index);
    HealingSoFar(h, d, ids, |ids| - 1);
    trail := trail + [d'];
    var entries;
    end, entries := ScanSegment(h, d.dat[top]);
    LastIndex(h, d, top, ids, d', index);
    LastDisk(h, d, top, ids, end);
    assert d'.dat == d.dat && d'.synced == d.synced && d'.idx == Healed(h, d, ids[..|ids| - 1]) by { SoFarDisk(h, d, top, ids, |ids| - 1, d', index); }
    index := InsertAll(index, top, entries);
    if end < |d'.dat[top]| {
      d' := d'.(dat := d'.dat[top := d'.dat[top][..end]]);
    } else {
      assert d.dat[top := d.dat[top]] == d.dat;
    }
    d' := d'.(synced := d'.synced[top := end]);
  }

  lemma SoFarDisk(h: Hash, d: Disk, top: nat, ids: seq<nat>, i: nat, d': Disk, index: map<Digest, Loc>)
    requires ReadSoFar(h, d, top, ids, i, d', index)
    ensures i <= |ids| && d' == Disk(d.dat, d.synced, Healed(h, d, ids[..i]))
  {}

  lemma TopIsScanned(h: Hash, d: Disk, top: nat)
    requires top in d.dat
    ensures OpenList(h, d, top, top) == EntriesOf(h, Records(d.dat[top]))
  {}

  lemma LastIsTop(ids: seq<nat>)
    requires ids != [] && Ascending(ids)
    ensures var top := ids[|ids| - 1];
            top !in ids[..|ids| - 1] && forall id :: id in ids <==> id in ids[..|ids| - 1] || id == top
    ensures forall id :: id in ids ==> id <= ids[|ids| - 1]
  {
    assert ids == ids[..|ids| - 1] + [ids[|ids| - 1]];
  }
}
