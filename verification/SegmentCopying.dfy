/** The two loops of compaction: copy what is live into fresh segments, then
    delete the old files (rust/nedb-v2/src/segment.rs). */
module SegmentCopying {
  import opened Hashing
  import opened SegmentFormat
  import opened SegmentDisk
  import opened SegmentSteps
  import opened SegmentRuns
  import opened SegmentCompaction
  import opened SegmentPacking
  import opened SegmentLifetimes
  import opened SegmentSealing

  // ---- where the copying stands ----

  /** Every directory since t0 is a stage of this compaction. */
  ghost predicate StagesFrom(h: Hash, a: At, live: set<Digest>, t0: seq<At>, t: seq<At>) {
    t0 <= t && forall k :: |t0| <= k < |t| ==> CompactStage(h, a.d, a.top, live, t[k])
  }

  /** The hashes `copied` are in the new segments, and the index says so. */
  ghost predicate CopyState(h: Hash, a: At, live: set<Digest>, copied: set<Digest>, m: At, index: map<Digest, Loc>,
                            t0: seq<At>, t: seq<At>) {
    && Copying(h, a.d, a.top, m) && StagesFrom(h, a, live, t0, t)
    && index == NewIndex(h, a.top, m) && index.Keys == copied
  }

  lemma CopyStateTop(h: Hash, a: At, live: set<Digest>, copied: set<Digest>, m: At, index: map<Digest, Loc>, t0: seq<At>, t: seq<At>)
    requires CopyState(h, a, live, copied, m, index, t0, t)
    ensures m.top in m.d.dat && m.top > a.top && Tail(m.d.dat[m.top]) == [] && |m.d.dat[m.top]| < U64
    ensures Copying(h, a.d, a.top, m) && OldKept(a.d, a.top, m.d) && FileOk(h, m.d.dat[m.top])
  {
    hide NewIndex, StagesFrom, OldKept, Base, NewOk;
    CopyTop(h, a.d, a.top, m);
    CopyFile(h, m);
  }

  lemma CopyFile(h: Hash, m: At)
    requires Base(h, m.d, m.top) && m.top in m.d.dat
    ensures FileOk(h, m.d.dat[m.top]) && |m.d.dat[m.top]| < U64
  {
    hide Coherent, Sound, NoStray, IsTop;
  }

  lemma CopyIsStage(h: Hash, a: At, live: set<Digest>, m: At)
    requires Copying(h, a.d, a.top, m)
    ensures CompactStage(h, a.d, a.top, live, m)
  {
    hide Base, NewOk;
  }

  lemma StagesGrow(h: Hash, a: At, live: set<Digest>, t0: seq<At>, t: seq<At>, m: At)
    requires StagesFrom(h, a, live, t0, t) && CompactStage(h, a.d, a.top, live, m)
    ensures StagesFrom(h, a, live, t0, t + [m])
  {
    hide CompactStage;
  }

  lemma CopyGrows(h: Hash, a: At, live: set<Digest>, t0: seq<At>, t: seq<At>, m: At)
    requires StagesFrom(h, a, live, t0, t) && Copying(h, a.d, a.top, m)
    ensures StagesFrom(h, a, live, t0, t + [m])
  {
    hide CompactStage, Copying, StagesFrom;
    CopyIsStage(h, a, live, m);
    StagesGrow(h, a, live, t0, t, m);
  }

  lemma CopyBegins(h: Hash, a: At, live: set<Digest>, t0: seq<At>)
    requires Base(h, a.d, a.top)
    ensures var m := At(NewFile(a.d, a.top + 1), a.top + 1);
            CopyState(h, a, live, {}, m, map[], t0, t0 + [m])
  {
    hide Copying, Base, NewIndex, StagesFrom, CompactStage;
    var m := At(NewFile(a.d, a.top + 1), a.top + 1);
    CopyStart(h, a.d, a.top);
    assert StagesFrom(h, a, live, t0, t0) by { StagesNone(h, a, live, t0); }
    CopyGrows(h, a, live, t0, t0, m);
  }

  lemma StagesNone(h: Hash, a: At, live: set<Digest>, t0: seq<At>)
    ensures StagesFrom(h, a, live, t0, t0)
  {}

  /** A live record still reads back from its old place. */
  lemma CopyReads(h: Hash, a: At, m: At, x: Digest) returns (c: Bytes)
    requires DiskOk(h, a.d, a.top) && OldKept(a.d, a.top, m.d) && x in ScanIndex(h, a.d, a.top + 1)
    ensures ReadContent(h, m.d, ScanIndex(h, a.d, a.top + 1)[x], x) == Found(c)
    ensures Blake(h, c) == x && Holds(h, a.d, x, c) && |c| < U32
  {
    c := IndexReads(h, a, x);
    var id :| id in a.d.dat && c in Records(a.d.dat[id]);
    FileSplits(a.d.dat[id]);
    hide Holds, ScanIndex, OldKept;
    assert IsTop(a.d, a.top) by { DiskOkBase(h, a.d, a.top); }
    OldReads(a.d, a.top, m.d, ScanIndex(h, a.d, a.top + 1)[x]);
  }

  lemma OldReads(d0: Disk, top0: nat, d: Disk, l: Loc)
    requires OldKept(d0, top0, d) && IsTop(d0, top0) && ReadAt(d0, l).Some?
    ensures ReadAt(d, l) == ReadAt(d0, l)
  {}

  /** Sealing the last new segment and opening the next. */
  lemma CopyRolls(h: Hash, a: At, live: set<Digest>, copied: set<Digest>, m: At, index: map<Digest, Loc>,
                  t0: seq<At>, t: seq<At>, es: seq<Entry>)
    requires m.top in m.d.dat && CopyState(h, a, live, copied, m, index, t0, t) && EntriesFor(index, m.top, es)
    ensures var m1 := Sealing1(m);
            var m2 := Sealing2(m, IdxFile(h, es));
            var m3 := Sealed(m, IdxFile(h, es));
            CopyState(h, a, live, copied, m3, index, t0, t + [m1] + [m2] + [m3])
  {
    hide *;
    CopyStateTop(h, a, live, copied, m, index, t0, t);
    CopyStateParts(h, a, live, copied, m, index, t0, t);
    SealingWrites(m, IdxFile(h, es));
    NewTopSide(h, a.top, m, es);
    CopySeal(h, a.d, a.top, m, IdxFile(h, es));
    NewIndexKeeps(h, a.top, m, IdxFile(h, es));
    CopyGrows(h, a, live, t0, t, Sealing1(m));
    CopyGrows(h, a, live, t0, t + [Sealing1(m)], Sealing2(m, IdxFile(h, es)));
    CopyGrows(h, a, live, t0, t + [Sealing1(m)] + [Sealing2(m, IdxFile(h, es))], Sealed(m, IdxFile(h, es)));
    MakeCopyState(h, a, live, copied, Sealed(m, IdxFile(h, es)), index, t0,
                  t + [Sealing1(m)] + [Sealing2(m, IdxFile(h, es))] + [Sealed(m, IdxFile(h, es))]);
  }

  lemma CopyStateParts(h: Hash, a: At, live: set<Digest>, copied: set<Digest>, m: At, index: map<Digest, Loc>, t0: seq<At>, t: seq<At>)
    requires CopyState(h, a, live, copied, m, index, t0, t)
    ensures StagesFrom(h, a, live, t0, t) && index == NewIndex(h, a.top, m) && index.Keys == copied
  {
    hide Copying, NewIndex, StagesFrom;
  }

  lemma MakeCopyState(h: Hash, a: At, live: set<Digest>, copied: set<Digest>, m: At, index: map<Digest, Loc>, t0: seq<At>, t: seq<At>)
    requires Copying(h, a.d, a.top, m) && StagesFrom(h, a, live, t0, t) && index == NewIndex(h, a.top, m) && index.Keys == copied
    ensures CopyState(h, a, live, copied, m, index, t0, t)
  {
    hide Copying, NewIndex, StagesFrom;
  }

  lemma NewTopSide(h: Hash, top0: nat, m: At, es: seq<Entry>)
    requires m.top in m.d.dat && m.top > top0 && FileOk(h, m.d.dat[m.top]) && EntriesFor(NewIndex(h, top0, m), m.top, es)
    ensures SideOf(h, IdxFile(h, es), m.d.dat[m.top])
  {
    hide EntriesFor, SideOf, IdxFile, FileOk, ScanList, Gather;
    SideFromIndex(h, NewLists(h, m.d, top0), m.top, m.d.dat[m.top], es);
  }

  lemma CopyAppends(h: Hash, a: At, live: set<Digest>, copied: set<Digest>, m: At, index: map<Digest, Loc>,
                    t0: seq<At>, t: seq<At>, c: Bytes)
    requires m.top in m.d.dat && CopyState(h, a, live, copied, m, index, t0, t) && IsTop(a.d, a.top)
    requires Holds(h, a.d, Blake(h, c), c) && Blake(h, c) !in copied && |c| < U32 && |m.d.dat[m.top]| + 4 + |c| < U64
    ensures var m' := AppendAt(m, c);
            CopyState(h, a, live, copied + {Blake(h, c)}, m', index[Blake(h, c) := Loc(m.top, |m.d.dat[m.top]| + 4, |c|)], t0, t + [m'])
  {
    hide *;
    CopyStateTop(h, a, live, copied, m, index, t0, t);
    CopyStateParts(h, a, live, copied, m, index, t0, t);
    AppendWrites(m, c);
    CopyAppend(h, a.d, a.top, m, c);
    CopyIndex(h, a.top, m, c);
    CopyGrows(h, a, live, t0, t, AppendAt(m, c));
    MakeCopyState(h, a, live, copied + {Blake(h, c)}, AppendAt(m, c),
                  index[Blake(h, c) := Loc(m.top, |m.d.dat[m.top]| + 4, |c|)], t0, t + [AppendAt(m, c)]);
  }

  /** Seal the last new segment and open the next. */
  method RollCopy(h: Hash, d: Disk, curId: nat, index: map<Digest, Loc>, ghost a: At, ghost live: set<Digest>,
                  ghost copied: set<Digest>, ghost t0: seq<At>, ghost t: seq<At>)
    returns (d': Disk, ghost t': seq<At>)
    requires curId in d.dat && CopyState(h, a, live, copied, At(d, curId), index, t0, t)
    ensures CopyState(h, a, live, copied, At(d', curId + 1), index, t0, t')
    ensures d'.dat == d.dat[curId + 1 := []]
  {
    hide *;
    ghost var m := At(d, curId);
    d' := SyncFile(d, curId);
    t' := t + [At(d', curId)];
    var entries := EntriesForSegment(index, curId);
    var data := WriteIdx(h, entries);
    d' := WriteSide(d', curId, data);
    t' := t' + [At(d', curId)];
    d' := NewFile(d', curId + 1);
    t' := t' + [At(d', curId + 1)];
    CopyRolls(h, a, live, copied, m, index, t0, t, entries);
    SealingWrites(m, data);
    SealingFiles(m, data);
  }

  lemma SealingFiles(m: At, side: Bytes)
    requires m.top in m.d.dat
    ensures NewFile(WriteSide(SyncFile(m.d, m.top), m.top, side), m.top + 1).dat == m.d.dat[m.top + 1 := []]
  {}

  /** One turn of the copy loop over the segment files: the record of a content ends
      the last one if that is not empty and would grow past the cap. */
  ghost predicate Filled(dat0: map<nat, Bytes>, id0: nat, dat: map<nat, Bytes>, id: nat, c: Bytes, max: nat) {
    && id0 in dat0
    && (if |dat0[id0]| > 0 && |dat0[id0]| + 4 + |c| > max
        then id == id0 + 1 && dat == dat0[id := [] + Frame(c)]
        else id == id0 && dat == dat0[id := dat0[id0] + Frame(c)])
  }

  /** ... keeps the new segments packed and adds the length of the record. */
  lemma FilledPacks(dat0: map<nat, Bytes>, base: nat, id0: nat, dat: map<nat, Bytes>, id: nat, c: Bytes, max: nat)
    requires Filled(dat0, id0, dat, id, c, max) && Packed(dat0, base, id0, max) && id0 > base && Tail(dat0[id0]) == [] && |c| < U32
    requires forall k :: k in dat0 ==> k <= id0
    ensures Packed(dat, base, id, max) && Lengths(dat, id + 1) == Lengths(dat0, id0 + 1) + 4 + |c|
  {
    hide Packed, Frame, Tail;
    if |dat0[id0]| > 0 && |dat0[id0]| + 4 + |c| > max {
      PackedRoll(dat0, base, id0, max, c);
      LengthsSame(dat, dat0, id0 + 1);
    } else {
      PackedAppend(dat0, base, id0, max, c);
      LengthsSame(dat, dat0, id0);
    }
  }

  lemma ReadLength(h: Hash, d: Disk, l: Loc, x: Digest)
    ensures ReadContent(h, d, l, x).Found? ==> |ReadContent(h, d, l, x).content| == l.len
  {}

  lemma NoneAbove(h: Hash, a: At, live: set<Digest>, copied: set<Digest>, m: At, index: map<Digest, Loc>, t0: seq<At>, t: seq<At>)
    requires CopyState(h, a, live, copied, m, index, t0, t)
    ensures forall k :: k in m.d.dat ==> k <= m.top
  {
    hide Sound, NoStray, FilesOk, Coherent, OldKept, NewOk, NewIndex, StagesFrom;
  }

  /** Copy the record of hash x, which the old index places at `loc`. */
  method CopyOne(h: Hash, max: nat, x: Digest, loc: Loc, d0: Disk, id0: nat, off0: nat, index0: map<Digest, Loc>,
                 ghost a: At, ghost live: set<Digest>, ghost copied: set<Digest>, ghost t0: seq<At>, ghost t1: seq<At>)
    returns (d: Disk, id: nat, off: nat, index: map<Digest, Loc>, ghost t: seq<At>)
    requires max < U64 && DiskOk(h, a.d, a.top) && CopyState(h, a, live, copied, At(d0, id0), index0, t0, t1)
    requires id0 in d0.dat && off0 == |d0.dat[id0]|
    requires x in ScanIndex(h, a.d, a.top + 1) && loc == ScanIndex(h, a.d, a.top + 1)[x] && x !in copied
    requires Filling(a.d.dat, d0.dat, a.top, id0, max, ScanIndex(h, a.d, a.top + 1), copied)
    ensures CopyState(h, a, live, copied + {x}, At(d, id), index, t0, t)
    ensures id in d.dat && off == |d.dat[id]|
    ensures Filling(a.d.dat, d.dat, a.top, id, max, ScanIndex(h, a.d, a.top + 1), copied + {x})
  {
    hide *;
    d, id, off, index, t := d0, id0, off0, index0, t1;
    DiskOkBase(h, a.d, a.top);
    CopyStateTop(h, a, live, copied, At(d, id), index, t0, t);
    NoneAbove(h, a, live, copied, At(d, id), index, t0, t);
    ghost var c := CopyReads(h, a, At(d, id), x);
    var got := ReadContent(h, d, loc, x);
    var content := got.content;
    ReadLength(h, d, loc, x);
    var recordSize := 4 + |content|;
    if off > 0 && off + recordSize > max {
      d, t := RollCopy(h, d, id, index, a, live, copied, t0, t);
      id, off := id + 1, 0;
    }
    assert off + 4 + |content| < U64 by { Room(); }
    CopyAppends(h, a, live, copied, At(d, id), index, t0, t, content);
    AppendWrites(At(d, id), content);
    AppendFiles(d, id, content);
    var contentOff := off + 4;
    d := AppendFile(d, id, content);
    index := index[x := Loc(id, contentOff, |content|)];
    t := t + [At(d, id)];
    off := off + recordSize;
    TurnFills(d0.dat, id0, d.dat, id, content, max);
    FillingNext(a.d.dat, d0.dat, a.top, id0, max, ScanIndex(h, a.d, a.top + 1), copied, d.dat, id, x, content);
  }

  lemma AppendFiles(d: Disk, id: nat, c: Bytes)
    requires id in d.dat
    ensures AppendFile(d, id, c).dat == d.dat[id := d.dat[id] + Frame(c)]
  {}

  lemma TurnFills(dat0: map<nat, Bytes>, id0: nat, dat: map<nat, Bytes>, id: nat, c: Bytes, max: nat)
    requires id0 in dat0
    requires if |dat0[id0]| > 0 && |dat0[id0]| + 4 + |c| > max
             then id == id0 + 1 && dat == dat0[id := []][id := [] + Frame(c)]
             else id == id0 && dat == dat0[id := dat0[id0] + Frame(c)]
    ensures Filled(dat0, id0, dat, id, c, max)
  {
    hide Frame;
  }

  /** The new segments are packed and hold the framed contents copied so far. */
  ghost predicate Filling(dat0: map<nat, Bytes>, dat: map<nat, Bytes>, base: nat, top: nat, max: nat, index: map<Digest, Loc>, copied: set<Digest>) {
    && copied <= index.Keys && Packed(dat, base, top, max)
    && Lengths(dat, top + 1) == Lengths(dat0, base + 1) + Framed(index, copied)
  }

  lemma FillingParts(dat0: map<nat, Bytes>, dat: map<nat, Bytes>, base: nat, top: nat, max: nat, index: map<Digest, Loc>, copied: set<Digest>)
    requires Filling(dat0, dat, base, top, max, index, copied)
    ensures copied <= index.Keys && Packed(dat, base, top, max) && Lengths(dat, top + 1) == Lengths(dat0, base + 1) + Framed(index, copied)
  {
    hide Packed;
  }

  lemma FillingNext(dat0: map<nat, Bytes>, dat: map<nat, Bytes>, base: nat, top: nat, max: nat, index: map<Digest, Loc>, copied: set<Digest>,
                    dat': map<nat, Bytes>, top': nat, x: Digest, c: Bytes)
    requires Filling(dat0, dat, base, top, max, index, copied) && x in index && x !in copied && |c| == index[x].len
    requires Filled(dat, top, dat', top', c, max) && top > base && Tail(dat[top]) == [] && |c| < U32
    requires forall k :: k in dat ==> k <= top
    ensures Filling(dat0, dat', base, top', max, index, copied + {x})
  {
    hide Packed, Filled, Tail, Lengths;
    FilledPacks(dat, base, top, dat', top', c, max);
    FramedAdds(index, copied + {x}, x);
    assert copied + {x} - {x} == copied;
  }

  ghost predicate Parted(all: set<Digest>, copied: set<Digest>, toCopy: set<Digest>) { copied !! toCopy && copied + toCopy == all }

  lemma PartedFirst(all: set<Digest>)
    ensures Parted(all, {}, all)
  {}

  lemma PartedNext(all: set<Digest>, copied: set<Digest>, toCopy: set<Digest>, x: Digest)
    requires Parted(all, copied, toCopy) && x in toCopy
    ensures Parted(all, copied + {x}, toCopy - {x}) && x in all && x !in copied && |toCopy - {x}| < |toCopy|
  {}

  lemma PartedLast(all: set<Digest>, copied: set<Digest>)
    requires Parted(all, copied, {})
    ensures copied == all
  {}

  /** Copy every live record, in any order, into segments above oldMax. */
  method CopyLive(h: Hash, max: nat, index: map<Digest, Loc>, live: set<Digest>, oldMax: nat, d0: Disk, ghost t0: seq<At>)
    returns (d: Disk, newIndex: map<Digest, Loc>, curId: nat, curOff: nat, ghost t: seq<At>)
    requires max < U64 && DiskOk(h, d0, oldMax) && index == ScanIndex(h, d0, oldMax + 1)
    ensures CopyState(h, At(d0, oldMax), live, index.Keys * live, At(d, curId), newIndex, t0, t)
    ensures curId in d.dat && curOff == |d.dat[curId]|
    ensures Filling(d0.dat, d.dat, oldMax, curId, max, index, index.Keys * live)
  {
    hide *;
    ghost var a := At(d0, oldMax);
    DiskOkBase(h, d0, oldMax);
    ghost var all := index.Keys * live;
    var toCopy := index.Keys * live;
    curId, curOff, newIndex := oldMax + 1, 0, map[];
    d := NewFile(d0, curId);
    t := t0 + [At(d, curId)];
    CopyBegins(h, a, live, t0);
    NewFileTop(d0, curId);
    StartsPacked(d0, oldMax, max, index);
    ghost var copied: set<Digest> := {};
    PartedFirst(all);
    while toCopy != {}
      invariant Parted(all, copied, toCopy) && all <= index.Keys
      invariant CopyState(h, a, live, copied, At(d, curId), newIndex, t0, t)
      invariant curId in d.dat && curOff == |d.dat[curId]|
      invariant Filling(d0.dat, d.dat, oldMax, curId, max, index, copied)
      decreases |toCopy|
    {
      var x :| x in toCopy;
      PartedNext(all, copied, toCopy, x);
      d, curId, curOff, newIndex, t := CopyOne(h, max, x, index[x], d, curId, curOff, newIndex, a, live, copied, t0, t);
      toCopy, copied := toCopy - {x}, copied + {x};
    }
    PartedLast(all, copied);
  }

  lemma StartsPacked(d0: Disk, oldMax: nat, max: nat, index: map<Digest, Loc>)
    ensures Filling(d0.dat, NewFile(d0, oldMax + 1).dat, oldMax, oldMax + 1, max, index, {})
  {
    PackedStart(d0.dat, oldMax, max);
    LengthsSame(NewFile(d0, oldMax + 1).dat, d0.dat, oldMax + 1);
  }

  lemma Room()
    ensures U32 + 4 <= U64
  {}

  lemma NewFileTop(d: Disk, id: nat)
    ensures id in NewFile(d, id).dat && NewFile(d, id).dat[id] == []
  {}

  lemma SealingWrites(m: At, side: Bytes)
    requires m.top in m.d.dat
    ensures Sealing1(m) == At(SyncFile(m.d, m.top), m.top)
    ensures Sealing2(m, side) == At(WriteSide(SyncFile(m.d, m.top), m.top, side), m.top)
    ensures Sealed(m, side) == At(NewFile(WriteSide(SyncFile(m.d, m.top), m.top, side), m.top + 1), m.top + 1)
    ensures Sealed(m, side).d.dat[m.top + 1] == []
  {}

  lemma AppendWrites(m: At, c: Bytes)
    requires m.top in m.d.dat
    ensures AppendAt(m, c) == At(AppendFile(m.d, m.top, c), m.top)
    ensures m.top in AppendFile(m.d, m.top, c).dat && |AppendFile(m.d, m.top, c).dat[m.top]| == |m.d.dat[m.top]| + 4 + |c|
  {}

  // ---- deleting ----

  ghost predicate DeleteState(h: Hash, a: At, live: set<Digest>, m: At, index: map<Digest, Loc>, t0: seq<At>, t: seq<At>) {
    && Deleting(h, a.top, m) && OldShrunk(a.d, a.top, m.d) && CopiedAll(h, a.d, a.top, live, m.d)
    && index == NewIndex(h, a.top, m) && StagesFrom(h, a, live, t0, t)
  }

  lemma DeleteIsStage(h: Hash, a: At, live: set<Digest>, m: At)
    requires Deleting(h, a.top, m) && OldShrunk(a.d, a.top, m.d) && CopiedAll(h, a.d, a.top, live, m.d)
    ensures CompactStage(h, a.d, a.top, live, m)
  {
    hide Base, NewOk, OldShrunk, CopiedAll, OldKept;
  }

  /** When everything live is in the new index, every live content is in the new
      segments. */
  lemma CopiedWhole(h: Hash, a: At, live: set<Digest>, m: At)
    requires IsTop(a.d, a.top) && OldKept(a.d, a.top, m.d) && Coherent(h, m.d)
    requires NewIndex(h, a.top, m).Keys == ScanIndex(h, a.d, a.top + 1).Keys * live
    ensures CopiedAll(h, a.d, a.top, live, m.d)
  {
    hide NewIndex, ScanIndex, Holds, OldKept, InNew, Coherent, IsTop;
    forall c | Blake(h, c) in live && Holds(h, a.d, Blake(h, c), c) ensures InNew(a.top, m.d, c) {
      ScanHolds(h, a.d, a.top, Blake(h, c));
      assert Blake(h, c) in NewIndex(h, a.top, m).Keys;
      CopiedOne(h, a, m, c);
    }
  }

  lemma CopiedOne(h: Hash, a: At, m: At, c: Bytes)
    requires IsTop(a.d, a.top) && OldKept(a.d, a.top, m.d) && Coherent(h, m.d)
    requires Holds(h, a.d, Blake(h, c), c) && Blake(h, c) in NewIndex(h, a.top, m)
    ensures InNew(a.top, m.d, c)
  {
    hide Coherent, ScanList;
    var id, e := GatherFrom(NewLists(h, m.d, a.top), m.top + 1, Blake(h, c));
    var b := EntryPoints(h, m.d.dat[id], e);
    var j :| j in a.d.dat && c in Records(a.d.dat[j]);
    assert Holds(h, m.d, Blake(h, c), b) && Holds(h, m.d, Blake(h, c), c);
    HoldsOne(h, m.d, Blake(h, c), b, c);
  }

  lemma CopyEnds(h: Hash, a: At, live: set<Digest>, m: At, index: map<Digest, Loc>, t0: seq<At>, t: seq<At>)
    requires IsTop(a.d, a.top) && m.top in m.d.dat
    requires CopyState(h, a, live, ScanIndex(h, a.d, a.top + 1).Keys * live, m, index, t0, t)
    ensures var m' := At(SyncFile(m.d, m.top), m.top);
            DeleteState(h, a, live, m', index, t0, t + [m'])
  {
    var m' := At(SyncFile(m.d, m.top), m.top);
    hide Copying, Deleting, NewIndex, ScanIndex, StagesFrom, CopiedAll, OldKept;
    CopyDone(h, a.d, a.top, m);
    CopyTop(h, a.d, a.top, m');
    KeptShrunk(a.d, a.top, m'.d);
    CopiedWhole(h, a, live, m');
    CopyGrows(h, a, live, t0, t, m');
  }

  lemma KeptShrunk(d0: Disk, top0: nat, d: Disk)
    requires OldKept(d0, top0, d)
    ensures OldShrunk(d0, top0, d)
  {}

  lemma DeleteOne(h: Hash, a: At, live: set<Digest>, m: At, index: map<Digest, Loc>, t0: seq<At>, t: seq<At>, f: FileName)
    requires DeleteState(h, a, live, m, index, t0, t) && f.id <= a.top
    ensures var m' := At(Remove(m.d, f), m.top);
            DeleteState(h, a, live, m', index, t0, t + [m'])
  {
    hide Deleting, NewIndex, StagesFrom, CopiedAll, OldShrunk, CompactStage;
    var m' := At(Remove(m.d, f), m.top);
    RemoveKeeps(h, a.top, m, f);
    RemoveShrinks(h, a, live, m.d, f);
    DeleteIsStage(h, a, live, m');
    StagesGrow(h, a, live, t0, t, m');
  }

  lemma RemoveShrinks(h: Hash, a: At, live: set<Digest>, d: Disk, f: FileName)
    requires OldShrunk(a.d, a.top, d) && CopiedAll(h, a.d, a.top, live, d) && f.id <= a.top
    ensures OldShrunk(a.d, a.top, Remove(d, f)) && CopiedAll(h, a.d, a.top, live, Remove(d, f))
  {
    forall c | Blake(h, c) in live && Holds(h, a.d, Blake(h, c), c) ensures InNew(a.top, Remove(d, f), c) {
      assert InNew(a.top, d, c);
      var id :| id > a.top && id in d.dat && c in Records(d.dat[id]);
      assert id in Remove(d, f).dat;
    }
  }

  lemma RemoveMeans(d: Disk, f: FileName)
    ensures forall id :: id in Remove(d, f).dat <==> id in d.dat && f != Dat(id)
    ensures forall id :: id in Remove(d, f).dat ==> Remove(d, f).dat[id] == d.dat[id]
  {}

  lemma OldLengths(d0: Disk, top0: nat, d: Disk)
    requires OldKept(d0, top0, d)
    ensures Lengths(d.dat, top0 + 1) == Lengths(d0.dat, top0 + 1)
  {
    LengthsSame(d.dat, d0.dat, top0 + 1);
  }

  /** Deleting one of the files still to go. */
  lemma RemoveLengths(d: Disk, f: FileName, n: nat)
    requires f.id < n && (f.Dat? ==> f.id in d.dat)
    ensures Lengths(Remove(d, f).dat, n) + (if f.Dat? then |d.dat[f.id]| else 0) == Lengths(d.dat, n)
  {
    if f.Dat? { LengthsDrop(d.dat, n, f.id); }
  }

  /** The files still to go, the directory left and the bytes reclaimed so far. */
  ghost predicate Going(d0: Disk, d: Disk, files: set<FileName>, newBase: nat, reclaimed: nat) {
    && (forall f :: f in files ==> f.id < newBase)
    && (forall id :: id in d.dat && id < newBase ==> Dat(id) in files)
    && (forall id :: Dat(id) in files ==> id in d.dat)
    && (forall id :: id in d.dat ==> id in d0.dat && d.dat[id] == d0.dat[id])
    && (forall id :: id in d0.dat && id >= newBase ==> id in d.dat)
    && reclaimed + Lengths(d.dat, newBase) == Lengths(d0.dat, newBase)
  }

  lemma GoingStarts(d0: Disk, newBase: nat)
    ensures Going(d0, d0, (set id | id in d0.dat && id < newBase :: Dat(id)) + (set id | id in d0.idx && id < newBase :: Idx(id)), newBase, 0)
  {}

  lemma GoingNext(d0: Disk, d: Disk, files: set<FileName>, newBase: nat, reclaimed: nat, f: FileName)
    requires Going(d0, d, files, newBase, reclaimed) && f in files
    ensures f.id < newBase && (f.Dat? ==> f.id in d.dat)
    ensures Going(d0, Remove(d, f), files - {f}, newBase, reclaimed + (if f.Dat? then |d.dat[f.id]| else 0))
  {
    RemoveMeans(d, f);
    RemoveLengths(d, f, newBase);
    hide Remove, Lengths;
  }

  lemma GoingEnds(d0: Disk, d: Disk, newBase: nat, reclaimed: nat)
    requires Going(d0, d, {}, newBase, reclaimed)
    ensures forall id :: id in d.dat <==> id in d0.dat && id >= newBase
    ensures forall id :: id in d.dat ==> d.dat[id] == d0.dat[id]
    ensures reclaimed == Lengths(d0.dat, newBase)
  {
    LengthsNone(d.dat, newBase);
  }

  /** Delete every old segment file and sidecar, in any order. */
  method DeleteOld(newBase: nat, d0: Disk, ghost h: Hash, ghost a: At, ghost live: set<Digest>, ghost top: nat,
                   ghost index: map<Digest, Loc>, ghost t0: seq<At>, ghost t1: seq<At>)
    returns (d: Disk, reclaimed: nat, ghost t: seq<At>)
    requires newBase == a.top + 1 && DeleteState(h, a, live, At(d0, top), index, t0, t1)
    ensures DeleteState(h, a, live, At(d, top), index, t0, t)
    ensures forall id :: id in d.dat <==> id in d0.dat && id >= newBase
    ensures forall id :: id in d.dat ==> d.dat[id] == d0.dat[id]
    ensures reclaimed == Lengths(d0.dat, newBase)
  {
    hide *;
    var files := (set id | id in d0.dat && id < newBase :: Dat(id)) + (set id | id in d0.idx && id < newBase :: Idx(id));
    d, reclaimed, t := d0, 0, t1;
    GoingStarts(d0, newBase);
    while files != {}
      invariant DeleteState(h, a, live, At(d, top), index, t0, t) && Going(d0, d, files, newBase, reclaimed)
      decreases |files|
    {
      var f :| f in files;
      GoingNext(d0, d, files, newBase, reclaimed, f);
      DeleteOne(h, a, live, At(d, top), index, t0, t, f);
      if f.Dat? {
        reclaimed := reclaimed + |d.dat[f.id]|;
      }
      d := Remove(d, f);
      t := t + [At(d, top)];
      files := files - {f};
    }
    GoingEnds(d0, d, newBase, reclaimed);
  }

  /** What a finished compaction has achieved. */
  lemma DeleteEnds(h: Hash, a: At, live: set<Digest>, m: At, index: map<Digest, Loc>, t0: seq<At>, t: seq<At>)
    requires DeleteState(h, a, live, m, index, t0, t) && forall id :: id in m.d.dat ==> id > a.top
    ensures CompactDone(h, a.d, a.top, live, m) && Running(h, m) && ScanIndex(h, m.d, m.top + 1) == index
    ensures StagesFrom(h, a, live, t0, t) && m.top > a.top
  {
    hide Base, NewOk, NewIndex, ScanIndex, StagesFrom, CopiedAll, OldShrunk, DiskOk, SealedSynced;
    DeleteIsStage(h, a, live, m);
    hide CompactStage;
    assert CompactDone(h, a.d, a.top, live, m);
    DoneRunning(h, a.d, a.top, live, m);
    DeletedAll(h, a.top, m);
  }

  /** The contents are the same as before. */
  lemma DoneReads(h: Hash, a: At, live: set<Digest>, m: At, x: Digest)
    requires DiskOk(h, a.d, a.top) && CompactDone(h, a.d, a.top, live, m) && DiskOk(h, m.d, m.top)
    requires x in ScanIndex(h, a.d, a.top + 1) && x in live && x in ScanIndex(h, m.d, m.top + 1)
    ensures ReadAt(m.d, ScanIndex(h, m.d, m.top + 1)[x]) == ReadAt(a.d, ScanIndex(h, a.d, a.top + 1)[x])
  {
    hide DiskOk, ScanIndex, CompactStage;
    var c := IndexReads(h, a, x);
    var b := IndexReads(h, m, x);
    assert InNew(a.top, m.d, c);
    assert Holds(h, m.d, x, c);
    DiskOkBase(h, m.d, m.top);
    HoldsOne(h, m.d, x, b, c);
  }

  /** Every hash of the second index reads back what it read by the first. */
  ghost predicate SameReads(d0: Disk, index0: map<Digest, Loc>, d: Disk, index: map<Digest, Loc>) {
    forall x :: x in index ==> x in index0 && ReadAt(d, index[x]) == ReadAt(d0, index0[x])
  }

  ghost predicate Compacted(h: Hash, a: At, live: set<Digest>, m: At, index0: map<Digest, Loc>, index: map<Digest, Loc>,
                            t0: seq<At>, t: seq<At>) {
    && CompactDone(h, a.d, a.top, live, m) && Running(h, m) && StagesFrom(h, a, live, t0, t)
    && index == ScanIndex(h, m.d, m.top + 1) && index.Keys == index0.Keys * live
    && SameReads(a.d, index0, m.d, index)
  }

  lemma CompactedFacts(h: Hash, a: At, live: set<Digest>, m: At, index0: map<Digest, Loc>, index: map<Digest, Loc>, t0: seq<At>, t: seq<At>)
    requires Compacted(h, a, live, m, index0, index, t0, t)
    ensures CompactDone(h, a.d, a.top, live, m) && Running(h, m) && StagesFrom(h, a, live, t0, t)
    ensures index == ScanIndex(h, m.d, m.top + 1) && index.Keys == index0.Keys * live && SameReads(a.d, index0, m.d, index)
  {
    hide CompactDone, Running, StagesFrom, SameReads, ScanIndex;
  }

  lemma MakeCompacted(h: Hash, a: At, live: set<Digest>, m: At, index0: map<Digest, Loc>, index: map<Digest, Loc>, t0: seq<At>, t: seq<At>)
    requires DiskOk(h, a.d, a.top) && index0 == ScanIndex(h, a.d, a.top + 1)
    requires CompactDone(h, a.d, a.top, live, m) && Running(h, m) && StagesFrom(h, a, live, t0, t)
    requires index == ScanIndex(h, m.d, m.top + 1) && index.Keys == index0.Keys * live
    ensures Compacted(h, a, live, m, index0, index, t0, t)
  {
    hide CompactDone, Running, StagesFrom, ScanIndex, DiskOk, ReadAt;
    RunningDisk(h, m);
    forall x | x in index ensures x in index0 && ReadAt(m.d, index[x]) == ReadAt(a.d, index0[x]) {
      assert x in index.Keys;
      DoneReads(h, a, live, m, x);
    }
  }

  lemma SyncKeepsFiles(d: Disk, id: nat)
    requires id in d.dat
    ensures SyncFile(d, id).dat == d.dat
  {}

  /** Deleting the old files leaves the new ones packed. */
  lemma LeftPacked(a: map<nat, Bytes>, b: map<nat, Bytes>, base: nat, top: nat, max: nat)
    requires Packed(a, base, top, max) && top > base && (forall id :: id in b <==> id in a && id >= base + 1)
    requires forall id :: id in b ==> b[id] == a[id]
    ensures Packed(b, base, top, max) && Lengths(a, top + 1) == Lengths(a, base + 1) + Lengths(b, top + 1)
  {
    hide InCap, Closed;
    PackedSame(a, b, base, top, max);
    LengthsAbove(a, b, base + 1, top + 1);
  }

  /** A whole compaction of the directory d0 with active segment oldMax. */
  method CompactFiles(h: Hash, max: nat, index: map<Digest, Loc>, live: set<Digest>, oldMax: nat, d0: Disk, ghost t0: seq<At>)
    returns (d: Disk, newIndex: map<Digest, Loc>, curId: nat, curOff: nat, reclaimed: nat, ghost t: seq<At>)
    requires max < U64 && Running(h, At(d0, oldMax)) && index == ScanIndex(h, d0, oldMax + 1)
    ensures Compacted(h, At(d0, oldMax), live, At(d, curId), index, newIndex, t0, t)
    ensures curId in d.dat && curOff == |d.dat[curId]|
    ensures reclaimed == Lengths(d0.dat, oldMax + 1)
    ensures Packed(d.dat, oldMax, curId, max) && Lengths(d.dat, curId + 1) == Framed(index, index.Keys * live)
  {
    hide *;
    ghost var a := At(d0, oldMax);
    RunningDisk(h, a);
    DiskOkBase(h, d0, oldMax);
    d, newIndex, curId, curOff, t := CopyLive(h, max, index, live, oldMax, d0, t0);
    FillingParts(d0.dat, d.dat, oldMax, curId, max, index, index.Keys * live);
    CopyStateParts(h, a, live, index.Keys * live, At(d, curId), newIndex, t0, t);
    CopyStateTop(h, a, live, index.Keys * live, At(d, curId), newIndex, t0, t);
    CopyEnds(h, a, live, At(d, curId), newIndex, t0, t);
    SyncKeepsFiles(d, curId);
    OldLengths(d0, oldMax, d);
    d := SyncFile(d, curId);
    t := t + [At(d, curId)];
    ghost var before := d.dat;
    d, reclaimed, t := DeleteOld(oldMax + 1, d, h, a, live, curId, newIndex, t0, t);
    LeftPacked(before, d.dat, oldMax, curId, max);
    DeleteEnds(h, a, live, At(d, curId), newIndex, t0, t);
    MakeCompacted(h, a, live, At(d, curId), index, newIndex, t0, t);
  }
}
