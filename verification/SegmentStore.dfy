/** The segment store object: put, get, sync, compact and open, each against the
    directories it passes through (rust/nedb-v2/src/segment.rs). */
module SegmentStore {
  import opened Hashing
  import opened SegmentFormat
  import opened SegmentDisk
  import opened SegmentSteps
  import opened SegmentRuns
  import opened SegmentCompaction
  import opened SegmentLifetimes
  import opened SegmentSealing
  import opened SegmentOpening
  import opened SegmentCopying
  import opened SegmentPacking

  // ---- the index over a put ----

  lemma PutIndex(h: Hash, a: At, c: Bytes)
    requires a.top in a.d.dat && Tail(a.d.dat[a.top]) == [] && |c| < U32
    ensures ScanIndex(h, AppendAt(a, c).d, a.top + 1)
         == ScanIndex(h, a.d, a.top + 1)[Blake(h, c) := Loc(a.top, |a.d.dat[a.top]| + 4, |c|)]
  {
    AppendScan(h, a.d.dat[a.top], c);
    GatherAppend(ScanLists(h, a.d), ScanLists(h, AppendAt(a, c).d), a.top,
                 Entry(Blake(h, c), |a.d.dat[a.top]| + 4, |c|));
  }

  lemma SealIndex(h: Hash, a: At, side: Bytes)
    requires IsTop(a.d, a.top)
    ensures ScanIndex(h, Sealed(a, side).d, a.top + 2) == ScanIndex(h, a.d, a.top + 1)
  {
    EmptyList(h);
    hide ScanList;
    GatherEmptyTop(ScanLists(h, a.d), ScanLists(h, Sealed(a, side).d), a.top + 1);
  }

  lemma IndexAbsent(h: Hash, a: At, c: Bytes)
    requires IsTop(a.d, a.top)
    ensures Absent(h, a.d, c) <==> Blake(h, c) !in ScanIndex(h, a.d, a.top + 1)
  {
    ScanHolds(h, a.d, a.top, Blake(h, c));
  }

  lemma RollIndex(h: Hash, a: At, c: Bytes, side: Bytes)
    requires IsTop(a.d, a.top) && |c| < U32
    ensures ScanIndex(h, AppendAt(Sealed(a, side), c).d, a.top + 2)
         == ScanIndex(h, a.d, a.top + 1)[Blake(h, c) := Loc(a.top + 1, 4, |c|)]
  {
    hide ScanIndex;
    SealIndex(h, a, side);
    assert Tail([]) == [];
    assert Sealed(a, side).d.dat[a.top + 1] == [];
    PutIndex(h, Sealed(a, side), c);
  }

  /** A put went through the directories t. */
  ghost predicate PutGoes(h: Hash, max: nat, a: At, c: Bytes, t: seq<At>) {
    a.top in a.d.dat && exists side :: PutReady(h, max, a, c, side) && t == PutTrace(max, a, c, side)
  }

  /** A put extended the history t0 to t and ended at m. */
  ghost predicate PutExtends(h: Hash, max: nat, a: At, c: Bytes, t0: seq<At>, t: seq<At>, m: At) {
    t0 < t && m == t[|t| - 1] && PutGoes(h, max, a, c, t[|t0|..])
  }

  lemma PutLast(h: Hash, max: nat, a: At, c: Bytes, side: Bytes)
    requires PutReady(h, max, a, c, side)
    ensures Running(h, if Rolls(max, a.d.dat[a.top], c) then AppendAt(Sealed(a, side), c) else AppendAt(a, c))
    ensures forall t0 :: PutExtends(h, max, a, c, t0, t0 + PutTrace(max, a, c, side), LastAt(max, a, c, side))
  {
    hide Running;
    RunningFacts(h, a);
    forall t0 ensures PutExtends(h, max, a, c, t0, t0 + PutTrace(max, a, c, side), LastAt(max, a, c, side)) {
      hide PutTrace;
      assert (t0 + PutTrace(max, a, c, side))[|t0|..] == PutTrace(max, a, c, side);
    }
    PutStages(h, max, a, c, side, |PutTrace(max, a, c, side)| - 1);
  }

  /** A rollover extended the history t0 to t and ended at m. */
  ghost predicate Rolled(h: Hash, a: At, side: Bytes, t0: seq<At>, t: seq<At>, m: At) {
    && a.top in a.d.dat && SideOf(h, side, a.d.dat[a.top])
    && m == Sealed(a, side) && t == t0 + [Sealing1(a), Sealing2(a, side), m]
  }

  lemma RollGoes(h: Hash, a: At, es: seq<Entry>, t0: seq<At>)
    requires Running(h, a) && a.top in a.d.dat && EntriesFor(ScanIndex(h, a.d, a.top + 1), a.top, es)
    ensures var d1 := SyncFile(a.d, a.top);
            var d2 := WriteSide(d1, a.top, IdxFile(h, es));
            var m := At(NewFile(d2, a.top + 1), a.top + 1);
            Rolled(h, a, IdxFile(h, es), t0, t0 + [At(d1, a.top)] + [At(d2, a.top)] + [m], m)
  {
    hide Running, EntriesFor, SideOf, IdxFile, ScanIndex;
    SideOfActive(h, a, es);
    assert forall x: At, y: At, z: At :: t0 + [x] + [y] + [z] == t0 + [x, y, z];
  }

  /** Appending c to m completes a put that started at a and has passed t. */
  ghost predicate Appends(h: Hash, max: nat, a: At, c: Bytes, t0: seq<At>, t: seq<At>, m: At) {
    m.top in m.d.dat &&
    var m' := AppendAt(m, c);
    && Running(h, m') && PutExtends(h, max, a, c, t0, t + [m'], m')
    && ScanIndex(h, m'.d, m.top + 1) == ScanIndex(h, a.d, a.top + 1)[Blake(h, c) := Loc(m.top, |m.d.dat[m.top]| + 4, |c|)]
  }

  lemma PutRolled(h: Hash, max: nat, a: At, c: Bytes, side: Bytes, t0: seq<At>, t: seq<At>, m: At)
    requires Running(h, a) && max < U64 && |c| < U32 && Blake(h, c) !in ScanIndex(h, a.d, a.top + 1)
    requires Rolled(h, a, side, t0, t, m) && a.top in a.d.dat
    requires |a.d.dat[a.top]| > 0 && |a.d.dat[a.top]| + 4 + |c| > max
    ensures m.top in m.d.dat && m.d.dat[m.top] == [] && Appends(h, max, a, c, t0, t, m)
  {
    hide Running, ScanIndex, Absent, SideOf, PutExtends, Frame;
    RunningFacts(h, a);
    IndexAbsent(h, a, c);
    PutLast(h, max, a, c, side);
    RollIndex(h, a, c, side);
    assert t + [AppendAt(m, c)] == t0 + PutTrace(max, a, c, side);
  }

  lemma PutPlain(h: Hash, max: nat, a: At, c: Bytes, t0: seq<At>)
    requires Running(h, a) && max < U64 && |c| < U32 && Blake(h, c) !in ScanIndex(h, a.d, a.top + 1)
    requires a.top in a.d.dat && !(|a.d.dat[a.top]| > 0 && |a.d.dat[a.top]| + 4 + |c| > max)
    ensures Appends(h, max, a, c, t0, t0, a)
  {
    hide Running, ScanIndex, Absent, SideOf, PutExtends, Frame, ScanList, IdxFile, FileOk;
    RunningFacts(h, a);
    IndexAbsent(h, a, c);
    var side := IdxFile(h, ScanList(h, a.d.dat[a.top]));
    assert |a.d.dat[a.top]| < U64 by { FileShort(h, a.d.dat[a.top]); }
    ScanSide(h, a.d.dat[a.top]);
    PutLast(h, max, a, c, side);
    PutIndex(h, a, c);
    assert [AppendAt(a, c)] == PutTrace(max, a, c, side);
  }

  lemma FileShort(h: Hash, f: Bytes)
    requires FileOk(h, f)
    ensures |f| < U64
  {}

  lemma AppendsFacts(h: Hash, max: nat, a: At, c: Bytes, t0: seq<At>, t: seq<At>, m: At, offset: nat)
    requires Appends(h, max, a, c, t0, t, m) && m.top in m.d.dat && offset == |m.d.dat[m.top]|
    ensures var m' := At(AppendFile(m.d, m.top, c), m.top);
            && Running(h, m') && m.top in m'.d.dat && |m'.d.dat[m.top]| == offset + 4 + |c|
            && PutExtends(h, max, a, c, t0, t + [m'], m')
            && ScanIndex(h, m'.d, m.top + 1) == ScanIndex(h, a.d, a.top + 1)[Blake(h, c) := Loc(m.top, offset + 4, |c|)]
  {
    hide Running, ScanIndex, PutExtends;
  }

  class SegmentStore {
    const h: Hash
    const max: nat
    var disk: Disk
    var index: map<Digest, Loc>
    var activeId: nat
    var offset: nat
    /** Every directory the store has passed through. */
    ghost var trace: seq<At>

    ghost predicate Valid()
      reads this
    {
      && max < U64 && Running(h, At(disk, activeId))
      && offset == |disk.dat[activeId]|
      && index == ScanIndex(h, disk, activeId + 1)
    }

    lemma ValidFacts()
      requires Valid()
      ensures max < U64 && Running(h, At(disk, activeId)) && activeId in disk.dat && offset == |disk.dat[activeId]|
      ensures index == ScanIndex(h, disk, activeId + 1)
    {
      hide DiskOk, ScanIndex;
      RunningFacts(h, At(disk, activeId));
    }

    lemma IsValid()
      requires max < U64 && Running(h, At(disk, activeId)) && activeId in disk.dat && offset == |disk.dat[activeId]|
      requires index == ScanIndex(h, disk, activeId + 1)
      ensures Valid()
    {
      hide Running, ScanIndex;
    }

    /** Seal the active segment and open the next. */
    method RollOver() returns (ghost side: Bytes)
      requires Valid()
      modifies this`disk, this`activeId, this`offset, this`trace
      ensures Rolled(h, old(At(disk, activeId)), side, old(trace), trace, At(disk, activeId))
      ensures offset == 0 && activeId == old(activeId) + 1
    {
      hide *;
      ghost var a, t0 := At(disk, activeId), trace;
      ValidFacts();
      disk := SyncFile(disk, activeId);
      trace := trace + [At(disk, activeId)];
      var entries := EntriesForSegment(index, activeId);
      var data := WriteIdx(h, entries);
      side := data;
      disk := WriteSide(disk, activeId, data);
      trace := trace + [At(disk, activeId)];
      disk := NewFile(disk, activeId + 1);
      activeId, offset := activeId + 1, 0;
      trace := trace + [At(disk, activeId)];
      RollGoes(h, a, entries, t0);
    }

    /** Write one record at the end of the active segment; a and t0 say where the
        put started. */
    method Append(hash: Digest, content: Bytes, ghost a: At, ghost t0: seq<At>)
      requires max < U64 && hash == Blake(h, content) && activeId in disk.dat && offset == |disk.dat[activeId]|
      requires Appends(h, max, a, content, t0, trace, At(disk, activeId)) && index == ScanIndex(h, a.d, a.top + 1)
      modifies this
      ensures Valid() && PutExtends(h, max, a, content, t0, trace, At(disk, activeId))
      ensures activeId == old(activeId) && offset == old(offset) + 4 + |content|
      ensures index == old(index)[hash := Loc(activeId, old(offset) + 4, |content|)]
    {
      hide *;
      AppendsFacts(h, max, a, content, t0, trace, At(disk, activeId), offset);
      var contentOff := offset + 4;
      disk := AppendFile(disk, activeId, content);
      offset := contentOff + |content|;
      trace := trace + [At(disk, activeId)];
      index := index[hash := Loc(activeId, contentOff, |content|)];
      IsValid();
    }

    /** Append a content under its hash, unless the hash is stored. */
    method Put(hash: Digest, content: Bytes)
      requires Valid() && hash == Blake(h, content) && |content| < U32
      modifies this
      ensures Valid()
      ensures hash in old(index) ==> disk == old(disk) && index == old(index) && activeId == old(activeId) && trace == old(trace)
      ensures hash !in old(index) ==>
                PutExtends(h, max, old(At(disk, activeId)), content, old(trace), trace, At(disk, activeId))
      ensures hash !in old(index) ==>
                && activeId == (if old(offset) > 0 && old(offset) + 4 + |content| > max then old(activeId) + 1 else old(activeId))
                && hash in index && index == old(index)[hash := index[hash]]
                && index[hash].seg == activeId && index[hash].off + |content| == offset && index[hash].len == |content|
    {
      hide *;
      ghost var a, t0 := At(disk, activeId), trace;
      ValidFacts();
      if hash in index {
        return;
      }
      var recordSize := 4 + |content|;
      if offset > 0 && offset + recordSize > max {
        assert a.top in a.d.dat && |a.d.dat[a.top]| > 0 && |a.d.dat[a.top]| + 4 + |content| > max;
        assert Running(h, a) && Blake(h, content) !in ScanIndex(h, a.d, a.top + 1);
        ghost var side := RollOver();
        PutRolled(h, max, a, content, side, t0, trace, At(disk, activeId));
      } else {
        PutPlain(h, max, a, content, t0);
      }
      Append(hash, content, a, t0);
    }

    /** The content stored under a hash, checked. */
    method Get(hash: Digest) returns (r: Got)
      requires Valid()
      ensures r.Missing? || r.Found?
      ensures forall c :: r == Found(c) <==> Holds(h, disk, hash, c)
    {
      hide Running, ScanIndex, Holds;
      ghost var a := At(disk, activeId);
      RunningFacts(h, a);
      RunningDisk(h, a);
      ScanHolds(h, disk, activeId, hash);
      if hash !in index {
        return Missing;
      }
      r := ReadContent(h, disk, index[hash], hash);
      ghost var c := IndexReads(h, a, hash);
      forall b ensures Holds(h, disk, hash, b) ==> b == c {
        DiskOkBase(h, disk, activeId);
        if Holds(h, disk, hash, b) { HoldsOne(h, disk, hash, b, c); }
      }
    }

    /** Flush the active segment. */
    method Sync()
      requires Valid()
      modifies this
      ensures Valid() && index == old(index) && activeId == old(activeId)
      ensures At(disk, activeId) == Sealing1(old(At(disk, activeId))) && trace == old(trace) + [At(disk, activeId)]
      ensures Surviving(At(disk, activeId)) == Appended(old(At(disk, activeId)))
    {
      hide Running;
      ghost var a := At(disk, activeId);
      RunningFacts(h, a);
      SyncRunning(h, a);
      SyncOrder(a);
      disk := SyncFile(disk, activeId);
      trace := trace + [At(disk, activeId)];
      assert ScanLists(h, disk) == ScanLists(h, a.d);
    }

    /** Open a directory as a run or a crash left it. */
    constructor Open(h: Hash, max: nat, found: Disk)
      requires max < U64
      ensures this.h == h && this.max == max && trace == []
      ensures found.dat == map[] ==> index == map[] && activeId == 0 && disk == NewFile(found, 0)
      ensures found.dat == map[] && NoStray(h, found, 0) && found.synced == map[] && !Loadable(h, found, 0) ==> Valid()
      ensures found.dat != map[] ==>
                && IsTop(found, activeId) && disk == OpenDisk(h, found, activeId)
                && index == OpenIndex(h, found, activeId) && offset == |disk.dat[activeId]|
      ensures found.dat != map[] && DiskOk(h, found, activeId) && AllOnDisk(found) ==> Valid()
    {
      this.h, this.max := h, max;
      var d, ix, top, end, trail := Recover(h, found);
      disk, index, activeId, offset, trace := d, ix, top, end, [];
      new;
      hide *;
      if found.dat == map[] {
        FirstFile(h, found);
        if NoStray(h, found, 0) && found.synced == map[] && !Loadable(h, found, 0) { IsValid(); }
      } else if DiskOk(h, found, top) && AllOnDisk(found) {
        OpenedValid(h, found, top);
        IsValid();
      }
    }

    /** Keep the live hashes, drop the rest. */
    method Compact(live: set<Digest>) returns (liveObjects: nat, dropped: nat, bytesReclaimed: nat, segmentsAfter: nat)
      requires Valid()
      modifies this
      ensures Valid()
      ensures index.Keys == old(index.Keys) * live
      ensures SameReads(old(disk), old(index), disk, index)
      ensures liveObjects == |index| && liveObjects + dropped == |old(index)|
      ensures bytesReclaimed == Lengths(old(disk).dat, old(activeId) + 1) && segmentsAfter == activeId - old(activeId)
      ensures NumberedFrom(disk, old(activeId), segmentsAfter)
      ensures Packed(disk.dat, old(activeId), activeId, max)
      ensures Lengths(disk.dat, activeId + 1) == Framed(old(index), old(index).Keys * live)
      ensures Framed(old(index), old(index).Keys * live) <= max ==> segmentsAfter == 1
      ensures CompactDone(h, old(disk), old(activeId), live, At(disk, activeId))
      ensures StagesFrom(h, old(At(disk, activeId)), live, old(trace), trace)
    {
      hide *;
      ghost var a := At(disk, activeId);
      ValidFacts();
      var totalBefore := |index|;
      var newBase := activeId + 1;
      liveObjects := |index.Keys * live|;
      Fewer(index.Keys, live);
      disk, index, activeId, offset, bytesReclaimed, trace := CompactFiles(h, max, index, live, activeId, disk, trace);
      CompactedFacts(h, a, live, At(disk, activeId), old(index), index, old(trace), trace);
      dropped := SaturatingSub(totalBefore, liveObjects);
      DoneFiles(h, a, live, At(disk, activeId));
      segmentsAfter := activeId - newBase + 1;
      if Lengths(disk.dat, activeId + 1) <= max { SmallIsOne(disk.dat, a.top, activeId, max); }
      assert liveObjects + dropped == totalBefore by { SaturatingSubAdds(totalBefore, liveObjects); }
      IsValid();
    }
  }

  /** The segments are the n numbers that follow base. */
  ghost predicate NumberedFrom(d: Disk, base: nat, n: nat) { forall id :: id in d.dat <==> base < id <= base + n }

  /** What is left are the new segments, numbered without a gap. */
  lemma DoneFiles(h: Hash, a: At, live: set<Digest>, m: At)
    requires CompactDone(h, a.d, a.top, live, m)
    ensures m.top > a.top && NumberedFrom(m.d, a.top, m.top - a.top)
  {
    StageParts(h, a.d, a.top, live, m);
    hide Base, Sound, Synced, SidecarFull, OldShrunk, CopiedAll;
  }

  function SaturatingSub(a: nat, b: nat): nat { if a >= b then a - b else 0 }

  lemma SaturatingSubAdds(a: nat, b: nat)
    ensures a >= b ==> b + SaturatingSub(a, b) == a
  {}

  lemma Fewer(a: set<Digest>, b: set<Digest>)
    ensures |a * b| <= |a|
  {
    assert a == a * b + (a - b);
  }

  /** The first segment of a new store. */
  lemma FirstFile(h: Hash, found: Disk)
    requires found.dat == map[]
    ensures var d := NewFile(found, 0);
            && 0 in d.dat && |d.dat[0]| == 0 && ScanIndex(h, d, 1) == map[]
            && (NoStray(h, found, 0) && found.synced == map[] && !Loadable(h, found, 0) ==> Running(h, At(d, 0)))
  {
    var d := NewFile(found, 0);
    EmptyList(h);
    GatherSkips(ScanLists(h, d), 0, 1);
    if NoStray(h, found, 0) && found.synced == map[] && !Loadable(h, found, 0) {
      hide ScanList;
      assert Records([]) == [] && Tail([]) == [] && FileOk(h, []);
      assert !Loadable(h, d, 0);
      assert SidecarSound(h, d, 0);
      FirstNoStray(h, found);
    }
  }

  lemma FirstNoStray(h: Hash, found: Disk)
    requires NoStray(h, found, 0)
    ensures NoStray(h, NewFile(found, 0), 0)
  {
    forall id: nat | Loadable(h, NewFile(found, 0), id) ensures id <= 0 {
      assert Loadable(h, found, id);
    }
  }

  lemma OpenedValid(h: Hash, found: Disk, top: nat)
    requires DiskOk(h, found, top) && AllOnDisk(found)
    ensures top in found.dat && Running(h, At(OpenDisk(h, found, top), top)) && top in OpenDisk(h, found, top).dat
    ensures OpenIndex(h, found, top) == ScanIndex(h, OpenDisk(h, found, top), top + 1)
  {
    hide DiskOk, Base, Running, OpenDisk, OpenIndex, Records, Loadable;
    DiskOkBase(h, found, top);
    ColdStart(h, found, top);
    OpenRunning(h, found, top);
    OpenFiles(h, found, top);
    OpenRecords(h, found, top);
    assert ScanLists(h, OpenDisk(h, found, top)) == ScanLists(h, found);
  }

  lemma SideOfActive(h: Hash, a: At, es: seq<Entry>)
    requires Running(h, a) && EntriesFor(ScanIndex(h, a.d, a.top + 1), a.top, es)
    ensures a.top in a.d.dat && SideOf(h, IdxFile(h, es), a.d.dat[a.top])
  {
    hide Running, SideOf, EntriesFor, IdxFile, FileOk;
    RunningFacts(h, a);
    SideFromIndex(h, ScanLists(h, a.d), a.top, a.d.dat[a.top], es);
  }
}
