/** When compaction is not crash-safe: the exact condition, and a run that
    breaks it (rust/nedb-v2/src/segment.rs). */
module SegmentStale {
  import opened Hashing
  import opened SegmentFormat
  import opened SegmentDisk
  import opened SegmentSteps
  import opened SegmentRuns
  import opened SegmentCompaction
  import opened SegmentLifetimes

  /** A crash at some stage of a compaction may leave this. */
  ghost predicate CompactCrash(h: Hash, d: Disk, top: nat, live: set<Digest>, m: At, left: Disk) {
    CompactStage(h, d, top, live, m) && Crash(h, m.d, left)
  }

  /** Whatever stage a compaction crashes at, x is there on reopening. */
  ghost predicate CrashSafe(h: Hash, d: Disk, top: nat, live: set<Digest>, x: Digest) {
    forall m, left :: CompactCrash(h, d, top, live, m, left) ==> x in OpenIndex(h, left, m.top)
  }

  lemma CopiedSafe(h: Hash, d0: Disk, top0: nat, live: set<Digest>, m: At, x: Digest, c: Bytes)
    requires Holds(h, d0, x, c) && x in live && CopiedAll(h, d0, top0, live, m.d)
    requires IsTop(m.d, m.top) && Synced(m.d) && NewOk(h, top0, m) && m.d.synced[m.top] == |m.d.dat[m.top]|
    ensures Safe(h, m.d, m.top, x)
  {
    hide Loadable, LoadIdx, ScanList;
    assert InNew(top0, m.d, c);
    var id :| id > top0 && id in m.d.dat && c in Records(m.d.dat[id]);
    assert m.d.dat[id][..|m.d.dat[id]|] == m.d.dat[id];
    assert DurableIn(h, m.d, id, x);
    if id != m.top {
      assert SidecarFull(h, m.d, id);
      FullLists(h, m.d, id, x, c);
    }
  }

  lemma FullLists(h: Hash, d: Disk, id: nat, x: Digest, c: Bytes)
    requires id in d.dat && SidecarFull(h, d, id) && c in Records(d.dat[id]) && Blake(h, c) == x
    ensures SidecarLists(h, d, id, x)
  {
    var e := RecordListed(h, d.dat[id], c);
  }

  lemma StageSafe(h: Hash, d: Disk, top: nat, live: set<Digest>, m: At, x: Digest, c: Bytes)
    requires IsTop(d, top) && Holds(h, d, x, c) && x in live && SafeSealed(h, d, x) && CompactStage(h, d, top, live, m)
    ensures Safe(h, m.d, m.top, x)
  {
    hide Base, NewOk, OldShrunk, SafeSealed, CopiedAll, OldKept, Safe, Holds;
    StageParts(h, d, top, live, m);
    if OldKept(d, top, m.d) {
      CopyingSafe(h, d, top, m, x);
    } else {
      CopiedSafe(h, d, top, live, m, x, c);
    }
  }

  lemma FirstStage(h: Hash, d: Disk, top: nat, live: set<Digest>)
    requires Base(h, d, top)
    ensures CompactStage(h, d, top, live, At(NewFile(d, top + 1), top + 1))
  {
    hide Base, NewOk, NewIndex;
    CopyStart(h, d, top);
    StartShrunk(d, top);
  }

  lemma StartShrunk(d: Disk, top: nat)
    ensures OldShrunk(d, top, NewFile(d, top + 1))
  {}

  /** Exactly when a compaction is crash-safe for a live stored hash: a synced
      record of it stands in a segment whose sidecar does not hide it. */
  lemma CompactionCrashSafe(h: Hash, d: Disk, top: nat, live: set<Digest>, x: Digest, c: Bytes)
    requires Base(h, d, top) && x in live && Holds(h, d, x, c)
    ensures CrashSafe(h, d, top, live, x) <==> SafeSealed(h, d, x)
  {
    hide *;
    if CrashSafe(h, d, top, live, x) {
      FirstStage(h, d, top, live);
      SafeAtFirst(h, d, top, live, x);
      FirstWriteSafe(h, d, top, x);
    }
    if SafeSealed(h, d, x) {
      SafeThroughout(h, d, top, live, x, c);
    }
  }

  lemma SafeAtFirst(h: Hash, d: Disk, top: nat, live: set<Digest>, x: Digest)
    requires CrashSafe(h, d, top, live, x) && CompactStage(h, d, top, live, At(NewFile(d, top + 1), top + 1))
    ensures forall left :: FirstWriteCrash(h, d, top, left) ==> x in OpenIndex(h, left, top + 1)
  {
    hide CompactStage, Crash, OpenIndex, NewFile;
    forall left | FirstWriteCrash(h, d, top, left) ensures x in OpenIndex(h, left, top + 1) {
      assert CompactCrash(h, d, top, live, At(NewFile(d, top + 1), top + 1), left);
    }
  }

  lemma SafeThroughout(h: Hash, d: Disk, top: nat, live: set<Digest>, x: Digest, c: Bytes)
    requires Base(h, d, top) && x in live && Holds(h, d, x, c) && SafeSealed(h, d, x)
    ensures CrashSafe(h, d, top, live, x)
  {
    hide CompactStage, Crash, OpenIndex, Base, Holds, SafeSealed, Safe;
    assert IsTop(d, top) by { BaseParts(h, d, top); }
    forall m, left | CompactCrash(h, d, top, live, m, left) ensures x in OpenIndex(h, left, m.top) {
      StageParts(h, d, top, live, m);
      StageSafe(h, d, top, live, m, x, c);
      SafeListed(h, m.d, m.top, left, x);
    }
  }

  /** Whatever stage a compaction crashes at, x is there on reopening and reads
      back as c. */
  ghost predicate CrashReads(h: Hash, d: Disk, top: nat, live: set<Digest>, x: Digest, c: Bytes) {
    forall m, left :: CompactCrash(h, d, top, live, m, left) ==>
      x in OpenIndex(h, left, m.top) && ReadAt(left, OpenIndex(h, left, m.top)[x]) == Some(c)
  }

  /** Over every life of a store, a crash in the next compaction loses a live
      content that must not be lost exactly if a left-over sidecar hides it. */
  lemma EveryCompactionReads(h: Hash, max: nat, ls: seq<Life>, es: seq<LifeEvent>, i: nat, live: set<Digest>, x: Digest)
    requires IsLife(h, max, ls, es) && i < |ls| && x in ls[i].must && x in live
    ensures CrashReads(h, ls[i].at.d, ls[i].at.top, live, x, ls[i].must[x]) <==> SafeSealed(h, ls[i].at.d, x)
    ensures SidecarFull(h, ls[i].at.d, ls[i].at.top) ==> SafeSealed(h, ls[i].at.d, x)
  {
    hide *;
    EveryLifeKeeps(h, max, ls, es, i);
    LifeParts(h, ls[i]);
    MustIsHeld(h, ls[i], x);
    CompactionCrashSafe(h, ls[i].at.d, ls[i].at.top, live, x, ls[i].must[x]);
    ReadsIfSafe(h, ls[i].at.d, ls[i].at.top, live, x, ls[i].must[x]);
    if SidecarFull(h, ls[i].at.d, ls[i].at.top) {
      FullIsSafe(h, ls[i].at.d, ls[i].at.top, x, ls[i].must[x]);
    }
  }

  lemma MustIsHeld(h: Hash, l: Life, x: Digest)
    requires MustHeld(h, l.at.d, l.must) && x in l.must
    ensures Holds(h, Durable(l.at.d), x, l.must[x]) && Holds(h, l.at.d, x, l.must[x])
  {
    hide Durable, Holds;
    DurableGrows(h, l.at.d, x, l.must[x]);
  }

  lemma ReadsIfSafe(h: Hash, d: Disk, top: nat, live: set<Digest>, x: Digest, c: Bytes)
    requires Base(h, d, top) && x in live && Holds(h, d, x, c) && Holds(h, Durable(d), x, c)
    ensures SafeSealed(h, d, x) ==> CrashReads(h, d, top, live, x, c)
    ensures CrashReads(h, d, top, live, x, c) ==> CrashSafe(h, d, top, live, x)
  {
    hide CompactStage, Crash, OpenIndex, Base, Holds, SafeSealed, Safe, Durable;
    if SafeSealed(h, d, x) {
      assert IsTop(d, top) by { BaseParts(h, d, top); }
      forall m, left | CompactCrash(h, d, top, live, m, left)
        ensures x in OpenIndex(h, left, m.top) && ReadAt(left, OpenIndex(h, left, m.top)[x]) == Some(c)
      {
        StageParts(h, d, top, live, m);
        StageSafe(h, d, top, live, m, x, c);
        StageDurable(h, d, top, live, m, x, c);
        DurableGrows(h, m.d, x, c);
        SafeReads(h, m.d, m.top, left, x, c);
      }
    }
  }

  /** With no sidecar that hides a record, everything durable is safe. */
  lemma FullIsSafe(h: Hash, d: Disk, top: nat, x: Digest, c: Bytes)
    requires DiskOk(h, d, top) && SidecarFull(h, d, top) && Holds(h, Durable(d), x, c)
    ensures SafeSealed(h, d, x)
  {
    hide SidecarFull, Loadable, ScanList, FileOk;
    var id :| id in Durable(d).dat && c in Records(Durable(d).dat[id]) && Blake(h, c) == x;
    DurableGrowsIn(h, d, id, c);
    assert SidecarFull(h, d, id);
    FullLists(h, d, id, x, c);
    assert DurableIn(h, d, id, x);
  }

  lemma DurableGrowsIn(h: Hash, d: Disk, id: nat, c: Bytes)
    requires id in Durable(d).dat && c in Records(Durable(d).dat[id])
    ensures id in d.dat && c in Records(d.dat[id])
  {
    var f := d.dat[id];
    assert f[..|f|] == f;
    ScanListGrows(h, f, d.synced[id], |f|);
  }

  // ---- a run that breaks it ----

  /** The file of one record. */
  lemma OneRecord(h: Hash, c: Bytes)
    requires |c| < U32
    ensures Records([] + Frame(c)) == [c] && Tail([] + Frame(c)) == []
    ensures ScanList(h, [] + Frame(c)) == [Entry(Blake(h, c), 4, |c|)]
  {
    assert Records([]) == [] && Tail([]) == [];
    AppendScan(h, [], c);
    EmptyList(h);
  }

  lemma OnlyHolds(h: Hash, d: Disk, c: Bytes)
    requires forall id :: id in d.dat ==> Records(d.dat[id]) == [c]
    ensures forall x, b :: Holds(h, d, x, b) ==> b == c && x == Blake(h, c)
  {}

  function SideFor(h: Hash, f: Bytes): Bytes { IdxFile(h, ScanList(h, f)) }

  /** The segment after the put of a. */
  function FileA(a: Bytes): Bytes { [] + Frame(a) }

  /** The run: put a; put c, which seals the segment, but crash between its
      sidecar and the creation of the next segment; put b; sync. */
  function StaleEvents(h: Hash, a: Bytes, b: Bytes, c: Bytes): seq<Event> {
    [Event.Put(a, SideFor(h, [])), Event.CrashInPut(c, SideFor(h, FileA(a)), 1, SealedA(h, a)),
     Event.Put(b, SideFor(h, FileA(a))), Event.Sync]
  }

  /** The directory with the sidecar written and the next segment missing. */
  function SealedA(h: Hash, a: Bytes): Disk { Disk(map[0 := FileA(a)], map[0 := |FileA(a)|], map[0 := SideFor(h, FileA(a))]) }

  function StaleAt(h: Hash, a: Bytes, b: Bytes): Disk {
    Disk(map[0 := FileA(a) + Frame(b)], map[0 := |FileA(a)|], map[0 := SideFor(h, FileA(a))])
  }

  function StaleRuns(h: Hash, a: Bytes, b: Bytes): seq<Run> {
    var d1 := Disk(map[0 := FileA(a)], map[0 := 0], map[]);
    [START, Run(At(d1, 0), [a], 0), Run(At(SealedA(h, a), 0), [a], 1), Run(At(StaleAt(h, a, b), 0), [a, b], 1),
     Run(At(SyncFile(StaleAt(h, a, b), 0), 0), [a, b], 2)]
  }

  /** Contents and a cap with which the run goes this way. */
  ghost predicate StaleSetup(h: Hash, max: nat, a: Bytes, b: Bytes, c: Bytes) {
    && |a| < U32 && |b| < U32 && |c| < U32 && max < U64
    && Blake(h, a) != Blake(h, b) && Blake(h, a) != Blake(h, c)
    && 4 + |a| + 4 + |b| <= max < 4 + |a| + 4 + |c|
  }

  lemma StalePutA(h: Hash, max: nat, a: Bytes, b: Bytes, c: Bytes)
    requires StaleSetup(h, max, a, b, c)
    ensures Step(h, max, StaleRuns(h, a, b)[0], StaleEvents(h, a, b, c)[0], StaleRuns(h, a, b)[1])
    ensures Running(h, StaleRuns(h, a, b)[1].at)
  {
    hide Running, IdxFile, SideOf, Frame, Records;
    StartOk(h);
    EmptyHolds(h, a);
    ScanSide(h, []);
    PutStages(h, max, START.at, a, SideFor(h, []), 0);
  }

  lemma EmptyHolds(h: Hash, c: Bytes)
    ensures Absent(h, START.at.d, c) && Records([]) == []
  {
    assert Records([]) == [];
  }

  lemma HoldsA(h: Hash, d: Disk, a: Bytes, c: Bytes)
    requires |a| < U32 && d.dat == map[0 := FileA(a)] && Blake(h, a) != Blake(h, c)
    ensures Absent(h, d, c)
  {
    OneRecord(h, a);
    OnlyHolds(h, d, a);
  }

  lemma OpenSealedA(h: Hash, a: Bytes)
    requires |a| < U32
    ensures OpenDisk(h, SealedA(h, a), 0) == SealedA(h, a)
    ensures Appended(At(SealedA(h, a), 0)) == [a]
    ensures Crash(h, SealedA(h, a), SealedA(h, a))
  {
    hide IdxFile, ScanList;
    OneRecord(h, a);
    FileSplits(FileA(a));
    assert FileA(a)[..|FileA(a)|] == FileA(a);
    assert AllRecords(SealedA(h, a), 0) == [];
  }

  lemma StaleCrash(h: Hash, max: nat, a: Bytes, b: Bytes, c: Bytes)
    requires StaleSetup(h, max, a, b, c) && Running(h, StaleRuns(h, a, b)[1].at)
    ensures Step(h, max, StaleRuns(h, a, b)[1], StaleEvents(h, a, b, c)[1], StaleRuns(h, a, b)[2])
  {
    hide Running, IdxFile, SideOf, Frame, Records, OpenDisk, Crash, Absent, ScanList, Appended;
    HoldsA(h, StaleRuns(h, a, b)[1].at.d, a, c);
    ScanSide(h, FileA(a));
    OpenSealedA(h, a);
    FrameLength(a);
    hide FileA, SideFor;
    var t := PutTrace(max, StaleRuns(h, a, b)[1].at, c, SideFor(h, FileA(a)));
    assert |t| == 4 && t[1].d == SealedA(h, a);
  }

  lemma StalePutB(h: Hash, max: nat, a: Bytes, b: Bytes, c: Bytes)
    requires StaleSetup(h, max, a, b, c) && Running(h, StaleRuns(h, a, b)[2].at)
    ensures Step(h, max, StaleRuns(h, a, b)[2], StaleEvents(h, a, b, c)[2], StaleRuns(h, a, b)[3])
  {
    hide Running, IdxFile, SideOf, Frame, Records, OpenDisk, Crash, Absent, ScanList, Appended;
    HoldsA(h, SealedA(h, a), a, b);
    ScanSide(h, FileA(a));
    FrameLength(a);
    assert LastAt(max, At(SealedA(h, a), 0), b, SideFor(h, FileA(a))).d == StaleAt(h, a, b);
  }

  lemma FrameLength(a: Bytes)
    ensures |FileA(a)| == 4 + |a|
  {}

  /** The sidecar left over lists a alone. */
  lemma StaleNotSafe(h: Hash, max: nat, a: Bytes, b: Bytes, c: Bytes)
    requires StaleSetup(h, max, a, b, c)
    ensures !SafeSealed(h, StaleRuns(h, a, b)[4].at.d, Blake(h, b))
  {
    hide IdxFile, Frame, Records, ScanList, LoadIdx;
    OneRecord(h, a);
    FrameLength(a);
    ScanSide(h, FileA(a));
    var d := StaleRuns(h, a, b)[4].at.d;
    assert LoadIdx(h, d.idx[0]).Some?;
    forall id | DurableIn(h, d, id, Blake(h, b)) ensures !SidecarLists(h, d, id, Blake(h, b)) {
      assert id == 0 && Loadable(h, d, 0);
    }
  }

  lemma StaleRun(h: Hash, max: nat, a: Bytes, b: Bytes, c: Bytes)
    requires StaleSetup(h, max, a, b, c)
    ensures IsRun(h, max, StaleRuns(h, a, b), StaleEvents(h, a, b, c)) && Running(h, StaleRuns(h, a, b)[4].at)
  {
    hide Running, Step, StaleSetup, SideFor, Frame;
    var rs, es := StaleRuns(h, a, b), StaleEvents(h, a, b, c);
    StalePutA(h, max, a, b, c);
    StaleCrash(h, max, a, b, c);
    EveryRunRecovers(h, max, rs[..3], es[..2], 2);
    StalePutB(h, max, a, b, c);
    StaleSync(h, max, a, b, c);
    forall i | 0 <= i < |es| ensures Step(h, max, rs[i], es[i], rs[i + 1]) {}
    EveryRunRecovers(h, max, rs, es, 4);
  }

  lemma StaleSync(h: Hash, max: nat, a: Bytes, b: Bytes, c: Bytes)
    ensures Step(h, max, StaleRuns(h, a, b)[3], StaleEvents(h, a, b, c)[3], StaleRuns(h, a, b)[4])
  {
    hide SideFor, Frame;
  }

  /** A store reached by puts, a sync and one crash, whose compaction can lose a
      synced record: after a crash behind its first write, b is not found. */
  lemma StaleSidecarLoses(h: Hash, max: nat, a: Bytes, b: Bytes, c: Bytes)
    requires StaleSetup(h, max, a, b, c)
    ensures IsRun(h, max, StaleRuns(h, a, b), StaleEvents(h, a, b, c))
    ensures var r := StaleRuns(h, a, b)[4];
            b in r.appended[..r.durable]
            && exists left :: FirstWriteCrash(h, r.at.d, r.at.top, left) && Blake(h, b) !in OpenIndex(h, left, r.at.top + 1)
  {
    hide Running, SafeSealed, IsRun, FirstWriteCrash, OpenIndex, SideFor, Frame, StaleAt, SyncFile, SealedA;
    StaleRun(h, max, a, b, c);
    StaleNotSafe(h, max, a, b, c);
    var r := StaleRuns(h, a, b)[4];
    assert r.appended == [a, b] && r.durable == 2;
    assert r.appended[..r.durable] == [a, b];
    LosesOnFirstWrite(h, r.at, Blake(h, b));
  }

  lemma LosesOnFirstWrite(h: Hash, m: At, x: Digest)
    requires Running(h, m) && !SafeSealed(h, m.d, x)
    ensures exists left :: FirstWriteCrash(h, m.d, m.top, left) && x !in OpenIndex(h, left, m.top + 1)
  {
    hide *;
    RunningDisk(h, m);
    DiskOkBase(h, m.d, m.top);
    FirstWriteSafe(h, m.d, m.top, x);
  }
}
