/** What must still read back, over every run of puts, syncs, compactions and
    crashes (rust/nedb-v2/src/segment.rs). */
module SegmentLifetimes {
  import opened Hashing
  import opened SegmentFormat
  import opened SegmentDisk
  import opened SegmentSteps
  import opened SegmentRuns
  import opened SegmentCompaction

  // ---- the directories a compaction passes through ----

  /** Some old files and sidecars may be gone; those left are unchanged. */
  ghost predicate OldShrunk(d0: Disk, top0: nat, d: Disk) {
    && (forall id :: id <= top0 && id in d.dat ==> id in d0.dat && d.dat[id] == d0.dat[id])
    && (forall id :: id <= top0 && id in d.idx ==> id in d0.idx && d.idx[id] == d0.idx[id])
  }

  ghost predicate InNew(top0: nat, d: Disk, c: Bytes) {
    exists id :: id > top0 && id in d.dat && c in Records(d.dat[id])
  }

  /** Every live content is in the new segments. */
  ghost predicate CopiedAll(h: Hash, d0: Disk, top0: nat, live: set<Digest>, d: Disk) {
    forall c :: Blake(h, c) in live && Holds(h, d0, Blake(h, c), c) ==> InNew(top0, d, c)
  }

  /** Either every old file still stands, or everything live has been copied and
      synced. */
  ghost predicate CompactStage(h: Hash, d0: Disk, top0: nat, live: set<Digest>, m: At) {
    && m.top > top0 && Base(h, m.d, m.top) && NewOk(h, top0, m) && OldShrunk(d0, top0, m.d)
    && (OldKept(d0, top0, m.d)
        || (CopiedAll(h, d0, top0, live, m.d) && m.top in m.d.synced && m.d.synced[m.top] == |m.d.dat[m.top]|))
  }

  ghost predicate CompactDone(h: Hash, d0: Disk, top0: nat, live: set<Digest>, m: At) {
    && CompactStage(h, d0, top0, live, m) && CopiedAll(h, d0, top0, live, m.d)
    && m.top in m.d.synced && m.d.synced[m.top] == |m.d.dat[m.top]|
    && (forall id :: id in m.d.dat ==> id > top0)
  }

  lemma StageParts(h: Hash, d0: Disk, top0: nat, live: set<Digest>, m: At)
    requires CompactStage(h, d0, top0, live, m)
    ensures Base(h, m.d, m.top) && Sound(h, m.d) && Synced(m.d) && IsTop(m.d, m.top)
    ensures m.top > top0 && NewOk(h, top0, m) && OldShrunk(d0, top0, m.d)
  {
    hide NewOk, OldShrunk, OldKept, CopiedAll, Coherent, FilesOk;
  }

  /** If no sidecar was left over for the active segment, a compaction keeps the
      directory in order throughout. */
  lemma StageDiskOk(h: Hash, d0: Disk, top0: nat, live: set<Digest>, m: At)
    requires DiskOk(h, d0, top0) && SidecarFull(h, d0, top0) && CompactStage(h, d0, top0, live, m)
    ensures DiskOk(h, m.d, m.top)
  {
    hide Base, CompactStage;
    StageParts(h, d0, top0, live, m);
    forall id | id in m.d.dat && id != m.top ensures SidecarFull(h, m.d, id) {
      hide SidecarFull;
      assert id <= m.top;
      if id <= top0 {
        assert SidecarFull(h, d0, id);
        FullKeeps(h, d0, m.d, id);
      }
    }
  }

  lemma DurableGrows(h: Hash, d: Disk, x: Digest, c: Bytes)
    requires Holds(h, Durable(d), x, c)
    ensures Holds(h, d, x, c)
  {
    var id :| id in Durable(d).dat && c in Records(Durable(d).dat[id]);
    var f := d.dat[id];
    assert f[..|f|] == f;
    ScanListGrows(h, f, d.synced[id], |f|);
  }

  /** A live content that was durable stays durable. */
  lemma StageDurable(h: Hash, d0: Disk, top0: nat, live: set<Digest>, m: At, x: Digest, c: Bytes)
    requires IsTop(d0, top0) && Holds(h, Durable(d0), x, c) && x in live && CompactStage(h, d0, top0, live, m)
    ensures Holds(h, Durable(m.d), x, c)
  {
    hide Base, NewOk, OldShrunk;
    StageParts(h, d0, top0, live, m);
    if OldKept(d0, top0, m.d) {
      var id :| id in Durable(d0).dat && c in Records(Durable(d0).dat[id]);
      assert id in Durable(m.d).dat && Durable(m.d).dat[id] == Durable(d0).dat[id];
    } else {
      DurableGrows(h, d0, x, c);
      CopiedDurable(h, d0, top0, live, m, x, c);
    }
  }

  lemma CopiedDurable(h: Hash, d0: Disk, top0: nat, live: set<Digest>, m: At, x: Digest, c: Bytes)
    requires Holds(h, d0, x, c) && x in live && CopiedAll(h, d0, top0, live, m.d)
    requires IsTop(m.d, m.top) && Synced(m.d) && NewOk(h, top0, m) && m.d.synced[m.top] == |m.d.dat[m.top]|
    ensures Holds(h, Durable(m.d), x, c)
  {
    hide SidecarFull;
    assert InNew(top0, m.d, c);
    var id :| id > top0 && id in m.d.dat && c in Records(m.d.dat[id]);
    assert m.d.dat[id][..|m.d.dat[id]|] == m.d.dat[id];
    assert id in Durable(m.d).dat && Durable(m.d).dat[id] == m.d.dat[id];
  }

  lemma DoneRunning(h: Hash, d0: Disk, top0: nat, live: set<Digest>, m: At)
    requires CompactDone(h, d0, top0, live, m)
    ensures Running(h, m)
  {
    hide Base, CompactStage, CopiedAll;
    StageParts(h, d0, top0, live, m);
    forall id | id in m.d.dat && id != m.top ensures SidecarFull(h, m.d, id) {
      hide SidecarFull;
      assert top0 < id < m.top;
    }
  }

  // ---- runs ----

  /** A store somewhere in its life, and the contents it must not lose. */
  datatype Life = Life(at: At, must: map<Digest, Bytes>)

  datatype LifeEvent =
    | Put(c: Bytes, side: Bytes)
    | Sync
    | Compact(live: set<Digest>, m: At)
    | CrashIdle(opens: seq<nat>, left: Disk)
    | CrashInPut(c: Bytes, side: Bytes, k: nat, opens: seq<nat>, left: Disk)
    | CrashInCompact(live: set<Digest>, m: At, opens: seq<nat>, left: Disk)

  /** All that is stored. */
  ghost predicate MustAll(h: Hash, d: Disk, must: map<Digest, Bytes>) {
    forall x, c :: Holds(h, d, x, c) <==> x in must && must[x] == c
  }

  ghost predicate MustHeld(h: Hash, d: Disk, must: map<Digest, Bytes>) {
    forall x :: x in must ==> Holds(h, Durable(d), x, must[x])
  }

  function Reopened(h: Hash, left: Disk, top: nat): At
    requires top in left.dat
  {
    At(OpenDisk(h, left, top), top)
  }

  /** What a crash leaves, and further crashes each in the course of opening again:
      `opens` tells how many sealed segments each opening got past. */
  ghost predicate CrashesTo(h: Hash, d: Disk, top: nat, opens: seq<nat>, left: Disk) {
    if opens == [] then Crash(h, d, left)
    else
      var front, n := opens[..|opens| - 1], opens[|opens| - 1];
      exists mid :: CrashesTo(h, d, top, front, mid) && Crash(h, Healing(h, mid, top, n), left)
  }

  /** What one event does. A crash may strike at every write of a put, at every
      stage of a compaction and at every write of opening again; at a stage of a
      compaction only if no sidecar that hides a record is left over for the
      segment that was active. */
  ghost predicate LifeStep(h: Hash, max: nat, l: Life, e: LifeEvent, l': Life) {
    l.at.top in l.at.d.dat &&
    match e
    case Put(c, side) =>
      if !Absent(h, l.at.d, c) then l' == l
      else PutReady(h, max, l.at, c, side) && l' == Life(LastAt(max, l.at, c, side), l.must)
    case Sync => l'.at == Sealing1(l.at) && MustAll(h, l.at.d, l'.must)
    case Compact(live, m) =>
      CompactDone(h, l.at.d, l.at.top, live, m) && l'.at == m && MustAll(h, m.d, l'.must)
    case CrashIdle(opens, left) => CrashLeaves(h, l.at, opens, left, l') && l'.must == l.must
    case CrashInPut(c, side, k, opens, left) =>
      && PutReady(h, max, l.at, c, side) && k < |PutTrace(max, l.at, c, side)|
      && CrashLeaves(h, PutTrace(max, l.at, c, side)[k], opens, left, l') && l'.must == l.must
    case CrashInCompact(live, m, opens, left) =>
      && CompactStage(h, l.at.d, l.at.top, live, m) && SidecarFull(h, l.at.d, l.at.top)
      && CrashLeaves(h, m, opens, left, l') && l'.must == Restrict(l.must, live)
  }

  function Restrict(must: map<Digest, Bytes>, live: set<Digest>): map<Digest, Bytes> {
    map x | x in must && x in live :: must[x]
  }

  ghost predicate CrashLeaves(h: Hash, m: At, opens: seq<nat>, left: Disk, l': Life) {
    CrashesTo(h, m.d, m.top, opens, left) && m.top in left.dat && l'.at == Reopened(h, left, m.top)
  }

  ghost predicate LifeOk(h: Hash, l: Life) {
    Running(h, l.at) && MustHeld(h, l.at.d, l.must)
  }

  // ---- crashes ----

  ghost predicate AllOnDisk(d: Disk) {
    forall id :: id in d.dat ==> id in d.synced && d.synced[id] == |d.dat[id]|
  }

  /** Where every file is synced, all that is stored is durable. */
  lemma WholeHolds(h: Hash, d: Disk, x: Digest, c: Bytes)
    requires AllOnDisk(d) && Holds(h, d, x, c)
    ensures Holds(h, Durable(d), x, c)
  {
    var id :| id in d.dat && c in Records(d.dat[id]);
    assert d.dat[id][..|d.dat[id]|] == d.dat[id];
    assert id in Durable(d).dat && Durable(d).dat[id] == d.dat[id];
  }

  lemma OpenHolds(h: Hash, left: Disk, top: nat, x: Digest, c: Bytes)
    requires top in left.dat && Holds(h, left, x, c)
    ensures Holds(h, OpenDisk(h, left, top), x, c)
  {
    OpenRecords(h, left, top);
    hide OpenDisk;
    var id :| id in left.dat && c in Records(left.dat[id]);
    assert id in OpenDisk(h, left, top).dat by { OpenFiles(h, left, top); }
  }

  lemma OpenFiles(h: Hash, d: Disk, top: nat)
    requires top in d.dat
    ensures forall id :: id in d.dat <==> id in OpenDisk(h, d, top).dat
    ensures AllOnDisk(d) ==> AllOnDisk(OpenDisk(h, d, top))
  {
    hide Encode, AllOnDisk, IdxFile, LoadIdx, Records;
    OpenAllOnDisk(h, d, top);
  }

  lemma OpenAllOnDisk(h: Hash, d: Disk, top: nat)
    requires top in d.dat
    ensures AllOnDisk(d) ==> AllOnDisk(OpenDisk(h, d, top))
  {
    hide Encode, IdxFile, Loadable, Records;
  }

  lemma OpenKeepsMust(h: Hash, left: Disk, top: nat, must: map<Digest, Bytes>)
    requires top in left.dat && AllOnDisk(left) && forall x :: x in must ==> Holds(h, left, x, must[x])
    ensures MustHeld(h, OpenDisk(h, left, top), must)
  {
    forall x | x in must ensures Holds(h, Durable(OpenDisk(h, left, top)), x, must[x]) {
      hide OpenDisk, Holds, Durable, AllOnDisk;
      OpenFiles(h, left, top);
      OpenHolds(h, left, top, x, must[x]);
      WholeHolds(h, OpenDisk(h, left, top), x, must[x]);
    }
  }

  lemma HealingFiles(h: Hash, d: Disk, top: nat, n: nat)
    ensures Healing(h, d, top, n).dat == d.dat && Healing(h, d, top, n).synced == d.synced
  {}

  /** However many crashes: a directory in order, all on disk, with everything that
      had to be kept. */
  lemma {:induction false} CrashesKeep(h: Hash, d: Disk, top: nat, must: map<Digest, Bytes>, opens: seq<nat>, left: Disk)
    requires DiskOk(h, d, top) && MustHeld(h, d, must) && CrashesTo(h, d, top, opens, left)
    ensures DiskOk(h, left, top) && AllOnDisk(left) && forall x :: x in must ==> Holds(h, left, x, must[x])
    decreases |opens|
  {
    hide DiskOk, Crash, Holds, Durable, Healing;
    if opens == [] {
      OneCrash(h, d, top, must, left);
    } else {
      var front, n := opens[..|opens| - 1], opens[|opens| - 1];
      var mid :| CrashesTo(h, d, top, front, mid) && Crash(h, Healing(h, mid, top, n), left);
      CrashesKeep(h, d, top, must, front, mid);
      HealingOk(h, mid, top, n);
      HealingFiles(h, mid, top, n);
      SameMust(h, mid, Healing(h, mid, top, n), must);
      OneCrash(h, Healing(h, mid, top, n), top, must, left);
    }
  }

  lemma SameMust(h: Hash, d: Disk, d': Disk, must: map<Digest, Bytes>)
    requires AllOnDisk(d) && d'.dat == d.dat && d'.synced == d.synced && forall x :: x in must ==> Holds(h, d, x, must[x])
    ensures MustHeld(h, d', must)
  {
    forall x | x in must ensures Holds(h, Durable(d'), x, must[x]) {
      WholeHolds(h, d', x, must[x]);
    }
  }

  lemma OneCrash(h: Hash, d: Disk, top: nat, must: map<Digest, Bytes>, left: Disk)
    requires DiskOk(h, d, top) && MustHeld(h, d, must) && Crash(h, d, left)
    ensures DiskOk(h, left, top) && AllOnDisk(left) && forall x :: x in must ==> Holds(h, left, x, must[x])
  {
    hide DiskOk, Crash, Holds, Durable;
    DiskOkBase(h, d, top);
    CrashKeeps(h, d, top, left);
    CrashSynced(h, d, left);
    hide Base, AllOnDisk;
    forall x | x in must ensures Holds(h, left, x, must[x]) { CrashHolds(h, d, top, left, x, must[x]); }
  }

  lemma CrashLife(h: Hash, m: At, must: map<Digest, Bytes>, opens: seq<nat>, left: Disk, l': Life)
    requires DiskOk(h, m.d, m.top) && MustHeld(h, m.d, must) && CrashLeaves(h, m, opens, left, l') && l'.must == must
    ensures LifeOk(h, l')
  {
    hide DiskOk, Running, CrashesTo, Holds, OpenDisk;
    CrashesKeep(h, m.d, m.top, must, opens, left);
    OpenRunning(h, left, m.top);
    OpenKeepsMust(h, left, m.top, must);
  }

  lemma CrashSynced(h: Hash, d: Disk, left: Disk)
    requires Crash(h, d, left)
    ensures AllOnDisk(left)
  {}

  lemma DiskOkBase(h: Hash, d: Disk, top: nat)
    requires DiskOk(h, d, top)
    ensures Base(h, d, top) && IsTop(d, top)
  {}

  // ---- puts ----

  lemma {:induction false} AllRecordsHas(d: Disk, n: nat, c: Bytes)
    ensures c in AllRecords(d, n) <==> exists id :: id < n && id in d.dat && c in Records(d.dat[id])
  {
    if n > 0 { AllRecordsHas(d, n - 1, c); }
  }

  lemma SurvivingHolds(h: Hash, a: At, x: Digest, c: Bytes)
    requires IsTop(a.d, a.top)
    ensures Holds(h, Durable(a.d), x, c) <==> Blake(h, c) == x && c in Surviving(a)
  {
    AllRecordsHas(Durable(a.d), a.top + 1, c);
  }

  lemma StageKeepsMust(h: Hash, a: At, c: Bytes, m: At, done: bool, must: map<Digest, Bytes>)
    requires IsTop(a.d, a.top) && PutStage(h, a, c, m, done) && MustHeld(h, a.d, must)
    ensures MustHeld(h, m.d, must)
  {
    hide Running;
    assert IsTop(m.d, m.top) by { RunningFacts(h, m); }
    forall x | x in must ensures Holds(h, Durable(m.d), x, must[x]) {
      hide Holds, Surviving;
      SurvivingHolds(h, a, x, must[x]);
      SurvivingHolds(h, m, x, must[x]);
      assert Surviving(a) <= Surviving(m);
    }
  }

  lemma PutLife(h: Hash, max: nat, l: Life, c: Bytes, side: Bytes, k: nat)
    requires LifeOk(h, l) && PutReady(h, max, l.at, c, side) && k < |PutTrace(max, l.at, c, side)|
    ensures var m := PutTrace(max, l.at, c, side)[k];
            Running(h, m) && MustHeld(h, m.d, l.must)
  {
    hide Running, MustHeld;
    RunningFacts(h, l.at);
    PutStages(h, max, l.at, c, side, k);
    var m := PutTrace(max, l.at, c, side)[k];
    StageKeepsMust(h, l.at, c, m, k == |PutTrace(max, l.at, c, side)| - 1, l.must);
  }

  lemma AllSynced(h: Hash, m: At, must: map<Digest, Bytes>)
    requires Running(h, m) && m.d.synced[m.top] == |m.d.dat[m.top]| && MustAll(h, m.d, must)
    ensures MustHeld(h, m.d, must)
  {
    hide DiskOk, Holds;
    RunningFacts(h, m);
    assert AllOnDisk(m.d);
    forall x | x in must ensures Holds(h, Durable(m.d), x, must[x]) {
      assert Holds(h, m.d, x, must[x]);
      WholeHolds(h, m.d, x, must[x]);
    }
  }

  // ---- steps ----

  lemma SyncLife(h: Hash, l: Life, l': Life)
    requires LifeOk(h, l) && l'.at == Sealing1(l.at) && MustAll(h, l.at.d, l'.must)
    ensures LifeOk(h, l')
  {
    hide Running, MustHeld;
    RunningFacts(h, l.at);
    SyncRunning(h, l.at);
    forall x, c ensures Holds(h, l'.at.d, x, c) <==> Holds(h, l.at.d, x, c) {}
    AllSynced(h, l'.at, l'.must);
  }

  lemma StageLife(h: Hash, l: Life, live: set<Digest>, m: At)
    requires LifeOk(h, l) && CompactStage(h, l.at.d, l.at.top, live, m) && SidecarFull(h, l.at.d, l.at.top)
    ensures DiskOk(h, m.d, m.top) && MustHeld(h, m.d, Restrict(l.must, live))
  {
    hide DiskOk, CompactStage;
    RunningFacts(h, l.at);
    StageDiskOk(h, l.at.d, l.at.top, live, m);
    forall x | x in Restrict(l.must, live) ensures Holds(h, Durable(m.d), x, l.must[x]) {
      hide Durable, Holds;
      StageDurable(h, l.at.d, l.at.top, live, m, x, l.must[x]);
    }
  }

  lemma LifeStepKeeps(h: Hash, max: nat, l: Life, e: LifeEvent, l': Life)
    requires LifeOk(h, l) && LifeStep(h, max, l, e, l')
    ensures LifeOk(h, l')
  {
    hide Running, MustHeld, CompactStage, PutReady, CrashLeaves;
    match e
    case Put(c, side) =>
      if Absent(h, l.at.d, c) {
        PutLife(h, max, l, c, side, |PutTrace(max, l.at, c, side)| - 1);
      }
    case Sync => SyncLife(h, l, l');
    case Compact(live, m) =>
      DoneRunning(h, l.at.d, l.at.top, live, m);
      AllSynced(h, m, l'.must);
    case CrashIdle(opens, left) =>
      RunningDisk(h, l.at);
      CrashLife(h, l.at, l.must, opens, left, l');
    case CrashInPut(c, side, k, opens, left) =>
      PutLife(h, max, l, c, side, k);
      RunningDisk(h, PutTrace(max, l.at, c, side)[k]);
      CrashLife(h, PutTrace(max, l.at, c, side)[k], l.must, opens, left, l');
    case CrashInCompact(live, m, opens, left) =>
      StageLife(h, l, live, m);
      CrashLife(h, m, Restrict(l.must, live), opens, left, l');
  }

  lemma RunningDisk(h: Hash, a: At)
    requires Running(h, a)
    ensures DiskOk(h, a.d, a.top)
  {}

  /** A completed compaction keeps every live content that had to be kept. */
  lemma CompactKeepsMust(h: Hash, max: nat, l: Life, live: set<Digest>, m: At, l': Life, x: Digest)
    requires LifeOk(h, l) && LifeStep(h, max, l, Compact(live, m), l') && x in l.must && x in live
    ensures x in l'.must && l'.must[x] == l.must[x]
  {
    hide Running, CompactStage, CopiedAll;
    RunningFacts(h, l.at);
    StageDurable(h, l.at.d, l.at.top, live, m, x, l.must[x]);
    DurableGrows(h, m.d, x, l.must[x]);
  }

  const NEWBORN: Life := Life(START.at, map[])

  ghost predicate IsLife(h: Hash, max: nat, ls: seq<Life>, es: seq<LifeEvent>) {
    && |ls| == |es| + 1 && ls[0] == NEWBORN
    && forall i :: 0 <= i < |es| ==> LifeStep(h, max, ls[i], es[i], ls[i + 1])
  }

  lemma {:induction false} EveryLifeKeeps(h: Hash, max: nat, ls: seq<Life>, es: seq<LifeEvent>, i: nat)
    requires IsLife(h, max, ls, es) && i < |ls|
    ensures LifeOk(h, ls[i])
  {
    hide LifeOk, LifeStep, Running;
    if i == 0 {
      NewbornOk(h);
    } else {
      EveryLifeKeeps(h, max, ls, es, i - 1);
      assert LifeStep(h, max, ls[i - 1], es[i - 1], ls[i - 1 + 1]);
      LifeStepKeeps(h, max, ls[i - 1], es[i - 1], ls[i]);
    }
  }

  lemma NewbornOk(h: Hash)
    ensures LifeOk(h, NEWBORN)
  {
    hide Running;
    StartOk(h);
  }

  /** Over every life of a store, whatever crashes come next: each content that
      must not be lost is listed when the store opens and reads back. */
  lemma EveryLifeReads(h: Hash, max: nat, ls: seq<Life>, es: seq<LifeEvent>, i: nat, opens: seq<nat>, left: Disk, x: Digest)
    requires IsLife(h, max, ls, es) && i < |ls| && CrashesTo(h, ls[i].at.d, ls[i].at.top, opens, left) && x in ls[i].must
    ensures x in OpenIndex(h, left, ls[i].at.top) && ReadAt(left, OpenIndex(h, left, ls[i].at.top)[x]) == Some(ls[i].must[x])
  {
    hide *;
    EveryLifeKeeps(h, max, ls, es, i);
    LifeParts(h, ls[i]);
    CrashesKeep(h, ls[i].at.d, ls[i].at.top, ls[i].must, opens, left);
    OpenRecovers(h, left, ls[i].at.top, x, ls[i].must[x]);
  }

  lemma LifeParts(h: Hash, l: Life)
    requires LifeOk(h, l)
    ensures DiskOk(h, l.at.d, l.at.top) && Base(h, l.at.d, l.at.top) && MustHeld(h, l.at.d, l.must)
  {
    hide MustHeld;
  }
}
