/** Crash recovery over every run of puts, rollovers, syncs and crashes
    (rust/nedb-v2/src/segment.rs). */
module SegmentRuns {
  import opened Hashing
  import opened SegmentFormat
  import opened SegmentDisk
  import opened SegmentSteps

  // ---- append order ----

  /** The records of the segments below n, in append order. */
  function AllRecords(d: Disk, n: nat): seq<Bytes> {
    if n == 0 then []
    else AllRecords(d, n - 1) + (if n - 1 in d.dat then Records(d.dat[n - 1]) else [])
  }

  function Appended(a: At): seq<Bytes> { AllRecords(a.d, a.top + 1) }

  /** What is sure to survive, in append order. */
  function Surviving(a: At): seq<Bytes> { AllRecords(Durable(a.d), a.top + 1) }

  /** a is b with the active file cut. */
  ghost predicate CutOf(a: Disk, b: Disk, top: nat) {
    && (forall id :: id in a.dat <==> id in b.dat)
    && (forall id :: id in b.dat && id != top ==> a.dat[id] == b.dat[id])
    && top in b.dat && |a.dat[top]| <= |b.dat[top]| && a.dat[top] == b.dat[top][..|a.dat[top]|]
  }

  lemma {:induction false} SameBelow(a: Disk, b: Disk, n: nat)
    requires forall id :: id < n ==> (id in a.dat <==> id in b.dat)
    requires forall id :: id < n && id in a.dat ==> Records(a.dat[id]) == Records(b.dat[id])
    ensures AllRecords(a, n) == AllRecords(b, n)
  {
    if n > 0 { SameBelow(a, b, n - 1); }
  }

  lemma CutIsPrefix(a: Disk, b: Disk, top: nat)
    requires CutOf(a, b, top)
    ensures AllRecords(a, top + 1) <= AllRecords(b, top + 1)
  {
    SameBelow(a, b, top);
    CutParses(b.dat[top], |a.dat[top]|);
  }

  /** A crash leaves a prefix of the append order, and no less than what was
      sure to survive. */
  lemma CrashIsPrefix(h: Hash, a: At, d': Disk)
    requires IsTop(a.d, a.top) && Synced(a.d) && SealedSynced(a.d, a.top) && Crash(h, a.d, d')
    ensures Surviving(a) <= AllRecords(d', a.top + 1) <= Appended(a)
  {
    var d, top := a.d, a.top;
    forall id | id in d.dat && id != top ensures d'.dat[id] == d.dat[id] && Durable(d).dat[id] == d.dat[id] {
      assert d.dat[id][..|d.dat[id]|] == d.dat[id];
    }
    CutIsPrefix(d', d, top);
    assert Durable(d).dat[top] == d'.dat[top][..d.synced[top]];
    CutIsPrefix(Durable(d), d', top);
  }

  // ---- opening ----

  /** What open does to the directory: truncate the torn tail of the active file
      and write the missing sidecars. */
  function OpenDisk(h: Hash, d: Disk, top: nat): Disk
    requires top in d.dat
  {
    var whole := Encode(Records(d.dat[top]));
    Disk(d.dat[top := whole], d.synced[top := |whole|],
         d.idx + map id | id in d.dat && id != top && !Loadable(h, d, id) :: IdxFile(h, ScanList(h, d.dat[id])))
  }

  lemma {:induction false} EncodeCounts(cs: seq<Bytes>)
    ensures |cs| <= |Encode(cs)|
  {
    if cs != [] { EncodeCounts(cs[1..]); }
  }

  /** The entries of a file fit a sidecar. */
  lemma ScanEncodable(h: Hash, f: Bytes)
    requires |f| < U64
    ensures Encodable(ScanList(h, f))
  {
    FileSplits(f);
    EncodeCounts(Records(f));
    forall k | 0 <= k < |ScanList(h, f)| ensures ScanList(h, f)[k].off < U64 && ScanList(h, f)[k].len < U32 {
      ContentAt(f, k);
    }
  }

  lemma ScanSide(h: Hash, f: Bytes)
    requires |f| < U64
    ensures SideOf(h, IdxFile(h, ScanList(h, f)), f)
  {
    ScanEncodable(h, f);
    IdxRoundTrip(h, ScanList(h, f));
  }

  /** Truncating the torn tail of the active file. */
  lemma OpenTop(h: Hash, d: Disk, top: nat)
    requires Sound(h, d) && top in d.dat && FileOk(h, d.dat[top]) && d.synced[top] == |d.dat[top]|
    ensures var d' := OpenDisk(h, d, top);
            SidecarSound(h, d', top) && FileOk(h, d'.dat[top]) && Records(d'.dat[top]) == Records(d.dat[top])
            && Tail(d'.dat[top]) == [] && d'.synced[top] == |d'.dat[top]|
  {
    var d', f := OpenDisk(h, d, top), d.dat[top];
    var g := Encode(Records(f));
    TruncateTail(f);
    assert d'.dat[top] == g && ScanList(h, g) == ScanList(h, f);
    assert f[..|f|] == f && g[..|g|] == g;
    assert SidecarSound(h, d, top);
    hide Records, Encode, ScanList, Frame;
    assert Loadable(h, d', top) <==> Loadable(h, d, top);
  }

  /** Keeping or writing the sidecar of a sealed file. */
  lemma OpenSealed(h: Hash, d: Disk, top: nat, id: nat)
    requires Sound(h, d) && top in d.dat && id in d.dat && id != top && FileOk(h, d.dat[id])
    requires SidecarFull(h, d, id) && d.synced[id] == |d.dat[id]|
    ensures SidecarSound(h, OpenDisk(h, d, top), id) && SidecarFull(h, OpenDisk(h, d, top), id)
  {
    var f := d.dat[id];
    assert f[..|f|] == f;
    assert SidecarSound(h, d, id);
    if !Loadable(h, d, id) {
      ScanSide(h, f);
    }
  }

  lemma OpenSound(h: Hash, d: Disk, top: nat)
    requires DiskOk(h, d, top) && forall id :: id in d.dat ==> d.synced[id] == |d.dat[id]|
    ensures Sound(h, OpenDisk(h, d, top)) && FilesOk(h, OpenDisk(h, d, top))
    ensures forall id :: id in d.dat && id != top ==> SidecarFull(h, OpenDisk(h, d, top), id)
  {
    var d' := OpenDisk(h, d, top);
    assert FileOk(h, d.dat[top]);
    OpenTop(h, d, top);
    forall id | id in d.dat && id != top
      ensures SidecarSound(h, d', id) && SidecarFull(h, d', id) && FileOk(h, d'.dat[id])
    {
      assert SidecarFull(h, d, id) && FileOk(h, d.dat[id]);
      OpenSealed(h, d, top, id);
    }
  }

  lemma OpenRecords(h: Hash, d: Disk, top: nat)
    requires top in d.dat
    ensures forall id :: id in d.dat ==> Records(OpenDisk(h, d, top).dat[id]) == Records(d.dat[id])
    ensures Tail(OpenDisk(h, d, top).dat[top]) == []
  {
    TruncateTail(d.dat[top]);
  }

  lemma OpenNoStray(h: Hash, d: Disk, top: nat)
    requires IsTop(d, top) && NoStray(h, d, top)
    ensures NoStray(h, OpenDisk(h, d, top), top)
  {
    forall id: nat | Loadable(h, OpenDisk(h, d, top), id) ensures id <= top {
      assert id !in d.dat ==> Loadable(h, d, id);
    }
  }

  /** Opening what a crash left yields a directory in use with the same records. */
  lemma OpenRunning(h: Hash, d: Disk, top: nat)
    requires DiskOk(h, d, top) && forall id :: id in d.dat ==> d.synced[id] == |d.dat[id]|
    ensures Running(h, At(OpenDisk(h, d, top), top))
    ensures Appended(At(OpenDisk(h, d, top), top)) == AllRecords(d, top + 1)
  {
    var d' := OpenDisk(h, d, top);
    OpenRecords(h, d, top);
    SameBelow(d', d, top + 1);
    CrashCoherent(h, d, d');
    OpenSound(h, d, top);
    OpenNoStray(h, d, top);
  }

  /** The directory in the course of opening: the sealed segments below n have been
      given their sidecars, the active file is not yet cut. */
  function Healing(h: Hash, d: Disk, top: nat, n: nat): Disk {
    Disk(d.dat, d.synced, d.idx + map id | id in d.dat && id < n && id != top && !Loadable(h, d, id) :: IdxFile(h, ScanList(h, d.dat[id])))
  }

  lemma HealingSealed(h: Hash, d: Disk, top: nat, n: nat, id: nat)
    requires Sound(h, d) && top in d.dat && id in d.dat && FileOk(h, d.dat[id])
    requires id != top ==> SidecarFull(h, d, id) && d.synced[id] == |d.dat[id]|
    ensures SidecarSound(h, Healing(h, d, top, n), id)
    ensures id != top ==> SidecarFull(h, Healing(h, d, top, n), id)
  {
    if id != top { OpenSealed(h, d, top, id); }
    assert SidecarSound(h, d, id);
    hide LoadIdx, IdxFile, ScanList, Records, Encode;
    var d', o := Healing(h, d, top, n), OpenDisk(h, d, top);
    if id < n && id != top && !Loadable(h, d, id) {
      assert d'.idx[id] == o.idx[id];
    } else {
      assert Loadable(h, d', id) <==> Loadable(h, d, id);
    }
  }

  lemma HealingSound(h: Hash, d: Disk, top: nat, n: nat)
    requires DiskOk(h, d, top) && forall id :: id in d.dat ==> d.synced[id] == |d.dat[id]|
    ensures Sound(h, Healing(h, d, top, n))
    ensures forall id :: id in d.dat && id != top ==> SidecarFull(h, Healing(h, d, top, n), id)
  {
    hide SidecarSound, SidecarFull, FileOk, Coherent, NoStray;
    forall id | id in d.dat
      ensures SidecarSound(h, Healing(h, d, top, n), id) && (id != top ==> SidecarFull(h, Healing(h, d, top, n), id))
    {
      assert FileOk(h, d.dat[id]);
      if id != top { assert SidecarFull(h, d, id); }
      HealingSealed(h, d, top, n, id);
    }
    hide Loadable, IdxFile, ScanList;
  }

  lemma HealingNoStray(h: Hash, d: Disk, top: nat, n: nat)
    requires IsTop(d, top) && NoStray(h, d, top)
    ensures NoStray(h, Healing(h, d, top, n), top)
  {
    hide LoadIdx, IdxFile, ScanList;
    forall id: nat | Loadable(h, Healing(h, d, top, n), id) ensures id <= top {
      assert id !in d.dat ==> Loadable(h, d, id);
    }
  }

  lemma SameFilesOk(h: Hash, d: Disk, d': Disk, top: nat)
    requires DiskOk(h, d, top) && d'.dat == d.dat && Sound(h, d') && NoStray(h, d', top)
    requires forall id :: id in d.dat && id != top ==> SidecarFull(h, d', id)
    ensures DiskOk(h, d', top)
  {
    hide Sound, NoStray, SidecarFull, FileOk;
  }

  /** A directory in order stays so while it is being opened. */
  lemma HealingOk(h: Hash, d: Disk, top: nat, n: nat)
    requires DiskOk(h, d, top) && forall id :: id in d.dat ==> d.synced[id] == |d.dat[id]|
    ensures DiskOk(h, Healing(h, d, top, n), top)
  {
    hide Sound, NoStray, SidecarFull, FilesOk, Coherent, Loadable, IdxFile, ScanList;
    HealingSound(h, d, top, n);
    HealingNoStray(h, d, top, n);
    SameFilesOk(h, d, Healing(h, d, top, n), top);
  }

  // ---- puts ----

  /** The record would push the active file past the cap. */
  predicate Rolls(max: nat, f: Bytes, c: Bytes) {
    |f| > 0 && |f| + 4 + |c| > max
  }

  /** The writes that seal the active segment and open the next. `side` is the
      sidecar written. */
  function Sealing1(a: At): At
    requires a.top in a.d.dat
  {
    At(SyncFile(a.d, a.top), a.top)
  }

  function Sealing2(a: At, side: Bytes): At
    requires a.top in a.d.dat
  {
    At(WriteSide(Sealing1(a).d, a.top, side), a.top)
  }

  function Sealed(a: At, side: Bytes): (m: At)
    requires a.top in a.d.dat
    ensures m.top in m.d.dat
  {
    At(NewFile(Sealing2(a, side).d, a.top + 1), a.top + 1)
  }

  function AppendAt(a: At, c: Bytes): At
    requires a.top in a.d.dat
  {
    At(AppendFile(a.d, a.top, c), a.top)
  }

  /** The directories a put passes through, one per write. */
  function PutTrace(max: nat, a: At, c: Bytes, side: Bytes): (t: seq<At>)
    requires a.top in a.d.dat
    ensures t != []
  {
    if Rolls(max, a.d.dat[a.top], c)
    then [Sealing1(a), Sealing2(a, side), Sealed(a, side), AppendAt(Sealed(a, side), c)]
    else [AppendAt(a, c)]
  }

  ghost predicate Absent(h: Hash, d: Disk, c: Bytes) {
    forall b :: !Holds(h, d, Blake(h, c), b)
  }

  ghost predicate PutReady(h: Hash, max: nat, a: At, c: Bytes, side: Bytes) {
    && Running(h, a) && max < U64 && |c| < U32 && Absent(h, a.d, c) && SideOf(h, side, a.d.dat[a.top])
  }

  lemma SurvivingIsPrefix(a: At)
    requires IsTop(a.d, a.top) && Synced(a.d) && SealedSynced(a.d, a.top)
    ensures Surviving(a) <= Appended(a)
    ensures a.d.synced[a.top] == |a.d.dat[a.top]| ==> Surviving(a) == Appended(a)
  {
    forall id | id in a.d.dat && (id != a.top || a.d.synced[id] == |a.d.dat[id]|) ensures Durable(a.d).dat[id] == a.d.dat[id] {
      assert a.d.dat[id][..|a.d.dat[id]|] == a.d.dat[id];
    }
    CutIsPrefix(Durable(a.d), a.d, a.top);
    if a.d.synced[a.top] == |a.d.dat[a.top]| { SameBelow(Durable(a.d), a.d, a.top + 1); }
  }

  lemma SyncOrder(a: At)
    requires IsTop(a.d, a.top) && Synced(a.d) && SealedSynced(a.d, a.top)
    ensures Appended(Sealing1(a)) == Appended(a) == Surviving(Sealing1(a))
  {
    SameBelow(Sealing1(a).d, a.d, a.top + 1);
    SurvivingIsPrefix(Sealing1(a));
  }

  /** Writes that change no segment file change no order. */
  lemma SideOrder(a: At, side: Bytes)
    requires a.top in a.d.dat
    ensures Appended(Sealing2(a, side)) == Appended(Sealing1(a)) && Surviving(Sealing2(a, side)) == Surviving(Sealing1(a))
  {
    SameBelow(Sealing2(a, side).d, Sealing1(a).d, a.top + 1);
    SameBelow(Durable(Sealing2(a, side).d), Durable(Sealing1(a).d), a.top + 1);
  }

  lemma NewOrder(a: At)
    requires IsTop(a.d, a.top) && Synced(a.d)
    ensures var m := At(NewFile(a.d, a.top + 1), a.top + 1);
            Appended(m) == Appended(a) && Surviving(m) == Surviving(a)
  {
    var m := At(NewFile(a.d, a.top + 1), a.top + 1);
    assert Records([]) == [];
    hide Records;
    SameBelow(m.d, a.d, a.top + 1);
    NewDurable(a.d, a.top + 1);
    hide Durable;
    EmptyOnTop(Durable(m.d), Durable(a.d), a.top + 1);
  }

  lemma NewDurable(d: Disk, id: nat)
    requires Synced(d) && id !in d.dat
    ensures var e := Durable(NewFile(d, id)).dat;
            && id in e && e[id] == []
            && (forall j :: j != id ==> (j in e <==> j in Durable(d).dat))
            && (forall j :: j != id && j in e ==> e[j] == Durable(d).dat[j])
  {}

  lemma EmptyOnTop(a: Disk, b: Disk, n: nat)
    requires forall id :: id < n ==> (id in a.dat <==> id in b.dat)
    requires forall id :: id < n && id in a.dat ==> a.dat[id] == b.dat[id]
    requires n in a.dat && a.dat[n] == []
    ensures AllRecords(a, n + 1) == AllRecords(b, n)
  {
    assert Records([]) == [];
    SameBelow(a, b, n);
  }

  lemma AppendOrder(a: At, c: Bytes)
    requires IsTop(a.d, a.top) && Synced(a.d) && Tail(a.d.dat[a.top]) == [] && |c| < U32
    ensures Appended(AppendAt(a, c)) == Appended(a) + [c] && Surviving(AppendAt(a, c)) == Surviving(a)
  {
    var m := AppendAt(a, c);
    AppendRecord(a.d.dat[a.top], c);
    AppendSurvives(a, c);
    hide Records, Frame, Durable;
    SameBelow(m.d, a.d, a.top);
  }

  lemma AppendSurvives(a: At, c: Bytes)
    requires a.top in a.d.dat && Synced(a.d)
    ensures Surviving(AppendAt(a, c)) == Surviving(a)
  {
    var m := AppendAt(a, c);
    hide Records, Frame;
    assert m.d.dat[a.top][..a.d.synced[a.top]] == a.d.dat[a.top][..a.d.synced[a.top]];
    assert Durable(m.d).dat == Durable(a.d).dat;
    SameBelow(Durable(m.d), Durable(a.d), a.top + 1);
  }

  /** The parts of being in use that concern order alone. */
  lemma RunningFacts(h: Hash, a: At)
    requires Running(h, a)
    ensures IsTop(a.d, a.top) && Synced(a.d) && SealedSynced(a.d, a.top) && Tail(a.d.dat[a.top]) == [] && FileOk(h, a.d.dat[a.top])
  {
    assert FileOk(h, a.d.dat[a.top]);
  }

  lemma SealRunning(h: Hash, a: At, side: Bytes)
    requires a.top in a.d.dat && Running(h, a) && SideOf(h, side, a.d.dat[a.top])
    ensures Running(h, Sealing1(a)) && Running(h, Sealing2(a, side)) && Running(h, Sealed(a, side))
  {
    hide DiskOk;
    SyncRunning(h, a);
    SideRunning(h, Sealing1(a), side);
    NewRunning(h, Sealing2(a, side));
  }

  lemma SealAbsent(h: Hash, a: At, side: Bytes, c: Bytes)
    requires IsTop(a.d, a.top) && Absent(h, a.d, c)
    ensures Absent(h, Sealed(a, side).d, c)
  {
    assert Records([]) == [];
    forall b ensures !Holds(h, Sealed(a, side).d, Blake(h, c), b) {
      assert !Holds(h, a.d, Blake(h, c), b);
    }
  }

  /** A stage of a put: in order, with nothing or the one new record appended. */
  ghost predicate PutStage(h: Hash, a: At, c: Bytes, m: At, done: bool) {
    && Running(h, m)
    && Appended(m) == Appended(a) + (if done then [c] else [])
    && Surviving(a) <= Surviving(m) <= Appended(m)
  }

  lemma SealOrder(a: At, side: Bytes)
    requires IsTop(a.d, a.top) && Synced(a.d) && SealedSynced(a.d, a.top)
    ensures forall m :: m in {Sealing1(a), Sealing2(a, side), Sealed(a, side)} ==>
              Appended(m) == Appended(a) == Surviving(m)
  {
    SyncOrder(a);
    SideOrder(a, side);
    NewOrder(Sealing2(a, side));
  }

  lemma SealStage(h: Hash, a: At, c: Bytes, side: Bytes, m: At)
    requires Running(h, a) && SideOf(h, side, a.d.dat[a.top]) && m in {Sealing1(a), Sealing2(a, side), Sealed(a, side)}
    ensures PutStage(h, a, c, m, false)
  {
    hide DiskOk;
    RunningFacts(h, a);
    SealRunning(h, a, side);
    SealOrder(a, side);
    SurvivingIsPrefix(a);
  }

  lemma AppendStage(h: Hash, a: At, c: Bytes)
    requires Running(h, a) && Absent(h, a.d, c) && |c| < U32 && |a.d.dat[a.top]| + 4 + |c| < U64
    ensures PutStage(h, a, c, AppendAt(a, c), true)
  {
    hide DiskOk;
    RunningFacts(h, a);
    AppendRunning(h, a, c);
    AppendOrder(a, c);
    SurvivingIsPrefix(a);
  }

  lemma StageAfterSeal(h: Hash, a: At, c: Bytes, m: At, m': At)
    requires PutStage(h, a, c, m, false) && PutStage(h, m, c, m', true)
    ensures PutStage(h, a, c, m', true)
  {
    hide Running, Appended, Surviving;
  }

  /** Every write of a put leaves the directory in order, with the record
      appended only by the last one. */
  lemma PutStages(h: Hash, max: nat, a: At, c: Bytes, side: Bytes, k: nat)
    requires PutReady(h, max, a, c, side) && k < |PutTrace(max, a, c, side)|
    ensures PutStage(h, a, c, PutTrace(max, a, c, side)[k], k == |PutTrace(max, a, c, side)| - 1)
  {
    hide DiskOk, Running, Absent, PutStage, SideOf;
    RunningFacts(h, a);
    if Rolls(max, a.d.dat[a.top], c) {
      SealStage(h, a, c, side, Sealed(a, side));
      if k == 3 {
        SealAbsent(h, a, side, c);
        SealRunning(h, a, side);
        AppendStage(h, Sealed(a, side), c);
        StageAfterSeal(h, a, c, Sealed(a, side), AppendAt(Sealed(a, side), c));
      } else {
        SealStage(h, a, c, side, PutTrace(max, a, c, side)[k]);
      }
    } else {
      AppendStage(h, a, c);
    }
  }

  // ---- runs ----

  /** A store somewhere in a run: its directory, the records appended so far in
      order, and how many of them precede the last sync. */
  datatype Run = Run(at: At, appended: seq<Bytes>, durable: nat)

  datatype Event =
    | Put(c: Bytes, side: Bytes)
    | Sync
    | CrashIdle(left: Disk)
    | CrashInPut(c: Bytes, side: Bytes, k: nat, left: Disk)

  ghost predicate Step(h: Hash, max: nat, r: Run, e: Event, r': Run) {
    r.at.top in r.at.d.dat &&
    match e
    case Put(c, side) =>
      if !Absent(h, r.at.d, c) then r' == r
      else
        && PutReady(h, max, r.at, c, side)
        && r' == Run(LastAt(max, r.at, c, side), r.appended + [c], r.durable)
    case Sync => r' == Run(Sealing1(r.at), r.appended, |r.appended|)
    case CrashIdle(left) => CrashTo(h, r.at, left, r')
    case CrashInPut(c, side, k, left) =>
      && PutReady(h, max, r.at, c, side)
      && k < |PutTrace(max, r.at, c, side)|
      && CrashTo(h, PutTrace(max, r.at, c, side)[k], left, r')
  }

  /** Where a completed put leaves the directory. */
  function LastAt(max: nat, a: At, c: Bytes, side: Bytes): At
    requires a.top in a.d.dat
  {
    PutTrace(max, a, c, side)[|PutTrace(max, a, c, side)| - 1]
  }

  /** A crash at `m` left `left`, and the store was opened again. */
  ghost predicate CrashTo(h: Hash, m: At, left: Disk, r': Run) {
    && Crash(h, m.d, left) && m.top in left.dat
    && r'.at == At(OpenDisk(h, left, m.top), m.top)
    && r'.appended == Appended(r'.at) && r'.durable == |r'.appended|
  }

  ghost predicate RunOk(h: Hash, r: Run) {
    Running(h, r.at) && Appended(r.at) == r.appended && r.durable <= |Surviving(r.at)|
  }

  /** Recovery from a crash anywhere: a prefix of the append order that holds
      everything sure to survive. */
  lemma CrashRecovers(h: Hash, m: At, left: Disk, r': Run)
    requires Running(h, m) && CrashTo(h, m, left, r')
    ensures RunOk(h, r') && Surviving(m) <= r'.appended <= Appended(m)
  {
    CrashIsPrefix(h, m, left);
    CrashKeeps(h, m.d, m.top, left);
    OpenRunning(h, left, m.top);
    SurvivingIsPrefix(r'.at);
  }

  /** What was recovered is a prefix of what was appended (and perhaps the record
      of an interrupted put) and holds all that was put before the last sync. */
  ghost predicate Recovered(r: Run, interrupted: seq<Bytes>, r': Run) {
    && r.durable <= |r.appended|
    && r.appended[..r.durable] <= r'.appended <= r.appended + interrupted
  }

  lemma Sandwich(appended: seq<Bytes>, surviving: seq<Bytes>, left: seq<Bytes>, extra: seq<Bytes>, durable: nat)
    requires durable <= |surviving| && surviving <= appended && surviving <= left <= appended + extra
    ensures appended[..durable] <= left
  {
  }

  lemma StageCrash(h: Hash, r: Run, c: Bytes, m: At, done: bool, left: Disk, r': Run)
    requires RunOk(h, r) && PutStage(h, r.at, c, m, done) && CrashTo(h, m, left, r')
    ensures RunOk(h, r') && Recovered(r, [c], r')
  {
    hide DiskOk, AllRecords;
    RunningFacts(h, r.at);
    SurvivingIsPrefix(r.at);
    CrashRecovers(h, m, left, r');
    Sandwich(r.appended, Surviving(r.at), r'.appended, [c], r.durable);
  }

  lemma PutCrash(h: Hash, max: nat, r: Run, c: Bytes, side: Bytes, k: nat, left: Disk, r': Run)
    requires RunOk(h, r) && PutReady(h, max, r.at, c, side) && k < |PutTrace(max, r.at, c, side)|
    requires CrashTo(h, PutTrace(max, r.at, c, side)[k], left, r')
    ensures RunOk(h, r') && Recovered(r, [c], r')
  {
    hide Running, PutStage, CrashTo, Recovered;
    RunningFacts(h, r.at);
    PutStages(h, max, r.at, c, side, k);
    StageCrash(h, r, c, PutTrace(max, r.at, c, side)[k], k == |PutTrace(max, r.at, c, side)| - 1, left, r');
  }

  lemma IdleCrash(h: Hash, r: Run, left: Disk, r': Run)
    requires RunOk(h, r) && CrashTo(h, r.at, left, r')
    ensures RunOk(h, r') && Recovered(r, [], r')
  {
    hide DiskOk, AllRecords;
    RunningFacts(h, r.at);
    SurvivingIsPrefix(r.at);
    CrashRecovers(h, r.at, left, r');
    assert r.appended + [] == r.appended;
    Sandwich(r.appended, Surviving(r.at), r'.appended, [], r.durable);
  }

  /** Every event keeps the run in order, and a crash recovers what it must. */
  lemma StepKeeps(h: Hash, max: nat, r: Run, e: Event, r': Run)
    requires RunOk(h, r) && Step(h, max, r, e, r')
    ensures RunOk(h, r')
    ensures e.CrashIdle? ==> Recovered(r, [], r')
    ensures e.CrashInPut? ==> Recovered(r, [e.c], r')
  {
    hide DiskOk, AllRecords;
    RunningFacts(h, r.at);
    match e
    case Put(c, side) =>
      if Absent(h, r.at.d, c) {
        PutStages(h, max, r.at, c, side, |PutTrace(max, r.at, c, side)| - 1);
      }
    case Sync =>
      SyncRunning(h, r.at);
      SyncOrder(r.at);
    case CrashIdle(left) => IdleCrash(h, r, left, r');
    case CrashInPut(c, side, k, left) => PutCrash(h, max, r, c, side, k, left, r');
  }

  const START: Run := Run(At(Disk(map[0 := []], map[0 := 0], map[]), 0), [], 0)

  ghost predicate IsRun(h: Hash, max: nat, rs: seq<Run>, es: seq<Event>) {
    && |rs| == |es| + 1 && rs[0] == START
    && forall i :: 0 <= i < |es| ==> Step(h, max, rs[i], es[i], rs[i + 1])
  }

  lemma StartOk(h: Hash)
    ensures RunOk(h, START)
  {
    assert Records([]) == [];
    assert AllRecords(START.at.d, 1) == AllRecords(START.at.d, 0) + Records([]);
    assert Tail([]) == [];
  }

  /** Over every run from an empty store: the directory is in order after every
      event, its records are exactly the accepted puts in order (a recovered
      prefix of them after a crash), and what precedes the last sync survives. */
  lemma {:induction false} EveryRunRecovers(h: Hash, max: nat, rs: seq<Run>, es: seq<Event>, i: nat)
    requires IsRun(h, max, rs, es) && i < |rs|
    ensures RunOk(h, rs[i])
  {
    hide RunOk, Step;
    if i == 0 {
      StartOk(h);
    } else {
      EveryRunRecovers(h, max, rs, es, i - 1);
      assert Step(h, max, rs[i - 1], es[i - 1], rs[i - 1 + 1]);
      StepKeeps(h, max, rs[i - 1], es[i - 1], rs[i]);
    }
  }
}
