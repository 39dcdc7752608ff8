/** Compaction: what survives a crash at each of its writes, and exactly when
    (rust/nedb-v2/src/segment.rs). */
module SegmentCompaction {
  import opened Hashing
  import opened SegmentFormat
  import opened SegmentDisk
  import opened SegmentSteps

  // ---- what a crash cannot take ----

  /** A record of hash x is synced in this segment. */
  ghost predicate DurableIn(h: Hash, d: Disk, id: nat, x: Digest) {
    id in d.dat && id in d.synced && d.synced[id] <= |d.dat[id]|
    && exists c :: c in Records(d.dat[id][..d.synced[id]]) && Blake(h, c) == x
  }

  /** The segment's sidecar, if it is usable, lists hash x. */
  ghost predicate SidecarLists(h: Hash, d: Disk, id: nat, x: Digest) {
    Loadable(h, d, id) ==> exists e :: e in LoadIdx(h, d.idx[id]).value && e.hash == x
  }

  /** A synced record of hash x stands in a segment whose sidecar does not hide it. */
  ghost predicate SafeSealed(h: Hash, d: Disk, x: Digest) {
    exists id :: DurableIn(h, d, id, x) && SidecarLists(h, d, id, x)
  }

  /** The same, where the active segment is scanned whatever its sidecar says. */
  ghost predicate Safe(h: Hash, d: Disk, top: nat, x: Digest) {
    exists id :: DurableIn(h, d, id, x) && (id == top || SidecarLists(h, d, id, x))
  }

  lemma DurableEntry(h: Hash, d: Disk, top: nat, d': Disk, id: nat, x: Digest) returns (e: Entry)
    requires Base(h, d, top) && Crash(h, d, d') && DurableIn(h, d, id, x)
    ensures e in ScanList(h, d'.dat[id]) && e.hash == x
  {
    hide Coherent;
    var c :| c in Records(d.dat[id][..d.synced[id]]) && Blake(h, c) == x;
    CrashCuts(h, d, top, d', id);
    e := RecordListed(h, d'.dat[id], c);
  }

  /** What open lists of a segment is in the opened index. */
  lemma ListedOpens(h: Hash, d: Disk, top: nat, id: nat, e: Entry)
    requires id in d.dat && id <= top && e in OpenList(h, d, top, id)
    ensures e.hash in OpenIndex(h, d, top)
  {
    hide OpenList;
    var lists := OpenLists(h, d, top);
    assert id in lists && e in lists[id];
    GatherMeans(lists, top + 1, e.hash);
  }

  lemma SurvivorListed(h: Hash, d: Disk, top: nat, d': Disk, id: nat, x: Digest) returns (e: Entry)
    requires Base(h, d, top) && Crash(h, d, d') && DurableIn(h, d, id, x) && (id == top || SidecarLists(h, d, id, x))
    ensures id in d'.dat && id <= top && e in OpenList(h, d', top, id) && e.hash == x
  {
    hide Coherent, Sound, FilesOk, DurableIn;
    assert id in d.dat by { DurableInFile(h, d, id, x); }
    e := DurableEntry(h, d, top, d', id, x);
    if id != top && Loadable(h, d', id) {
      e :| e in LoadIdx(h, d.idx[id]).value && e.hash == x;
    }
  }

  lemma DurableInFile(h: Hash, d: Disk, id: nat, x: Digest)
    requires DurableIn(h, d, id, x)
    ensures id in d.dat
  {}

  /** Whatever a crash leaves, a safe hash is listed when the store is opened. */
  lemma SafeListed(h: Hash, d: Disk, top: nat, d': Disk, x: Digest)
    requires Base(h, d, top) && Crash(h, d, d') && Safe(h, d, top, x)
    ensures x in OpenIndex(h, d', top)
  {
    hide Base, Crash, DurableIn, SidecarLists, OpenIndex, OpenList;
    var id :| DurableIn(h, d, id, x) && (id == top || SidecarLists(h, d, id, x));
    var e := SurvivorListed(h, d, top, d', id, x);
    ListedOpens(h, d', top, id, e);
  }

  /** ... and reads back its one content. */
  lemma SafeReads(h: Hash, d: Disk, top: nat, d': Disk, x: Digest, c: Bytes)
    requires Base(h, d, top) && Crash(h, d, d') && Safe(h, d, top, x) && Holds(h, d, x, c)
    ensures x in OpenIndex(h, d', top) && ReadAt(d', OpenIndex(h, d', top)[x]) == Some(c)
  {
    SafeListed(h, d, top, d', x);
    CrashKeepsBase(h, d, top, d');
    var c' := OpenReads(h, d', top, x);
    CrashHolds(h, d, top, d', x, c');
    HoldsOne(h, d, x, c, c');
  }

  /** The crash that takes everything it can. */
  function WorstCrash(d: Disk): Disk {
    var cut := Durable(d).dat;
    Disk(cut, map id | id in cut :: |cut[id]|, d.idx)
  }

  lemma WorstIsCrash(h: Hash, d: Disk)
    requires Synced(d)
    ensures Crash(h, d, WorstCrash(d))
  {
  }

  lemma LostUnlessSafe(h: Hash, d: Disk, top: nat, x: Digest)
    requires Base(h, d, top) && x in OpenIndex(h, WorstCrash(NewFile(d, top + 1)), top + 1)
    ensures SafeSealed(h, d, x)
  {
    hide Coherent, FilesOk;
    var d' := WorstCrash(NewFile(d, top + 1));
    var id, e := GatherFrom(OpenLists(h, d', top + 1), top + 2, x);
    assert Records([]) == [];
    assert id != top + 1;
    assert d'.dat[id] == d.dat[id][..d.synced[id]];
    assert Loadable(h, d', id) <==> Loadable(h, d, id);
    assert SidecarSound(h, d, id);
    assert e in ScanList(h, d.dat[id][..d.synced[id]]);
    var c := EntryPoints(h, d.dat[id][..d.synced[id]], e);
    assert DurableIn(h, d, id, x) && SidecarLists(h, d, id, x);
  }

  /** A crash right after compaction created its first segment may leave this. */
  ghost predicate FirstWriteCrash(h: Hash, d: Disk, top: nat, left: Disk) {
    Crash(h, NewFile(d, top + 1), left)
  }

  /** Exactly when the first write of a compaction is crash-safe for a hash: it
      turns the active segment into a sealed one without sealing it, so a sidecar
      left over from an interrupted sealing must not hide the hash. */
  lemma FirstWriteSafe(h: Hash, d: Disk, top: nat, x: Digest)
    requires Base(h, d, top)
    ensures (forall left :: FirstWriteCrash(h, d, top, left) ==> x in OpenIndex(h, left, top + 1)) <==> SafeSealed(h, d, x)
  {
    hide Coherent, FilesOk, Sound;
    var d1 := NewFile(d, top + 1);
    NewBase(h, d, top);
    SoundSynced(h, d1);
    WorstIsCrash(h, d1);
    assert FirstWriteCrash(h, d, top, WorstCrash(d1));
    if forall left :: FirstWriteCrash(h, d, top, left) ==> x in OpenIndex(h, left, top + 1) {
      LostUnlessSafe(h, d, top, x);
    }
    if SafeSealed(h, d, x) {
      NewSafe(h, d, top + 1, x);
      forall left | FirstWriteCrash(h, d, top, left) ensures x in OpenIndex(h, left, top + 1) {
        SafeListed(h, d1, top + 1, left, x);
      }
    }
  }

  lemma SoundSynced(h: Hash, d: Disk)
    requires Sound(h, d)
    ensures Synced(d)
  {}

  lemma NewSafe(h: Hash, d: Disk, id: nat, x: Digest)
    requires id !in d.dat && SafeSealed(h, d, x)
    ensures SafeSealed(h, NewFile(d, id), x) && Safe(h, NewFile(d, id), id, x)
  {
    var j :| DurableIn(h, d, j, x) && SidecarLists(h, d, j, x);
    assert DurableIn(h, NewFile(d, id), j, x) && SidecarLists(h, NewFile(d, id), j, x);
  }

  // ---- the copying phase ----

  /** The old segments and their sidecars are as they were. */
  ghost predicate OldKept(d0: Disk, top0: nat, d: Disk) {
    && (forall id :: id <= top0 ==> (id in d.dat <==> id in d0.dat) && (id in d.synced <==> id in d0.synced))
    && (forall id :: id <= top0 && id in d0.dat ==> d.dat[id] == d0.dat[id])
    && (forall id :: id <= top0 && id in d0.synced ==> d.synced[id] == d0.synced[id])
    && (forall id :: id <= top0 ==> (id in d.idx <==> id in d0.idx))
    && (forall id :: id <= top0 && id in d0.idx ==> d.idx[id] == d0.idx[id])
  }

  /** The new segments are whole, and sealed but for the last. */
  ghost predicate NewOk(h: Hash, top0: nat, m: At) {
    && (forall id :: top0 < id <= m.top ==> id in m.d.dat && Tail(m.d.dat[id]) == [])
    && (forall id :: top0 < id < m.top && id in m.d.synced && id in m.d.dat ==> m.d.synced[id] == |m.d.dat[id]|)
    && (forall id {:trigger SidecarFull(h, m.d, id)} :: top0 < id < m.top ==> SidecarFull(h, m.d, id))
  }

  ghost predicate Copying(h: Hash, d0: Disk, top0: nat, m: At) {
    m.top > top0 && Base(h, m.d, m.top) && OldKept(d0, top0, m.d) && NewOk(h, top0, m)
  }

  /** Copying loses nothing that was safe. */
  lemma CopyingSafe(h: Hash, d0: Disk, top0: nat, m: At, x: Digest)
    requires IsTop(d0, top0) && OldKept(d0, top0, m.d) && SafeSealed(h, d0, x)
    ensures Safe(h, m.d, m.top, x)
  {
    var id :| DurableIn(h, d0, id, x) && SidecarLists(h, d0, id, x);
    assert DurableIn(h, m.d, id, x) && SidecarLists(h, m.d, id, x);
  }

  function NewLists(h: Hash, d: Disk, top0: nat): Lists { map id | id in d.dat && id > top0 :: ScanList(h, d.dat[id]) }

  /** The index of the new segments alone. */
  function NewIndex(h: Hash, top0: nat, m: At): map<Digest, Loc> { Gather(NewLists(h, m.d, top0), m.top + 1) }

  lemma CopyStart(h: Hash, d0: Disk, top0: nat)
    requires Base(h, d0, top0)
    ensures var m := At(NewFile(d0, top0 + 1), top0 + 1);
            Copying(h, d0, top0, m) && NewIndex(h, top0, m) == map[]
  {
    hide Coherent, FilesOk, Sound;
    var m := At(NewFile(d0, top0 + 1), top0 + 1);
    NewBase(h, d0, top0);
    assert Records([]) == [] && Tail([]) == [];
    GatherSkips(NewLists(h, m.d, top0), 0, top0 + 2);
  }

  lemma CopyTop(h: Hash, d0: Disk, top0: nat, m: At)
    requires Copying(h, d0, top0, m)
    ensures m.top in m.d.dat && m.top in m.d.synced && Tail(m.d.dat[m.top]) == [] && m.top > top0
    ensures Base(h, m.d, m.top) && Coherent(h, m.d) && OldKept(d0, top0, m.d) && NewOk(h, top0, m)
  {
    hide Coherent, FilesOk, OldKept;
  }

  lemma OldKeptAppend(d0: Disk, top0: nat, d: Disk, id: nat, c: Bytes)
    requires OldKept(d0, top0, d) && id > top0 && id in d.dat
    ensures OldKept(d0, top0, AppendFile(d, id, c))
  {
  }

  lemma NewOkAppend(h: Hash, top0: nat, m: At, c: Bytes)
    requires NewOk(h, top0, m) && m.top > top0 && m.top in m.d.dat && |c| < U32
    ensures NewOk(h, top0, At(AppendFile(m.d, m.top, c), m.top))
  {
    var d' := AppendFile(m.d, m.top, c);
    AppendRecord(m.d.dat[m.top], c);
    forall id | top0 < id < m.top ensures SidecarFull(h, d', id) {
      assert SidecarFull(h, m.d, id);
      FullKeeps(h, m.d, d', id);
    }
  }

  lemma CopyAppend(h: Hash, d0: Disk, top0: nat, m: At, c: Bytes)
    requires Copying(h, d0, top0, m) && IsTop(d0, top0) && m.top in m.d.dat
    requires Holds(h, d0, Blake(h, c), c) && |c| < U32 && |m.d.dat[m.top]| + 4 + |c| < U64
    requires Blake(h, c) !in NewIndex(h, top0, m)
    ensures Copying(h, d0, top0, At(AppendFile(m.d, m.top, c), m.top))
  {
    hide Base, OldKept, NewOk;
    CopyTop(h, d0, top0, m);
    CopyFresh(h, top0, m, c);
    CopyHolds(h, d0, top0, m, c);
    AppendBase(h, m.d, m.top, c);
    OldKeptAppend(d0, top0, m.d, m.top, c);
    NewOkAppend(h, top0, m, c);
  }

  lemma CopyFresh(h: Hash, top0: nat, m: At, c: Bytes)
    requires m.top in m.d.dat && m.top > top0 && Blake(h, c) !in NewIndex(h, top0, m)
    ensures forall e :: e in ScanList(h, m.d.dat[m.top]) ==> e.hash != Blake(h, c)
  {
    hide ScanList;
    var lists := NewLists(h, m.d, top0);
    GatherMeans(lists, m.top + 1, Blake(h, c));
    forall e | e in ScanList(h, m.d.dat[m.top]) ensures e.hash != Blake(h, c) {
      assert m.top in lists && e in lists[m.top];
    }
  }

  lemma CopyHolds(h: Hash, d0: Disk, top0: nat, m: At, c: Bytes)
    requires IsTop(d0, top0) && OldKept(d0, top0, m.d) && Coherent(h, m.d) && Holds(h, d0, Blake(h, c), c)
    ensures forall b :: Holds(h, m.d, Blake(h, c), b) ==> b == c
  {
    var id :| id in d0.dat && c in Records(d0.dat[id]);
    assert Holds(h, m.d, Blake(h, c), c);
    forall b | Holds(h, m.d, Blake(h, c), b) ensures b == c {
      HoldsOne(h, m.d, Blake(h, c), b, c);
    }
  }

  lemma GatherAppend(a: Lists, b: Lists, n: nat, e: Entry)
    requires n in a && n in b && b[n] == a[n] + [e]
    requires forall id :: id < n ==> (id in a <==> id in b) && (id in a ==> a[id] == b[id])
    ensures Gather(b, n + 1) == Gather(a, n + 1)[e.hash := Loc(n, e.off, e.len)]
  {
    GatherSame(b, a, n);
    LocatedAppend(n, a[n], e);
  }

  lemma CopyIndex(h: Hash, top0: nat, m: At, c: Bytes)
    requires m.top in m.d.dat && m.top > top0 && Tail(m.d.dat[m.top]) == [] && |c| < U32
    ensures NewIndex(h, top0, At(AppendFile(m.d, m.top, c), m.top))
         == NewIndex(h, top0, m)[Blake(h, c) := Loc(m.top, |m.d.dat[m.top]| + 4, |c|)]
  {
    AppendScan(h, m.d.dat[m.top], c);
    GatherAppend(NewLists(h, m.d, top0), NewLists(h, AppendFile(m.d, m.top, c), top0), m.top,
                 Entry(Blake(h, c), |m.d.dat[m.top]| + 4, |c|));
  }

  lemma LocatedAppend(id: nat, es: seq<Entry>, e: Entry)
    ensures Located(id, es + [e]) == Located(id, es)[e.hash := Loc(id, e.off, e.len)]
  {
    assert (es + [e])[..|es|] == es;
  }

  /** Rewriting the sync mark and the sidecar of the last new segment. */
  lemma NewOkTop(h: Hash, top0: nat, m: At, d: Disk)
    requires NewOk(h, top0, m) && m.top > top0 && d.dat == m.d.dat
    requires forall id :: id != m.top ==> (id in d.synced <==> id in m.d.synced) && (id in d.synced ==> d.synced[id] == m.d.synced[id])
    requires forall id :: id != m.top && id in d.idx ==> id in m.d.idx && d.idx[id] == m.d.idx[id]
    ensures NewOk(h, top0, At(d, m.top))
  {
    hide SidecarFull;
    forall id | top0 < id < m.top ensures SidecarFull(h, d, id) {
      assert SidecarFull(h, m.d, id);
      FullKeeps(h, m.d, d, id);
    }
  }

  lemma OldKeptTop(d0: Disk, top0: nat, m: At, d: Disk)
    requires OldKept(d0, top0, m.d) && m.top > top0 && d.dat == m.d.dat
    requires forall id :: id != m.top ==> (id in d.synced <==> id in m.d.synced) && (id in d.synced ==> d.synced[id] == m.d.synced[id])
    requires forall id :: id != m.top ==> (id in d.idx <==> id in m.d.idx) && (id in d.idx ==> d.idx[id] == m.d.idx[id])
    ensures OldKept(d0, top0, d)
  {
  }

  lemma CopySync(h: Hash, d0: Disk, top0: nat, m: At)
    requires Copying(h, d0, top0, m) && m.top in m.d.dat
    ensures Copying(h, d0, top0, At(SyncFile(m.d, m.top), m.top))
  {
    hide Base, OldKept, NewOk, Coherent;
    CopyTop(h, d0, top0, m);
    SyncBase(h, m.d, m.top, m.top);
    NewOkTop(h, top0, m, SyncFile(m.d, m.top));
    OldKeptTop(d0, top0, m, SyncFile(m.d, m.top));
  }

  lemma CopySide(h: Hash, d0: Disk, top0: nat, m: At, side: Bytes)
    requires Copying(h, d0, top0, m) && m.top in m.d.dat && m.top in m.d.synced && m.d.synced[m.top] == |m.d.dat[m.top]|
    requires SideOf(h, side, m.d.dat[m.top])
    ensures Copying(h, d0, top0, At(WriteSide(m.d, m.top, side), m.top))
    ensures SidecarFull(h, WriteSide(m.d, m.top, side), m.top)
  {
    hide Base, OldKept, NewOk, Coherent, SideOf, SidecarFull;
    CopyTop(h, d0, top0, m);
    SideBase(h, m.d, m.top, m.top, side);
    NewOkTop(h, top0, m, WriteSide(m.d, m.top, side));
    OldKeptTop(d0, top0, m, WriteSide(m.d, m.top, side));
  }

  lemma OldKeptNew(d0: Disk, top0: nat, d: Disk, id: nat)
    requires OldKept(d0, top0, d) && id > top0
    ensures OldKept(d0, top0, NewFile(d, id))
  {
  }

  lemma FullNewFile(h: Hash, d: Disk, id: nat, j: nat)
    requires j != id && j in d.dat && SidecarFull(h, d, j)
    ensures SidecarFull(h, NewFile(d, id), j)
  {
    FullKeeps(h, d, NewFile(d, id), j);
  }

  lemma NewOkNew(h: Hash, top0: nat, m: At)
    requires NewOk(h, top0, m) && m.top in m.d.dat && m.top in m.d.synced && m.d.synced[m.top] == |m.d.dat[m.top]|
    requires SidecarFull(h, m.d, m.top)
    ensures NewOk(h, top0, At(NewFile(m.d, m.top + 1), m.top + 1))
  {
    hide SidecarFull;
    var d' := NewFile(m.d, m.top + 1);
    assert Tail([]) == [];
    forall id | top0 < id <= m.top ensures SidecarFull(h, d', id) {
      assert SidecarFull(h, m.d, id);
      FullNewFile(h, m.d, m.top + 1, id);
    }
  }

  lemma CopyNew(h: Hash, d0: Disk, top0: nat, m: At)
    requires Copying(h, d0, top0, m) && m.top in m.d.dat && m.top in m.d.synced && m.d.synced[m.top] == |m.d.dat[m.top]|
    requires SidecarFull(h, m.d, m.top)
    ensures Copying(h, d0, top0, At(NewFile(m.d, m.top + 1), m.top + 1))
  {
    hide Base, OldKept, NewOk, SidecarFull;
    CopyTop(h, d0, top0, m);
    NewBase(h, m.d, m.top);
    OldKeptNew(d0, top0, m.d, m.top + 1);
    NewOkNew(h, top0, m);
  }

  lemma EmptyList(h: Hash)
    ensures ScanList(h, []) == []
  {
    assert Records([]) == [];
  }

  lemma GatherEmptyTop(a: Lists, b: Lists, n: nat)
    requires n in b ==> b[n] == []
    requires forall id :: id < n ==> (id in a <==> id in b) && (id in a ==> a[id] == b[id])
    ensures Gather(b, n + 1) == Gather(a, n)
  {
    GatherSkips(b, n, n + 1);
    GatherSame(b, a, n);
  }

  /** A segment file that is opened empty, and sealing, leave the index alone. */
  lemma NewIndexKeeps(h: Hash, top0: nat, m: At, side: Bytes)
    requires m.top in m.d.dat && m.top > top0
    ensures var d3 := NewFile(WriteSide(SyncFile(m.d, m.top), m.top, side), m.top + 1);
            NewIndex(h, top0, At(d3, m.top + 1)) == NewIndex(h, top0, m)
  {
    hide NewIndex;
    NewIndexEmpty(h, top0, m, NewFile(WriteSide(SyncFile(m.d, m.top), m.top, side), m.top + 1));
  }

  lemma NewIndexEmpty(h: Hash, top0: nat, m: At, d3: Disk)
    requires d3.dat == m.d.dat[m.top + 1 := []]
    ensures NewIndex(h, top0, At(d3, m.top + 1)) == NewIndex(h, top0, m)
  {
    hide NewLists, Gather, Located;
    ListsOfNew(h, m.d, d3, top0, m.top);
    GatherEmptyTop(NewLists(h, m.d, top0), NewLists(h, d3, top0), m.top + 1);
  }

  lemma ListsOfNew(h: Hash, d: Disk, d3: Disk, top0: nat, top: nat)
    requires d3.dat == d.dat[top + 1 := []]
    ensures top + 1 in NewLists(h, d3, top0) ==> NewLists(h, d3, top0)[top + 1] == []
    ensures forall id :: id < top + 1 ==>
              (id in NewLists(h, d, top0) <==> id in NewLists(h, d3, top0))
              && (id in NewLists(h, d, top0) ==> NewLists(h, d, top0)[id] == NewLists(h, d3, top0)[id])
  {
    EmptyList(h);
    hide ScanList;
  }

  /** Sealing the last new segment and opening the next. */
  lemma CopySeal(h: Hash, d0: Disk, top0: nat, m: At, side: Bytes)
    requires Copying(h, d0, top0, m) && m.top in m.d.dat && SideOf(h, side, m.d.dat[m.top])
    ensures var m1 := At(SyncFile(m.d, m.top), m.top);
            var m2 := At(WriteSide(m1.d, m.top, side), m.top);
            var m3 := At(NewFile(m2.d, m.top + 1), m.top + 1);
            Copying(h, d0, top0, m1) && Copying(h, d0, top0, m2) && Copying(h, d0, top0, m3)
  {
    hide Copying, SideOf, SidecarFull;
    CopySync(h, d0, top0, m);
    var m1 := At(SyncFile(m.d, m.top), m.top);
    CopyTop(h, d0, top0, m1);
    CopySide(h, d0, top0, m1, side);
    var m2 := At(WriteSide(m1.d, m.top, side), m.top);
    CopyTop(h, d0, top0, m2);
    CopyNew(h, d0, top0, m2);
  }

  // ---- the deleting phase ----

  /** The new segments are durable; of the old ones and their sidecars any part
      may be gone. */
  ghost predicate Deleting(h: Hash, top0: nat, m: At) {
    && m.top > top0 && Base(h, m.d, m.top) && NewOk(h, top0, m)
    && m.top in m.d.synced && m.d.synced[m.top] == |m.d.dat[m.top]|
  }

  datatype FileName = Dat(id: nat) | Idx(id: nat)

  function Remove(d: Disk, f: FileName): Disk {
    match f
    case Dat(id) => Disk(d.dat - {id}, d.synced - {id}, d.idx)
    case Idx(id) => Disk(d.dat, d.synced, d.idx - {id})
  }

  lemma RemoveSound(h: Hash, d: Disk, f: FileName)
    requires Sound(h, d)
    ensures Sound(h, Remove(d, f))
  {
    forall id | id in Remove(d, f).dat ensures SidecarSound(h, Remove(d, f), id) {
      assert SidecarSound(h, d, id);
    }
  }

  lemma RemoveBase(h: Hash, d: Disk, top: nat, f: FileName)
    requires Base(h, d, top) && f.id < top
    ensures Base(h, Remove(d, f), top)
  {
    hide Sound, FilesOk, Coherent, Loadable;
    BaseParts(h, d, top);
    var d' := Remove(d, f);
    RemoveSound(h, d, f);
    RemoveFiles(h, d, f);
    CrashCoherent(h, d, d');
    RemoveNoStray(h, d, top, f);
  }

  lemma BaseParts(h: Hash, d: Disk, top: nat)
    requires Base(h, d, top)
    ensures Sound(h, d) && FilesOk(h, d) && Coherent(h, d) && NoStray(h, d, top) && IsTop(d, top)
  {}

  lemma RemoveFiles(h: Hash, d: Disk, f: FileName)
    requires FilesOk(h, d)
    ensures FilesOk(h, Remove(d, f))
  {
    hide FileOk;
    forall id | id in Remove(d, f).dat ensures FileOk(h, Remove(d, f).dat[id]) { assert FileOk(h, d.dat[id]); }
  }

  lemma RemoveNoStray(h: Hash, d: Disk, top: nat, f: FileName)
    requires NoStray(h, d, top)
    ensures NoStray(h, Remove(d, f), top)
  {
    forall id: nat | Loadable(h, Remove(d, f), id) ensures id <= top { assert Loadable(h, d, id); }
  }

  lemma RemoveNewOk(h: Hash, top0: nat, m: At, f: FileName)
    requires NewOk(h, top0, m) && f.id <= top0
    ensures NewOk(h, top0, At(Remove(m.d, f), m.top))
  {
    hide SidecarFull;
    var d' := Remove(m.d, f);
    forall id | top0 < id < m.top ensures SidecarFull(h, d', id) {
      assert SidecarFull(h, m.d, id);
      FullKeeps(h, m.d, d', id);
    }
  }

  lemma RemoveIndex(h: Hash, top0: nat, m: At, f: FileName)
    requires f.id <= top0
    ensures NewIndex(h, top0, At(Remove(m.d, f), m.top)) == NewIndex(h, top0, m)
  {
    hide ScanList;
    assert NewLists(h, Remove(m.d, f), top0) == NewLists(h, m.d, top0);
  }

  lemma RemoveKeeps(h: Hash, top0: nat, m: At, f: FileName)
    requires Deleting(h, top0, m) && f.id <= top0
    ensures Deleting(h, top0, At(Remove(m.d, f), m.top))
    ensures NewIndex(h, top0, At(Remove(m.d, f), m.top)) == NewIndex(h, top0, m)
  {
    hide Base, NewOk, NewIndex, Sound, FilesOk, Coherent;
    BaseParts(h, m.d, m.top);
    RemoveBase(h, m.d, m.top, f);
    RemoveNewOk(h, top0, m, f);
    RemoveIndex(h, top0, m, f);
  }

  /** Everything copied is safe while the old files go. */
  lemma DeletingSafe(h: Hash, top0: nat, m: At, x: Digest)
    requires Deleting(h, top0, m) && x in NewIndex(h, top0, m)
    ensures Safe(h, m.d, m.top, x)
  {
    hide Base, NewOk, ScanList, Coherent, FilesOk, Sound, SidecarFull, Safe, SidecarLists, DurableIn;
    BaseParts(h, m.d, m.top);
    SoundSynced(h, m.d);
    var id, e := GatherFrom(NewLists(h, m.d, top0), m.top + 1, x);
    NewDurable(h, top0, m, id, e);
    if id != m.top { NewOkFull(h, top0, m, id, e); }
    assert Safe(h, m.d, m.top, x) by { SafeBy(h, m.d, m.top, id, x); }
  }

  lemma SafeBy(h: Hash, d: Disk, top: nat, id: nat, x: Digest)
    requires DurableIn(h, d, id, x) && (id == top || SidecarLists(h, d, id, x))
    ensures Safe(h, d, top, x)
  {
    hide DurableIn, SidecarLists;
  }

  lemma NewDurable(h: Hash, top0: nat, m: At, id: nat, e: Entry)
    requires NewOk(h, top0, m) && Synced(m.d) && top0 < id <= m.top && id in m.d.dat && e in ScanList(h, m.d.dat[id])
    requires m.top in m.d.synced && m.d.synced[m.top] == |m.d.dat[m.top]|
    ensures DurableIn(h, m.d, id, e.hash)
  {
    hide SidecarFull, ScanList;
    var c := EntryPoints(h, m.d.dat[id], e);
    assert m.d.dat[id][..m.d.synced[id]] == m.d.dat[id];
  }

  lemma NewOkFull(h: Hash, top0: nat, m: At, id: nat, e: Entry)
    requires NewOk(h, top0, m) && top0 < id < m.top && id in m.d.dat && e in ScanList(h, m.d.dat[id])
    ensures SidecarLists(h, m.d, id, e.hash)
  {
    hide Tail;
    assert SidecarFull(h, m.d, id);
  }

  lemma CopyDone(h: Hash, d0: Disk, top0: nat, m: At)
    requires Copying(h, d0, top0, m) && m.top in m.d.dat
    ensures var m' := At(SyncFile(m.d, m.top), m.top);
            Copying(h, d0, top0, m') && Deleting(h, top0, m') && NewIndex(h, top0, m') == NewIndex(h, top0, m)
  {
    hide Coherent, FilesOk, Sound;
    CopySync(h, d0, top0, m);
    assert NewLists(h, SyncFile(m.d, m.top), top0) == NewLists(h, m.d, top0);
  }

  /** With every old file gone the directory is in use, and its index is the
      index of the new segments. */
  lemma DeletedAll(h: Hash, top0: nat, m: At)
    requires Deleting(h, top0, m) && forall id :: id in m.d.dat ==> id > top0
    ensures DiskOk(h, m.d, m.top) && SealedSynced(m.d, m.top) && Tail(m.d.dat[m.top]) == []
    ensures ScanIndex(h, m.d, m.top + 1) == NewIndex(h, top0, m)
  {
    hide Coherent, FilesOk, Sound;
    assert ScanLists(h, m.d) == NewLists(h, m.d, top0);
    forall id | id in m.d.dat && id != m.top ensures SidecarFull(h, m.d, id) {
      assert top0 < id < m.top;
    }
  }
}
