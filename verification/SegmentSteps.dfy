/** The single writes the segment store makes, what each keeps, and crash
    recovery over every run (rust/nedb-v2/src/segment.rs). */
module SegmentSteps {
  import opened Hashing
  import opened SegmentFormat
  import opened SegmentDisk

  /** A directory and the id of its active segment. */
  datatype At = At(d: Disk, top: nat)

  // ---- single writes ----

  function SyncFile(d: Disk, id: nat): Disk
    requires id in d.dat
  {
    d.(synced := d.synced[id := |d.dat[id]|])
  }

  function WriteSide(d: Disk, id: nat, side: Bytes): Disk { d.(idx := d.idx[id := side]) }

  function NewFile(d: Disk, id: nat): Disk { d.(dat := d.dat[id := []], synced := d.synced[id := 0]) }

  function AppendFile(d: Disk, id: nat, c: Bytes): Disk
    requires id in d.dat
  {
    d.(dat := d.dat[id := d.dat[id] + Frame(c)])
  }

  /** A sidecar that lists exactly the records of a file. */
  ghost predicate SideOf(h: Hash, side: Bytes, f: Bytes) {
    LoadIdx(h, side).Some? && SameEntries(LoadIdx(h, side).value, ScanList(h, f))
  }

  // ---- what each write keeps ----

  lemma SyncSound(h: Hash, d: Disk, id: nat)
    requires Sound(h, d) && id in d.dat
    ensures Sound(h, SyncFile(d, id))
  {
    var d' := SyncFile(d, id);
    ScanListGrows(h, d.dat[id], d.synced[id], |d.dat[id]|);
    forall j | j in d'.dat ensures SidecarSound(h, d', j) {
      assert SidecarSound(h, d, j);
    }
  }

  lemma SyncBase(h: Hash, d: Disk, top: nat, id: nat)
    requires Base(h, d, top) && id in d.dat
    ensures Base(h, SyncFile(d, id), top)
  {
    SyncSound(h, d, id);
    forall j: nat | Loadable(h, SyncFile(d, id), j) ensures j <= top {
      assert Loadable(h, d, j);
    }
  }

  lemma SideSound(h: Hash, d: Disk, id: nat, side: Bytes)
    requires Sound(h, d) && id in d.dat && d.synced[id] == |d.dat[id]| && SideOf(h, side, d.dat[id])
    ensures Sound(h, WriteSide(d, id, side)) && SidecarFull(h, WriteSide(d, id, side), id)
  {
    var d' := WriteSide(d, id, side);
    assert d.dat[id][..|d.dat[id]|] == d.dat[id];
    forall j | j in d'.dat ensures SidecarSound(h, d', j) {
      assert SidecarSound(h, d, j);
    }
  }

  lemma SideBase(h: Hash, d: Disk, top: nat, id: nat, side: Bytes)
    requires Base(h, d, top) && id in d.dat && d.synced[id] == |d.dat[id]| && SideOf(h, side, d.dat[id])
    ensures Base(h, WriteSide(d, id, side), top) && SidecarFull(h, WriteSide(d, id, side), id)
  {
    SideSound(h, d, id, side);
    forall j: nat | Loadable(h, WriteSide(d, id, side), j) ensures j <= top {
      assert j != id ==> Loadable(h, d, j);
    }
  }

  lemma NewSound(h: Hash, d: Disk, id: nat)
    requires Sound(h, d) && id !in d.dat && !Loadable(h, d, id)
    ensures Sound(h, NewFile(d, id))
  {
    var d' := NewFile(d, id);
    forall j | j in d'.dat ensures SidecarSound(h, d', j) {
      if j == id { assert !Loadable(h, d', id); } else { assert SidecarSound(h, d, j); }
    }
  }

  lemma NewBase(h: Hash, d: Disk, top: nat)
    requires Base(h, d, top)
    ensures Base(h, NewFile(d, top + 1), top + 1)
  {
    var d' := NewFile(d, top + 1);
    assert Records([]) == [];
    assert !Loadable(h, d, top + 1);
    NewSound(h, d, top + 1);
    forall j: nat | Loadable(h, d', j) ensures j <= top + 1 {
      assert Loadable(h, d, j);
    }
    assert FileOk(h, []);
    NewCoherent(h, d, top + 1);
  }

  lemma NewCoherent(h: Hash, d: Disk, id: nat)
    requires Coherent(h, d) && id !in d.dat
    ensures Coherent(h, NewFile(d, id))
  {
    assert Records([]) == [];
  }

  lemma AppendScan(h: Hash, f: Bytes, c: Bytes)
    requires Tail(f) == [] && |c| < U32
    ensures Records(f + Frame(c)) == Records(f) + [c] && Tail(f + Frame(c)) == []
    ensures ScanList(h, f + Frame(c)) == ScanList(h, f) + [Entry(Blake(h, c), |f| + 4, |c|)]
  {
    AppendRecord(f, c);
    FileSplits(f);
    EntriesAppend(h, Records(f), c);
  }

  lemma AppendFileOk(h: Hash, f: Bytes, c: Bytes)
    requires FileOk(h, f) && Tail(f) == [] && |c| < U32 && |f| + 4 + |c| < U64
    requires forall e :: e in ScanList(h, f) ==> e.hash != Blake(h, c)
    ensures FileOk(h, f + Frame(c))
  {
    AppendScan(h, f, c);
    forall i | 0 <= i < |ScanList(h, f)| ensures ScanList(h, f)[i].hash != Blake(h, c) {
      assert ScanList(h, f)[i] in ScanList(h, f);
    }
  }

  /** Contents that agree with everything stored may be added. */
  lemma CoherentAdds(h: Hash, d: Disk, id: nat, c: Bytes)
    requires Coherent(h, d) && id in d.dat && Tail(d.dat[id]) == [] && |c| < U32
    requires forall b :: Holds(h, d, Blake(h, c), b) ==> b == c
    ensures Coherent(h, AppendFile(d, id, c))
  {
    var d' := AppendFile(d, id, c);
    AppendRecord(d.dat[id], c);
    forall i, a | i in d'.dat && a in Records(d'.dat[i]) ensures a == c || Holds(h, d, Blake(h, a), a) {
      if i == id { assert a in Records(d.dat[id]) || a == c; }
    }
    forall i, j, a, b | i in d'.dat && j in d'.dat && a in Records(d'.dat[i]) && b in Records(d'.dat[j]) && Blake(h, a) == Blake(h, b)
      ensures a == b
    {
      if a != c && b != c { HoldsOne(h, d, Blake(h, a), a, b); }
    }
  }

  lemma AppendSound(h: Hash, d: Disk, id: nat, c: Bytes)
    requires Sound(h, d) && id in d.dat
    ensures Sound(h, AppendFile(d, id, c))
  {
    var d' := AppendFile(d, id, c);
    assert d'.dat[id][..d.synced[id]] == d.dat[id][..d.synced[id]];
    forall j | j in d'.dat ensures SidecarSound(h, d', j) {
      assert SidecarSound(h, d, j);
    }
  }

  lemma AppendBase(h: Hash, d: Disk, top: nat, c: Bytes)
    requires Base(h, d, top) && Tail(d.dat[top]) == [] && |c| < U32 && |d.dat[top]| + 4 + |c| < U64
    requires forall e :: e in ScanList(h, d.dat[top]) ==> e.hash != Blake(h, c)
    requires forall b :: Holds(h, d, Blake(h, c), b) ==> b == c
    ensures Base(h, AppendFile(d, top, c), top)
  {
    var d' := AppendFile(d, top, c);
    AppendFileOk(h, d.dat[top], c);
    assert FilesOk(h, d');
    CoherentAdds(h, d, top, c);
    AppendSound(h, d, top, c);
    forall j: nat | Loadable(h, d', j) ensures j <= top {
      assert Loadable(h, d, j);
    }
  }

  // ---- a directory in use ----

  ghost predicate SealedSynced(d: Disk, top: nat) {
    forall id :: id in d.dat && id in d.synced && id != top ==> d.synced[id] == |d.dat[id]|
  }

  /** What holds of the directory between two operations. */
  ghost predicate Running(h: Hash, a: At) {
    DiskOk(h, a.d, a.top) && SealedSynced(a.d, a.top) && Tail(a.d.dat[a.top]) == []
  }

  lemma FullKeeps(h: Hash, d: Disk, d': Disk, id: nat)
    requires id in d.dat && SidecarFull(h, d, id)
    requires id in d'.dat && d'.dat[id] == d.dat[id] && (Loadable(h, d', id) ==> id in d.idx && d'.idx[id] == d.idx[id])
    ensures SidecarFull(h, d', id)
  {
  }

  lemma SyncRunning(h: Hash, a: At)
    requires Running(h, a)
    ensures Running(h, At(SyncFile(a.d, a.top), a.top))
  {
    SyncBase(h, a.d, a.top, a.top);
    forall id | id in a.d.dat && id != a.top ensures SidecarFull(h, SyncFile(a.d, a.top), id) {
      FullKeeps(h, a.d, SyncFile(a.d, a.top), id);
    }
  }

  lemma SideRunning(h: Hash, a: At, side: Bytes)
    requires Running(h, a) && a.d.synced[a.top] == |a.d.dat[a.top]| && SideOf(h, side, a.d.dat[a.top])
    ensures Running(h, At(WriteSide(a.d, a.top, side), a.top)) && SidecarFull(h, WriteSide(a.d, a.top, side), a.top)
  {
    SideBase(h, a.d, a.top, a.top, side);
    forall id | id in a.d.dat && id != a.top ensures SidecarFull(h, WriteSide(a.d, a.top, side), id) {
      FullKeeps(h, a.d, WriteSide(a.d, a.top, side), id);
    }
  }

  lemma NewRunning(h: Hash, a: At)
    requires Running(h, a) && a.d.synced[a.top] == |a.d.dat[a.top]| && SidecarFull(h, a.d, a.top)
    ensures Running(h, At(NewFile(a.d, a.top + 1), a.top + 1))
  {
    NewBase(h, a.d, a.top);
    forall id | id in a.d.dat ensures SidecarFull(h, NewFile(a.d, a.top + 1), id) {
      FullKeeps(h, a.d, NewFile(a.d, a.top + 1), id);
    }
  }

  lemma AppendRunning(h: Hash, a: At, c: Bytes)
    requires Running(h, a) && |c| < U32 && |a.d.dat[a.top]| + 4 + |c| < U64
    requires forall b :: !Holds(h, a.d, Blake(h, c), b)
    ensures Running(h, At(AppendFile(a.d, a.top, c), a.top))
  {
    var f := a.d.dat[a.top];
    forall e | e in ScanList(h, f) ensures e.hash != Blake(h, c) {
      var b := EntryPoints(h, f, e);
      assert !Holds(h, a.d, Blake(h, c), b);
    }
    AppendBase(h, a.d, a.top, c);
    AppendScan(h, f, c);
    forall id | id in a.d.dat && id != a.top ensures SidecarFull(h, AppendFile(a.d, a.top, c), id) {
      FullKeeps(h, a.d, AppendFile(a.d, a.top, c), id);
    }
  }
}
