/** The segment directory as a value: what recovery reads from it, what a crash
    may do to it, and what every state of it keeps (rust/nedb-v2/src/segment.rs). */
module SegmentDisk {
  import opened Hashing
  import opened SegmentFormat

  /** Segment files, how much of each is synced, and the sidecars. */
  datatype Disk = Disk(dat: map<nat, Bytes>, synced: map<nat, nat>, idx: map<nat, Bytes>)

  datatype Loc = Loc(seg: nat, off: nat, len: nat)

  type Lists = map<nat, seq<Entry>>

  // ---- folding entry lists into an index ----

  /** One segment's entries; a later entry of one hash wins. */
  function Located(id: nat, es: seq<Entry>): map<Digest, Loc> {
    if es == [] then map[]
    else
      var e := es[|es| - 1];
      Located(id, es[..|es| - 1])[e.hash := Loc(id, e.off, e.len)]
  }

  /** The segments below n, in ascending order; a later segment wins. */
  function Gather(lists: Lists, n: nat): map<Digest, Loc> {
    if n == 0 then map[]
    else if n - 1 in lists then Gather(lists, n - 1) + Located(n - 1, lists[n - 1])
    else Gather(lists, n - 1)
  }

  lemma {:induction false} LocatedMeans(id: nat, es: seq<Entry>, x: Digest)
    ensures x in Located(id, es) <==> exists e :: e in es && e.hash == x
    ensures x in Located(id, es) ==> exists e :: e in es && e.hash == x && Located(id, es)[x] == Loc(id, e.off, e.len)
  {
    if es != [] {
      var front, last := es[..|es| - 1], es[|es| - 1];
      LocatedMeans(id, front, x);
      assert es == front + [last];
      assert last in es;
      if x in Located(id, front) && x != last.hash {
        var e :| e in front && e.hash == x && Located(id, front)[x] == Loc(id, e.off, e.len);
        assert e in es;
      }
    }
  }

  /** Some segment below n lists a record of this hash. */
  ghost predicate Listed(lists: Lists, n: nat, x: Digest) {
    exists id, e :: id < n && id in lists && e in lists[id] && e.hash == x
  }

  lemma {:induction false} GatherMeans(lists: Lists, n: nat, x: Digest)
    ensures x in Gather(lists, n) <==> Listed(lists, n, x)
    ensures x in Gather(lists, n) ==>
              exists id, e :: id < n && id in lists && e in lists[id] && e.hash == x && Gather(lists, n)[x] == Loc(id, e.off, e.len)
  {
    if n > 0 {
      GatherMeans(lists, n - 1, x);
      if n - 1 in lists {
        LocatedMeans(n - 1, lists[n - 1], x);
      }
    }
  }

  /** The entry an index location comes from. */
  lemma GatherFrom(lists: Lists, n: nat, x: Digest) returns (id: nat, e: Entry)
    requires x in Gather(lists, n)
    ensures id < n && id in lists && e in lists[id] && e.hash == x && Gather(lists, n)[x] == Loc(id, e.off, e.len)
  {
    GatherMeans(lists, n, x);
    id, e :| id < n && id in lists && e in lists[id] && e.hash == x && Gather(lists, n)[x] == Loc(id, e.off, e.len);
  }

  predicate UniqueHashes(es: seq<Entry>) {
    forall i, j :: 0 <= i < j < |es| ==> es[i].hash != es[j].hash
  }

  /** The two lists say the same. */
  ghost predicate SameEntries(a: seq<Entry>, b: seq<Entry>) {
    forall e :: e in a <==> e in b
  }

  lemma LocatedSame(id: nat, a: seq<Entry>, b: seq<Entry>)
    requires SameEntries(a, b) && UniqueHashes(b)
    ensures Located(id, a) == Located(id, b)
  {
    forall x ensures x in Located(id, a) <==> x in Located(id, b) {
      LocatedMeans(id, a, x);
      LocatedMeans(id, b, x);
    }
    forall x | x in Located(id, a) ensures Located(id, a)[x] == Located(id, b)[x] {
      LocatedMeans(id, a, x);
      LocatedMeans(id, b, x);
      var e :| e in a && e.hash == x && Located(id, a)[x] == Loc(id, e.off, e.len);
      var e' :| e' in b && e'.hash == x && Located(id, b)[x] == Loc(id, e'.off, e'.len);
      assert e in b;
    }
  }

  lemma {:induction false} GatherSame(a: Lists, b: Lists, n: nat)
    requires forall id :: id < n ==> (id in a <==> id in b)
    requires forall id :: id < n && id in a ==> Located(id, a[id]) == Located(id, b[id])
    ensures Gather(a, n) == Gather(b, n)
  {
    if n > 0 { GatherSame(a, b, n - 1); }
  }

  /** Segments that list nothing may be added or left out. */
  lemma {:induction false} GatherSkips(lists: Lists, m: nat, n: nat)
    requires m <= n && forall id :: m <= id < n && id in lists ==> lists[id] == []
    ensures Gather(lists, n) == Gather(lists, m)
  {
    if m < n {
      GatherSkips(lists, m, n - 1);
      assert Gather(lists, n - 1) + map[] == Gather(lists, n - 1);
    }
  }

  // ---- what a directory says ----

  function ScanList(h: Hash, f: Bytes): seq<Entry> { EntriesOf(h, Records(f)) }

  function ScanLists(h: Hash, d: Disk): Lists { map id | id in d.dat :: ScanList(h, d.dat[id]) }

  predicate Loadable(h: Hash, d: Disk, id: nat) {
    id in d.idx && LoadIdx(h, d.idx[id]).Some?
  }

  /** What open takes a segment to hold: the active one is scanned, a sealed one
      is read from its sidecar if that is usable. */
  function OpenList(h: Hash, d: Disk, top: nat, id: nat): seq<Entry>
    requires id in d.dat
  {
    if id != top && Loadable(h, d, id) then LoadIdx(h, d.idx[id]).value else ScanList(h, d.dat[id])
  }

  function OpenLists(h: Hash, d: Disk, top: nat): Lists { map id | id in d.dat :: OpenList(h, d, top, id) }

  function ScanIndex(h: Hash, d: Disk, n: nat): map<Digest, Loc> { Gather(ScanLists(h, d), n) }

  function OpenIndex(h: Hash, d: Disk, top: nat): map<Digest, Loc> { Gather(OpenLists(h, d, top), top + 1) }

  /** The content c is stored somewhere under hash x. */
  ghost predicate Holds(h: Hash, d: Disk, x: Digest, c: Bytes) {
    Blake(h, c) == x && exists id :: id in d.dat && c in Records(d.dat[id])
  }

  /** What survives any crash. */
  function Durable(d: Disk): Disk {
    Disk(map id | id in d.dat && id in d.synced && d.synced[id] <= |d.dat[id]| :: d.dat[id][..d.synced[id]], d.synced, d.idx)
  }

  function ReadAt(d: Disk, l: Loc): Option<Bytes> {
    if l.seg in d.dat && l.off + l.len <= |d.dat[l.seg]| then Some(d.dat[l.seg][l.off..l.off + l.len]) else None
  }

  // ---- what every reachable directory keeps ----

  ghost predicate IsTop(d: Disk, top: nat) {
    top in d.dat && forall id :: id in d.dat ==> id <= top
  }

  ghost predicate FileOk(h: Hash, f: Bytes) {
    |f| < U64 && UniqueHashes(ScanList(h, f))
  }

  /** Equal hashes on disk mean equal contents. */
  ghost predicate Coherent(h: Hash, d: Disk) {
    forall i, j, a, b ::
      (i in d.dat && j in d.dat && a in Records(d.dat[i]) && b in Records(d.dat[j]) && Blake(h, a) == Blake(h, b))
      ==> a == b
  }

  /** A usable sidecar lists only synced records. */
  ghost predicate SidecarSound(h: Hash, d: Disk, id: nat) {
    Loadable(h, d, id) && id in d.dat && id in d.synced && d.synced[id] <= |d.dat[id]| ==>
      forall e :: e in LoadIdx(h, d.idx[id]).value ==> e in ScanList(h, d.dat[id][..d.synced[id]])
  }

  /** A usable sidecar lists every record. */
  ghost predicate SidecarFull(h: Hash, d: Disk, id: nat) {
    Loadable(h, d, id) && id in d.dat ==>
      forall e :: e in ScanList(h, d.dat[id]) ==> e in LoadIdx(h, d.idx[id]).value
  }

  ghost predicate Synced(d: Disk) {
    (forall id :: id in d.dat <==> id in d.synced) && (forall id :: id in d.dat ==> d.synced[id] <= |d.dat[id]|)
  }

  ghost predicate Sound(h: Hash, d: Disk) {
    Synced(d) && forall id {:trigger SidecarSound(h, d, id)} :: id in d.dat ==> SidecarSound(h, d, id)
  }

  /** No usable sidecar waits for a segment still to come. */
  ghost predicate NoStray(h: Hash, d: Disk, top: nat) {
    forall id: nat :: Loadable(h, d, id) ==> id <= top
  }

  ghost predicate FilesOk(h: Hash, d: Disk) {
    forall id {:trigger FileOk(h, d.dat[id])} :: id in d.dat ==> FileOk(h, d.dat[id])
  }

  ghost predicate Base(h: Hash, d: Disk, top: nat) {
    && IsTop(d, top)
    && NoStray(h, d, top)
    && Sound(h, d)
    && FilesOk(h, d)
    && Coherent(h, d)
  }

  ghost predicate DiskOk(h: Hash, d: Disk, top: nat) {
    Base(h, d, top) && forall id {:trigger SidecarFull(h, d, id)} :: id in d.dat && id != top ==> SidecarFull(h, d, id)
  }

  // ---- cutting files ----

  lemma ScanListCut(h: Hash, f: Bytes, n: nat)
    requires n <= |f|
    ensures ScanList(h, f[..n]) == ScanList(h, f)[..Fits(Records(f), n)]
  {
    CutParses(f, n);
    EntriesPrefix(h, Records(f), Fits(Records(f), n));
  }

  lemma ScanListGrows(h: Hash, f: Bytes, m: nat, n: nat)
    requires m <= n <= |f|
    ensures forall e :: e in ScanList(h, f[..m]) ==> e in ScanList(h, f[..n])
    ensures forall c :: c in Records(f[..m]) ==> c in Records(f[..n])
  {
    ScanListCut(h, f, m);
    ScanListCut(h, f, n);
    CutParses(f, m);
    CutParses(f, n);
    FitsMonotone(Records(f), m, n);
  }

  lemma FileOkCut(h: Hash, f: Bytes, n: nat)
    requires n <= |f| && FileOk(h, f)
    ensures FileOk(h, f[..n])
  {
    ScanListCut(h, f, n);
  }

  /** An entry of a scan points at a record of that hash. */
  lemma EntryPoints(h: Hash, f: Bytes, e: Entry) returns (c: Bytes)
    requires e in ScanList(h, f)
    ensures c in Records(f) && Blake(h, c) == e.hash
    ensures e.off + e.len <= |f| && f[e.off..e.off + e.len] == c
  {
    var k :| 0 <= k < |Records(f)| && ScanList(h, f)[k] == e;
    EntryReads(h, f, k);
    c := Records(f)[k];
  }

  lemma RecordListed(h: Hash, f: Bytes, c: Bytes) returns (e: Entry)
    requires c in Records(f)
    ensures e in ScanList(h, f) && e.hash == Blake(h, c)
  {
    var k :| 0 <= k < |Records(f)| && Records(f)[k] == c;
    e := ScanList(h, f)[k];
  }

  // ---- recovery ----

  /** What open lists is really there. */
  lemma OpenListSound(h: Hash, d: Disk, top: nat, id: nat, e: Entry)
    requires Sound(h, d) && id in d.dat && e in OpenList(h, d, top, id)
    ensures e in ScanList(h, d.dat[id])
  {
    if id != top && Loadable(h, d, id) {
      assert SidecarSound(h, d, id);
      assert d.dat[id][..|d.dat[id]|] == d.dat[id];
      ScanListGrows(h, d.dat[id], d.synced[id], |d.dat[id]|);
    }
  }

  lemma OpenListSame(h: Hash, d: Disk, top: nat, id: nat)
    requires DiskOk(h, d, top) && id in d.dat
    ensures Located(id, OpenList(h, d, top, id)) == Located(id, ScanList(h, d.dat[id]))
  {
    if id != top && Loadable(h, d, id) {
      var a, b := OpenList(h, d, top, id), ScanList(h, d.dat[id]);
      assert SidecarFull(h, d, id) && FileOk(h, d.dat[id]);
      forall e ensures e in a <==> e in b {
        if e in a { OpenListSound(h, d, top, id, e); }
      }
      LocatedSame(id, a, b);
    }
  }

  /** Whatever sidecars are missing or rejected, open reads the same index as a
      scan of every segment. */
  lemma ColdStart(h: Hash, d: Disk, top: nat)
    requires DiskOk(h, d, top)
    ensures OpenIndex(h, d, top) == ScanIndex(h, d, top + 1)
  {
    forall id | id in d.dat
      ensures Located(id, OpenLists(h, d, top)[id]) == Located(id, ScanLists(h, d)[id])
    {
      OpenListSame(h, d, top, id);
    }
    GatherSame(OpenLists(h, d, top), ScanLists(h, d), top + 1);
  }

  /** A hash in the opened index reads back a content stored under it. */
  lemma OpenReads(h: Hash, d: Disk, top: nat, x: Digest) returns (c: Bytes)
    requires Sound(h, d) && x in OpenIndex(h, d, top)
    ensures ReadAt(d, OpenIndex(h, d, top)[x]) == Some(c) && Holds(h, d, x, c)
  {
    hide OpenList, ScanList, Gather, Records, Sound;
    var id, e := GatherFrom(OpenLists(h, d, top), top + 1, x);
    OpenListSound(h, d, top, id, e);
    c := EntryPoints(h, d.dat[id], e);
  }

  /** At most one content is stored under a hash. */
  lemma HoldsOne(h: Hash, d: Disk, x: Digest, a: Bytes, b: Bytes)
    requires Coherent(h, d) && Holds(h, d, x, a) && Holds(h, d, x, b)
    ensures a == b
  {
  }

  /** The scanned index holds exactly the stored hashes. */
  lemma ScanHolds(h: Hash, d: Disk, top: nat, x: Digest)
    requires IsTop(d, top)
    ensures x in ScanIndex(h, d, top + 1) <==> exists c :: Holds(h, d, x, c)
  {
    var lists := ScanLists(h, d);
    GatherMeans(lists, top + 1, x);
    if x in ScanIndex(h, d, top + 1) {
      var id, e := GatherFrom(lists, top + 1, x);
      var c := EntryPoints(h, d.dat[id], e);
      assert Holds(h, d, x, c);
    }
    if c :| Holds(h, d, x, c) {
      var id :| id in d.dat && c in Records(d.dat[id]);
      var e := RecordListed(h, d.dat[id], c);
      assert id in lists && e in lists[id];
    }
  }

  /** Opening a directory that is in order: the index holds exactly the stored
      hashes, and each reads back the one content stored under it. */
  lemma OpenRecovers(h: Hash, d: Disk, top: nat, x: Digest, c: Bytes)
    requires DiskOk(h, d, top) && Holds(h, d, x, c)
    ensures x in OpenIndex(h, d, top) && ReadAt(d, OpenIndex(h, d, top)[x]) == Some(c)
  {
    ColdStart(h, d, top);
    ScanHolds(h, d, top, x);
    var c' := OpenReads(h, d, top, x);
    HoldsOne(h, d, x, c, c');
  }

  // ---- crashes ----

  /** What a crash leaves: every file cut at or after its synced length, every
      sidecar as it was, gone, or unusable. What is on disk afterwards is durable. */
  ghost predicate Crash(h: Hash, d: Disk, d': Disk) {
    && (forall id :: id in d'.dat <==> id in d.dat)
    && (forall id :: id in d.dat && id in d.synced ==>
          && d.synced[id] <= |d'.dat[id]| <= |d.dat[id]|
          && d'.dat[id] == d.dat[id][..|d'.dat[id]|])
    && (forall id :: id in d'.synced <==> id in d'.dat)
    && (forall id :: id in d'.dat ==> d'.synced[id] == |d'.dat[id]|)
    && (forall id :: Loadable(h, d', id) ==> id in d.idx && d'.idx[id] == d.idx[id])
  }

  lemma CrashCuts(h: Hash, d: Disk, top: nat, d': Disk, id: nat)
    requires Base(h, d, top) && Crash(h, d, d') && id in d.dat
    ensures FileOk(h, d'.dat[id]) && SidecarSound(h, d', id)
    ensures forall e :: e in ScanList(h, d'.dat[id]) ==> e in ScanList(h, d.dat[id])
    ensures forall c :: c in Records(d'.dat[id]) ==> c in Records(d.dat[id])
    ensures forall c :: c in Records(d.dat[id][..d.synced[id]]) ==> c in Records(d'.dat[id])
    ensures forall e :: e in ScanList(h, d.dat[id][..d.synced[id]]) ==> e in ScanList(h, d'.dat[id])
  {
    var f, n := d.dat[id], |d'.dat[id]|;
    FileOkCut(h, f, n);
    assert f[..|f|] == f && d'.dat[id][..n] == d'.dat[id];
    ScanListGrows(h, f, n, |f|);
    ScanListGrows(h, f, d.synced[id], n);
    assert SidecarSound(h, d, id);
  }

  lemma CrashHolds(h: Hash, d: Disk, top: nat, d': Disk, x: Digest, c: Bytes)
    requires Base(h, d, top) && Crash(h, d, d')
    ensures Holds(h, d', x, c) ==> Holds(h, d, x, c)
    ensures Holds(h, Durable(d), x, c) ==> Holds(h, d', x, c)
  {
    if Holds(h, d', x, c) {
      var id :| id in d'.dat && c in Records(d'.dat[id]);
      CrashCuts(h, d, top, d', id);
    }
    if Holds(h, Durable(d), x, c) {
      var id :| id in Durable(d).dat && c in Records(Durable(d).dat[id]);
      CrashCuts(h, d, top, d', id);
    }
  }

  lemma CrashCoherent(h: Hash, d: Disk, d': Disk)
    requires Coherent(h, d) && (forall id :: id in d'.dat ==> id in d.dat)
    requires forall id, c :: id in d'.dat && c in Records(d'.dat[id]) ==> c in Records(d.dat[id])
    ensures Coherent(h, d')
  {
  }

  lemma CrashSound(h: Hash, d: Disk, top: nat, d': Disk)
    requires Base(h, d, top) && Crash(h, d, d')
    ensures Sound(h, d') && FilesOk(h, d')
  {
    forall id | id in d.dat ensures FileOk(h, d'.dat[id]) && SidecarSound(h, d', id) {
      CrashCuts(h, d, top, d', id);
    }
  }

  lemma CrashRecords(h: Hash, d: Disk, top: nat, d': Disk)
    requires Base(h, d, top) && Crash(h, d, d')
    ensures forall id, c :: id in d'.dat && c in Records(d'.dat[id]) ==> c in Records(d.dat[id])
  {
    forall id, c | id in d'.dat && c in Records(d'.dat[id]) ensures c in Records(d.dat[id]) {
      CrashCuts(h, d, top, d', id);
    }
  }

  /** A crash keeps everything a directory must keep. */
  lemma CrashKeepsBase(h: Hash, d: Disk, top: nat, d': Disk)
    requires Base(h, d, top) && Crash(h, d, d')
    ensures Base(h, d', top)
  {
    CrashSound(h, d, top, d');
    CrashRecords(h, d, top, d');
    CrashCoherent(h, d, d');
    forall id: nat | Loadable(h, d', id) ensures id <= top {
      assert Loadable(h, d, id);
    }
  }

  lemma CrashKeepsFull(h: Hash, d: Disk, top: nat, d': Disk, id: nat)
    requires Base(h, d, top) && Crash(h, d, d') && id in d.dat && SidecarFull(h, d, id)
    ensures SidecarFull(h, d', id)
  {
    CrashCuts(h, d, top, d', id);
  }

  lemma CrashKeeps(h: Hash, d: Disk, top: nat, d': Disk)
    requires DiskOk(h, d, top) && Crash(h, d, d')
    ensures DiskOk(h, d', top)
  {
    CrashKeepsBase(h, d, top, d');
    forall id | id in d'.dat && id != top ensures SidecarFull(h, d', id) {
      CrashKeepsFull(h, d, top, d', id);
    }
  }
}
