/** What the in-memory index says of one segment, and the sidecar and the reads
    that go by it (rust/nedb-v2/src/segment.rs). */
module SegmentSealing {
  import opened Collections
  import opened Hashing
  import opened SegmentFormat
  import opened SegmentDisk
  import opened SegmentSteps
  import opened SegmentRuns

  // ---- sidecars from the index ----

  /** es lists what an index says about one segment. */
  ghost predicate EntriesFor(index: map<Digest, Loc>, id: nat, es: seq<Entry>) {
    UniqueHashes(es) && forall e :: e in es <==> e.hash in index && index[e.hash] == Loc(id, e.off, e.len)
  }

  /** The entries of one segment, in any order. */
  method EntriesForSegment(index: map<Digest, Loc>, id: nat) returns (es: seq<Entry>)
    ensures EntriesFor(index, id, es)
  {
    es := [];
    var rest := index.Keys;
    while rest != {}
      invariant rest <= index.Keys && UniqueHashes(es)
      invariant forall e :: e in es <==> e.hash in index && e.hash !in rest && index[e.hash] == Loc(id, e.off, e.len)
      decreases |rest|
    {
      var x :| x in rest;
      var l := index[x];
      if l.seg == id {
        es := es + [Entry(x, l.off, l.len)];
      }
      rest := rest - {x};
    }
  }

  lemma GatherBelow(lists: Lists, n: nat, x: Digest)
    requires x in Gather(lists, n)
    ensures Gather(lists, n)[x].seg < n
  {
    GatherMeans(lists, n, x);
  }

  lemma LocatedUnique(id: nat, es: seq<Entry>, e: Entry)
    requires UniqueHashes(es)
    ensures e in es <==> e.hash in Located(id, es) && Located(id, es)[e.hash] == Loc(id, e.off, e.len)
  {
    LocatedMeans(id, es, e.hash);
    if e.hash in Located(id, es) {
      var f :| f in es && f.hash == e.hash && Located(id, es)[e.hash] == Loc(id, f.off, f.len);
      assert e in es ==> e == f;
    }
  }

  /** The index says of the last segment exactly what the segment holds. */
  lemma TopListed(lists: Lists, n: nat, e: Entry)
    requires n in lists && UniqueHashes(lists[n])
    ensures e in lists[n] <==> e.hash in Gather(lists, n + 1) && Gather(lists, n + 1)[e.hash] == Loc(n, e.off, e.len)
  {
    hide Located;
    LocatedUnique(n, lists[n], e);
    LocatedMeans(n, lists[n], e.hash);
    if e.hash in Gather(lists, n) { GatherBelow(lists, n, e.hash); }
  }

  lemma {:induction false} UniqueCount(es: seq<Entry>)
    requires UniqueHashes(es)
    ensures |set e | e in es| == |es|
  {
    if es != [] {
      var front, last := es[..|es| - 1], es[|es| - 1];
      UniqueCount(front);
      assert es == front + [last];
      assert (set e | e in es) == (set e | e in front) + {last};
    }
  }

  lemma UniqueFits(a: seq<Entry>, b: seq<Entry>)
    requires UniqueHashes(a) && UniqueHashes(b) && SameEntries(a, b)
    ensures |a| <= |b|
  {
    UniqueCount(a);
    UniqueCount(b);
    SubsetSize(set e | e in a, set e | e in b);
  }

  /** A sidecar written from the index lists exactly the records of the file. */
  lemma SideFromIndex(h: Hash, lists: Lists, n: nat, f: Bytes, es: seq<Entry>)
    requires n in lists && lists[n] == ScanList(h, f) && FileOk(h, f)
    requires EntriesFor(Gather(lists, n + 1), n, es)
    ensures SideOf(h, IdxFile(h, es), f)
  {
    hide ScanList, Gather, IdxFile, LoadIdx;
    forall e ensures e in es <==> e in ScanList(h, f) {
      TopListed(lists, n, e);
    }
    ScanEncodable(h, f);
    UniqueFits(es, ScanList(h, f));
    forall k | 0 <= k < |es| ensures es[k].off < U64 && es[k].len < U32 {
      assert es[k] in ScanList(h, f);
    }
    IdxRoundTrip(h, es);
  }

  datatype Got = Missing | Found(content: Bytes) | Unreadable | Tampered

  /** Read and check one record. */
  function ReadContent(h: Hash, d: Disk, l: Loc, want: Digest): Got {
    match ReadAt(d, l)
    case None => Unreadable
    case Some(c) => if Blake(h, c) == want then Found(c) else Tampered
  }

  /** A content is handed out only if it has the hash asked for; one that reads but
      has another is reported as tampered with. */
  lemma ReadChecks(h: Hash, d: Disk, l: Loc, want: Digest, c: Bytes)
    ensures ReadContent(h, d, l, want) == Found(c) <==> ReadAt(d, l) == Some(c) && Blake(h, c) == want
    ensures ReadContent(h, d, l, want) == Tampered <==> ReadAt(d, l).Some? && Blake(h, ReadAt(d, l).value) != want
    ensures ReadAt(d, l).Some? ==> |ReadAt(d, l).value| == l.len && l.seg in d.dat && d.dat[l.seg][l.off..l.off + l.len] == ReadAt(d, l).value
  {}

  lemma IndexReads(h: Hash, a: At, x: Digest) returns (c: Bytes)
    requires DiskOk(h, a.d, a.top) && x in ScanIndex(h, a.d, a.top + 1)
    ensures Holds(h, a.d, x, c) && ReadContent(h, a.d, ScanIndex(h, a.d, a.top + 1)[x], x) == Found(c)
    ensures ReadAt(a.d, ScanIndex(h, a.d, a.top + 1)[x]) == Some(c)
  {
    ColdStart(h, a.d, a.top);
    c := OpenReads(h, a.d, a.top, x);
  }
}
