/** Segment files and their .idx sidecars as byte strings
    (rust/nedb-v2/src/segment.rs). */
module SegmentFormat {
  import opened Hashing

  const U32: nat := 0x1_0000_0000
  const U64: nat := 0x1_0000_0000_0000_0000

  lemma Widths()
    ensures Pow256(4) == U32 && Pow256(8) == U64
  {
    assert Pow256(4) == 0x1_0000 * Pow256(2);
    Pow256Plus8(0);
  }

  // ---- records ----

  /** One record on disk: a four-byte length, then the content. */
  function Frame(c: Bytes): (f: Bytes)
    ensures |f| == 4 + |c|
  {
    ToLE(|c|, 4) + c
  }

  lemma FourBytes(n: nat, a: nat, b: nat, c: nat)
    requires a == n / 256 && b == a / 256 && c == b / 256
    ensures ToLE(n, 4) == [n % 256, a % 256, b % 256, c % 256]
  {
    assert ToLE(c, 1) == [c % 256] + ToLE(c / 256, 0) == [c % 256];
    assert ToLE(b, 2) == [b % 256] + ToLE(c, 1);
    assert ToLE(a, 3) == [a % 256] + ToLE(b, 2);
    assert ToLE(n, 4) == [n % 256] + ToLE(a, 3);
  }

  /** The length in four bytes, the low one first, then the content. */
  lemma FrameLayout(c: Bytes)
    ensures var n := |c|; Frame(c) == [n % 256, n / 256 % 256, n / 256 / 256 % 256, n / 256 / 256 / 256 % 256] + c
  {
    hide ToLE;
    var n := |c|;
    FourBytes(n, n / 256, n / 256 / 256, n / 256 / 256 / 256);
  }

  function Encode(cs: seq<Bytes>): Bytes {
    if cs == [] then [] else Frame(cs[0]) + Encode(cs[1..])
  }

  /** The file starts with a whole record. */
  predicate Whole(f: Bytes) {
    |f| >= 4 && 4 + FromLE(f[..4]) <= |f|
  }

  function Length(f: Bytes): nat
    requires Whole(f)
  {
    FromLE(f[..4])
  }

  /** The contents of the whole records a file starts with. */
  function Records(f: Bytes): seq<Bytes>
    decreases |f|
  {
    if !Whole(f) then [] else [f[4..4 + Length(f)]] + Records(f[4 + Length(f)..])
  }

  /** What follows the last whole record: the torn tail. */
  function Tail(f: Bytes): Bytes
    decreases |f|
  {
    if !Whole(f) then f else Tail(f[4 + Length(f)..])
  }

  predicate Storable(cs: seq<Bytes>) {
    forall k :: 0 <= k < |cs| ==> |cs[k]| < U32
  }

  lemma FrameParses(c: Bytes, rest: Bytes)
    requires |c| < U32
    ensures Whole(Frame(c) + rest) && Length(Frame(c) + rest) == |c|
    ensures (Frame(c) + rest)[4..4 + |c|] == c && (Frame(c) + rest)[4 + |c|..] == rest
  {
    Widths();
    FromToLE(|c|, 4);
    assert (Frame(c) + rest)[..4] == ToLE(|c|, 4);
  }

  lemma FrameReads(c: Bytes, rest: Bytes)
    requires |c| < U32
    ensures Records(Frame(c) + rest) == [c] + Records(rest) && Tail(Frame(c) + rest) == Tail(rest)
  {
    hide Frame;
    FrameParses(c, rest);
  }

  lemma EncodeFirst(cs: seq<Bytes>, rest: Bytes)
    requires cs != []
    ensures Encode(cs) + rest == Frame(cs[0]) + (Encode(cs[1..]) + rest)
  {
    hide Frame;
  }

  lemma HeadAndTail(cs: seq<Bytes>, rest: seq<Bytes>)
    requires cs != []
    ensures [cs[0]] + (cs[1..] + rest) == cs + rest
  {}

  /** Parsing undoes writing, whatever follows. */
  lemma {:induction false} RecordsOfEncode(cs: seq<Bytes>, rest: Bytes)
    requires Storable(cs)
    ensures Records(Encode(cs) + rest) == cs + Records(rest) && Tail(Encode(cs) + rest) == Tail(rest)
    decreases |cs|
  {
    hide Frame, Records, Tail;
    if cs == [] {
      assert Encode(cs) + rest == rest;
    } else {
      hide Encode;
      RecordsOfEncode(cs[1..], rest);
      FrameReads(cs[0], Encode(cs[1..]) + rest);
      EncodeFirst(cs, rest);
      HeadAndTail(cs, Records(rest));
    }
  }

  lemma {:induction false} ToFromLE(b: Bytes)
    ensures ToLE(FromLE(b), |b|) == b
  {
    if b != [] {
      ToFromLE(b[1..]);
      LowByte(b[0], FromLE(b[1..]));
      assert b == [b[0]] + b[1..];
    }
  }

  lemma LowByte(b: Byte, q: nat)
    ensures (b + 256 * q) % 256 == b && (b + 256 * q) / 256 == q
  {}

  /** Every file is its records, framed, and a torn tail. */
  lemma {:induction false} FileSplits(f: Bytes)
    ensures f == Encode(Records(f)) + Tail(f) && Storable(Records(f)) && !Whole(Tail(f))
    decreases |f|
  {
    if Whole(f) {
      var n := Length(f);
      FileSplits(f[4 + n..]);
      FirstRecord(f);
      assert Records(f)[1..] == Records(f[4 + n..]);
    }
  }

  lemma FirstRecord(f: Bytes)
    requires Whole(f)
    ensures f == Frame(f[4..4 + Length(f)]) + f[4 + Length(f)..] && Length(f) < U32
  {
    Widths();
    ToFromLE(f[..4]);
    assert |f[..4]| == 4;
    assert f == f[..4] + f[4..4 + Length(f)] + f[4 + Length(f)..];
  }

  lemma {:induction false} EncodeAppends(cs: seq<Bytes>, ds: seq<Bytes>)
    ensures Encode(cs + ds) == Encode(cs) + Encode(ds)
    decreases |cs|
  {
    if cs == [] {
      assert cs + ds == ds;
    } else {
      assert (cs + ds)[1..] == cs[1..] + ds;
      EncodeAppends(cs[1..], ds);
    }
  }

  /** Appending a frame to a file without a torn tail appends a record. */
  lemma AppendRecord(f: Bytes, c: Bytes)
    requires Tail(f) == [] && |c| < U32
    ensures Records(f + Frame(c)) == Records(f) + [c] && Tail(f + Frame(c)) == []
  {
    FileSplits(f);
    assert Frame(c) + [] == Frame(c);
    FrameParses(c, []);
    assert f + Frame(c) == Encode(Records(f)) + Frame(c);
    RecordsOfEncode(Records(f), Frame(c));
  }

  /** Truncating to the last whole record. */
  lemma TruncateTail(f: Bytes)
    ensures |Encode(Records(f))| <= |f| && f[..|Encode(Records(f))|] == Encode(Records(f))
    ensures Records(Encode(Records(f))) == Records(f) && Tail(Encode(Records(f))) == []
  {
    FileSplits(f);
    RecordsOfEncode(Records(f), []);
    assert Encode(Records(f)) + [] == Encode(Records(f));
  }

  // ---- cutting a file ----

  /** How many records end at or before byte n. */
  function Fits(cs: seq<Bytes>, n: nat): (k: nat)
    ensures k <= |cs|
    decreases |cs|
  {
    if cs == [] || |Frame(cs[0])| > n then 0 else 1 + Fits(cs[1..], n - |Frame(cs[0])|)
  }

  /** A file cut at any byte parses to exactly the records that end before the
      cut: no torn record is ever misread. */
  lemma {:induction false} CutParses(f: Bytes, n: nat)
    requires n <= |f|
    ensures Records(f[..n]) == Records(f)[..Fits(Records(f), n)]
    decreases |f|
  {
    if Whole(f) {
      var m := 4 + Length(f);
      assert |Frame(Records(f)[0])| == m && Records(f)[1..] == Records(f[m..]);
      if n >= m {
        CutFirst(f, n);
        CutParses(f[m..], n - m);
        FitsFirst(Records(f), n);
        assert Records(f)[..1 + Fits(Records(f[m..]), n - m)] == [f[4..m]] + Records(f[m..])[..Fits(Records(f[m..]), n - m)];
      } else if n >= 4 {
        assert f[..n][..4] == f[..4];
      }
    } else if n >= 4 {
      assert f[..n][..4] == f[..4];
    }
  }

  lemma CutFirst(f: Bytes, n: nat)
    requires Whole(f) && 4 + Length(f) <= n <= |f|
    ensures Records(f[..n]) == [f[4..4 + Length(f)]] + Records(f[4 + Length(f)..][..n - 4 - Length(f)])
  {
    var m := 4 + Length(f);
    assert f[..n][..4] == f[..4] && f[..n][4..m] == f[4..m];
    assert f[..n][m..] == f[m..][..n - m];
  }

  lemma FitsFirst(cs: seq<Bytes>, n: nat)
    requires cs != [] && |Frame(cs[0])| <= n
    ensures Fits(cs, n) == 1 + Fits(cs[1..], n - |Frame(cs[0])|)
  {}

  lemma {:induction false} FitsMonotone(cs: seq<Bytes>, m: nat, n: nat)
    requires m <= n
    ensures Fits(cs, m) <= Fits(cs, n)
    decreases |cs|
  {
    if cs != [] && |Frame(cs[0])| <= m {
      FitsMonotone(cs[1..], m - |Frame(cs[0])|, n - |Frame(cs[0])|);
    }
  }

  lemma {:induction false} FitsAll(f: Bytes)
    ensures Fits(Records(f), |f|) == |Records(f)|
    decreases |f|
  {
    if Whole(f) {
      FitsAll(f[4 + Length(f)..]);
      assert Records(f)[1..] == Records(f[4 + Length(f)..]);
    }
  }

  // ---- scanning ----

  datatype Entry = Entry(hash: Digest, off: nat, len: nat)

  /** Where the k-th record's content starts. */
  function Offset(cs: seq<Bytes>, k: nat): nat
    requires k <= |cs|
  {
    |Encode(cs[..k])| + 4
  }

  function EntriesOf(h: Hash, cs: seq<Bytes>): seq<Entry> {
    seq(|cs|, k requires 0 <= k < |cs| => Entry(Blake(h, cs[k]), Offset(cs, k), |cs[k]|))
  }

  lemma EntriesPrefix(h: Hash, cs: seq<Bytes>, n: nat)
    requires n <= |cs|
    ensures EntriesOf(h, cs[..n]) == EntriesOf(h, cs)[..n]
  {
    forall k | 0 <= k < n ensures EntriesOf(h, cs[..n])[k] == EntriesOf(h, cs)[k] {
      assert cs[..n][..k] == cs[..k];
    }
  }

  lemma EntriesAppend(h: Hash, cs: seq<Bytes>, c: Bytes)
    ensures EntriesOf(h, cs + [c]) == EntriesOf(h, cs) + [Entry(Blake(h, c), |Encode(cs)| + 4, |c|)]
  {
    EntriesPrefix(h, cs + [c], |cs|);
    assert (cs + [c])[..|cs|] == cs;
  }

  lemma MiddleRead(f: Bytes, a: Bytes, c: Bytes, b: Bytes)
    requires f == a + (Frame(c) + b)
    ensures |a| + 4 + |c| <= |f| && f[|a| + 4..|a| + 4 + |c|] == c
  {
  }

  lemma Middle(a: Bytes, x: Bytes, y: Bytes, z: Bytes)
    ensures (a + (x + y)) + z == a + (x + (y + z))
  {}

  lemma EncodeSplits(cs: seq<Bytes>, k: nat)
    requires k < |cs|
    ensures Encode(cs) == Encode(cs[..k]) + (Frame(cs[k]) + Encode(cs[k + 1..]))
  {
    assert cs == cs[..k] + cs[k..] && cs[k..][1..] == cs[k + 1..];
    EncodeAppends(cs[..k], cs[k..]);
  }

  lemma ContentAt(f: Bytes, k: nat)
    requires k < |Records(f)|
    ensures Offset(Records(f), k) + |Records(f)[k]| <= |f|
    ensures f[Offset(Records(f), k)..Offset(Records(f), k) + |Records(f)[k]|] == Records(f)[k]
  {
    var cs := Records(f);
    FileSplits(f);
    EncodeSplits(cs, k);
    hide Records, Tail, Encode, Frame;
    Middle(Encode(cs[..k]), Frame(cs[k]), Encode(cs[k + 1..]), Tail(f));
    MiddleRead(f, Encode(cs[..k]), cs[k], Encode(cs[k + 1..]) + Tail(f));
  }

  /** The bytes an entry points at are the record's content. */
  lemma EntryReads(h: Hash, f: Bytes, k: nat)
    requires k < |Records(f)|
    ensures var e := EntriesOf(h, Records(f))[k];
            e.off + e.len <= |f| && f[e.off..e.off + e.len] == Records(f)[k]
  {
    ContentAt(f, k);
  }

  /** The records up to pos have been scanned. */
  ghost predicate Scanned(h: Hash, f: Bytes, pos: nat, done: seq<Bytes>, entries: seq<Entry>) {
    && pos <= |f| && f[..pos] == Encode(done)
    && Records(f) == done + Records(f[pos..])
    && entries == EntriesOf(h, done)
  }

  predicate RecordAt(f: Bytes, pos: nat)
    requires pos <= |f|
  {
    pos + 4 <= |f| && pos + 4 + FromLE(f[pos..pos + 4]) <= |f|
  }

  lemma ScanNext(h: Hash, f: Bytes, pos: nat, done: seq<Bytes>, entries: seq<Entry>)
    requires Scanned(h, f, pos, done, entries) && RecordAt(f, pos)
    ensures var next := pos + 4 + FromLE(f[pos..pos + 4]);
            var c := f[pos + 4..next];
            Scanned(h, f, next, done + [c], entries + [Entry(Blake(h, c), pos + 4, next - pos - 4)])
  {
    hide Records, Encode, EntriesOf, FromLE;
    var next := pos + 4 + FromLE(f[pos..pos + 4]);
    var c := f[pos + 4..next];
    RecordsNext(f, pos);
    Reassociate(done, c, Records(f[next..]));
    FrameAt(f, pos, next - pos - 4, done);
    assert |Encode(done)| == pos;
    EntriesAppend(h, done, c);
  }

  lemma Reassociate(a: seq<Bytes>, c: Bytes, b: seq<Bytes>)
    ensures a + ([c] + b) == (a + [c]) + b
  {}

  lemma RecordsNext(f: Bytes, pos: nat)
    requires pos <= |f| && RecordAt(f, pos)
    ensures var next := pos + 4 + FromLE(f[pos..pos + 4]);
            Records(f[pos..]) == [f[pos + 4..next]] + Records(f[next..])
  {
    var next := pos + 4 + FromLE(f[pos..pos + 4]);
    assert f[pos..][..4] == f[pos..pos + 4];
    assert f[pos..][4..next - pos] == f[pos + 4..next] && f[pos..][next - pos..] == f[next..];
  }

  lemma ScanEnds(h: Hash, f: Bytes, pos: nat, done: seq<Bytes>, entries: seq<Entry>)
    requires Scanned(h, f, pos, done, entries) && !RecordAt(f, pos)
    ensures Records(f) == done && f[..pos] == Encode(done) && entries == EntriesOf(h, done)
  {
    if pos + 4 <= |f| { assert f[pos..][..4] == f[pos..pos + 4]; }
    assert Records(f[pos..]) == [];
  }

  lemma ScanStarts(h: Hash, f: Bytes)
    ensures Scanned(h, f, 0, [], [])
  {
    assert f[0..] == f;
  }

  /** Scan one segment: where the valid records end, and their entries. */
  method ScanSegment(h: Hash, f: Bytes) returns (end: nat, entries: seq<Entry>)
    ensures entries == EntriesOf(h, Records(f))
    ensures end <= |f| && f[..end] == Encode(Records(f))
  {
    hide Scanned, Records, Encode;
    var pos := 0;
    entries := [];
    ScanStarts(h, f);
    ghost var done: seq<Bytes> := [];
    while pos + 4 <= |f|
      invariant 0 <= pos <= |f| && Scanned(h, f, pos, done, entries)
      decreases |f| - pos
    {
      var len := FromLE(f[pos..pos + 4]);
      var off := pos + 4;
      if off + len > |f| {
        break;
      }
      var content := f[off..off + len];
      ScanNext(h, f, pos, done, entries);
      entries := entries + [Entry(Blake(h, content), off, len)];
      done := done + [content];
      pos := off + len;
    }
    ScanEnds(h, f, pos, done, entries);
    end := pos;
  }

  lemma FrameAt(f: Bytes, pos: nat, len: nat, done: seq<Bytes>)
    requires pos + 4 + len <= |f| && FromLE(f[pos..pos + 4]) == len && f[..pos] == Encode(done)
    ensures f[..pos + 4 + len] == Encode(done + [f[pos + 4..pos + 4 + len]])
  {
    var c := f[pos + 4..pos + 4 + len];
    ToFromLE(f[pos..pos + 4]);
    assert |f[pos..pos + 4]| == 4;
    EncodeAppends(done, [c]);
    assert Encode([c]) == Frame(c) + [] == Frame(c);
    assert f[..pos + 4 + len] == f[..pos] + (f[pos..pos + 4] + c);
  }

  // ---- sidecars ----

  const MAGIC: Bytes := [78, 73, 88, 49]

  function IdxEntry(e: Entry): (b: Bytes)
    ensures |b| == 44
  {
    Raw(e.hash) + ToLE(e.off, 8) + ToLE(e.len, 4)
  }

  function IdxEntries(es: seq<Entry>): (b: Bytes)
    ensures |b| == 44 * |es|
  {
    if es == [] then [] else IdxEntries(es[..|es| - 1]) + IdxEntry(es[|es| - 1])
  }

  function IdxBody(es: seq<Entry>): Bytes { MAGIC + ToLE(|es|, 8) + IdxEntries(es) }

  /** The whole sidecar: body and checksum. */
  function IdxFile(h: Hash, es: seq<Entry>): Bytes { IdxBody(es) + Raw(Blake(h, IdxBody(es))) }

  function ParseEntry(b: Bytes): Entry
    requires |b| == 44
  {
    Entry(FromRaw(b[..32]), FromLE(b[32..40]), FromLE(b[40..44]))
  }

  function ParseEntries(b: Bytes, count: nat): (es: seq<Entry>)
    requires |b| == 44 * count
    ensures |es| == count
  {
    if count == 0 then []
    else ParseEntries(b[..44 * (count - 1)], count - 1) + [ParseEntry(b[44 * (count - 1)..])]
  }

  /** What a sidecar says, or nothing if it is in any way unusable. */
  function LoadIdx(h: Hash, data: Bytes): Option<seq<Entry>> {
    if |data| < 44 || data[..4] != MAGIC then None
    else
      var count := FromLE(data[4..12]);
      if |data| != 12 + 44 * count + 32 || Raw(Blake(h, data[..|data| - 32])) != data[|data| - 32..] then None
      else Some(ParseEntries(data[12..|data| - 32], count))
  }

  predicate Encodable(es: seq<Entry>) {
    |es| < U64 && forall k :: 0 <= k < |es| ==> es[k].off < U64 && es[k].len < U32
  }

  lemma EntryRoundTrip(e: Entry)
    requires e.off < U64 && e.len < U32
    ensures ParseEntry(IdxEntry(e)) == e
  {
    Widths();
    var b := IdxEntry(e);
    assert b[..32] == Raw(e.hash) && b[32..40] == ToLE(e.off, 8) && b[40..44] == ToLE(e.len, 4);
    RawInverts(e.hash);
    FromToLE(e.off, 8);
    FromToLE(e.len, 4);
  }

  lemma {:induction false} EntriesRoundTrip(es: seq<Entry>)
    requires forall k :: 0 <= k < |es| ==> es[k].off < U64 && es[k].len < U32
    ensures ParseEntries(IdxEntries(es), |es|) == es
  {
    if es != [] {
      var n, b := |es| - 1, IdxEntries(es);
      EntriesRoundTrip(es[..n]);
      EntryRoundTrip(es[n]);
      assert b[..44 * n] == IdxEntries(es[..n]) && b[44 * n..] == IdxEntry(es[n]);
    }
  }

  lemma {:induction false} EntryAt(es: seq<Entry>, k: nat)
    requires k < |es|
    ensures IdxEntries(es)[44 * k..44 * k + 44] == IdxEntry(es[k])
  {
    var n, b := |es| - 1, IdxEntries(es);
    if k < n {
      EntryAt(es[..n], k);
      assert b[..44 * n] == IdxEntries(es[..n]);
      assert b[44 * k..44 * k + 44] == b[..44 * n][44 * k..44 * k + 44];
    } else {
      assert b[44 * n..44 * n + 44] == IdxEntry(es[n]);
    }
  }

  /** Where everything stands in a sidecar: NIX1, the count in eight bytes, then 44
      bytes an entry (its hash, its offset in eight, its length in four), then the
      hash of all that. */
  lemma IdxLayout(h: Hash, es: seq<Entry>, k: nat)
    requires k < |es|
    ensures var f, at := IdxFile(h, es), 12 + 44 * k;
            && |f| == 12 + 44 * |es| + 32 && f[..4] == [78, 73, 88, 49] && f[4..12] == ToLE(|es|, 8)
            && f[at..at + 32] == Raw(es[k].hash) && f[at + 32..at + 40] == ToLE(es[k].off, 8) && f[at + 40..at + 44] == ToLE(es[k].len, 4)
            && f[|f| - 32..] == Raw(Blake(h, f[..|f| - 32]))
  {
    var entries, sum := IdxEntries(es), Raw(Blake(h, IdxBody(es)));
    var f, at := IdxFile(h, es), 12 + 44 * k;
    IdxParts(MAGIC, ToLE(|es|, 8), entries, sum);
    EntryAt(es, k);
    var e := IdxEntry(es[k]);
    hide IdxEntries;
    SliceOfSlice(f, 12, |f| - 32, 44 * k, 44 * k + 44);
    assert f[at..at + 44] == e;
    SliceOfSlice(f, at, at + 44, 0, 32);
    SliceOfSlice(f, at, at + 44, 32, 40);
    SliceOfSlice(f, at, at + 44, 40, 44);
    assert e[0..32] == Raw(es[k].hash) && e[32..40] == ToLE(es[k].off, 8) && e[40..44] == ToLE(es[k].len, 4);
  }

  /** Loading undoes writing. */
  lemma IdxRoundTrip(h: Hash, es: seq<Entry>)
    requires Encodable(es)
    ensures LoadIdx(h, IdxFile(h, es)) == Some(es)
  {
    Widths();
    FromToLE(|es|, 8);
    EntriesRoundTrip(es);
    IdxParts(MAGIC, ToLE(|es|, 8), IdxEntries(es), Raw(Blake(h, IdxBody(es))));
  }

  lemma EntryReparses(b: Bytes)
    requires |b| == 44
    ensures IdxEntry(ParseEntry(b)) == b && ParseEntry(b).off < U64 && ParseEntry(b).len < U32
  {
    Widths();
    Pow256At32();
    var hash, off, len := b[..32], b[32..40], b[40..44];
    ToFromLE(hash);
    ToFromLE(off);
    ToFromLE(len);
    assert b == hash + off + len;
  }

  ghost predicate Parsed(es: seq<Entry>, b: Bytes) {
    && IdxEntries(es) == b
    && forall k :: 0 <= k < |es| ==> es[k].off < U64 && es[k].len < U32
  }

  lemma ParsedAdds(es: seq<Entry>, b: Bytes, e: Entry)
    requires Parsed(es, b) && e.off < U64 && e.len < U32
    ensures Parsed(es + [e], b + IdxEntry(e))
  {
    hide IdxEntry;
    var all := es + [e];
    assert all[..|all| - 1] == es && all[|all| - 1] == e;
  }

  lemma {:induction false} EntriesReparse(b: Bytes, count: nat)
    requires |b| == 44 * count
    ensures Parsed(ParseEntries(b, count), b)
  {
    hide ParseEntry, IdxEntry;
    if count > 0 {
      hide Parsed;
      var front, last := b[..44 * (count - 1)], b[44 * (count - 1)..];
      EntriesReparse(front, count - 1);
      EntryReparses(last);
      ParsedAdds(ParseEntries(front, count - 1), front, ParseEntry(last));
      assert b == front + last;
    }
  }

  lemma HeaderAndSum(data: Bytes)
    requires |data| >= 44
    ensures var n := |data| - 32;
            data[..n] == data[..4] + data[4..12] + data[12..n] && data == data[..n] + data[n..]
  {}

  /** What loads is exactly what was written for the entries it says: nothing else is
      accepted. */
  lemma IdxAccepts(h: Hash, data: Bytes)
    requires LoadIdx(h, data).Some?
    ensures Encodable(LoadIdx(h, data).value) && data == IdxFile(h, LoadIdx(h, data).value)
  {
    hide IdxEntries, ParseEntries, Raw, FromLE, ToLE;
    var count, body := FromLE(data[4..12]), data[12..|data| - 32];
    CountFits(data[4..12]);
    EntriesReparse(body, count);
    HeaderAndSum(data);
  }

  lemma CountFits(b: Bytes)
    requires |b| == 8
    ensures FromLE(b) < U64 && ToLE(FromLE(b), 8) == b
  {
    Widths();
    ToFromLE(b);
  }

  lemma IdxParts(magic: Bytes, count: Bytes, entries: Bytes, sum: Bytes)
    requires |magic| == 4 && |count| == 8 && |sum| == 32
    ensures var data := magic + count + entries + sum;
            && data[..4] == magic && data[4..12] == count && data[12..|data| - 32] == entries
            && data[..|data| - 32] == magic + count + entries && data[|data| - 32..] == sum
  {
  }

  method WriteIdx(h: Hash, es: seq<Entry>) returns (data: Bytes)
    ensures data == IdxFile(h, es)
  {
    var body := MAGIC + ToLE(|es|, 8);
    ghost var header := body;
    for i := 0 to |es|
      invariant body == header + IdxEntries(es[..i])
    {
      assert es[..i + 1][..i] == es[..i];
      body := body + Raw(es[i].hash) + ToLE(es[i].off, 8) + ToLE(es[i].len, 4);
      assert body == header + (IdxEntries(es[..i]) + IdxEntry(es[i]));
    }
    assert es[..|es|] == es;
    data := body + Raw(Blake(h, body));
  }

  lemma SliceOfSlice(s: Bytes, a: nat, b: nat, c: nat, d: nat)
    requires a <= b <= |s| && c <= d <= b - a
    ensures s[a..b][c..d] == s[a + c..a + d]
  {
    var r := s[a..b];
    assert |r[c..d]| == d - c;
    forall k | 0 <= k < d - c ensures r[c..d][k] == s[a + c..a + d][k] {
      assert r[c + k] == s[a + (c + k)];
    }
  }

  lemma RawEntry(data: Bytes, count: nat, i: nat)
    requires |data| == 12 + 44 * count + 32 && i < count
    ensures var raw := data[12..|data| - 32];
            raw[..44 * (i + 1)][..44 * i] == raw[..44 * i] && raw[..44 * (i + 1)][44 * i..] == data[12 + 44 * i..12 + 44 * i + 44]
  {
    var raw, n := data[12..|data| - 32], 44 * i;
    SliceOfSlice(raw, 0, n + 44, 0, n);
    SliceOfSlice(raw, 0, n + 44, n, n + 44);
    SliceOfSlice(data, 12, |data| - 32, n, n + 44);
  }

  method ReadIdx(h: Hash, data: Bytes) returns (r: Option<seq<Entry>>)
    ensures r == LoadIdx(h, data)
  {
    if |data| < 12 + 32 || data[..4] != MAGIC {
      return None;
    }
    var count := FromLE(data[4..12]);
    if |data| != 12 + count * 44 + 32 {
      return None;
    }
    var body := data[..|data| - 32];
    if Raw(Blake(h, body)) != data[|data| - 32..] {
      return None;
    }
    var es: seq<Entry> := [];
    ghost var raw := data[12..|data| - 32];
    for i := 0 to count
      invariant es == ParseEntries(raw[..44 * i], i)
    {
      var p := 12 + 44 * i;
      RawEntry(data, count, i);
      es := es + [ParseEntry(data[p..p + 44])];
    }
    assert raw[..44 * count] == raw;
    r := Some(es);
  }
}
