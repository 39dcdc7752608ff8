/** The content-addressed, deduplicating, versioned file store (python/nedb/cascade.py). */
module BlobStore {
  import opened Hashing
  import opened Cascade
  import Merkle

  /** A compression codec of one tier; foreign code, so a parameter. */
  datatype Codec = Codec(compress: Bytes -> Bytes, decompress: Bytes -> Bytes) {
    function Pack(b: Bytes): Bytes { compress(b) }
    function Unpack(b: Bytes): Bytes { decompress(b) }
    ghost predicate Inverts() { forall b :: Unpack(Pack(b)) == b }
  }

  /** One `put_file` call. */
  datatype Upload = Upload(name: string, data: Bytes)

  // ---- the chunk table as a function of the uploads ----

  function AddChunk(h: Hash, t: map<Digest, Bytes>, c: Bytes): map<Digest, Bytes> {
    if Blake(h, c) in t then t else t[Blake(h, c) := c]
  }

  function AddChunks(h: Hash, t: map<Digest, Bytes>, cs: seq<Bytes>): map<Digest, Bytes>
    decreases |cs|
  {
    if cs == [] then t else AddChunks(h, AddChunk(h, t, cs[0]), cs[1..])
  }

  /** The chunk stored under each digest after a run of uploads. */
  function TableAfter(h: Hash, gear: Gear, ups: seq<Upload>): map<Digest, Bytes> {
    if ups == [] then map[]
    else AddChunks(h, TableAfter(h, gear, ups[..|ups| - 1]), Chunks(gear, ups[|ups| - 1].data))
  }

  /** How many chunks of a list find their digest already stored. */
  function HitsIn(h: Hash, t: map<Digest, Bytes>, cs: seq<Bytes>): nat
    decreases |cs|
  {
    if cs == [] then 0
    else (if Blake(h, cs[0]) in t then 1 else 0) + HitsIn(h, AddChunk(h, t, cs[0]), cs[1..])
  }

  function HitsAfter(h: Hash, gear: Gear, ups: seq<Upload>): nat {
    if ups == [] then 0
    else
      var front, cs := ups[..|ups| - 1], Chunks(gear, ups[|ups| - 1].data);
      HitsAfter(h, gear, front) + HitsIn(h, TableAfter(h, gear, front), cs)
  }

  function Recipe(h: Hash, cs: seq<Bytes>): seq<Digest> {
    seq(|cs|, k requires 0 <= k < |cs| => Blake(h, cs[k]))
  }

  function RecipeOf(h: Hash, gear: Gear, data: Bytes): seq<Digest> { Recipe(h, Chunks(gear, data)) }

  /** The total length of all recipes. */
  function RecipeTotal(gear: Gear, ups: seq<Upload>): nat {
    if ups == [] then 0
    else RecipeTotal(gear, ups[..|ups| - 1]) + |Chunks(gear, ups[|ups| - 1].data)|
  }

  function LogicalTotal(ups: seq<Upload>): nat {
    if ups == [] then 0 else LogicalTotal(ups[..|ups| - 1]) + |ups[|ups| - 1].data|
  }

  /** The uploads of one file, oldest first. */
  function VersionsOf(ups: seq<Upload>, name: string): seq<Bytes> {
    if ups == [] then []
    else
      var u := ups[|ups| - 1];
      VersionsOf(ups[..|ups| - 1], name) + (if u.name == name then [u.data] else [])
  }

  /** All bytes ever uploaded, one upload after the other. */
  function AllBytes(ups: seq<Upload>): Bytes {
    if ups == [] then [] else ups[0].data + AllBytes(ups[1..])
  }

  lemma {:induction false} AllBytesAppend(ups: seq<Upload>, u: Upload)
    ensures AllBytes(ups + [u]) == AllBytes(ups) + u.data
  {
    if ups == [] {
      assert (ups + [u])[1..] == [];
    } else {
      assert (ups + [u])[1..] == ups[1..] + [u];
      AllBytesAppend(ups[1..], u);
    }
  }

  /** The logical size counts every uploaded byte, stored again or not. */
  lemma {:induction false} LogicalIsAll(ups: seq<Upload>)
    ensures LogicalTotal(ups) == |AllBytes(ups)|
  {
    if ups != [] {
      var n := |ups| - 1;
      LogicalIsAll(ups[..n]);
      AllBytesAppend(ups[..n], ups[n]);
      assert ups == ups[..n] + [ups[n]];
    }
  }

  // ---- what the table keeps ----

  /** Deduplication accounting: stored chunks and hits together are all chunks. */
  lemma {:induction false} HitsCount(h: Hash, t: map<Digest, Bytes>, cs: seq<Bytes>)
    ensures |AddChunks(h, t, cs)| + HitsIn(h, t, cs) == |t| + |cs|
    decreases |cs|
  {
    if cs != [] {
      HitsCount(h, AddChunk(h, t, cs[0]), cs[1..]);
    }
  }

  lemma {:induction false} DedupAccounts(h: Hash, gear: Gear, ups: seq<Upload>)
    ensures |TableAfter(h, gear, ups)| + HitsAfter(h, gear, ups) == RecipeTotal(gear, ups)
  {
    if ups != [] {
      DedupAccounts(h, gear, ups[..|ups| - 1]);
      HitsCount(h, TableAfter(h, gear, ups[..|ups| - 1]), Chunks(gear, ups[|ups| - 1].data));
    }
  }

  /** A stored chunk is never replaced, and every added chunk is stored. */
  lemma {:induction false} AddKeeps(h: Hash, t: map<Digest, Bytes>, cs: seq<Bytes>, d: Digest)
    ensures d in t ==> d in AddChunks(h, t, cs) && AddChunks(h, t, cs)[d] == t[d]
    ensures (exists k :: 0 <= k < |cs| && Blake(h, cs[k]) == d) ==> d in AddChunks(h, t, cs)
    ensures d in AddChunks(h, t, cs) && d !in t ==> AddChunks(h, t, cs)[d] in cs && Blake(h, AddChunks(h, t, cs)[d]) == d
    decreases |cs|
  {
    if cs != [] {
      AddKeeps(h, AddChunk(h, t, cs[0]), cs[1..], d);
      if k :| 0 <= k < |cs| && Blake(h, cs[k]) == d {
        assert k > 0 ==> cs[1..][k - 1] == cs[k];
      }
    }
  }

  /** All chunks ever uploaded. */
  function ChunkSet(gear: Gear, ups: seq<Upload>): set<Bytes> {
    set u, c | u in ups && c in Chunks(gear, u.data) :: c
  }

  lemma {:induction false} TableHolds(h: Hash, gear: Gear, ups: seq<Upload>, d: Digest)
    ensures d in TableAfter(h, gear, ups) ==>
              Blake(h, TableAfter(h, gear, ups)[d]) == d && TableAfter(h, gear, ups)[d] in ChunkSet(gear, ups)
  {
    if ups != [] && d in TableAfter(h, gear, ups) {
      var front, u := ups[..|ups| - 1], ups[|ups| - 1];
      TableHolds(h, gear, front, d);
      AddKeeps(h, TableAfter(h, gear, front), Chunks(gear, u.data), d);
      assert u in ups && forall v :: v in front ==> v in ups;
    }
  }

  lemma {:induction false} TableCovers(h: Hash, gear: Gear, ups: seq<Upload>, i: nat, c: Bytes)
    requires i < |ups| && c in Chunks(gear, ups[i].data)
    ensures Blake(h, c) in TableAfter(h, gear, ups)
  {
    var front, u := ups[..|ups| - 1], ups[|ups| - 1];
    AddKeeps(h, TableAfter(h, gear, front), Chunks(gear, u.data), Blake(h, c));
    if i < |front| {
      TableCovers(h, gear, front, i, c);
    } else {
      var k :| 0 <= k < |Chunks(gear, u.data)| && Chunks(gear, u.data)[k] == c;
    }
  }

  /** What reading a recipe against the table returns. */
  function ReadBack(t: map<Digest, Bytes>, recipe: seq<Digest>): Bytes
    requires forall d :: d in recipe ==> d in t
    decreases |recipe|
  {
    if recipe == [] then [] else t[recipe[0]] + ReadBack(t, recipe[1..])
  }

  lemma {:induction false} ReadBackFlattens(h: Hash, t: map<Digest, Bytes>, cs: seq<Bytes>)
    requires forall c :: c in cs ==> Blake(h, c) in t && t[Blake(h, c)] == c
    ensures forall d :: d in Recipe(h, cs) ==> d in t
    ensures ReadBack(t, Recipe(h, cs)) == Flatten(cs)
    decreases |cs|
  {
    if cs != [] {
      assert Recipe(h, cs)[1..] == Recipe(h, cs[1..]);
      ReadBackFlattens(h, t, cs[1..]);
    }
  }

  /** After any run of uploads every upload still reads back byte for byte, or
      two uploaded chunks collide. */
  lemma EveryVersionReadsBack(h: Hash, gear: Gear, ups: seq<Upload>, i: nat)
    requires i < |ups|
    ensures
      var t, recipe := TableAfter(h, gear, ups), RecipeOf(h, gear, ups[i].data);
      && (forall d :: d in recipe ==> d in t)
      && (ReadBack(t, recipe) == ups[i].data || CollisionBetween(h, ChunkSet(gear, ups), ChunkSet(gear, ups)))
  {
    var t, cs := TableAfter(h, gear, ups), Chunks(gear, ups[i].data);
    forall c | c in cs
      ensures Blake(h, c) in t
      ensures t[Blake(h, c)] == c || CollisionBetween(h, ChunkSet(gear, ups), ChunkSet(gear, ups))
    {
      TableCovers(h, gear, ups, i, c);
      TableHolds(h, gear, ups, Blake(h, c));
      assert ups[i] in ups && c in ChunkSet(gear, ups);
      if t[Blake(h, c)] != c { assert Collides(h, c, t[Blake(h, c)]); }
    }
    if !CollisionBetween(h, ChunkSet(gear, ups), ChunkSet(gear, ups)) {
      ReadBackFlattens(h, t, cs);
      ChunksFlatten(gear, ups[i].data, 0);
    }
  }

  // ---- the file table ----

  datatype File = File(versions: seq<seq<Digest>>, roots: seq<Digest>)

  function FileOf(files: map<string, File>, name: string): File {
    if name in files then files[name] else File([], [])
  }

  function FilesAfter(h: Hash, gear: Gear, ups: seq<Upload>): map<string, File> {
    if ups == [] then map[]
    else
      var fs, u := FilesAfter(h, gear, ups[..|ups| - 1]), ups[|ups| - 1];
      var f, recipe := FileOf(fs, u.name), RecipeOf(h, gear, u.data);
      fs[u.name := File(f.versions + [recipe], f.roots + [Merkle.RootOf(h, recipe)])]
  }

  /** The table lists, for each name, the recipes and the Merkle roots of the
      uploads under that name, in order. */
  lemma {:induction false} FilesMean(h: Hash, gear: Gear, ups: seq<Upload>, name: string)
    ensures var fs, vs := FilesAfter(h, gear, ups), VersionsOf(ups, name);
            && (name in fs <==> vs != [])
            && |FileOf(fs, name).versions| == |FileOf(fs, name).roots| == |vs|
            && forall v :: 0 <= v < |vs| ==>
                 && FileOf(fs, name).versions[v] == RecipeOf(h, gear, vs[v])
                 && FileOf(fs, name).roots[v] == Merkle.RootOf(h, RecipeOf(h, gear, vs[v]))
  {
    if ups != [] {
      FilesMean(h, gear, ups[..|ups| - 1], name);
    }
  }

  // ---- what a file root does not tell ----

  lemma SmallIsOneChunk(gear: Gear, data: Bytes)
    requires 0 < |data| < MIN
    ensures Chunks(gear, data) == [data]
  {
    assert Cut(gear, data, 0) == |data|;
    assert ChunksFrom(gear, data, |data|) == [];
    assert data[0..|data|] == data;
    assert ChunksFrom(gear, data, 0) == [data[0..Cut(gear, data, 0)]] + ChunksFrom(gear, data, Cut(gear, data, 0));
  }

  /** Every file of two chunks or more shares its root with a file of 64 bytes:
      the digests of the two children of the root, side by side. */
  lemma RootOfShortFile(h: Hash, gear: Gear, big: Bytes) returns (small: Bytes)
    requires |Chunks(gear, big)| >= 2
    ensures |small| == 64 && small != big
    ensures Merkle.RootOf(h, RecipeOf(h, gear, small)) == Merkle.RootOf(h, RecipeOf(h, gear, big))
  {
    var a, b := Merkle.RootHasChildren(h, RecipeOf(h, gear, big));
    small := Raw(a) + Raw(b);
    SmallIsOneChunk(gear, small);
  }

  lemma UploadAdds(h: Hash, gear: Gear, ups: seq<Upload>, u: Upload)
    ensures var all, cs, t, fs := ups + [u], Chunks(gear, u.data), TableAfter(h, gear, ups), FilesAfter(h, gear, ups);
            var f, recipe := FileOf(fs, u.name), RecipeOf(h, gear, u.data);
            && TableAfter(h, gear, all) == AddChunks(h, t, cs)
            && HitsAfter(h, gear, all) == HitsAfter(h, gear, ups) + HitsIn(h, t, cs)
            && LogicalTotal(all) == LogicalTotal(ups) + |u.data|
            && FilesAfter(h, gear, all) == fs[u.name := File(f.versions + [recipe], f.roots + [Merkle.RootOf(h, recipe)])]
  {
    assert (ups + [u])[..|ups|] == ups;
    hide AddChunks, HitsIn, Chunks, RecipeOf, FileOf, Merkle.RootOf;
  }

  // ---- the store object ----

  class Store {
    const h: Hash
    const gear: Gear
    const codec: Codec
    var chunks: map<Digest, Bytes>
    var files: map<string, File>
    var logicalBytes: nat
    var dedupHits: nat
    ghost var ups: seq<Upload>

    ghost predicate Valid()
      reads this
    {
      && chunks == PackAll(codec, TableAfter(h, gear, ups))
      && dedupHits == HitsAfter(h, gear, ups)
      && logicalBytes == LogicalTotal(ups)
      && files == FilesAfter(h, gear, ups)
    }

    constructor (h: Hash, gear: Gear, codec: Codec)
      ensures Valid() && ups == [] && this.h == h && this.gear == gear && this.codec == codec
    {
      this.h, this.gear, this.codec := h, gear, codec;
      chunks, files, logicalBytes, dedupHits, ups := map[], map[], 0, 0, [];
    }

    /** Store the chunks of one upload, each digest once, and list its recipe. */
    method AddAll(cs: seq<Bytes>, ghost t0: map<Digest, Bytes>) returns (recipe: seq<Digest>)
      requires chunks == PackAll(codec, t0)
      modifies this`chunks, this`dedupHits
      ensures recipe == Recipe(h, cs)
      ensures chunks == PackAll(codec, AddChunks(h, t0, cs))
      ensures dedupHits == old(dedupHits) + HitsIn(h, t0, cs)
    {
      recipe := [];
      ghost var t := t0;
      for k := 0 to |cs|
        invariant recipe == Recipe(h, cs)[..k]
        invariant chunks == PackAll(codec, t)
        invariant AddChunks(h, t, cs[k..]) == AddChunks(h, t0, cs)
        invariant dedupHits + HitsIn(h, t, cs[k..]) == old(dedupHits) + HitsIn(h, t0, cs)
      {
        assert cs[k..][1..] == cs[k + 1..] && cs[k..][0] == cs[k];
        var hh := Blake(h, cs[k]);
        recipe := recipe + [hh];
        if hh in chunks {
          dedupHits := dedupHits + 1;
        } else {
          chunks := chunks[hh := codec.Pack(cs[k])];
        }
        t := AddChunk(h, t, cs[k]);
      }
    }

    method PutFile(name: string, data: Bytes) returns (version: nat)
      requires Valid()
      modifies this
      ensures Valid() && ups == old(ups) + [Upload(name, data)]
      ensures version == |VersionsOf(old(ups), name)|
    {
      hide TableAfter, HitsAfter, LogicalTotal, FilesAfter, AddChunks, HitsIn, PackAll, Chunks, VersionsOf, Merkle.RootOf;
      FilesMean(h, gear, ups, name);
      ghost var u := Upload(name, data);
      UploadAdds(h, gear, ups, u);
      var cs := Chunk(gear, data);
      var recipe := AddAll(cs, TableAfter(h, gear, ups));
      logicalBytes := logicalBytes + |data|;
      var f := if name in files then files[name] else File([], []);
      var root := Merkle.MerkleRoot(h, recipe);
      version := |f.versions|;
      files := files[name := File(f.versions + [recipe], f.roots + [root])];
      ups := ups + [u];
    }

    method ReadRecipe(recipe: seq<Digest>, ghost t: map<Digest, Bytes>) returns (out: Bytes)
      requires chunks == PackAll(codec, t) && codec.Inverts()
      requires forall d :: d in recipe ==> d in t
      ensures out == ReadBack(t, recipe)
    {
      out := [];
      for k := 0 to |recipe|
        invariant out + ReadBack(t, recipe[k..]) == ReadBack(t, recipe)
      {
        assert recipe[k..][1..] == recipe[k + 1..] && recipe[k..][0] == recipe[k];
        out := out + codec.Unpack(chunks[recipe[k]]);
      }
    }

    /** The bytes of a version; a negative version counts from the newest. */
    method GetFile(name: string, version: int) returns (r: Option<Bytes>)
      requires Valid() && codec.Inverts()
      ensures var vs := VersionsOf(ups, name);
              var v := if version < 0 then |vs| + version else version;
              && (r.None? <==> !(0 <= v < |vs|))
              && (r.Some? ==> r.value == vs[v] || CollisionBetween(h, ChunkSet(gear, ups), ChunkSet(gear, ups)))
    {
      ghost var vs := VersionsOf(ups, name);
      FilesMean(h, gear, ups, name);
      if name !in files {
        return None;
      }
      var f := files[name];
      var v := if version < 0 then |f.versions| + version else version;
      if v < 0 || v >= |f.versions| {
        return None;
      }
      ghost var i := VersionIsUpload(ups, name, v);
      EveryVersionReadsBack(h, gear, ups, i);
      var out := ReadRecipe(f.versions[v], TableAfter(h, gear, ups));
      r := Some(out);
    }
  }

  function PackAll(codec: Codec, t: map<Digest, Bytes>): map<Digest, Bytes> {
    map d | d in t :: codec.Pack(t[d])
  }

  lemma {:induction false} VersionIsUpload(ups: seq<Upload>, name: string, v: nat) returns (i: nat)
    requires v < |VersionsOf(ups, name)|
    ensures i < |ups| && ups[i] == Upload(name, VersionsOf(ups, name)[v])
  {
    var front := ups[..|ups| - 1];
    if v < |VersionsOf(front, name)| {
      i := VersionIsUpload(front, name, v);
    } else {
      i := |ups| - 1;
    }
  }
}
