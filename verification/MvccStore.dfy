/** The versioned store: one ascending chain of versions per key
    (python/nedb/store.py, rust/crates/nedb-core/src/store.rs). */
module MvccStore {
  import opened Collections
  import opened Hashing
  import opened Ops

  /** A version, or with no document a tombstone. */
  datatype Version = Version(at: nat, doc: Option<Doc>)

  type Table = map<string, seq<Version>>

  function ChainOf(t: Table, key: string): seq<Version> { if key in t then t[key] else [] }

  function Append(t: Table, key: string, v: Version): Table { t[key := ChainOf(t, key) + [v]] }

  predicate Ascending(chain: seq<Version>) {
    forall i, j :: 0 <= i < j < |chain| ==> chain[i].at < chain[j].at
  }

  /** Every version is older than s. */
  predicate Older(chain: seq<Version>, s: int) {
    forall i :: 0 <= i < |chain| ==> chain[i].at < s
  }

  function Newest(chain: seq<Version>): Option<Doc> {
    if chain == [] then None else chain[|chain| - 1].doc
  }

  /** The newest version no younger than n. */
  function AsOf(chain: seq<Version>, n: int): Option<Doc> {
    if chain == [] then None
    else if chain[|chain| - 1].at <= n then chain[|chain| - 1].doc
    else AsOf(chain[..|chain| - 1], n)
  }

  function Read(t: Table, key: string, asOf: Option<int>): Option<Doc> {
    match asOf
    case None => Newest(ChainOf(t, key))
    case Some(n) => AsOf(ChainOf(t, key), n)
  }

  function KeysOf(t: Table, prefix: string, asOf: Option<int>): set<string> {
    set k | k in t && prefix <= k && Read(t, k, asOf).Some?
  }

  /** A position splits an ascending chain at n. */
  predicate SplitsAt(chain: seq<Version>, n: int, i: nat) {
    && i <= |chain|
    && (forall j :: 0 <= j < i ==> chain[j].at <= n)
    && (forall j :: i <= j < |chain| ==> chain[j].at > n)
  }

  lemma {:induction false} SplitReads(chain: seq<Version>, n: int, i: nat)
    requires SplitsAt(chain, n, i)
    ensures AsOf(chain, n) == if i == 0 then None else chain[i - 1].doc
  {
    if i < |chain| {
      SplitReads(chain[..|chain| - 1], n, i);
    }
  }

  /** A write younger than n changes no read at n. */
  lemma PastIsKept(t: Table, key: string, v: Version, k: string, n: int)
    requires v.at > n
    ensures Read(Append(t, key, v), k, Some(n)) == Read(t, k, Some(n))
  {
    if k == key {
      assert (ChainOf(t, key) + [v])[..|ChainOf(t, key)|] == ChainOf(t, key);
    }
  }

  /** A read no older than every version is a read at the head. */
  lemma PresentIsHead(t: Table, k: string, n: int)
    requires Older(ChainOf(t, k), n + 1)
    ensures Read(t, k, Some(n)) == Read(t, k, None)
  {
  }

  function Stamps(chain: seq<Version>): seq<nat> { seq(|chain|, i requires 0 <= i < |chain| => chain[i].at) }

  /** The table and its parallel lists of sequence numbers agree. */
  ghost predicate Paired(v: Table, seqs: map<string, seq<nat>>) {
    && (forall k :: k in v <==> k in seqs)
    && (forall k :: k in v ==> v[k] != [] && Ascending(v[k]) && seqs[k] == Stamps(v[k]))
  }

  lemma PairedAppend(v: Table, seqs: map<string, seq<nat>>, key: string, x: Version)
    requires Paired(v, seqs) && Older(ChainOf(v, key), x.at)
    ensures Paired(Append(v, key, x), seqs[key := (if key in seqs then seqs[key] else []) + [x.at]])
  {
    var chain := ChainOf(v, key);
    assert Stamps(chain + [x]) == Stamps(chain) + [x.at];
  }

  /** How many entries are at most n, by binary search. */
  method BisectRight(xs: seq<nat>, n: int) returns (lo: nat)
    requires forall i, j :: 0 <= i < j < |xs| ==> xs[i] < xs[j]
    ensures lo <= |xs|
    ensures forall i :: 0 <= i < lo ==> xs[i] <= n
    ensures forall i :: lo <= i < |xs| ==> xs[i] > n
  {
    lo := 0;
    var hi := |xs|;
    while lo < hi
      invariant lo <= hi <= |xs|
      invariant forall i :: 0 <= i < lo ==> xs[i] <= n
      invariant forall i :: hi <= i < |xs| ==> xs[i] > n
    {
      var mid := (lo + hi) / 2;
      if xs[mid] <= n {
        lo := mid + 1;
      } else {
        hi := mid;
      }
    }
  }

  class Store {
    var v: Table
    var seqs: map<string, seq<nat>>

    ghost predicate Valid()
      reads this
    {
      Paired(v, seqs)
    }

    constructor ()
      ensures Valid() && v == map[]
    {
      v, seqs := map[], map[];
    }

    method Push(key: string, x: Version)
      requires Valid() && Older(ChainOf(v, key), x.at)
      modifies this
      ensures Valid() && v == Append(old(v), key, x)
    {
      PairedAppend(v, seqs, key, x);
      v := v[key := (if key in v then v[key] else []) + [x]];
      seqs := seqs[key := (if key in seqs then seqs[key] else []) + [x.at]];
    }

    method Put(key: string, doc: Doc, seqNo: nat)
      requires Valid() && Older(ChainOf(v, key), seqNo)
      modifies this
      ensures Valid() && v == Append(old(v), key, Version(seqNo, Some(doc)))
      ensures Read(v, key, None) == Some(doc)
    {
      Push(key, Version(seqNo, Some(doc)));
    }

    method Delete(key: string, seqNo: nat)
      requires Valid() && Older(ChainOf(v, key), seqNo)
      modifies this
      ensures Valid() && v == Append(old(v), key, Version(seqNo, None))
      ensures Read(v, key, None) == None
    {
      Push(key, Version(seqNo, None));
    }

    method Get(key: string, asOf: Option<int>) returns (r: Option<Doc>)
      requires Valid()
      ensures r == Read(v, key, asOf)
    {
      if key !in v {
        return None;
      }
      var chain := v[key];
      if asOf.None? {
        return chain[|chain| - 1].doc;
      }
      var i := BisectRight(seqs[key], asOf.value);
      assert forall j :: 0 <= j < |chain| ==> seqs[key][j] == chain[j].at;
      SplitReads(chain, asOf.value, i);
      if i == 0 {
        return None;
      }
      return chain[i - 1].doc;
    }

    /** The live keys with a prefix, in any order. */
    method Keys(prefix: string, asOf: Option<int>) returns (out: seq<string>)
      requires Valid()
      ensures Enumerates(out, KeysOf(v, prefix, asOf))
    {
      hide Read, Paired;
      out := [];
      var rest := v.Keys;
      while rest != {}
        invariant rest <= v.Keys && Distinct(out)
        invariant forall k :: k in out <==> k in KeysOf(v, prefix, asOf) && k !in rest
        decreases |rest|
      {
        var k :| k in rest;
        rest := rest - {k};
        if prefix <= k {
          var doc := Get(k, asOf);
          if doc.Some? {
            out := out + [k];
          }
        }
      }
    }
  }
}
