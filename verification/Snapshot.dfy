/** Checkpoints: saving the head state, loading it back, and replaying only what
    came later (python/nedb/snapshot.py, engine.py). */
module Snapshot {
  import opened Hashing
  import opened Ops
  import opened MvccStore
  import opened RelationGraph
  import opened FieldIndexes
  import opened Engine
  import opened Trace
  import OpLog

  // ---- what a snapshot holds ----

  /** The newest version of every key. */
  function LastOnly(t: Table): map<string, Version> { map k | k in t && t[k] != [] :: t[k][|t[k]| - 1] }

  function LoadedStore(saved: map<string, Version>): Table { map k | k in saved :: [saved[k]] }

  /** The one string a source node and a relation are saved under. */
  function RelName(k: (string, string)): string { k.0 + "|" + k.1 }

  function SplitName(name: string): (string, string) { (Before(name, '|'), After(name, '|')) }

  /** Every edge list is saved under its name; where two share a name, one of
      them is kept. */
  ghost predicate SavedRels(a: Adj, rels: map<string, seq<Edge>>) {
    && (forall k :: k in a ==> RelName(k) in rels)
    && (forall name :: name in rels ==> exists k :: k in a && RelName(k) == name && rels[name] == a[k])
  }

  lemma {:induction false} SplitJoins(name: string)
    ensures '|' in name ==> RelName(SplitName(name)) == name
    ensures '|' !in Before(name, '|')
  {
    if name != "" && name[0] != '|' {
      SplitJoins(name[1..]);
      if '|' in name {
        assert name == [name[0]] + name[1..];
        assert RelName(SplitName(name)) == [name[0]] + RelName(SplitName(name[1..]));
      }
    } else if name != "" {
      assert Before(name, '|') == "" && After(name, '|') == name[1..];
      assert name == "" + "|" + name[1..];
    }
  }

  lemma SplitInjective(x: string, y: string)
    requires '|' in x && '|' in y && SplitName(x) == SplitName(y)
    ensures x == y
  {
    SplitJoins(x);
    SplitJoins(y);
  }

  ghost predicate Joined(rels: map<string, seq<Edge>>) { forall name :: name in rels ==> '|' in name && rels[name] != [] }

  /** The forward lists a snapshot is loaded into. */
  ghost predicate LoadedAdj(rels: map<string, seq<Edge>>, a: Adj) {
    && (forall name :: name in rels ==> SplitName(name) in a && a[SplitName(name)] == rels[name])
    && (forall k :: k in a ==> exists name :: name in rels && SplitName(name) == k)
  }

  /** Exactly when saving and loading keeps the forward lists: no source node has
      a bar in its name. */
  lemma RelationsRoundTrip(a: Adj, rels: map<string, seq<Edge>>, b: Adj)
    requires SavedRels(a, rels) && LoadedAdj(rels, b)
    ensures b == a <==> forall k :: k in a ==> '|' !in k.0
  {
    if forall k :: k in a ==> '|' !in k.0 {
      forall k | k in a ensures SplitName(RelName(k)) == k {
        SplitsAtFirst(k.0, '|', k.1);
        assert RelName(k) == k.0 + ['|'] + k.1;
      }
      NamesAreKeys(a, rels);
      assert b == a;
    } else {
      var k :| k in a && '|' in k.0;
      if k in b {
        var name :| name in rels && SplitName(name) == k;
        SplitJoins(name);
      }
    }
  }

  /** A link that comes back as another: its source has a bar. */
  lemma BarIsLost(e: Edge)
    ensures var a, rels, b := map[("a|b", "r") := [e]], map["a|b|r" := [e]], map[("a", "b|r") := [e]];
            SavedRels(a, rels) && LoadedAdj(rels, b) && b != a
  {
    var a, rels := map[("a|b", "r") := [e]], map["a|b|r" := [e]];
    SplitsAtFirst("a", '|', "b|r");
    assert "a" + ['|'] + "b|r" == "a|b|r";
    assert RelName(("a|b", "r")) == "a|b|r" && ("a|b", "r") in a;
    assert SplitName("a|b|r") == ("a", "b|r") && "a|b|r" in rels;
    assert |("a|b", "r").0| != |("a", "b|r").0|;
  }

  lemma NamesAreKeys(a: Adj, rels: map<string, seq<Edge>>)
    requires SavedRels(a, rels) && forall k :: k in a ==> SplitName(RelName(k)) == k
    ensures forall k :: k in a ==> RelName(k) in rels && rels[RelName(k)] == a[k]
    ensures forall name :: name in rels ==> SplitName(name) in a && RelName(SplitName(name)) == name
  {
    forall k | k in a ensures rels[RelName(k)] == a[k] {
      var j :| j in a && RelName(j) == RelName(k) && rels[RelName(k)] == a[j];
      assert SplitName(RelName(j)) == j;
    }
    forall name | name in rels ensures SplitName(name) in a && RelName(SplitName(name)) == name {
      var k :| k in a && RelName(k) == name && rels[name] == a[k];
      assert SplitName(name) == k;
    }
  }

  // ---- replay from a checkpoint ----

  /** d1 agrees with d from sequence number c on. */
  ghost predicate AgreeFrom(d1: Data, d: Data, c: nat) {
    && (forall k, n: int :: n >= c ==> Read(d1.store, k, Some(n)) == Read(d.store, k, Some(n)))
    && (forall k :: Read(d1.store, k, None) == Read(d.store, k, None))
    && d1.graph.adj == d.graph.adj && Mirror(d1.graph) && Mirror(d.graph)
  }

  lemma AppendReads(t: Table, key: string, v: Version, k: string, asOf: Option<int>)
    ensures Read(Append(t, key, v), k, asOf) ==
              if k == key && (asOf.None? || v.at <= asOf.value) then v.doc else Read(t, k, asOf)
  {
    if k == key {
      assert (ChainOf(t, key) + [v])[..|ChainOf(t, key)|] == ChainOf(t, key);
    }
  }

  lemma OpAgrees(d1: Data, d: Data, c: nat, op: Op)
    requires AgreeFrom(d1, d, c) && op.body.seqNo > c
    ensures AgreeFrom(ApplyTo(d1, op), ApplyTo(d, op), c)
  {
    StoreAgrees(d1.store, d.store, c, op);
    GraphAgrees(d1.graph, d.graph, op);
    hide StoreOp, GraphOp, Mirror, Read;
  }

  lemma StoreAgrees(t1: Table, t: Table, c: nat, op: Op)
    requires forall k, n: int :: n >= c ==> Read(t1, k, Some(n)) == Read(t, k, Some(n))
    requires forall k :: Read(t1, k, None) == Read(t, k, None)
    ensures forall k, n: int :: n >= c ==> Read(StoreOp(t1, op), k, Some(n)) == Read(StoreOp(t, op), k, Some(n))
    ensures forall k :: Read(StoreOp(t1, op), k, None) == Read(StoreOp(t, op), k, None)
  {
    hide Read, Append, KeyOf;
    if op.body.req.action.Put? || op.body.req.action.Delete? {
      var key := KeyOf(op.body.req.action.coll, op.body.req.action.id);
      var v := Version(op.body.seqNo, ActionDoc(op));
      assert StoreOp(t1, op) == Append(t1, key, v) && StoreOp(t, op) == Append(t, key, v);
      forall k, n: int | n >= c ensures Read(StoreOp(t1, op), k, Some(n)) == Read(StoreOp(t, op), k, Some(n)) {
        AppendReads(t1, key, v, k, Some(n));
        AppendReads(t, key, v, k, Some(n));
      }
      forall k ensures Read(StoreOp(t1, op), k, None) == Read(StoreOp(t, op), k, None) {
        AppendReads(t1, key, v, k, None);
        AppendReads(t, key, v, k, None);
      }
    }
  }

  lemma GraphAgrees(g1: Graph, g: Graph, op: Op)
    requires g1.adj == g.adj && Mirror(g1) && Mirror(g)
    ensures GraphOp(g1, op).adj == GraphOp(g, op).adj && Mirror(GraphOp(g1, op)) && Mirror(GraphOp(g, op))
  {
    hide Mirror, Close, Extend, HasOpen;
    match op.body.req.action
    case Link(frm, rel, to) =>
      LinkMirror(g1, frm, rel, to, op.body.seqNo);
      LinkMirror(g, frm, rel, to, op.body.seqNo);
    case Unlink(frm, rel, to) =>
      UnlinkMirror(g1, frm, rel, to, op.body.seqNo);
      UnlinkMirror(g, frm, rel, to, op.body.seqNo);
    case _ =>
  }

  lemma {:induction false} DeltaAgrees(d1: Data, d: Data, c: nat, ops: seq<Op>, s: nat)
    requires AgreeFrom(d1, d, c) && Numbered(ops, s) && s > c
    ensures AgreeFrom(FoldFrom(d1, ops), FoldFrom(d, ops), c)
  {
    if ops != [] {
      hide AgreeFrom;
      DeltaAgrees(d1, d, c, ops[..|ops| - 1], s);
      OpAgrees(FoldFrom(d1, ops[..|ops| - 1]), FoldFrom(d, ops[..|ops| - 1]), c, ops[|ops| - 1]);
    }
  }

  /** Two states that agree answer every read alike: documents and links exactly,
      inbound links as a set. */
  lemma AgreeReads(d1: Data, d: Data, c: nat, asOf: Option<int>, to: string, rel: string)
    requires AgreeFrom(d1, d, c) && (asOf.None? || asOf.value >= c)
    ensures ViewAt(d1, asOf).docs == ViewAt(d, asOf).docs && ViewAt(d1, asOf).links == ViewAt(d, asOf).links
    ensures forall frm :: frm in Live(EdgesOf(d1.graph.radj, (to, rel)), asOf) <==> frm in Live(EdgesOf(d.graph.radj, (to, rel)), asOf)
  {
    hide Mirror, Read;
    forall k ensures Read(d1.store, k, asOf) == Read(d.store, k, asOf) {
      match asOf
      case None =>
      case Some(n) =>
    }
    DocsSame(d1.store, asOf, d.store, asOf);
    forall frm ensures frm in Live(EdgesOf(d1.graph.radj, (to, rel)), asOf) <==> frm in Live(EdgesOf(d.graph.radj, (to, rel)), asOf) {
      hide Live, EdgesOf;
      SidesAgree(d1.graph, frm, rel, to, asOf);
      SidesAgree(d.graph, frm, rel, to, asOf);
    }
  }

  /** What was loaded: one version a key, the edges, and both sides in step. */
  ghost predicate Loaded(d0: Data, rels: map<string, seq<Edge>>, d1: Data) {
    && d1.store == LoadedStore(LastOnly(d0.store))
    && SavedRels(d0.graph.adj, rels) && LoadedAdj(rels, d1.graph.adj) && Mirror(d1.graph)
  }

  lemma LoadedAgrees(d0: Data, rels: map<string, seq<Edge>>, d1: Data, c: nat)
    requires DataOk(d0, c + 1) && Loaded(d0, rels, d1) && forall k :: k in d0.graph.adj ==> '|' !in k.0
    ensures AgreeFrom(d1, d0, c)
  {
    hide Mirror, Stamped, Intervals;
    RelationsRoundTrip(d0.graph.adj, rels, d1.graph.adj);
    hide SavedRels, LoadedAdj;
    forall k, n: int | n >= c ensures Read(d1.store, k, Some(n)) == Read(d0.store, k, Some(n)) {
      PresentIsHead(d0.store, k, n);
    }
  }

  // ---- the indexes ----

  /** As `Faithful`, for the keys in `done`. */
  ghost predicate FaithfulFor<K(!new)>(rows: Rows<K>, t: Terms<K>, docs: map<string, Doc>, done: set<string>) {
    forall name, k, key :: name in rows ==> (key in Lookup(rows[name], k) <==> Filed(t, docs, name, k, key) && key in done)
  }

  lemma FileOne<K(!new)>(rows: Rows<K>, t: Terms<K>, docs: map<string, Doc>, done: set<string>, key: string)
    requires FaithfulFor(rows, t, docs, done) && key in docs
    ensures FaithfulFor(AddAll(rows, t, CollOf(key), key, docs[key]), t, docs, done + {key})
  {
    hide CollOf;
    var rows' := AddAll(rows, t, CollOf(key), key, docs[key]);
    forall n, k, x | n in rows' ensures x in Lookup(rows'[n], k) <==> Filed(t, docs, n, k, x) && x in done + {key} {
      assert x in Lookup(rows[n], k) <==> Filed(t, docs, n, k, x) && x in done;
    }
  }

  function BlankRows<K>(names: set<string>): Rows<K> { map name | name in names :: map[] }

  /** Faithful indexes with one configuration answer alike. */
  lemma FaithfulSame<K(!new)>(a: Rows<K>, b: Rows<K>, t: Terms<K>, docs: map<string, Doc>, name: string, k: K)
    requires Faithful(a, t, docs) && Faithful(b, t, docs) && name in a && name in b
    ensures Lookup(a[name], k) == Lookup(b[name], k)
  {
    hide Filed, Lookup;
    forall key ensures key in Lookup(a[name], k) <==> key in Lookup(b[name], k) {
      assert key in Lookup(a[name], k) <==> Filed(t, docs, name, k, key);
      assert key in Lookup(b[name], k) <==> Filed(t, docs, name, k, key);
    }
  }

  /** Replay, indexes and all. */
  function Replay(tk: Tokenizer, db: Db, ops: seq<Op>): Db {
    if ops == [] then db
    else
      var before, op := Replay(tk, db, ops[..|ops| - 1]), ops[|ops| - 1];
      Db(ApplyTo(before.data, op), IndexOp(before.eq, EqTerms, Heads(before.data.store), op),
         IndexOp(before.inv, ByText(tk), Heads(before.data.store), op))
  }

  lemma IndexOpNames<K>(rows: Rows<K>, t: Terms<K>, docs: map<string, Doc>, op: Op)
    ensures IndexOp(rows, t, docs, op).Keys == rows.Keys
  {}

  lemma {:induction false} ReplayKeeps(tk: Tokenizer, db: Db, ops: seq<Op>)
    requires DbOk(tk, db) && forall i :: 0 <= i < |ops| ==> NamedPlainly(ops[i])
    ensures var r := Replay(tk, db, ops);
            DbOk(tk, r) && r.data == FoldFrom(db.data, ops) && r.eq.Keys == db.eq.Keys && r.inv.Keys == db.inv.Keys
  {
    if ops != [] {
      hide DbOk, IndexOp, NamedPlainly, ApplyTo;
      ReplayKeeps(tk, db, ops[..|ops| - 1]);
      var before, op := Replay(tk, db, ops[..|ops| - 1]), ops[|ops| - 1];
      assert NamedPlainly(op);
      IndexOpNames(before.eq, EqTerms, Heads(before.data.store), op);
      IndexOpNames(before.inv, ByText(tk), Heads(before.data.store), op);
      StepIs(tk, before, op);
      DbStepKeeps(tk, before, Write(op), Replay(tk, db, ops));
    }
  }

  lemma StepIs(tk: Tokenizer, db: Db, op: Op)
    requires NamedPlainly(op)
    ensures DbStep(tk, db, Write(op), Db(ApplyTo(db.data, op), IndexOp(db.eq, EqTerms, Heads(db.data.store), op),
                                         IndexOp(db.inv, ByText(tk), Heads(db.data.store), op)))
  {
    hide NamedPlainly, ApplyTo, IndexOp;
  }

  /** A snapshot taken at the checkpoint c and loaded: the state, and the indexes
      of the saved configuration filed from it. */
  ghost predicate LoadedDb(tk: Tokenizer, d0: Data, rels: map<string, seq<Edge>>, eqNames: set<string>, invNames: set<string>, db: Db) {
    && Loaded(d0, rels, db.data) && db.eq.Keys == eqNames && db.inv.Keys == invNames
    && Faithful(db.eq, EqTerms, Heads(db.data.store)) && Faithful(db.inv, ByText(tk), Heads(db.data.store))
  }

  /** An empty database with its indexes configured, as a full replay starts. */
  function Configured(eqNames: set<string>, invNames: set<string>): Db { Db(EMPTY, BlankRows(eqNames), BlankRows(invNames)) }

  lemma ConfiguredOk(tk: Tokenizer, eqNames: set<string>, invNames: set<string>)
    ensures DbOk(tk, Configured(eqNames, invNames))
  {}

  lemma HeadsOfLoaded(d0: Data, rels: map<string, seq<Edge>>, d1: Data, c: nat)
    requires AgreeFrom(d1, d0, c)
    ensures Heads(d1.store) == Heads(d0.store)
  {
    hide Read, Mirror;
    DocsSame(d1.store, None, d0.store, None);
  }

  lemma LoadedOk(tk: Tokenizer, ops: seq<Op>, c: nat, rels: map<string, seq<Edge>>, eqNames: set<string>, invNames: set<string>, db: Db)
    requires Numbered(ops, 0) && c < |ops| && (forall i :: 0 <= i < |ops| ==> NamedPlainly(ops[i]))
    requires LoadedDb(tk, Fold(ops[..c + 1]), rels, eqNames, invNames, db)
    requires forall k :: k in Fold(ops[..c + 1]).graph.adj ==> '|' !in k.0
    ensures DbOk(tk, db) && AgreeFrom(db.data, Fold(ops[..c + 1]), c)
  {
    var d0 := Fold(ops[..c + 1]);
    hide Fold, DataOk, AgreeFrom, Loaded, Faithful, PlainKeys, Heads, NamedPlainly;
    FoldOk(ops[..c + 1]);
    LoadedAgrees(d0, rels, db.data, c);
    HeadsOfLoaded(d0, rels, db.data, c);
    ConfiguredOk(tk, {}, {});
    ReplayKeeps(tk, Configured({}, {}), ops[..c + 1]);
    assert Fold(ops[..c + 1]) == FoldFrom(EMPTY, ops[..c + 1]) by { FoldIs(ops[..c + 1]); }
  }

  lemma FoldIs(ops: seq<Op>)
    ensures Fold(ops) == FoldFrom(EMPTY, ops)
  {}

  /** The same inbound nodes, in whatever order. */
  ghost predicate InboundAlike(a: Data, b: Data, asOf: Option<int>) {
    forall to, rel, frm ::
      frm in Live(EdgesOf(a.graph.radj, (to, rel)), asOf) <==> frm in Live(EdgesOf(b.graph.radj, (to, rel)), asOf)
  }

  /** Every index of these names answers alike. */
  ghost predicate IndexesAlike<K(!new)>(a: Rows<K>, b: Rows<K>, names: set<string>) {
    forall name, k :: name in names ==> name in a && name in b && Lookup(a[name], k) == Lookup(b[name], k)
  }

  /** Two databases answer every read at one point, and every index, alike. */
  ghost predicate Alike(a: Db, b: Db, eqNames: set<string>, invNames: set<string>, asOf: Option<int>) {
    && ViewAt(a.data, asOf).docs == ViewAt(b.data, asOf).docs && ViewAt(a.data, asOf).links == ViewAt(b.data, asOf).links
    && InboundAlike(a.data, b.data, asOf)
    && IndexesAlike(a.eq, b.eq, eqNames) && IndexesAlike(a.inv, b.inv, invNames)
  }

  /** Loading a checkpoint and replaying the later ops refines full replay: the
      same documents and links at the head and at every point from the checkpoint
      on, the same inbound sets, and the same answers from every index. */
  lemma SnapshotRefinesReplay(tk: Tokenizer, ops: seq<Op>, c: nat, rels: map<string, seq<Edge>>, eqNames: set<string>, invNames: set<string>,
                              db: Db, asOf: Option<int>)
    requires Numbered(ops, 0) && c < |ops| && (forall i :: 0 <= i < |ops| ==> NamedPlainly(ops[i]))
    requires LoadedDb(tk, Fold(ops[..c + 1]), rels, eqNames, invNames, db)
    requires forall k :: k in Fold(ops[..c + 1]).graph.adj ==> '|' !in k.0
    requires asOf.None? || asOf.value >= c
    ensures Alike(Replay(tk, db, ops[c + 1..]), Replay(tk, Configured(eqNames, invNames), ops), eqNames, invNames, asOf)
  {
    hide *;
    var a, b := Replay(tk, db, ops[c + 1..]), Replay(tk, Configured(eqNames, invNames), ops);
    LoadedOk(tk, ops, c, rels, eqNames, invNames, db);
    ConfiguredOk(tk, eqNames, invNames);
    ReplayKeeps(tk, db, ops[c + 1..]);
    ReplayKeeps(tk, Configured(eqNames, invNames), ops);
    ReplaySplits(ops, c, eqNames, invNames);
    DeltaAgrees(db.data, Fold(ops[..c + 1]), c, ops[c + 1..], c + 1);
    LoadedNames(tk, Fold(ops[..c + 1]), rels, eqNames, invNames, db);
    HeadsOfLoaded(b.data, rels, a.data, c);
    SameAnswers(tk, a, b);
    AlikeFrom(a, b, c, eqNames, invNames, asOf);
  }

  lemma AlikeFrom(a: Db, b: Db, c: nat, eqNames: set<string>, invNames: set<string>, asOf: Option<int>)
    requires AgreeFrom(a.data, b.data, c) && (asOf.None? || asOf.value >= c)
    requires IndexesAlike(a.eq, b.eq, eqNames) && IndexesAlike(a.inv, b.inv, invNames)
    ensures Alike(a, b, eqNames, invNames, asOf)
  {
    hide AgreeFrom, IndexesAlike, ViewAt, Live, EdgesOf;
    forall to, rel, frm
      ensures frm in Live(EdgesOf(a.data.graph.radj, (to, rel)), asOf) <==> frm in Live(EdgesOf(b.data.graph.radj, (to, rel)), asOf)
    {
      AgreeReads(a.data, b.data, c, asOf, to, rel);
    }
    AgreeReads(a.data, b.data, c, asOf, "", "");
  }

  lemma ReplaySplits(ops: seq<Op>, c: nat, eqNames: set<string>, invNames: set<string>)
    requires c < |ops| && Numbered(ops, 0)
    ensures FoldFrom(Configured(eqNames, invNames).data, ops) == FoldFrom(Fold(ops[..c + 1]), ops[c + 1..])
    ensures Numbered(ops[c + 1..], c + 1)
    ensures Configured(eqNames, invNames).eq.Keys == eqNames && Configured(eqNames, invNames).inv.Keys == invNames
  {
    hide FoldFrom, Fold;
    assert ops == ops[..c + 1] + ops[c + 1..];
    FoldAppends(EMPTY, ops[..c + 1], ops[c + 1..]);
    FoldIs(ops[..c + 1]);
  }

  lemma LoadedNames(tk: Tokenizer, d0: Data, rels: map<string, seq<Edge>>, eqNames: set<string>, invNames: set<string>, db: Db)
    requires LoadedDb(tk, d0, rels, eqNames, invNames, db)
    ensures db.eq.Keys == eqNames && db.inv.Keys == invNames
  {
    hide Loaded, Faithful;
  }

  lemma SameAnswers(tk: Tokenizer, a: Db, b: Db)
    requires DbOk(tk, a) && DbOk(tk, b) && Heads(a.data.store) == Heads(b.data.store)
    requires a.eq.Keys == b.eq.Keys && a.inv.Keys == b.inv.Keys
    ensures IndexesAlike(a.eq, b.eq, a.eq.Keys) && IndexesAlike(a.inv, b.inv, a.inv.Keys)
  {
    hide Faithful, Heads, Lookup, PlainKeys;
    forall name, v | name in a.eq.Keys ensures name in a.eq && name in b.eq && Lookup(a.eq[name], v) == Lookup(b.eq[name], v) {
      assert name in b.eq.Keys;
      FaithfulSame(a.eq, b.eq, EqTerms, Heads(a.data.store), name, v);
    }
    forall name, t | name in a.inv.Keys ensures name in a.inv && name in b.inv && Lookup(a.inv[name], t) == Lookup(b.inv[name], t) {
      assert name in b.inv.Keys;
      FaithfulSame(a.inv, b.inv, ByText(tk), Heads(a.data.store), name, t);
    }
  }

  // ---- the loops ----

  /** Serialise the newest versions. */
  method SaveStore(store: Store) returns (saved: map<string, Version>)
    requires store.Valid()
    ensures saved == LastOnly(store.v)
  {
    saved := map[];
    var rest := store.v.Keys;
    while rest != {}
      invariant rest <= store.v.Keys
      invariant saved == map k | k in store.v && store.v[k] != [] && k !in rest :: store.v[k][|store.v[k]| - 1]
      decreases |rest|
    {
      var key :| key in rest;
      var versions := store.v[key];
      saved := saved[key := versions[|versions| - 1]];
      rest := rest - {key};
    }
  }

  /** Serialise the forward edge lists. */
  method SaveRels(relations: Relations) returns (rels: map<string, seq<Edge>>)
    ensures SavedRels(relations.adj, rels)
    ensures forall name :: name in rels ==> '|' in name
  {
    rels := map[];
    var rest := relations.adj.Keys;
    while rest != {}
      invariant rest <= relations.adj.Keys
      invariant forall k :: k in relations.adj && k !in rest ==> RelName(k) in rels
      invariant forall name :: name in rels ==>
                  '|' in name && exists k :: k in relations.adj && RelName(k) == name && rels[name] == relations.adj[k]
      decreases |rest|
    {
      var k :| k in rest;
      assert RelName(k)[|k.0|] == '|';
      rels := rels[k.0 + "|" + k.1 := relations.adj[k]];
      rest := rest - {k};
    }
  }

  /** The keys outside `rest` are loaded and filed. */
  ghost predicate FiledSoFar(saved: map<string, Version>, rest: set<string>, eq: Rows<Value>, inv: Rows<string>, tk: Tokenizer) {
    Coloned(saved) ==>
      && FaithfulFor(eq, EqTerms, SavedDocs(saved), saved.Keys - rest)
      && FaithfulFor(inv, ByText(tk), SavedDocs(saved), saved.Keys - rest)
  }

  function VersionsBut(saved: map<string, Version>, rest: set<string>): Table { map k | k in saved && k !in rest :: [saved[k]] }

  /** File one saved version. */
  method FileKey(saved: map<string, Version>, ghost rest: set<string>, indexes: Indexes, key: string)
    requires key in saved && key in rest && FiledSoFar(saved, rest, indexes.eq, indexes.inv, indexes.tk)
    modifies indexes
    ensures FiledSoFar(saved, rest - {key}, indexes.eq, indexes.inv, indexes.tk)
    ensures indexes.eq.Keys == old(indexes.eq.Keys) && indexes.inv.Keys == old(indexes.inv.Keys)
  {
    hide FaithfulFor, AddAll, CollOf, ByText, EqTerms, SavedDocs, Before;
    var e := saved[key];
    ghost var docs, done := SavedDocs(saved), saved.Keys - rest;
    LiveOrNot(saved, key);
    assert saved.Keys - (rest - {key}) == done + {key};
    if e.doc.Some? {
      var coll := if ':' in key then Before(key, ':') else key;
      AddNames(indexes.eq, EqTerms, coll, key, e.doc.value);
      AddNames(indexes.inv, ByText(indexes.tk), coll, key, e.doc.value);
      if Coloned(saved) {
        CollIs(key);
        FileOne(indexes.eq, EqTerms, docs, done, key);
        FileOne(indexes.inv, ByText(indexes.tk), docs, done, key);
      }
      indexes.Add(coll, key, e.doc.value);
    } else {
      FileNone(indexes.eq, EqTerms, docs, done, key);
      FileNone(indexes.inv, ByText(indexes.tk), docs, done, key);
    }
  }

  lemma VersionsEnds(saved: map<string, Version>)
    ensures VersionsBut(saved, saved.Keys) == map[] && VersionsBut(saved, {}) == LoadedStore(saved)
  {}

  lemma VersionsNext(saved: map<string, Version>, rest: set<string>, key: string)
    requires key in rest && key in saved
    ensures VersionsBut(saved, rest)[key := [saved[key]]] == VersionsBut(saved, rest - {key})
  {}

  /** Load the saved versions and file the live documents in the indexes. */
  method LoadStore(saved: map<string, Version>, indexes: Indexes) returns (t: Table)
    requires forall name, k :: name in indexes.eq ==> Lookup(indexes.eq[name], k) == {}
    requires forall name, k :: name in indexes.inv ==> Lookup(indexes.inv[name], k) == {}
    modifies indexes
    ensures t == LoadedStore(saved)
    ensures indexes.eq.Keys == old(indexes.eq.Keys) && indexes.inv.Keys == old(indexes.inv.Keys)
    ensures Coloned(saved) ==> Faithful(indexes.eq, EqTerms, Heads(t)) && Faithful(indexes.inv, ByText(indexes.tk), Heads(t))
  {
    ghost var names, texts := indexes.eq.Keys, indexes.inv.Keys;
    t := map[];
    var rest := saved.Keys;
    FilesStart(saved, indexes.eq, EqTerms);
    FilesStart(saved, indexes.inv, ByText(indexes.tk));
    hide FaithfulFor, ByText, EqTerms, Lookup, SavedDocs, Coloned, Faithful, Heads, VersionsBut, LoadedStore;
    VersionsEnds(saved);
    while rest != {}
      invariant rest <= saved.Keys && t == VersionsBut(saved, rest)
      invariant indexes.eq.Keys == names && indexes.inv.Keys == texts
      invariant FiledSoFar(saved, rest, indexes.eq, indexes.inv, indexes.tk)
      decreases |rest|
    {
      var key :| key in rest;
      VersionsNext(saved, rest, key);
      t := t[key := [saved[key]]];
      FileKey(saved, rest, indexes, key);
      rest := rest - {key};
    }
    assert saved.Keys - rest == saved.Keys;
    FilesEnd(saved, indexes.eq, EqTerms);
    FilesEnd(saved, indexes.inv, ByText(indexes.tk));
  }

  /** Every live key has a colon. */
  ghost predicate Coloned(saved: map<string, Version>) { forall k :: k in saved && saved[k].doc.Some? ==> ':' in k }

  function SavedDocs(saved: map<string, Version>): map<string, Doc> { map k | k in saved && saved[k].doc.Some? :: saved[k].doc.value }

  lemma LiveOrNot(saved: map<string, Version>, key: string)
    requires key in saved
    ensures key in SavedDocs(saved) <==> saved[key].doc.Some?
    ensures saved[key].doc.Some? ==> SavedDocs(saved)[key] == saved[key].doc.value
  {}

  lemma CollIs(key: string)
    ensures CollOf(key) == Before(key, ':')
  {}

  lemma FilesStart<K(!new)>(saved: map<string, Version>, rows: Rows<K>, t: Terms<K>)
    requires forall name, k :: name in rows ==> Lookup(rows[name], k) == {}
    ensures FaithfulFor(rows, t, SavedDocs(saved), saved.Keys - saved.Keys)
  {}

  lemma FileNone<K(!new)>(rows: Rows<K>, t: Terms<K>, docs: map<string, Doc>, done: set<string>, key: string)
    requires key !in docs
    ensures FaithfulFor(rows, t, docs, done) ==> FaithfulFor(rows, t, docs, done + {key})
  {}

  lemma FilesEnd<K(!new)>(saved: map<string, Version>, rows: Rows<K>, t: Terms<K>)
    ensures FaithfulFor(rows, t, SavedDocs(saved), saved.Keys) ==> Faithful(rows, t, Heads(LoadedStore(saved)))
  {
    assert Heads(LoadedStore(saved)) == SavedDocs(saved);
  }

  /** Load the saved edges into both sides. */
  method LoadRels(rels: map<string, seq<Edge>>) returns (adj: Adj, radj: Adj)
    requires Joined(rels)
    ensures LoadedAdj(rels, adj) && Mirror(Graph(adj, radj))
  {
    hide Mirror, SplitName, EdgesOf, Extend;
    adj, radj := map[], map[];
    var rest := rels.Keys;
    MirrorEmpty();
    while rest != {}
      invariant rest <= rels.Keys
      invariant LoadedBut(rels, rest, adj) && Mirror(Graph(adj, radj))
      decreases |rest|
    {
      var name :| name in rest;
      var edges := rels[name];
      var k := SplitName(name);
      NotYet(rels, rest, adj, name);
      adj, radj := LoadEdges(adj, radj, k, edges);
      rest := rest - {name};
      NowIs(rels, rest + {name}, adj, name);
    }
  }

  method LoadEdges(adj0: Adj, radj0: Adj, k: (string, string), edges: seq<Edge>) returns (adj: Adj, radj: Adj)
    requires Mirror(Graph(adj0, radj0)) && k !in adj0 && edges != []
    ensures adj == adj0[k := edges] && Mirror(Graph(adj, radj))
  {
    hide Mirror;
    adj, radj := adj0, radj0;
    for i := 0 to |edges|
      invariant adj == if i == 0 then adj0 else adj0[k := edges[..i]]
      invariant Mirror(Graph(adj, radj))
    {
      var e := edges[i];
      MirrorExtend(Graph(adj, radj), k.0, k.1, e);
      adj := adj[k := (if k in adj then adj[k] else []) + [e]];
      radj := radj[(e.node, k.1) := (if (e.node, k.1) in radj then radj[(e.node, k.1)] else []) + [Edge(k.0, e.added, e.removed)]];
      assert edges[..i + 1] == edges[..i] + [e];
    }
    assert edges[..|edges|] == edges;
  }

  lemma MirrorEmpty()
    ensures Mirror(Graph(map[], map[]))
  {}

  lemma MirrorExtend(g: Graph, frm: string, rel: string, e: Edge)
    requires Mirror(g)
    ensures Mirror(Graph(Extend(g.adj, (frm, rel), e), Extend(g.radj, (e.node, rel), Edge(frm, e.added, e.removed))))
  {}

  /** As `LoadedAdj`, save for the names still to come. */
  ghost predicate LoadedBut(rels: map<string, seq<Edge>>, rest: set<string>, a: Adj) {
    && (forall name :: name in rels && name !in rest ==> SplitName(name) in a && a[SplitName(name)] == rels[name])
    && (forall k :: k in a ==> exists name :: name in rels && name !in rest && SplitName(name) == k)
  }

  lemma NotYet(rels: map<string, seq<Edge>>, rest: set<string>, a: Adj, name: string)
    requires Joined(rels) && LoadedBut(rels, rest, a) && name in rest && name in rels
    ensures SplitName(name) !in a && rels[name] != []
    ensures LoadedBut(rels, rest - {name}, a[SplitName(name) := rels[name]])
  {
    hide SplitName;
    if SplitName(name) in a {
      var other :| other in rels && other !in rest && SplitName(other) == SplitName(name);
      SplitInjective(other, name);
      assert false;
    }
    var b := a[SplitName(name) := rels[name]];
    forall k | k in b ensures exists n :: n in rels && n !in rest - {name} && SplitName(n) == k {
      if k == SplitName(name) {
        assert name in rels && name !in rest - {name};
      } else {
        var n :| n in rels && n !in rest && SplitName(n) == k;
        assert n !in rest - {name};
      }
    }
  }

  lemma NowIs(rels: map<string, seq<Edge>>, rest: set<string>, a: Adj, name: string)
    requires LoadedBut(rels, rest - {name}, a)
    ensures rest - {name} == {} ==> LoadedAdj(rels, a)
  {}

  function NamesOf(config: seq<(string, string)>): set<string> { set c | c in config :: NameOf(c.0, c.1) }

  lemma NamesNext(config: seq<(string, string)>, i: nat)
    requires i < |config|
    ensures NamesOf(config[..i + 1]) == NamesOf(config[..i]) + {NameOf(config[i].0, config[i].1)}
  {
    assert config[..i + 1] == config[..i] + [config[i]];
    forall x | x in NamesOf(config[..i]) ensures x in NamesOf(config[..i + 1]) {
      var c :| c in config[..i] && x == NameOf(c.0, c.1);
      assert c in config[..i + 1];
    }
    assert config[i] in config[..i + 1];
  }

  /** Configure empty indexes. */
  method Configure(tk: Tokenizer, eqConfig: seq<(string, string)>, searchConfig: seq<(string, string)>) returns (indexes: Indexes)
    ensures fresh(indexes) && indexes.tk == tk
    ensures indexes.eq == BlankRows(NamesOf(eqConfig)) && indexes.inv == BlankRows(NamesOf(searchConfig))
  {
    hide NameOf, NamesOf;
    indexes := new Indexes(tk);
    NamesNone();
    for i := 0 to |eqConfig|
      invariant indexes.eq == BlankRows(NamesOf(eqConfig[..i])) && indexes.inv == map[]
    {
      NamesNext(eqConfig, i);
      indexes.EnsureEq(eqConfig[i].0, eqConfig[i].1);
    }
    assert eqConfig[..|eqConfig|] == eqConfig;
    for i := 0 to |searchConfig|
      invariant indexes.inv == BlankRows(NamesOf(searchConfig[..i])) && indexes.eq == BlankRows(NamesOf(eqConfig))
    {
      NamesNext(searchConfig, i);
      indexes.EnsureSearch(searchConfig[i].0, searchConfig[i].1);
    }
    assert searchConfig[..|searchConfig|] == searchConfig;
  }

  lemma NamesNone()
    ensures NamesOf([]) == {}
  {}

  /** What a load starts its replay from. */
  ghost predicate StartsFrom(tk: Tokenizer, saved: map<string, Version>, rels: map<string, seq<Edge>>, eqNames: set<string>,
                             invNames: set<string>, start: Db) {
    && start.data.store == LoadedStore(saved)
    && LoadedAdj(rels, start.data.graph.adj) && Mirror(start.data.graph)
    && start.eq.Keys == eqNames && start.inv.Keys == invNames
    && (Coloned(saved) ==> Faithful(start.eq, EqTerms, Heads(start.data.store)) && Faithful(start.inv, ByText(tk), Heads(start.data.store)))
  }

  lemma LoadedTableOk(saved: map<string, Version>, s: nat)
    requires forall k :: k in saved ==> saved[k].at < s
    ensures TableOk(LoadedStore(saved), s) && Paired(LoadedStore(saved), map k | k in saved :: [saved[k].at])
  {}

  lemma {:induction false} ReplayTable(tk: Tokenizer, db: Db, ops: seq<Op>, s: nat)
    requires TableOk(db.data.store, s) && Numbered(ops, s)
    ensures TableOk(Replay(tk, db, ops).data.store, s + |ops|)
  {
    if ops != [] {
      ReplayTable(tk, db, ops[..|ops| - 1], s);
      var op := ops[|ops| - 1];
      var t := Replay(tk, db, ops[..|ops| - 1]).data.store;
      hide Replay, TableOk, Append;
      TableLater(t, op.body.seqNo);
      match op.body.req.action
      case Put(coll, id, doc) => AppendTable(t, KeyOf(coll, id), Version(op.body.seqNo, Some(Stored(doc, op.body.seqNo))));
      case Delete(coll, id) => AppendTable(t, KeyOf(coll, id), Version(op.body.seqNo, None));
      case _ =>
      ReplayLast(tk, db, ops);
    }
  }

  lemma ReplayLast(tk: Tokenizer, db: Db, ops: seq<Op>)
    requires ops != []
    ensures Replay(tk, db, ops).data == ApplyTo(Replay(tk, db, ops[..|ops| - 1]).data, ops[|ops| - 1])
  {}

  function DbOf(t: Table, g: Graph, eq: Rows<Value>, inv: Rows<string>): Db { Db(Data(t, g), eq, inv) }

  /** Load a snapshot into fresh structures. */
  method LoadState(tk: Tokenizer, saved: map<string, Version>, rels: map<string, seq<Edge>>, eqConfig: seq<(string, string)>,
                   searchConfig: seq<(string, string)>, ghost s: nat)
    returns (store: Store, relations: Relations, indexes: Indexes)
    requires Joined(rels) && forall k :: k in saved ==> saved[k].at < s
    ensures fresh(store) && fresh(relations) && fresh(indexes) && indexes.tk == tk && store.Valid() && TableOk(store.v, s)
    ensures StartsFrom(tk, saved, rels, NamesOf(eqConfig), NamesOf(searchConfig),
                       DbOf(store.v, relations.Abs(), indexes.eq, indexes.inv))
  {
    hide Faithful, Heads, LoadedAdj, Mirror, Coloned, NamesOf, Lookup, TableOk, Paired, LoadedStore, StartsFrom, BlankRows, EqTerms, ByText;
    indexes := Configure(tk, eqConfig, searchConfig);
    BlankLookups<Value>(NamesOf(eqConfig));
    BlankLookups<string>(NamesOf(searchConfig));
    BlankKeys<Value>(NamesOf(eqConfig));
    BlankKeys<string>(NamesOf(searchConfig));
    var t := LoadStore(saved, indexes);
    LoadedTableOk(saved, s);
    store := new Store();
    store.v := t;
    store.seqs := map k | k in saved :: [saved[k].at];
    relations := new Relations();
    relations.adj, relations.radj := LoadRels(rels);
    StartsIs(tk, saved, rels, NamesOf(eqConfig), NamesOf(searchConfig), DbOf(store.v, relations.Abs(), indexes.eq, indexes.inv));
  }

  /** The state is the replay of some ops from what a load starts from. */
  ghost predicate ReplayedFrom(tk: Tokenizer, saved: map<string, Version>, rels: map<string, seq<Edge>>, eqNames: set<string>,
                               invNames: set<string>, ops: seq<Op>, db: Db) {
    exists start :: StartsFrom(tk, saved, rels, eqNames, invNames, start) && db == Replay(tk, start, ops)
  }

  lemma StartsIs(tk: Tokenizer, saved: map<string, Version>, rels: map<string, seq<Edge>>, eqNames: set<string>, invNames: set<string>, start: Db)
    requires start.data.store == LoadedStore(saved) && LoadedAdj(rels, start.data.graph.adj) && Mirror(start.data.graph)
    requires start.eq.Keys == eqNames && start.inv.Keys == invNames
    requires Coloned(saved) ==> Faithful(start.eq, EqTerms, Heads(start.data.store)) && Faithful(start.inv, ByText(tk), Heads(start.data.store))
    ensures StartsFrom(tk, saved, rels, eqNames, invNames, start)
  {
    hide LoadedAdj, Mirror, Coloned, Faithful, Heads, LoadedStore;
  }

  lemma BlankKeys<K>(names: set<string>)
    ensures BlankRows<K>(names).Keys == names
  {}

  /** Open from a snapshot: load it, then replay the ops after the checkpoint. */
  method LoadDb(tk: Tokenizer, saved: map<string, Version>, rels: map<string, seq<Edge>>, eqConfig: seq<(string, string)>,
                searchConfig: seq<(string, string)>, ops: seq<Op>, snapSeq: nat)
    returns (store: Store, relations: Relations, indexes: Indexes, causeMap: map<nat, seq<nat>>)
    requires Joined(rels) && Numbered(ops, 0) && snapSeq < |ops|
    requires forall k :: k in saved ==> saved[k].at < snapSeq + 1
    ensures store.Valid()
    ensures ReplayedFrom(tk, saved, rels, NamesOf(eqConfig), NamesOf(searchConfig), ops[snapSeq + 1..],
                         DbOf(store.v, relations.Abs(), indexes.eq, indexes.inv))
    ensures causeMap == CauseMap(ops[snapSeq + 1..])
  {
    hide StartsFrom, IndexOp, StoreOp, GraphOp, Replay, TableOk, Paired, Heads, CauseMap;
    store, relations, indexes := LoadState(tk, saved, rels, eqConfig, searchConfig, snapSeq + 1);
    ghost var start := DbOf(store.v, relations.Abs(), indexes.eq, indexes.inv);
    ReplayNone(tk, start);
    causeMap := NoCauses();
    for i := 0 to |ops|
      invariant store.Valid() && fresh(store) && fresh(relations) && fresh(indexes) && indexes.tk == tk
      invariant DbOf(store.v, relations.Abs(), indexes.eq, indexes.inv)
             == Replay(tk, start, if i <= snapSeq then [] else ops[snapSeq + 1..i])
      invariant causeMap == CauseMap(if i <= snapSeq then [] else ops[snapSeq + 1..i])
    {
      if ops[i].body.seqNo > snapSeq {
        ghost var done := ops[snapSeq + 1..i];
        ReplayTable(tk, start, done, snapSeq + 1);
        ReplayNext(tk, start, done, ops[i]);
        ApplyOp(store, relations, indexes, ops[i]);
        causeMap := NoteCauses(causeMap, done, ops[i]);
        assert ops[snapSeq + 1..i + 1] == done + [ops[i]];
      }
    }
    assert ops[snapSeq + 1..|ops|] == ops[snapSeq + 1..];
  }

  /** The cause map of a database that has applied nothing yet. */
  function NoCauses(): (m: map<nat, seq<nat>>)
    ensures m == CauseMap([])
  {
    map[]
  }

  lemma ReplayNone(tk: Tokenizer, db: Db)
    ensures Replay(tk, db, []) == db
  {}

  /** What is saved at a checkpoint and loaded again is what the refinement needs. */
  lemma SavedThenLoaded(tk: Tokenizer, d0: Data, rels: map<string, seq<Edge>>, eqNames: set<string>, invNames: set<string>, start: Db)
    requires PlainKeys(Heads(d0.store)) && SavedRels(d0.graph.adj, rels)
    requires StartsFrom(tk, LastOnly(d0.store), rels, eqNames, invNames, start)
    ensures LoadedDb(tk, d0, rels, eqNames, invNames, start)
  {
    hide SavedRels, LoadedAdj, Mirror, Faithful, Plain, CollOf;
    var saved := LastOnly(d0.store);
    forall k | k in saved && saved[k].doc.Some? ensures ':' in k {
      assert k in Heads(d0.store);
    }
  }

  /** Saving at a checkpoint, opening from the snapshot and replaying the rest is
      as good as a full replay. */
  lemma OpenRefinesReplay(tk: Tokenizer, ops: seq<Op>, c: nat, rels: map<string, seq<Edge>>, eqNames: set<string>, invNames: set<string>,
                          db: Db, asOf: Option<int>)
    requires Numbered(ops, 0) && c < |ops| && (forall i :: 0 <= i < |ops| ==> NamedPlainly(ops[i]))
    requires SavedRels(Fold(ops[..c + 1]).graph.adj, rels)
    requires ReplayedFrom(tk, LastOnly(Fold(ops[..c + 1]).store), rels, eqNames, invNames, ops[c + 1..], db)
    requires forall k :: k in Fold(ops[..c + 1]).graph.adj ==> '|' !in k.0
    requires asOf.None? || asOf.value >= c
    ensures Alike(db, Replay(tk, Configured(eqNames, invNames), ops), eqNames, invNames, asOf)
  {
    hide *;
    var d0 := Fold(ops[..c + 1]);
    var start := StartOf(tk, LastOnly(d0.store), rels, eqNames, invNames, ops[c + 1..], db);
    PlainAt(tk, ops, c);
    SavedThenLoaded(tk, d0, rels, eqNames, invNames, start);
    SnapshotRefinesReplay(tk, ops, c, rels, eqNames, invNames, start, asOf);
  }

  lemma StartOf(tk: Tokenizer, saved: map<string, Version>, rels: map<string, seq<Edge>>, eqNames: set<string>,
                invNames: set<string>, ops: seq<Op>, db: Db) returns (start: Db)
    requires ReplayedFrom(tk, saved, rels, eqNames, invNames, ops, db)
    ensures StartsFrom(tk, saved, rels, eqNames, invNames, start) && db == Replay(tk, start, ops)
  {
    hide StartsFrom, Replay;
    start :| StartsFrom(tk, saved, rels, eqNames, invNames, start) && db == Replay(tk, start, ops);
  }

  lemma PlainAt(tk: Tokenizer, ops: seq<Op>, c: nat)
    requires c < |ops| && forall i :: 0 <= i < |ops| ==> NamedPlainly(ops[i])
    ensures PlainKeys(Heads(Fold(ops[..c + 1]).store))
  {
    hide PlainKeys, Heads, NamedPlainly, Faithful;
    ConfiguredOk(tk, {}, {});
    ReplayKeeps(tk, Configured({}, {}), ops[..c + 1]);
  }

  lemma BlankLookups<K>(names: set<string>)
    ensures forall name, k: K :: name in BlankRows<K>(names) ==> Lookup(BlankRows<K>(names)[name], k) == {}
  {}

  lemma ReplayNext(tk: Tokenizer, db: Db, ops: seq<Op>, op: Op)
    ensures var before := Replay(tk, db, ops);
            Replay(tk, db, ops + [op])
            == Db(ApplyTo(before.data, op), IndexOp(before.eq, EqTerms, Heads(before.data.store), op),
                  IndexOp(before.inv, ByText(tk), Heads(before.data.store), op))
  {
    hide ApplyTo, IndexOp, Heads;
    assert (ops + [op])[..|ops|] == ops;
  }
}
