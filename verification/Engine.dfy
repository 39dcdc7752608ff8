/** Folding the log into the store, the relations and the indexes, and reading
    any point of the past (python/nedb/engine.py). */
module Engine {
  import opened Collections
  import opened Hashing
  import opened Ops
  import opened MvccStore
  import opened RelationGraph
  import opened FieldIndexes
  import OpLog

  // ---- the fold ----

  datatype Data = Data(store: Table, graph: Graph)

  const EMPTY: Data := Data(map[], Graph(map[], map[]))

  /** A stored document carries the sequence number of its write. */
  function Stored(doc: Doc, seqNo: nat): Doc { doc["_seq" := Num(seqNo)] }

  /** ... under "_seq", beside what was put. */
  lemma StoredMeans(doc: Doc, n: nat, f: string)
    ensures "_seq" in Stored(doc, n) && Stored(doc, n)["_seq"] == Num(n)
    ensures f != "_seq" ==> (f in Stored(doc, n) <==> f in doc) && (f in doc ==> Stored(doc, n)[f] == doc[f])
  {}

  function StoreOp(t: Table, op: Op): Table {
    match op.body.req.action
    case Put(coll, id, doc) => Append(t, KeyOf(coll, id), Version(op.body.seqNo, Some(Stored(doc, op.body.seqNo))))
    case Delete(coll, id) => Append(t, KeyOf(coll, id), Version(op.body.seqNo, None))
    case _ => t
  }

  function GraphOp(g: Graph, op: Op): Graph {
    match op.body.req.action
    case Link(frm, rel, to) => LinkIn(g, frm, rel, to, op.body.seqNo)
    case Unlink(frm, rel, to) => UnlinkIn(g, frm, rel, to, op.body.seqNo)
    case _ => g
  }

  function ApplyTo(d: Data, op: Op): Data { Data(StoreOp(d.store, op), GraphOp(d.graph, op)) }

  /** Plain replay. */
  function Fold(ops: seq<Op>): Data { FoldFrom(EMPTY, ops) }

  function FoldFrom(d: Data, ops: seq<Op>): Data {
    if ops == [] then d else ApplyTo(FoldFrom(d, ops[..|ops| - 1]), ops[|ops| - 1])
  }

  lemma {:induction false} FoldAppends(d: Data, a: seq<Op>, b: seq<Op>)
    ensures FoldFrom(d, a + b) == FoldFrom(FoldFrom(d, a), b)
  {
    if b == [] {
      assert a + b == a;
    } else {
      FoldAppends(d, a, b[..|b| - 1]);
      assert (a + b)[..|a + b| - 1] == a + b[..|b| - 1];
    }
  }

  // ---- what the fold keeps ----

  /** Ops numbered consecutively from s. */
  predicate Numbered(ops: seq<Op>, s: nat) {
    forall i :: 0 <= i < |ops| ==> ops[i].body.seqNo == s + i
  }

  ghost predicate TableOk(t: Table, s: int) {
    forall k :: k in t ==> t[k] != [] && Ascending(t[k]) && Older(t[k], s)
  }

  ghost predicate DataOk(d: Data, s: nat) { TableOk(d.store, s) && GraphOk(d.graph, s) }

  lemma AppendTable(t: Table, key: string, v: Version)
    requires TableOk(t, v.at)
    ensures TableOk(Append(t, key, v), v.at + 1)
  {
  }

  lemma OpKeeps(d: Data, op: Op)
    requires DataOk(d, op.body.seqNo)
    ensures DataOk(ApplyTo(d, op), op.body.seqNo + 1)
  {
    hide GraphOk, LinkIn, UnlinkIn, TableOk, Append;
    TableLater(d.store, op.body.seqNo);
    GraphLater(d.graph, op.body.seqNo);
    match op.body.req.action
    case Put(coll, id, doc) => AppendTable(d.store, KeyOf(coll, id), Version(op.body.seqNo, Some(Stored(doc, op.body.seqNo))));
    case Delete(coll, id) => AppendTable(d.store, KeyOf(coll, id), Version(op.body.seqNo, None));
    case Link(frm, rel, to) => LinkKeeps(d.graph, frm, rel, to, op.body.seqNo);
    case Unlink(frm, rel, to) => UnlinkKeeps(d.graph, frm, rel, to, op.body.seqNo);
    case _ =>
  }

  lemma TableLater(t: Table, s: nat)
    requires TableOk(t, s)
    ensures TableOk(t, s + 1)
  {}

  lemma GraphLater(g: Graph, s: nat)
    requires GraphOk(g, s)
    ensures GraphOk(g, s + 1)
  {
    hide Mirror, Intervals, Stamped;
    StampedLater(g.adj, s);
    StampedLater(g.radj, s);
  }

  lemma {:induction false} FoldKeeps(d: Data, ops: seq<Op>, s: nat)
    requires DataOk(d, s) && Numbered(ops, s)
    ensures DataOk(FoldFrom(d, ops), s + |ops|)
  {
    hide *;
    FoldUnfolds(d, ops, s);
    if ops != [] {
      FoldKeeps(d, ops[..|ops| - 1], s);
      OpKeeps(FoldFrom(d, ops[..|ops| - 1]), ops[|ops| - 1]);
    }
  }

  lemma FoldUnfolds(d: Data, ops: seq<Op>, s: nat)
    requires Numbered(ops, s)
    ensures ops == [] ==> FoldFrom(d, ops) == d
    ensures ops != [] ==> var n := |ops| - 1;
              Numbered(ops[..n], s) && ops[n].body.seqNo == s + n && FoldFrom(d, ops) == ApplyTo(FoldFrom(d, ops[..n]), ops[n])
  {
    hide ApplyTo;
  }

  /** Over every log: ascending chains, disjoint intervals, mirrored sides. */
  lemma FoldOk(ops: seq<Op>)
    requires Numbered(ops, 0)
    ensures DataOk(Fold(ops), |ops|)
  {
    FoldKeeps(EMPTY, ops, 0);
  }

  // ---- what a reader at one point sees ----

  datatype View = View(docs: map<string, Doc>, links: map<(string, string), seq<string>>, back: map<(string, string), seq<string>>)

  function DocsAt(t: Table, asOf: Option<int>): map<string, Doc> {
    map k | k in t && Read(t, k, asOf).Some? :: Read(t, k, asOf).value
  }

  function LinksAt(a: Adj, asOf: Option<int>): map<(string, string), seq<string>> {
    map k | k in a && Live(a[k], asOf) != [] :: Live(a[k], asOf)
  }

  function ViewAt(d: Data, asOf: Option<int>): View {
    View(DocsAt(d.store, asOf), LinksAt(d.graph.adj, asOf), LinksAt(d.graph.radj, asOf))
  }

  function LinksOf(m: map<(string, string), seq<string>>, k: (string, string)): seq<string> { if k in m then m[k] else [] }

  /** The view is what get, neighbors and inbound answer. */
  lemma ViewMeans(d: Data, asOf: Option<int>, key: string, k: (string, string))
    ensures Read(d.store, key, asOf) == Old(ViewAt(d, asOf).docs, key)
    ensures Live(EdgesOf(d.graph.adj, k), asOf) == LinksOf(ViewAt(d, asOf).links, k)
    ensures Live(EdgesOf(d.graph.radj, k), asOf) == LinksOf(ViewAt(d, asOf).back, k)
  {}

  lemma DocsSame(t: Table, x: Option<int>, u: Table, y: Option<int>)
    requires forall k :: Read(t, k, x) == Read(u, k, y)
    ensures DocsAt(t, x) == DocsAt(u, y)
  {
    forall k ensures k in DocsAt(t, x) <==> k in DocsAt(u, y) {
      assert Read(t, k, x) == Read(u, k, y);
    }
  }

  lemma LinksSame(a: Adj, x: Option<int>, b: Adj, y: Option<int>)
    requires forall k :: Live(EdgesOf(a, k), x) == Live(EdgesOf(b, k), y)
    ensures LinksAt(a, x) == LinksAt(b, y)
  {
    forall k ensures k in LinksAt(a, x) <==> k in LinksAt(b, y) {
      assert Live(EdgesOf(a, k), x) == Live(EdgesOf(b, k), y);
    }
    forall k | k in LinksAt(a, x) ensures LinksAt(a, x)[k] == LinksAt(b, y)[k] {
      assert Live(EdgesOf(a, k), x) == Live(EdgesOf(b, k), y);
    }
  }

  /** No op changes what a reader at an earlier point sees. */
  lemma PastViewKept(d: Data, op: Op, n: int)
    requires op.body.seqNo > n
    ensures ViewAt(ApplyTo(d, op), Some(n)) == ViewAt(d, Some(n))
  {
    var d', s := ApplyTo(d, op), op.body.seqNo;
    forall k ensures Read(d'.store, k, Some(n)) == Read(d.store, k, Some(n)) {
      hide Read, Append;
      match op.body.req.action
      case Put(coll, id, doc) => PastIsKept(d.store, KeyOf(coll, id), Version(s, Some(Stored(doc, s))), k, n);
      case Delete(coll, id) => PastIsKept(d.store, KeyOf(coll, id), Version(s, None), k, n);
      case _ =>
    }
    DocsSame(d'.store, Some(n), d.store, Some(n));
    PastLinksKept(d.graph, op, n);
  }

  lemma PastLinksKept(g: Graph, op: Op, n: int)
    requires op.body.seqNo > n
    ensures LinksAt(GraphOp(g, op).adj, Some(n)) == LinksAt(g.adj, Some(n))
    ensures LinksAt(GraphOp(g, op).radj, Some(n)) == LinksAt(g.radj, Some(n))
  {
    hide Live, Extend, Close, EdgesOf, LinksAt;
    var g', s := GraphOp(g, op), op.body.seqNo;
    forall k ensures Live(EdgesOf(g'.adj, k), Some(n)) == Live(EdgesOf(g.adj, k), Some(n))
                  && Live(EdgesOf(g'.radj, k), Some(n)) == Live(EdgesOf(g.radj, k), Some(n))
    {
      match op.body.req.action
      case Link(frm, rel, to) =>
        ExtendPast(g.adj, (frm, rel), Edge(to, s, None), k, n);
        ExtendPast(g.radj, (to, rel), Edge(frm, s, None), k, n);
      case Unlink(frm, rel, to) =>
        ClosePast(g.adj, (frm, rel), to, s, k, n);
        ClosePast(g.radj, (to, rel), frm, s, k, n);
      case _ =>
    }
    LinksSame(g'.adj, Some(n), g.adj, Some(n));
    LinksSame(g'.radj, Some(n), g.radj, Some(n));
  }

  /** At or after the last op, the past is the present. */
  lemma HeadView(d: Data, n: int)
    requires TableOk(d.store, n + 1) && Stamped(d.graph.adj, n + 1) && Stamped(d.graph.radj, n + 1)
    ensures ViewAt(d, Some(n)) == ViewAt(d, None)
  {
    forall k ensures Read(d.store, k, Some(n)) == Read(d.store, k, None) { PresentIsHead(d.store, k, n); }
    DocsSame(d.store, Some(n), d.store, None);
    forall k ensures Live(EdgesOf(d.graph.adj, k), Some(n)) == Live(EdgesOf(d.graph.adj, k), None)
                  && Live(EdgesOf(d.graph.radj, k), Some(n)) == Live(EdgesOf(d.graph.radj, k), None)
    {
      hide Live, EdgesOf;
      LiveAtHead(d.graph.adj, k, n);
      LiveAtHead(d.graph.radj, k, n);
    }
    LinksSame(d.graph.adj, Some(n), d.graph.adj, None);
    LinksSame(d.graph.radj, Some(n), d.graph.radj, None);
  }

  /** Later ops change no view of the past, from any state. */
  lemma {:induction false} LaterOpsKeepPast(d: Data, ops: seq<Op>, s: nat, n: int)
    requires Numbered(ops, s) && n < s
    ensures ViewAt(FoldFrom(d, ops), Some(n)) == ViewAt(d, Some(n))
  {
    if ops != [] {
      hide ViewAt;
      LaterOpsKeepPast(d, ops[..|ops| - 1], s, n);
      PastViewKept(FoldFrom(d, ops[..|ops| - 1]), ops[|ops| - 1], n);
    }
  }

  /** Time travel is prefix replay: for every log and every n, what a reader at n
      sees is what a reader at the head sees after replaying the ops up to n. */
  lemma TimeTravel(ops: seq<Op>, n: int)
    requires Numbered(ops, 0)
    ensures ViewAt(Fold(ops), Some(n)) == ViewAt(Fold(OpLog.Prefix(ops, n)), None)
  {
    hide ViewAt, DataOk;
    var p := OpLog.Prefix(ops, n);
    assert ops == p + ops[|p|..];
    FoldAppends(EMPTY, p, ops[|p|..]);
    FoldOk(p);
    if |p| < |ops| { LaterOpsKeepPast(Fold(p), ops[|p|..], |p|, n); }
    assert |p| <= n + 1 || p == [];
    StampedUpTo(Fold(p), |p|, n + 1);
    HeadView(Fold(p), n);
  }

  lemma StampedUpTo(d: Data, s: nat, t: int)
    requires DataOk(d, s) && (s <= t || d == EMPTY)
    ensures TableOk(d.store, t) && Stamped(d.graph.adj, t) && Stamped(d.graph.radj, t)
  {
    hide Mirror, Intervals;
    if s <= t {
      forall j, i | j in d.graph.adj && 0 <= i < |d.graph.adj[j]| ensures EdgeBefore(d.graph.adj[j][i], t) {
        assert EdgeBefore(d.graph.adj[j][i], s);
      }
      forall j, i | j in d.graph.radj && 0 <= i < |d.graph.radj[j]| ensures EdgeBefore(d.graph.radj[j][i], t) {
        assert EdgeBefore(d.graph.radj[j][i], s);
      }
    }
  }

  // ---- what reads answer, said of the log alone ----

  predicate Writes(op: Op, key: string) {
    match op.body.req.action
    case Put(coll, id, _) => KeyOf(coll, id) == key
    case Delete(coll, id) => KeyOf(coll, id) == key
    case _ => false
  }

  /** The document a put leaves; a delete leaves none. */
  function ActionDoc(op: Op): Option<Doc> {
    if op.body.req.action.Put? then Some(Stored(op.body.req.action.doc, op.body.seqNo)) else None
  }

  /** What the last op that writes a key left. */
  function LastLeft(ops: seq<Op>, key: string): Option<Doc> {
    if ops == [] then None
    else if Writes(ops[|ops| - 1], key) then ActionDoc(ops[|ops| - 1])
    else LastLeft(ops[..|ops| - 1], key)
  }

  /** The op links or unlinks this very edge. */
  predicate Concerns(op: Op, frm: string, rel: string, to: string) {
    op.body.req.action == Link(frm, rel, to) || op.body.req.action == Unlink(frm, rel, to)
  }

  /** The last op that concerns an edge is a link. */
  predicate LastLinked(ops: seq<Op>, frm: string, rel: string, to: string) {
    if ops == [] then false
    else if Concerns(ops[|ops| - 1], frm, rel, to) then ops[|ops| - 1].body.req.action.Link?
    else LastLinked(ops[..|ops| - 1], frm, rel, to)
  }

  lemma {:induction false} HeadGet(ops: seq<Op>, key: string)
    ensures Read(Fold(ops).store, key, None) == LastLeft(ops, key)
  {
    if ops != [] {
      HeadGet(ops[..|ops| - 1], key);
    }
  }

  /** A get at n answers what the last write of the key up to n left. */
  lemma GetIsLastWrite(ops: seq<Op>, key: string, n: int)
    requires Numbered(ops, 0)
    ensures Read(Fold(ops).store, key, Some(n)) == LastLeft(OpLog.Prefix(ops, n), key)
  {
    hide ViewAt, Fold, Read;
    TimeTravel(ops, n);
    ViewMeans(Fold(ops), Some(n), key, ("", ""));
    ViewMeans(Fold(OpLog.Prefix(ops, n)), None, key, ("", ""));
    HeadGet(OpLog.Prefix(ops, n), key);
  }

  lemma OpenIsLive(es: seq<Edge>, node: string)
    ensures node in Live(es, None) <==> HasOpen(es, node)
  {
    LiveMeans(es, None, node);
    if i :| 0 <= i < |es| && es[i].node == node && IsLive(es[i], None) {
      assert Open(es[i], node);
    }
  }

  lemma LinkOpens(a: Adj, k: (string, string), to: string, s: nat, j: (string, string), node: string)
    ensures HasOpen(EdgesOf(Extend(a, k, Edge(to, s, None)), j), node) <==> (j == k && node == to) || HasOpen(EdgesOf(a, j), node)
  {
    var es, fs := EdgesOf(a, j), EdgesOf(Extend(a, k, Edge(to, s, None)), j);
    if j == k {
      assert fs == es + [Edge(to, s, None)];
      if i :| 0 <= i < |es| && Open(es[i], node) { assert Open(fs[i], node); }
      if node == to { assert Open(fs[|es|], node); }
    }
  }

  lemma CloseCloses(a: Adj, k: (string, string), to: string, s: nat, j: (string, string), node: string)
    ensures HasOpen(EdgesOf(Close(a, k, to, s), j), node) <==> !(j == k && node == to) && HasOpen(EdgesOf(a, j), node)
  {
    var es, fs := EdgesOf(a, j), EdgesOf(Close(a, k, to, s), j);
    if i :| 0 <= i < |es| && Open(es[i], node) && !(j == k && node == to) { assert Open(fs[i], node); }
    if i :| 0 <= i < |fs| && Open(fs[i], node) { assert Open(es[i], node); }
  }

  lemma {:induction false} HeadLinks(ops: seq<Op>, frm: string, rel: string, to: string)
    ensures HasOpen(EdgesOf(Fold(ops).graph.adj, (frm, rel)), to) <==> LastLinked(ops, frm, rel, to)
  {
    if ops != [] {
      var front, op := ops[..|ops| - 1], ops[|ops| - 1];
      HeadLinks(front, frm, rel, to);
      var g := Fold(front).graph;
      hide HasOpen, EdgesOf, Extend, Close;
      match op.body.req.action
      case Link(f, r, t) => LinkOpens(g.adj, (f, r), t, op.body.seqNo, (frm, rel), to);
      case Unlink(f, r, t) => CloseCloses(g.adj, (f, r), t, op.body.seqNo, (frm, rel), to);
      case _ =>
    }
  }

  /** At n a node is a neighbour exactly if the last op up to n that concerns the
      edge is a link; and inbound says the same. */
  lemma NeighborIsLastLink(ops: seq<Op>, frm: string, rel: string, to: string, n: int)
    requires Numbered(ops, 0)
    ensures to in Live(EdgesOf(Fold(ops).graph.adj, (frm, rel)), Some(n)) <==> LastLinked(OpLog.Prefix(ops, n), frm, rel, to)
    ensures frm in Live(EdgesOf(Fold(ops).graph.radj, (to, rel)), Some(n)) <==> LastLinked(OpLog.Prefix(ops, n), frm, rel, to)
  {
    hide ViewAt, Fold, Live, EdgesOf, Mirror, Intervals, Stamped, HasOpen;
    var p := OpLog.Prefix(ops, n);
    TimeTravel(ops, n);
    ViewMeans(Fold(ops), Some(n), "", (frm, rel));
    ViewMeans(Fold(p), None, "", (frm, rel));
    OpenIsLive(EdgesOf(Fold(p).graph.adj, (frm, rel)), to);
    HeadLinks(p, frm, rel, to);
    FoldOk(ops);
    SidesAgree(Fold(ops).graph, frm, rel, to, Some(n));
  }

  // ---- the indexes along a run ----

  datatype Db = Db(data: Data, eq: Rows<Value>, inv: Rows<string>)

  datatype Event = Write(op: Op) | CreateEq(coll: string, field: string) | CreateSearch(coll: string, field: string)

  function Heads(t: Table): map<string, Doc> { DocsAt(t, None) }

  function IndexOp<K>(rows: Rows<K>, t: Terms<K>, docs: map<string, Doc>, op: Op): Rows<K> {
    match op.body.req.action
    case Put(coll, id, doc) =>
      Refile(rows, t, coll, KeyOf(coll, id), Old(docs, KeyOf(coll, id)), Some(Stored(doc, op.body.seqNo)))
    case Delete(coll, id) => Refile(rows, t, coll, KeyOf(coll, id), Old(docs, KeyOf(coll, id)), None)
    case _ => rows
  }

  /** File the documents of the listed keys. */
  function Backfill<K>(rows: Rows<K>, t: Terms<K>, docs: map<string, Doc>, coll: string, keys: seq<string>): Rows<K>
    requires forall k :: k in keys ==> k in docs
  {
    if keys == [] then rows
    else
      var n := |keys| - 1;
      AddAll(Backfill(rows, t, docs, coll, keys[..n]), t, coll, keys[n], docs[keys[n]])
  }

  predicate NamedPlainly(op: Op) {
    match op.body.req.action
    case Put(coll, _, _) => Plain(coll)
    case Delete(coll, _) => Plain(coll)
    case _ => true
  }

  /** The live keys of a collection, in some order. */
  ghost predicate LiveKeys(t: Table, coll: string, keys: seq<string>) { Enumerates(keys, KeysOf(t, coll + ":", None)) }

  ghost predicate DbStep(tk: Tokenizer, db: Db, e: Event, db': Db) {
    match e
    case Write(op) =>
      && NamedPlainly(op)
      && db' == Db(ApplyTo(db.data, op), IndexOp(db.eq, EqTerms, Heads(db.data.store), op),
                   IndexOp(db.inv, ByText(tk), Heads(db.data.store), op))
    case CreateEq(coll, field) =>
      Plain(coll) && exists keys :: Backfilled(tk, db, Ensure(db.eq, NameOf(coll, field)), db.inv, coll, keys, db')
    case CreateSearch(coll, field) =>
      Plain(coll) && exists keys :: Backfilled(tk, db, db.eq, Ensure(db.inv, NameOf(coll, field)), coll, keys, db')
  }

  ghost predicate Backfilled(tk: Tokenizer, db: Db, eq: Rows<Value>, inv: Rows<string>, coll: string, keys: seq<string>, db': Db) {
    && LiveKeys(db.data.store, coll, keys) && (forall k :: k in keys ==> k in Heads(db.data.store))
    && db' == Db(db.data, Backfill(eq, EqTerms, Heads(db.data.store), coll, keys),
                 Backfill(inv, ByText(tk), Heads(db.data.store), coll, keys))
  }

  /** Every stored key belongs to a plainly named collection. */
  ghost predicate PlainKeys(docs: map<string, Doc>) {
    forall key :: key in docs ==> Plain(CollOf(key)) && ':' in key
  }

  ghost predicate DbOk(tk: Tokenizer, db: Db) {
    && Faithful(db.eq, EqTerms, Heads(db.data.store)) && Faithful(db.inv, ByText(tk), Heads(db.data.store))
    && PlainKeys(Heads(db.data.store))
  }

  /** A write changes the head document of its key and no other. */
  lemma HeadsChange(t: Table, op: Op)
    ensures op.body.req.action.Put? || op.body.req.action.Delete? ==>
              Heads(StoreOp(t, op)) == Changed(Heads(t), KeyOf(op.body.req.action.coll, op.body.req.action.id), ActionDoc(op))
    ensures !op.body.req.action.Put? && !op.body.req.action.Delete? ==> StoreOp(t, op) == t
  {
    if op.body.req.action.Put? || op.body.req.action.Delete? {
      var key := KeyOf(op.body.req.action.coll, op.body.req.action.id);
      var v := Version(op.body.seqNo, ActionDoc(op));
      assert StoreOp(t, op) == Append(t, key, v);
      AppendHeads(t, key, v);
    }
  }

  lemma AppendHeads(t: Table, key: string, v: Version)
    ensures Heads(Append(t, key, v)) == Changed(Heads(t), key, v.doc)
  {
    hide Append, Heads;
    var a, b := Heads(Append(t, key, v)), Changed(Heads(t), key, v.doc);
    forall k ensures Old(a, k) == if k == key then v.doc else Old(Heads(t), k) {
      AppendRead(t, key, v, k);
      HeadIsOld(Append(t, key, v), k);
      HeadIsOld(t, k);
    }
    SameOld(a, b);
  }

  lemma AppendRead(t: Table, key: string, v: Version, k: string)
    ensures Read(Append(t, key, v), k, None) == if k == key then v.doc else Read(t, k, None)
  {}

  lemma SameOld(a: map<string, Doc>, b: map<string, Doc>)
    requires forall k :: Old(a, k) == Old(b, k)
    ensures a == b
  {
    forall k ensures (k in a <==> k in b) && (k in a ==> a[k] == b[k]) {
      assert Old(a, k) == Old(b, k);
    }
  }

  lemma KeyBelongs(coll: string, id: string)
    requires Plain(coll)
    ensures CollOf(KeyOf(coll, id)) == coll && ':' in KeyOf(coll, id)
  {
    SplitsAtFirst(coll, ':', id);
    assert KeyOf(coll, id) == coll + [':'] + id;
    assert KeyOf(coll, id)[|coll|] == ':';
  }

  lemma WriteKeeps<K(!new)>(rows: Rows<K>, t: Terms<K>, store: Table, op: Op)
    requires Faithful(rows, t, Heads(store)) && NamedPlainly(op)
    ensures Faithful(IndexOp(rows, t, Heads(store), op), t, Heads(StoreOp(store, op)))
  {
    hide Faithful, Heads, Refile, CollOf, KeyOf, StoreOp, Changed, Plain, Stored;
    HeadsChange(store, op);
    match op.body.req.action
    case Put(coll, id, doc) =>
      KeyBelongs(coll, id);
      RefileKeeps(rows, t, Heads(store), coll, KeyOf(coll, id), Some(Stored(doc, op.body.seqNo)));
    case Delete(coll, id) =>
      KeyBelongs(coll, id);
      RefileKeeps(rows, t, Heads(store), coll, KeyOf(coll, id), None);
    case _ =>
  }

  lemma PlainKeysKept(store: Table, op: Op)
    requires PlainKeys(Heads(store)) && NamedPlainly(op)
    ensures PlainKeys(Heads(StoreOp(store, op)))
  {
    hide Heads, CollOf, KeyOf, StoreOp, Plain, Stored;
    HeadsChange(store, op);
    match op.body.req.action
    case Put(coll, id, doc) => KeyBelongs(coll, id);
    case Delete(coll, id) => KeyBelongs(coll, id);
    case _ =>
  }

  lemma LiveKeyBelongs(store: Table, coll: string, keys: seq<string>)
    requires LiveKeys(store, coll, keys) && Plain(coll)
    ensures forall k :: k in keys <==> k in Heads(store) && coll + ":" <= k
    ensures forall k :: k in keys ==> CollOf(k) == coll
  {
    forall k | k in keys ensures CollOf(k) == coll {
      PrefixIsColl(coll, k);
    }
  }

  lemma {:induction false} BackfillKeeps<K(!new)>(rows: Rows<K>, t: Terms<K>, docs: map<string, Doc>, name: string,
                                                  done: set<string>, coll: string, keys: seq<string>)
    requires forall k :: k in keys ==> k in docs && CollOf(k) == coll
    requires FaithfulBut(rows, t, docs, name, done)
    ensures FaithfulBut(Backfill(rows, t, docs, coll, keys), t, docs, name, done + (set k | k in keys))
  {
    hide FaithfulBut, CollOf;
    if keys == [] {
      assert done + (set k | k in keys) == done;
    } else {
      var n := |keys| - 1;
      BackfillKeeps(rows, t, docs, name, done, coll, keys[..n]);
      var before := done + (set k | k in keys[..n]);
      BackfillOne(Backfill(rows, t, docs, coll, keys[..n]), t, docs, name, before, coll, keys[n]);
      assert keys == keys[..n] + [keys[n]];
      assert before + {keys[n]} == done + (set k | k in keys);
    }
  }

  /** Creating an index, or adding to one that exists, files every live document
      of the collection. */
  lemma CreateKeeps<K(!new)>(rows: Rows<K>, t: Terms<K>, store: Table, coll: string, field: string, keys: seq<string>)
    requires Faithful(rows, t, Heads(store)) && PlainKeys(Heads(store)) && Plain(coll) && LiveKeys(store, coll, keys)
    ensures forall k :: k in keys ==> k in Heads(store)
    ensures Faithful(Backfill(Ensure(rows, NameOf(coll, field)), t, Heads(store), coll, keys), t, Heads(store))
  {
    hide Faithful, FaithfulBut, Heads, CollOf, Plain, NameOf, LiveKeys;
    LiveKeyBelongs(store, coll, keys);
    var docs, name := Heads(store), NameOf(coll, field);
    EnsureBegins(rows, t, docs, name);
    var done := if name in rows then docs.Keys else {};
    BackfillKeeps(Ensure(rows, name), t, docs, name, done, coll, keys);
    BackfillEnds(Backfill(Ensure(rows, name), t, docs, coll, keys), t, docs, coll, field, done + (set k | k in keys));
  }

  lemma TouchKeeps<K(!new)>(rows: Rows<K>, t: Terms<K>, store: Table, coll: string, keys: seq<string>)
    requires Faithful(rows, t, Heads(store)) && Plain(coll) && LiveKeys(store, coll, keys)
    ensures forall k :: k in keys ==> k in Heads(store)
    ensures Faithful(Backfill(rows, t, Heads(store), coll, keys), t, Heads(store))
  {
    LiveKeyBelongs(store, coll, keys);
    var docs := Heads(store);
    assert FaithfulBut(rows, t, docs, "", docs.Keys);
    BackfillKeeps(rows, t, docs, "", docs.Keys, coll, keys);
  }

  lemma DbStepKeeps(tk: Tokenizer, db: Db, e: Event, db': Db)
    requires DbOk(tk, db) && DbStep(tk, db, e, db')
    ensures DbOk(tk, db')
  {
    hide Faithful, PlainKeys, Heads, Backfill, IndexOp, Ensure, NamedPlainly, Plain, LiveKeys, StoreOp;
    match e
    case Write(op) =>
      WriteKeeps(db.eq, EqTerms, db.data.store, op);
      WriteKeeps(db.inv, ByText(tk), db.data.store, op);
      PlainKeysKept(db.data.store, op);
    case CreateEq(coll, field) =>
      var keys :| Backfilled(tk, db, Ensure(db.eq, NameOf(coll, field)), db.inv, coll, keys, db');
      CreateKeeps(db.eq, EqTerms, db.data.store, coll, field, keys);
      TouchKeeps(db.inv, ByText(tk), db.data.store, coll, keys);
    case CreateSearch(coll, field) =>
      var keys :| Backfilled(tk, db, db.eq, Ensure(db.inv, NameOf(coll, field)), coll, keys, db');
      TouchKeeps(db.eq, EqTerms, db.data.store, coll, keys);
      CreateKeeps(db.inv, ByText(tk), db.data.store, coll, field, keys);
  }

  const BLANK: Db := Db(EMPTY, map[], map[])

  ghost predicate IsDbRun(tk: Tokenizer, dbs: seq<Db>, es: seq<Event>) {
    && |dbs| == |es| + 1 && dbs[0] == BLANK
    && forall i :: 0 <= i < |es| ==> DbStep(tk, dbs[i], es[i], dbs[i + 1])
  }

  /** After puts, deletes and index creations in any order, every index says
      exactly what the live documents say. */
  lemma {:induction false} EveryIndexFaithful(tk: Tokenizer, dbs: seq<Db>, es: seq<Event>, i: nat)
    requires IsDbRun(tk, dbs, es) && i < |dbs|
    ensures DbOk(tk, dbs[i])
  {
    hide DbStep;
    if i > 0 {
      hide DbOk;
      EveryIndexFaithful(tk, dbs, es, i - 1);
      assert DbStep(tk, dbs[i - 1], es[i - 1], dbs[i - 1 + 1]);
      DbStepKeeps(tk, dbs[i - 1], es[i - 1], dbs[i]);
    }
  }

  // ---- the imperative fold ----

  /** Fold one op into the live structures. */
  method ApplyOp(store: Store, relations: Relations, indexes: Indexes, op: Op)
    requires store.Valid() && TableOk(store.v, op.body.seqNo)
    modifies store, relations, indexes
    ensures store.Valid() && store.v == StoreOp(old(store.v), op)
    ensures relations.Abs() == GraphOp(old(relations.Abs()), op)
    ensures indexes.eq == IndexOp(old(indexes.eq), EqTerms, Heads(old(store.v)), op)
    ensures indexes.inv == IndexOp(old(indexes.inv), ByText(indexes.tk), Heads(old(store.v)), op)
  {
    hide LinkIn, UnlinkIn, AddAll, RemoveAll, Append, Paired, Read, Heads, NameOf, TableOk, Older;
    var s := op.body.seqNo;
    match op.body.req.action {
      case Put(coll, id, payload) =>
        var key := coll + ":" + id;
        ChainOlder(store.v, key, s);
        HeadIsOld(store.v, key);
        var doc := payload["_seq" := Num(s)];
        var was := store.Get(key, None);
        if was.Some? {
          indexes.Remove(coll, key, was.value);
        }
        store.Put(key, doc, s);
        indexes.Add(coll, key, doc);
      case Delete(coll, id) =>
        var key := coll + ":" + id;
        ChainOlder(store.v, key, s);
        HeadIsOld(store.v, key);
        var was := store.Get(key, None);
        if was.Some? {
          indexes.Remove(coll, key, was.value);
        }
        store.Delete(key, s);
      case Link(frm, rel, to) => relations.Link(frm, rel, to, s);
      case Unlink(frm, rel, to) => relations.Unlink(frm, rel, to, s);
      case PutFile(_, _, _) =>
      case Checkpoint =>
    }
  }

  lemma HeadIsOld(t: Table, key: string)
    ensures Read(t, key, None) == Old(Heads(t), key)
  {}

  lemma ChainOlder(t: Table, key: string, s: nat)
    requires TableOk(t, s)
    ensures Older(ChainOf(t, key), s)
  {}

  /** Create an equality index and file the live documents. */
  method CreateEqIndex(store: Store, indexes: Indexes, coll: string, field: string)
    requires store.Valid()
    modifies indexes
    ensures exists keys :: LiveKeys(store.v, coll, keys) && (forall k :: k in keys ==> k in Heads(store.v))
              && indexes.eq == Backfill(Ensure(old(indexes.eq), NameOf(coll, field)), EqTerms, Heads(store.v), coll, keys)
              && indexes.inv == Backfill(old(indexes.inv), ByText(indexes.tk), Heads(store.v), coll, keys)
  {
    indexes.EnsureEq(coll, field);
    var keys := BackfillAll(store, indexes, coll);
  }

  /** Create a full-text index and file the live documents. */
  method CreateSearchIndex(store: Store, indexes: Indexes, coll: string, field: string)
    requires store.Valid()
    modifies indexes
    ensures exists keys :: LiveKeys(store.v, coll, keys) && (forall k :: k in keys ==> k in Heads(store.v))
              && indexes.eq == Backfill(old(indexes.eq), EqTerms, Heads(store.v), coll, keys)
              && indexes.inv == Backfill(Ensure(old(indexes.inv), NameOf(coll, field)), ByText(indexes.tk), Heads(store.v), coll, keys)
  {
    indexes.EnsureSearch(coll, field);
    var keys := BackfillAll(store, indexes, coll);
  }

  method BackfillAll(store: Store, indexes: Indexes, coll: string) returns (keys: seq<string>)
    requires store.Valid()
    modifies indexes
    ensures LiveKeys(store.v, coll, keys) && forall k :: k in keys ==> k in Heads(store.v)
    ensures indexes.eq == Backfill(old(indexes.eq), EqTerms, Heads(store.v), coll, keys)
    ensures indexes.inv == Backfill(old(indexes.inv), ByText(indexes.tk), Heads(store.v), coll, keys)
  {
    keys := store.Keys(coll + ":", None);
    ghost var eq0, inv0, docs := indexes.eq, indexes.inv, Heads(store.v);
    assert forall k :: k in keys ==> k in docs;
    hide AddAll, Paired, Read, Heads, Backfill, KeysOf, Old;
    BackfillNone(eq0, EqTerms, docs, coll);
    BackfillNone(inv0, ByText(indexes.tk), docs, coll);
    for i := 0 to |keys|
      invariant store.Valid()
      invariant indexes.eq == Backfill(eq0, EqTerms, docs, coll, keys[..i])
      invariant indexes.inv == Backfill(inv0, ByText(indexes.tk), docs, coll, keys[..i])
    {
      assert keys[i] in keys;
      BackfillNext(eq0, EqTerms, docs, coll, keys, i);
      BackfillNext(inv0, ByText(indexes.tk), docs, coll, keys, i);
      HeadHas(store.v, keys[i]);
      var doc := store.Get(keys[i], None);
      if doc.Some? {
        indexes.Add(coll, keys[i], doc.value);
      }
    }
    assert keys[..|keys|] == keys;
  }

  lemma BackfillNone<K>(rows: Rows<K>, t: Terms<K>, docs: map<string, Doc>, coll: string)
    ensures Backfill(rows, t, docs, coll, []) == rows
  {}

  lemma BackfillNext<K>(rows: Rows<K>, t: Terms<K>, docs: map<string, Doc>, coll: string, keys: seq<string>, i: nat)
    requires i < |keys| && forall k :: k in keys ==> k in docs
    ensures Backfill(rows, t, docs, coll, keys[..i + 1]) == AddAll(Backfill(rows, t, docs, coll, keys[..i]), t, coll, keys[i], docs[keys[i]])
  {
    hide AddAll;
    assert keys[..i + 1][..i] == keys[..i];
  }

  lemma HeadHas(t: Table, key: string)
    requires key in Heads(t)
    ensures Read(t, key, None) == Some(Heads(t)[key])
  {}
}
