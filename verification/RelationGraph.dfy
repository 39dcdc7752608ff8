/** The relation graph: edges with the interval of sequence numbers in which
    they are live, indexed both ways (python/nedb/relations.py). */
module RelationGraph {
  import opened Collections
  import opened Hashing
  import opened MvccStore

  datatype Edge = Edge(node: string, added: nat, removed: Option<nat>)

  /** (node, relation) to the edges there, oldest first. */
  type Adj = map<(string, string), seq<Edge>>

  function EdgesOf(a: Adj, k: (string, string)): seq<Edge> { if k in a then a[k] else [] }

  predicate Open(e: Edge, node: string) { e.node == node && e.removed.None? }

  predicate HasOpen(es: seq<Edge>, node: string) { exists i :: 0 <= i < |es| && Open(es[i], node) }

  function Extend(a: Adj, k: (string, string), e: Edge): Adj { a[k := EdgesOf(a, k) + [e]] }

  /** End every open edge to a node at s. */
  function CloseIn(es: seq<Edge>, node: string, s: nat): seq<Edge> {
    seq(|es|, i requires 0 <= i < |es| => if Open(es[i], node) then es[i].(removed := Some(s)) else es[i])
  }

  function Close(a: Adj, k: (string, string), node: string, s: nat): Adj {
    if k in a then a[k := CloseIn(a[k], node, s)] else a
  }

  predicate IsLive(e: Edge, asOf: Option<int>) {
    match asOf
    case None => e.removed.None?
    case Some(n) => e.added <= n && (e.removed.None? || e.removed.value > n)
  }

  /** The nodes of the edges live at a point, in order. */
  function Live(es: seq<Edge>, asOf: Option<int>): seq<string> {
    if es == [] then []
    else
      var front, e := Live(es[..|es| - 1], asOf), es[|es| - 1];
      if IsLive(e, asOf) then front + [e.node] else front
  }

  lemma {:induction false} LiveMeans(es: seq<Edge>, asOf: Option<int>, node: string)
    ensures node in Live(es, asOf) <==> exists i :: 0 <= i < |es| && es[i].node == node && IsLive(es[i], asOf)
  {
    if es != [] {
      LiveMeans(es[..|es| - 1], asOf, node);
      var front := es[..|es| - 1];
      if i :| 0 <= i < |front| && front[i].node == node && IsLive(front[i], asOf) {
        assert es[i] == front[i];
      }
    }
  }

  /** Whether an edge is live at n is settled by n. */
  lemma {:induction false} LiveSame(a: seq<Edge>, b: seq<Edge>, x: Option<int>, y: Option<int>)
    requires |a| == |b| && forall i :: 0 <= i < |a| ==> a[i].node == b[i].node && (IsLive(a[i], x) <==> IsLive(b[i], y))
    ensures Live(a, x) == Live(b, y)
  {
    if a != [] {
      LiveSame(a[..|a| - 1], b[..|b| - 1], x, y);
    }
  }

  // ---- linking and unlinking on both sides ----

  datatype Graph = Graph(adj: Adj, radj: Adj)

  function LinkIn(g: Graph, frm: string, rel: string, to: string, s: nat): Graph {
    if HasOpen(EdgesOf(g.adj, (frm, rel)), to) then g
    else Graph(Extend(g.adj, (frm, rel), Edge(to, s, None)), Extend(g.radj, (to, rel), Edge(frm, s, None)))
  }

  function UnlinkIn(g: Graph, frm: string, rel: string, to: string, s: nat): Graph {
    Graph(Close(g.adj, (frm, rel), to, s), Close(g.radj, (to, rel), frm, s))
  }

  /** Every stamp is below s. */
  ghost predicate Stamped(a: Adj, s: int) {
    forall k, i :: k in a && 0 <= i < |a[k]| ==> EdgeBefore(a[k][i], s)
  }

  predicate EdgeBefore(e: Edge, s: int) {
    e.added < s && (e.removed.Some? ==> e.removed.value < s)
  }

  /** What linking at s keeps: no reading before s changes. */
  lemma ExtendPast(a: Adj, k: (string, string), e: Edge, j: (string, string), n: int)
    requires e.added > n
    ensures Live(EdgesOf(Extend(a, k, e), j), Some(n)) == Live(EdgesOf(a, j), Some(n))
  {
    assert (EdgesOf(a, k) + [e])[..|EdgesOf(a, k)|] == EdgesOf(a, k);
  }

  lemma ClosePast(a: Adj, k: (string, string), node: string, s: nat, j: (string, string), n: int)
    requires s > n
    ensures Live(EdgesOf(Close(a, k, node, s), j), Some(n)) == Live(EdgesOf(a, j), Some(n))
  {
    LiveSame(EdgesOf(Close(a, k, node, s), j), EdgesOf(a, j), Some(n), Some(n));
  }

  /** Reading at or after every stamp is reading the head. */
  lemma LiveAtHead(a: Adj, j: (string, string), n: int)
    requires Stamped(a, n + 1)
    ensures Live(EdgesOf(a, j), Some(n)) == Live(EdgesOf(a, j), None)
  {
    var es := EdgesOf(a, j);
    forall i | 0 <= i < |es| ensures IsLive(es[i], Some(n)) <==> IsLive(es[i], None) {
      assert EdgeBefore(a[j][i], n + 1);
    }
    LiveSame(es, es, Some(n), None);
  }

  // ---- the two sides mirror each other ----

  ghost predicate Mirror(g: Graph) {
    forall frm, rel, to, added, removed ::
      Edge(to, added, removed) in EdgesOf(g.adj, (frm, rel)) <==> Edge(frm, added, removed) in EdgesOf(g.radj, (to, rel))
  }

  /** At most one edge to a node is open, and the intervals do not overlap. */
  ghost predicate Intervals(es: seq<Edge>) {
    && (forall i :: 0 <= i < |es| && es[i].removed.Some? ==> es[i].added < es[i].removed.value)
    && (forall i, j :: 0 <= i < j < |es| && es[i].node == es[j].node ==>
          es[i].removed.Some? && es[i].removed.value < es[j].added)
  }

  ghost predicate GraphOk(g: Graph, s: nat) {
    && Mirror(g) && Stamped(g.adj, s) && Stamped(g.radj, s)
    && (forall k :: k in g.adj ==> g.adj[k] != [] && Intervals(g.adj[k]))
  }

  lemma LinkMirror(g: Graph, frm: string, rel: string, to: string, s: nat)
    requires Mirror(g)
    ensures Mirror(LinkIn(g, frm, rel, to, s))
  {
    hide HasOpen;
  }

  lemma CloseMember(es: seq<Edge>, node: string, s: nat, e: Edge)
    ensures e in CloseIn(es, node, s) <==>
              (e in es && !Open(e, node)) || (e.node == node && e.removed == Some(s) && Edge(node, e.added, None) in es)
              || (e in es && e.removed == Some(s) && !Open(e, node))
  {
    var r := CloseIn(es, node, s);
    if e in r {
      var i :| 0 <= i < |r| && r[i] == e;
      assert es[i] in es;
    }
    if e in es && !Open(e, node) {
      var i :| 0 <= i < |es| && es[i] == e;
      assert r[i] == e;
    }
    if e.node == node && e.removed == Some(s) && Edge(node, e.added, None) in es {
      var i :| 0 <= i < |es| && es[i] == Edge(node, e.added, None);
      assert r[i] == e;
    }
  }

  lemma UnlinkMirror(g: Graph, frm: string, rel: string, to: string, s: nat)
    requires Mirror(g)
    ensures Mirror(UnlinkIn(g, frm, rel, to, s))
  {
    var g' := UnlinkIn(g, frm, rel, to, s);
    forall f, r, t, added, removed
      ensures Edge(t, added, removed) in EdgesOf(g'.adj, (f, r)) <==> Edge(f, added, removed) in EdgesOf(g'.radj, (t, r))
    {
      hide Close, CloseIn;
      UnlinkSide(g.adj, frm, rel, to, s, (f, r), Edge(t, added, removed));
      UnlinkSide(g.radj, to, rel, frm, s, (t, r), Edge(f, added, removed));
      assert Edge(t, added, None) in EdgesOf(g.adj, (f, r)) <==> Edge(f, added, None) in EdgesOf(g.radj, (t, r));
    }
  }

  lemma UnlinkSide(a: Adj, x: string, rel: string, node: string, s: nat, k: (string, string), e: Edge)
    ensures e in EdgesOf(Close(a, (x, rel), node, s), k) <==>
              if k == (x, rel) && e.node == node
              then (e in EdgesOf(a, k) && e.removed.Some?) || (e.removed == Some(s) && Edge(node, e.added, None) in EdgesOf(a, k))
              else e in EdgesOf(a, k)
  {
    if k == (x, rel) {
      CloseMember(EdgesOf(a, k), node, s, e);
    }
  }

  lemma LinkIntervals(g: Graph, frm: string, rel: string, to: string, s: nat)
    requires GraphOk(g, s)
    ensures forall k :: k in LinkIn(g, frm, rel, to, s).adj ==>
              LinkIn(g, frm, rel, to, s).adj[k] != [] && Intervals(LinkIn(g, frm, rel, to, s).adj[k])
  {
    hide Mirror;
    var es := EdgesOf(g.adj, (frm, rel));
    if !HasOpen(es, to) {
      forall i | 0 <= i < |es| && es[i].node == to ensures es[i].removed.Some? && es[i].removed.value < s {
        assert EdgeBefore(g.adj[(frm, rel)][i], s);
        assert !Open(es[i], to);
      }
    }
  }

  lemma UnlinkIntervals(g: Graph, frm: string, rel: string, to: string, s: nat)
    requires GraphOk(g, s)
    ensures forall k :: k in UnlinkIn(g, frm, rel, to, s).adj ==>
              UnlinkIn(g, frm, rel, to, s).adj[k] != [] && Intervals(UnlinkIn(g, frm, rel, to, s).adj[k])
  {
    hide Mirror;
    if (frm, rel) in g.adj {
      var es := g.adj[(frm, rel)];
      forall i | 0 <= i < |es| ensures es[i].added < s {
        assert EdgeBefore(g.adj[(frm, rel)][i], s);
      }
    }
  }

  lemma StampedGrows(a: Adj, k: (string, string), e: Edge, node: string, s: nat)
    requires Stamped(a, s) && EdgeBefore(e, s + 1)
    ensures Stamped(Extend(a, k, e), s + 1) && Stamped(Close(a, k, node, s), s + 1)
  {
    forall j, i | j in Extend(a, k, e) && 0 <= i < |Extend(a, k, e)[j]| ensures EdgeBefore(Extend(a, k, e)[j][i], s + 1) {
      if j != k || i < |EdgesOf(a, k)| { assert EdgeBefore(a[j][i], s); }
    }
    forall j, i | j in Close(a, k, node, s) && 0 <= i < |Close(a, k, node, s)[j]| ensures EdgeBefore(Close(a, k, node, s)[j][i], s + 1) {
      assert EdgeBefore(a[j][i], s);
    }
  }

  lemma StampedLater(a: Adj, s: nat)
    requires Stamped(a, s)
    ensures Stamped(a, s + 1)
  {
    forall j, i | j in a && 0 <= i < |a[j]| ensures EdgeBefore(a[j][i], s + 1) {
      assert EdgeBefore(a[j][i], s);
    }
  }

  lemma LinkKeeps(g: Graph, frm: string, rel: string, to: string, s: nat)
    requires GraphOk(g, s)
    ensures GraphOk(LinkIn(g, frm, rel, to, s), s + 1)
  {
    LinkMirror(g, frm, rel, to, s);
    LinkIntervals(g, frm, rel, to, s);
    hide Mirror, Intervals, Stamped, Extend, HasOpen;
    StampedGrows(g.adj, (frm, rel), Edge(to, s, None), to, s);
    StampedGrows(g.radj, (to, rel), Edge(frm, s, None), frm, s);
    StampedLater(g.adj, s);
    StampedLater(g.radj, s);
  }

  lemma UnlinkKeeps(g: Graph, frm: string, rel: string, to: string, s: nat)
    requires GraphOk(g, s)
    ensures GraphOk(UnlinkIn(g, frm, rel, to, s), s + 1)
  {
    UnlinkMirror(g, frm, rel, to, s);
    UnlinkIntervals(g, frm, rel, to, s);
    hide Mirror, Intervals, Stamped, Close;
    StampedGrows(g.adj, (frm, rel), Edge(to, s, None), to, s);
    StampedGrows(g.radj, (to, rel), Edge(frm, s, None), frm, s);
  }

  /** An earlier edge to the node of a live edge has ended before it. */
  lemma LastIsNew(es: seq<Edge>, asOf: Option<int>)
    requires es != [] && Intervals(es) && IsLive(es[|es| - 1], asOf)
    ensures forall i :: 0 <= i < |es| - 1 && es[i].node == es[|es| - 1].node ==> !IsLive(es[i], asOf)
  {}

  /** At no point in time is a neighbour listed twice. */
  lemma {:induction false} NeighboursDistinct(es: seq<Edge>, asOf: Option<int>)
    requires Intervals(es)
    ensures Distinct(Live(es, asOf))
  {
    if es != [] {
      var front, e := es[..|es| - 1], es[|es| - 1];
      NeighboursDistinct(front, asOf);
      LiveMeans(front, asOf, e.node);
      if IsLive(e, asOf) { LastIsNew(es, asOf); }
    }
  }

  /** At every point in time the two sides name the same links. */
  lemma SidesAgree(g: Graph, frm: string, rel: string, to: string, asOf: Option<int>)
    requires Mirror(g)
    ensures to in Live(EdgesOf(g.adj, (frm, rel)), asOf) <==> frm in Live(EdgesOf(g.radj, (to, rel)), asOf)
  {
    var a, b := EdgesOf(g.adj, (frm, rel)), EdgesOf(g.radj, (to, rel));
    LiveMeans(a, asOf, to);
    LiveMeans(b, asOf, frm);
    if i :| 0 <= i < |a| && a[i].node == to && IsLive(a[i], asOf) {
      assert Edge(to, a[i].added, a[i].removed) in a;
      assert Edge(frm, a[i].added, a[i].removed) in b;
    }
    if i :| 0 <= i < |b| && b[i].node == frm && IsLive(b[i], asOf) {
      assert Edge(frm, b[i].added, b[i].removed) in b;
      assert Edge(to, b[i].added, b[i].removed) in a;
    }
  }

  class Relations {
    var adj: Adj
    var radj: Adj

    ghost function Abs(): Graph
      reads this
    {
      Graph(adj, radj)
    }

    constructor ()
      ensures Abs() == Graph(map[], map[])
    {
      adj, radj := map[], map[];
    }

    method Link(frm: string, rel: string, to: string, seqNo: nat)
      modifies this
      ensures Abs() == LinkIn(old(Abs()), frm, rel, to, seqNo)
    {
      var es := if (frm, rel) in adj then adj[(frm, rel)] else [];
      for i := 0 to |es|
        invariant forall j :: 0 <= j < i ==> !Open(es[j], to)
      {
        if es[i].node == to && es[i].removed.None? {
          return;
        }
      }
      adj := adj[(frm, rel) := es + [Edge(to, seqNo, None)]];
      radj := radj[(to, rel) := (if (to, rel) in radj then radj[(to, rel)] else []) + [Edge(frm, seqNo, None)]];
    }

    /** End the open edges to `node` in one list. */
    static method EndOpen(es: seq<Edge>, node: string, seqNo: nat) returns (r: seq<Edge>)
      ensures r == CloseIn(es, node, seqNo)
    {
      r := es;
      for i := 0 to |es|
        invariant |r| == |es|
        invariant forall j :: 0 <= j < i ==> r[j] == CloseIn(es, node, seqNo)[j]
        invariant forall j :: i <= j < |es| ==> r[j] == es[j]
      {
        if r[i].node == node && r[i].removed.None? {
          r := r[i := r[i].(removed := Some(seqNo))];
        }
      }
    }

    method Unlink(frm: string, rel: string, to: string, seqNo: nat)
      modifies this
      ensures Abs() == UnlinkIn(old(Abs()), frm, rel, to, seqNo)
    {
      if (frm, rel) in adj {
        var es := EndOpen(adj[(frm, rel)], to, seqNo);
        adj := adj[(frm, rel) := es];
      }
      if (to, rel) in radj {
        var es := EndOpen(radj[(to, rel)], frm, seqNo);
        radj := radj[(to, rel) := es];
      }
    }

    static method LiveNodes(es: seq<Edge>, asOf: Option<int>) returns (out: seq<string>)
      ensures out == Live(es, asOf)
    {
      out := [];
      for i := 0 to |es|
        invariant out == Live(es[..i], asOf)
      {
        assert es[..i + 1][..i] == es[..i];
        var e := es[i];
        if asOf.None? {
          if e.removed.None? {
            out := out + [e.node];
          }
        } else if e.added <= asOf.value && (e.removed.None? || e.removed.value > asOf.value) {
          out := out + [e.node];
        }
      }
      assert es[..|es|] == es;
    }

    method Neighbors(frm: string, rel: string, asOf: Option<int>) returns (out: seq<string>)
      ensures out == Live(EdgesOf(adj, (frm, rel)), asOf)
    {
      out := LiveNodes(if (frm, rel) in adj then adj[(frm, rel)] else [], asOf);
    }

    method Inbound(to: string, rel: string, asOf: Option<int>) returns (out: seq<string>)
      ensures out == Live(EdgesOf(radj, (to, rel)), asOf)
    {
      out := LiveNodes(if (to, rel) in radj then radj[(to, rel)] else [], asOf);
    }
  }
}
