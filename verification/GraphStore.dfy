/** The typed causal edge store and its breadth-first TRACE
    (rust/nedb-v2/src/graph.rs, db.rs). */
module GraphStore {
  import opened Collections
  import opened Hashing
  import opened Walks

  /** Out-neighbours by node, each list in the order `outgoing` returns it. */
  type Graph = map<Digest, seq<Digest>>

  function Next(g: Graph, x: Digest): seq<Digest> { if x in g then g[x] else [] }

  function Edges(g: Graph): set<(Digest, Digest)> {
    set x, y | x in g && y in g[x] :: (x, y)
  }

  function Targets(g: Graph): set<Digest> { set x, y | x in g && y in g[x] :: y }

  /** The neighbours not seen before, in order, each once. */
  function Fresh(xs: seq<Digest>, seen: set<Digest>): (novel: seq<Digest>)
    ensures forall y :: y in novel <==> y in xs && y !in seen
    ensures forall i, j :: 0 <= i < j < |novel| ==> novel[i] != novel[j]
  {
    if xs == [] then []
    else if xs[0] in seen then Fresh(xs[1..], seen)
    else [xs[0]] + Fresh(xs[1..], seen + {xs[0]})
  }

  /** The visiting order of an unlimited breadth-first walk. */
  function Visit(g: Graph, queue: seq<Digest>, seen: set<Digest>): seq<Digest>
    decreases Targets(g) - seen, |queue|
  {
    if queue == [] then []
    else
      var novel := Fresh(Next(g, queue[0]), seen);
      FreshShrinks(g, queue[0], seen);
      [queue[0]] + Visit(g, queue[1..] + novel, seen + SetOf(novel))
  }

  function Order(g: Graph, start: Digest): seq<Digest> { Visit(g, [start], {start}) }

  lemma FreshShrinks(g: Graph, x: Digest, seen: set<Digest>)
    ensures var novel := Fresh(Next(g, x), seen);
            var left, left' := Targets(g) - seen, Targets(g) - (seen + SetOf(novel));
            if novel == [] then left' == left else left' < left
  {
    var novel := Fresh(Next(g, x), seen);
    if novel != [] {
      assert novel[0] in novel;
      assert novel[0] in Targets(g) - seen;
    } else {
      assert SetOf(novel) == {};
    }
  }

  // ---- breadth-first order ----

  /** A stage of the walk: `line` is everything seen, in order, the first `done`
      of it visited; `level` gives each node's distance. */
  ghost predicate Stage(g: Graph, start: Digest, line: seq<Digest>, done: nat, level: seq<nat>) {
    && |line| == |level| > 0 && done <= |line|
    && line[0] == start && level[0] == 0
    && (forall i, j :: 0 <= i < j < |line| ==> line[i] != line[j] && level[i] <= level[j])
    && (done < |line| ==> level[|line| - 1] <= level[done] + 1)
    && (forall i :: 0 <= i < |line| ==> Walk(Edges(g), start, line[i], level[i]))
    && (forall i :: 0 <= i < done ==> Expanded(g, line, level, i))
  }

  /** Every successor of the i-th node stands in line at most one level down. */
  ghost predicate Expanded(g: Graph, line: seq<Digest>, level: seq<nat>, i: nat)
    requires i < |line| == |level|
  {
    forall y :: y in Next(g, line[i]) ==> exists k :: 0 <= k < |line| && line[k] == y && level[k] <= level[i] + 1
  }

  /** Any walk no longer than the next level ends at a node already in line, and
      no higher up than the walk is long. */
  lemma {:induction false} Nearest(g: Graph, start: Digest, line: seq<Digest>, done: nat, level: seq<nat>, x: Digest, n: nat)
    returns (k: nat)
    requires Stage(g, start, line, done, level) && Walk(Edges(g), start, x, n)
    requires done < |line| ==> n <= level[done]
    ensures k < |line| && line[k] == x && level[k] <= n
    decreases n
  {
    if n == 0 {
      k := 0;
    } else {
      var y :| Walk(Edges(g), start, y, n - 1) && (y, x) in Edges(g);
      var j := Nearest(g, start, line, done, level, y, n - 1);
      assert j < done;
      assert Expanded(g, line, level, j) && x in Next(g, line[j]);
      k :| 0 <= k < |line| && line[k] == x && level[k] <= level[j] + 1;
    }
  }

  function Repeat(x: nat, n: nat): seq<nat> {
    seq(n, i => x)
  }

  /** Lengthening the line keeps what was expanded. */
  lemma ExpandedStays(g: Graph, line: seq<Digest>, level: seq<nat>, i: nat, more: seq<Digest>, moreLevel: seq<nat>)
    requires |line| == |level| && |more| == |moreLevel| && i < |line| && Expanded(g, line, level, i)
    ensures Expanded(g, line + more, level + moreLevel, i)
  {
    forall y | y in Next(g, (line + more)[i])
      ensures exists k :: 0 <= k < |line + more| && (line + more)[k] == y && (level + moreLevel)[k] <= (level + moreLevel)[i] + 1
    {
      var k :| 0 <= k < |line| && line[k] == y && level[k] <= level[i] + 1;
      assert (line + more)[k] == y;
    }
  }

  /** Appending the unseen successors of a node, one level down, expands it. */
  lemma ExpandedNow(g: Graph, line: seq<Digest>, level: seq<nat>, i: nat)
    requires |line| == |level| && i < |line| && level[|line| - 1] <= level[i] + 1
    requires forall j, k :: 0 <= j < k < |level| ==> level[j] <= level[k]
    ensures var novel := Fresh(Next(g, line[i]), SetOf(line));
            Expanded(g, line + novel, level + Repeat(level[i] + 1, |novel|), i)
  {
    var novel := Fresh(Next(g, line[i]), SetOf(line));
    var line', level' := line + novel, level + Repeat(level[i] + 1, |novel|);
    forall y | y in Next(g, line'[i])
      ensures exists k :: 0 <= k < |line'| && line'[k] == y && level'[k] <= level'[i] + 1
    {
      if y in SetOf(line) {
        var k :| 0 <= k < |line| && line[k] == y;
        assert level[k] <= level[|line| - 1];
        assert line'[k] == y;
      } else {
        var k :| 0 <= k < |novel| && novel[k] == y;
        assert line'[|line| + k] == y;
      }
    }
  }

  lemma NovelWalks(g: Graph, start: Digest, x: Digest, n: nat, y: Digest)
    requires Walk(Edges(g), start, x, n) && y in Next(g, x)
    ensures Walk(Edges(g), start, y, n + 1)
  {
    assert (x, y) in Edges(g);
  }

  lemma LineGrows(line: seq<Digest>, level: seq<nat>, novel: seq<Digest>, n: nat)
    requires |line| == |level| > 0 && level[|line| - 1] <= n
    requires forall i, j :: 0 <= i < j < |line| ==> line[i] != line[j] && level[i] <= level[j]
    requires forall i, j :: 0 <= i < j < |novel| ==> novel[i] != novel[j]
    requires forall y :: y in novel ==> y !in SetOf(line)
    ensures var line', level' := line + novel, level + Repeat(n, |novel|);
            forall i, j :: 0 <= i < j < |line'| ==> line'[i] != line'[j] && level'[i] <= level'[j]
  {
    var line', level' := line + novel, level + Repeat(n, |novel|);
    forall i, j | 0 <= i < j < |line'| ensures line'[i] != line'[j] && level'[i] <= level'[j] {
      if i < |line| <= j {
        assert line[i] in SetOf(line) && line'[j] in novel;
        assert level[i] <= level[|line| - 1];
      }
    }
  }

  lemma ExpandNext(g: Graph, start: Digest, line: seq<Digest>, done: nat, level: seq<nat>)
    returns (level': seq<nat>)
    requires Stage(g, start, line, done, level) && done < |line|
    ensures Stage(g, start, line + Fresh(Next(g, line[done]), SetOf(line)), done + 1, level')
  {
    hide Walk, Expanded, Next, Fresh, Edges, SetOf;
    var novel := Fresh(Next(g, line[done]), SetOf(line));
    var line' := line + novel;
    level' := level + Repeat(level[done] + 1, |novel|);
    forall i | 0 <= i < |line'| ensures Walk(Edges(g), start, line'[i], level'[i]) {
      if i >= |line| {
        assert line'[i] in novel;
        NovelWalks(g, start, line[done], level[done], line'[i]);
      }
    }
    ExpandedNow(g, line, level, done);
    LineGrows(line, level, novel, level[done] + 1);
    forall i | 0 <= i < done ensures Expanded(g, line', level', i) {
      ExpandedStays(g, line, level, i, novel, Repeat(level[done] + 1, |novel|));
    }
  }

  /** What the walk lists in all, from a stage on. */
  function Completed(g: Graph, line: seq<Digest>, done: nat): seq<Digest>
    requires done <= |line|
  {
    line[..done] + Visit(g, line[done..], SetOf(line))
  }

  lemma VisitStep(g: Graph, line: seq<Digest>, done: nat)
    requires done < |line|
    ensures var line' := line + Fresh(Next(g, line[done]), SetOf(line));
            && Completed(g, line, done) == Completed(g, line', done + 1)
            && (line' == line || Targets(g) - SetOf(line') < Targets(g) - SetOf(line))
  {
    var novel := Fresh(Next(g, line[done]), SetOf(line));
    var line' := line + novel;
    assert SetOf(line') == SetOf(line) + SetOf(novel);
    assert line'[done + 1..] == line[done..][1..] + novel;
    assert line'[..done + 1] == line[..done] + [line[done]];
    FreshShrinks(g, line[done], SetOf(line));
  }

  lemma {:induction false} VisitStages(g: Graph, start: Digest, line: seq<Digest>, done: nat, level: seq<nat>)
    returns (level': seq<nat>)
    requires Stage(g, start, line, done, level)
    ensures Stage(g, start, Completed(g, line, done), |Completed(g, line, done)|, level')
    decreases Targets(g) - SetOf(line), |line| - done
  {
    if done == |line| {
      level' := level;
      assert Completed(g, line, done) == line;
    } else {
      VisitStep(g, line, done);
      var level1 := ExpandNext(g, start, line, done, level);
      level' := VisitStages(g, start, line + Fresh(Next(g, line[done]), SetOf(line)), done + 1, level1);
    }
  }

  lemma Levels(g: Graph, start: Digest) returns (level: seq<nat>)
    ensures Stage(g, start, Order(g, start), |Order(g, start)|, level)
  {
    var line := [start];
    assert SetOf(line) == {start};
    assert Completed(g, line, 0) == Order(g, start);
    level := VisitStages(g, start, line, 0, [0]);
  }

  /** The unlimited walk lists exactly the reachable nodes, each once. */
  lemma OrderIsReachable(g: Graph, start: Digest)
    ensures forall i, j :: 0 <= i < j < |Order(g, start)| ==> Order(g, start)[i] != Order(g, start)[j]
    ensures forall x :: x in Order(g, start) <==> Reaches(Edges(g), start, x)
  {
    var order := Order(g, start);
    var level := Levels(g, start);
    forall x ensures x in order <==> Reaches(Edges(g), start, x) {
      if x in order {
        var i :| 0 <= i < |order| && order[i] == x;
        assert Walk(Edges(g), start, x, level[i]);
      }
      if n: nat :| Walk(Edges(g), start, x, n) {
        var k := Nearest(g, start, order, |order|, level, x, n);
      }
    }
  }

  /** Nearer nodes come first: a node is no farther from the start than any node
      listed after it. */
  lemma OrderIsByDistance(g: Graph, start: Digest, i: nat, j: nat, n: nat) returns (m: nat)
    requires i <= j < |Order(g, start)| && Walk(Edges(g), start, Order(g, start)[j], n)
    ensures m <= n && Walk(Edges(g), start, Order(g, start)[i], m)
  {
    var order := Order(g, start);
    var level := Levels(g, start);
    var k := Nearest(g, start, order, |order|, level, order[j], n);
    m := level[i];
  }

  // ---- the store ----

  type EdgeMap = map<(Digest, string), set<Digest>>

  /** How one hash set happens to be enumerated. */
  type Listing = set<Digest> -> seq<Digest>

  ghost predicate Lists(order: Listing) {
    forall s, x :: x in order(s) <==> x in s
  }

  function ListOf(order: Listing, s: set<Digest>): seq<Digest> { order(s) }

  /** The graph of one edge type. */
  function GraphOf(mem: EdgeMap, order: Listing, kind: string): Graph {
    map x | x in (set k | k in mem && k.1 == kind :: k.0) :: ListOf(order, mem[(x, kind)])
  }

  lemma NextOf(mem: EdgeMap, order: Listing, kind: string, x: Digest)
    ensures Next(GraphOf(mem, order, kind), x) == if (x, kind) in mem then ListOf(order, mem[(x, kind)]) else []
  {
  }

  lemma VisitUnfolds(g: Graph, queue: seq<Digest>, seen: set<Digest>, before: seq<Digest>)
    requires queue != []
    ensures var novel := Fresh(Next(g, queue[0]), seen);
            before + Visit(g, queue, seen) == (before + [queue[0]]) + Visit(g, queue[1..] + novel, seen + SetOf(novel))
  {
  }

  function AddTo(mem: EdgeMap, frm: Digest, kind: string, to: Digest): EdgeMap {
    mem[(frm, kind) := (if (frm, kind) in mem then mem[(frm, kind)] else {}) + {to}]
  }

  function RevKind(kind: string): string { kind + "_rev" }

  class Store {
    var mem: EdgeMap

    constructor ()
      ensures mem == map[]
    {
      mem := map[];
    }

    method AddEdge(frm: Digest, kind: string, to: Digest)
      modifies this
      ensures mem == AddTo(old(mem), frm, kind, to)
      ensures AddTo(mem, frm, kind, to) == mem
    {
      var s := if (frm, kind) in mem then mem[(frm, kind)] else {};
      mem := mem[(frm, kind) := s + {to}];
    }

    method Trace(start: Digest, kind: string, reverse: bool, limit: nat, order: Listing) returns (result: seq<Digest>)
      ensures result == Take(Order(GraphOf(mem, order, if reverse then RevKind(kind) else kind), start), limit)
    {
      var walked := if reverse then RevKind(kind) else kind;
      ghost var g := GraphOf(mem, order, walked);
      result := [];
      var queue, seen := [start], {start};
      while queue != [] && |result| < limit
        invariant |result| <= limit
        invariant result + Visit(g, queue, seen) == Order(g, start)
        decreases Targets(g) - seen, |queue|
      {
        var current := queue[0];
        FreshShrinks(g, current, seen);
        VisitUnfolds(g, queue, seen, result);
        queue := queue[1..];
        result := result + [current];
        NextOf(mem, order, walked, current);
        var next := if (current, walked) in mem then ListOf(order, mem[(current, walked)]) else [];
        queue, seen := Enqueue(next, queue, seen);
      }
      if queue != [] {
        assert Order(g, start)[..limit] == result;
      }
    }

    method Enqueue(next: seq<Digest>, queue0: seq<Digest>, seen0: set<Digest>) returns (queue: seq<Digest>, seen: set<Digest>)
      ensures queue == queue0 + Fresh(next, seen0)
      ensures seen == seen0 + SetOf(Fresh(next, seen0))
    {
      queue, seen := queue0, seen0;
      for i := 0 to |next|
        invariant queue + Fresh(next[i..], seen) == queue0 + Fresh(next, seen0)
        invariant seen + SetOf(Fresh(next[i..], seen)) == seen0 + SetOf(Fresh(next, seen0))
      {
        assert next[i..][1..] == next[i + 1..] && next[i..][0] == next[i];
        if next[i] !in seen {
          seen := seen + {next[i]};
          queue := queue + [next[i]];
        }
      }
    }

    /** The edges `put` writes for one node: every cause both ways. */
    method RecordCauses(hash: Digest, causes: seq<Digest>)
      modifies this
      ensures mem == Caused(old(mem), hash, causes)
    {
      for i := 0 to |causes|
        invariant Caused(mem, hash, causes[i..]) == Caused(old(mem), hash, causes)
      {
        assert causes[i..][1..] == causes[i + 1..];
        AddEdge(hash, "caused_by", causes[i]);
        AddEdge(causes[i], RevKind("caused_by"), hash);
      }
    }
  }

  function Caused(mem: EdgeMap, hash: Digest, causes: seq<Digest>): EdgeMap
    decreases |causes|
  {
    if causes == [] then mem
    else Caused(AddTo(AddTo(mem, hash, "caused_by", causes[0]), causes[0], RevKind("caused_by"), hash), hash, causes[1..])
  }

  // ---- reverse trace ----

  predicate HasEdge(mem: EdgeMap, frm: Digest, kind: string, to: Digest) {
    (frm, kind) in mem && to in mem[(frm, kind)]
  }

  /** Every causal edge is stored both ways. */
  ghost predicate Mirrored(mem: EdgeMap) {
    forall x, y :: HasEdge(mem, x, "caused_by", y) <==> HasEdge(mem, y, RevKind("caused_by"), x)
  }

  lemma {:induction false} CausedMirrors(mem: EdgeMap, hash: Digest, causes: seq<Digest>)
    requires Mirrored(mem)
    ensures Mirrored(Caused(mem, hash, causes))
    decreases |causes|
  {
    if causes != [] {
      var kind, rev, c := "caused_by", RevKind("caused_by"), causes[0];
      assert kind != rev by { assert |kind| < |rev|; }
      var mem1 := AddTo(AddTo(mem, hash, kind, c), c, rev, hash);
      forall x, y ensures HasEdge(mem1, x, kind, y) <==> HasEdge(mem1, y, rev, x) {
        assert HasEdge(mem1, x, kind, y) <==> HasEdge(mem, x, kind, y) || (x == hash && y == c);
        assert HasEdge(mem1, y, rev, x) <==> HasEdge(mem, y, rev, x) || (x == hash && y == c);
      }
      CausedMirrors(mem1, hash, causes[1..]);
    }
  }

  /** The edge map after a run of puts. */
  function AfterPuts(puts: seq<(Digest, seq<Digest>)>): EdgeMap {
    if puts == [] then map[]
    else Caused(AfterPuts(puts[..|puts| - 1]), puts[|puts| - 1].0, puts[|puts| - 1].1)
  }

  lemma {:induction false} PutsMirror(puts: seq<(Digest, seq<Digest>)>)
    ensures Mirrored(AfterPuts(puts))
  {
    if puts != [] {
      PutsMirror(puts[..|puts| - 1]);
      CausedMirrors(AfterPuts(puts[..|puts| - 1]), puts[|puts| - 1].0, puts[|puts| - 1].1);
    }
  }

  lemma {:induction false} CausedHas(mem: EdgeMap, hash: Digest, causes: seq<Digest>, x: Digest, y: Digest)
    ensures HasEdge(Caused(mem, hash, causes), x, "caused_by", y) <==> HasEdge(mem, x, "caused_by", y) || (x == hash && y in causes)
    decreases |causes|
  {
    if causes != [] {
      var kind, rev, c := "caused_by", RevKind("caused_by"), causes[0];
      assert kind != rev by { assert |kind| < |rev|; }
      var mem1 := AddTo(AddTo(mem, hash, kind, c), c, rev, hash);
      assert HasEdge(mem1, x, kind, y) <==> HasEdge(mem, x, kind, y) || (x == hash && y == c);
      CausedHas(mem1, hash, causes[1..], x, y);
      assert y in causes <==> y == c || y in causes[1..];
    }
  }

  /** An edge leads from an object to what a put of it lists as a cause. */
  lemma {:induction false} CausesAreListed(puts: seq<(Digest, seq<Digest>)>, x: Digest, y: Digest)
    ensures HasEdge(AfterPuts(puts), x, "caused_by", y) <==> exists i :: 0 <= i < |puts| && puts[i].0 == x && y in puts[i].1
    ensures HasEdge(AfterPuts(puts), y, "caused_by_rev", x) <==> exists i :: 0 <= i < |puts| && puts[i].0 == x && y in puts[i].1
  {
    PutsMirror(puts);
    assert RevKind("caused_by") == "caused_by_rev";
    assert HasEdge(AfterPuts(puts), x, "caused_by", y) <==> HasEdge(AfterPuts(puts), y, RevKind("caused_by"), x);
    if puts != [] {
      var n := |puts| - 1;
      CausesAreListed(puts[..n], x, y);
      CausedHas(AfterPuts(puts[..n]), puts[n].0, puts[n].1, x, y);
      hide Caused, HasEdge;
      if i :| 0 <= i < n && puts[..n][i].0 == x && y in puts[..n][i].1 { assert puts[i] == puts[..n][i]; }
      if i :| 0 <= i < |puts| && puts[i].0 == x && y in puts[i].1 { assert i < n ==> puts[..n][i] == puts[i]; }
    }
  }

  lemma EdgesMean(mem: EdgeMap, order: Listing, kind: string, x: Digest, y: Digest)
    requires Lists(order)
    ensures (x, y) in Edges(GraphOf(mem, order, kind)) <==> HasEdge(mem, x, kind, y)
  {
    var g := GraphOf(mem, order, kind);
    assert x in g <==> (x, kind) in mem;
    if x in g { assert y in g[x] <==> y in mem[(x, kind)]; }
  }

  lemma EdgesConverse(mem: EdgeMap, order: Listing)
    requires Mirrored(mem) && Lists(order)
    ensures Edges(GraphOf(mem, order, RevKind("caused_by"))) == Converse(Edges(GraphOf(mem, order, "caused_by")))
  {
    var fwd, bwd := Edges(GraphOf(mem, order, "caused_by")), Edges(GraphOf(mem, order, RevKind("caused_by")));
    forall e ensures e in bwd <==> e in Converse(fwd) {
      EdgesMean(mem, order, RevKind("caused_by"), e.0, e.1);
      EdgesMean(mem, order, "caused_by", e.1, e.0);
      InConverse(fwd, e.0, e.1);
      assert HasEdge(mem, e.1, "caused_by", e.0) <==> HasEdge(mem, e.0, RevKind("caused_by"), e.1);
    }
  }

  /** After any run of puts the reverse trace of a node lists exactly the nodes
      whose forward trace lists it. */
  lemma ReverseTraceIsConverse(puts: seq<(Digest, seq<Digest>)>, order: Listing, a: Digest, b: Digest)
    requires Lists(order)
    ensures var mem := AfterPuts(puts);
            b in Order(GraphOf(mem, order, RevKind("caused_by")), a) <==> a in Order(GraphOf(mem, order, "caused_by"), b)
  {
    var mem := AfterPuts(puts);
    var fwd, bwd := GraphOf(mem, order, "caused_by"), GraphOf(mem, order, RevKind("caused_by"));
    PutsMirror(puts);
    EdgesConverse(mem, order);
    OrderIsReachable(fwd, b);
    OrderIsReachable(bwd, a);
    ReachesConverse(Edges(fwd), a, b);
  }
}
