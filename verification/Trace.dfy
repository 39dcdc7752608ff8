/** TRACE caused_by and TRACE caused_by REVERSE: the two causal traversals of a
    log (python/nedb/engine.py). The first follows what the stored documents say of
    their causes, the second what the ops say. */
module Trace {
  import opened Collections
  import opened Hashing
  import opened Ops
  import opened Walks
  import opened MvccStore
  import opened FieldIndexes
  import opened Engine
  import OpLog

  // ---- citations ----

  function CausesOf(op: Op): seq<nat> { if op.body.req.causedBy.Some? then op.body.req.causedBy.value else [] }

  /** What a stored document says of its causes. */
  function DocCauses(doc: Doc): seq<nat> {
    if "_caused_by" in doc && doc["_caused_by"].Seqs? then doc["_caused_by"].seqs else []
  }

  /** Every op is a put whose document mirrors its provenance. */
  predicate PutsOnly(ops: seq<Op>) {
    forall i :: 0 <= i < |ops| ==> ops[i].body.req.action.Put? && DocCauses(ops[i].body.req.action.doc) == CausesOf(ops[i])
  }

  predicate IsPut(ops: seq<Op>, i: nat) { i < |ops| && ops[i].body.req.action.Put? }

  function OpKey(op: Op): string
    requires op.body.req.action.Put?
  {
    KeyOf(op.body.req.action.coll, op.body.req.action.id)
  }

  function OpDoc(op: Op): Doc
    requires op.body.req.action.Put?
  {
    Stored(op.body.req.action.doc, op.body.seqNo)
  }

  /** Op d cites op number c as a cause. */
  function Cites(ops: seq<Op>): set<(nat, nat)> {
    set d, c | 0 <= d < |ops| && c in CausesOf(ops[d]) :: (d, c)
  }

  lemma CitesMeans(ops: seq<Op>, d: nat, c: nat)
    ensures (d, c) in Cites(ops) <==> d < |ops| && c in CausesOf(ops[d])
  {}

  /** There is a walk of at least one edge. */
  ghost predicate Leads(edges: set<(nat, nat)>, a: nat, b: nat) {
    exists n: nat :: n > 0 && Walk(edges, a, b, n)
  }

  lemma LeadsConverse(edges: set<(nat, nat)>, a: nat, b: nat)
    ensures Leads(Converse(edges), b, a) <==> Leads(edges, a, b)
  {
    if n: nat :| n > 0 && Walk(edges, a, b, n) {
      WalkReverses(edges, a, b, n);
    }
    if n: nat :| n > 0 && Walk(Converse(edges), b, a, n) {
      WalkReverses(Converse(edges), b, a, n);
      ConverseTwice(edges);
    }
  }

  // ---- the cause map ----

  /** cause to the ops that cite it, in log order. */
  function CauseMap(ops: seq<Op>): map<nat, seq<nat>> {
    if ops == [] then map[] else Noted(CauseMap(ops[..|ops| - 1]), CausesOf(ops[|ops| - 1]), ops[|ops| - 1].body.seqNo)
  }

  function Noted(m: map<nat, seq<nat>>, causes: seq<nat>, seqNo: nat): map<nat, seq<nat>> {
    if causes == [] then m
    else
      var front, c := Noted(m, causes[..|causes| - 1], seqNo), causes[|causes| - 1];
      front[c := Dependents(front, c) + [seqNo]]
  }

  function Dependents(m: map<nat, seq<nat>>, c: nat): seq<nat> { if c in m then m[c] else [] }

  lemma {:induction false} NotedMeans(m: map<nat, seq<nat>>, causes: seq<nat>, seqNo: nat, c: nat, d: nat)
    ensures d in Dependents(Noted(m, causes, seqNo), c) <==> d in Dependents(m, c) || (d == seqNo && c in causes)
  {
    if causes != [] {
      NotedMeans(m, causes[..|causes| - 1], seqNo, c, d);
      assert causes == causes[..|causes| - 1] + [causes[|causes| - 1]];
    }
  }

  /** The cause map of ops numbered from s lists, under a cause, the ops that cite it. */
  lemma {:induction false} CauseMapHas(ops: seq<Op>, s: nat, c: nat, d: nat)
    requires Numbered(ops, s)
    ensures d in Dependents(CauseMap(ops), c) <==> s <= d < s + |ops| && c in CausesOf(ops[d - s])
  {
    if ops != [] {
      var n := |ops| - 1;
      CauseMapHas(ops[..n], s, c, d);
      NotedMeans(CauseMap(ops[..n]), CausesOf(ops[n]), ops[n].body.seqNo, c, d);
    }
  }

  /** The cause map is the citations, the other way round. */
  lemma CauseMapMeans(ops: seq<Op>, c: nat, d: nat)
    requires Numbered(ops, 0)
    ensures d in Dependents(CauseMap(ops), c) <==> (c, d) in Converse(Cites(ops))
  {
    InConverse(Cites(ops), c, d);
    CitesMeans(ops, d, c);
    CauseMapHas(ops, 0, c, d);
  }

  /** The map lists op d under cause c. */
  predicate Notes(m: map<nat, seq<nat>>, c: nat, d: nat) { d in Dependents(m, c) }

  lemma NotesAfter(ops: seq<Op>, m: nat, c: nat, d: nat)
    requires Numbered(ops, 0) && m <= |ops|
    ensures Notes(CauseMap(ops[m..]), c, d) <==> m <= d < |ops| && c in CausesOf(ops[d])
  {
    CauseMapHas(ops[m..], m, c, d);
  }

  /** A snapshot does not save the cause map, so a database opened from one has the
      map of the later ops only. Exactly when that loses nothing: when no op up to
      the checkpoint cites a cause. */
  lemma OpenKeepsCauses(ops: seq<Op>, m: nat)
    requires Numbered(ops, 0) && m <= |ops|
    ensures (forall c: nat, d: nat :: Notes(CauseMap(ops[m..]), c, d) <==> Notes(CauseMap(ops), c, d)) <==>
              forall i :: 0 <= i < m ==> CausesOf(ops[i]) == []
  {
    assert ops[0..] == ops;
    hide CausesOf, CauseMap, Notes, Numbered;
    forall c: nat, d: nat
      ensures Notes(CauseMap(ops), c, d) <==> d < |ops| && c in CausesOf(ops[d])
      ensures Notes(CauseMap(ops[m..]), c, d) <==> m <= d < |ops| && c in CausesOf(ops[d])
    {
      NotesAfter(ops, 0, c, d);
      NotesAfter(ops, m, c, d);
    }
    if forall c: nat, d: nat :: Notes(CauseMap(ops[m..]), c, d) <==> Notes(CauseMap(ops), c, d) {
      forall i: nat | i < m ensures CausesOf(ops[i]) == [] {
        FirstIn(CausesOf(ops[i]));
        forall c: nat ensures c !in CausesOf(ops[i]) {
          assert Notes(CauseMap(ops), c, i) <==> Notes(CauseMap(ops[m..]), c, i);
        }
      }
    }
  }

  // ---- one worklist argument for both directions ----

  /** From the start set everything visited is reached, and whatever leads out of
      it is visited or waits in the worklist; `open` is being expanded. */
  ghost predicate Exploring(edges: set<(nat, nat)>, start: set<nat>, visited: set<nat>, work: seq<nat>, open: set<nat>) {
    && (forall x :: x in visited ==> exists s :: s in start && Leads(edges, s, x))
    && (forall x :: x in work ==> x in start || x in visited)
    && (forall e :: e in edges && (e.0 in start || e.0 in visited) && e.0 !in work && e.0 !in open ==> e.1 in visited)
  }

  lemma LeadsStep(edges: set<(nat, nat)>, start: set<nat>, visited: set<nat>, x: nat, y: nat)
    requires forall v :: v in visited ==> exists s :: s in start && Leads(edges, s, v)
    requires (x in start || x in visited) && (x, y) in edges
    ensures exists s :: s in start && Leads(edges, s, y)
  {
    if x in start {
      assert Walk(edges, x, x, 0);
      assert Walk(edges, x, y, 1);
    } else {
      var s :| s in start && Leads(edges, s, x);
      var n: nat :| n > 0 && Walk(edges, s, x, n);
      assert Walk(edges, s, y, n + 1);
    }
  }

  lemma ExploredAll(edges: set<(nat, nat)>, start: set<nat>, visited: set<nat>, x: nat)
    requires Exploring(edges, start, visited, [], {})
    ensures x in visited <==> exists s :: s in start && Leads(edges, s, x)
  {
    if s :| s in start && Leads(edges, s, x) {
      var n: nat :| n > 0 && Walk(edges, s, x, n);
      var y: nat :| Walk(edges, s, y, n - 1) && (y, x) in edges;
      ClosedHolds(edges, visited + {s}, s, y, n - 1);
    }
  }

  /** Visiting one successor of the node being expanded. */
  lemma VisitNext(edges: set<(nat, nat)>, start: set<nat>, visited: set<nat>, work: seq<nat>, x: nat, y: nat, keep: bool)
    requires Exploring(edges, start, visited, work, {x}) && (x in start || x in visited) && (x, y) in edges
    requires !keep ==> forall e :: e in edges ==> e.0 != y
    ensures Exploring(edges, start, visited + {y}, if keep then work + [y] else work, {x})
  {
    LeadsStep(edges, start, visited, x, y);
    hide Leads;
  }

  lemma Expanded(edges: set<(nat, nat)>, start: set<nat>, visited: set<nat>, work: seq<nat>, x: nat)
    requires Exploring(edges, start, visited, work, {x}) && forall e :: e in edges && e.0 == x ==> e.1 in visited
    ensures Exploring(edges, start, visited, work, {})
  {
    hide Leads;
  }

  lemma Popped(edges: set<(nat, nat)>, start: set<nat>, visited: set<nat>, work: seq<nat>, i: nat)
    requires Exploring(edges, start, visited, work, {}) && i < |work|
    ensures Exploring(edges, start, visited, work[..i] + work[i + 1..], {work[i]}) && (work[i] in start || work[i] in visited)
  {
    hide Leads;
    assert work == work[..i] + [work[i]] + work[i + 1..];
  }

  // ---- backward ----

  /** The stored document of put d says that op number c is a cause. */
  function DocCites(ops: seq<Op>): set<(nat, nat)> {
    set d, c | 0 <= d < |ops| && ops[d].body.req.action.Put? && c in DocCauses(OpDoc(ops[d])) :: (d, c)
  }

  lemma DocCitesMeans(ops: seq<Op>, d: nat, c: nat)
    ensures (d, c) in DocCites(ops) <==> IsPut(ops, d) && c in DocCauses(OpDoc(ops[d]))
  {}

  /** Reading a put's key at its own sequence number gives its document. */
  lemma PutReads(ops: seq<Op>, c: nat)
    requires Numbered(ops, 0) && c < |ops| && ops[c].body.req.action.Put?
    ensures Read(Fold(ops).store, OpKey(ops[c]), Some(c)) == Some(OpDoc(ops[c]))
  {
    hide Append;
    TimeTravel(ops, c);
    assert OpLog.Prefix(ops, c) == ops[..c + 1];
    ViewMeans(Fold(ops), Some(c), OpKey(ops[c]), ("", ""));
    ViewMeans(Fold(ops[..c + 1]), None, OpKey(ops[c]), ("", ""));
    hide ViewAt, Read;
    assert ops[..c + 1][..c] == ops[..c];
    LastPutReads(Fold(ops[..c]).store, ops[c]);
    FoldLast(ops[..c + 1]);
  }

  lemma FoldLast(ops: seq<Op>)
    requires ops != []
    ensures Fold(ops) == ApplyTo(Fold(ops[..|ops| - 1]), ops[|ops| - 1])
  {}

  lemma LastPutReads(t: Table, op: Op)
    requires op.body.req.action.Put?
    ensures Read(StoreOp(t, op), OpKey(op), None) == Some(OpDoc(op))
  {}

  lemma StoredCauses(op: Op)
    requires op.body.req.action.Put?
    ensures DocCauses(OpDoc(op)) == DocCauses(op.body.req.action.doc)
  {}

  /** The row of a put: its key and the document it wrote. */
  function RowOf(op: Op): (string, Doc)
    requires op.body.req.action.Put?
  {
    (OpKey(op), OpDoc(op))
  }

  /** The rows found, by the sequence numbers of their ops. */
  ghost predicate RowsOf(ops: seq<Op>, seqs: seq<nat>, out: seq<(string, Doc)>) {
    && |out| == |seqs|
    && forall i :: 0 <= i < |seqs| ==> IsPut(ops, seqs[i]) && out[i] == RowOf(ops[seqs[i]])
  }

  /** The documents still to be expanded, by the sequence numbers of their ops. */
  ghost predicate FrontierOf(ops: seq<Op>, seqs: seq<nat>, frontier: seq<Doc>) {
    && |frontier| == |seqs|
    && forall i :: 0 <= i < |seqs| ==> IsPut(ops, seqs[i]) && frontier[i] == OpDoc(ops[seqs[i]])
  }

  ghost predicate ListsPuts(ops: seq<Op>, seqs: seq<nat>, visited: set<nat>) {
    Distinct(seqs) && forall c :: c in seqs <==> c in visited && IsPut(ops, c)
  }

  function Targets(edges: set<(nat, nat)>): set<nat> { set e | e in edges :: e.1 }

  lemma TargetOf(edges: set<(nat, nat)>, x: nat, y: nat)
    requires (x, y) in edges
    ensures y in Targets(edges)
  {
    assert (x, y).1 in Targets(edges);
  }

  /** Follow the causes of one document. */
  method ExpandBack(store: Store, ops: seq<Op>, ghost x: nat, causes: seq<nat>, visited0: set<nat>, frontier0: seq<Doc>, out0: seq<(string, Doc)>,
                    ghost start: set<nat>, ghost work0: seq<nat>, ghost seqs0: seq<nat>)
    returns (visited: set<nat>, frontier: seq<Doc>, out: seq<(string, Doc)>, ghost work: seq<nat>, ghost seqs: seq<nat>)
    requires store.Valid() && Numbered(ops, 0) && store.v == Fold(ops).store
    requires IsPut(ops, x) && causes == DocCauses(OpDoc(ops[x])) && (x in start || x in visited0)
    requires Exploring(DocCites(ops), start, visited0, work0, {x}) && FrontierOf(ops, work0, frontier0)
    requires RowsOf(ops, seqs0, out0) && ListsPuts(ops, seqs0, visited0) && visited0 <= Targets(DocCites(ops))
    ensures Exploring(DocCites(ops), start, visited, work, {}) && FrontierOf(ops, work, frontier)
    ensures RowsOf(ops, seqs, out) && ListsPuts(ops, seqs, visited) && visited0 <= visited <= Targets(DocCites(ops))
    ensures visited == visited0 ==> work == work0
  {
    hide Exploring, Fold, DocCites, Read, OpKey, OpDoc, DocCauses, Paired, Targets;
    visited, frontier, out, work, seqs := visited0, frontier0, out0, work0, seqs0;
    for i := 0 to |causes|
      invariant Exploring(DocCites(ops), start, visited, work, {x}) && FrontierOf(ops, work, frontier)
      invariant RowsOf(ops, seqs, out) && ListsPuts(ops, seqs, visited)
      invariant visited0 <= visited <= Targets(DocCites(ops)) && (visited == visited0 ==> work == work0)
      invariant forall j :: 0 <= j < i ==> causes[j] in visited
    {
      var c := causes[i];
      if c in visited {
        continue;
      }
      DocCitesMeans(ops, x, c);
      TargetOf(DocCites(ops), x, c);
      OnlyPutsCite(ops, c);
      VisitNext(DocCites(ops), start, visited, work, x, c, IsPut(ops, c));
      ghost var before := visited;
      visited := visited + {c};
      if c < |ops| && ops[c].body.req.action.Put? {
        var key := KeyOf(ops[c].body.req.action.coll, ops[c].body.req.action.id);
        PutReads(ops, c);
        OpKeyIs(ops[c]);
        var doc := store.Get(key, Some(c));
        if doc.Some? {
          out := out + [(key, doc.value)];
          seqs := seqs + [c];
          frontier := frontier + [doc.value];
          work := work + [c];
        }
      }
      assert c !in before && c in visited;
    }
    forall e | e in DocCites(ops) && e.0 == x ensures e.1 in visited {
      DocCitesMeans(ops, x, e.1);
      assert e == (x, e.1);
    }
    Expanded(DocCites(ops), start, visited, work, x);
  }

  lemma OpKeyIs(op: Op)
    requires op.body.req.action.Put?
    ensures OpKey(op) == KeyOf(op.body.req.action.coll, op.body.req.action.id)
  {}

  lemma OnlyPutsCite(ops: seq<Op>, c: nat)
    ensures !IsPut(ops, c) ==> forall e :: e in DocCites(ops) ==> e.0 != c
  {}

  /** Some listed op leads to x; x leads to some listed op. */
  ghost predicate LedFrom(edges: set<(nat, nat)>, rows: seq<nat>, x: nat) { exists s :: s in rows && Leads(edges, s, x) }

  ghost predicate LeadsInto(edges: set<(nat, nat)>, x: nat, rows: seq<nat>) { exists s :: s in rows && Leads(edges, x, s) }

  lemma BackEnds(edges: set<(nat, nat)>, rows: seq<nat>, visited: set<nat>, c: nat)
    requires Exploring(edges, SetOf(rows), visited, [], {})
    ensures c in visited <==> LedFrom(edges, rows, c)
  {
    ExploredAll(edges, SetOf(rows), visited, c);
    hide Leads;
  }

  lemma ForwardEnds(edges: set<(nat, nat)>, rows: seq<nat>, visited: set<nat>, d: nat)
    requires Exploring(Converse(edges), SetOf(rows), visited, [], {})
    ensures d in visited <==> LeadsInto(edges, d, rows)
  {
    BackEnds(Converse(edges), rows, visited, d);
    forall s: nat ensures Leads(Converse(edges), s, d) <==> Leads(edges, d, s) { LeadsConverse(edges, d, s); }
    hide Leads;
  }

  /** The rows are the documents of exactly the puts some start leads to, each
      once, as they were written. */
  ghost predicate IsBackTrace(ops: seq<Op>, rows: seq<nat>, out: seq<(string, Doc)>) {
    exists seqs: seq<nat> :: RowsOf(ops, seqs, out) && Distinct(seqs)
      && forall c: nat :: c in seqs <==> IsPut(ops, c) && LedFrom(DocCites(ops), rows, c)
  }

  /** Backward TRACE from the documents of some puts: exactly the puts they lead
      back to by one citation or more, each once, as they were written. */
  method TraceBack(store: Store, ops: seq<Op>, rows: seq<Doc>, ghost rowSeqs: seq<nat>)
    returns (out: seq<(string, Doc)>)
    requires store.Valid() && Numbered(ops, 0) && store.v == Fold(ops).store && FrontierOf(ops, rowSeqs, rows)
    ensures IsBackTrace(ops, rowSeqs, out)
  {
    hide Exploring, Fold, DocCites, LedFrom, Leads, DocCauses, Paired, Targets, OpDoc, OpKey, RowOf;
    ghost var start := SetOf(rowSeqs);
    var visited: set<nat> := {};
    var frontier := rows;
    ghost var work := rowSeqs;
    ghost var seqs: seq<nat> := [];
    out := [];
    ExploreStart(DocCites(ops), start, work);
    while frontier != []
      invariant Exploring(DocCites(ops), start, visited, work, {}) && FrontierOf(ops, work, frontier)
      invariant RowsOf(ops, seqs, out) && ListsPuts(ops, seqs, visited) && visited <= Targets(DocCites(ops))
      decreases |Targets(DocCites(ops)) - visited|, |frontier|
    {
      var doc := frontier[|frontier| - 1];
      ghost var x, n := work[|work| - 1], |work| - 1;
      Popped(DocCites(ops), start, visited, work, n);
      assert work[..n] + work[n + 1..] == work[..n];
      frontier := frontier[..|frontier| - 1];
      work := work[..n];
      ghost var before := visited;
      visited, frontier, out, work, seqs := ExpandBack(store, ops, x, DocCauses(doc), visited, frontier, out, start, work, seqs);
      Fewer(Targets(DocCites(ops)), before, visited);
    }
    forall c: nat ensures c in visited <==> LedFrom(DocCites(ops), rowSeqs, c) {
      BackEnds(DocCites(ops), rowSeqs, visited, c);
    }
  }

  /** Every document a reader is given is the document of a put, so a backward
      TRACE can start from the rows of any query. */
  lemma {:induction false} StoredIsPut(ops: seq<Op>, key: string, asOf: Option<int>)
    requires Numbered(ops, 0) && Read(Fold(ops).store, key, asOf).Some?
    ensures exists s: nat :: IsPut(ops, s) && OpKey(ops[s]) == key && Read(Fold(ops).store, key, asOf) == Some(OpDoc(ops[s]))
  {
    hide Fold, Read;
    var p := if asOf.Some? then OpLog.Prefix(ops, asOf.value) else ops;
    if asOf.Some? { GetIsLastWrite(ops, key, asOf.value); } else { HeadGet(ops, key); }
    var s := LeftByPut(p, key);
    assert ops[s] == p[s];
  }

  lemma {:induction false} LeftByPut(ops: seq<Op>, key: string) returns (s: nat)
    requires LastLeft(ops, key).Some?
    ensures IsPut(ops, s) && OpKey(ops[s]) == key && LastLeft(ops, key) == Some(OpDoc(ops[s]))
  {
    var n := |ops| - 1;
    if Writes(ops[n], key) {
      s := n;
    } else {
      s := LeftByPut(ops[..n], key);
    }
  }

  lemma ExploreStart(edges: set<(nat, nat)>, start: set<nat>, work: seq<nat>)
    requires forall s :: s in start ==> s in work
    requires forall s :: s in work ==> s in start
    ensures Exploring(edges, start, {}, work, {})
  {}

  lemma Fewer(all: set<nat>, before: set<nat>, after: set<nat>)
    requires before <= after <= all
    ensures before != after ==> |all - after| < |all - before|
    ensures before == after ==> |all - after| == |all - before|
  {
    if before != after {
      var x :| x in after && x !in before;
      assert all - after <= all - before - {x};
      SubsetSize(all - after, all - before - {x});
    }
  }

  // ---- forward ----

  /** The op is a put and its key has a document at the point asked for. */
  predicate Visible(ops: seq<Op>, asOf: Option<int>, d: nat) {
    IsPut(ops, d) && Read(Fold(ops).store, OpKey(ops[d]), asOf).Some?
  }

  /** The row of a visible op: its key and the document there at that point. */
  function RowAt(ops: seq<Op>, asOf: Option<int>, d: nat): (string, Doc)
    requires Visible(ops, asOf, d)
  {
    (OpKey(ops[d]), Read(Fold(ops).store, OpKey(ops[d]), asOf).value)
  }

  /** The citations by visible ops. */
  function CitesAt(ops: seq<Op>, asOf: Option<int>): set<(nat, nat)> {
    set e | e in Cites(ops) && Visible(ops, asOf, e.0)
  }

  lemma CitesAtMeans(ops: seq<Op>, asOf: Option<int>, d: nat, c: nat)
    ensures (c, d) in Converse(CitesAt(ops, asOf)) <==> Visible(ops, asOf, d) && c in CausesOf(ops[d])
  {
    InConverse(CitesAt(ops, asOf), c, d);
    CitesMeans(ops, d, c);
    assert (d, c) in CitesAt(ops, asOf) <==> (d, c) in Cites(ops) && Visible(ops, asOf, (d, c).0);
  }

  ghost predicate HeadRowsOf(ops: seq<Op>, asOf: Option<int>, seqs: seq<nat>, out: seq<(string, Doc)>) {
    && |out| == |seqs|
    && forall i :: 0 <= i < |seqs| ==> Visible(ops, asOf, seqs[i]) && out[i] == RowAt(ops, asOf, seqs[i])
  }

  /** The rows are those of exactly the visible ops that lead into a start by
      citations of visible ops, each once. */
  ghost predicate IsForwardTrace(ops: seq<Op>, asOf: Option<int>, rows: seq<nat>, out: seq<(string, Doc)>) {
    exists seqs: seq<nat> :: HeadRowsOf(ops, asOf, seqs, out) && Distinct(seqs)
      && forall d: nat :: d in seqs <==> LeadsInto(CitesAt(ops, asOf), d, rows)
  }

  /** On a put-only log every key ever put has a document at the head. */
  lemma {:induction false} HeadExists(ops: seq<Op>, d: nat)
    requires PutsOnly(ops) && d < |ops|
    ensures Read(Fold(ops).store, OpKey(ops[d]), None).Some?
  {
    var n := |ops| - 1;
    FoldLast(ops);
    hide Fold;
    LastPutReads(Fold(ops[..n]).store, ops[n]);
    if OpKey(ops[d]) != OpKey(ops[n]) {
      HeadExists(ops[..n], d);
      assert ops[..n][d] == ops[d];
    }
  }

  lemma DependentBelow(ops: seq<Op>, x: nat, d: nat)
    requires (x, d) in Converse(Cites(ops))
    ensures d < |ops| && x in CausesOf(ops[d])
  {
    InConverse(Cites(ops), x, d);
    CitesMeans(ops, d, x);
  }

  /** The visible ones of the ops visited. */
  function Seen(ops: seq<Op>, asOf: Option<int>, visited: set<nat>): set<nat> { set d | d in visited && Visible(ops, asOf, d) }

  lemma SeenNext(ops: seq<Op>, asOf: Option<int>, visited: set<nat>, d: nat)
    ensures Seen(ops, asOf, visited + {d}) == if Visible(ops, asOf, d) then Seen(ops, asOf, visited) + {d} else Seen(ops, asOf, visited)
  {
    hide Visible;
  }

  ghost predicate Lists(seqs: seq<nat>, seen: set<nat>) { Distinct(seqs) && forall d :: d in seqs <==> d in seen }

  /** Follow the dependents of one op. */
  method ExpandForward(store: Store, ops: seq<Op>, causeMap: map<nat, seq<nat>>, asOf: Option<int>, x: nat, visited0: set<nat>, queue0: seq<nat>,
                       out0: seq<(string, Doc)>, ghost start: set<nat>, ghost seqs0: seq<nat>)
    returns (visited: set<nat>, queue: seq<nat>, out: seq<(string, Doc)>, ghost seqs: seq<nat>)
    requires store.Valid() && Numbered(ops, 0) && store.v == Fold(ops).store && causeMap == CauseMap(ops)
    requires x in start || x in Seen(ops, asOf, visited0)
    requires Exploring(Converse(CitesAt(ops, asOf)), start, Seen(ops, asOf, visited0), queue0, {x})
    requires HeadRowsOf(ops, asOf, seqs0, out0) && Lists(seqs0, Seen(ops, asOf, visited0)) && visited0 <= Targets(Converse(Cites(ops)))
    ensures Exploring(Converse(CitesAt(ops, asOf)), start, Seen(ops, asOf, visited), queue, {})
    ensures HeadRowsOf(ops, asOf, seqs, out) && Lists(seqs, Seen(ops, asOf, visited)) && visited0 <= visited <= Targets(Converse(Cites(ops)))
    ensures visited == visited0 ==> queue == queue0
  {
    hide Exploring, Fold, Cites, CitesAt, Read, OpKey, Paired, Targets, CauseMap, Converse, Seen;
    visited, queue, out, seqs := visited0, queue0, out0, seqs0;
    var deps := if x in causeMap then causeMap[x] else [];
    for i := 0 to |deps|
      invariant Exploring(Converse(CitesAt(ops, asOf)), start, Seen(ops, asOf, visited), queue, {x})
      invariant x in start || x in Seen(ops, asOf, visited)
      invariant HeadRowsOf(ops, asOf, seqs, out) && Lists(seqs, Seen(ops, asOf, visited))
      invariant visited0 <= visited <= Targets(Converse(Cites(ops))) && (visited == visited0 ==> queue == queue0)
      invariant forall j :: 0 <= j < i ==> deps[j] in visited
    {
      var d := deps[i];
      if d in visited {
        continue;
      }
      CauseMapMeans(ops, x, d);
      assert d in Dependents(causeMap, x);
      TargetOf(Converse(Cites(ops)), x, d);
      DependentBelow(ops, x, d);
      CitesAtMeans(ops, asOf, d, x);
      SeenNext(ops, asOf, visited, d);
      SeenIn(ops, asOf, visited, d);
      if Visible(ops, asOf, d) {
        VisitNext(Converse(CitesAt(ops, asOf)), start, Seen(ops, asOf, visited), queue, x, d, true);
      }
      ghost var before := visited;
      visited := visited + {d};
      if d < |ops| && ops[d].body.req.action.Put? {
        var key := KeyOf(ops[d].body.req.action.coll, ops[d].body.req.action.id);
        OpKeyIs(ops[d]);
        var doc := store.Get(key, asOf);
        if doc.Some? {
          out := out + [(key, doc.value)];
          seqs := seqs + [d];
          queue := queue + [d];
        }
      }
      assert d !in before && d in visited;
    }
    forall e | e in Converse(CitesAt(ops, asOf)) && e.0 == x ensures e.1 in Seen(ops, asOf, visited) {
      CitesAtMeans(ops, asOf, e.1, x);
      CauseMapMeans(ops, x, e.1);
      InConverse(Cites(ops), x, e.1);
      CitesMeans(ops, e.1, x);
      assert e == (x, e.1);
      assert e.1 in deps;
      SeenIn(ops, asOf, visited, e.1);
    }
    Expanded(Converse(CitesAt(ops, asOf)), start, Seen(ops, asOf, visited), queue, x);
  }

  lemma SeenIn(ops: seq<Op>, asOf: Option<int>, visited: set<nat>, d: nat)
    ensures d in Seen(ops, asOf, visited) <==> d in visited && Visible(ops, asOf, d)
  {
    hide Visible;
  }

  /** Forward TRACE from some ops, at the head or AS OF a number: exactly the
      visible ops that lead back to one of them through visible ops, each once. */
  method TraceForward(store: Store, ops: seq<Op>, causeMap: map<nat, seq<nat>>, asOf: Option<int>, rowSeqs: seq<nat>)
    returns (out: seq<(string, Doc)>)
    requires store.Valid() && Numbered(ops, 0) && store.v == Fold(ops).store && causeMap == CauseMap(ops)
    ensures IsForwardTrace(ops, asOf, rowSeqs, out)
  {
    hide Exploring, Fold, Cites, CitesAt, LeadsInto, Leads, Paired, Targets, CausesOf, CauseMap, Converse, OpKey, Read, Seen, Visible;
    ghost var edges := Converse(CitesAt(ops, asOf));
    ghost var start := SetOf(rowSeqs);
    var visited: set<nat> := {};
    var queue := rowSeqs;
    ghost var seqs: seq<nat> := [];
    out := [];
    SeenNone(ops, asOf);
    ExploreStart(edges, start, queue);
    while queue != []
      invariant Exploring(edges, start, Seen(ops, asOf, visited), queue, {})
      invariant HeadRowsOf(ops, asOf, seqs, out) && Lists(seqs, Seen(ops, asOf, visited)) && visited <= Targets(Converse(Cites(ops)))
      decreases |Targets(Converse(Cites(ops))) - visited|, |queue|
    {
      var x := queue[0];
      Popped(edges, start, Seen(ops, asOf, visited), queue, 0);
      assert queue[..0] + queue[1..] == queue[1..];
      queue := queue[1..];
      ghost var before := visited;
      visited, queue, out, seqs := ExpandForward(store, ops, causeMap, asOf, x, visited, queue, out, start, seqs);
      Fewer(Targets(Converse(Cites(ops))), before, visited);
    }
    forall d: nat ensures d in Seen(ops, asOf, visited) <==> LeadsInto(CitesAt(ops, asOf), d, rowSeqs) {
      ForwardEnds(CitesAt(ops, asOf), rowSeqs, Seen(ops, asOf, visited), d);
    }
  }

  lemma SeenNone(ops: seq<Op>, asOf: Option<int>)
    ensures Seen(ops, asOf, {}) == {}
  {}

  // ---- from rows to ops ----

  /** Where the put that last wrote a key stands. */
  function LastPut(ops: seq<Op>, key: string): Option<nat> {
    if ops == [] then None
    else
      var n := |ops| - 1;
      if ops[n].body.req.action.Put? && OpKey(ops[n]) == key then Some(n) else LastPut(ops[..n], key)
  }

  /** Where the op that last wrote a key stands. */
  method LastWrite(ops: seq<Op>, key: string) returns (found: Option<nat>)
    ensures found == LastPut(ops, key)
    ensures found.None? ==> forall i :: 0 <= i < |ops| && ops[i].body.req.action.Put? ==> OpKey(ops[i]) != key
    ensures found.Some? ==> found.value < |ops| && ops[found.value].body.req.action.Put? && OpKey(ops[found.value]) == key
                            && forall i :: found.value < i < |ops| && ops[i].body.req.action.Put? ==> OpKey(ops[i]) != key
  {
    var i := |ops|;
    assert ops[..|ops|] == ops;
    while i > 0
      invariant 0 <= i <= |ops| && LastPut(ops[..i], key) == LastPut(ops, key)
      invariant forall j :: i <= j < |ops| && ops[j].body.req.action.Put? ==> OpKey(ops[j]) != key
    {
      assert ops[..i][..i - 1] == ops[..i - 1];
      i := i - 1;
      if ops[i].body.req.action.Put? && KeyOf(ops[i].body.req.action.coll, ops[i].body.req.action.id) == key {
        return Some(i);
      }
    }
    return None;
  }

  /** How an id that is not text is formatted into a key; foreign code. */
  type Shows = Value -> string

  function IdText(show: Shows, v: Value): string { if v.Str? then v.s else show(v) }

  /** The op a forward TRACE starts from for one row: the last put of the key that
      the row's `_id` spells in the collection of the query. */
  function StartOf(show: Shows, ops: seq<Op>, coll: string, row: Doc): Option<nat> {
    if "_id" in row && row["_id"] != Null then LastPut(ops, KeyOf(coll, IdText(show, row["_id"]))) else None
  }

  function StartsOf(show: Shows, ops: seq<Op>, coll: string, rows: seq<Doc>): seq<nat> {
    if rows == [] then []
    else
      var front, s := StartsOf(show, ops, coll, rows[..|rows| - 1]), StartOf(show, ops, coll, rows[|rows| - 1]);
      if s.Some? then front + [s.value] else front
  }

  /** TRACE REVERSE of the rows of a query. */
  method TraceReverse(store: Store, ops: seq<Op>, causeMap: map<nat, seq<nat>>, show: Shows, coll: string, rows: seq<Doc>, asOf: Option<int>)
    returns (out: seq<(string, Doc)>)
    requires store.Valid() && Numbered(ops, 0) && store.v == Fold(ops).store && causeMap == CauseMap(ops)
    ensures IsForwardTrace(ops, asOf, StartsOf(show, ops, coll, rows), out)
  {
    hide LastPut, OpKey, IsForwardTrace, Fold, CauseMap;
    var starts: seq<nat> := [];
    for i := 0 to |rows|
      invariant starts == StartsOf(show, ops, coll, rows[..i])
    {
      assert rows[..i + 1][..i] == rows[..i];
      var row := rows[i];
      if "_id" in row && row["_id"] != Null {
        var found := LastWrite(ops, coll + ":" + IdText(show, row["_id"]));
        assert KeyOf(coll, IdText(show, row["_id"])) == coll + ":" + IdText(show, row["_id"]);
        if found.Some? {
          starts := starts + [found.value];
        }
      }
    }
    assert rows[..|rows|] == rows;
    out := TraceForward(store, ops, causeMap, asOf, starts);
  }

  lemma {:induction false} LastPutMeans(ops: seq<Op>, key: string)
    ensures LastPut(ops, key).None? ==> forall i: nat :: IsPut(ops, i) ==> OpKey(ops[i]) != key
    ensures LastPut(ops, key).Some? ==> IsPut(ops, LastPut(ops, key).value) && OpKey(ops[LastPut(ops, key).value]) == key
    ensures LastPut(ops, key).Some? ==> forall i: nat :: IsPut(ops, i) && i > LastPut(ops, key).value ==> OpKey(ops[i]) != key
  {
    if ops != [] {
      var front := ops[..|ops| - 1];
      LastPutMeans(front, key);
      forall i: nat | IsPut(front, i) ensures ops[i] == front[i] && IsPut(ops, i) {}
    }
  }

  /** The row of a put leads a forward TRACE to the last put of its own key exactly
      when its `_id` spells, in the collection of the query, that very key (or one
      whose last put is the same, which is no other). */
  lemma StartIsOwn(show: Shows, ops: seq<Op>, coll: string, s: nat)
    requires IsPut(ops, s)
    ensures var row := OpDoc(ops[s]);
            LastPut(ops, OpKey(ops[s])).Some?
            && (StartOf(show, ops, coll, row) == LastPut(ops, OpKey(ops[s])) <==>
                  "_id" in row && row["_id"] != Null && KeyOf(coll, IdText(show, row["_id"])) == OpKey(ops[s]))
  {
    hide KeyOf, OpDoc, IdText, LastPut;
    LastPutMeans(ops, OpKey(ops[s]));
    var row := OpDoc(ops[s]);
    if "_id" in row && row["_id"] != Null {
      LastPutMeans(ops, KeyOf(coll, IdText(show, row["_id"])));
    }
  }

  // ---- the two traversals are converses ----

  /** Between puts, each direct citation that one traversal follows is spanned by
      citations the other follows. */
  ghost predicate Reconciled(ops: seq<Op>, asOf: Option<int>) {
    forall d: nat, c: nat :: IsPut(ops, d) && IsPut(ops, c) ==>
      ((d, c) in DocCites(ops) ==> Leads(CitesAt(ops, asOf), d, c)) && ((d, c) in CitesAt(ops, asOf) ==> Leads(DocCites(ops), d, c))
  }

  /** From any put each traversal finds what finds it in the other. */
  ghost predicate Converses(ops: seq<Op>, asOf: Option<int>) {
    forall d: nat, c: nat :: IsPut(ops, d) && IsPut(ops, c) ==> (Leads(DocCites(ops), d, c) <==> Leads(CitesAt(ops, asOf), d, c))
  }

  lemma LeadsEdge(edges: set<(nat, nat)>, a: nat, b: nat)
    requires (a, b) in edges
    ensures Leads(edges, a, b)
  {
    assert Walk(edges, a, a, 0) && Walk(edges, a, b, 1);
  }

  lemma {:induction false} WalkJoins(edges: set<(nat, nat)>, a: nat, b: nat, c: nat, m: nat, n: nat)
    requires Walk(edges, a, b, m) && Walk(edges, b, c, n)
    ensures Walk(edges, a, c, m + n)
    decreases n
  {
    if n > 0 {
      var y: nat :| Walk(edges, b, y, n - 1) && (y, c) in edges;
      WalkJoins(edges, a, b, y, m, n - 1);
      assert m + (n - 1) == m + n - 1;
    }
  }

  lemma LeadsJoins(edges: set<(nat, nat)>, a: nat, b: nat, c: nat)
    requires Leads(edges, a, b) && Leads(edges, b, c)
    ensures Leads(edges, a, c)
  {
    var m: nat :| m > 0 && Walk(edges, a, b, m);
    var n: nat :| n > 0 && Walk(edges, b, c, n);
    WalkJoins(edges, a, b, c, m, n);
  }

  /** A walk over edges that leave puts can be replaced edge by edge. */
  lemma {:induction false} Replaced(ops: seq<Op>, f: set<(nat, nat)>, g: set<(nat, nat)>, a: nat, b: nat, n: nat)
    requires n > 0 && Walk(f, a, b, n) && IsPut(ops, b)
    requires forall e :: e in f ==> IsPut(ops, e.0)
    requires forall d: nat, c: nat :: IsPut(ops, d) && IsPut(ops, c) && (d, c) in f ==> Leads(g, d, c)
    ensures Leads(g, a, b)
    decreases n
  {
    hide Leads;
    var y: nat :| Walk(f, a, y, n - 1) && (y, b) in f;
    assert IsPut(ops, (y, b).0);
    if n > 1 {
      Replaced(ops, f, g, a, y, n - 1);
      LeadsJoins(g, a, y, b);
    }
  }

  lemma PutsCite(ops: seq<Op>, asOf: Option<int>)
    ensures forall e :: e in DocCites(ops) ==> IsPut(ops, e.0)
    ensures forall e :: e in CitesAt(ops, asOf) ==> IsPut(ops, e.0)
  {}

  /** Exactly when the traversals are converses of each other: when their direct
      citations reconcile. */
  lemma ConverseWhen(ops: seq<Op>, asOf: Option<int>)
    ensures Converses(ops, asOf) <==> Reconciled(ops, asOf)
  {
    var b, f := DocCites(ops), CitesAt(ops, asOf);
    PutsCite(ops, asOf);
    hide DocCites, CitesAt, IsPut;
    if Reconciled(ops, asOf) {
      forall d: nat, c: nat | IsPut(ops, d) && IsPut(ops, c) ensures Leads(b, d, c) <==> Leads(f, d, c) {
        if n: nat :| n > 0 && Walk(b, d, c, n) { Replaced(ops, b, f, d, c, n); }
        if n: nat :| n > 0 && Walk(f, d, c, n) { Replaced(ops, f, b, d, c, n); }
      }
    }
    if Converses(ops, asOf) {
      forall d: nat, c: nat | IsPut(ops, d) && IsPut(ops, c)
        ensures ((d, c) in b ==> Leads(f, d, c)) && ((d, c) in f ==> Leads(b, d, c))
      {
        if (d, c) in b { LeadsEdge(b, d, c); }
        if (d, c) in f { LeadsEdge(f, d, c); }
      }
    }
  }

  /** They reconcile when every op is a put whose document mirrors its provenance. */
  lemma MirroredReconciles(ops: seq<Op>)
    requires PutsOnly(ops)
    ensures Reconciled(ops, None)
  {
    hide Leads;
    forall d: nat, c: nat | IsPut(ops, d) && IsPut(ops, c)
      ensures ((d, c) in DocCites(ops) ==> Leads(CitesAt(ops, None), d, c)) && ((d, c) in CitesAt(ops, None) ==> Leads(DocCites(ops), d, c))
    {
      HeadExists(ops, d);
      StoredCauses(ops[d]);
      DocCitesMeans(ops, d, c);
      CitesAtMeans(ops, None, d, c);
      InConverse(CitesAt(ops, None), c, d);
      hide DocCites, CitesAt, Fold, Read, DocCauses, CausesOf, OpDoc, OpKey;
      if (d, c) in DocCites(ops) { LeadsEdge(CitesAt(ops, None), d, c); }
      if (d, c) in CitesAt(ops, None) { LeadsEdge(DocCites(ops), d, c); }
    }
  }

  /** A document put with a `_caused_by` field of its own, not passed as the op's
      provenance, is followed backward and not forward. */
  lemma HandWrittenCause(op0: Op, op1: Op)
    requires Numbered([op0, op1], 0) && op0.body.req.action.Put? && op1.body.req.action.Put?
    requires CausesOf(op0) == [] && CausesOf(op1) == []
    requires DocCauses(op0.body.req.action.doc) == [] && DocCauses(op1.body.req.action.doc) == [0]
    ensures IsBackTrace([op0, op1], [1], [RowOf(op0)]) && IsForwardTrace([op0, op1], None, [0], [])
    ensures !Reconciled([op0, op1], None)
  {
    hide Visible, OpKey, DocCauses, CausesOf;
    var ops := [op0, op1];
    StoredCauses(op0);
    StoredCauses(op1);
    hide OpDoc;
    forall d: nat, c: nat ensures (d, c) in DocCites(ops) <==> d == 1 && c == 0 { DocCitesMeans(ops, d, c); }
    forall d: nat, c: nat ensures (d, c) !in CitesAt(ops, None) {
      CitesMeans(ops, d, c);
      assert (d, c) in CitesAt(ops, None) ==> (d, c) in Cites(ops);
    }
    hide DocCites, CitesAt;
    forall d: nat, c: nat ensures !Leads(CitesAt(ops, None), d, c) {
      if n: nat :| n > 0 && Walk(CitesAt(ops, None), d, c, n) { WalkLeaves(CitesAt(ops, None), d, c, n); assert false; }
    }
    LeadsEdge(DocCites(ops), 1, 0);
    assert IsPut(ops, 0) && IsPut(ops, 1);
    forall c: nat ensures c in [0] <==> IsPut(ops, c) && LedFrom(DocCites(ops), [1], c) {
      OnlyEdge(DocCites(ops), c);
      assert 1 in [1 as nat];
    }
    hide Leads;
    assert RowsOf(ops, [0], [RowOf(op0)]);
    assert HeadRowsOf(ops, None, [], []);
  }

  lemma OnlyEdge(edges: set<(nat, nat)>, c: nat)
    requires forall d: nat, c: nat :: (d, c) in edges <==> d == 1 && c == 0
    ensures Leads(edges, 1, c) <==> c == 0
  {
    LeadsEdge(edges, 1, 0);
  }

  /** A row tells which op wrote it, by the number in its document. */
  lemma RowTells(a: Op, b: Op)
    requires a.body.req.action.Put? && b.body.req.action.Put? && RowOf(a) == RowOf(b)
    ensures a.body.seqNo == b.body.seqNo
  {
    assert OpDoc(a)["_seq"] == Num(a.body.seqNo) && OpDoc(b)["_seq"] == Num(b.body.seqNo);
  }

  /** The row of a put is in a backward TRACE exactly if the start leads to it. */
  lemma BackRowMeans(ops: seq<Op>, d: nat, back: seq<(string, Doc)>, c: nat)
    requires Numbered(ops, 0) && IsPut(ops, c) && IsBackTrace(ops, [d], back)
    ensures RowOf(ops[c]) in back <==> Leads(DocCites(ops), d, c)
  {
    hide Leads, DocCites, LedFrom, RowsOf, IsPut;
    var seqs: seq<nat> :| RowsOf(ops, seqs, back) && Distinct(seqs) && forall x: nat :: x in seqs <==> IsPut(ops, x) && LedFrom(DocCites(ops), [d], x);
    LedFromOne(DocCites(ops), d, c);
    RowListed(ops, seqs, back, c);
  }

  lemma LedFromOne(edges: set<(nat, nat)>, d: nat, c: nat)
    ensures LedFrom(edges, [d], c) <==> Leads(edges, d, c)
    ensures LeadsInto(edges, c, [d]) <==> Leads(edges, c, d)
  {
    hide Leads;
    assert d in [d];
  }

  lemma RowListed(ops: seq<Op>, seqs: seq<nat>, out: seq<(string, Doc)>, c: nat)
    requires Numbered(ops, 0) && RowsOf(ops, seqs, out) && IsPut(ops, c)
    ensures RowOf(ops[c]) in out <==> c in seqs
  {
    hide RowOf;
    if RowOf(ops[c]) in out {
      var i :| 0 <= i < |out| && out[i] == RowOf(ops[c]);
      RowTells(ops[seqs[i]], ops[c]);
      assert seqs[i] in seqs;
    }
    if c in seqs {
      var i :| 0 <= i < |seqs| && seqs[i] == c;
      assert out[i] == RowOf(ops[c]);
    }
  }

  /** A row is in a forward TRACE exactly if it is the row of an op that leads to
      the start. */
  lemma ForwardRowMeans(ops: seq<Op>, asOf: Option<int>, c: nat, fwd: seq<(string, Doc)>, row: (string, Doc))
    requires IsForwardTrace(ops, asOf, [c], fwd)
    ensures row in fwd <==> exists d: nat :: Visible(ops, asOf, d) && RowAt(ops, asOf, d) == row && Leads(CitesAt(ops, asOf), d, c)
  {
    hide Leads, CitesAt, Visible, RowAt, LeadsInto;
    var seqs: seq<nat> :| HeadRowsOf(ops, asOf, seqs, fwd) && Distinct(seqs) && forall d: nat :: d in seqs <==> LeadsInto(CitesAt(ops, asOf), d, [c]);
    if row in fwd {
      var i :| 0 <= i < |fwd| && fwd[i] == row;
      assert seqs[i] in seqs;
      LedFromOne(CitesAt(ops, asOf), c, seqs[i]);
    }
    if d: nat :| Visible(ops, asOf, d) && RowAt(ops, asOf, d) == row && Leads(CitesAt(ops, asOf), d, c) {
      LedFromOne(CitesAt(ops, asOf), c, d);
      assert d in seqs;
      var i :| 0 <= i < |seqs| && seqs[i] == d;
      assert fwd[i] == row;
    }
  }

  lemma SourceVisible(ops: seq<Op>, asOf: Option<int>, d: nat, c: nat)
    requires Leads(CitesAt(ops, asOf), d, c)
    ensures Visible(ops, asOf, d)
  {
    var n: nat :| n > 0 && Walk(CitesAt(ops, asOf), d, c, n);
    WalkLeaves(CitesAt(ops, asOf), d, c, n);
    hide Visible;
    var y: nat :| (d, y) in CitesAt(ops, asOf);
    assert Visible(ops, asOf, (d, y).0);
  }

  lemma {:induction false} WalkLeaves(edges: set<(nat, nat)>, a: nat, b: nat, n: nat)
    requires n > 0 && Walk(edges, a, b, n)
    ensures exists y: nat :: (a, y) in edges
    decreases n
  {
    var y: nat :| Walk(edges, a, y, n - 1) && (y, b) in edges;
    if n > 1 { WalkLeaves(edges, a, y, n - 1); }
  }

  /** A backward TRACE from every put. */
  ghost predicate BackTraces(ops: seq<Op>, backs: seq<seq<(string, Doc)>>) {
    |backs| == |ops| && forall d: nat :: IsPut(ops, d) ==> IsBackTrace(ops, [d], backs[d])
  }

  /** The two traversals are converses, row for row: what a forward TRACE from a put
      lists are the rows of exactly the puts whose own backward TRACE lists it. */
  lemma TracesConverse(ops: seq<Op>, asOf: Option<int>, c: nat, fwd: seq<(string, Doc)>, backs: seq<seq<(string, Doc)>>)
    requires Numbered(ops, 0) && Reconciled(ops, asOf) && IsPut(ops, c)
    requires IsForwardTrace(ops, asOf, [c], fwd) && BackTraces(ops, backs)
    ensures forall d: nat :: IsPut(ops, d) && RowOf(ops[c]) in backs[d] ==> Visible(ops, asOf, d) && RowAt(ops, asOf, d) in fwd
    ensures forall row :: row in fwd ==>
              exists d: nat :: IsPut(ops, d) && RowOf(ops[c]) in backs[d] && Visible(ops, asOf, d) && RowAt(ops, asOf, d) == row
  {
    hide Leads, CitesAt, DocCites, OpKey, Read, Fold, IsBackTrace, IsForwardTrace, RowOf, Reconciled, Visible, RowAt;
    ConverseWhen(ops, asOf);
    forall d: nat | IsPut(ops, d) && RowOf(ops[c]) in backs[d] ensures Visible(ops, asOf, d) && RowAt(ops, asOf, d) in fwd {
      BackRowMeans(ops, d, backs[d], c);
      SourceVisible(ops, asOf, d, c);
      ForwardRowMeans(ops, asOf, c, fwd, RowAt(ops, asOf, d));
    }
    forall row | row in fwd
      ensures exists d: nat :: IsPut(ops, d) && RowOf(ops[c]) in backs[d] && Visible(ops, asOf, d) && RowAt(ops, asOf, d) == row
    {
      ForwardRowMeans(ops, asOf, c, fwd, row);
      var d: nat :| Visible(ops, asOf, d) && RowAt(ops, asOf, d) == row && Leads(CitesAt(ops, asOf), d, c);
      VisibleIsPut(ops, asOf, d);
      BackRowMeans(ops, d, backs[d], c);
    }
  }

  lemma VisibleIsPut(ops: seq<Op>, asOf: Option<int>, d: nat)
    requires Visible(ops, asOf, d)
    ensures IsPut(ops, d)
  {}

  /** A row of a forward TRACE names a key, not an op. So, for one start each way, the
      first finds the second exactly when the second finds the first, unless only
      another put of the second's key leads back to the first. */
  lemma PairConverse(ops: seq<Op>, asOf: Option<int>, c: nat, d: nat, fwd: seq<(string, Doc)>, backs: seq<seq<(string, Doc)>>)
    requires Numbered(ops, 0) && Reconciled(ops, asOf) && IsPut(ops, c) && Visible(ops, asOf, d)
    requires IsForwardTrace(ops, asOf, [c], fwd) && BackTraces(ops, backs)
    ensures (RowOf(ops[c]) in backs[d] <==> RowAt(ops, asOf, d) in fwd) <==>
              (RowOf(ops[c]) in backs[d]
               || forall x: nat :: IsPut(ops, x) && OpKey(ops[x]) == OpKey(ops[d]) ==> RowOf(ops[c]) !in backs[x])
  {
    hide OpKey, Read, Fold, IsBackTrace, IsForwardTrace, RowOf, Reconciled;
    TracesConverse(ops, asOf, c, fwd, backs);
    if RowAt(ops, asOf, d) in fwd {
      var x: nat :| IsPut(ops, x) && RowOf(ops[c]) in backs[x] && Visible(ops, asOf, x) && RowAt(ops, asOf, x) == RowAt(ops, asOf, d);
      assert OpKey(ops[x]) == OpKey(ops[d]);
    }
    if x: nat :| IsPut(ops, x) && OpKey(ops[x]) == OpKey(ops[d]) && RowOf(ops[c]) in backs[x] {
      assert RowAt(ops, asOf, x) == RowAt(ops, asOf, d);
    }
  }

  /** A put, a second that cites it, and a third that rewrites the second's key and
      cites nothing: the forward TRACE of the first shows the row of the third, whose
      backward TRACE does not show the first. */
  lemma RewrittenRow(op0: Op, op1: Op, op2: Op, fwd: seq<(string, Doc)>, back: seq<(string, Doc)>)
    requires Numbered([op0, op1, op2], 0) && PutsOnly([op0, op1, op2]) && IsPut([op0, op1, op2], 0)
    requires CausesOf(op1) == [0] && CausesOf(op2) == [] && op1.body.req.action.Put? && op2.body.req.action.Put? && OpKey(op1) == OpKey(op2)
    requires IsForwardTrace([op0, op1, op2], None, [0], fwd) && IsBackTrace([op0, op1, op2], [2], back)
    ensures Visible([op0, op1, op2], None, 2) && RowAt([op0, op1, op2], None, 2) in fwd && RowOf(op0) !in back
  {
    var ops := [op0, op1, op2];
    HeadExists(ops, 1);
    HeadExists(ops, 2);
    StoredCauses(op2);
    assert DocCauses(ops[2].body.req.action.doc) == CausesOf(ops[2]);
    hide OpKey, Read, Fold, IsBackTrace, IsForwardTrace, RowOf, OpDoc, DocCauses, CausesOf;
    CitesAtMeans(ops, None, 1, 0);
    InConverse(CitesAt(ops, None), 0, 1);
    LeadsEdge(CitesAt(ops, None), 1, 0);
    ForwardRowMeans(ops, None, 0, fwd, RowAt(ops, None, 2));
    assert RowAt(ops, None, 1) == RowAt(ops, None, 2);
    NoCauseNoWalk(ops, 2, 0);
    BackRowMeans(ops, 2, back, 0);
  }

  lemma NoCauseNoWalk(ops: seq<Op>, d: nat, c: nat)
    requires IsPut(ops, d) && DocCauses(OpDoc(ops[d])) == []
    ensures !Leads(DocCites(ops), d, c)
  {
    forall y: nat ensures (d, y) !in DocCites(ops) { DocCitesMeans(ops, d, y); }
    if n: nat :| n > 0 && Walk(DocCites(ops), d, c, n) {
      WalkLeaves(DocCites(ops), d, c, n);
      assert false;
    }
  }

  // ---- the cause map over time ----

  /** Note an op's citations in the cause map. */
  method NoteCauses(m0: map<nat, seq<nat>>, ghost ops: seq<Op>, op: Op) returns (m: map<nat, seq<nat>>)
    requires m0 == CauseMap(ops)
    ensures m == CauseMap(ops + [op])
  {
    m := m0;
    var causes := CausesOf(op);
    for i := 0 to |causes|
      invariant m == Noted(m0, causes[..i], op.body.seqNo)
    {
      assert causes[..i + 1][..i] == causes[..i];
      var c := causes[i];
      m := m[c := (if c in m then m[c] else []) + [op.body.seqNo]];
    }
    assert causes[..|causes|] == causes;
    assert (ops + [op])[..|ops|] == ops;
  }
}
