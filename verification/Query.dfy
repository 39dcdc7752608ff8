/** Executing a parsed plan: candidates by index or scan, the final filter,
    traversal, limit, valid time and grouping (python/nedb/engine.py, query.py). */
module Query {
  import opened Collections
  import opened Hashing
  import opened Ops
  import opened MvccStore
  import opened RelationGraph
  import opened FieldIndexes
  import opened Engine
  import OpLog

  // ---- plans ----

  datatype Cmp = Eq | Ne | Lt | Le | Gt | Ge

  datatype Clause = Clause(field: string, op: Cmp, value: Value)

  datatype Agg = Count | Sum(field: string) | Avg(field: string) | Min(field: string) | Max(field: string)

  datatype Plan = Plan(coll: string, asOf: Option<int>, where: seq<Clause>, search: Option<string>, traverse: Option<string>,
                       limit: Option<int>, validAt: Option<string>, groupBy: Option<string>, agg: Option<Agg>)

  // ---- comparing ----

  function FieldOf(doc: Doc, f: string): Value { if f in doc then doc[f] else Null }

  /** Lexicographic order. */
  predicate Below(a: seq<int>, b: seq<int>) {
    if b == [] then false
    else if a == [] then true
    else a[0] < b[0] || (a[0] == b[0] && Below(a[1..], b[1..]))
  }

  function Codes(s: string): seq<int> { seq(|s|, i requires 0 <= i < |s| => s[i] as int) }

  function Ints(s: seq<nat>): seq<int> { seq(|s|, i requires 0 <= i < |s| => s[i]) }

  predicate Comparable(a: Value, b: Value) { (a.Num? && b.Num?) || (a.Str? && b.Str?) || (a.Seqs? && b.Seqs?) }

  predicate LessThan(a: Value, b: Value)
    requires Comparable(a, b)
  {
    match a
    case Num(n) => n < b.n
    case Str(s) => Below(Codes(s), Codes(b.s))
    case Seqs(s) => Below(Ints(s), Ints(b.seqs))
  }

  /** A missing field compares as null; values that cannot be ordered do not match. */
  predicate Holds(a: Value, op: Cmp, v: Value) {
    match op
    case Eq => a == v
    case Ne => a != v
    case Lt => Comparable(a, v) && LessThan(a, v)
    case Le => Comparable(a, v) && (LessThan(a, v) || a == v)
    case Gt => Comparable(a, v) && LessThan(v, a)
    case Ge => Comparable(a, v) && (LessThan(v, a) || a == v)
  }

  lemma {:induction false} BelowTotal(a: seq<int>, b: seq<int>)
    ensures !(Below(a, b) && Below(b, a))
    ensures Below(a, b) || Below(b, a) || a == b
    ensures a == b ==> !Below(a, b)
    decreases |a|
  {
    if a != [] && b != [] {
      BelowTotal(a[1..], b[1..]);
      assert a == [a[0]] + a[1..] && b == [b[0]] + b[1..];
    }
  }

  lemma CodesInjective(s: string, t: string)
    requires Codes(s) == Codes(t)
    ensures s == t
  {
    assert |s| == |Codes(s)| == |Codes(t)| == |t|;
    forall i | 0 <= i < |s| ensures s[i] == t[i] {
      assert Codes(s)[i] == Codes(t)[i];
    }
  }

  lemma IntsInjective(s: seq<nat>, t: seq<nat>)
    requires Ints(s) == Ints(t)
    ensures s == t
  {
    assert |s| == |Ints(s)| == |Ints(t)| == |t|;
    forall i | 0 <= i < |s| ensures s[i] == t[i] {
      assert Ints(s)[i] == Ints(t)[i];
    }
  }

  /** The six comparisons fit together: of two values that can be ordered exactly
      one of less, equal and greater holds, and the others follow; of two that
      cannot, only inequality can hold. */
  lemma ComparisonsFit(a: Value, v: Value)
    ensures Holds(a, Ne, v) <==> !Holds(a, Eq, v)
    ensures Comparable(a, v) ==>
              && (Holds(a, Lt, v) || Holds(a, Eq, v) || Holds(a, Gt, v))
              && !(Holds(a, Lt, v) && Holds(a, Gt, v)) && !(Holds(a, Eq, v) && (Holds(a, Lt, v) || Holds(a, Gt, v)))
              && (Holds(a, Le, v) <==> !Holds(a, Gt, v)) && (Holds(a, Ge, v) <==> !Holds(a, Lt, v))
    ensures !Comparable(a, v) ==> !Holds(a, Lt, v) && !Holds(a, Le, v) && !Holds(a, Gt, v) && !Holds(a, Ge, v)
  {
    if Comparable(a, v) {
      match a
      case Num(n) =>
      case Str(s) =>
        BelowTotal(Codes(s), Codes(v.s));
        if Codes(s) == Codes(v.s) { CodesInjective(s, v.s); }
      case Seqs(s) =>
        BelowTotal(Ints(s), Ints(v.seqs));
        if Ints(s) == Ints(v.seqs) { IntsInjective(s, v.seqs); }
    }
  }

  predicate Passes(doc: Doc, where: seq<Clause>) {
    forall i :: 0 <= i < |where| ==> Holds(FieldOf(doc, where[i].field), where[i].op, where[i].value)
  }

  // ---- searching ----

  /** Whether a term occurs in the text of all a document's values; foreign code. */
  type Mentions = (Doc, string) -> bool

  predicate Says(mentions: Mentions, doc: Doc, term: string) { mentions(doc, term) }

  predicate Searching(plan: Plan) { plan.search.Some? && plan.search.value != "" }

  /** Some indexed field of the document holds the term. */
  predicate HoldsTerm(tk: Tokenizer, doc: Doc, fields: set<string>, term: string) {
    exists f :: f in fields && term in TextTerms(tk, f, doc)
  }

  /** What a search asks of a document. With full-text indexes: every term in some
      indexed field, and a text without terms matches nothing. Without: every
      term in the text of the document. */
  predicate Found(tk: Tokenizer, mentions: Mentions, doc: Doc, fields: set<string>, text: string) {
    if fields == {} then forall t :: t in Tokens(tk, text) ==> Says(mentions, doc, t)
    else Tokens(tk, text) != {} && forall t :: t in Tokens(tk, text) ==> HoldsTerm(tk, doc, fields, t)
  }

  // ---- which rows ----

  predicate Matches(tk: Tokenizer, mentions: Mentions, doc: Doc, plan: Plan, fields: set<string>) {
    Passes(doc, plan.where) && (Searching(plan) ==> Found(tk, mentions, doc, fields, plan.search.value))
  }

  /** The rows of a full scan. */
  function Matching(tk: Tokenizer, mentions: Mentions, docs: map<string, Doc>, plan: Plan, fields: set<string>): set<string> {
    set k | k in docs && plan.coll + ":" <= k && Matches(tk, mentions, docs[k], plan, fields)
  }

  /** The first equality clause with an index. */
  function IndexedClause(where: seq<Clause>, coll: string, names: set<string>): Option<Clause> {
    if where == [] then None
    else if where[0].op == Eq && NameOf(coll, where[0].field) in names then Some(where[0])
    else IndexedClause(where[1..], coll, names)
  }

  /** Which equality clause picks the candidates, if any does. */
  function Picks(plan: Plan, names: set<string>, fields: set<string>): Option<Clause> {
    if (Searching(plan) && fields != {}) || plan.asOf.Some? then None else IndexedClause(plan.where, plan.coll, names)
  }

  /** The rows that execution keeps: an equality index lists only documents that
      have the field. */
  function Kept(tk: Tokenizer, mentions: Mentions, docs: map<string, Doc>, plan: Plan, names: set<string>, fields: set<string>): set<string> {
    set k | k in Matching(tk, mentions, docs, plan, fields)
            && (Picks(plan, names, fields).Some? ==> Picks(plan, names, fields).value.field in docs[k])
  }

  lemma {:induction false} ClauseIsOne(where: seq<Clause>, coll: string, names: set<string>)
    requires IndexedClause(where, coll, names).Some?
    ensures var c := IndexedClause(where, coll, names).value;
            c in where && c.op == Eq && NameOf(coll, c.field) in names
  {
    if !(where[0].op == Eq && NameOf(coll, where[0].field) in names) {
      ClauseIsOne(where[1..], coll, names);
    }
  }

  /** Exactly when the index path gives the rows of the scan: unless the indexed
      comparison is with null and some matching document lacks the field. */
  lemma IndexedIsScan(tk: Tokenizer, mentions: Mentions, docs: map<string, Doc>, plan: Plan, names: set<string>, fields: set<string>)
    ensures Kept(tk, mentions, docs, plan, names, fields) == Matching(tk, mentions, docs, plan, fields) <==>
              (Picks(plan, names, fields).None? || Picks(plan, names, fields).value.value != Null
               || forall k :: k in Matching(tk, mentions, docs, plan, fields) ==> Picks(plan, names, fields).value.field in docs[k])
  {
    var p, all := Picks(plan, names, fields), Matching(tk, mentions, docs, plan, fields);
    if p.Some? {
      ClauseIsOne(plan.where, plan.coll, names);
      var i :| 0 <= i < |plan.where| && plan.where[i] == p.value;
      forall k | k in all && p.value.value != Null ensures p.value.field in docs[k] {
        assert Holds(FieldOf(docs[k], plan.where[i].field), plan.where[i].op, plan.where[i].value);
      }
    }
  }

  // ---- searching the past ----

  /** The rows of a search through the full-text indexes at a point in the past:
      the clauses are tested on the document as it was, the text on the document
      as it is now. */
  function PastFound(tk: Tokenizer, mentions: Mentions, past: map<string, Doc>, now: map<string, Doc>, plan: Plan, fields: set<string>): set<string>
    requires plan.search.Some?
  {
    set k | k in past && k in now && plan.coll + ":" <= k && Passes(past[k], plan.where) && Found(tk, mentions, now[k], fields, plan.search.value)
  }

  // ---- after the filter ----

  /** The neighbours of the rows, in order. */
  function Neighbours(view: View, rel: string, rows: seq<string>): seq<string> {
    if rows == [] then []
    else Neighbours(view, rel, rows[..|rows| - 1]) + LinksOf(view.links, (rows[|rows| - 1], rel))
  }

  /** The first occurrence of every node that has a document. */
  function FirstDocs(docs: map<string, Doc>, nodes: seq<string>): seq<string> {
    if nodes == [] then []
    else
      var front, x := nodes[..|nodes| - 1], nodes[|nodes| - 1];
      if x in front || x !in docs then FirstDocs(docs, front) else FirstDocs(docs, front) + [x]
  }

  function Traversed(view: View, rel: string, rows: seq<string>): seq<string> {
    FirstDocs(view.docs, Neighbours(view, rel, rows))
  }

  lemma {:induction false} NeighboursMean(view: View, rel: string, rows: seq<string>, x: string)
    ensures x in Neighbours(view, rel, rows) <==> exists r :: r in rows && x in LinksOf(view.links, (r, rel))
  {
    if rows != [] {
      NeighboursMean(view, rel, rows[..|rows| - 1], x);
      assert rows == rows[..|rows| - 1] + [rows[|rows| - 1]];
    }
  }

  lemma {:induction false} FirstDocsMean(docs: map<string, Doc>, nodes: seq<string>)
    ensures Distinct(FirstDocs(docs, nodes)) && forall x :: x in FirstDocs(docs, nodes) <==> x in nodes && x in docs
  {
    if nodes != [] {
      FirstDocsMean(docs, nodes[..|nodes| - 1]);
      assert nodes == nodes[..|nodes| - 1] + [nodes[|nodes| - 1]];
    }
  }

  /** A traversal lists exactly the linked documents of the rows, each once. */
  lemma TraverseMeans(view: View, rel: string, rows: seq<string>, x: string)
    ensures Distinct(Traversed(view, rel, rows))
    ensures x in Traversed(view, rel, rows) <==> x in view.docs && exists r :: r in rows && x in LinksOf(view.links, (r, rel))
  {
    FirstDocsMean(view.docs, Neighbours(view, rel, rows));
    NeighboursMean(view, rel, rows, x);
  }

  /** rows[:n], where a negative n drops from the end. */
  function Limited(rows: seq<string>, limit: Option<int>): seq<string> {
    match limit
    case None => rows
    case Some(n) =>
      if n < 0 then rows[..if |rows| + n < 0 then 0 else |rows| + n]
      else if n < |rows| then rows[..n] else rows
  }

  predicate StartsBy(v: Value, date: string) { v.Str? ==> !Below(Codes(date), Codes(v.s)) }

  predicate EndsAfter(v: Value, date: string) { v.Str? ==> !Below(Codes(v.s), Codes(date)) }

  predicate IsValidAt(doc: Doc, date: string) {
    StartsBy(FieldOf(doc, "_valid_from"), date) && EndsAfter(FieldOf(doc, "_valid_to"), date)
  }

  function DocOf(view: View, key: string): Doc { if key in view.docs then view.docs[key] else map[] }

  function ValidRows(view: View, rows: seq<string>, date: string): seq<string> {
    if rows == [] then []
    else
      var front, x := ValidRows(view, rows[..|rows| - 1], date), rows[|rows| - 1];
      if IsValidAt(DocOf(view, x), date) then front + [x] else front
  }

  /** The valid-time filter keeps exactly the rows valid at the date. */
  lemma {:induction false} ValidRowsMean(view: View, rows: seq<string>, date: string, x: string)
    ensures x in ValidRows(view, rows, date) <==> x in rows && IsValidAt(DocOf(view, x), date)
    ensures Distinct(rows) ==> Distinct(ValidRows(view, rows, date))
  {
    if rows != [] {
      var front, last := rows[..|rows| - 1], rows[|rows| - 1];
      ValidRowsMean(view, front, date, x);
      ValidRowsMean(view, front, date, last);
      hide IsValidAt;
      assert rows == front + [last];
    }
  }

  /** One group: the value and its rows, in order. */
  datatype Group = Group(value: Value, rows: seq<string>)

  function AddToGroups(gs: seq<Group>, v: Value, key: string): seq<Group> {
    if gs == [] then [Group(v, [key])]
    else if gs[0].value == v then [Group(v, gs[0].rows + [key])] + gs[1..]
    else [gs[0]] + AddToGroups(gs[1..], v, key)
  }

  function GroupsOf(view: View, rows: seq<string>, field: string): seq<Group> {
    if rows == [] then []
    else AddToGroups(GroupsOf(view, rows[..|rows| - 1], field), FieldOf(DocOf(view, rows[|rows| - 1]), field), rows[|rows| - 1])
  }

  /** The rows of one value, in order. */
  function RowsWith(view: View, rows: seq<string>, field: string, v: Value): seq<string> {
    if rows == [] then []
    else
      var front, x := RowsWith(view, rows[..|rows| - 1], field, v), rows[|rows| - 1];
      if FieldOf(DocOf(view, x), field) == v then front + [x] else front
  }

  function ValuesIn(gs: seq<Group>): set<Value> { if gs == [] then {} else {gs[0].value} + ValuesIn(gs[1..]) }

  predicate ValuesDiffer(gs: seq<Group>) { gs == [] || (gs[0].value !in ValuesIn(gs[1..]) && ValuesDiffer(gs[1..])) }

  /** The rows of a value in a list of groups. */
  function GroupFor(gs: seq<Group>, v: Value): seq<string> {
    if gs == [] then [] else if gs[0].value == v then gs[0].rows else GroupFor(gs[1..], v)
  }

  function CountAll(gs: seq<Group>): nat { if gs == [] then 0 else |gs[0].rows| + CountAll(gs[1..]) }

  lemma {:induction false} AddedGroup(gs: seq<Group>, v: Value, key: string)
    requires ValuesDiffer(gs)
    ensures var r := AddToGroups(gs, v, key);
            && ValuesDiffer(r) && ValuesIn(r) == ValuesIn(gs) + {v} && CountAll(r) == CountAll(gs) + 1
            && (forall w :: GroupFor(r, w) == if w == v then GroupFor(gs, v) + [key] else GroupFor(gs, w))
  {
    if gs != [] {
      if gs[0].value == v {
        NoGroup(gs[1..], v);
        assert AddToGroups(gs, v, key)[1..] == gs[1..];
      } else {
        AddedGroup(gs[1..], v, key);
        assert AddToGroups(gs, v, key)[1..] == AddToGroups(gs[1..], v, key);
      }
    }
  }

  lemma {:induction false} NoGroup(gs: seq<Group>, v: Value)
    requires v !in ValuesIn(gs)
    ensures GroupFor(gs, v) == []
  {
    if gs != [] { NoGroup(gs[1..], v); }
  }

  /** Grouping partitions the rows: one group a value, holding exactly its rows in
      order, and the counts add up. */
  lemma {:induction false} GroupsPartition(view: View, rows: seq<string>, field: string)
    ensures var gs := GroupsOf(view, rows, field);
            && ValuesDiffer(gs) && CountAll(gs) == |rows|
            && (forall v :: GroupFor(gs, v) == RowsWith(view, rows, field, v))
  {
    if rows != [] {
      var front, x := rows[..|rows| - 1], rows[|rows| - 1];
      GroupsPartition(view, front, field);
      AddedGroup(GroupsOf(view, front, field), FieldOf(DocOf(view, x), field), x);
    }
  }

  // ---- aggregates ----

  datatype AggValue = Nothing | Whole(n: int) | Mean(total: int, count: nat)

  /** The numbers in a field of some rows. */
  function Numbers(view: View, rows: seq<string>, field: string): seq<int> {
    if rows == [] then []
    else
      var front, x := Numbers(view, rows[..|rows| - 1], field), rows[|rows| - 1];
      if FieldOf(DocOf(view, x), field).Num? then front + [FieldOf(DocOf(view, x), field).n] else front
  }

  function Total(ns: seq<int>): int { if ns == [] then 0 else Total(ns[..|ns| - 1]) + ns[|ns| - 1] }

  function Least(ns: seq<int>): (m: int)
    requires ns != []
    ensures m in ns && forall n :: n in ns ==> m <= n
  {
    if |ns| == 1 then ns[0]
    else
      var m, x := Least(ns[..|ns| - 1]), ns[|ns| - 1];
      assert ns == ns[..|ns| - 1] + [x];
      if x < m then x else m
  }

  function Greatest(ns: seq<int>): (m: int)
    requires ns != []
    ensures m in ns && forall n :: n in ns ==> m >= n
  {
    if |ns| == 1 then ns[0]
    else
      var m, x := Greatest(ns[..|ns| - 1]), ns[|ns| - 1];
      assert ns == ns[..|ns| - 1] + [x];
      if x > m then x else m
  }

  function AggOf(view: View, agg: Option<Agg>, rows: seq<string>): AggValue {
    match agg
    case None => Nothing
    case Some(Count) => Nothing
    case Some(Sum(f)) => Whole(Total(Numbers(view, rows, f)))
    case Some(Avg(f)) =>
      var ns := Numbers(view, rows, f);
      if ns == [] then Nothing else Mean(Total(ns), |ns|)
    case Some(Min(f)) =>
      var ns := Numbers(view, rows, f);
      if ns == [] then Nothing else Whole(Least(ns))
    case Some(Max(f)) =>
      var ns := Numbers(view, rows, f);
      if ns == [] then Nothing else Whole(Greatest(ns))
  }

  datatype Entry = Entry(value: Value, count: nat, agg: AggValue)

  datatype Result = Rows(keys: seq<string>, docs: seq<Doc>) | Groups(entries: seq<Entry>)

  function EntriesOf(view: View, gs: seq<Group>, agg: Option<Agg>): seq<Entry> {
    seq(|gs|, i requires 0 <= i < |gs| => Entry(gs[i].value, |gs[i].rows|, AggOf(view, agg, gs[i].rows)))
  }

  function DocsOf(view: View, rows: seq<string>): seq<Doc> {
    seq(|rows|, i requires 0 <= i < |rows| => DocOf(view, rows[i]))
  }

  /** Everything after the filter. */
  function Finish(view: View, plan: Plan, rows: seq<string>): Result {
    var walked := if plan.traverse.Some? then Traversed(view, plan.traverse.value, rows) else rows;
    var cut := Limited(walked, plan.limit);
    var timely := if plan.validAt.Some? && plan.validAt.value != "" then ValidRows(view, cut, plan.validAt.value) else cut;
    if plan.groupBy.Some? then Groups(EntriesOf(view, GroupsOf(view, timely, plan.groupBy.value), plan.agg))
    else Rows(timely, DocsOf(view, timely))
  }

  /** A possible outcome: these rows, in some order, finished. */
  ghost predicate OutcomeOf(view: View, plan: Plan, rows: set<string>, r: Result) {
    exists order :: Enumerates(order, rows) && r == Finish(view, plan, order)
  }

  /** The rows an execution lists: those of a search through the full-text indexes,
      or those that are kept. */
  function Listed(tk: Tokenizer, mentions: Mentions, t: Table, names: set<string>, fields: set<string>, plan: Plan): set<string> {
    if Searching(plan) && fields != {} then PastFound(tk, mentions, DocsAt(t, plan.asOf), Heads(t), plan, fields)
    else Kept(tk, mentions, DocsAt(t, plan.asOf), plan, names, fields)
  }

  /** A possible answer of a database with these equality indexes and full-text
      fields: the outcome of the rows it lists. */
  ghost predicate CanAnswer(tk: Tokenizer, mentions: Mentions, d: Data, names: set<string>, fields: set<string>, plan: Plan, r: Result) {
    OutcomeOf(ViewAt(d, plan.asOf), plan, Listed(tk, mentions, d.store, names, fields, plan), r)
  }

  // ---- execution ----

  /** What the indexes say of a search, key by key. */
  lemma SearchFiled(tk: Tokenizer, inv: Rows<string>, docs: map<string, Doc>, coll: string, f: string, term: string, key: string)
    requires Faithful(inv, ByText(tk), docs) && PlainKeys(docs) && Plain(coll)
    requires NameOf(coll, f) in inv
    ensures key in Lookup(inv[NameOf(coll, f)], term) <==>
              key in docs && coll + ":" <= key && term in TextTerms(tk, f, docs[key])
  {
    hide Lookup, CollOf, Plain;
    SplitsAtFirst2(coll, f);
    assert key in Lookup(inv[NameOf(coll, f)], term) <==> Filed(ByText(tk), docs, NameOf(coll, f), term, key);
    if key in docs {
      CoversOne(coll, f, CollOf(key));
      assert ':' !in coll by { PlainColon(coll); }
      PrefixIsColl(coll, key);
    }
  }

  lemma SplitsAtFirst2(coll: string, f: string)
    requires Plain(coll)
    ensures After(NameOf(coll, f), '.') == f
  {
    SplitsAtFirst(coll, '.', f);
    assert NameOf(coll, f) == coll + ['.'] + f;
  }

  lemma EqFiled(eq: Rows<Value>, docs: map<string, Doc>, coll: string, f: string, v: Value, key: string)
    requires Faithful(eq, EqTerms, docs) && PlainKeys(docs) && Plain(coll)
    requires NameOf(coll, f) in eq
    ensures key in Lookup(eq[NameOf(coll, f)], v) <==> key in docs && coll + ":" <= key && f in docs[key] && docs[key][f] == v
  {
    hide Lookup, CollOf, Plain;
    SplitsAtFirst2(coll, f);
    assert key in Lookup(eq[NameOf(coll, f)], v) <==> Filed(EqTerms, docs, NameOf(coll, f), v, key);
    if key in docs {
      CoversOne(coll, f, CollOf(key));
      assert ':' !in coll by { PlainColon(coll); }
      PrefixIsColl(coll, key);
    }
  }

  lemma SearchName(inv: Rows<string>, coll: string, f: string)
    requires f in SearchFieldsOf(inv, coll) && Plain(coll)
    ensures NameOf(coll, f) in inv
  {
    var name :| name in inv && coll + "." <= name && f == After(name, '.');
    var rest := name[|coll + "."|..];
    assert name == coll + ['.'] + rest;
    SplitsAtFirst(coll, '.', rest);
    assert name == NameOf(coll, f);
  }

  /** The keys one term selects: its union over the indexed fields. */
  ghost predicate Selected(tk: Tokenizer, docs: map<string, Doc>, coll: string, fields: set<string>, term: string, key: string) {
    key in docs && coll + ":" <= key && HoldsTerm(tk, docs[key], fields, term)
  }

  method TermCandidates(indexes: Indexes, coll: string, fields: set<string>, term: string, ghost docs: map<string, Doc>)
    returns (s: set<string>)
    requires Faithful(indexes.inv, ByText(indexes.tk), docs) && PlainKeys(docs) && Plain(coll)
    requires fields <= SearchFieldsOf(indexes.inv, coll)
    ensures forall key :: key in s <==> Selected(indexes.tk, docs, coll, fields, term, key)
  {
    hide Faithful, PlainKeys, Plain, SearchFieldsOf, NameOf, TextTerms, ByText, Lookup;
    s := {};
    var rest := fields;
    while rest != {}
      invariant rest <= fields
      invariant forall key :: key in s <==> Selected(indexes.tk, docs, coll, fields - rest, term, key)
      decreases |rest|
    {
      var f :| f in rest;
      SearchName(indexes.inv, coll, f);
      var ids := indexes.SearchLookup(coll, f, term);
      forall key ensures key in s + ids <==> Selected(indexes.tk, docs, coll, fields - (rest - {f}), term, key) {
        SearchFiled(indexes.tk, indexes.inv, docs, coll, f, term, key);
        assert key in s <==> Selected(indexes.tk, docs, coll, fields - rest, term, key);
        SelectedNext(indexes.tk, docs, coll, fields - rest, f, term, key);
        assert fields - (rest - {f}) == fields - rest + {f};
      }
      s := s + ids;
      rest := rest - {f};
    }
    assert fields - rest == fields;
  }

  lemma SelectedNext(tk: Tokenizer, docs: map<string, Doc>, coll: string, fields: set<string>, f: string, term: string, key: string)
    ensures Selected(tk, docs, coll, fields + {f}, term, key) <==>
              Selected(tk, docs, coll, fields, term, key)
              || (key in docs && coll + ":" <= key && term in TextTerms(tk, f, docs[key]))
  {
    hide TextTerms;
  }

  /** The candidates of a search: the intersection over its terms. */
  method SearchCandidates(indexes: Indexes, coll: string, fields: set<string>, text: string, ghost docs: map<string, Doc>)
    returns (candidates: set<string>)
    requires Faithful(indexes.inv, ByText(indexes.tk), docs) && PlainKeys(docs) && Plain(coll)
    requires fields == SearchFieldsOf(indexes.inv, coll)
    ensures forall key :: key in candidates <==>
              Tokens(indexes.tk, text) != {} && forall t :: t in Tokens(indexes.tk, text) ==> Selected(indexes.tk, docs, coll, fields, t, key)
  {
    hide Selected, Faithful, PlainKeys, Plain, SearchFieldsOf, ByText;
    var terms := Tokens(indexes.tk, text);
    if terms == {} {
      return {};
    }
    var first :| first in terms;
    candidates := TermCandidates(indexes, coll, fields, first, docs);
    var rest := terms - {first};
    while rest != {}
      invariant rest <= terms - {first}
      invariant forall key :: key in candidates <==> forall t :: t in terms - rest ==> Selected(indexes.tk, docs, coll, fields, t, key)
      decreases |rest|
    {
      var t :| t in rest;
      var s := TermCandidates(indexes, coll, fields, t, docs);
      candidates := candidates * s;
      assert terms - (rest - {t}) == terms - rest + {t};
      rest := rest - {t};
    }
    assert terms - rest == terms;
  }

  /** What the final filter asks of a candidate. */
  predicate RowOk(tk: Tokenizer, mentions: Mentions, doc: Doc, plan: Plan, fields: set<string>) {
    Passes(doc, plan.where) && (Searching(plan) && fields == {} ==> Found(tk, mentions, doc, fields, plan.search.value))
  }

  function Filtered(tk: Tokenizer, mentions: Mentions, docs: map<string, Doc>, plan: Plan, fields: set<string>, candidates: set<string>): set<string> {
    set k | k in candidates && k in docs && RowOk(tk, mentions, docs[k], plan, fields)
  }

  /** Load the candidates, in any order, and filter them. */
  method Filter(store: Store, tk: Tokenizer, mentions: Mentions, plan: Plan, fields: set<string>, candidates: set<string>)
    returns (rows: seq<string>)
    requires store.Valid()
    ensures Enumerates(rows, Filtered(tk, mentions, DocsAt(store.v, plan.asOf), plan, fields, candidates))
  {
    hide RowOk, Paired, Read;
    ghost var docs := DocsAt(store.v, plan.asOf);
    rows := [];
    var rest := candidates;
    while rest != {}
      invariant rest <= candidates && Distinct(rows)
      invariant forall k :: k in rows <==> k in Filtered(tk, mentions, docs, plan, fields, candidates) && k !in rest
      decreases |rest|
    {
      var key :| key in rest;
      rest := rest - {key};
      var doc := store.Get(key, plan.asOf);
      ReadIsDoc(store.v, key, plan.asOf);
      if doc.None? {
        continue;
      }
      if RowOk(tk, mentions, doc.value, plan, fields) {
        rows := rows + [key];
      }
    }
  }

  lemma ReadIsDoc(t: Table, key: string, asOf: Option<int>)
    ensures Read(t, key, asOf) == Old(DocsAt(t, asOf), key)
  {}

  /** Visit the neighbours of one row. */
  method Visit(store: Store, nbs: seq<string>, asOf: Option<int>, out0: seq<string>, seen0: set<string>, ghost done: seq<string>)
    returns (out: seq<string>, seen: set<string>)
    requires store.Valid() && out0 == FirstDocs(DocsAt(store.v, asOf), done) && seen0 == SetOf(done)
    ensures out == FirstDocs(DocsAt(store.v, asOf), done + nbs) && seen == SetOf(done + nbs)
  {
    hide DocsAt, Paired, Read, FirstDocs;
    out, seen := out0, seen0;
    assert done + nbs[..0] == done;
    for j := 0 to |nbs|
      invariant out == FirstDocs(DocsAt(store.v, asOf), done + nbs[..j]) && seen == SetOf(done + nbs[..j])
    {
      var nb := nbs[j];
      FirstDocsNext(DocsAt(store.v, asOf), done + nbs[..j], nb);
      assert done + nbs[..j + 1] == done + nbs[..j] + [nb];
      if nb in seen {
        continue;
      }
      seen := seen + {nb};
      var d := store.Get(nb, asOf);
      ReadIsDoc(store.v, nb, asOf);
      if d.Some? {
        out := out + [nb];
      }
    }
    assert nbs[..|nbs|] == nbs;
  }

  lemma FirstDocsNext(docs: map<string, Doc>, nodes: seq<string>, x: string)
    ensures FirstDocs(docs, nodes + [x]) == if x in nodes || x !in docs then FirstDocs(docs, nodes) else FirstDocs(docs, nodes) + [x]
    ensures SetOf(nodes + [x]) == SetOf(nodes) + {x}
  {
    assert (nodes + [x])[..|nodes|] == nodes;
  }

  method Traverse(store: Store, relations: Relations, rel: string, rows: seq<string>, asOf: Option<int>) returns (out: seq<string>)
    requires store.Valid()
    ensures out == Traversed(ViewAt(Data(store.v, relations.Abs()), asOf), rel, rows)
  {
    ghost var view := ViewAt(Data(store.v, relations.Abs()), asOf);
    assert view.docs == DocsAt(store.v, asOf);
    hide ViewAt, Paired, DocsAt, Live, FirstDocs, LinksOf;
    out := [];
    var seen: set<string> := {};
    assert FirstDocs(view.docs, []) == [] by { NoDocs(view.docs); }
    assert SetOf<string>([]) == {};
    for i := 0 to |rows|
      invariant out == FirstDocs(view.docs, Neighbours(view, rel, rows[..i])) && seen == SetOf(Neighbours(view, rel, rows[..i]))
    {
      var nbs := relations.Neighbors(rows[i], rel, asOf);
      ViewMeans(Data(store.v, relations.Abs()), asOf, "", (rows[i], rel));
      assert rows[..i + 1][..i] == rows[..i];
      out, seen := Visit(store, nbs, asOf, out, seen, Neighbours(view, rel, rows[..i]));
    }
    assert rows[..|rows|] == rows;
  }

  lemma NoDocs(docs: map<string, Doc>)
    ensures FirstDocs(docs, []) == []
  {}

  method GroupRows(store: Store, relations: Relations, rows: seq<string>, field: string, agg: Option<Agg>, asOf: Option<int>)
    returns (entries: seq<Entry>)
    requires store.Valid()
    ensures var view := ViewAt(Data(store.v, relations.Abs()), asOf);
            entries == EntriesOf(view, GroupsOf(view, rows, field), agg)
  {
    hide ViewAt, Paired, Read;
    ghost var view := ViewAt(Data(store.v, relations.Abs()), asOf);
    var groups: seq<Group> := [];
    for i := 0 to |rows|
      invariant groups == GroupsOf(view, rows[..i], field)
    {
      var d := store.Get(rows[i], asOf);
      ViewMeans(Data(store.v, relations.Abs()), asOf, rows[i], ("", ""));
      var value := if d.Some? then FieldOf(d.value, field) else Null;
      assert rows[..i + 1][..i] == rows[..i];
      groups := AddToGroups(groups, value, rows[i]);
    }
    assert rows[..|rows|] == rows;
    entries := [];
    for i := 0 to |groups|
      invariant entries == EntriesOf(view, groups[..i], agg)
    {
      var nums := Aggregate(store, relations, groups[i].rows, agg, asOf);
      entries := entries + [Entry(groups[i].value, |groups[i].rows|, nums)];
    }
    assert groups[..|groups|] == groups;
  }

  method NumbersIn(store: Store, relations: Relations, rows: seq<string>, field: string, asOf: Option<int>) returns (ns: seq<int>)
    requires store.Valid()
    ensures ns == Numbers(ViewAt(Data(store.v, relations.Abs()), asOf), rows, field)
  {
    hide ViewAt, Paired, Read;
    ghost var view := ViewAt(Data(store.v, relations.Abs()), asOf);
    ns := [];
    for i := 0 to |rows|
      invariant ns == Numbers(view, rows[..i], field)
    {
      var d := store.Get(rows[i], asOf);
      ViewMeans(Data(store.v, relations.Abs()), asOf, rows[i], ("", ""));
      assert rows[..i + 1][..i] == rows[..i];
      if d.Some? && field in d.value && d.value[field].Num? {
        ns := ns + [d.value[field].n];
      }
    }
    assert rows[..|rows|] == rows;
  }

  method Aggregate(store: Store, relations: Relations, rows: seq<string>, agg: Option<Agg>, asOf: Option<int>) returns (r: AggValue)
    requires store.Valid()
    ensures r == AggOf(ViewAt(Data(store.v, relations.Abs()), asOf), agg, rows)
  {
    hide ViewAt, Paired;
    if agg.None? || agg.value.Count? {
      return Nothing;
    }
    var ns := NumbersIn(store, relations, rows, agg.value.field, asOf);
    match agg.value {
      case Sum(_) => r := Whole(Total(ns));
      case Avg(_) => r := if ns == [] then Nothing else Mean(Total(ns), |ns|);
      case Min(_) => r := if ns == [] then Nothing else Whole(Least(ns));
      case Max(_) => r := if ns == [] then Nothing else Whole(Greatest(ns));
    }
  }

  method KeepValid(store: Store, relations: Relations, rows: seq<string>, date: string, asOf: Option<int>) returns (out: seq<string>)
    requires store.Valid()
    ensures out == ValidRows(ViewAt(Data(store.v, relations.Abs()), asOf), rows, date)
  {
    hide ViewAt, Paired, Read, IsValidAt;
    ghost var view := ViewAt(Data(store.v, relations.Abs()), asOf);
    out := [];
    for i := 0 to |rows|
      invariant out == ValidRows(view, rows[..i], date)
    {
      var d := store.Get(rows[i], asOf);
      ViewMeans(Data(store.v, relations.Abs()), asOf, rows[i], ("", ""));
      assert rows[..i + 1][..i] == rows[..i];
      if IsValidAt(if d.Some? then d.value else map[], date) {
        out := out + [rows[i]];
      }
    }
    assert rows[..|rows|] == rows;
  }

  method LoadDocs(store: Store, relations: Relations, rows: seq<string>, asOf: Option<int>) returns (docs: seq<Doc>)
    requires store.Valid()
    ensures docs == DocsOf(ViewAt(Data(store.v, relations.Abs()), asOf), rows)
  {
    hide ViewAt, Paired, Read;
    docs := [];
    for i := 0 to |rows|
      invariant docs == DocsOf(ViewAt(Data(store.v, relations.Abs()), asOf), rows[..i])
    {
      var d := store.Get(rows[i], asOf);
      ViewMeans(Data(store.v, relations.Abs()), asOf, rows[i], ("", ""));
      docs := docs + [if d.Some? then d.value else map[]];
    }
    assert rows[..|rows|] == rows;
  }

  /** The candidates: of a search, of an equality index, or of a scan. */
  method Candidates(store: Store, indexes: Indexes, plan: Plan, fields: set<string>, ghost mentions: Mentions) returns (candidates: set<string>)
    requires store.Valid() && fields == SearchFieldsOf(indexes.inv, plan.coll)
    requires Faithful(indexes.eq, EqTerms, Heads(store.v)) && Faithful(indexes.inv, ByText(indexes.tk), Heads(store.v))
    requires PlainKeys(Heads(store.v)) && Plain(plan.coll)
    ensures Filtered(indexes.tk, mentions, DocsAt(store.v, plan.asOf), plan, fields, candidates)
            == Listed(indexes.tk, mentions, store.v, indexes.eq.Keys, fields, plan)
  {
    hide Faithful, PlainKeys, Plain, SearchFieldsOf, Matches, RowOk, NameOf, ByText, EqTerms, DocsAt, Paired;
    if Searching(plan) && fields != {} {
      candidates := SearchCandidates(indexes, plan.coll, fields, plan.search.value, Heads(store.v));
      SearchIsPast(indexes.tk, mentions, DocsAt(store.v, plan.asOf), Heads(store.v), plan, fields, candidates);
      return;
    }
    if plan.asOf.None? {
      for i := 0 to |plan.where|
        invariant IndexedClause(plan.where, plan.coll, indexes.eq.Keys) == IndexedClause(plan.where[i..], plan.coll, indexes.eq.Keys)
      {
        var c := plan.where[i];
        assert plan.where[i..][1..] == plan.where[i + 1..];
        if c.op == Eq && NameOf(plan.coll, c.field) in indexes.eq {
          candidates := indexes.EqLookup(plan.coll, c.field, c.value);
          LookupIsKept(indexes.tk, mentions, indexes.eq, Heads(store.v), plan, fields, c, candidates);
          return;
        }
      }
      assert plan.where[|plan.where|..] == [];
    }
    var keys := store.Keys(plan.coll + ":", plan.asOf);
    candidates := set k | k in keys;
    ScanIsKept(indexes.tk, mentions, store.v, plan, indexes.eq.Keys, fields, candidates);
  }

  lemma ScanIsKept(tk: Tokenizer, mentions: Mentions, t: Table, plan: Plan, names: set<string>, fields: set<string>, candidates: set<string>)
    requires Picks(plan, names, fields).None? && !(Searching(plan) && fields != {})
    requires candidates == KeysOf(t, plan.coll + ":", plan.asOf)
    ensures Filtered(tk, mentions, DocsAt(t, plan.asOf), plan, fields, candidates) == Kept(tk, mentions, DocsAt(t, plan.asOf), plan, names, fields)
  {
    hide Found, Passes;
  }

  lemma LookupIsKept(tk: Tokenizer, mentions: Mentions, eq: Rows<Value>, docs: map<string, Doc>, plan: Plan, fields: set<string>,
                     c: Clause, candidates: set<string>)
    requires Faithful(eq, EqTerms, docs) && PlainKeys(docs) && Plain(plan.coll) && NameOf(plan.coll, c.field) in eq
    requires Picks(plan, eq.Keys, fields) == Some(c) && candidates == Lookup(eq[NameOf(plan.coll, c.field)], c.value)
    requires !(Searching(plan) && fields != {})
    ensures Filtered(tk, mentions, docs, plan, fields, candidates) == Kept(tk, mentions, docs, plan, eq.Keys, fields)
  {
    hide Found, Lookup, Faithful, PlainKeys, Plain, NameOf;
    ClauseIsOne(plan.where, plan.coll, eq.Keys);
    var i :| 0 <= i < |plan.where| && plan.where[i] == c;
    forall key ensures key in candidates <==> key in docs && plan.coll + ":" <= key && c.field in docs[key] && docs[key][c.field] == c.value {
      EqFiled(eq, docs, plan.coll, c.field, c.value, key);
    }
    forall key | key in docs && Passes(docs[key], plan.where) ensures FieldOf(docs[key], c.field) == c.value {
      assert Holds(FieldOf(docs[key], plan.where[i].field), plan.where[i].op, plan.where[i].value);
    }
    hide Passes, Holds;
  }

  lemma SearchIsPast(tk: Tokenizer, mentions: Mentions, past: map<string, Doc>, now: map<string, Doc>, plan: Plan, fields: set<string>,
                     candidates: set<string>)
    requires Searching(plan) && fields != {}
    requires forall key :: key in candidates <==>
               Tokens(tk, plan.search.value) != {}
               && forall t :: t in Tokens(tk, plan.search.value) ==> Selected(tk, now, plan.coll, fields, t, key)
    ensures Filtered(tk, mentions, past, plan, fields, candidates) == PastFound(tk, mentions, past, now, plan, fields)
  {
    hide HoldsTerm, Passes;
    forall key ensures key in candidates <==> key in now && plan.coll + ":" <= key && Found(tk, mentions, now[key], fields, plan.search.value) {
      if Tokens(tk, plan.search.value) != {} {
        var t :| t in Tokens(tk, plan.search.value);
        assert key in candidates ==> Selected(tk, now, plan.coll, fields, t, key);
      }
    }
  }

  /** A search of the head lists the rows of the scan. */
  lemma HeadSearchIsScan(tk: Tokenizer, mentions: Mentions, t: Table, names: set<string>, fields: set<string>, plan: Plan)
    requires plan.asOf.None? || !Searching(plan) || fields == {}
    ensures Listed(tk, mentions, t, names, fields, plan) == Kept(tk, mentions, DocsAt(t, plan.asOf), plan, names, fields)
  {
    hide Found, Passes, DocsAt;
  }

  /** Execute a plan: the rows it lists in some order, finished. At the head, and in
      the past for plans that do not search the full-text indexes, they are those
      of the scan (or, through an equality index, those of them that have the
      indexed field); a search of the past is answered from the text of the head. */
  method Execute(store: Store, relations: Relations, indexes: Indexes, mentions: Mentions, plan: Plan) returns (result: Result)
    requires store.Valid()
    requires Faithful(indexes.eq, EqTerms, Heads(store.v)) && Faithful(indexes.inv, ByText(indexes.tk), Heads(store.v))
    requires PlainKeys(Heads(store.v)) && Plain(plan.coll)
    ensures CanAnswer(indexes.tk, mentions, Data(store.v, relations.Abs()), indexes.eq.Keys, SearchFieldsOf(indexes.inv, plan.coll), plan, result)
  {
    hide *;
    var fields := indexes.SearchFields(plan.coll);
    var candidates := Candidates(store, indexes, plan, fields, mentions);
    var rows := Filter(store, indexes.tk, mentions, plan, fields, candidates);
    ghost var order := rows;
    ViewDocs(Data(store.v, relations.Abs()), plan.asOf);
    if plan.traverse.Some? {
      rows := Traverse(store, relations, plan.traverse.value, rows, plan.asOf);
    }
    rows := Limited(rows, plan.limit);
    if plan.validAt.Some? && plan.validAt.value != "" {
      rows := KeepValid(store, relations, rows, plan.validAt.value, plan.asOf);
    }
    FinishMeans(ViewAt(Data(store.v, relations.Abs()), plan.asOf), plan, order);
    if plan.groupBy.Some? {
      var entries := GroupRows(store, relations, rows, plan.groupBy.value, plan.agg, plan.asOf);
      result := Groups(entries);
    } else {
      var docs := LoadDocs(store, relations, rows, plan.asOf);
      result := Rows(rows, docs);
    }
    IsAnswer(indexes.tk, mentions, Data(store.v, relations.Abs()), indexes.eq.Keys, fields, plan, order, result);
  }

  lemma IsAnswer(tk: Tokenizer, mentions: Mentions, d: Data, names: set<string>, fields: set<string>, plan: Plan, order: seq<string>, r: Result)
    requires r == Finish(ViewAt(d, plan.asOf), plan, order) && Enumerates(order, Listed(tk, mentions, d.store, names, fields, plan))
    ensures CanAnswer(tk, mentions, d, names, fields, plan, r)
  {
    hide Listed, Finish, ViewAt, Enumerates;
  }

  lemma ViewDocs(d: Data, asOf: Option<int>)
    ensures ViewAt(d, asOf) == View(DocsAt(d.store, asOf), ViewAt(d, asOf).links, ViewAt(d, asOf).back)
    ensures ViewAt(d, asOf).docs == DocsAt(d.store, asOf)
  {}

  lemma FinishMeans(view: View, plan: Plan, rows: seq<string>)
    ensures Finish(view, plan, rows) ==
              var walked := if plan.traverse.Some? then Traversed(view, plan.traverse.value, rows) else rows;
              var cut := Limited(walked, plan.limit);
              var timely := if plan.validAt.Some? && plan.validAt.value != "" then ValidRows(view, cut, plan.validAt.value) else cut;
              if plan.groupBy.Some? then Groups(EntriesOf(view, GroupsOf(view, timely, plan.groupBy.value), plan.agg))
              else Rows(timely, DocsOf(view, timely))
  {}
}
