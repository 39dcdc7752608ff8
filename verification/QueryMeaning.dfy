/** What the parts of a query mean, said of the values themselves and not of the
    functions that execution is written with (python/nedb/query.py, engine.py). */
module QueryMeaning {
  import opened Collections
  import opened Hashing
  import opened Ops
  import opened MvccStore
  import opened FieldIndexes
  import opened Engine
  import opened Query

  // ---- WHERE ----

  /** Numbers compare by size. */
  lemma CompareNumbers(n: int, m: int)
    ensures Holds(Num(n), Lt, Num(m)) <==> n < m
    ensures Holds(Num(n), Le, Num(m)) <==> n <= m
    ensures Holds(Num(n), Gt, Num(m)) <==> n > m
    ensures Holds(Num(n), Ge, Num(m)) <==> n >= m
    ensures Holds(Num(n), Eq, Num(m)) <==> n == m
    ensures Holds(Num(n), Ne, Num(m)) <==> n != m
  {}

  lemma {:induction false} CodesBelow(s: string, t: string)
    ensures Below(Codes(s), Codes(t)) <==> ComesBefore(s, t)
    decreases |s|
  {
    ComesBeforeSteps(s, t);
    if s != [] && t != [] {
      assert Codes(s)[1..] == Codes(s[1..]) && Codes(t)[1..] == Codes(t[1..]);
      CodesBelow(s[1..], t[1..]);
    }
  }

  /** Strings compare by their first difference, a shorter one before its
      continuations. */
  lemma CompareStrings(s: string, t: string)
    ensures Holds(Str(s), Lt, Str(t)) <==> ComesBefore(s, t)
    ensures Holds(Str(s), Le, Str(t)) <==> !ComesBefore(t, s)
    ensures Holds(Str(s), Gt, Str(t)) <==> ComesBefore(t, s)
    ensures Holds(Str(s), Ge, Str(t)) <==> !ComesBefore(s, t)
    ensures Holds(Str(s), Eq, Str(t)) <==> s == t
  {
    CodesBelow(s, t);
    CodesBelow(t, s);
    ComparisonsFit(Str(s), Str(t));
    hide Below, ComesBefore;
  }

  /** a is a proper part of the beginning of b, or smaller where they first differ. */
  ghost predicate ListBefore(a: seq<nat>, b: seq<nat>) {
    exists i: nat :: ListDiffers(a, b, i)
  }

  predicate ListDiffers(a: seq<nat>, b: seq<nat>, i: nat) {
    i <= |a| && i < |b| && a[..i] == b[..i] && (i == |a| || a[i] < b[i])
  }

  lemma {:induction false} IntsBelow(a: seq<nat>, b: seq<nat>)
    ensures Below(Ints(a), Ints(b)) <==> ListBefore(a, b)
    decreases |a|
  {
    ListBeforeSteps(a, b);
    if a != [] && b != [] {
      assert Ints(a)[1..] == Ints(a[1..]) && Ints(b)[1..] == Ints(b[1..]);
      IntsBelow(a[1..], b[1..]);
    }
  }

  lemma ListBeforeSteps(s: seq<nat>, t: seq<nat>)
    ensures t == [] ==> !ListBefore(s, t)
    ensures s == [] && t != [] ==> ListBefore(s, t)
    ensures s != [] && t != [] ==> (ListBefore(s, t) <==> s[0] < t[0] || (s[0] == t[0] && ListBefore(s[1..], t[1..])))
  {
    if s == [] && t != [] { assert ListDiffers(s, t, 0); }
    if s != [] && t != [] {
      if i: nat :| ListDiffers(s, t, i) {
        if i > 0 {
          assert s[..i][0] == t[..i][0];
          assert s[1..][..i - 1] == s[..i][1..] && t[1..][..i - 1] == t[..i][1..];
          assert ListDiffers(s[1..], t[1..], i - 1);
        }
      }
      if s[0] < t[0] { assert ListDiffers(s, t, 0); }
      if s[0] == t[0] {
        if i: nat :| ListDiffers(s[1..], t[1..], i) {
          assert s[..i + 1] == [s[0]] + s[1..][..i] && t[..i + 1] == [t[0]] + t[1..][..i];
          assert ListDiffers(s, t, i + 1);
        }
      }
    }
  }

  /** Lists of sequence numbers compare the same way. */
  lemma CompareLists(a: seq<nat>, b: seq<nat>)
    ensures Holds(Seqs(a), Lt, Seqs(b)) <==> ListBefore(a, b)
    ensures Holds(Seqs(a), Le, Seqs(b)) <==> !ListBefore(b, a)
    ensures Holds(Seqs(a), Gt, Seqs(b)) <==> ListBefore(b, a)
    ensures Holds(Seqs(a), Ge, Seqs(b)) <==> !ListBefore(a, b)
  {
    IntsBelow(a, b);
    IntsBelow(b, a);
    ComparisonsFit(Seqs(a), Seqs(b));
    hide Below, ListBefore;
  }

  /** A document passes a clause on a field it has by that value, and on one it
      lacks as if by null. */
  lemma ClauseMeans(doc: Doc, c: Clause)
    ensures c.field in doc ==> (Passes(doc, [c]) <==> Holds(doc[c.field], c.op, c.value))
    ensures c.field !in doc ==> (Passes(doc, [c]) <==> (c.op == Eq && c.value == Null) || (c.op == Ne && c.value != Null))
  {
    assert Passes(doc, [c]) <==> Holds(FieldOf(doc, [c][0].field), [c][0].op, [c][0].value);
  }

  /** Several clauses: every one must let the document through. */
  lemma ClausesMean(doc: Doc, where: seq<Clause>)
    ensures Passes(doc, where) <==> forall c :: c in where ==> Passes(doc, [c])
  {
    forall c ensures Passes(doc, [c]) <==> Holds(FieldOf(doc, c.field), c.op, c.value) {
      assert Passes(doc, [c]) <==> Holds(FieldOf(doc, [c][0].field), [c][0].op, [c][0].value);
    }
    hide Holds, FieldOf;
    if forall c :: c in where ==> Passes(doc, [c]) {
      forall i | 0 <= i < |where| ensures Holds(FieldOf(doc, where[i].field), where[i].op, where[i].value) {
        assert where[i] in where;
      }
    }
  }

  /** A scan lists documents of its own collection only, and all that pass. */
  lemma ScanMeans(tk: Tokenizer, mentions: Mentions, docs: map<string, Doc>, plan: Plan, fields: set<string>, c: string, id: string)
    requires ':' !in c && ':' !in plan.coll
    ensures c + ":" + id in Matching(tk, mentions, docs, plan, fields) <==>
              && c == plan.coll && c + ":" + id in docs && Passes(docs[c + ":" + id], plan.where)
              && (plan.search.Some? && plan.search.value != "" ==> Found(tk, mentions, docs[c + ":" + id], fields, plan.search.value))
  {
    hide Passes, Found;
    var k := c + ":" + id;
    PrefixIsColl(plan.coll, k);
    PrefixIsColl(c, k);
    assert c + ":" <= k;
  }

  // ---- SEARCH ----

  /** Through full-text indexes a text is found in a document if it has tokens and
      every one is a token of a string the document has in an indexed field; without,
      if every token is mentioned in the document. */
  lemma SearchFinds(tk: Tokenizer, mentions: Mentions, doc: Doc, fields: set<string>, text: string)
    ensures fields != {} ==>
              (Found(tk, mentions, doc, fields, text) <==>
                 tk(text) != {} && forall t :: t in tk(text) ==> exists f :: f in fields && f in doc && doc[f].Str? && t in tk(doc[f].s))
    ensures fields == {} ==> (Found(tk, mentions, doc, fields, text) <==> forall t :: t in tk(text) ==> mentions(doc, t))
  {
    if fields == {} {
      forall t ensures Says(mentions, doc, t) <==> mentions(doc, t) {}
    } else {
      forall t ensures HoldsTerm(tk, doc, fields, t) <==> exists f :: f in fields && f in doc && doc[f].Str? && t in tk(doc[f].s) {
        if f :| f in fields && t in TextTerms(tk, f, doc) { assert f in doc && doc[f].Str? && t in tk(doc[f].s); }
        if f :| f in fields && f in doc && doc[f].Str? && t in tk(doc[f].s) { assert t in TextTerms(tk, f, doc); }
      }
      hide HoldsTerm;
    }
  }

  // ---- VALID AS OF ----

  /** A document is valid at a date that is not before the one it is valid from and
      not after the one it is valid to; a bound it lacks does not count. */
  lemma ValidMeans(doc: Doc, date: string)
    ensures IsValidAt(doc, date) <==>
              && ("_valid_from" in doc && doc["_valid_from"].Str? ==> !ComesBefore(date, doc["_valid_from"].s))
              && ("_valid_to" in doc && doc["_valid_to"].Str? ==> !ComesBefore(doc["_valid_to"].s, date))
  {
    hide ComesBefore, Below;
    if "_valid_from" in doc && doc["_valid_from"].Str? { CodesBelow(date, doc["_valid_from"].s); }
    if "_valid_to" in doc && doc["_valid_to"].Str? { CodesBelow(doc["_valid_to"].s, date); }
  }

  // ---- LIMIT ----

  /** LIMIT n keeps the first n rows; a negative n drops that many from the end. */
  lemma LimitMeans(rows: seq<string>, n: int)
    ensures Limited(rows, None) == rows
    ensures Limited(rows, Some(n)) <= rows
    ensures n >= 0 ==> |Limited(rows, Some(n))| == if n <= |rows| then n else |rows|
    ensures n < 0 ==> |Limited(rows, Some(n))| == if -n <= |rows| then |rows| + n else 0
  {}

  /** The limit is taken after the traversal and before the filter on valid time:
      a plan without grouping shows those of the first n rows, traversed or not, that
      are valid at the date, each once and with its own document. */
  lemma LimitThenValid(view: View, plan: Plan, order: seq<string>, n: nat, date: string, x: string)
    requires plan.groupBy.None? && plan.limit == Some(n) && plan.validAt == Some(date) && date != ""
    requires Distinct(order)
    ensures var walked := if plan.traverse.Some? then Traversed(view, plan.traverse.value, order) else order;
            var r, first := Finish(view, plan, order), if n <= |walked| then walked[..n] else walked;
            r.Rows? && Distinct(r.keys) && WithTheirDocs(view, r)
            && (x in r.keys <==> x in first && IsValidAt(if x in view.docs then view.docs[x] else map[], date))
  {
    var walked := if plan.traverse.Some? then Traversed(view, plan.traverse.value, order) else order;
    if plan.traverse.Some? { TraverseMeans(view, plan.traverse.value, order, x); }
    ValidRowsMean(view, Limited(walked, Some(n)), date, x);
    hide IsValidAt, Traversed, ValidRows;
  }

  ghost predicate WithTheirDocs(view: View, r: Result)
    requires r.Rows?
  {
    |r.docs| == |r.keys| && forall i :: 0 <= i < |r.keys| && r.keys[i] in view.docs ==> r.docs[i] == view.docs[r.keys[i]]
  }

  /** A plan that groups, groups the rows the same plan shows without grouping. */
  lemma GroupsOfShown(view: View, plan: Plan, order: seq<string>, field: string)
    requires plan.groupBy == Some(field)
    ensures var shown := Finish(view, plan.(groupBy := None), order);
            shown.Rows? && WithTheirDocs(view, shown)
            && Finish(view, plan, order) == Groups(EntriesOf(view, GroupsOf(view, shown.keys, field), plan.agg))
  {
    hide Traversed, ValidRows, Limited, GroupsOf;
  }

  // ---- TRAVERSE ----

  lemma {:induction false} FirstDocsExtend(docs: map<string, Doc>, a: seq<string>, b: seq<string>)
    ensures FirstDocs(docs, a) <= FirstDocs(docs, a + b)
  {
    if b == [] {
      assert a + b == a;
    } else {
      FirstDocsExtend(docs, a, b[..|b| - 1]);
      assert (a + b)[..|a + b| - 1] == a + b[..|b| - 1];
    }
  }

  lemma {:induction false} NeighboursJoin(view: View, rel: string, a: seq<string>, b: seq<string>)
    ensures Neighbours(view, rel, a + b) == Neighbours(view, rel, a) + Neighbours(view, rel, b)
  {
    if b == [] {
      assert a + b == a;
    } else {
      NeighboursJoin(view, rel, a, b[..|b| - 1]);
      assert (a + b)[..|a + b| - 1] == a + b[..|b| - 1];
    }
  }

  /** A traversal goes through the rows in order, and through the links of each in
      order: what the first rows, and the first links of the next, lead to comes
      first. */
  lemma TraverseInOrder(view: View, rel: string, a: seq<string>, r: string, b: seq<string>, k: nat)
    requires k <= |LinksOf(view.links, (r, rel))|
    ensures FirstDocs(view.docs, Neighbours(view, rel, a) + LinksOf(view.links, (r, rel))[..k]) <= Traversed(view, rel, a + [r] + b)
    ensures Traversed(view, rel, a) <= Traversed(view, rel, a + [r] + b)
  {
    hide FirstDocs, LinksOf, Neighbours;
    var links, start, rest := LinksOf(view.links, (r, rel)), Neighbours(view, rel, a), Neighbours(view, rel, b);
    NeighboursJoin(view, rel, a + [r], b);
    NeighboursJoin(view, rel, a, [r]);
    OneNeighbours(view, rel, r);
    SplitLinks(start, links, rest, k);
    FirstDocsExtend(view.docs, start + links[..k], links[k..] + rest);
    FirstDocsExtend(view.docs, start, links + rest);
  }

  lemma SplitLinks(start: seq<string>, links: seq<string>, rest: seq<string>, k: nat)
    requires k <= |links|
    ensures start + links + rest == start + links[..k] + (links[k..] + rest)
    ensures start + links + rest == start + (links + rest)
  {
    assert links == links[..k] + links[k..];
  }

  lemma OneNeighbours(view: View, rel: string, r: string)
    ensures Neighbours(view, rel, [r]) == LinksOf(view.links, (r, rel))
  {
    assert [r][..0] == [];
    assert Neighbours(view, rel, []) == [];
  }

  // ---- GROUP BY ----

  /** Each value where it first occurs. */
  function Firsts(vs: seq<Value>): seq<Value> {
    if vs == [] then []
    else
      var front, v := vs[..|vs| - 1], vs[|vs| - 1];
      if v in front then Firsts(front) else Firsts(front) + [v]
  }

  function GroupValues(gs: seq<Group>): seq<Value> { seq(|gs|, i requires 0 <= i < |gs| => gs[i].value) }

  function RowValues(view: View, rows: seq<string>, field: string): seq<Value> {
    seq(|rows|, i requires 0 <= i < |rows| => FieldOf(DocOf(view, rows[i]), field))
  }

  lemma {:induction false} AddedValues(gs: seq<Group>, v: Value, key: string)
    ensures GroupValues(AddToGroups(gs, v, key)) == if v in GroupValues(gs) then GroupValues(gs) else GroupValues(gs) + [v]
  {
    if gs != [] {
      assert GroupValues(gs) == [gs[0].value] + GroupValues(gs[1..]);
      if gs[0].value == v {
        assert v in GroupValues(gs);
      } else {
        AddedValues(gs[1..], v, key);
        var r := AddToGroups(gs[1..], v, key);
        assert GroupValues([gs[0]] + r) == [gs[0].value] + GroupValues(r);
        assert v in GroupValues(gs) <==> v in GroupValues(gs[1..]);
      }
    }
  }

  /** The groups stand in the order in which their values first occur. */
  lemma {:induction false} GroupsInOrder(view: View, rows: seq<string>, field: string)
    ensures GroupValues(GroupsOf(view, rows, field)) == Firsts(RowValues(view, rows, field))
    ensures forall v :: v in GroupValues(GroupsOf(view, rows, field)) <==> v in RowValues(view, rows, field)
  {
    hide FieldOf, DocOf;
    if rows != [] {
      var front, x := rows[..|rows| - 1], rows[|rows| - 1];
      GroupsInOrder(view, front, field);
      var vs := RowValues(view, rows, field);
      assert vs[..|vs| - 1] == RowValues(view, front, field) && vs[|vs| - 1] == FieldOf(DocOf(view, x), field);
      assert vs == RowValues(view, front, field) + [FieldOf(DocOf(view, x), field)];
      AddedValues(GroupsOf(view, front, field), FieldOf(DocOf(view, x), field), x);
    }
  }

  /** The numbers of a field: each row that has a number there adds it, in order. */
  lemma NumbersMean(view: View, rows: seq<string>, x: string, field: string)
    ensures Numbers(view, [], field) == []
    ensures x in view.docs && field in view.docs[x] && view.docs[x][field].Num? ==>
              Numbers(view, rows + [x], field) == Numbers(view, rows, field) + [view.docs[x][field].n]
    ensures !(x in view.docs && field in view.docs[x] && view.docs[x][field].Num?) ==>
              Numbers(view, rows + [x], field) == Numbers(view, rows, field)
  {
    assert (rows + [x])[..|rows|] == rows;
  }

  /** Adding from the left. */
  function SumFrom(total: int, ns: seq<int>): int
    decreases |ns|
  {
    if ns == [] then total else SumFrom(total + ns[0], ns[1..])
  }

  lemma {:induction false} SumFromAppends(total: int, ns: seq<int>, n: int)
    ensures SumFrom(total, ns + [n]) == SumFrom(total, ns) + n
    decreases |ns|
  {
    if ns == [] {
      assert (ns + [n])[1..] == [];
    } else {
      assert (ns + [n])[1..] == ns[1..] + [n];
      SumFromAppends(total + ns[0], ns[1..], n);
    }
  }

  lemma {:induction false} TotalIsSum(ns: seq<int>)
    ensures Total(ns) == SumFrom(0, ns)
  {
    if ns != [] {
      TotalIsSum(ns[..|ns| - 1]);
      SumFromAppends(0, ns[..|ns| - 1], ns[|ns| - 1]);
      assert ns == ns[..|ns| - 1] + [ns[|ns| - 1]];
    }
  }

  /** What the aggregates are: the sum of the numbers, their sum and how many there
      are, the least, the greatest; over no numbers the sum is zero and the others
      nothing. COUNT adds nothing to the count every group has. */
  lemma AggregatesMean(view: View, rows: seq<string>, f: string)
    ensures var ns := Numbers(view, rows, f);
            && AggOf(view, Some(Sum(f)), rows) == Whole(SumFrom(0, ns))
            && (ns == [] ==> AggOf(view, Some(Avg(f)), rows) == AggOf(view, Some(Min(f)), rows) == AggOf(view, Some(Max(f)), rows) == Nothing)
            && (ns != [] ==> AggOf(view, Some(Avg(f)), rows) == Mean(SumFrom(0, ns), |ns|))
            && (ns != [] ==> IsLeast(AggOf(view, Some(Min(f)), rows), ns) && IsGreatest(AggOf(view, Some(Max(f)), rows), ns))
            && AggOf(view, Some(Count), rows) == AggOf(view, None, rows) == Nothing
  {
    hide Numbers, Total, SumFrom, Least, Greatest;
    TotalIsSum(Numbers(view, rows, f));
  }

  predicate IsLeast(r: AggValue, ns: seq<int>) { r.Whole? && r.n in ns && forall n :: n in ns ==> r.n <= n }

  predicate IsGreatest(r: AggValue, ns: seq<int>) { r.Whole? && r.n in ns && forall n :: n in ns ==> n <= r.n }
}
