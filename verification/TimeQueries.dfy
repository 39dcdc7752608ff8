/** Whole queries about the past: when an execution at a sequence number answers
    as an execution at the head of the replayed prefix would (python/nedb/engine.py). */
module TimeQueries {
  import opened Collections
  import opened Hashing
  import opened Ops
  import opened MvccStore
  import opened FieldIndexes
  import opened Engine
  import opened Query
  import OpLog

  // ---- searching the past ----

  /** Not empty, and its own only token. */
  predicate IsToken(tk: Tokenizer, t: string) { t != "" && Tokens(tk, t) == {t} }

  ghost predicate Tokenizes(tk: Tokenizer) {
    forall text: string, t: string :: t in Tokens(tk, text) ==> IsToken(tk, t)
  }

  /** The tokens a document is filed under in the full-text indexes. */
  function DocTokens(tk: Tokenizer, doc: Option<Doc>, fields: set<string>): set<string> {
    if doc.Some? then set f, t | f in fields && t in TextTerms(tk, f, doc.value) :: t else {}
  }

  /** Every search of the past with this plan lists the rows of a scan of the past. */
  ghost predicate SearchesScan(tk: Tokenizer, mentions: Mentions, past: map<string, Doc>, now: map<string, Doc>, plan: Plan, fields: set<string>) {
    forall text: string :: text != "" ==> SearchScans(tk, mentions, past, now, plan.(search := Some(text)), fields)
  }

  ghost predicate SearchScans(tk: Tokenizer, mentions: Mentions, past: map<string, Doc>, now: map<string, Doc>, plan: Plan, fields: set<string>)
    requires plan.search.Some?
  {
    PastFound(tk, mentions, past, now, plan, fields) == Matching(tk, mentions, past, plan, fields)
  }

  /** A document the clauses let through. */
  predicate Eligible(past: map<string, Doc>, plan: Plan, k: string) {
    k in past && plan.coll + ":" <= k && Passes(past[k], plan.where)
  }

  /** The key is filed under the tokens it was filed under then. */
  predicate SameTokens(tk: Tokenizer, past: map<string, Doc>, now: map<string, Doc>, fields: set<string>, k: string) {
    DocTokens(tk, Old(past, k), fields) == DocTokens(tk, Old(now, k), fields)
  }

  /** With full-text indexes a text is found exactly if it has tokens, all of them
      the document's. */
  lemma FoundMeans(tk: Tokenizer, mentions: Mentions, docs: map<string, Doc>, k: string, fields: set<string>, text: string)
    requires fields != {}
    ensures k in docs && Found(tk, mentions, docs[k], fields, text) <==>
              Tokens(tk, text) != {} && Tokens(tk, text) <= DocTokens(tk, Old(docs, k), fields)
  {
    hide TextTerms;
    if k in docs {
      forall t ensures HoldsTerm(tk, docs[k], fields, t) <==> t in DocTokens(tk, Old(docs, k), fields) {}
    }
  }

  lemma DocTokenIs(tk: Tokenizer, a: Option<Doc>, fields: set<string>, t: string)
    requires Tokenizes(tk) && t in DocTokens(tk, a, fields)
    ensures IsToken(tk, t)
  {
    var f :| f in fields && t in TextTerms(tk, f, a.value);
    assert t in Tokens(tk, a.value[f].s);
  }

  lemma PastFoundHas(tk: Tokenizer, mentions: Mentions, past: map<string, Doc>, now: map<string, Doc>, plan: Plan, fields: set<string>, k: string)
    requires Searching(plan) && fields != {}
    ensures k in PastFound(tk, mentions, past, now, plan, fields) <==>
              Eligible(past, plan, k)
              && Tokens(tk, plan.search.value) != {} && Tokens(tk, plan.search.value) <= DocTokens(tk, Old(now, k), fields)
    ensures k in Matching(tk, mentions, past, plan, fields) <==>
              Eligible(past, plan, k)
              && Tokens(tk, plan.search.value) != {} && Tokens(tk, plan.search.value) <= DocTokens(tk, Old(past, k), fields)
  {
    FoundMeans(tk, mentions, past, k, fields, plan.search.value);
    FoundMeans(tk, mentions, now, k, fields, plan.search.value);
    hide Found, Passes, DocTokens;
  }

  lemma SameTokensScan(tk: Tokenizer, mentions: Mentions, past: map<string, Doc>, now: map<string, Doc>, plan: Plan, fields: set<string>)
    requires Searching(plan) && fields != {}
    requires forall k :: Eligible(past, plan, k) ==> SameTokens(tk, past, now, fields, k)
    ensures SearchScans(tk, mentions, past, now, plan, fields)
  {
    hide PastFound, Matching, Eligible, DocTokens;
    forall k ensures k in PastFound(tk, mentions, past, now, plan, fields) <==> k in Matching(tk, mentions, past, plan, fields) {
      PastFoundHas(tk, mentions, past, now, plan, fields, k);
    }
  }

  /** A token only one of the two documents has makes a search go wrong. */
  lemma TokenTells(tk: Tokenizer, mentions: Mentions, past: map<string, Doc>, now: map<string, Doc>, plan: Plan, fields: set<string>, k: string, t: string)
    requires Tokenizes(tk) && fields != {} && Eligible(past, plan, k) && SearchesScan(tk, mentions, past, now, plan, fields)
    requires t in DocTokens(tk, Old(past, k), fields) + DocTokens(tk, Old(now, k), fields)
    ensures t in DocTokens(tk, Old(past, k), fields) && t in DocTokens(tk, Old(now, k), fields)
  {
    if t in DocTokens(tk, Old(past, k), fields) {
      DocTokenIs(tk, Old(past, k), fields, t);
    } else {
      DocTokenIs(tk, Old(now, k), fields, t);
    }
    hide Tokenizes, DocTokens, PastFound, Matching, Passes;
    var p := plan.(search := Some(t));
    assert SearchScans(tk, mentions, past, now, p, fields);
    assert Eligible(past, p, k);
    PastFoundHas(tk, mentions, past, now, p, fields, k);
  }

  /** Exactly when searches of the past through the full-text indexes list the rows
      of a scan of the past, for every text: when each document in question is
      filed now under the tokens it was filed under then (a deleted one had none). */
  lemma PastSearchIsScan(tk: Tokenizer, mentions: Mentions, past: map<string, Doc>, now: map<string, Doc>, plan: Plan, fields: set<string>)
    requires Tokenizes(tk) && fields != {}
    ensures SearchesScan(tk, mentions, past, now, plan, fields) <==>
              forall k :: Eligible(past, plan, k) ==> SameTokens(tk, past, now, fields, k)
  {
    hide Tokenizes, DocTokens, SearchScans;
    if SearchesScan(tk, mentions, past, now, plan, fields) {
      forall k | Eligible(past, plan, k) ensures SameTokens(tk, past, now, fields, k) {
        var a, b := DocTokens(tk, Old(past, k), fields), DocTokens(tk, Old(now, k), fields);
        forall t | t in a + b ensures t in a && t in b { TokenTells(tk, mentions, past, now, plan, fields, k, t); }
        assert a == b;
      }
    }
    if forall k :: Eligible(past, plan, k) ==> SameTokens(tk, past, now, fields, k) {
      forall text: string | text != "" ensures SearchScans(tk, mentions, past, now, plan.(search := Some(text)), fields) {
        var p := plan.(search := Some(text));
        forall k | Eligible(past, p, k) ensures SameTokens(tk, past, now, fields, k) { assert Eligible(past, plan, k); }
        SameTokensScan(tk, mentions, past, now, p, fields);
      }
    }
  }

  /** What the last write of a key up to n left, if it is a document in question. */
  predicate LeftEligible(ops: seq<Op>, n: int, plan: Plan, k: string) {
    var left := LastLeft(OpLog.Prefix(ops, n), k);
    left.Some? && plan.coll + ":" <= k && Passes(left.value, plan.where)
  }

  lemma OldIsLeft(ops: seq<Op>, n: int, k: string)
    requires Numbered(ops, 0)
    ensures Old(DocsAt(Fold(ops).store, Some(n)), k) == LastLeft(OpLog.Prefix(ops, n), k)
    ensures Old(Heads(Fold(ops).store), k) == LastLeft(ops, k)
  {
    hide Fold, Read, LastLeft;
    GetIsLastWrite(ops, k, n);
    HeadGet(ops, k);
    ReadIsDoc(Fold(ops).store, k, Some(n));
    ReadIsDoc(Fold(ops).store, k, None);
  }

  /** The same said of the log alone: the last write of each such key up to n and
      its last write of all left the same tokens. */
  lemma PastSearchOnLog(tk: Tokenizer, mentions: Mentions, ops: seq<Op>, n: int, plan: Plan, fields: set<string>)
    requires Numbered(ops, 0) && Tokenizes(tk) && fields != {}
    ensures SearchesScan(tk, mentions, DocsAt(Fold(ops).store, Some(n)), Heads(Fold(ops).store), plan, fields) <==>
              forall k :: LeftEligible(ops, n, plan, k) ==>
                DocTokens(tk, LastLeft(OpLog.Prefix(ops, n), k), fields) == DocTokens(tk, LastLeft(ops, k), fields)
  {
    var past, now := DocsAt(Fold(ops).store, Some(n)), Heads(Fold(ops).store);
    PastSearchIsScan(tk, mentions, past, now, plan, fields);
    hide SearchesScan, Tokenizes, DocTokens, LastLeft, Passes, DocsAt, Heads, Fold;
    forall k
      ensures Eligible(past, plan, k) <==> LeftEligible(ops, n, plan, k)
      ensures SameTokens(tk, past, now, fields, k) <==>
                DocTokens(tk, LastLeft(OpLog.Prefix(ops, n), k), fields) == DocTokens(tk, LastLeft(ops, k), fields)
    {
      OldIsLeft(ops, n, k);
    }
  }

  /** The op writes a key of the collection. */
  predicate WritesIn(op: Op, coll: string) {
    match op.body.req.action
    case Put(c, id, _) => coll + ":" <= KeyOf(c, id)
    case Delete(c, id) => coll + ":" <= KeyOf(c, id)
    case _ => false
  }

  lemma {:induction false} UnwrittenStays(ops: seq<Op>, m: nat, k: string)
    requires m <= |ops| && forall i :: m <= i < |ops| ==> !Writes(ops[i], k)
    ensures LastLeft(ops, k) == LastLeft(ops[..m], k)
  {
    if m < |ops| {
      UnwrittenStays(ops[..|ops| - 1], m, k);
      assert ops[..|ops| - 1][..m] == ops[..m];
    } else {
      assert ops[..m] == ops;
    }
  }

  /** A caller can tell from the log: when no op after n writes a key of the
      collection, every search at n lists the rows of a scan. */
  lemma QuietSearches(tk: Tokenizer, mentions: Mentions, ops: seq<Op>, n: int, plan: Plan, fields: set<string>)
    requires Numbered(ops, 0) && fields != {} && forall i :: 0 <= i < |ops| && i > n ==> !WritesIn(ops[i], plan.coll)
    ensures SearchesScan(tk, mentions, DocsAt(Fold(ops).store, Some(n)), Heads(Fold(ops).store), plan, fields)
  {
    var past, now := DocsAt(Fold(ops).store, Some(n)), Heads(Fold(ops).store);
    var m := if n < 0 then 0 else if n >= |ops| then |ops| else n + 1;
    assert ops[..|ops|] == ops && OpLog.Prefix(ops, n) == ops[..m];
    forall k | Eligible(past, plan, k) ensures SameTokens(tk, past, now, fields, k) {
      OldIsLeft(ops, n, k);
      forall i | m <= i < |ops| ensures !Writes(ops[i], k) { assert !WritesIn(ops[i], plan.coll); }
      UnwrittenStays(ops, m, k);
    }
    hide SearchScans, SameTokens, DocsAt, Heads, Fold;
    forall text: string | text != "" ensures SearchScans(tk, mentions, past, now, plan.(search := Some(text)), fields) {
      var p := plan.(search := Some(text));
      forall k | Eligible(past, p, k) ensures SameTokens(tk, past, now, fields, k) { assert Eligible(past, plan, k); }
      SameTokensScan(tk, mentions, past, now, p, fields);
    }
  }

  // ---- executions at a sequence number and on the replayed prefix ----

  /** The plan shows the rows themselves: nothing walks, cuts, filters or groups
      them after they are listed. */
  predicate Bare(plan: Plan) {
    plan.traverse.None? && plan.limit.None? && (plan.validAt.None? || plan.validAt.value == "") && plan.groupBy.None?
  }

  lemma {:induction false} SomeOrder(rows: set<string>) returns (order: seq<string>)
    ensures Enumerates(order, rows)
  {
    if rows == {} {
      order := [];
    } else {
      var x :| x in rows;
      var rest := SomeOrder(rows - {x});
      order := [x] + rest;
    }
  }

  /** Both plans end alike: they differ at most in what is listed. */
  predicate EndAlike(p: Plan, q: Plan) {
    p.traverse == q.traverse && p.limit == q.limit && p.validAt == q.validAt && p.groupBy == q.groupBy && p.agg == q.agg
  }

  lemma FinishAlike(view: View, p: Plan, q: Plan, order: seq<string>)
    requires EndAlike(p, q)
    ensures Finish(view, p, order) == Finish(view, q, order)
  {}

  /** The same rows have the same outcomes; for a bare plan, only they do. */
  lemma OutcomesTell(view: View, p: Plan, q: Plan, a: set<string>, b: set<string>)
    requires EndAlike(p, q)
    ensures a == b ==> forall r :: OutcomeOf(view, p, a, r) <==> OutcomeOf(view, q, b, r)
    ensures Bare(p) && (forall r :: OutcomeOf(view, p, a, r) <==> OutcomeOf(view, q, b, r)) ==> a == b
  {
    forall order ensures Finish(view, p, order) == Finish(view, q, order) { FinishAlike(view, p, q, order); }
    if Bare(p) && (forall r :: OutcomeOf(view, p, a, r) <==> OutcomeOf(view, q, b, r)) {
      var order := SomeOrder(a);
      var r := Finish(view, p, order);
      assert OutcomeOf(view, p, a, r) && OutcomeOf(view, q, b, r);
      var other :| Enumerates(other, b) && r == Finish(view, q, other);
      assert order == r.keys == other;
    }
  }

  /** No equality index is asked for null while a matching document lacks the field. */
  ghost predicate NullSafe(tk: Tokenizer, mentions: Mentions, docs: map<string, Doc>, plan: Plan, names: set<string>, fields: set<string>) {
    var p := Picks(plan, names, fields);
    p.None? || p.value.value != Null || forall k :: k in Matching(tk, mentions, docs, plan, fields) ==> p.value.field in docs[k]
  }

  /** Two databases give a plan the same answers. */
  ghost predicate SameAnswers(tk: Tokenizer, mentions: Mentions, a: Data, aNames: set<string>, p: Plan,
                              b: Data, bNames: set<string>, q: Plan, fields: set<string>) {
    forall r :: CanAnswer(tk, mentions, a, aNames, fields, p, r) <==> CanAnswer(tk, mentions, b, bNames, fields, q, r)
  }

  lemma AnswersTell(tk: Tokenizer, mentions: Mentions, a: Data, aNames: set<string>, p: Plan, b: Data, bNames: set<string>, q: Plan, fields: set<string>)
    requires EndAlike(p, q) && ViewAt(a, p.asOf) == ViewAt(b, q.asOf)
    ensures Listed(tk, mentions, a.store, aNames, fields, p) == Listed(tk, mentions, b.store, bNames, fields, q) ==>
              SameAnswers(tk, mentions, a, aNames, p, b, bNames, q, fields)
    ensures Bare(p) && SameAnswers(tk, mentions, a, aNames, p, b, bNames, q, fields) ==>
              Listed(tk, mentions, a.store, aNames, fields, p) == Listed(tk, mentions, b.store, bNames, fields, q)
  {
    hide Listed, ViewAt, OutcomeOf, EndAlike, Bare;
    var x, y := Listed(tk, mentions, a.store, aNames, fields, p), Listed(tk, mentions, b.store, bNames, fields, q);
    var view := ViewAt(a, p.asOf);
    forall r
      ensures CanAnswer(tk, mentions, a, aNames, fields, p, r) <==> OutcomeOf(view, p, x, r)
      ensures CanAnswer(tk, mentions, b, bNames, fields, q, r) <==> OutcomeOf(view, q, y, r)
    {}
    hide CanAnswer;
    OutcomesTell(view, p, q, x, y);
  }

  lemma MatchingAnyTime(tk: Tokenizer, mentions: Mentions, docs: map<string, Doc>, plan: Plan, fields: set<string>)
    ensures Matching(tk, mentions, docs, plan.(asOf := None), fields) == Matching(tk, mentions, docs, plan, fields)
  {
    hide Passes, Found;
  }

  /** What is listed at n, and at the head of the replayed prefix, of a plan that
      searches no full-text index: both from the same documents, the first from a
      scan, the second perhaps through an equality index. */
  lemma ListedThen(tk: Tokenizer, mentions: Mentions, ops: seq<Op>, n: int, plan: Plan, names: set<string>, names': set<string>, fields: set<string>)
    requires Numbered(ops, 0) && plan.asOf == Some(n) && (!Searching(plan) || fields == {})
    ensures var now, replayed := Fold(ops).store, Fold(OpLog.Prefix(ops, n)).store;
            && Listed(tk, mentions, now, names, fields, plan) == Matching(tk, mentions, Heads(replayed), plan.(asOf := None), fields)
            && Listed(tk, mentions, replayed, names', fields, plan.(asOf := None)) == Kept(tk, mentions, Heads(replayed), plan.(asOf := None), names', fields)
            && ViewAt(Fold(ops), Some(n)) == ViewAt(Fold(OpLog.Prefix(ops, n)), None)
  {
    hide Fold, Matching, DocsAt;
    TimeTravel(ops, n);
    ViewDocs(Fold(ops), Some(n));
    ViewDocs(Fold(OpLog.Prefix(ops, n)), None);
    MatchingAnyTime(tk, mentions, DocsAt(Fold(ops).store, Some(n)), plan, fields);
    hide ViewAt;
  }

  /** Time travel for executions: at n, with whatever indexes there are now, a plan
      that searches no full-text index has the answers it has at the head of the
      replayed prefix with any equality indexes, unless one of those is asked for
      null while a matching document lacks the field; for a bare plan exactly then. */
  lemma QueryTimeTravel(tk: Tokenizer, mentions: Mentions, ops: seq<Op>, n: int, plan: Plan, names: set<string>, names': set<string>, fields: set<string>)
    requires Numbered(ops, 0) && plan.asOf == Some(n) && (!Searching(plan) || fields == {})
    ensures var replayed, head := Fold(OpLog.Prefix(ops, n)), plan.(asOf := None);
            && (NullSafe(tk, mentions, Heads(replayed.store), head, names', fields) ==>
                  SameAnswers(tk, mentions, Fold(ops), names, plan, replayed, names', head, fields))
            && (Bare(plan) && SameAnswers(tk, mentions, Fold(ops), names, plan, replayed, names', head, fields) ==>
                  NullSafe(tk, mentions, Heads(replayed.store), head, names', fields))
  {
    hide Fold, Listed, Matching, Heads, ViewAt, SameAnswers;
    var replayed, head := Fold(OpLog.Prefix(ops, n)), plan.(asOf := None);
    ListedThen(tk, mentions, ops, n, plan, names, names', fields);
    IndexedIsScan(tk, mentions, Heads(replayed.store), head, names', fields);
    AnswersTell(tk, mentions, Fold(ops), names, plan, replayed, names', head, fields);
    hide Picks, Kept, Bare;
  }

  /** At the head a search through the full-text indexes is the scan. */
  lemma SearchedThen(tk: Tokenizer, mentions: Mentions, ops: seq<Op>, n: int, plan: Plan, names: set<string>, names': set<string>, fields: set<string>)
    requires Numbered(ops, 0) && plan.asOf == Some(n) && Searching(plan) && fields != {}
    ensures var now, replayed := Fold(ops).store, Fold(OpLog.Prefix(ops, n)).store;
            && Listed(tk, mentions, now, names, fields, plan) == PastFound(tk, mentions, DocsAt(now, Some(n)), Heads(now), plan, fields)
            && Listed(tk, mentions, replayed, names', fields, plan.(asOf := None)) == Matching(tk, mentions, DocsAt(now, Some(n)), plan, fields)
            && ViewAt(Fold(ops), Some(n)) == ViewAt(Fold(OpLog.Prefix(ops, n)), None)
  {
    hide Fold, Matching, DocsAt, PastFound;
    var replayed, head := Fold(OpLog.Prefix(ops, n)), plan.(asOf := None);
    TimeTravel(ops, n);
    ViewDocs(Fold(ops), Some(n));
    ViewDocs(replayed, None);
    MatchingAnyTime(tk, mentions, DocsAt(Fold(ops).store, Some(n)), plan, fields);
    HeadSearchIsScan(tk, mentions, replayed.store, names', fields, head);
    hide ViewAt;
  }

  /** Time travel for searches through the full-text indexes: for every text, the
      answers at n are those at the head of the replayed prefix if the documents in
      question are filed now under the tokens the log had left them by n; for a
      bare plan exactly then. */
  lemma SearchTimeTravel(tk: Tokenizer, mentions: Mentions, ops: seq<Op>, n: int, plan: Plan, names: set<string>, names': set<string>, fields: set<string>)
    requires Numbered(ops, 0) && plan.asOf == Some(n) && fields != {} && Tokenizes(tk)
    ensures var agree := forall k :: LeftEligible(ops, n, plan, k) ==>
                           DocTokens(tk, LastLeft(OpLog.Prefix(ops, n), k), fields) == DocTokens(tk, LastLeft(ops, k), fields);
            && (agree ==> SearchesTravel(tk, mentions, ops, n, plan, names, names', fields))
            && (Bare(plan) && SearchesTravel(tk, mentions, ops, n, plan, names, names', fields) ==> agree)
  {
    hide Tokenizes, LeftEligible, DocTokens, LastLeft, Bare, Fold, DocsAt, Heads;
    var past, now := DocsAt(Fold(ops).store, Some(n)), Heads(Fold(ops).store);
    PastSearchOnLog(tk, mentions, ops, n, plan, fields);
    forall text: string | text != ""
      ensures SearchScans(tk, mentions, past, now, plan.(search := Some(text)), fields) ==>
                SearchTravels(tk, mentions, ops, n, plan.(search := Some(text)), names, names', fields)
      ensures Bare(plan) && SearchTravels(tk, mentions, ops, n, plan.(search := Some(text)), names, names', fields) ==>
                SearchScans(tk, mentions, past, now, plan.(search := Some(text)), fields)
    {
      SearchTravelsIs(tk, mentions, ops, n, plan, text, names, names', fields);
    }
    hide SearchScans, SearchTravels;
  }

  ghost predicate SearchTravels(tk: Tokenizer, mentions: Mentions, ops: seq<Op>, n: int, plan: Plan, names: set<string>, names': set<string>, fields: set<string>) {
    SameAnswers(tk, mentions, Fold(ops), names, plan, Fold(OpLog.Prefix(ops, n)), names', plan.(asOf := None), fields)
  }

  /** Whatever the text. */
  ghost predicate SearchesTravel(tk: Tokenizer, mentions: Mentions, ops: seq<Op>, n: int, plan: Plan, names: set<string>, names': set<string>, fields: set<string>) {
    forall text: string :: text != "" ==> SearchTravels(tk, mentions, ops, n, plan.(search := Some(text)), names, names', fields)
  }

  lemma SearchTravelsIs(tk: Tokenizer, mentions: Mentions, ops: seq<Op>, n: int, plan: Plan, text: string, names: set<string>, names': set<string>, fields: set<string>)
    requires Numbered(ops, 0) && plan.asOf == Some(n) && fields != {} && text != ""
    ensures var p := plan.(search := Some(text));
            var agree := SearchScans(tk, mentions, DocsAt(Fold(ops).store, Some(n)), Heads(Fold(ops).store), p, fields);
            && (agree ==> SearchTravels(tk, mentions, ops, n, p, names, names', fields))
            && (Bare(plan) && SearchTravels(tk, mentions, ops, n, p, names, names', fields) ==> agree)
  {
    hide Fold, Listed, Matching, Heads, ViewAt, SameAnswers, DocsAt, PastFound;
    var p := plan.(search := Some(text));
    SearchedThen(tk, mentions, ops, n, p, names, names', fields);
    AnswersTell(tk, mentions, Fold(ops), names, p, Fold(OpLog.Prefix(ops, n)), names', p.(asOf := None), fields);
  }

  // ---- runs on which the two differ ----

  function AfterWrite(tk: Tokenizer, db: Db, op: Op): Db {
    Db(ApplyTo(db.data, op), IndexOp(db.eq, EqTerms, Heads(db.data.store), op), IndexOp(db.inv, ByText(tk), Heads(db.data.store), op))
  }

  /** An equality index is created, one document is put. */
  function NullRun(tk: Tokenizer, op: Op, field: string): (dbs: seq<Db>)
    ensures |dbs| == 3
  {
    var indexed := BLANK.(eq := map[NameOf("users", field) := map[]]);
    [BLANK, indexed, AfterWrite(tk, indexed, op)]
  }

  lemma NoKeysYet(tk: Tokenizer, eq: Rows<Value>, inv: Rows<string>, coll: string)
    ensures Backfilled(tk, BLANK, eq, inv, coll, [], Db(EMPTY, eq, inv))
  {}

  lemma WriteStep(tk: Tokenizer, db: Db, op: Op)
    requires NamedPlainly(op)
    ensures DbStep(tk, db, Write(op), AfterWrite(tk, db, op))
  {
    hide ApplyTo, IndexOp, NamedPlainly, Heads;
  }

  lemma IndexStep(tk: Tokenizer, coll: string, field: string)
    requires Plain(coll)
    ensures DbStep(tk, BLANK, CreateEq(coll, field), BLANK.(eq := map[NameOf(coll, field) := map[]]))
    ensures DbStep(tk, BLANK, CreateSearch(coll, field), BLANK.(inv := map[NameOf(coll, field) := map[]]))
  {
    NoKeysYet(tk, Ensure(BLANK.eq, NameOf(coll, field)), map[], coll);
    NoKeysYet(tk, map[], Ensure(BLANK.inv, NameOf(coll, field)), coll);
    hide Backfilled, Plain;
  }

  lemma FoldOne(op: Op)
    ensures Fold([op]) == ApplyTo(EMPTY, op)
  {
    hide ApplyTo;
    assert [op][..0] == [];
    assert FoldFrom(EMPTY, []) == EMPTY;
  }

  lemma FoldTwo(op0: Op, op1: Op)
    ensures Fold([op0, op1]) == ApplyTo(ApplyTo(EMPTY, op0), op1)
  {
    hide ApplyTo;
    assert [op0, op1][..1] == [op0];
    FoldOne(op0);
  }

  /** What is stored under the key of the only put. */
  lemma StoredOnce(op: Op, coll: string, id: string, doc: Doc)
    requires op.body.seqNo == 0 && op.body.req.action == Put(coll, id, doc)
    ensures DocsAt(Fold([op]).store, Some(0)) == map[KeyOf(coll, id) := Stored(doc, 0)]
    ensures Heads(Fold([op]).store) == map[KeyOf(coll, id) := Stored(doc, 0)]
  {
    FoldOne(op);
    hide Fold, Stored;
    var chain := [Version(0, Some(Stored(doc, 0)))];
    assert ChainOf(EMPTY.store, KeyOf(coll, id)) + [chain[0]] == chain;
    assert Fold([op]).store == map[KeyOf(coll, id) := chain];
    assert chain[..0] == [] && AsOf(chain, 0) == Some(Stored(doc, 0));
  }

  /** What of two puts to one key was stored at the first, and is stored now. */
  lemma StoredTwice(op0: Op, op1: Op, coll: string, id: string, doc0: Doc, doc1: Doc)
    requires op0.body.seqNo == 0 && op0.body.req.action == Put(coll, id, doc0)
    requires op1.body.seqNo == 1 && op1.body.req.action == Put(coll, id, doc1)
    ensures DocsAt(Fold([op0, op1]).store, Some(0)) == map[KeyOf(coll, id) := Stored(doc0, 0)]
    ensures Heads(Fold([op0, op1]).store) == map[KeyOf(coll, id) := Stored(doc1, 1)]
  {
    StoredOnce(op0, coll, id, doc0);
    FoldOne(op0);
    FoldTwo(op0, op1);
    hide ViewAt, Stored, Fold, DocsAt, Heads, KeyOf, Append;
    PastViewKept(Fold([op0]), op1, 0);
    ViewDocs(Fold([op0]), Some(0));
    ViewDocs(ApplyTo(Fold([op0]), op1), Some(0));
    HeadsChange(Fold([op0]).store, op1);
  }

  lemma NullRunIs(tk: Tokenizer, op: Op, id: string, doc: Doc, field: string)
    requires op.body.seqNo == 0 && op.body.req.action == Put("users", id, doc)
    ensures IsDbRun(tk, NullRun(tk, op, field), [CreateEq("users", field), Write(op)])
    ensures var db := NullRun(tk, op, field)[2];
            && db.data == Fold([op]) && db.eq.Keys == {NameOf("users", field)} && db.inv == map[]
            && DocsAt(db.data.store, Some(0)) == Heads(db.data.store) == map[KeyOf("users", id) := Stored(doc, 0)]
  {
    hide DbStep, Fold, DocsAt, Heads, ApplyTo, Stored;
    assert Plain("users");
    IndexStep(tk, "users", field);
    WriteStep(tk, BLANK.(eq := map[NameOf("users", field) := map[]]), op);
    StoredOnce(op, "users", id, doc);
    FoldOne(op);
    RefiledKeys(map[NameOf("users", field) := map[]], EqTerms, Heads(EMPTY.store), op);
    RefiledKeys(map[], ByText(tk), Heads(EMPTY.store), op);
  }

  lemma RefiledKeys<K>(rows: Rows<K>, t: Terms<K>, docs: map<string, Doc>, op: Op)
    ensures IndexOp(rows, t, docs, op).Keys == rows.Keys
  {}

  /** An index asked for null misses the document that lacks the field: after the
      index is created and one document put, the query at that moment lists it, and
      the same query at the head, through the index, does not. */
  lemma NullIsMissed(tk: Tokenizer, mentions: Mentions, op: Op, id: string, doc: Doc, field: string)
    requires op.body.seqNo == 0 && op.body.req.action == Put("users", id, doc)
    requires "_id" in doc && field !in doc && field != "_seq"
    ensures IsDbRun(tk, NullRun(tk, op, field), [CreateEq("users", field), Write(op)])
    ensures var db, key := NullRun(tk, op, field)[2], KeyOf("users", id);
            var head := Plan("users", None, [Clause(field, Eq, Null)], None, None, None, None, None, None);
            var shown := Rows([key], [Stored(doc, 0)]);
            && db.data == Fold([op]) && SearchFieldsOf(db.inv, "users") == {}
            && Matching(tk, mentions, Heads(db.data.store), head, {}) == {key}
            && Kept(tk, mentions, Heads(db.data.store), head, db.eq.Keys, {}) == {}
            && CanAnswer(tk, mentions, db.data, db.eq.Keys, {}, head.(asOf := Some(0)), shown)
            && !CanAnswer(tk, mentions, db.data, db.eq.Keys, {}, head, shown)
  {
    NullRunIs(tk, op, id, doc, field);
    var db, key := NullRun(tk, op, field)[2], KeyOf("users", id);
    var head := Plan("users", None, [Clause(field, Eq, Null)], None, None, None, None, None, None);
    var shown := Rows([key], [Stored(doc, 0)]);
    assert "users:" <= key;
    LacksField(tk, mentions, Heads(db.data.store), key, head, field, db.eq.Keys);
    MatchingAnyTime(tk, mentions, Heads(db.data.store), head.(asOf := Some(0)), {});
    hide *;
    OneRow(tk, mentions, db.data, db.eq.Keys, {}, head.(asOf := Some(0)), key, Stored(doc, 0));
    OneRow(tk, mentions, db.data, db.eq.Keys, {}, head, key, Stored(doc, 0));
  }

  lemma LacksField(tk: Tokenizer, mentions: Mentions, docs: map<string, Doc>, key: string, plan: Plan, field: string, names: set<string>)
    requires docs.Keys == {key} && field !in docs[key] && "users:" <= key && names == {NameOf("users", field)}
    requires plan == Plan("users", None, [Clause(field, Eq, Null)], None, None, None, None, None, None)
    ensures Matching(tk, mentions, docs, plan, {}) == {key} && Kept(tk, mentions, docs, plan, names, {}) == {}
  {
    assert Picks(plan, names, {}) == Some(Clause(field, Eq, Null));
  }

  /** With one document, it is an answer exactly if its key is what is listed. */
  lemma OneRow(tk: Tokenizer, mentions: Mentions, d: Data, names: set<string>, fields: set<string>, plan: Plan, key: string, doc: Doc)
    requires Bare(plan) && DocsAt(d.store, plan.asOf) == map[key := doc]
    ensures CanAnswer(tk, mentions, d, names, fields, plan, Rows([key], [doc])) <==> Listed(tk, mentions, d.store, names, fields, plan) == {key}
  {
    hide Listed, DocsAt;
    var view, rows := ViewAt(d, plan.asOf), Listed(tk, mentions, d.store, names, fields, plan);
    ViewDocs(d, plan.asOf);
    assert DocsOf(view, [key]) == [doc];
    hide ViewAt;
    assert Finish(view, plan, [key]) == Rows([key], [doc]);
    if rows == {key} { assert Enumerates([key], rows); }
    if OutcomeOf(view, plan, rows, Rows([key], [doc])) {
      var order :| Enumerates(order, rows) && Rows([key], [doc]) == Finish(view, plan, order);
      assert order == [key];
      assert forall x :: x in rows <==> x in order;
    }
  }

  /** A full-text index is created, one document is put and then edited. */
  function EditRun(tk: Tokenizer, op0: Op, op1: Op): (dbs: seq<Db>)
    ensures |dbs| == 4
  {
    var indexed := BLANK.(inv := map[NameOf("notes", "body") := map[]]);
    var put := AfterWrite(tk, indexed, op0);
    [BLANK, indexed, put, AfterWrite(tk, put, op1)]
  }

  lemma EditRunIs(tk: Tokenizer, op0: Op, op1: Op, id: string, doc0: Doc, doc1: Doc)
    requires op0.body.seqNo == 0 && op0.body.req.action == Put("notes", id, doc0)
    requires op1.body.seqNo == 1 && op1.body.req.action == Put("notes", id, doc1)
    ensures IsDbRun(tk, EditRun(tk, op0, op1), [CreateSearch("notes", "body"), Write(op0), Write(op1)])
    ensures var db := EditRun(tk, op0, op1)[3];
            && db.data == Fold([op0, op1]) && db.inv.Keys == {NameOf("notes", "body")}
            && DocsAt(db.data.store, Some(0)) == map[KeyOf("notes", id) := Stored(doc0, 0)]
            && Heads(db.data.store) == map[KeyOf("notes", id) := Stored(doc1, 1)]
  {
    hide DbStep, Fold, DocsAt, Heads, ApplyTo, Stored;
    assert Plain("notes");
    var indexed := BLANK.(inv := map[NameOf("notes", "body") := map[]]);
    var put := AfterWrite(tk, indexed, op0);
    IndexStep(tk, "notes", "body");
    WriteStep(tk, indexed, op0);
    WriteStep(tk, put, op1);
    StoredTwice(op0, op1, "notes", id, doc0, doc1);
    FoldTwo(op0, op1);
    RefiledKeys(indexed.inv, ByText(tk), Heads(EMPTY.store), op0);
    RefiledKeys(put.inv, ByText(tk), Heads(put.data.store), op1);
  }

  /** A search of the past misses its row when the word has since been edited out:
      the scan of that moment lists it, the search at that moment does not. */
  lemma PastSearchMisses(tk: Tokenizer, mentions: Mentions, op0: Op, op1: Op, id: string, doc0: Doc, doc1: Doc, word: string)
    requires op0.body.seqNo == 0 && op0.body.req.action == Put("notes", id, doc0)
    requires op1.body.seqNo == 1 && op1.body.req.action == Put("notes", id, doc1)
    requires "_id" in doc0 && "_id" in doc1 && "body" in doc0 && doc0["body"] == Str(word) && "body" in doc1 && doc1["body"].Str?
    requires IsToken(tk, word) && word !in Tokens(tk, doc1["body"].s)
    ensures IsDbRun(tk, EditRun(tk, op0, op1), [CreateSearch("notes", "body"), Write(op0), Write(op1)])
    ensures var db, key := EditRun(tk, op0, op1)[3], KeyOf("notes", id);
            var plan := Plan("notes", Some(0), [], Some(word), None, None, None, None, None);
            var shown := Rows([key], [Stored(doc0, 0)]);
            && db.data == Fold([op0, op1]) && SearchFieldsOf(db.inv, "notes") == {"body"}
            && Matching(tk, mentions, DocsAt(db.data.store, Some(0)), plan, {"body"}) == {key}
            && PastFound(tk, mentions, DocsAt(db.data.store, Some(0)), Heads(db.data.store), plan, {"body"}) == {}
            && CanAnswer(tk, mentions, Fold([op0]), {}, {"body"}, plan.(asOf := None), shown)
            && !CanAnswer(tk, mentions, db.data, db.eq.Keys, {"body"}, plan, shown)
  {
    hide EditRun, IsDbRun, Fold, DocsAt, Heads, Stored, Found, Matching, PastFound, Kept, CanAnswer, SearchFieldsOf;
    EditRunIs(tk, op0, op1, id, doc0, doc1);
    StoredOnce(op0, "notes", id, doc0);
    var db, key := EditRun(tk, op0, op1)[3], KeyOf("notes", id);
    var plan := Plan("notes", Some(0), [], Some(word), None, None, None, None, None);
    BodyOnly(db.inv);
    WordDecides(tk, mentions, doc0, 0, word);
    WordDecides(tk, mentions, doc1, 1, word);
    assert "notes:" <= key;
    EditedOut(tk, mentions, DocsAt(db.data.store, Some(0)), Heads(db.data.store), key, plan, word);
    EditedOut(tk, mentions, Heads(Fold([op0]).store), Heads(Fold([op0]).store), key, plan.(asOf := None), word);
    DocsNow(Fold([op0]).store);
    OneRow(tk, mentions, db.data, db.eq.Keys, {"body"}, plan, key, Stored(doc0, 0));
    OneRow(tk, mentions, Fold([op0]), {}, {"body"}, plan.(asOf := None), key, Stored(doc0, 0));
  }

  lemma DocsNow(t: Table)
    ensures DocsAt(t, None) == Heads(t)
  {}

  lemma EditedOut(tk: Tokenizer, mentions: Mentions, past: map<string, Doc>, now: map<string, Doc>, key: string, plan: Plan, word: string)
    requires past.Keys == {key} && now.Keys == {key} && "notes:" <= key && Found(tk, mentions, past[key], {"body"}, word)
    requires plan == Plan("notes", plan.asOf, [], Some(word), None, None, None, None, None) && word != ""
    ensures Matching(tk, mentions, past, plan, {"body"}) == {key}
    ensures PastFound(tk, mentions, past, now, plan, {"body"}) == if Found(tk, mentions, now[key], {"body"}, word) then {key} else {}
  {
    hide Found;
  }

  lemma BodyOnly(inv: Rows<string>)
    requires inv.Keys == {NameOf("notes", "body")}
    ensures SearchFieldsOf(inv, "notes") == {"body"}
  {
    assert Plain("notes");
    SplitsAtFirst2("notes", "body");
    assert NameOf("notes", "body") in inv && "notes." <= NameOf("notes", "body");
    assert "body" in SearchFieldsOf(inv, "notes");
  }

  lemma WordDecides(tk: Tokenizer, mentions: Mentions, doc: Doc, n: nat, word: string)
    requires "body" in doc && doc["body"].Str? && IsToken(tk, word)
    ensures Found(tk, mentions, Stored(doc, n), {"body"}, word) <==> word in Tokens(tk, doc["body"].s)
  {
    assert |"body"| == |"_seq"| && "body"[0] != "_seq"[0];
    assert HoldsTerm(tk, Stored(doc, n), {"body"}, word) <==> word in TextTerms(tk, "body", Stored(doc, n));
  }
}
