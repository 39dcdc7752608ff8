/** The equality and full-text indexes, kept up to date on every write
    (python/nedb/index.py). */
module FieldIndexes {
  import opened Hashing
  import opened Ops
  import opened MvccStore

  // ---- names ----

  function Before(s: string, c: char): string {
    if s == "" || s[0] == c then "" else [s[0]] + Before(s[1..], c)
  }

  function After(s: string, c: char): string {
    if s == "" then "" else if s[0] == c then s[1..] else After(s[1..], c)
  }

  /** A collection name that can be told from what follows it. */
  predicate Plain(coll: string) { '.' !in coll && ':' !in coll }

  function KeyOf(coll: string, id: string): string { coll + ":" + id }

  function NameOf(coll: string, field: string): string { coll + "." + field }

  /** The collection a key belongs to. */
  function CollOf(key: string): string { Before(key, ':') }

  lemma {:induction false} SplitsAtFirst(a: string, c: char, b: string)
    requires c !in a
    ensures Before(a + [c] + b, c) == a && After(a + [c] + b, c) == b
  {
    var s := a + [c] + b;
    if a != "" {
      SplitsAtFirst(a[1..], c, b);
      assert s[1..] == a[1..] + [c] + b;
      assert s[0] == a[0];
    }
  }

  lemma {:induction false} BeforeMeans(s: string, c: char)
    ensures c !in Before(s, c) && Before(s, c) <= s
    ensures c in s ==> Before(s, c) + [c] <= s
  {
    if s != "" && s[0] != c {
      BeforeMeans(s[1..], c);
      assert s == [s[0]] + s[1..];
    }
  }

  /** An index covers the keys of exactly one collection. */
  lemma CoversOne(coll: string, field: string, c: string)
    requires Plain(coll) && Plain(c)
    ensures c + "." <= NameOf(coll, field) <==> c == coll
  {
    if c + "." <= NameOf(coll, field) {
      var rest := NameOf(coll, field)[|c + "."|..];
      assert NameOf(coll, field) == c + ['.'] + rest;
      SplitsAtFirst(c, '.', rest);
      SplitsAtFirst(coll, '.', field);
    }
  }

  /** The scan prefix of a collection selects exactly its keys. */
  lemma PrefixIsColl(coll: string, key: string)
    requires ':' !in coll
    ensures coll + ":" <= key <==> ':' in key && CollOf(key) == coll
  {
    BeforeMeans(key, ':');
    if coll + ":" <= key {
      var rest := key[|coll + ":"|..];
      assert key == coll + [':'] + rest;
      SplitsAtFirst(coll, ':', rest);
    }
  }

  // ---- one index: terms to keys ----

  function Lookup<K>(row: map<K, set<string>>, k: K): set<string> { if k in row then row[k] else {} }

  function Insert<K>(row: map<K, set<string>>, ks: set<K>, key: string): map<K, set<string>> {
    map k | k in row.Keys + ks :: Lookup(row, k) + (if k in ks then {key} else {})
  }

  function Discard<K>(row: map<K, set<string>>, ks: set<K>, key: string): map<K, set<string>> {
    map k | k in row :: if k in ks then row[k] - {key} else row[k]
  }

  // ---- all the indexes of one kind ----

  type Rows<K> = map<string, map<K, set<string>>>

  /** Under which terms a document's field is filed. */
  type Terms<!K(==)> = (string, Doc) -> set<K>

  function TermsOf<K>(t: Terms<K>, field: string, doc: Doc): set<K> { t(field, doc) }

  function AddAll<K>(rows: Rows<K>, t: Terms<K>, coll: string, key: string, doc: Doc): Rows<K> {
    map name | name in rows :: if coll + "." <= name then Insert(rows[name], TermsOf(t, After(name, '.'), doc), key) else rows[name]
  }

  function RemoveAll<K>(rows: Rows<K>, t: Terms<K>, coll: string, key: string, doc: Doc): Rows<K> {
    map name | name in rows :: if coll + "." <= name then Discard(rows[name], TermsOf(t, After(name, '.'), doc), key) else rows[name]
  }

  function Ensure<K>(rows: Rows<K>, name: string): Rows<K> { if name in rows then rows else rows[name := map[]] }

  /** What one write does: take out the old version, file the new. */
  function Refile<K>(rows: Rows<K>, t: Terms<K>, coll: string, key: string, was: Option<Doc>, now: Option<Doc>): Rows<K> {
    var out := if was.Some? then RemoveAll(rows, t, coll, key, was.value) else rows;
    if now.Some? then AddAll(out, t, coll, key, now.value) else out
  }

  /** A document is to be filed in this index under this term. */
  predicate Filed<K>(t: Terms<K>, docs: map<string, Doc>, name: string, k: K, key: string) {
    key in docs && CollOf(key) + "." <= name && k in TermsOf(t, After(name, '.'), docs[key])
  }

  /** Every index says exactly what the live documents say. */
  ghost predicate Faithful<K(!new)>(rows: Rows<K>, t: Terms<K>, docs: map<string, Doc>) {
    forall name, k, key :: name in rows ==> (key in Lookup(rows[name], k) <==> Filed(t, docs, name, k, key))
  }

  function Changed(docs: map<string, Doc>, key: string, now: Option<Doc>): map<string, Doc> {
    if now.Some? then docs[key := now.value] else docs - {key}
  }

  function Old(docs: map<string, Doc>, key: string): Option<Doc> { if key in docs then Some(docs[key]) else None }

  /** A write that changes the document of one key keeps the indexes faithful. */
  lemma RefileKeeps<K(!new)>(rows: Rows<K>, t: Terms<K>, docs: map<string, Doc>, coll: string, key: string, now: Option<Doc>)
    requires Faithful(rows, t, docs) && CollOf(key) == coll
    ensures Faithful(Refile(rows, t, coll, key, Old(docs, key), now), t, Changed(docs, key, now))
  {
    var rows' := Refile(rows, t, coll, key, Old(docs, key), now);
    forall name, k, x | name in rows'
      ensures x in Lookup(rows'[name], k) <==> Filed(t, Changed(docs, key, now), name, k, x)
    {
      RefileOne(rows, t, docs, coll, key, now, name, k, x);
    }
  }

  lemma RefileOne<K(!new)>(rows: Rows<K>, t: Terms<K>, docs: map<string, Doc>, coll: string, key: string, now: Option<Doc>,
                           name: string, k: K, x: string)
    requires Faithful(rows, t, docs) && CollOf(key) == coll && name in rows
    ensures x in Lookup(Refile(rows, t, coll, key, Old(docs, key), now)[name], k) <==> Filed(t, Changed(docs, key, now), name, k, x)
  {
    hide CollOf;
    assert x in Lookup(rows[name], k) <==> Filed(t, docs, name, k, x);
    hide Faithful;
  }

  // ---- creating an index ----

  /** As `Faithful`, but one index covers only the keys in `done`. */
  ghost predicate FaithfulBut<K(!new)>(rows: Rows<K>, t: Terms<K>, docs: map<string, Doc>, newName: string, done: set<string>) {
    forall name, k, key :: name in rows ==>
      (key in Lookup(rows[name], k) <==> Filed(t, docs, name, k, key) && (name == newName ==> key in done))
  }

  lemma EnsureBegins<K(!new)>(rows: Rows<K>, t: Terms<K>, docs: map<string, Doc>, name: string)
    requires Faithful(rows, t, docs)
    ensures name !in rows ==> FaithfulBut(Ensure(rows, name), t, docs, name, {})
    ensures name in rows ==> FaithfulBut(Ensure(rows, name), t, docs, name, docs.Keys)
  {}

  lemma BackfillOne<K(!new)>(rows: Rows<K>, t: Terms<K>, docs: map<string, Doc>, name: string, done: set<string>, coll: string, key: string)
    requires FaithfulBut(rows, t, docs, name, done) && key in docs && CollOf(key) == coll
    ensures FaithfulBut(AddAll(rows, t, coll, key, docs[key]), t, docs, name, done + {key})
  {
    hide CollOf;
    var rows' := AddAll(rows, t, coll, key, docs[key]);
    forall n, k, x | n in rows'
      ensures x in Lookup(rows'[n], k) <==> Filed(t, docs, n, k, x) && (n == name ==> x in done + {key})
    {
      assert x in Lookup(rows[n], k) <==> Filed(t, docs, n, k, x) && (n == name ==> x in done);
    }
  }

  /** Once every key of the collection is backfilled, the new index is faithful. */
  lemma BackfillEnds<K(!new)>(rows: Rows<K>, t: Terms<K>, docs: map<string, Doc>, coll: string, field: string, done: set<string>)
    requires FaithfulBut(rows, t, docs, NameOf(coll, field), done) && Plain(coll)
    requires forall key :: key in docs ==> Plain(CollOf(key)) && ':' in key
    requires forall key :: key in docs && coll + ":" <= key ==> key in done
    ensures Faithful(rows, t, docs)
  {
    hide CollOf, Plain, NameOf;
    var name := NameOf(coll, field);
    forall n, k, key | n in rows ensures key in Lookup(rows[n], k) <==> Filed(t, docs, n, k, key) {
      assert key in Lookup(rows[n], k) <==> Filed(t, docs, n, k, key) && (n == name ==> key in done);
      if Filed(t, docs, n, k, key) && n == name {
        CoversOne(coll, field, CollOf(key));
        assert ':' !in coll by { PlainColon(coll); }
        PrefixIsColl(coll, key);
      }
    }
  }

  lemma PlainColon(coll: string)
    requires Plain(coll)
    ensures ':' !in coll && '.' !in coll
  {}

  // ---- the two kinds ----

  /** A field is filed under its value in an equality index. */
  function EqTerms(field: string, doc: Doc): set<Value> { if field in doc then {doc[field]} else {} }

  type Tokenizer = string -> set<string>

  function Tokens(tk: Tokenizer, text: string): set<string> { tk(text) }

  /** A string field is filed under its tokens in a full-text index. */
  function TextTerms(tk: Tokenizer, field: string, doc: Doc): set<string> {
    if field in doc && doc[field].Str? then Tokens(tk, doc[field].s) else {}
  }

  function ByText(tk: Tokenizer): Terms<string> { (field: string, doc: Doc) => TextTerms(tk, field, doc) }

  class Indexes {
    const tk: Tokenizer
    var eq: Rows<Value>
    var inv: Rows<string>

    constructor (tk: Tokenizer)
      ensures this.tk == tk && eq == map[] && inv == map[]
    {
      this.tk := tk;
      eq, inv := map[], map[];
    }

    method EnsureEq(coll: string, field: string)
      modifies this`eq
      ensures eq == Ensure(old(eq), NameOf(coll, field))
    {
      var k := coll + "." + field;
      if k !in eq {
        eq := eq[k := map[]];
      }
    }

    method EnsureSearch(coll: string, field: string)
      modifies this`inv
      ensures inv == Ensure(old(inv), NameOf(coll, field))
    {
      var k := coll + "." + field;
      if k !in inv {
        inv := inv[k := map[]];
      }
    }

    /** File a key under each of the tokens. */
    static method InsertTokens(row0: map<string, set<string>>, toks: set<string>, key: string) returns (row: map<string, set<string>>)
      ensures row == Insert(row0, toks, key)
    {
      hide Insert;
      row := row0;
      var rest := toks;
      InsertNone(row0, key);
      assert toks - rest == {};
      while rest != {}
        invariant rest <= toks && row == Insert(row0, toks - rest, key)
        decreases |rest|
      {
        var tok :| tok in rest;
        InsertNext(row0, toks - rest, tok, key);
        row := row[tok := (if tok in row then row[tok] else {}) + {key}];
        assert toks - (rest - {tok}) == toks - rest + {tok};
        rest := rest - {tok};
      }
      assert toks - rest == toks;
    }

    static method DiscardTokens(row0: map<string, set<string>>, toks: set<string>, key: string) returns (row: map<string, set<string>>)
      ensures row == Discard(row0, toks, key)
    {
      row := row0;
      var rest := toks;
      while rest != {}
        invariant rest <= toks && row == Discard(row0, toks - rest, key)
        decreases |rest|
      {
        var tok :| tok in rest;
        if tok in row {
          row := row[tok := row[tok] - {key}];
        }
        rest := rest - {tok};
      }
      assert toks - rest == toks;
    }

    /** File a document in every equality index of its collection. */
    static method AddEq(eq0: Rows<Value>, coll: string, key: string, doc: Doc) returns (eq: Rows<Value>)
      ensures eq == AddAll(eq0, EqTerms, coll, key, doc)
    {
      hide AddAll, Mixed, Insert, EqTerms;
      ghost var goal := AddAll(eq0, EqTerms, coll, key, doc);
      AddNames(eq0, EqTerms, coll, key, doc);
      MixedNone(eq0, goal);
      eq := eq0;
      var names := eq.Keys;
      while names != {}
        invariant names <= eq0.Keys
        invariant eq == Mixed(eq0, goal, names)
        decreases |names|
      {
        var name :| name in names;
        var f := After(name, '.');
        MixedNext(eq0, goal, names, name);
        AddRow(eq0, EqTerms, coll, key, doc, name);
        AddEqRow(eq0[name], f, key, doc);
        if coll + "." <= name && f in doc {
          var vmap := eq[name];
          eq := eq[name := vmap[doc[f] := (if doc[f] in vmap then vmap[doc[f]] else {}) + {key}]];
        }
        names := names - {name};
      }
      MixedAll(eq0, goal);
    }

    /** File a document in every full-text index of its collection. */
    static method AddText(tk: Tokenizer, inv0: Rows<string>, coll: string, key: string, doc: Doc) returns (inv: Rows<string>)
      ensures inv == AddAll(inv0, ByText(tk), coll, key, doc)
    {
      hide AddAll, Mixed, Insert;
      ghost var goal := AddAll(inv0, ByText(tk), coll, key, doc);
      AddNames(inv0, ByText(tk), coll, key, doc);
      MixedNone(inv0, goal);
      inv := inv0;
      var names := inv.Keys;
      while names != {}
        invariant names <= inv0.Keys
        invariant inv == Mixed(inv0, goal, names)
        decreases |names|
      {
        var name :| name in names;
        var f := After(name, '.');
        MixedNext(inv0, goal, names, name);
        AddRow(inv0, ByText(tk), coll, key, doc, name);
        InsertNone(inv0[name], key);
        if coll + "." <= name && f in doc && doc[f].Str? {
          var row := InsertTokens(inv[name], Tokens(tk, doc[f].s), key);
          inv := inv[name := row];
        }
        names := names - {name};
      }
      MixedAll(inv0, goal);
    }

    /** Take a document out of every equality index of its collection. */
    static method RemoveEq(eq0: Rows<Value>, coll: string, key: string, doc: Doc) returns (eq: Rows<Value>)
      ensures eq == RemoveAll(eq0, EqTerms, coll, key, doc)
    {
      hide RemoveAll, Mixed, Discard, EqTerms;
      ghost var goal := RemoveAll(eq0, EqTerms, coll, key, doc);
      RemoveNames(eq0, EqTerms, coll, key, doc);
      MixedNone(eq0, goal);
      eq := eq0;
      var names := eq.Keys;
      while names != {}
        invariant names <= eq0.Keys
        invariant eq == Mixed(eq0, goal, names)
        decreases |names|
      {
        var name :| name in names;
        var f := After(name, '.');
        MixedNext(eq0, goal, names, name);
        RemoveRow(eq0, EqTerms, coll, key, doc, name);
        RemoveEqRow(eq0[name], f, key, doc);
        if coll + "." <= name && f in doc && doc[f] in eq[name] {
          var vmap := eq[name];
          eq := eq[name := vmap[doc[f] := vmap[doc[f]] - {key}]];
        }
        names := names - {name};
      }
      MixedAll(eq0, goal);
    }

    /** Take a document out of every full-text index of its collection. */
    static method RemoveText(tk: Tokenizer, inv0: Rows<string>, coll: string, key: string, doc: Doc) returns (inv: Rows<string>)
      ensures inv == RemoveAll(inv0, ByText(tk), coll, key, doc)
    {
      hide RemoveAll, Mixed, Discard;
      ghost var goal := RemoveAll(inv0, ByText(tk), coll, key, doc);
      RemoveNames(inv0, ByText(tk), coll, key, doc);
      MixedNone(inv0, goal);
      inv := inv0;
      var names := inv.Keys;
      while names != {}
        invariant names <= inv0.Keys
        invariant inv == Mixed(inv0, goal, names)
        decreases |names|
      {
        var name :| name in names;
        var f := After(name, '.');
        MixedNext(inv0, goal, names, name);
        RemoveRow(inv0, ByText(tk), coll, key, doc, name);
        DiscardNone(inv0[name], {}, key);
        if coll + "." <= name && f in doc && doc[f].Str? {
          var row := DiscardTokens(inv[name], Tokens(tk, doc[f].s), key);
          inv := inv[name := row];
        }
        names := names - {name};
      }
      MixedAll(inv0, goal);
    }

    method Add(coll: string, key: string, doc: Doc)
      modifies this
      ensures eq == AddAll(old(eq), EqTerms, coll, key, doc) && inv == AddAll(old(inv), ByText(tk), coll, key, doc)
    {
      eq := AddEq(eq, coll, key, doc);
      inv := AddText(tk, inv, coll, key, doc);
    }

    method Remove(coll: string, key: string, doc: Doc)
      modifies this
      ensures eq == RemoveAll(old(eq), EqTerms, coll, key, doc) && inv == RemoveAll(old(inv), ByText(tk), coll, key, doc)
    {
      eq := RemoveEq(eq, coll, key, doc);
      inv := RemoveText(tk, inv, coll, key, doc);
    }

    method EqLookup(coll: string, field: string, value: Value) returns (ids: set<string>)
      ensures ids == if NameOf(coll, field) in eq then Lookup(eq[NameOf(coll, field)], value) else {}
    {
      var k := coll + "." + field;
      ids := if k in eq && value in eq[k] then eq[k][value] else {};
    }

    method SearchLookup(coll: string, field: string, term: string) returns (ids: set<string>)
      ensures ids == if NameOf(coll, field) in inv then Lookup(inv[NameOf(coll, field)], term) else {}
    {
      var k := coll + "." + field;
      ids := if k in inv && term in inv[k] then inv[k][term] else {};
    }

    /** The fields of a collection with a full-text index. */
    method SearchFields(coll: string) returns (fields: set<string>)
      ensures fields == SearchFieldsOf(inv, coll)
    {
      fields := set name | name in inv && coll + "." <= name :: After(name, '.');
    }
  }

  function SearchFieldsOf(inv: Rows<string>, coll: string): set<string> {
    set name | name in inv && coll + "." <= name :: After(name, '.')
  }

  /** The rows of b, save those still to be done, which are as in a. */
  function Mixed<K>(a: Rows<K>, b: Rows<K>, rest: set<string>): Rows<K>
    requires a.Keys == b.Keys
  {
    map name | name in a :: if name in rest then a[name] else b[name]
  }

  lemma MixedAll<K>(a: Rows<K>, b: Rows<K>)
    requires a.Keys == b.Keys
    ensures Mixed(a, b, {}) == b
  {}

  lemma MixedNone<K>(a: Rows<K>, b: Rows<K>)
    requires a.Keys == b.Keys
    ensures Mixed(a, b, a.Keys) == a
  {}

  lemma MixedNext<K>(a: Rows<K>, b: Rows<K>, rest: set<string>, name: string)
    requires a.Keys == b.Keys && name in rest && name in a
    ensures name in Mixed(a, b, rest) && Mixed(a, b, rest)[name] == a[name]
    ensures Mixed(a, b, rest)[name := b[name]] == Mixed(a, b, rest - {name})
    ensures b[name] == a[name] ==> Mixed(a, b, rest) == Mixed(a, b, rest - {name})
  {}

  lemma AddNames<K>(rows: Rows<K>, t: Terms<K>, coll: string, key: string, doc: Doc)
    ensures AddAll(rows, t, coll, key, doc).Keys == rows.Keys
  {}

  lemma AddRow<K>(rows: Rows<K>, t: Terms<K>, coll: string, key: string, doc: Doc, name: string)
    requires name in rows
    ensures name in AddAll(rows, t, coll, key, doc)
    ensures AddAll(rows, t, coll, key, doc)[name] ==
              if coll + "." <= name then Insert(rows[name], TermsOf(t, After(name, '.'), doc), key) else rows[name]
  {}

  lemma RemoveNames<K>(rows: Rows<K>, t: Terms<K>, coll: string, key: string, doc: Doc)
    ensures RemoveAll(rows, t, coll, key, doc).Keys == rows.Keys
  {}

  lemma RemoveRow<K>(rows: Rows<K>, t: Terms<K>, coll: string, key: string, doc: Doc, name: string)
    requires name in rows
    ensures name in RemoveAll(rows, t, coll, key, doc)
    ensures RemoveAll(rows, t, coll, key, doc)[name] ==
              if coll + "." <= name then Discard(rows[name], TermsOf(t, After(name, '.'), doc), key) else rows[name]
  {}

  lemma AddEqRow(row: map<Value, set<string>>, f: string, key: string, doc: Doc)
    ensures f in doc ==> Insert(row, EqTerms(f, doc), key) == row[doc[f] := (if doc[f] in row then row[doc[f]] else {}) + {key}]
    ensures f !in doc ==> Insert(row, EqTerms(f, doc), key) == row
  {
    if f in doc {
      InsertNone(row, key);
      InsertNext(row, {}, doc[f], key);
      assert {} + {doc[f]} == {doc[f]};
    } else {
      InsertNone(row, key);
    }
  }

  lemma RemoveEqRow(row: map<Value, set<string>>, f: string, key: string, doc: Doc)
    ensures f in doc && doc[f] in row ==> Discard(row, EqTerms(f, doc), key) == row[doc[f] := row[doc[f]] - {key}]
    ensures !(f in doc && doc[f] in row) ==> Discard(row, EqTerms(f, doc), key) == row
  {}

  lemma InsertNone<K>(row: map<K, set<string>>, key: string)
    ensures Insert(row, {}, key) == row
  {
    assert row.Keys + {} == row.Keys;
    forall k | k in row ensures Insert(row, {}, key)[k] == row[k] {
      assert row[k] + {} == row[k];
    }
  }

  lemma InsertNext<K>(row: map<K, set<string>>, ks: set<K>, k: K, key: string)
    ensures Insert(row, ks + {k}, key) == Insert(row, ks, key)[k := Lookup(Insert(row, ks, key), k) + {key}]
  {
    var a, b := Insert(row, ks + {k}, key), Insert(row, ks, key)[k := Lookup(Insert(row, ks, key), k) + {key}];
    assert a.Keys == row.Keys + (ks + {k}) == b.Keys;
    forall x | x in a.Keys ensures a[x] == b[x] {}
  }

  lemma DiscardNone<K>(row: map<K, set<string>>, ks: set<K>, key: string)
    requires forall k :: k in ks ==> k !in row
    ensures Discard(row, ks, key) == row
  {}
}
