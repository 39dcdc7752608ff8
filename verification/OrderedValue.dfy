/** The total ordering over JSON values (rust/crates/nedb-core/src/index.rs). */
module OrderedValue {
  import opened Collections

  /** A 64-bit float as the comparison sees it. */
  datatype Float = NaN | Real(r: real)

  /** A JSON value. A number carries its written form and the float it is
      promoted to: 5 and 5.0 are different values that compare equal. Arrays and
      objects carry their canonical text. */
  datatype Value = Null | Bool(b: bool) | Num(written: string, f: Float) | Str(s: string) | Arr(text: string) | Obj(text: string)

  datatype Ordering = Less | Equal | Greater

  function Flip(o: Ordering): Ordering {
    match o case Less => Greater case Equal => Equal case Greater => Less
  }

  function TypeRank(v: Value): nat {
    match v
    case Null => 0
    case Bool(_) => 1
    case Num(_, _) => 2
    case Str(_) => 3
    case Arr(_) => 4
    case Obj(_) => 5
  }

  function CmpString(a: string, b: string): Ordering {
    if a == [] then (if b == [] then Equal else Less)
    else if b == [] then Greater
    else if a[0] < b[0] then Less
    else if a[0] > b[0] then Greater
    else CmpString(a[1..], b[1..])
  }

  function CmpFloat(x: Float, y: Float): Ordering {
    if x.Real? && y.Real? then
      if x.r < y.r then Less else if x.r == y.r then Equal else Greater
    else if x.NaN? && y.NaN? then Equal
    else if x.NaN? then Greater
    else Less
  }

  function CmpSame(a: Value, b: Value): Ordering
    requires TypeRank(a) == TypeRank(b)
  {
    match a
    case Null => Equal
    case Bool(x) => if x == b.b then Equal else if b.b then Less else Greater
    case Num(_, x) => CmpFloat(x, b.f)
    case Str(x) => CmpString(x, b.s)
    case Arr(x) => CmpString(x, b.text)
    case Obj(x) => CmpString(x, b.text)
  }

  function Cmp(a: Value, b: Value): Ordering {
    if TypeRank(a) < TypeRank(b) then Less
    else if TypeRank(a) > TypeRank(b) then Greater
    else CmpSame(a, b)
  }

  // ---- what it says, kind by kind ----

  lemma {:induction false} StringMeans(a: string, b: string)
    ensures CmpString(a, b) == Less <==> ComesBefore(a, b)
    ensures CmpString(a, b) == Greater <==> ComesBefore(b, a)
    ensures CmpString(a, b) == Equal <==> a == b
  {
    ComesBeforeSteps(a, b);
    ComesBeforeSteps(b, a);
    if a != [] && b != [] {
      StringMeans(a[1..], b[1..]);
      assert a == [a[0]] + a[1..] && b == [b[0]] + b[1..];
    }
  }

  /** Which way it runs: null, then false, then true, then the numbers by size and
      NaN above them, then strings by their first difference, then arrays, then
      objects by their texts. */
  lemma CmpMeans(a: Value, b: Value)
    ensures a.Null? ==> Cmp(a, b) == if b.Null? then Equal else Less
    ensures a.Bool? && b.Bool? ==> (Cmp(a, b) == Less <==> !a.b && b.b)
    ensures a.Bool? && (b.Num? || b.Str? || b.Arr? || b.Obj?) ==> Cmp(a, b) == Less
    ensures a.Num? && b.Num? && a.f.Real? && b.f.Real? ==>
              (Cmp(a, b) == Less <==> a.f.r < b.f.r) && (Cmp(a, b) == Equal <==> a.f.r == b.f.r)
    ensures a.Num? && b.Num? && a.f.Real? && b.f.NaN? ==> Cmp(a, b) == Less && Cmp(b, a) == Greater
    ensures a.Num? && b.Num? && a.f.NaN? && b.f.NaN? ==> Cmp(a, b) == Equal
    ensures a.Num? && (b.Str? || b.Arr? || b.Obj?) ==> Cmp(a, b) == Less
    ensures a.Str? && b.Str? ==> (Cmp(a, b) == Less <==> ComesBefore(a.s, b.s)) && (Cmp(a, b) == Greater <==> ComesBefore(b.s, a.s))
    ensures a.Str? && (b.Arr? || b.Obj?) ==> Cmp(a, b) == Less
    ensures a.Arr? && b.Arr? ==> (Cmp(a, b) == Less <==> ComesBefore(a.text, b.text))
    ensures a.Arr? && b.Obj? ==> Cmp(a, b) == Less
    ensures a.Obj? && b.Obj? ==> (Cmp(a, b) == Less <==> ComesBefore(a.text, b.text))
    ensures Cmp(a, b) == Greater <==> Cmp(b, a) == Less
  {
    hide ComesBefore;
    if a.Str? && b.Str? { StringMeans(a.s, b.s); StringMeans(b.s, a.s); }
    if a.Arr? && b.Arr? { StringMeans(a.text, b.text); StringMeans(b.text, a.text); }
    if a.Obj? && b.Obj? { StringMeans(a.text, b.text); StringMeans(b.text, a.text); }
  }

  // ---- the comparison is a total preorder ----

  lemma {:induction false} StringOrder(a: string, b: string)
    ensures CmpString(a, b) == Equal <==> a == b
    ensures CmpString(b, a) == Flip(CmpString(a, b))
  {
    if a != [] && b != [] {
      StringOrder(a[1..], b[1..]);
      if a[0] == b[0] && a[1..] == b[1..] {
        assert a == [a[0]] + a[1..] && b == [b[0]] + b[1..];
      }
    }
  }

  lemma {:induction false} StringTransitive(a: string, b: string, c: string)
    requires CmpString(a, b) != Greater && CmpString(b, c) != Greater
    ensures CmpString(a, c) != Greater
  {
    if a != [] && b != [] && c != [] && a[0] == b[0] == c[0] {
      StringTransitive(a[1..], b[1..], c[1..]);
    }
  }

  /** What the comparison can tell of a value. */
  function Class(v: Value): Value {
    if v.Num? then Num("", v.f) else v
  }

  lemma CmpOrder(a: Value, b: Value)
    ensures Cmp(a, b) == Equal <==> Class(a) == Class(b)
    ensures Cmp(b, a) == Flip(Cmp(a, b))
  {
    if a.Str? && b.Str? { StringOrder(a.s, b.s); }
    if a.Arr? && b.Arr? { StringOrder(a.text, b.text); }
    if a.Obj? && b.Obj? { StringOrder(a.text, b.text); }
  }

  predicate Leq(a: Value, b: Value) { Cmp(a, b) != Greater }

  lemma LeqTransitive(a: Value, b: Value, c: Value)
    requires Leq(a, b) && Leq(b, c)
    ensures Leq(a, c)
  {
    if TypeRank(a) == TypeRank(b) == TypeRank(c) {
      match a
      case Str(x) => StringTransitive(x, b.s, c.s);
      case Arr(x) => StringTransitive(x, b.text, c.text);
      case Obj(x) => StringTransitive(x, b.text, c.text);
      case Null =>
      case Bool(_) =>
      case Num(_, _) =>
    }
  }

  /** Total preorder: reflexive, total, transitive; equality is equality of classes. */
  lemma CmpIsTotalPreorder(a: Value, b: Value, c: Value)
    ensures Leq(a, a) && (Leq(a, b) || Leq(b, a))
    ensures Leq(a, b) && Leq(b, c) ==> Leq(a, c)
    ensures Leq(a, b) && Leq(b, a) <==> Class(a) == Class(b)
  {
    CmpOrder(a, a);
    CmpOrder(a, b);
    if Leq(a, b) && Leq(b, c) { LeqTransitive(a, b, c); }
  }

  /** Values of one class compare alike with everything. */
  lemma ClassDecides(a: Value, b: Value)
    ensures Cmp(Class(a), Class(b)) == Cmp(a, b) && Class(Class(a)) == Class(a)
  {
  }

  lemma LessThenLeq(a: Value, b: Value, c: Value)
    requires Cmp(a, b) == Less && Leq(b, c)
    ensures Cmp(a, c) == Less
  {
    CmpOrder(a, c);
    CmpOrder(a, b);
    LeqTransitive(a, b, c);
    if Cmp(a, c) == Equal {
      LeqTransitive(b, c, a);
    }
  }
}
