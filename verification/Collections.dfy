/** Small notions about lists, sets and powers shared by the other modules. */
module Collections {

  predicate Distinct<T(==)>(s: seq<T>) {
    forall i, j :: 0 <= i < j < |s| ==> s[i] != s[j]
  }

  /** s lists the set, each element once. */
  ghost predicate Enumerates<T(!new)>(s: seq<T>, all: set<T>) {
    Distinct(s) && forall x :: x in s <==> x in all
  }

  function SetOf<T>(s: seq<T>): set<T> { set x | x in s }

  lemma FirstIn<T(!new)>(s: seq<T>)
    ensures s == [] || exists x :: x in s
  {
    if s != [] { assert s[0] in s; }
  }

  /** s is a proper part of the beginning of t, or has the smaller character where
      they first differ. */
  ghost predicate ComesBefore(s: string, t: string) {
    exists i: nat :: DiffersAt(s, t, i)
  }

  predicate DiffersAt(s: string, t: string, i: nat) {
    i <= |s| && i < |t| && s[..i] == t[..i] && (i == |s| || s[i] < t[i])
  }

  /** One step of the comparison. */
  lemma ComesBeforeSteps(s: string, t: string)
    ensures t == [] ==> !ComesBefore(s, t)
    ensures s == [] && t != [] ==> ComesBefore(s, t)
    ensures s != [] && t != [] ==> (ComesBefore(s, t) <==> s[0] < t[0] || (s[0] == t[0] && ComesBefore(s[1..], t[1..])))
  {
    if s == [] && t != [] { assert DiffersAt(s, t, 0); }
    if s != [] && t != [] {
      if i: nat :| DiffersAt(s, t, i) {
        if i > 0 {
          assert s[..i][0] == t[..i][0];
          assert s[1..][..i - 1] == s[..i][1..] && t[1..][..i - 1] == t[..i][1..];
          assert DiffersAt(s[1..], t[1..], i - 1);
        }
      }
      if s[0] < t[0] { assert DiffersAt(s, t, 0); }
      if s[0] == t[0] {
        if i: nat :| DiffersAt(s[1..], t[1..], i) {
          assert s[..i + 1] == [s[0]] + s[1..][..i] && t[..i + 1] == [t[0]] + t[1..][..i];
          assert DiffersAt(s, t, i + 1);
        }
      }
    }
  }

  /** The first `limit` items. */
  function Take<T>(xs: seq<T>, limit: nat): seq<T> {
    if |xs| <= limit then xs else xs[..limit]
  }

  lemma SubsetSize<T>(a: set<T>, b: set<T>)
    requires a <= b
    ensures |a| <= |b|
  {
    assert b == a + (b - a);
  }

  function Pow2(k: nat): (p: nat)
    ensures p > 0
  {
    if k == 0 then 1 else 2 * Pow2(k - 1)
  }
}
