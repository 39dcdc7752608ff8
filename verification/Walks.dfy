/** Walks in a finite edge relation, and the worklist argument shared by the
    graph traversals. */
module Walks {

  /** There is a walk of exactly n edges from a to b. */
  ghost predicate Walk<T(!new)>(edges: set<(T, T)>, a: T, b: T, n: nat) {
    if n == 0 then a == b else exists y :: Walk(edges, a, y, n - 1) && (y, b) in edges
  }

  ghost predicate Reaches<T(!new)>(edges: set<(T, T)>, a: T, b: T) {
    exists n: nat :: Walk(edges, a, b, n)
  }

  function Converse<T(==)>(edges: set<(T, T)>): set<(T, T)> {
    set e | e in edges :: (e.1, e.0)
  }

  lemma InConverse<T(!new)>(edges: set<(T, T)>, x: T, y: T)
    ensures (x, y) in Converse(edges) <==> (y, x) in edges
  {
    if (y, x) in edges {
      assert ((y, x).1, (y, x).0) in Converse(edges);
    }
  }

  lemma {:induction false} WalkPrepends<T(!new)>(edges: set<(T, T)>, a: T, y: T, b: T, n: nat)
    requires (a, y) in edges && Walk(edges, y, b, n)
    ensures Walk(edges, a, b, n + 1)
  {
    if n == 0 {
      assert Walk(edges, a, a, 0);
    } else {
      var z :| Walk(edges, y, z, n - 1) && (z, b) in edges;
      WalkPrepends(edges, a, y, z, n - 1);
    }
  }

  lemma {:induction false} WalkReverses<T(!new)>(edges: set<(T, T)>, a: T, b: T, n: nat)
    requires Walk(edges, a, b, n)
    ensures Walk(Converse(edges), b, a, n)
  {
    if n > 0 {
      var y :| Walk(edges, a, y, n - 1) && (y, b) in edges;
      WalkReverses(edges, a, y, n - 1);
      assert (b, y) in Converse(edges);
      WalkPrepends(Converse(edges), b, y, a, n - 1);
    }
  }

  lemma ConverseTwice<T(!new)>(edges: set<(T, T)>)
    ensures Converse(Converse(edges)) == edges
  {
    forall e | e in edges ensures e in Converse(Converse(edges)) {
      assert (e.1, e.0) in Converse(edges);
    }
  }

  /** Reachability in the converse relation is reachability the other way. */
  lemma ReachesConverse<T(!new)>(edges: set<(T, T)>, a: T, b: T)
    ensures Reaches(Converse(edges), a, b) <==> Reaches(edges, b, a)
  {
    if n: nat :| Walk(edges, b, a, n) {
      WalkReverses(edges, b, a, n);
    }
    if n: nat :| Walk(Converse(edges), a, b, n) {
      WalkReverses(Converse(edges), a, b, n);
      ConverseTwice(edges);
    }
  }

  /** A set that holds a and is closed under the edges holds all that a reaches. */
  lemma {:induction false} ClosedHolds<T(!new)>(edges: set<(T, T)>, s: set<T>, a: T, b: T, n: nat)
    requires a in s && Walk(edges, a, b, n)
    requires forall e :: e in edges && e.0 in s ==> e.1 in s
    ensures b in s
  {
    if n > 0 {
      var y :| Walk(edges, a, y, n - 1) && (y, b) in edges;
      ClosedHolds(edges, s, a, y, n - 1);
    }
  }
}
