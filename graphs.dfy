/** Paths and reachability in a directed graph given as successor sets. */
module Graphs {

  type Vertex = nat

  type Graph = map<Vertex, set<Vertex>>

  function Succ(g: Graph, u: Vertex): set<Vertex>
  {
    if u in g then g[u] else {}
  }

  /** There is a path of exactly `n` edges from `u` to `v`. */
  ghost predicate PathOf(g: Graph, u: Vertex, v: Vertex, n: nat)
    decreases n
  {
    if n == 0 then u == v
    else exists w :: w in Succ(g, u) && PathOf(g, w, v, n - 1)
  }

  ghost predicate Reaches(g: Graph, u: Vertex, v: Vertex)
  {
    exists n: nat :: PathOf(g, u, v, n)
  }

  ghost predicate ReachesWithin(g: Graph, u: Vertex, v: Vertex, d: nat)
  {
    exists n: nat :: n <= d && PathOf(g, u, v, n)
  }

  /** `v` can be reached from some vertex of `roots`. */
  ghost predicate ReachableFrom(g: Graph, roots: set<Vertex>, v: Vertex)
  {
    exists r :: r in roots && Reaches(g, r, v)
  }

  /** No edge leaves `s`. */
  ghost predicate ClosedUnder(g: Graph, s: set<Vertex>)
  {
    forall u, v :: u in s && v in Succ(g, u) ==> v in s
  }

  lemma ReachesRefl(g: Graph, u: Vertex)
    ensures Reaches(g, u, u)
  {
    assert PathOf(g, u, u, 0);
  }

  lemma ReachesEdge(g: Graph, u: Vertex, v: Vertex)
    requires v in Succ(g, u)
    ensures Reaches(g, u, v)
  {
    assert PathOf(g, v, v, 0);
    assert PathOf(g, u, v, 1);
  }

  lemma {:induction false} PathConcat(g: Graph, u: Vertex, w: Vertex, v: Vertex, n: nat, m: nat)
    requires PathOf(g, u, w, n) && PathOf(g, w, v, m)
    ensures PathOf(g, u, v, n + m)
    decreases n
  {
    if n > 0 {
      var x :| x in Succ(g, u) && PathOf(g, x, w, n - 1);
      PathConcat(g, x, w, v, n - 1, m);
    }
  }

  lemma ReachesTrans(g: Graph, u: Vertex, w: Vertex, v: Vertex)
    requires Reaches(g, u, w) && Reaches(g, w, v)
    ensures Reaches(g, u, v)
  {
    var n: nat :| PathOf(g, u, w, n);
    var m: nat :| PathOf(g, w, v, m);
    PathConcat(g, u, w, v, n, m);
  }

  /** Prepending an edge to a path. */
  lemma ReachesStep(g: Graph, u: Vertex, w: Vertex, v: Vertex)
    requires w in Succ(g, u) && Reaches(g, w, v)
    ensures Reaches(g, u, v)
  {
    ReachesEdge(g, u, w);
    ReachesTrans(g, u, w, v);
  }

  /** Appending an edge to a path of bounded length. */
  lemma WithinAppend(g: Graph, u: Vertex, w: Vertex, v: Vertex, d: nat)
    requires ReachesWithin(g, u, w, d) && v in Succ(g, w)
    ensures ReachesWithin(g, u, v, d + 1)
  {
    var n: nat :| n <= d && PathOf(g, u, w, n);
    assert PathOf(g, v, v, 0);
    assert PathOf(g, w, v, 1);
    PathConcat(g, u, w, v, n, 1);
  }

  /** A set that holds `u` and is closed under the edges holds everything
      reachable from `u`. */
  lemma {:induction false} ClosedHoldsPaths(g: Graph, s: set<Vertex>, u: Vertex, v: Vertex, n: nat)
    requires ClosedUnder(g, s) && u in s && PathOf(g, u, v, n)
    ensures v in s
    decreases n
  {
    if n > 0 {
      var w :| w in Succ(g, u) && PathOf(g, w, v, n - 1);
      ClosedHoldsPaths(g, s, w, v, n - 1);
    }
  }

  lemma ClosedHoldsReachable(g: Graph, s: set<Vertex>, roots: set<Vertex>, v: Vertex)
    requires ClosedUnder(g, s) && roots <= s && ReachableFrom(g, roots, v)
    ensures v in s
  {
    var r :| r in roots && Reaches(g, r, v);
    var n: nat :| PathOf(g, r, v, n);
    ClosedHoldsPaths(g, s, r, v, n);
  }
  /** `r` has exactly the edges of `g`, reversed. */
  ghost predicate IsReverse(r: Graph, g: Graph)
  {
    forall x, y :: y in Succ(r, x) <==> x in Succ(g, y)
  }

  /** A path in the reversed graph is a path of the same length, walked
      backwards, in the original graph. */
  lemma {:induction false} ReversePath(r: Graph, g: Graph, u: Vertex, v: Vertex, n: nat)
    requires IsReverse(r, g)
    ensures PathOf(r, u, v, n) <==> PathOf(g, v, u, n)
    decreases n
  {
    if n > 0 {
      if PathOf(r, u, v, n) {
        var w :| w in Succ(r, u) && PathOf(r, w, v, n - 1);
        ReversePath(r, g, w, v, n - 1);
        assert u in Succ(g, w);
        assert PathOf(g, u, u, 0);
        assert PathOf(g, w, u, 1);
        PathConcat(g, v, w, u, n - 1, 1);
      }
      if PathOf(g, v, u, n) {
        var w := PathLast(g, v, u, n);
        ReversePath(r, g, w, v, n - 1);
        assert w in Succ(r, u);
      }
    }
  }

  /** The last vertex before `v` on a path of `n > 0` edges. */
  lemma {:induction false} PathLast(g: Graph, u: Vertex, v: Vertex, n: nat) returns (w: Vertex)
    requires n > 0 && PathOf(g, u, v, n)
    ensures PathOf(g, u, w, n - 1) && v in Succ(g, w)
    decreases n
  {
    var x :| x in Succ(g, u) && PathOf(g, x, v, n - 1);
    if n == 1 {
      w := u;
    } else {
      w := PathLast(g, x, v, n - 1);
      assert PathOf(g, u, w, n - 1);
    }
  }
}
