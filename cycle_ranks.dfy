/** `Profile._rank_cycle_function` (gprof2dot.py:625-672): the rank of a
    cycle member is the number of calls on a shortest chain of calls from
    the entry function to it inside the cycle. The source runs Dijkstra's
    algorithm with a heap; every call weighs 1, so a layer-by-layer
    breadth-first search computes the same ranks. */
module CycleRanks {
  import opened Graphs
  import opened Frontier

  /** `d` is the least number of edges on a path from `s` to `v`. */
  ghost predicate IsDistance(g: Graph, s: Vertex, v: Vertex, d: nat)
  {
    PathOf(g, s, v, d) && forall j: nat :: j < d ==> !PathOf(g, s, v, j)
  }

  lemma {:induction false} LeastDistance(g: Graph, s: Vertex, v: Vertex, n: nat) returns (d: nat)
    requires ReachesWithin(g, s, v, n)
    ensures d <= n && IsDistance(g, s, v, d)
    decreases n
  {
    if n > 0 && ReachesWithin(g, s, v, n - 1) {
      d := LeastDistance(g, s, v, n - 1);
    } else {
      var m: nat :| m <= n && PathOf(g, s, v, m);
      d := m;
      forall j: nat | j < d
        ensures !PathOf(g, s, v, j)
      {
        if PathOf(g, s, v, j) {
          assert ReachesWithin(g, s, v, n - 1);
        }
      }
    }
  }

  lemma DistanceExists(g: Graph, s: Vertex, v: Vertex)
    requires Reaches(g, s, v)
    ensures exists d: nat :: IsDistance(g, s, v, d)
  {
    var n: nat :| PathOf(g, s, v, n);
    var d := LeastDistance(g, s, v, n);
  }

  /** Shortest distances are unique. */
  lemma DistanceUnique(g: Graph, s: Vertex, v: Vertex, d1: nat, d2: nat)
    requires IsDistance(g, s, v, d1) && IsDistance(g, s, v, d2)
    ensures d1 == d2
  {
  }

  ghost function Distance(g: Graph, s: Vertex, v: Vertex): nat
    requires Reaches(g, s, v)
  {
    DistanceExists(g, s, v);
    var d: nat :| IsDistance(g, s, v, d);
    d
  }

  /** Everything `s` reaches lies in the universe of `g` and `s`. */
  lemma ReachedInUniverse(g: Graph, s: Vertex, v: Vertex)
    requires Reaches(g, s, v)
    ensures v in Universe(g, {s})
  {
    var n: nat :| PathOf(g, s, v, n);
    if n > 0 {
      var w := PathLast(g, s, v, n);
      assert v in Succ(g, w);
    }
  }

  /** The ranks of one search: every vertex `s` reaches, with its
      distance from `s`. */
  ghost function Distances(g: Graph, s: Vertex): map<Vertex, nat>
  {
    map v | v in Universe(g, {s}) && Reaches(g, s, v) :: Distance(g, s, v)
  }

  /** What `Distances` means: a vertex is ranked if and only if `s`
      reaches it, and its rank is its least distance from `s`; `s` itself
      has rank 0. */
  lemma DistancesMeaning(g: Graph, s: Vertex)
    ensures forall v :: v in Distances(g, s) <==> Reaches(g, s, v)
    ensures forall v :: v in Distances(g, s) ==> IsDistance(g, s, v, Distances(g, s)[v])
    ensures s in Distances(g, s) && Distances(g, s)[s] == 0
  {
    forall v | Reaches(g, s, v)
      ensures v in Distances(g, s)
    {
      ReachedInUniverse(g, s, v);
    }
    ReachesRefl(g, s);
    assert PathOf(g, s, s, 0);
    DistanceUnique(g, s, s, 0, Distances(g, s)[s]);
  }

  /** A ranked vertex `u` has its successors ranked, at most one deeper. */
  lemma DistancesClosed(g: Graph, s: Vertex, u: Vertex, v: Vertex)
    requires u in Distances(g, s) && v in Succ(g, u)
    ensures v in Distances(g, s) && Distances(g, s)[v] <= Distances(g, s)[u] + 1
  {
    DistancesMeaning(g, s);
    var du := Distances(g, s)[u];
    assert ReachesWithin(g, s, u, du);
    WithinAppend(g, s, u, v, du);
    var n: nat :| n <= du + 1 && PathOf(g, s, v, n);
    assert Reaches(g, s, v);
    var dv := Distances(g, s)[v];
    if dv > du + 1 {
      assert PathOf(g, s, v, n);
    }
  }

  /** A vertex of positive rank has a predecessor exactly one rank lower. */
  lemma DistancesParent(g: Graph, s: Vertex, v: Vertex) returns (u: Vertex)
    requires v in Distances(g, s) && Distances(g, s)[v] > 0
    ensures u in Distances(g, s) && v in Succ(g, u) && Distances(g, s)[u] + 1 == Distances(g, s)[v]
  {
    DistancesMeaning(g, s);
    var d := Distances(g, s)[v];
    u := PathLast(g, s, v, d);
    assert Reaches(g, s, u);
    var du := Distances(g, s)[u];
    if du < d - 1 {
      assert ReachesWithin(g, s, u, du);
      WithinAppend(g, s, u, v, du);
      assert false;
    }
  }

  /** A path can be cut after its first `k` edges. */
  lemma {:induction false} PathSplit(g: Graph, u: Vertex, v: Vertex, n: nat, k: nat) returns (w: Vertex)
    requires PathOf(g, u, v, n) && k <= n
    ensures PathOf(g, u, w, k) && PathOf(g, w, v, n - k)
    decreases k
  {
    if k == 0 {
      w := u;
    } else {
      var x :| x in Succ(g, u) && PathOf(g, x, v, n - 1);
      w := PathSplit(g, x, v, n - 1, k - 1);
      assert PathOf(g, u, w, k);
    }
  }

  /** What holds between the layers of the search: `ranks` holds exactly
      the vertices within `d` edges of `s`, each with its distance. */
  ghost predicate RankedWithin(g: Graph, s: Vertex, ranks: map<Vertex, nat>, d: nat)
  {
    && (forall v :: v in ranks ==> ReachesWithin(g, s, v, d) && IsDistance(g, s, v, ranks[v]))
    && (forall v :: ReachesWithin(g, s, v, d) ==> v in ranks)
  }

  /** `layer` holds the ranked vertices exactly `d` edges away. */
  ghost predicate IsLayer(ranks: map<Vertex, nat>, layer: set<Vertex>, d: nat)
  {
    forall v :: v in layer <==> v in ranks && ranks[v] == d
  }

  /** The ranks once `next` has been ranked at `d + 1`. */
  function Deeper(ranks: map<Vertex, nat>, next: set<Vertex>, d: nat): (r: map<Vertex, nat>)
    ensures r.Keys == ranks.Keys + next
    ensures forall v :: v in r ==> r[v] == if v in ranks then ranks[v] else d + 1
  {
    map v | v in ranks.Keys + next :: if v in ranks then ranks[v] else d + 1
  }

  /** A successor of the layer that is not ranked yet is exactly `d + 1`
      edges away. */
  lemma NextMember(g: Graph, s: Vertex, ranks: map<Vertex, nat>, layer: set<Vertex>, d: nat, u: Vertex, v: Vertex)
    requires RankedWithin(g, s, ranks, d) && IsLayer(ranks, layer, d)
    requires u in layer && v in Succ(g, u) && v !in ranks
    ensures ReachesWithin(g, s, v, d + 1) && IsDistance(g, s, v, d + 1)
  {
    assert ReachesWithin(g, s, u, d);
    WithinAppend(g, s, u, v, d);
    assert !ReachesWithin(g, s, v, d);
    forall j: nat | j < d + 1
      ensures !PathOf(g, s, v, j)
    {
      if PathOf(g, s, v, j) {
        assert ReachesWithin(g, s, v, d);
      }
    }
  }

  /** A vertex first reached within `d + 1` edges is a successor of the
      layer. */
  lemma NextComplete(g: Graph, s: Vertex, ranks: map<Vertex, nat>, layer: set<Vertex>, d: nat, v: Vertex) returns (u: Vertex)
    requires RankedWithin(g, s, ranks, d) && IsLayer(ranks, layer, d)
    requires ReachesWithin(g, s, v, d + 1) && v !in ranks
    ensures u in layer && v in Succ(g, u)
  {
    assert !ReachesWithin(g, s, v, d);
    var n: nat :| n <= d + 1 && PathOf(g, s, v, n);
    assert n == d + 1;
    u := PathLast(g, s, v, n);
    assert ReachesWithin(g, s, u, d);
    var du := ranks[u];
    if du < d {
      assert ReachesWithin(g, s, u, du);
      WithinAppend(g, s, u, v, du);
      assert false;
    }
    assert PathOf(g, s, u, d);
    assert du == d;
  }

  /** The successors of the layer not ranked yet are exactly the vertices
      whose distance is `d + 1`. */
  lemma NextLayer(g: Graph, s: Vertex, ranks: map<Vertex, nat>, layer: set<Vertex>, d: nat, next: set<Vertex>)
    requires RankedWithin(g, s, ranks, d) && IsLayer(ranks, layer, d)
    requires forall v :: v in next <==> v !in ranks && exists u :: u in layer && v in Succ(g, u)
    ensures RankedWithin(g, s, Deeper(ranks, next, d), d + 1)
    ensures IsLayer(Deeper(ranks, next, d), next, d + 1)
  {
    var ranks' := Deeper(ranks, next, d);
    forall v | v in ranks'
      ensures ReachesWithin(g, s, v, d + 1) && IsDistance(g, s, v, ranks'[v])
    {
      if v in ranks {
        var n: nat :| n <= d && PathOf(g, s, v, n);
      } else {
        var u :| u in layer && v in Succ(g, u);
        NextMember(g, s, ranks, layer, d, u, v);
      }
    }
    forall v | ReachesWithin(g, s, v, d + 1)
      ensures v in ranks'
    {
      if v !in ranks {
        var u := NextComplete(g, s, ranks, layer, d, v);
      }
    }
  }

  /** When a layer comes out empty, nothing further is reachable. */
  lemma LastLayer(g: Graph, s: Vertex, ranks: map<Vertex, nat>, d: nat)
    requires RankedWithin(g, s, ranks, d) && IsLayer(ranks, {}, d)
    ensures forall v :: v in ranks <==> Reaches(g, s, v)
  {
    forall v | Reaches(g, s, v)
      ensures v in ranks
    {
      var n: nat :| PathOf(g, s, v, n);
      var e := LeastDistance(g, s, v, n);
      if e > d {
        var w := PathSplit(g, s, v, e, d);
        assert ReachesWithin(g, s, w, d);
        var dw := ranks[w];
        if dw < d {
          PathConcat(g, s, w, v, dw, e - d);
          assert false;
        }
        assert false;
      }
    }
  }

  /** Adding a vertex of `u` to `a` leaves fewer vertices of `u` out. */
  lemma FewerLeft(u: set<Vertex>, a: set<Vertex>, b: set<Vertex>, v: Vertex)
    requires v in u && v in b && v !in a
    ensures |u - (a + b)| < |u - a|
  {
    Frontier.SubsetSmaller(u - (a + b), u - a, v);
  }

  /** One layer of the search keeps the invariant, and a non-empty layer
      ranks at least one more vertex of the universe. */
  lemma LayerStep(g: Graph, s: Vertex, ranks: map<Vertex, nat>, layer: set<Vertex>, d: nat, next: set<Vertex>)
    requires RankedWithin(g, s, ranks, d) && IsLayer(ranks, layer, d)
    requires forall v :: v in next <==> v !in ranks && exists u :: u in layer && v in Succ(g, u)
    ensures RankedWithin(g, s, Deeper(ranks, next, d), d + 1)
    ensures IsLayer(Deeper(ranks, next, d), next, d + 1)
    ensures next != {} ==> |Universe(g, {s}) - Deeper(ranks, next, d).Keys| < |Universe(g, {s}) - ranks.Keys|
    ensures next == {} ==> Deeper(ranks, next, d) == ranks
  {
    NextLayer(g, s, ranks, layer, d, next);
    if next != {} {
      var v :| v in next;
      assert ReachesWithin(g, s, v, d + 1);
      ReachedInUniverse(g, s, v);
      FewerLeft(Universe(g, {s}), ranks.Keys, next, v);
    }
  }

  /** The search starts with `s` alone, at rank 0. */
  lemma FirstLayer(g: Graph, s: Vertex)
    ensures RankedWithin(g, s, map[s := 0], 0) && IsLayer(map[s := 0], {s}, 0)
  {
    assert PathOf(g, s, s, 0);
    forall v | ReachesWithin(g, s, v, 0)
      ensures v == s
    {
      var n: nat :| n <= 0 && PathOf(g, s, v, n);
    }
  }

  /** Ranks that hold exactly the reachable vertices, each at its
      distance, are `Distances`. */
  lemma RanksAreDistances(g: Graph, s: Vertex, ranks: map<Vertex, nat>)
    requires forall v :: v in ranks <==> Reaches(g, s, v)
    requires forall v :: v in ranks ==> IsDistance(g, s, v, ranks[v])
    ensures ranks == Distances(g, s)
  {
    DistancesMeaning(g, s);
    assert ranks.Keys == Distances(g, s).Keys;
    forall v | v in ranks
      ensures ranks[v] == Distances(g, s)[v]
    {
      DistanceUnique(g, s, v, ranks[v], Distances(g, s)[v]);
    }
  }

  /** The successors of `layer` that `ranks` does not hold yet. */
  method Discover(g: Graph, layer: set<Vertex>, ranks: map<Vertex, nat>) returns (next: set<Vertex>)
    ensures forall v :: v in next <==> v !in ranks && exists u :: u in layer && v in Succ(g, u)
  {
    next := {};
    var todo := layer;
    while todo != {}
      invariant todo <= layer
      invariant forall v :: v in next <==> v !in ranks && exists u :: u in layer - todo && v in Succ(g, u)
      decreases todo
    {
      var u :| u in todo;
      var callees := Succ(g, u);
      while callees != {}
        invariant callees <= Succ(g, u)
        invariant forall v :: v in next <==>
          v !in ranks && ((exists x :: x in layer - todo && v in Succ(g, x)) || v in Succ(g, u) - callees)
        decreases callees
      {
        var v :| v in callees;
        if v !in ranks {
          next := next + {v};
        }
        callees := callees - {v};
      }
      todo := todo - {u};
    }
  }

  /** `_rank_cycle_function`: ranks every vertex `s` reaches by its least
      distance from `s`. */
  method RankCycleFunction(g: Graph, s: Vertex) returns (ranks: map<Vertex, nat>)
    ensures ranks == Distances(g, s)
  {
    ranks := map[s := 0];
    var layer := {s};
    var d := 0;
    FirstLayer(g, s);
    while layer != {}
      invariant RankedWithin(g, s, ranks, d) && IsLayer(ranks, layer, d)
      decreases |Universe(g, {s}) - ranks.Keys|, |layer|
    {
      var next := Discover(g, layer, ranks);
      LayerStep(g, s, ranks, layer, d, next);
      ranks := Deeper(ranks, next, d);
      layer := next;
      d := d + 1;
    }
    LastLayer(g, s, ranks, d);
    RanksAreDistances(g, s, ranks);
  }
}
