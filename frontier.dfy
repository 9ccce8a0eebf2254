/** The frontier walk shared by `prune_root` and `prune_leaf`
    (gprof2dot.py:350-399): a set of (node, remaining depth) pairs is
    drained in any order, each popped node is visited, and unless its
    remaining depth is 0 its not yet visited successors join the frontier
    with one less depth. A negative depth never reaches 0, so it means "no
    limit". */
module Frontier {
  import opened Graphs

  /** `v` is at most `k` edges away from one of `starts`. */
  ghost predicate WithinFrom(g: Graph, starts: set<Vertex>, v: Vertex, k: nat)
  {
    exists s :: s in starts && ReachesWithin(g, s, v, k)
  }

  /** Every vertex named by `g` or `starts`: the walk never leaves it. */
  ghost function Universe(g: Graph, starts: set<Vertex>): set<Vertex>
  {
    starts + g.Keys + (set u, v | u in g && v in g[u] :: v)
  }

  function FrontierNodes(frontier: set<(Vertex, int)>): set<Vertex>
  {
    set p | p in frontier :: p.0
  }

  /** The pairs of the frontier whose node has already been visited. */
  function Revisits(frontier: set<(Vertex, int)>, visited: set<Vertex>): set<(Vertex, int)>
  {
    set p | p in frontier && p.0 in visited
  }

  /** The walk stays inside the universe, and remaining depths stay
      negative for an unlimited walk, else in [0, depth]. */
  ghost predicate WalkBounded(g: Graph, starts: set<Vertex>, depth: int, frontier: set<(Vertex, int)>, visited: set<Vertex>)
  {
    && visited <= Universe(g, starts)
    && (forall p :: p in frontier ==> p.0 in Universe(g, starts))
    && (forall p :: p in frontier ==> if depth < 0 then p.1 < 0 else 0 <= p.1 <= depth)
  }

  /** Every start is still to come at full depth, or has been visited and
      (for a non-zero depth) expanded. */
  ghost predicate WalkStarts(g: Graph, starts: set<Vertex>, depth: int, frontier: set<(Vertex, int)>, visited: set<Vertex>)
  {
    forall s :: s in starts ==>
      (s, depth) in frontier || (s in visited && (depth != 0 ==> Succ(g, s) <= visited + FrontierNodes(frontier)))
  }

  /** Nothing on the frontier or visited is further than allowed. */
  ghost predicate WalkSound(g: Graph, starts: set<Vertex>, depth: int, frontier: set<(Vertex, int)>, visited: set<Vertex>)
  {
    && (forall p :: p in frontier ==>
          if depth < 0 then ReachableFrom(g, starts, p.0) else 0 <= depth - p.1 && WithinFrom(g, starts, p.0, depth - p.1))
    && (forall v :: v in visited ==>
          if depth < 0 then ReachableFrom(g, starts, v) else WithinFrom(g, starts, v, depth))
  }

  /** An unlimited walk expands everything it visits. */
  ghost predicate WalkClosed(g: Graph, depth: int, frontier: set<(Vertex, int)>, visited: set<Vertex>)
  {
    depth < 0 ==> forall v :: v in visited ==> Succ(g, v) <= visited + FrontierNodes(frontier)
  }

  /** What holds of the walk before and after every step. */
  ghost predicate WalkInv(g: Graph, starts: set<Vertex>, depth: int, frontier: set<(Vertex, int)>, visited: set<Vertex>)
  {
    && WalkBounded(g, starts, depth, frontier, visited)
    && WalkStarts(g, starts, depth, frontier, visited)
    && WalkSound(g, starts, depth, frontier, visited)
    && WalkClosed(g, depth, frontier, visited)
  }

  lemma WithinMono(g: Graph, starts: set<Vertex>, v: Vertex, k: nat, m: nat)
    requires WithinFrom(g, starts, v, k) && k <= m
    ensures WithinFrom(g, starts, v, m)
  {
    var s :| s in starts && ReachesWithin(g, s, v, k);
    assert ReachesWithin(g, s, v, m);
  }

  lemma WithinStep(g: Graph, starts: set<Vertex>, u: Vertex, v: Vertex, k: nat)
    requires WithinFrom(g, starts, u, k) && v in Succ(g, u)
    ensures WithinFrom(g, starts, v, k + 1)
  {
    var s :| s in starts && ReachesWithin(g, s, u, k);
    WithinAppend(g, s, u, v, k);
  }

  lemma ReachableStep(g: Graph, starts: set<Vertex>, u: Vertex, v: Vertex)
    requires ReachableFrom(g, starts, u) && v in Succ(g, u)
    ensures ReachableFrom(g, starts, v)
  {
    var s :| s in starts && Reaches(g, s, u);
    ReachesEdge(g, u, v);
    ReachesTrans(g, s, u, v);
  }

  lemma WithinReachable(g: Graph, starts: set<Vertex>, v: Vertex, k: nat)
    requires WithinFrom(g, starts, v, k)
    ensures ReachableFrom(g, starts, v)
  {
    var s :| s in starts && ReachesWithin(g, s, v, k);
  }

  /** Within one edge: the start itself or one of its successors. */
  lemma WithinOne(g: Graph, starts: set<Vertex>, v: Vertex)
    requires WithinFrom(g, starts, v, 1)
    ensures v in starts || exists s :: s in starts && v in Succ(g, s)
  {
    var s :| s in starts && ReachesWithin(g, s, v, 1);
    var n: nat :| n <= 1 && PathOf(g, s, v, n);
    if n == 1 {
      var w :| w in Succ(g, s) && PathOf(g, w, v, 0);
    }
  }

  /** Within no edge: a start itself. */
  lemma WithinZero(g: Graph, starts: set<Vertex>, v: Vertex)
    requires WithinFrom(g, starts, v, 0)
    ensures v in starts
  {
    var s :| s in starts && ReachesWithin(g, s, v, 0);
    var n: nat :| n <= 0 && PathOf(g, s, v, n);
  }

  lemma StartsWithin(g: Graph, starts: set<Vertex>, s: Vertex)
    requires s in starts
    ensures WithinFrom(g, starts, s, 0)
  {
    assert PathOf(g, s, s, 0);
  }

  lemma SuccInUniverse(g: Graph, starts: set<Vertex>, u: Vertex, v: Vertex)
    requires v in Succ(g, u)
    ensures v in Universe(g, starts)
  {
  }

  /** The walk starts with every start at full depth. */
  lemma InitInv(g: Graph, starts: set<Vertex>, depth: int)
    ensures WalkInv(g, starts, depth, set s | s in starts :: (s, depth), {})
  {
    var frontier := set s | s in starts :: (s, depth);
    forall p | p in frontier
      ensures if depth < 0 then ReachableFrom(g, starts, p.0) else WithinFrom(g, starts, p.0, depth - p.1)
    {
      StartsWithin(g, starts, p.0);
      WithinReachable(g, starts, p.0, 0);
    }
  }

  /** The nodes `nodes`, each paired with the depth `d` left to them. */
  function Queued(nodes: set<Vertex>, d: int): set<(Vertex, int)>
  {
    set n | n in nodes :: (n, d)
  }

  /** One step of the walk: `p` leaves the frontier, its node is visited
      and, unless its depth is spent, its unvisited successors come in. */
  function Step(g: Graph, frontier: set<(Vertex, int)>, visited: set<Vertex>, p: (Vertex, int)): (set<(Vertex, int)>, set<Vertex>)
  {
    var visited' := visited + {p.0};
    if p.1 == 0 then (frontier - {p}, visited')
    else (frontier - {p} + Queued(Succ(g, p.0) - visited', p.1 - 1), visited')
  }

  /** A node the step removes from the frontier is visited, and a node
      whose depth is not spent has its successors visited or queued. */
  lemma StepNodes(g: Graph, frontier: set<(Vertex, int)>, visited: set<Vertex>, p: (Vertex, int))
    requires p in frontier
    ensures FrontierNodes(frontier) + visited <= FrontierNodes(Step(g, frontier, visited, p).0) + Step(g, frontier, visited, p).1
    ensures visited <= Step(g, frontier, visited, p).1
    ensures p.1 != 0 ==> Succ(g, p.0) <= Step(g, frontier, visited, p).1 + FrontierNodes(Step(g, frontier, visited, p).0)
  {
    var (frontier', visited') := Step(g, frontier, visited, p);
    forall q | q in frontier
      ensures q.0 in FrontierNodes(frontier') + visited'
    {
      if q != p {
        assert q in frontier';
      }
    }
    if p.1 != 0 {
      var added := Queued(Succ(g, p.0) - visited', p.1 - 1);
      assert frontier' == frontier - {p} + added;
      forall n | n in Succ(g, p.0) && n !in visited'
        ensures n in FrontierNodes(frontier')
      {
        assert n in Succ(g, p.0) - visited';
        assert (n, p.1 - 1) in added;
        assert (n, p.1 - 1) in frontier';
      }
    }
  }

  /** A pair the step adds is a successor of the popped node, one level
      deeper. */
  lemma StepAdded(g: Graph, frontier: set<(Vertex, int)>, visited: set<Vertex>, p: (Vertex, int), q: (Vertex, int))
    requires q in Step(g, frontier, visited, p).0 && q !in frontier
    ensures p.1 != 0 && q.0 in Succ(g, p.0) && q.1 == p.1 - 1
  {
  }

  lemma StepBounded(g: Graph, starts: set<Vertex>, depth: int, frontier: set<(Vertex, int)>, visited: set<Vertex>, p: (Vertex, int))
    requires WalkBounded(g, starts, depth, frontier, visited) && p in frontier
    ensures WalkBounded(g, starts, depth, Step(g, frontier, visited, p).0, Step(g, frontier, visited, p).1)
  {
    var (frontier', visited') := Step(g, frontier, visited, p);
    forall q | q in frontier' && q !in frontier
      ensures q.0 in Universe(g, starts)
      ensures if depth < 0 then q.1 < 0 else 0 <= q.1 <= depth
    {
      StepAdded(g, frontier, visited, p, q);
      SuccInUniverse(g, starts, p.0, q.0);
    }
  }

  lemma StepStarts(g: Graph, starts: set<Vertex>, depth: int, frontier: set<(Vertex, int)>, visited: set<Vertex>, p: (Vertex, int))
    requires WalkStarts(g, starts, depth, frontier, visited) && p in frontier && p.1 == depth
    ensures WalkStarts(g, starts, depth, Step(g, frontier, visited, p).0, Step(g, frontier, visited, p).1)
  {
    StepNodes(g, frontier, visited, p);
  }

  lemma StepStartsOther(g: Graph, starts: set<Vertex>, depth: int, frontier: set<(Vertex, int)>, visited: set<Vertex>, p: (Vertex, int))
    requires WalkStarts(g, starts, depth, frontier, visited) && p in frontier && p.1 != depth
    ensures WalkStarts(g, starts, depth, Step(g, frontier, visited, p).0, Step(g, frontier, visited, p).1)
  {
    StepNodes(g, frontier, visited, p);
    var (frontier', visited') := Step(g, frontier, visited, p);
    forall s | s in starts && (s, depth) in frontier
      ensures (s, depth) in frontier'
    {
    }
  }

  lemma StepSound(g: Graph, starts: set<Vertex>, depth: int, frontier: set<(Vertex, int)>, visited: set<Vertex>, p: (Vertex, int))
    requires WalkBounded(g, starts, depth, frontier, visited)
    requires WalkSound(g, starts, depth, frontier, visited) && p in frontier
    ensures WalkSound(g, starts, depth, Step(g, frontier, visited, p).0, Step(g, frontier, visited, p).1)
  {
    var (frontier', visited') := Step(g, frontier, visited, p);
    forall q | q in frontier' && q !in frontier
      ensures if depth < 0 then ReachableFrom(g, starts, q.0) else 0 <= depth - q.1 && WithinFrom(g, starts, q.0, depth - q.1)
    {
      StepAdded(g, frontier, visited, p, q);
      if depth < 0 {
        ReachableStep(g, starts, p.0, q.0);
      } else {
        WithinStep(g, starts, p.0, q.0, depth - p.1);
      }
    }
    if depth >= 0 {
      WithinMono(g, starts, p.0, depth - p.1, depth);
    }
  }

  lemma StepClosed(g: Graph, depth: int, frontier: set<(Vertex, int)>, visited: set<Vertex>, p: (Vertex, int))
    requires WalkClosed(g, depth, frontier, visited) && p in frontier
    requires depth < 0 ==> p.1 < 0
    ensures WalkClosed(g, depth, Step(g, frontier, visited, p).0, Step(g, frontier, visited, p).1)
  {
    StepNodes(g, frontier, visited, p);
  }

  lemma StepKeepsInv(g: Graph, starts: set<Vertex>, depth: int, frontier: set<(Vertex, int)>,
                     visited: set<Vertex>, p: (Vertex, int))
    requires WalkInv(g, starts, depth, frontier, visited) && p in frontier
    ensures WalkInv(g, starts, depth, Step(g, frontier, visited, p).0, Step(g, frontier, visited, p).1)
  {
    StepBounded(g, starts, depth, frontier, visited, p);
    if p.1 == depth {
      StepStarts(g, starts, depth, frontier, visited, p);
    } else {
      StepStartsOther(g, starts, depth, frontier, visited, p);
    }
    StepSound(g, starts, depth, frontier, visited, p);
    StepClosed(g, depth, frontier, visited, p);
  }

  /** What an empty frontier leaves: the promises of `Expand`. */
  lemma WalkDone(g: Graph, starts: set<Vertex>, depth: int, visited: set<Vertex>)
    requires WalkInv(g, starts, depth, {}, visited)
    ensures starts <= visited
    ensures depth != 0 ==> forall s, v :: s in starts && v in Succ(g, s) ==> v in visited
    ensures depth < 0 ==> forall v :: v in visited <==> ReachableFrom(g, starts, v)
    ensures depth >= 0 ==> forall v :: v in visited ==> WithinFrom(g, starts, v, depth)
    ensures depth == 0 ==> visited == starts
    ensures depth == 1 ==> forall v :: v in visited <==> v in starts || exists s :: s in starts && v in Succ(g, s)
  {
    assert FrontierNodes({}) == {};
    if depth == 0 {
      forall v | v in visited
        ensures v in starts
      {
        WithinZero(g, starts, v);
      }
    }
    if depth == 1 {
      forall v | v in visited
        ensures v in starts || exists s :: s in starts && v in Succ(g, s)
      {
        WithinOne(g, starts, v);
      }
    }
    if depth < 0 {
      forall v | ReachableFrom(g, starts, v)
        ensures v in visited
      {
        ClosedHoldsReachable(g, visited, starts, v);
      }
    }
  }

  /** The frontier loop. Every start is visited; for any non-zero depth so
      is every direct successor of a start; with a negative depth the walk
      visits exactly what the starts reach, and otherwise nothing further
      than `depth` edges from a start. */
  method Expand(g: Graph, starts: set<Vertex>, depth: int) returns (visited: set<Vertex>)
    ensures starts <= visited
    ensures depth != 0 ==> forall s, v :: s in starts && v in Succ(g, s) ==> v in visited
    ensures depth < 0 ==> forall v :: v in visited <==> ReachableFrom(g, starts, v)
    ensures depth >= 0 ==> forall v :: v in visited ==> WithinFrom(g, starts, v, depth)
    ensures depth == 0 ==> visited == starts
    ensures depth == 1 ==> forall v :: v in visited <==> v in starts || exists s :: s in starts && v in Succ(g, s)
  {
    var frontier := set s | s in starts :: (s, depth);
    visited := {};
    InitInv(g, starts, depth);
    while frontier != {}
      invariant WalkInv(g, starts, depth, frontier, visited)
      decreases |Universe(g, starts) - visited|, |Revisits(frontier, visited)|
    {
      var p :| p in frontier;
      StepKeepsInv(g, starts, depth, frontier, visited, p);
      StepDecreases(g, starts, depth, frontier, visited, p);
      frontier, visited := Visit(g, frontier, visited, p);
    }
    WalkDone(g, starts, depth, visited);
  }

  /** The body of the frontier loop: pop `p`, mark its node visited and,
      unless its depth is spent, queue its unvisited successors. */
  method Visit(g: Graph, frontier: set<(Vertex, int)>, visited: set<Vertex>, p: (Vertex, int))
    returns (frontier': set<(Vertex, int)>, visited': set<Vertex>)
    ensures (frontier', visited') == Step(g, frontier, visited, p)
  {
    var (node, nodeDepth) := p;
    frontier' := frontier - {p};
    visited' := visited + {node};
    if nodeDepth != 0 {
      var newNodes := Succ(g, node) - visited';
      frontier' := frontier' + Queued(newNodes, nodeDepth - 1);
    }
  }

  /** The walk's termination measure goes down at every step. */
  lemma StepDecreases(g: Graph, starts: set<Vertex>, depth: int, frontier: set<(Vertex, int)>, visited: set<Vertex>, p: (Vertex, int))
    requires WalkInv(g, starts, depth, frontier, visited) && p in frontier
    ensures
      || |Universe(g, starts) - Step(g, frontier, visited, p).1| < |Universe(g, starts) - visited|
      || (&& |Universe(g, starts) - Step(g, frontier, visited, p).1| == |Universe(g, starts) - visited|
          && |Revisits(Step(g, frontier, visited, p).0, Step(g, frontier, visited, p).1)| < |Revisits(frontier, visited)|)
  {
    if p.0 !in visited {
      FirstVisit(Universe(g, starts), visited, p.0);
    } else {
      Revisit(g, frontier, visited, p);
    }
  }

  lemma FirstVisit(u: set<Vertex>, visited: set<Vertex>, v: Vertex)
    requires v in u && v !in visited
    ensures |u - (visited + {v})| < |u - visited|
  {
    assert u - (visited + {v}) == (u - visited) - {v};
  }

  lemma Revisit(g: Graph, frontier: set<(Vertex, int)>, visited: set<Vertex>, p: (Vertex, int))
    requires p in frontier && p.0 in visited
    ensures Step(g, frontier, visited, p).1 == visited
    ensures |Revisits(Step(g, frontier, visited, p).0, visited)| < |Revisits(frontier, visited)|
  {
    var frontier' := Step(g, frontier, visited, p).0;
    assert Step(g, frontier, visited, p).1 == visited;
    forall q | q in Revisits(frontier', visited)
      ensures q in Revisits(frontier, visited) - {p}
    {
      if q !in frontier {
        StepAdded(g, frontier, visited, p, q);
      }
    }
    SubsetSmaller(Revisits(frontier', visited), Revisits(frontier, visited), p);
  }

  lemma SubsetSmaller<T>(a: set<T>, b: set<T>, x: T)
    requires a <= b - {x} && x in b
    ensures |a| < |b|
  {
    SubsetNoLarger(a, b - {x});
  }

  lemma {:induction false} SubsetNoLarger<T>(a: set<T>, b: set<T>)
    requires a <= b
    ensures |a| <= |b|
    decreases a
  {
    if a != {} {
      var x :| x in a;
      SubsetNoLarger(a - {x}, b - {x});
    }
  }
}
