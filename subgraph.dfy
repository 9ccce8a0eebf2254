/** The pieces `prune_root` and `prune_leaf` (gprof2dot.py:350-399) share
    besides the frontier walk: restricting the profile to a set of kept
    functions, and the table of callers `prune_leaf` walks upwards. */
module Subgraphs {
  import opened Graphs
  import opened Entities
  import opened Frontier

  /** The functions of `keep`, each with only its calls to functions of
      `keep`. */
  ghost function Subgraph(fs: map<FunctionId, Function>, keep: set<FunctionId>): map<FunctionId, Function>
  {
    map n | n in fs && n in keep :: fs[n].(calls := RestrictCalls(fs[n].calls, keep))
  }

  /** A subgraph keeps ids, cycles and keyed calls, and every call it
      keeps joins two kept functions. */
  lemma SubgraphShape(fs: map<FunctionId, Function>, keep: set<FunctionId>, n: nat)
    requires WellKeyed(fs) && CyclesBelow(fs, n)
    ensures WellKeyed(Subgraph(fs, keep)) && CyclesBelow(Subgraph(fs, keep), n)
    ensures Subgraph(fs, keep).Keys == fs.Keys * keep
    ensures keep <= fs.Keys ==> Closed(Subgraph(fs, keep))
  {
  }

  /** The loop that rebuilds the profile's function table from the kept
      ids; every kept id must name a function. */
  method Subtree(fs: map<FunctionId, Function>, keep: set<FunctionId>) returns (r: map<FunctionId, Function>)
    requires keep <= fs.Keys
    ensures r == Subgraph(fs, keep)
  {
    r := map[];
    var todo := keep;
    while todo != {}
      invariant todo <= keep
      invariant r == map n | n in keep && n !in todo :: fs[n].(calls := RestrictCalls(fs[n].calls, keep))
      decreases todo
    {
      var n :| n in todo;
      var f := fs[n];
      var newCalls := KeepCalls(f.calls, keep);
      r := r[n := f.(calls := newCalls)];
      todo := todo - {n};
    }
  }

  /** The inner loop: a new call table with the calls to `keep` only. */
  method KeepCalls(calls: map<FunctionId, Call>, keep: set<FunctionId>) returns (r: map<FunctionId, Call>)
    ensures r == RestrictCalls(calls, keep)
  {
    r := map[];
    var todo := calls.Keys;
    while todo != {}
      invariant todo <= calls.Keys
      invariant r == map c | c in calls && c !in todo && c in keep :: calls[c]
      decreases todo
    {
      var c :| c in todo;
      if c in keep {
        r := r[c := calls[c]];
      }
      todo := todo - {c};
    }
  }

  /** `f` reaches one of `targets` along calls. */
  ghost predicate ReachesAny(g: Graph, f: Vertex, targets: set<Vertex>)
  {
    exists t :: t in targets && Reaches(g, f, t)
  }

  /** `f` reaches one of `targets` in at most `k` calls. */
  ghost predicate ReachesAnyWithin(g: Graph, f: Vertex, targets: set<Vertex>, k: nat)
  {
    exists t :: t in targets && ReachesWithin(g, f, t, k)
  }

  /** Walking the callers table up from `targets` finds exactly the
      functions that reach them down the call graph, within the same
      number of calls. */
  lemma ReverseReach(r: Graph, g: Graph, targets: set<Vertex>, f: Vertex, k: nat)
    requires IsReverse(r, g)
    ensures ReachableFrom(r, targets, f) <==> ReachesAny(g, f, targets)
    ensures WithinFrom(r, targets, f, k) <==> ReachesAnyWithin(g, f, targets, k)
  {
    if ReachableFrom(r, targets, f) {
      var t, n: nat :| t in targets && PathOf(r, t, f, n);
      ReversePath(r, g, t, f, n);
    }
    if ReachesAny(g, f, targets) {
      var t, n: nat :| t in targets && PathOf(g, f, t, n);
      ReversePath(r, g, t, f, n);
    }
    if WithinFrom(r, targets, f, k) {
      var t, n: nat :| t in targets && n <= k && PathOf(r, t, f, n);
      ReversePath(r, g, t, f, n);
    }
    if ReachesAnyWithin(g, f, targets, k) {
      var t, n: nat :| t in targets && n <= k && PathOf(g, f, t, n);
      ReversePath(r, g, t, f, n);
    }
  }

  /** With every call targeting a function, what the roots reach is
      made of functions. */
  lemma ReachedAreFunctions(fs: map<FunctionId, Function>, roots: set<FunctionId>, v: FunctionId)
    requires Closed(fs) && roots <= fs.Keys && ReachableFrom(CallGraph(fs), roots, v)
    ensures v in fs
  {
    ClosedHoldsReachable(CallGraph(fs), fs.Keys, roots, v);
  }

  /** `edgesUp`: for every callee, the functions calling it. */
  method CallersOf(fs: map<FunctionId, Function>) returns (up: Graph)
    ensures IsReverse(up, CallGraph(fs))
  {
    up := map[];
    var todo := fs.Keys;
    assert forall x :: Succ(up, x) == {};
    while todo != {}
      invariant todo <= fs.Keys
      invariant forall x, y :: y in Succ(up, x) <==> y in fs && y !in todo && x in fs[y].calls
      decreases todo
    {
      var f :| f in todo;
      up := AddCaller(up, f, fs[f].calls.Keys);
      todo := todo - {f};
    }
  }

  /** The inner loop of `edgesUp`: `f` joins the callers of each of its
      callees. */
  method AddCaller(up: Graph, f: Vertex, callees: set<Vertex>) returns (up': Graph)
    ensures forall x, y :: y in Succ(up', x) <==> y in Succ(up, x) || (y == f && x in callees)
  {
    up' := up;
    var todo := callees;
    while todo != {}
      invariant todo <= callees
      invariant forall x :: Succ(up', x) == Succ(up, x) + (if x in callees && x !in todo then {f} else {})
      decreases todo
    {
      var n :| n in todo;
      up' := up'[n := Succ(up', n) + {f}];
      todo := todo - {n};
    }
  }

  /** What `prune_root` promises about the ids `kept` it keeps: the roots
      and nothing new; for a non-zero depth the roots' direct callees;
      exactly the roots for depth 0 and the roots plus their callees for
      depth 1; exactly what the roots reach for a negative depth, and
      otherwise nothing more than `depth` calls away. */
  ghost predicate RootPruned(fs: map<FunctionId, Function>, roots: set<FunctionId>, depth: int, kept: set<FunctionId>)
    requires roots <= fs.Keys
  {
    && roots <= kept <= fs.Keys
    && (depth != 0 ==> forall r, k :: r in roots && k in fs[r].calls ==> k in kept)
    && (depth == 0 ==> kept == roots)
    && (depth == 1 ==> forall f :: f in kept <==> f in roots || exists r :: r in roots && f in fs[r].calls)
    && (depth < 0 ==> forall f :: f in kept <==> ReachableFrom(CallGraph(fs), roots, f))
    && (depth >= 0 ==> forall f :: f in kept ==> WithinFrom(CallGraph(fs), roots, f, depth))
  }

  /** `prune_root` on the function table: the walk down the calls from
      the roots, then the subgraph of what it visited. */
  method RootSubgraph(fs: map<FunctionId, Function>, roots: set<FunctionId>, depth: int) returns (r: map<FunctionId, Function>)
    requires Closed(fs) && roots <= fs.Keys
    ensures r == Subgraph(fs, r.Keys)
    ensures RootPruned(fs, roots, depth, r.Keys)
  {
    var visited := Expand(CallGraph(fs), roots, depth);
    DownwardWalk(fs, roots, depth, visited);
    r := Subtree(fs, visited);
  }

  lemma DownwardWalk(fs: map<FunctionId, Function>, roots: set<FunctionId>, depth: int, visited: set<FunctionId>)
    requires Closed(fs) && roots <= fs.Keys
    requires roots <= visited
    requires depth != 0 ==> forall s, v :: s in roots && v in Succ(CallGraph(fs), s) ==> v in visited
    requires depth < 0 ==> forall v :: v in visited <==> ReachableFrom(CallGraph(fs), roots, v)
    requires depth >= 0 ==> forall v :: v in visited ==> WithinFrom(CallGraph(fs), roots, v, depth)
    requires depth == 0 ==> visited == roots
    requires depth == 1 ==> forall v :: v in visited <==> v in roots || exists s :: s in roots && v in Succ(CallGraph(fs), s)
    ensures RootPruned(fs, roots, depth, visited)
    ensures Subgraph(fs, visited).Keys == visited
  {
    VisitedAreFunctions(fs, roots, depth, visited);
    CalleesAreSuccessors(fs, roots);
  }

  lemma CalleesAreSuccessors(fs: map<FunctionId, Function>, roots: set<FunctionId>)
    requires roots <= fs.Keys
    ensures forall r, k :: r in roots ==> (k in fs[r].calls <==> k in Succ(CallGraph(fs), r))
  {
  }

  lemma VisitedAreFunctions(fs: map<FunctionId, Function>, roots: set<FunctionId>, depth: int, visited: set<FunctionId>)
    requires Closed(fs) && roots <= fs.Keys
    requires depth < 0 ==> forall v :: v in visited <==> ReachableFrom(CallGraph(fs), roots, v)
    requires depth >= 0 ==> forall v :: v in visited ==> WithinFrom(CallGraph(fs), roots, v, depth)
    ensures visited <= fs.Keys
  {
    forall v | v in visited
      ensures v in fs
    {
      if depth >= 0 {
        WithinReachable(CallGraph(fs), roots, v, depth);
      }
      ReachedAreFunctions(fs, roots, v);
    }
  }

  /** What `prune_leaf` promises about the ids `kept` it keeps: the leaves
      that are functions and nothing new; for a non-zero depth every
      direct caller of a leaf; exactly the functions that reach a leaf for
      a negative depth, and otherwise only functions that reach one within
      `depth` calls. */
  ghost predicate LeafPruned(fs: map<FunctionId, Function>, leafs: set<FunctionId>, depth: int, kept: set<FunctionId>)
  {
    && leafs * fs.Keys <= kept <= fs.Keys
    && (depth != 0 ==> forall f, l :: f in fs && l in leafs && l in fs[f].calls ==> f in kept)
    && (depth < 0 ==> forall f :: f in kept <==> f in fs && ReachesAny(CallGraph(fs), f, leafs))
    && (depth >= 0 ==> forall f :: f in kept ==> ReachesAnyWithin(CallGraph(fs), f, leafs, depth))
  }

  /** `prune_leaf` on the function table: the walk up the callers from
      the leaves, then the subgraph of the visited functions. */
  method LeafSubgraph(fs: map<FunctionId, Function>, leafs: set<FunctionId>, depth: int) returns (r: map<FunctionId, Function>)
    ensures r == Subgraph(fs, r.Keys)
    ensures LeafPruned(fs, leafs, depth, r.Keys)
  {
    var up := CallersOf(fs);
    var visited := Expand(up, leafs, depth);
    var path := fs.Keys * visited;
    UpwardWalk(fs, up, leafs, depth, visited);
    r := Subtree(fs, path);
    assert r.Keys == path;
  }

  lemma UpwardWalk(fs: map<FunctionId, Function>, up: Graph, leafs: set<FunctionId>, depth: int, visited: set<FunctionId>)
    requires IsReverse(up, CallGraph(fs))
    requires leafs <= visited
    requires depth != 0 ==> forall s, v :: s in leafs && v in Succ(up, s) ==> v in visited
    requires depth < 0 ==> forall v :: v in visited <==> ReachableFrom(up, leafs, v)
    requires depth >= 0 ==> forall v :: v in visited ==> WithinFrom(up, leafs, v, depth)
    ensures LeafPruned(fs, leafs, depth, fs.Keys * visited)
  {
    if depth < 0 {
      UnboundedUp(fs, up, leafs, visited);
    } else {
      BoundedUp(fs, up, leafs, depth, visited);
    }
    if depth != 0 {
      forall f, l | f in fs && l in leafs && l in fs[f].calls
        ensures f in visited
      {
        assert l in Succ(CallGraph(fs), f);
        assert f in Succ(up, l);
      }
    }
  }

  lemma UnboundedUp(fs: map<FunctionId, Function>, up: Graph, leafs: set<FunctionId>, visited: set<FunctionId>)
    requires IsReverse(up, CallGraph(fs))
    requires forall v :: v in visited <==> ReachableFrom(up, leafs, v)
    ensures forall f :: f in fs.Keys * visited <==> f in fs && ReachesAny(CallGraph(fs), f, leafs)
  {
    forall f
      ensures ReachableFrom(up, leafs, f) <==> ReachesAny(CallGraph(fs), f, leafs)
    {
      ReverseReach(up, CallGraph(fs), leafs, f, 0);
    }
  }

  lemma BoundedUp(fs: map<FunctionId, Function>, up: Graph, leafs: set<FunctionId>, depth: nat, visited: set<FunctionId>)
    requires IsReverse(up, CallGraph(fs))
    requires forall v :: v in visited ==> WithinFrom(up, leafs, v, depth)
    ensures forall f :: f in fs.Keys * visited ==> ReachesAnyWithin(CallGraph(fs), f, leafs, depth)
  {
    forall f | f in visited
      ensures ReachesAnyWithin(CallGraph(fs), f, leafs, depth)
    {
      ReverseReach(up, CallGraph(fs), leafs, f, depth);
    }
  }
}
