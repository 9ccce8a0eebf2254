/** What `Profile.prune` (gprof2dot.py:733-792) leaves behind, one step at
    a time: weights, node threshold, path filter, edge threshold and the
    optional self-time colouring. */
module Pruning {
  import opened Wrappers
  import opened Events
  import opened Entities

  /** A Python string is true when it is not empty. */
  predicate Truthy(s: Option<string>)
  {
    s.Some? && s.value != ""
  }

  /** `s.find(p) > -1`: `p` occurs somewhere in `s`. */
  predicate Contains(s: string, p: string)
    decreases |s|
  {
    p <= s || (s != [] && Contains(s[1..], p))
  }

  /** `p` occurs in `s` at offset `i`. */
  predicate OccursAt(s: string, p: string, i: int)
  {
    0 <= i && i + |p| <= |s| && s[i..i + |p|] == p
  }

  /** `Contains` is the usual substring test: `p` occurs at some offset. */
  lemma {:induction false} ContainsAt(s: string, p: string)
    ensures Contains(s, p) <==> exists i :: OccursAt(s, p, i)
  {
    if p <= s {
      assert OccursAt(s, p, 0);
    } else if s != [] {
      ContainsAt(s[1..], p);
      if Contains(s[1..], p) {
        var i :| OccursAt(s[1..], p, i);
        assert s[1..][i..i + |p|] == s[i + 1..i + 1 + |p|];
        assert OccursAt(s, p, i + 1);
      }
      if exists i :: OccursAt(s, p, i) {
        var i :| OccursAt(s, p, i);
        assert i != 0;
        assert s[1..][i - 1..i - 1 + |p|] == s[i..i + |p|];
        assert OccursAt(s[1..], p, i - 1);
      }
    }
  }

  function Min(a: real, b: real): real
  {
    if b < a then b else a
  }

  /** The weight step 1 gives a call of `f`: its own total-time ratio when
      it has one, else the smaller of the caller's and the callee's, and
      otherwise the weight it already had. */
  function CallWeight(fs: map<FunctionId, Function>, f: Function, c: Call): Option<real>
  {
    if TotalTimeRatio in c.events then Some(c.events[TotalTimeRatio])
    else if TotalTimeRatio in f.events && c.calleeId in fs && TotalTimeRatio in fs[c.calleeId].events then
      Some(Min(f.events[TotalTimeRatio], fs[c.calleeId].events[TotalTimeRatio]))
    else c.weight
  }

  function WeighedCalls(fs: map<FunctionId, Function>, f: Function): map<FunctionId, Call>
  {
    map k | k in f.calls :: f.calls[k].(weight := CallWeight(fs, f, f.calls[k]))
  }

  /** A function after step 1: weighted by its total-time ratio when it
      has one, with its calls weighted by `CallWeight`. */
  function WeighedFunction(fs: map<FunctionId, Function>, f: Function): Function
  {
    f.(weight := if TotalTimeRatio in f.events then Some(f.events[TotalTimeRatio]) else f.weight,
       calls := WeighedCalls(fs, f))
  }

  ghost function Weighed(fs: map<FunctionId, Function>): map<FunctionId, Function>
  {
    map g | g in fs :: WeighedFunction(fs, fs[g])
  }

  /** Step 2 keeps a function unless its weight is set and below the node
      threshold. */
  predicate NodeKept(f: Function, nodeThres: real)
  {
    f.weight.None? || f.weight.value >= nodeThres
  }

  ghost function NodesPruned(fs: map<FunctionId, Function>, nodeThres: real): map<FunctionId, Function>
  {
    map g | g in fs && NodeKept(fs[g], nodeThres) :: fs[g]
  }

  /** Step 3 keeps a function unless a path list is given and its file name
      starts with none of the paths or its module contains none of them. */
  predicate PathsKept(f: Function, paths: seq<string>)
  {
    || paths == []
    || (&& (!Truthy(f.filename) || exists p :: p in paths && p <= f.filename.value)
        && (!Truthy(f.moduleName) || exists p :: p in paths && Contains(f.moduleName.value, p)))
  }

  ghost function PathsPruned(fs: map<FunctionId, Function>, paths: seq<string>): map<FunctionId, Function>
  {
    map g | g in fs && PathsKept(fs[g], paths) :: fs[g]
  }

  /** Step 4 keeps a call when its weight is unset or reaches the edge
      threshold. */
  predicate EdgeKept(c: Call, edgeThres: real)
  {
    c.weight.None? || c.weight.value >= edgeThres
  }

  function PrunedCalls(calls: map<FunctionId, Call>, known: set<FunctionId>, edgeThres: real): map<FunctionId, Call>
  {
    map k | k in calls && k in known && EdgeKept(calls[k], edgeThres) :: calls[k]
  }

  ghost function EdgesPruned(fs: map<FunctionId, Function>, edgeThres: real): map<FunctionId, Function>
  {
    map g | g in fs :: fs[g].(calls := PrunedCalls(fs[g].calls, fs.Keys, edgeThres))
  }

  /** The self-time ratio of a function, if it has one. */
  function TimeRatioOf(f: Function): Option<real>
  {
    if TimeRatio in f.events then Some(f.events[TimeRatio]) else None
  }

  function Larger(a: Option<real>, b: Option<real>): Option<real>
  {
    if a.None? then b else if b.None? then a else if a.value < b.value then b else a
  }

  /** The largest self-time ratio over the functions `s` of `fs`. */
  ghost function MaxTimeRatio(fs: map<FunctionId, Function>, s: set<FunctionId>): Option<real>
    requires s <= fs.Keys
  {
    if s == {} then None
    else
      var x :| x in s;
      Larger(TimeRatioOf(fs[x]), MaxTimeRatio(fs, s - {x}))
  }

  /** `m` is the largest self-time ratio over `s`, `None` when no function
      of `s` has one. */
  ghost predicate IsMaxTimeRatio(fs: map<FunctionId, Function>, s: set<FunctionId>, m: Option<real>)
    requires s <= fs.Keys
  {
    && (m.None? <==> forall g :: g in s ==> TimeRatioOf(fs[g]).None?)
    && (m.Some? ==>
          && (exists g :: g in s && TimeRatioOf(fs[g]) == m)
          && (forall g :: g in s && TimeRatioOf(fs[g]).Some? ==> TimeRatioOf(fs[g]).value <= m.value))
  }

  lemma {:induction false} MaxTimeRatioIsMax(fs: map<FunctionId, Function>, s: set<FunctionId>)
    requires s <= fs.Keys
    ensures IsMaxTimeRatio(fs, s, MaxTimeRatio(fs, s))
  {
    if s != {} {
      var x :| x in s && MaxTimeRatio(fs, s) == Larger(TimeRatioOf(fs[x]), MaxTimeRatio(fs, s - {x}));
      MaxTimeRatioIsMax(fs, s - {x});
      var r := TimeRatioOf(fs[x]);
      var m := MaxTimeRatio(fs, s - {x});
      var l := Larger(r, m);
      assert l.Some? ==> l == r || l == m;
      if m.Some? {
        var g :| g in s - {x} && TimeRatioOf(fs[g]) == m;
        assert g in s;
      }
      if l.Some? {
        forall g | g in s && TimeRatioOf(fs[g]).Some?
          ensures TimeRatioOf(fs[g]).value <= l.value
        {
          if g != x {
            assert g in s - {x};
          }
        }
      }
    }
  }

  /** There is only one largest value. */
  lemma MaxTimeRatioUnique(fs: map<FunctionId, Function>, s: set<FunctionId>, m1: Option<real>, m2: Option<real>)
    requires s <= fs.Keys
    requires IsMaxTimeRatio(fs, s, m1) && IsMaxTimeRatio(fs, s, m2)
    ensures m1 == m2
  {
    if m1.Some? {
      var g1 :| g1 in s && TimeRatioOf(fs[g1]) == m1;
      var g2 :| g2 in s && TimeRatioOf(fs[g2]) == m2;
      assert m1.value <= m2.value && m2.value <= m1.value;
    }
  }

  /** `max(weights or [1])`. */
  ghost function ColourScale(fs: map<FunctionId, Function>): real
  {
    var m := MaxTimeRatio(fs, fs.Keys);
    if m.Some? then m.value else 1.0
  }

  function ColouredFunction(f: Function, scale: real): Function
  {
    if TimeRatio in f.events && scale != 0.0 then f.(weight := Some(f.events[TimeRatio] / scale)) else f
  }

  ghost function Coloured(fs: map<FunctionId, Function>, scale: real): map<FunctionId, Function>
  {
    map g | g in fs :: ColouredFunction(fs[g], scale)
  }

  /** The whole of `prune`, step after step. */
  ghost function Pruned(fs: map<FunctionId, Function>, nodeThres: real, edgeThres: real, paths: seq<string>,
                        colourNodesBySelfTime: bool): map<FunctionId, Function>
  {
    var e := EdgesPruned(PathsPruned(NodesPruned(Weighed(fs), nodeThres), paths), edgeThres);
    if colourNodesBySelfTime then Coloured(e, ColourScale(e)) else e
  }

  /** Which functions survive: exactly those whose step-1 weight is unset
      or reaches the node threshold and that pass the path filter. Those
      are the ones whose total-time ratio (or, without one, whose earlier
      weight) reaches the threshold. */
  lemma PrunedFunctions(fs: map<FunctionId, Function>, nodeThres: real, edgeThres: real, paths: seq<string>, colour: bool)
    ensures forall g :: g in Pruned(fs, nodeThres, edgeThres, paths, colour) <==>
      && g in fs
      && (TotalTimeRatio in fs[g].events ==> fs[g].events[TotalTimeRatio] >= nodeThres)
      && (TotalTimeRatio !in fs[g].events ==> fs[g].weight.None? || fs[g].weight.value >= nodeThres)
      && PathsKept(fs[g], paths)
  {
  }

  /** The path filter, spelled out: with a non-empty path list every
      surviving file name starts with one of the paths and every surviving
      module name contains one at some offset. */
  lemma PrunedPaths(fs: map<FunctionId, Function>, nodeThres: real, edgeThres: real, paths: seq<string>, colour: bool, g: FunctionId)
    requires g in Pruned(fs, nodeThres, edgeThres, paths, colour) && paths != []
    ensures Truthy(fs[g].filename) ==> exists p :: p in paths && p <= fs[g].filename.value
    ensures Truthy(fs[g].moduleName) ==> exists p, i :: p in paths && OccursAt(fs[g].moduleName.value, p, i)
  {
    PrunedFunctions(fs, nodeThres, edgeThres, paths, colour);
    if Truthy(fs[g].moduleName) {
      var p :| p in paths && Contains(fs[g].moduleName.value, p);
      ContainsAt(fs[g].moduleName.value, p);
    }
  }

  /** Which calls survive: a call of a surviving function is kept exactly
      when its callee survives and its step-1 weight is unset or reaches
      the edge threshold; the kept call is the step-1 call. So the result
      has no call to a removed function. */
  lemma PrunedCallsKept(fs: map<FunctionId, Function>, nodeThres: real, edgeThres: real, paths: seq<string>, colour: bool)
    ensures Closed(Pruned(fs, nodeThres, edgeThres, paths, colour))
    ensures forall g :: g in Pruned(fs, nodeThres, edgeThres, paths, colour) ==>
      && Pruned(fs, nodeThres, edgeThres, paths, colour)[g].calls.Keys ==
           set k | k in fs[g].calls && k in Pruned(fs, nodeThres, edgeThres, paths, colour) &&
                   EdgeKept(Weighed(fs)[g].calls[k], edgeThres)
      && (forall k :: k in Pruned(fs, nodeThres, edgeThres, paths, colour)[g].calls ==>
            Pruned(fs, nodeThres, edgeThres, paths, colour)[g].calls[k] == Weighed(fs)[g].calls[k])
  {
  }

  /** Colouring by self time: when the largest self-time ratio is positive
      and none is negative, every function that has one gets a weight in
      [0, 1], and the function with the largest one gets exactly 1. */
  lemma ColouredWeights(fs: map<FunctionId, Function>)
    requires forall g :: g in fs && TimeRatio in fs[g].events ==> fs[g].events[TimeRatio] >= 0.0
    requires ColourScale(fs) > 0.0
    ensures forall g :: g in fs && TimeRatio in fs[g].events ==>
      && Coloured(fs, ColourScale(fs))[g].weight.Some?
      && 0.0 <= Coloured(fs, ColourScale(fs))[g].weight.value <= 1.0
    ensures (exists g :: g in fs && TimeRatio in fs[g].events) ==>
      exists g :: g in fs && Coloured(fs, ColourScale(fs))[g].weight == Some(1.0)
  {
    MaxTimeRatioIsMax(fs, fs.Keys);
    var scale := ColourScale(fs);
    forall g | g in fs && TimeRatio in fs[g].events
      ensures 0.0 <= fs[g].events[TimeRatio] / scale <= 1.0
    {
      assert TimeRatioOf(fs[g]).Some?;
      DivideBelow(fs[g].events[TimeRatio], scale);
    }
    if MaxTimeRatio(fs, fs.Keys).Some? {
      var g :| g in fs && TimeRatioOf(fs[g]) == MaxTimeRatio(fs, fs.Keys);
      assert fs[g].events[TimeRatio] == scale;
      DivideSelf(scale);
      assert Coloured(fs, scale)[g] == ColouredFunction(fs[g], scale);
    }
  }

  lemma DivideSelf(m: real)
    requires m > 0.0
    ensures m / m == 1.0
  {
  }

  lemma DivideBelow(v: real, m: real)
    requires 0.0 <= v <= m && m > 0.0
    ensures 0.0 <= v / m <= 1.0
  {
  }

  lemma WeighedShape(fs: map<FunctionId, Function>, n: nat)
    requires WellKeyed(fs) && CyclesBelow(fs, n)
    ensures WellKeyed(Weighed(fs)) && CyclesBelow(Weighed(fs), n)
  {
    forall g | g in Weighed(fs)
      ensures CallsKeyed(Weighed(fs)[g])
    {
      assert Weighed(fs)[g].calls.Keys == fs[g].calls.Keys;
    }
  }

  lemma EdgesPrunedShape(fs: map<FunctionId, Function>, edgeThres: real, n: nat)
    requires WellKeyed(fs) && CyclesBelow(fs, n)
    ensures WellKeyed(EdgesPruned(fs, edgeThres)) && CyclesBelow(EdgesPruned(fs, edgeThres), n)
  {
  }

  /** Step 1 on the calls of one function. */
  method WeighCalls(fs: map<FunctionId, Function>, f: Function) returns (calls: map<FunctionId, Call>)
    ensures calls == WeighedCalls(fs, f)
  {
    calls := f.calls;
    var todo := f.calls.Keys;
    while todo != {}
      invariant todo <= f.calls.Keys && calls.Keys == f.calls.Keys
      invariant forall k :: k in calls ==>
        calls[k] == if k in todo then f.calls[k] else f.calls[k].(weight := CallWeight(fs, f, f.calls[k]))
      decreases todo
    {
      var k :| k in todo;
      var c := calls[k];
      if TotalTimeRatio in c.events {
        calls := calls[k := c.(weight := Some(c.events[TotalTimeRatio]))];
      } else if TotalTimeRatio in f.events && c.calleeId in fs && TotalTimeRatio in fs[c.calleeId].events {
        calls := calls[k := c.(weight := Some(Min(f.events[TotalTimeRatio], fs[c.calleeId].events[TotalTimeRatio])))];
      }
      todo := todo - {k};
    }
  }

  /** Step 4 on the calls of one function. */
  method DropCalls(calls: map<FunctionId, Call>, known: set<FunctionId>, edgeThres: real) returns (kept: map<FunctionId, Call>)
    ensures kept == PrunedCalls(calls, known, edgeThres)
  {
    kept := calls;
    var todo := calls.Keys;
    while todo != {}
      invariant todo <= calls.Keys
      invariant kept == map k | k in calls && (k in todo || (k in known && EdgeKept(calls[k], edgeThres))) :: calls[k]
      decreases todo
    {
      var k :| k in todo;
      var c := calls[k];
      if k !in known || (c.weight.Some? && c.weight.value < edgeThres) {
        kept := kept - {k};
      }
      todo := todo - {k};
    }
  }

  /** The first loop of the colouring step: the largest self-time ratio. */
  method FindMaxTimeRatio(fs: map<FunctionId, Function>) returns (m: Option<real>)
    ensures m == MaxTimeRatio(fs, fs.Keys)
  {
    m := None;
    var todo := fs.Keys;
    ghost var done: set<FunctionId> := {};
    while todo != {}
      invariant todo + done == fs.Keys && todo !! done
      invariant IsMaxTimeRatio(fs, done, m)
      decreases todo
    {
      var g :| g in todo;
      if TimeRatio in fs[g].events {
        var v := fs[g].events[TimeRatio];
        if m.None? || m.value < v {
          m := Some(v);
        }
      }
      todo := todo - {g};
      done := done + {g};
    }
    MaxTimeRatioIsMax(fs, fs.Keys);
    MaxTimeRatioUnique(fs, fs.Keys, m, MaxTimeRatio(fs, fs.Keys));
  }
}
