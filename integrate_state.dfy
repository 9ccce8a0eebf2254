/** The whole profile while `integrate` (gprof2dot.py:525-707) runs. The
    recursion finishes nodes level by level: every node of a level at or
    below the one being worked on is either as it was before the run or
    as the run leaves it, and every node above it that the current call
    does not own is as it was when the call began. */
module IntegrationState {
  import opened Wrappers
  import opened Events
  import opened Entities
  import opened Sums
  import opened Totals
  import opened Integration
  import opened IntegrationSteps

  /** `a` and `b` are one function but for the events of it and of its
      calls. */
  ghost predicate FnSkeleton(a: Function, b: Function)
  {
    && a.id == b.id && a.cycle == b.cycle && a.calls.Keys == b.calls.Keys
    && (forall k :: k in a.calls ==> a.calls[k].ratio == b.calls[k].ratio && a.calls[k].calleeId == b.calls[k].calleeId)
  }

  /** What every step keeps of the functions: their ids, cycles, calls
      and ratios. */
  ghost predicate Shaped(x: IntegrableInput, fs: map<FunctionId, Function>)
  {
    && fs.Keys == x.fs.Keys
    && (forall f :: f in fs ==> FnSkeleton(fs[f], x.fs[f]))
  }

  /** What every step keeps: the shape of the functions and the number of
      cycles. */
  ghost predicate Stable(x: IntegrableInput, fs: map<FunctionId, Function>, st: seq<Cycle>)
  {
    Shaped(x, fs) && |st| == |x.store|
  }

  /** Replacing a function by one of the same skeleton keeps the shape. */
  lemma ShapedUpdate(x: IntegrableInput, fs: map<FunctionId, Function>, f: FunctionId, fn: Function)
    requires Shaped(x, fs) && f in fs && FnSkeleton(fn, fs[f])
    ensures Shaped(x, fs[f := fn])
  {
  }

  lemma StableSkeleton(x: IntegrableInput, fs: map<FunctionId, Function>, st: seq<Cycle>)
    requires Stable(x, fs, st)
    ensures SameSkeleton(fs, x.fs)
  {
  }

  /** A shaped profile has the skeleton of the original, and so its calls
      target registered functions and carry their ratios. */
  lemma ShapedSkeleton(x: IntegrableInput, fs: map<FunctionId, Function>)
    requires Shaped(x, fs)
    ensures SameSkeleton(fs, x.fs) && Closed(fs) && Rated(fs)
  {
  }

  /** Replacing a function by one of the same skeleton keeps the profile
      stable. */
  lemma StableUpdate(x: IntegrableInput, fs: map<FunctionId, Function>, st: seq<Cycle>, f: FunctionId, fn: Function)
    requires Stable(x, fs, st) && f in fs && FnSkeleton(fn, fs[f])
    ensures Stable(x, fs[f := fn], st)
  {
  }

  lemma SkeletonOfSetOut(fn: Function, e: Event, v: real)
    ensures FnSkeleton(SetOut(fn, e, v), fn)
  {
  }

  lemma SkeletonOfAddFunctionOut(fn: Function, e: Event, v: real)
    ensures FnSkeleton(AddFunctionOut(fn, e, v), fn)
  {
  }

  lemma SkeletonOfSetCallOut(fn: Function, k: FunctionId, e: Event, v: real)
    requires k in fn.calls
    ensures FnSkeleton(SetCallOut(fn, k, e, v), fn)
  {
  }

  lemma SkeletonOfAddCallOut(fn: Function, k: FunctionId, e: Event, v: real)
    requires k in fn.calls
    ensures FnSkeleton(AddCallOut(fn, k, e, v), fn)
  {
  }

  /** The members of cycle `c`. */
  ghost function CycleMembers(x: IntegrableInput, c: nat): set<FunctionId>
    requires c < |x.store|
  {
    x.store[c].functions
  }

  /** The members a cycle records are the functions that point back to it. */
  lemma MembersInCycle(x: IntegrableInput, c: nat)
    requires c < |x.store|
    ensures forall m :: m in CycleMembers(x, c) <==> InCycle(x.fs, m, c)
  {
  }

  /** A member of a cycle sits at the level of its cycle. */
  lemma MemberLevel(x: IntegrableInput, c: nat, m: FunctionId)
    requires c < |x.store| && m in CycleMembers(x, c)
    ensures m in x.fs && x.fs[m].cycle == Some(c) && x.lv.fn[m] == x.lv.cyc[c]
  {
    assert InCycle(x.fs, m, c);
  }

  /** A function outside any cycle is as it was, or integrated. */
  ghost predicate FnOk(x: IntegrableInput, fs: map<FunctionId, Function>, f: FunctionId)
    requires f in x.fs && f in fs
  {
    fs[f] == x.fs[f] || fs[f] == x.final[f]
  }

  ghost predicate CycleOriginal(x: IntegrableInput, fs: map<FunctionId, Function>, st: seq<Cycle>, c: nat)
    requires Stable(x, fs, st) && c < |x.store|
  {
    st[c] == x.store[c] && forall m :: m in CycleMembers(x, c) ==> fs[m] == x.fs[m]
  }

  ghost predicate CycleDone(x: IntegrableInput, fs: map<FunctionId, Function>, st: seq<Cycle>, c: nat)
    requires Stable(x, fs, st) && c < |x.store|
  {
    st[c] == x.finalStore[c] && forall m :: m in CycleMembers(x, c) ==> fs[m] == x.final[m]
  }

  /** A cycle and its members are as they were, or integrated. */
  ghost predicate CycOk(x: IntegrableInput, fs: map<FunctionId, Function>, st: seq<Cycle>, c: nat)
    requires Stable(x, fs, st) && c < |x.store|
  {
    CycleOriginal(x, fs, st, c) || CycleDone(x, fs, st, c)
  }

  /** Every node of level `L` or lower is as it was, or integrated. */
  ghost predicate OkBelow(x: IntegrableInput, fs: map<FunctionId, Function>, st: seq<Cycle>, L: int)
  {
    && Fresh(x) && Stable(x, fs, st)
    && (forall f :: f in x.fs && x.fs[f].cycle.None? && x.lv.fn[f] <= L ==> FnOk(x, fs, f))
    && (forall c :: 0 <= c < |x.store| && x.lv.cyc[c] <= L ==> CycOk(x, fs, st, c))
  }

  /** Every node is as it was, or integrated. */
  ghost predicate AllOk(x: IntegrableInput, fs: map<FunctionId, Function>, st: seq<Cycle>)
  {
    && Fresh(x) && Stable(x, fs, st)
    && (forall f :: f in x.fs && x.fs[f].cycle.None? ==> FnOk(x, fs, f))
    && (forall c :: 0 <= c < |x.store| ==> CycOk(x, fs, st, c))
  }

  /** From `fs0, st0` to `fs1, st1`, no node of level `L` or higher
      changed but the functions `fns` and the cycles `cycs`. */
  ghost predicate Untouched(x: IntegrableInput, fs0: map<FunctionId, Function>, st0: seq<Cycle>, fs1: map<FunctionId, Function>, st1: seq<Cycle>,
                            L: int, fns: set<FunctionId>, cycs: set<nat>)
    requires Stable(x, fs0, st0) && Stable(x, fs1, st1)
  {
    && (forall f :: f in x.fs && x.lv.fn[f] >= L && f !in fns ==> fs1[f] == fs0[f])
    && (forall c :: 0 <= c < |x.store| && x.lv.cyc[c] >= L && c !in cycs ==> st1[c] == st0[c])
  }

  lemma UntouchedRefl(x: IntegrableInput, fs: map<FunctionId, Function>, st: seq<Cycle>, L: int, fns: set<FunctionId>, cycs: set<nat>)
    requires Stable(x, fs, st)
    ensures Untouched(x, fs, st, fs, st, L, fns, cycs)
  {
  }

  /** Two runs that each leave the nodes alone leave them alone. */
  lemma UntouchedTrans(x: IntegrableInput, fs0: map<FunctionId, Function>, st0: seq<Cycle>, fs1: map<FunctionId, Function>, st1: seq<Cycle>,
                       fs2: map<FunctionId, Function>, st2: seq<Cycle>, L0: int, fns0: set<FunctionId>, cycs0: set<nat>,
                       L1: int, fns1: set<FunctionId>, cycs1: set<nat>)
    requires Stable(x, fs0, st0) && Stable(x, fs1, st1) && Stable(x, fs2, st2)
    requires Untouched(x, fs0, st0, fs1, st1, L0, fns0, cycs0) && Untouched(x, fs1, st1, fs2, st2, L1, fns1, cycs1)
    requires L1 <= L0 && fns1 <= fns0 && cycs1 <= cycs0
    ensures Untouched(x, fs0, st0, fs2, st2, L0, fns0, cycs0)
  {
  }

  lemma OkMono(x: IntegrableInput, fs: map<FunctionId, Function>, st: seq<Cycle>, L: int, L': int)
    requires OkBelow(x, fs, st, L) && L' <= L
    ensures OkBelow(x, fs, st, L')
  {
  }

  lemma AllOkBelow(x: IntegrableInput, fs: map<FunctionId, Function>, st: seq<Cycle>, L: int)
    requires AllOk(x, fs, st)
    ensures OkBelow(x, fs, st, L)
  {
  }

  /** A call that worked on nodes of level `L1` or lower, and touched no
      other node of level up to `L2`, leaves every node of level up to
      `L2` as it was or integrated. */
  lemma OkCombine(x: IntegrableInput, fs0: map<FunctionId, Function>, st0: seq<Cycle>, fs1: map<FunctionId, Function>, st1: seq<Cycle>,
                  L1: int, L2: int, fns: set<FunctionId>, cycs: set<nat>)
    requires OkBelow(x, fs0, st0, L2) && OkBelow(x, fs1, st1, L1) && L1 <= L2
    requires Untouched(x, fs0, st0, fs1, st1, L1 + 1, fns, cycs)
    requires forall f :: f in fns && f in x.fs ==> x.lv.fn[f] > L2
    requires forall c :: c in cycs && c < |x.store| ==> x.lv.cyc[c] > L2
    ensures OkBelow(x, fs1, st1, L2)
  {
    forall c | 0 <= c < |x.store| && L1 < x.lv.cyc[c] <= L2
      ensures CycOk(x, fs1, st1, c)
    {
      MembersUntouched(x, fs0, st0, fs1, st1, L1 + 1, fns, cycs, c);
      CycOkCarried(x, fs0, st0, fs1, st1, c);
    }
  }

  /** The members of a cycle at level `L` or above that `fns` leaves out
      are untouched. */
  lemma MembersUntouched(x: IntegrableInput, fs0: map<FunctionId, Function>, st0: seq<Cycle>, fs1: map<FunctionId, Function>, st1: seq<Cycle>,
                         L: int, fns: set<FunctionId>, cycs: set<nat>, c: nat)
    requires Stable(x, fs0, st0) && Stable(x, fs1, st1)
    requires Untouched(x, fs0, st0, fs1, st1, L, fns, cycs)
    requires c < |x.store| && x.lv.cyc[c] >= L && c !in cycs
    requires forall f :: f in fns && f in x.fs ==> x.lv.fn[f] != x.lv.cyc[c] || x.fs[f].cycle != Some(c)
    ensures st1[c] == st0[c]
    ensures forall m :: m in CycleMembers(x, c) ==> fs1[m] == fs0[m]
  {
    forall m | m in CycleMembers(x, c)
      ensures fs1[m] == fs0[m]
    {
      MemberLevel(x, c, m);
    }
  }

  /** A cycle whose record and members are unchanged keeps its state. */
  lemma CycOkCarried(x: IntegrableInput, fs0: map<FunctionId, Function>, st0: seq<Cycle>, fs1: map<FunctionId, Function>, st1: seq<Cycle>, c: nat)
    requires Stable(x, fs0, st0) && Stable(x, fs1, st1) && c < |x.store|
    requires CycOk(x, fs0, st0, c) && st1[c] == st0[c]
    requires forall m :: m in CycleMembers(x, c) ==> fs1[m] == fs0[m]
    ensures CycOk(x, fs1, st1, c)
  {
    if CycleOriginal(x, fs0, st0, c) {
      assert CycleOriginal(x, fs1, st1, c);
    } else {
      assert CycleDone(x, fs1, st1, c);
    }
  }

  /** A call on a node of level `L` that leaves it integrated, touches no
      other node of its level or above, and leaves everything below as it
      was or integrated, restores the invariant at level `L`. */
  lemma OkLift(x: IntegrableInput, fs0: map<FunctionId, Function>, st0: seq<Cycle>, fs1: map<FunctionId, Function>, st1: seq<Cycle>,
               L: int, fns: set<FunctionId>, cycs: set<nat>)
    requires OkBelow(x, fs0, st0, L) && OkBelow(x, fs1, st1, L - 1)
    requires Untouched(x, fs0, st0, fs1, st1, L, fns, cycs)
    requires forall f :: f in fns && f in x.fs && x.fs[f].cycle.None? ==> FnOk(x, fs1, f)
    requires forall f :: f in fns && f in x.fs && x.fs[f].cycle.Some? ==> x.fs[f].cycle.value in cycs
    requires forall c :: c in cycs && c < |x.store| ==> CycOk(x, fs1, st1, c)
    ensures OkBelow(x, fs1, st1, L)
  {
    forall c | 0 <= c < |x.store| && x.lv.cyc[c] == L && c !in cycs
      ensures CycOk(x, fs1, st1, c)
    {
      MembersUntouched(x, fs0, st0, fs1, st1, L, fns, cycs, c);
      CycOkCarried(x, fs0, st0, fs1, st1, c);
    }
  }

  /** A call on a node of level `L` that leaves every node of level `L`
      or lower as it was or integrated, and nothing above it changed,
      keeps the whole profile so. */
  lemma AllOkKeep(x: IntegrableInput, fs0: map<FunctionId, Function>, st0: seq<Cycle>, fs1: map<FunctionId, Function>, st1: seq<Cycle>, L: int)
    requires AllOk(x, fs0, st0) && OkBelow(x, fs1, st1, L)
    requires Untouched(x, fs0, st0, fs1, st1, L + 1, {}, {})
    ensures AllOk(x, fs1, st1)
  {
    forall c | 0 <= c < |x.store| && x.lv.cyc[c] > L
      ensures CycOk(x, fs1, st1, c)
    {
      MembersUntouched(x, fs0, st0, fs1, st1, L + 1, {}, {}, c);
      CycOkCarried(x, fs0, st0, fs1, st1, c);
    }
  }

  lemma UntouchedMono(x: IntegrableInput, fs0: map<FunctionId, Function>, st0: seq<Cycle>, fs1: map<FunctionId, Function>, st1: seq<Cycle>,
                      L: int, fns: set<FunctionId>, cycs: set<nat>, L': int, fns': set<FunctionId>, cycs': set<nat>)
    requires Stable(x, fs0, st0) && Stable(x, fs1, st1)
    requires Untouched(x, fs0, st0, fs1, st1, L, fns, cycs) && L <= L' && fns <= fns' && cycs <= cycs'
    ensures Untouched(x, fs0, st0, fs1, st1, L', fns', cycs')
  {
  }

  /** Writing a function above level `L` with one of the same skeleton
      keeps every node of level `L` or lower as it was or integrated. */
  lemma OkBelowWrite(x: IntegrableInput, fs: map<FunctionId, Function>, st: seq<Cycle>, L: int, f: FunctionId, fn: Function)
    requires OkBelow(x, fs, st, L) && f in fs && x.lv.fn[f] > L && FnSkeleton(fn, fs[f])
    ensures OkBelow(x, fs[f := fn], st, L)
  {
    StableUpdate(x, fs, st, f, fn);
    forall c | 0 <= c < |x.store| && x.lv.cyc[c] <= L
      ensures CycOk(x, fs[f := fn], st, c)
    {
      assert f !in CycleMembers(x, c) by {
        if f in CycleMembers(x, c) {
          MemberLevel(x, c, f);
        }
      }
      CycOkWrite(x, fs, st, c, f, fn);
    }
  }

  /** Writing a function outside cycle `c` keeps `c` as it was or integrated. */
  lemma CycOkWrite(x: IntegrableInput, fs: map<FunctionId, Function>, st: seq<Cycle>, c: nat, f: FunctionId, fn: Function)
    requires Stable(x, fs, st) && c < |x.store| && f in fs && FnSkeleton(fn, fs[f])
    requires CycOk(x, fs, st, c) && f !in CycleMembers(x, c)
    ensures Stable(x, fs[f := fn], st) && CycOk(x, fs[f := fn], st, c)
  {
    StableUpdate(x, fs, st, f, fn);
    if CycleOriginal(x, fs, st, c) {
      assert CycleOriginal(x, fs[f := fn], st, c);
    } else {
      assert CycleDone(x, fs[f := fn], st, c);
    }
  }

  /** The cycle of `f`, if it has one. */
  function CycleOf(x: IntegrableInput, f: FunctionId): set<nat>
    requires f in x.fs
  {
    if x.fs[f].cycle.Some? then {x.fs[f].cycle.value} else {}
  }

  /** `f` is integrated: by itself outside a cycle, with its cycle
      inside one. */
  ghost predicate Finished(x: IntegrableInput, fs: map<FunctionId, Function>, st: seq<Cycle>, f: FunctionId)
    requires Stable(x, fs, st) && f in x.fs
  {
    && (x.fs[f].cycle.None? ==> fs[f] == x.final[f])
    && (x.fs[f].cycle.Some? ==> CycleDone(x, fs, st, x.fs[f].cycle.value))
  }

  /** From `fs0, st0` to `fs1, st1` no node that was integrated stopped
      being so, but for the functions `fns` and the cycles `cycs`. */
  ghost predicate Kept(x: IntegrableInput, fs0: map<FunctionId, Function>, st0: seq<Cycle>, fs1: map<FunctionId, Function>, st1: seq<Cycle>,
                       fns: set<FunctionId>, cycs: set<nat>)
    requires Stable(x, fs0, st0) && Stable(x, fs1, st1)
  {
    && (forall f :: f in x.fs && x.fs[f].cycle.None? && f !in fns && fs0[f] == x.final[f] ==> fs1[f] == x.final[f])
    && (forall c :: 0 <= c < |x.store| && c !in cycs && CycleDone(x, fs0, st0, c) ==> CycleDone(x, fs1, st1, c))
  }

  lemma KeptRefl(x: IntegrableInput, fs: map<FunctionId, Function>, st: seq<Cycle>)
    requires Stable(x, fs, st)
    ensures Kept(x, fs, st, fs, st, {}, {})
  {
  }

  lemma KeptTrans(x: IntegrableInput, fs0: map<FunctionId, Function>, st0: seq<Cycle>, fs1: map<FunctionId, Function>, st1: seq<Cycle>,
                  fs2: map<FunctionId, Function>, st2: seq<Cycle>, fns: set<FunctionId>, cycs: set<nat>)
    requires Stable(x, fs0, st0) && Stable(x, fs1, st1) && Stable(x, fs2, st2)
    requires Kept(x, fs0, st0, fs1, st1, fns, cycs) && Kept(x, fs1, st1, fs2, st2, fns, cycs)
    ensures Kept(x, fs0, st0, fs2, st2, fns, cycs)
  {
  }

  /** More exceptions keep less. */
  lemma KeptMono(x: IntegrableInput, fs0: map<FunctionId, Function>, st0: seq<Cycle>, fs1: map<FunctionId, Function>, st1: seq<Cycle>,
                 fns: set<FunctionId>, cycs: set<nat>, fns': set<FunctionId>, cycs': set<nat>)
    requires Stable(x, fs0, st0) && Stable(x, fs1, st1)
    requires Kept(x, fs0, st0, fs1, st1, fns, cycs) && fns <= fns' && cycs <= cycs'
    ensures Kept(x, fs0, st0, fs1, st1, fns', cycs')
  {
  }

  /** A member of a cycle is never an exception of its own: only its
      cycle is. */
  lemma KeptMember(x: IntegrableInput, fs0: map<FunctionId, Function>, st0: seq<Cycle>, fs1: map<FunctionId, Function>, st1: seq<Cycle>,
                   m: FunctionId, cycs: set<nat>)
    requires Stable(x, fs0, st0) && Stable(x, fs1, st1) && m in x.fs && x.fs[m].cycle.Some?
    requires Kept(x, fs0, st0, fs1, st1, {m}, cycs)
    ensures Kept(x, fs0, st0, fs1, st1, {}, cycs)
  {
  }

  /** An exception for a cycle that ends up integrated can be dropped. */
  lemma KeptCycleDone(x: IntegrableInput, fs0: map<FunctionId, Function>, st0: seq<Cycle>, fs1: map<FunctionId, Function>, st1: seq<Cycle>, c: nat)
    requires Stable(x, fs0, st0) && Stable(x, fs1, st1) && c < |x.store|
    requires Kept(x, fs0, st0, fs1, st1, {}, {c}) && CycleDone(x, fs1, st1, c)
    ensures Kept(x, fs0, st0, fs1, st1, {}, {})
  {
  }

  /** Writing one of the exceptions keeps the rest untouched. */
  lemma UntouchedWrite(x: IntegrableInput, fs0: map<FunctionId, Function>, st0: seq<Cycle>, fs: map<FunctionId, Function>, st: seq<Cycle>,
                       L: int, fns: set<FunctionId>, cycs: set<nat>, f: FunctionId, fn: Function)
    requires Stable(x, fs0, st0) && Stable(x, fs, st) && f in fs && FnSkeleton(fn, fs[f])
    requires Untouched(x, fs0, st0, fs, st, L, fns, cycs) && f in fns
    ensures Stable(x, fs[f := fn], st) && Untouched(x, fs0, st0, fs[f := fn], st, L, fns, cycs)
  {
    StableUpdate(x, fs, st, f, fn);
  }

  /** Writing one function, keeping its skeleton, can only undo it or
      its cycle. */
  lemma KeptWrite(x: IntegrableInput, fs: map<FunctionId, Function>, st: seq<Cycle>, f: FunctionId, fn: Function)
    requires Stable(x, fs, st) && f in fs && FnSkeleton(fn, fs[f])
    ensures Stable(x, fs[f := fn], st)
    ensures Kept(x, fs, st, fs[f := fn], st, {f}, CycleOf(x, f))
  {
    StableUpdate(x, fs, st, f, fn);
    forall c | 0 <= c < |x.store| && c !in CycleOf(x, f) && CycleDone(x, fs, st, c)
      ensures CycleDone(x, fs[f := fn], st, c)
    {
      forall m | m in CycleMembers(x, c)
        ensures m != f
      {
        assert InCycle(x.fs, m, c);
      }
    }
  }

  /** An exception for a node that ends up integrated can be dropped. */
  lemma KeptFinished(x: IntegrableInput, fs0: map<FunctionId, Function>, st0: seq<Cycle>, fs1: map<FunctionId, Function>, st1: seq<Cycle>, f: FunctionId)
    requires Stable(x, fs0, st0) && Stable(x, fs1, st1) && f in x.fs
    requires Kept(x, fs0, st0, fs1, st1, {f}, CycleOf(x, f)) && Finished(x, fs1, st1, f)
    ensures Kept(x, fs0, st0, fs1, st1, {}, {})
  {
  }

  lemma FinishedKept(x: IntegrableInput, fs0: map<FunctionId, Function>, st0: seq<Cycle>, fs1: map<FunctionId, Function>, st1: seq<Cycle>, f: FunctionId)
    requires Stable(x, fs0, st0) && Stable(x, fs1, st1) && f in x.fs
    requires Kept(x, fs0, st0, fs1, st1, {}, {}) && Finished(x, fs0, st0, f)
    ensures Finished(x, fs1, st1, f)
  {
  }

  /** Once every function is integrated, the profile is the final one. */
  lemma AllFinished(x: IntegrableInput, fs: map<FunctionId, Function>, st: seq<Cycle>)
    requires AllOk(x, fs, st) && Aimed(x)
    requires forall f :: f in x.fs ==> Finished(x, fs, st, f)
    ensures fs == FinalFunctions(x) && st == FinalCycles(x)
  {
    AllCyclesFinished(x, fs, st);
    AllFunctionsFinished(x, fs, st);
  }

  lemma AllCyclesFinished(x: IntegrableInput, fs: map<FunctionId, Function>, st: seq<Cycle>)
    requires AllOk(x, fs, st) && Aimed(x)
    requires forall f :: f in x.fs ==> Finished(x, fs, st, f)
    ensures st == FinalCycles(x)
  {
    forall c | 0 <= c < |x.store|
      ensures st[c] == FinalCycle(x, c)
    {
      if m :| m in CycleMembers(x, c) {
        assert InCycle(x.fs, m, c) && Finished(x, fs, st, m);
      } else {
        assert CycOk(x, fs, st, c);
      }
    }
  }

  lemma AllFunctionsFinished(x: IntegrableInput, fs: map<FunctionId, Function>, st: seq<Cycle>)
    requires AllOk(x, fs, st) && Aimed(x)
    requires forall f :: f in x.fs ==> Finished(x, fs, st, f)
    ensures fs == FinalFunctions(x)
  {
    forall f | f in x.fs
      ensures fs[f] == FinalFunction(x, f)
    {
      assert Finished(x, fs, st, f);
      if x.fs[f].cycle.Some? {
        assert f in CycleMembers(x, x.fs[f].cycle.value);
      }
    }
  }

  /** The second half of `_integrate_cycle` writes only the members of the
      cycle and the cycle itself, all of its level. */
  ghost predicate CycleWrites(x: IntegrableInput, fs0: map<FunctionId, Function>, st0: seq<Cycle>, fs1: map<FunctionId, Function>, st1: seq<Cycle>, c: nat)
    requires c < |x.store|
  {
    && Stable(x, fs0, st0) && Stable(x, fs1, st1)
    && (forall g :: g in x.fs && !InCycle(x.fs, g, c) ==> fs1[g] == fs0[g])
    && (forall d :: 0 <= d < |x.store| && d != c ==> st1[d] == st0[d])
  }

  lemma CyclePhase(x: IntegrableInput, fs0: map<FunctionId, Function>, st0: seq<Cycle>, fs1: map<FunctionId, Function>, st1: seq<Cycle>, c: nat)
    requires c < |x.store|
    requires OkBelow(x, fs0, st0, x.lv.cyc[c] as int - 1) && Stable(x, fs1, st1)
    requires forall g :: g in x.fs && !InCycle(x.fs, g, c) ==> fs1[g] == fs0[g]
    requires forall d :: 0 <= d < |x.store| && d != c ==> st1[d] == st0[d]
    ensures OkBelow(x, fs1, st1, x.lv.cyc[c] as int - 1)
    ensures Untouched(x, fs0, st0, fs1, st1, x.lv.cyc[c], CycleMembers(x, c), {c})
    ensures Kept(x, fs0, st0, fs1, st1, {}, {c})
  {
    assert CycleWrites(x, fs0, st0, fs1, st1, c);
    CyclePhaseOk(x, fs0, st0, fs1, st1, c);
    CyclePhaseUntouched(x, fs0, st0, fs1, st1, c);
    CyclePhaseKept(x, fs0, st0, fs1, st1, c);
  }

  /** The members of any other cycle are not written. */
  lemma OtherMembers(x: IntegrableInput, fs0: map<FunctionId, Function>, st0: seq<Cycle>, fs1: map<FunctionId, Function>, st1: seq<Cycle>, c: nat, d: nat)
    requires c < |x.store| && CycleWrites(x, fs0, st0, fs1, st1, c)
    requires d < |x.store| && d != c
    ensures st1[d] == st0[d]
    ensures forall m :: m in CycleMembers(x, d) ==> fs1[m] == fs0[m]
  {
    forall m | m in CycleMembers(x, d)
      ensures fs1[m] == fs0[m]
    {
      MemberLevel(x, d, m);
    }
  }

  lemma CyclePhaseOk(x: IntegrableInput, fs0: map<FunctionId, Function>, st0: seq<Cycle>, fs1: map<FunctionId, Function>, st1: seq<Cycle>, c: nat)
    requires c < |x.store| && CycleWrites(x, fs0, st0, fs1, st1, c)
    requires OkBelow(x, fs0, st0, x.lv.cyc[c] as int - 1)
    ensures OkBelow(x, fs1, st1, x.lv.cyc[c] as int - 1)
  {
    forall d | 0 <= d < |x.store| && x.lv.cyc[d] < x.lv.cyc[c]
      ensures CycOk(x, fs1, st1, d)
    {
      OtherMembers(x, fs0, st0, fs1, st1, c, d);
      CycOkCarried(x, fs0, st0, fs1, st1, d);
    }
  }

  lemma CyclePhaseUntouched(x: IntegrableInput, fs0: map<FunctionId, Function>, st0: seq<Cycle>, fs1: map<FunctionId, Function>, st1: seq<Cycle>, c: nat)
    requires c < |x.store| && CycleWrites(x, fs0, st0, fs1, st1, c)
    ensures Untouched(x, fs0, st0, fs1, st1, x.lv.cyc[c], CycleMembers(x, c), {c})
  {
    MembersInCycle(x, c);
  }

  lemma CyclePhaseKept(x: IntegrableInput, fs0: map<FunctionId, Function>, st0: seq<Cycle>, fs1: map<FunctionId, Function>, st1: seq<Cycle>, c: nat)
    requires c < |x.store| && CycleWrites(x, fs0, st0, fs1, st1, c)
    ensures Kept(x, fs0, st0, fs1, st1, {}, {c})
  {
    forall d | 0 <= d < |x.store| && d != c && CycleDone(x, fs0, st0, d)
      ensures CycleDone(x, fs1, st1, d)
    {
      OtherMembers(x, fs0, st0, fs1, st1, c, d);
    }
  }

  /** With any function around, the output kind is not the input kind:
      every function has the one and none has the other. */
  lemma InNotOut(x: IntegrableInput, f: FunctionId)
    requires Fresh(x) && f in x.fs
    ensures x.inEvent != x.outEvent
  {
  }

  /** A function outside any cycle holds the output kind only once it is
      integrated, and then holds its inclusive cost. */
  lemma FnMemo(x: IntegrableInput, fs: map<FunctionId, Function>, f: FunctionId)
    requires Aimed(x) && Fresh(x) && f in x.fs && f in fs && x.fs[f].cycle.None? && FnOk(x, fs, f)
    ensures x.outEvent in fs[f].events <==> fs[f] == x.final[f]
    ensures x.outEvent in fs[f].events ==> fs[f].events[x.outEvent] == FunctionOut(x, f)
    ensures x.outEvent !in fs[f].events ==> fs[f] == x.fs[f]
  {
    assert x.final[f] == FinalFunction(x, f);
  }

  /** A cycle whose value a run of `integrate` already holds is
      integrated, and its members with it. */
  lemma Precomputed(x: IntegrableInput, c: nat)
    requires c < |x.store| && x.outEvent in x.store[c].events
    ensures FinalCycle(x, c) == x.store[c]
    ensures forall m :: m in CycleMembers(x, c) ==> FinalFunction(x, m) == x.fs[m]
  {
    forall m | m in CycleMembers(x, c)
      ensures FinalFunction(x, m) == x.fs[m]
    {
      assert InCycle(x.fs, m, c);
    }
  }

  /** A cycle with members holds the output kind only once it is
      integrated, and then holds its value. */
  lemma CycleMemo(x: IntegrableInput, fs: map<FunctionId, Function>, st: seq<Cycle>, c: nat)
    requires Aimed(x) && Stable(x, fs, st) && c < |x.store| && CycleMembers(x, c) != {} && CycOk(x, fs, st, c)
    ensures x.outEvent in st[c].events ==> CycleDone(x, fs, st, c) && st[c].events[x.outEvent] == CycleValue(x, c)
    ensures x.outEvent !in st[c].events ==> CycleOriginal(x, fs, st, c) && x.outEvent !in x.store[c].events
  {
    assert x.finalStore[c] == FinalCycle(x, c);
    if x.outEvent in x.store[c].events {
      Precomputed(x, c);
    }
  }
}
