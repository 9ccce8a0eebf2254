/** The recursion of `integrate` (gprof2dot.py:525-620) node by node:
    what integrating a function or a cycle leaves behind, and the steps
    of `_integrate_cycle` between its two walks. */
module IntegrationRun {
  import opened Wrappers
  import opened Events
  import opened Entities
  import opened Sums
  import opened Integration
  import opened IntegrationSteps
  import opened IntegrationState
  import opened Distribution
  import opened IntegrationWalks
  import opened Totals

  /** What integrating `f` leaves behind, from `fs0, st0` on: `f`
      integrated, every node up to its level as it was or integrated,
      nothing above its level changed and nothing integrated undone. */
  ghost predicate NodeDone(x: IntegrableInput, fs0: map<FunctionId, Function>, st0: seq<Cycle>, fs1: map<FunctionId, Function>, st1: seq<Cycle>,
                           f: FunctionId)
  {
    && f in x.fs && Stable(x, fs0, st0)
    && OkBelow(x, fs1, st1, x.lv.fn[f]) && Finished(x, fs1, st1, f)
    && Untouched(x, fs0, st0, fs1, st1, x.lv.fn[f] + 1, {}, {}) && Kept(x, fs0, st0, fs1, st1, {}, {})
  }

  /** What integrating cycle `c` leaves behind, from `fs0, st0` on. */
  ghost predicate CycleIntegrated(x: IntegrableInput, fs0: map<FunctionId, Function>, st0: seq<Cycle>, fs1: map<FunctionId, Function>, st1: seq<Cycle>,
                                  c: nat)
  {
    && c < |x.store| && Stable(x, fs0, st0)
    && OkBelow(x, fs1, st1, x.lv.cyc[c]) && CycleDone(x, fs1, st1, c)
    && Untouched(x, fs0, st0, fs1, st1, x.lv.cyc[c] + 1, {}, {}) && Kept(x, fs0, st0, fs1, st1, {}, {})
  }

  /** Integrating its cycle integrates a member. */
  lemma MemberNodeDone(x: IntegrableInput, fs0: map<FunctionId, Function>, st0: seq<Cycle>, fs1: map<FunctionId, Function>, st1: seq<Cycle>,
                       f: FunctionId, c: nat)
    requires CycleIntegrated(x, fs0, st0, fs1, st1, c) && f in x.fs && x.fs[f].cycle == Some(c)
    ensures NodeDone(x, fs0, st0, fs1, st1, f)
    ensures FunctionOut(x, f) == CycleValue(x, c)
  {
    assert x.lv.fn[f] == x.lv.cyc[c];
    OkMono(x, fs1, st1, x.lv.cyc[c], x.lv.fn[f]);
    UntouchedMono(x, fs0, st0, fs1, st1, x.lv.cyc[c] + 1, {}, {}, x.lv.fn[f] + 1, {}, {});
  }

  /** A function outside any cycle that already holds the output kind is
      integrated, and holds its inclusive cost. */
  lemma FunctionMemo(x: IntegrableInput, fs: map<FunctionId, Function>, st: seq<Cycle>, f: FunctionId)
    requires Aimed(x) && f in x.fs && x.fs[f].cycle.None? && OkBelow(x, fs, st, x.lv.fn[f])
    requires x.outEvent in fs[f].events
    ensures NodeDone(x, fs, st, fs, st, f) && fs[f].events[x.outEvent] == FunctionOut(x, f)
  {
    FnMemo(x, fs, f);
    UntouchedRefl(x, fs, st, x.lv.fn[f] + 1, {}, {});
    KeptRefl(x, fs, st);
  }

  /** A function outside any cycle that lacks the output kind is as it
      was, and the walk over its calls can start. */
  lemma FunctionStart(x: IntegrableInput, fs: map<FunctionId, Function>, st: seq<Cycle>, f: FunctionId)
    requires Aimed(x) && f in x.fs && x.fs[f].cycle.None? && OkBelow(x, fs, st, x.lv.fn[f])
    requires x.outEvent !in fs[f].events
    ensures fs[f] == x.fs[f] && CallsWalk(x, fs, st, fs, st, f, {}, {})
  {
    FnMemo(x, fs, f);
    OkMono(x, fs, st, x.lv.fn[f], x.lv.fn[f] as int - 1);
    CallsWalkStart(x, fs, st, f);
  }

  /** A cycle with members that already holds the output kind is
      integrated and holds its value; one that lacks it is as it was, and
      the walk over its members can start. */
  lemma CycleEnter(x: IntegrableInput, fs: map<FunctionId, Function>, st: seq<Cycle>, c: nat)
    requires Aimed(x) && c < |x.store| && CycleMembers(x, c) != {} && OkBelow(x, fs, st, x.lv.cyc[c])
    ensures x.outEvent in st[c].events ==>
      CycleIntegrated(x, fs, st, fs, st, c) && st[c].events[x.outEvent] == CycleValue(x, c)
    ensures x.outEvent !in st[c].events ==>
      && x.outEvent !in x.store[c].events && st[c] == x.store[c] && CycleOriginal(x, fs, st, c)
      && MembersWalk(x, fs, st, fs, st, c, {})
  {
    assert CycOk(x, fs, st, c);
    CycleMemo(x, fs, st, c);
    UntouchedRefl(x, fs, st, x.lv.cyc[c] + 1, {}, {});
    KeptRefl(x, fs, st);
    if x.outEvent !in st[c].events {
      OkMono(x, fs, st, x.lv.cyc[c], x.lv.cyc[c] as int - 1);
      MembersWalkStart(x, fs, st, c);
    }
  }

  /** The members of `c` outside `todo` hold zero for the output kind;
      those in `todo` have only their calls out of the cycle done. */
  ghost predicate ZeroedExcept(x: IntegrableInput, fs: map<FunctionId, Function>, c: nat, todo: set<FunctionId>)
    requires c < |x.store| && Shaped(x, fs)
  {
    forall m :: m in CycleMembers(x, c) ==>
      InCycle(x.fs, m, c) && fs[m] == if m in todo then CallsDone(x, m, x.fs[m].calls.Keys) else DistMember(x, c, {}, m)
  }

  lemma ZeroStart(x: IntegrableInput, fs: map<FunctionId, Function>, c: nat)
    requires c < |x.store| && Shaped(x, fs) && MembersAt(x, fs, c, CycleMembers(x, c))
    ensures ZeroedExcept(x, fs, c, CycleMembers(x, c))
  {
  }

  /** Zeroing the output kind of one member more. */
  lemma ZeroStep(x: IntegrableInput, fs: map<FunctionId, Function>, c: nat, todo: set<FunctionId>, m: FunctionId)
    requires c < |x.store| && Shaped(x, fs) && ZeroedExcept(x, fs, c, todo)
    requires m in todo && todo <= CycleMembers(x, c)
    ensures m in fs && Shaped(x, fs[m := SetOut(fs[m], x.outEvent, 0.0)])
    ensures ZeroedExcept(x, fs[m := SetOut(fs[m], x.outEvent, 0.0)], c, todo - {m})
    ensures OnlyMembers(x, c, fs, fs[m := SetOut(fs[m], x.outEvent, 0.0)])
  {
    assert InCycle(x.fs, m, c);
    var fn := SetOut(fs[m], x.outEvent, 0.0);
    SkeletonOfSetOut(fs[m], x.outEvent, 0.0);
    ShapedUpdate(x, fs, m, fn);
    CallsDoneZeroed(x, c, m);
  }

  /** Once every member is zeroed, the members stand where the
      distribution starts. */
  lemma ZeroDone(x: IntegrableInput, fs: map<FunctionId, Function>, c: nat)
    requires c < |x.store| && Shaped(x, fs) && ZeroedExcept(x, fs, c, {})
    ensures Distributed(x, fs, c, {})
  {
    MembersInCycle(x, c);
  }

  /** No step of `integrate` changes what a function holds for the input
      kind. */
  lemma InEventKept(x: IntegrableInput, fs: map<FunctionId, Function>, st: seq<Cycle>, f: FunctionId)
    requires AllOk(x, fs, st) && Aimed(x) && f in x.fs
    ensures f in fs && x.inEvent in fs[f].events && fs[f].events[x.inEvent] == x.fs[f].events[x.inEvent]
  {
    assert x.final[f] == FinalFunction(x, f);
    if x.fs[f].cycle.None? {
      FunctionInKept(x, fs, f);
    } else {
      var c := x.fs[f].cycle.value;
      assert f in CycleMembers(x, c) && CycOk(x, fs, st, c);
      MemberInKept(x, fs, st, c, f);
    }
  }

  lemma FunctionInKept(x: IntegrableInput, fs: map<FunctionId, Function>, f: FunctionId)
    requires Fresh(x) && f in x.fs && x.fs[f].cycle.None? && f in fs && FnOk(x, fs, f)
    requires x.final[f] == FinalFunction(x, f)
    ensures x.inEvent in fs[f].events && fs[f].events[x.inEvent] == x.fs[f].events[x.inEvent]
  {
    InNotOut(x, f);
  }

  lemma MemberInKept(x: IntegrableInput, fs: map<FunctionId, Function>, st: seq<Cycle>, c: nat, f: FunctionId)
    requires Fresh(x) && Stable(x, fs, st) && c < |x.store| && f in x.fs && x.fs[f].cycle == Some(c)
    requires f in CycleMembers(x, c) && CycOk(x, fs, st, c) && x.final[f] == FinalFunction(x, f)
    ensures f in fs && x.inEvent in fs[f].events && fs[f].events[x.inEvent] == x.fs[f].events[x.inEvent]
  {
    InNotOut(x, f);
    DistMemberHolds(x, c, Entries(x.fs, c), f);
  }

  /** Before anything runs every node is as it was. */
  lemma AllOkStart(x: IntegrableInput)
    requires Fresh(x)
    ensures AllOk(x, x.fs, x.store)
  {
    forall f | f in x.fs && x.fs[f].cycle.None?
      ensures FnOk(x, x.fs, f)
    {
    }
  }

  /** A function keeps its cycle through the walk; a member's cycle has it
      as a member, on the same level. */
  lemma NodeCycle(x: IntegrableInput, fs: map<FunctionId, Function>, st: seq<Cycle>, f: FunctionId)
    requires Stable(x, fs, st) && f in x.fs
    ensures f in fs && fs[f].cycle == x.fs[f].cycle
    ensures x.fs[f].cycle.Some? ==>
      && x.fs[f].cycle.value < |x.store| && f in CycleMembers(x, x.fs[f].cycle.value)
      && x.lv.fn[f] == x.lv.cyc[x.fs[f].cycle.value]
  {
    assert FnSkeleton(fs[f], x.fs[f]);
  }

  /** A call other than a self-call keeps the ratio `call_ratios` gave it. */
  lemma RatioHeld(x: IntegrableInput, fs: map<FunctionId, Function>, f: FunctionId, k: FunctionId)
    requires Shaped(x, fs) && f in x.fs && k in x.fs[f].calls && k != f
    ensures f in fs && k in fs[f].calls && fs[f].calls[k].ratio == Some(RatioOf(x.fs, f, k))
  {
    assert FnSkeleton(fs[f], x.fs[f]);
  }

  /** What the call `f -> k` adds to the inclusive cost of `f`. */
  lemma CallOutAt(x: IntegrableInput, f: FunctionId, k: FunctionId)
    requires f in x.fs && x.fs[f].cycle.None? && k in x.fs[f].calls
    ensures At(CallOuts(x, f), k) == if k != f then CallOut(x, f, k) else 0.0
  {
  }

  /** What the call `m -> k` adds to the total of the cycle of `m`. */
  lemma ExternalOutAt(x: IntegrableInput, c: nat, m: FunctionId, k: FunctionId)
    requires c < |x.store| && m in x.store[c].functions && k in x.fs[m].calls
    ensures At(ExternalOuts(x, c, m), k) == if !InCycle(x.fs, k, c) then CallOut(x, m, k) else 0.0
  {
  }

  /** What member `m` adds to the total of cycle `c`. */
  lemma MemberTotalAt(x: IntegrableInput, c: nat, m: FunctionId)
    requires c < |x.store| && m in x.store[c].functions
    ensures At(MemberTotals(x, c), m) == MemberTotal(x, c, m)
  {
  }

  /** The running total of the first loop of `_integrate_cycle`, grown by
      what member `m` adds. */
  lemma MemberAdded(x: IntegrableInput, c: nat, passed: set<FunctionId>, m: FunctionId, total: real, subtotal: real)
    requires c < |x.store| && m in CycleMembers(x, c) && m !in passed
    requires RunningSum(total, 0.0, passed, MemberTotals(x, c)) && subtotal == MemberTotal(x, c, m)
    ensures RunningSum(total + subtotal, 0.0, passed + {m}, MemberTotals(x, c))
  {
    MemberTotalAt(x, c, m);
    SumAddTo(passed, MemberTotals(x, c), m, 0.0, total, subtotal);
  }

  /** The state of the main loop of `integrate` once the functions of
      `passed` are integrated. */
  ghost predicate DoneUpTo(x: IntegrableInput, fs: map<FunctionId, Function>, st: seq<Cycle>, passed: set<FunctionId>)
  {
    && AllOk(x, fs, st) && passed <= x.fs.Keys
    && FinishedIn(x, fs, st, passed)
  }

  /** Every function of `passed` is integrated. */
  ghost predicate FinishedIn(x: IntegrableInput, fs: map<FunctionId, Function>, st: seq<Cycle>, passed: set<FunctionId>)
    requires Stable(x, fs, st) && passed <= x.fs.Keys
  {
    forall g :: g in passed ==> Finished(x, fs, st, g)
  }

  lemma DoneStart(x: IntegrableInput)
    requires Fresh(x)
    ensures DoneUpTo(x, x.fs, x.store, {})
  {
    AllOkStart(x);
  }

  /** Any function can be integrated in that state, and still has its own
      cost. */
  lemma NodeReady(x: IntegrableInput, fs: map<FunctionId, Function>, st: seq<Cycle>, passed: set<FunctionId>, f: FunctionId)
    requires DoneUpTo(x, fs, st, passed) && Aimed(x) && f in x.fs
    ensures OkBelow(x, fs, st, x.lv.fn[f])
    ensures f in fs && x.inEvent in fs[f].events && fs[f].events[x.inEvent] == At(ValueOf(x.fs, x.inEvent), f)
  {
    AllOkBelow(x, fs, st, x.lv.fn[f]);
    InEventKept(x, fs, st, f);
  }

  /** From `fs0, st0` to `fs1, st1` node `f` was integrated and nothing
      above its level changed. */
  ghost predicate OkStep(x: IntegrableInput, fs0: map<FunctionId, Function>, st0: seq<Cycle>, fs1: map<FunctionId, Function>, st1: seq<Cycle>,
                         f: FunctionId)
  {
    f in x.fs && AllOk(x, fs0, st0) && OkBelow(x, fs1, st1, x.lv.fn[f]) && Untouched(x, fs0, st0, fs1, st1, x.lv.fn[f] + 1, {}, {})
  }

  lemma AllOkStep(x: IntegrableInput, fs0: map<FunctionId, Function>, st0: seq<Cycle>, fs1: map<FunctionId, Function>, st1: seq<Cycle>,
                  f: FunctionId)
    requires OkStep(x, fs0, st0, fs1, st1, f)
    ensures AllOk(x, fs1, st1)
  {
    AllOkKeep(x, fs0, st0, fs1, st1, x.lv.fn[f]);
  }

  /** From `fs0, st0` to `fs1, st1` the functions of `passed` were
      integrated and stayed so. */
  ghost predicate FinishedKeptIn(x: IntegrableInput, fs0: map<FunctionId, Function>, st0: seq<Cycle>, fs1: map<FunctionId, Function>, st1: seq<Cycle>,
                                 passed: set<FunctionId>)
  {
    && Stable(x, fs0, st0) && Stable(x, fs1, st1) && passed <= x.fs.Keys
    && Kept(x, fs0, st0, fs1, st1, {}, {}) && FinishedIn(x, fs0, st0, passed)
  }

  lemma FinishedStep(x: IntegrableInput, fs0: map<FunctionId, Function>, st0: seq<Cycle>, fs1: map<FunctionId, Function>, st1: seq<Cycle>,
                     passed: set<FunctionId>)
    requires FinishedKeptIn(x, fs0, st0, fs1, st1, passed)
    ensures Stable(x, fs1, st1) && FinishedIn(x, fs1, st1, passed)
  {
    FinishedKeptAll(x, fs0, st0, fs1, st1, passed);
  }

  /** What is integrated stays so. */
  lemma FinishedKeptAll(x: IntegrableInput, fs0: map<FunctionId, Function>, st0: seq<Cycle>, fs1: map<FunctionId, Function>, st1: seq<Cycle>,
                        passed: set<FunctionId>)
    requires Stable(x, fs0, st0) && Stable(x, fs1, st1) && passed <= x.fs.Keys
    requires Kept(x, fs0, st0, fs1, st1, {}, {})
    requires FinishedIn(x, fs0, st0, passed)
    ensures FinishedIn(x, fs1, st1, passed)
  {
    forall g | g in passed
      ensures Finished(x, fs1, st1, g)
    {
      FinishedKept(x, fs0, st0, fs1, st1, g);
    }
  }

  /** Once every function is integrated, the profile is the final one. */
  lemma DoneAll(x: IntegrableInput, fs: map<FunctionId, Function>, st: seq<Cycle>)
    requires DoneUpTo(x, fs, st, x.fs.Keys) && Aimed(x)
    ensures fs == FinalFunctions(x) && st == FinalCycles(x)
  {
    AllFinished(x, fs, st);
  }

  /** A member can be integrated with its cycle. */
  lemma MemberEnter(x: IntegrableInput, fs: map<FunctionId, Function>, st: seq<Cycle>, f: FunctionId)
    requires f in x.fs && x.fs[f].cycle.Some? && OkBelow(x, fs, st, x.lv.fn[f])
    ensures x.fs[f].cycle.value < |x.store| && CycleMembers(x, x.fs[f].cycle.value) != {}
    ensures OkBelow(x, fs, st, x.lv.cyc[x.fs[f].cycle.value])
  {
    NodeCycle(x, fs, st, f);
  }

  /** Storing the inclusive cost of `f`, a function outside any cycle,
      once its calls are done integrates it. */
  lemma FunctionDone(x: IntegrableInput, fs0: map<FunctionId, Function>, st0: seq<Cycle>, fs: map<FunctionId, Function>, st: seq<Cycle>,
                     f: FunctionId, v: real)
    requires Aimed(x) && f in x.fs && x.fs[f].cycle.None?
    requires OkBelow(x, fs0, st0, x.lv.fn[f])
    requires CallsWalk(x, fs0, st0, fs, st, f, x.fs[f].calls.Keys, {})
    requires v == FunctionOut(x, f)
    ensures f in fs && NodeDone(x, fs0, st0, fs[f := SetOut(fs[f], x.outEvent, v)], st, f)
  {
    CallsWalkFinish(x, fs0, st0, fs, st, f, v);
  }

  /** The callee of an integrated call can be integrated, and the call
      holds the ratio `call_ratios` gave it. */
  lemma CalleeReady(x: IntegrableInput, fs0: map<FunctionId, Function>, st0: seq<Cycle>, fs: map<FunctionId, Function>, st: seq<Cycle>,
                  f: FunctionId, passed: set<FunctionId>, k: FunctionId)
    requires f in x.fs && CallsWalk(x, fs0, st0, fs, st, f, passed, CycleOf(x, f))
    requires k in x.fs[f].calls && Integrated(x.fs, f, k)
    ensures k in x.fs && x.lv.fn[k] < x.lv.fn[f] && OkBelow(x, fs, st, x.lv.fn[k])
    ensures f in fs && k in fs[f].calls && fs[f].calls[k].ratio.Some?
  {
    LowerLevel(x, f, k);
    RatioHeld(x, fs, f, k);
    OkMono(x, fs, st, x.lv.fn[f] as int - 1, x.lv.fn[k]);
  }

  /** Integrating a callee keeps the call to it. */
  lemma CallKept(x: IntegrableInput, fs1: map<FunctionId, Function>, st1: seq<Cycle>, fs2: map<FunctionId, Function>, st2: seq<Cycle>,
                 f: FunctionId, k: FunctionId)
    requires NodeDone(x, fs1, st1, fs2, st2, k) && f in x.fs && k in x.fs[f].calls
    ensures f in fs2 && k in fs2[f].calls
  {
    assert FnSkeleton(fs2[f], x.fs[f]);
  }

  /** Once the callee is integrated, storing the ratio of its value on the
      call moves `k` into `passed`. */
  lemma CallDone(x: IntegrableInput, fs0: map<FunctionId, Function>, st0: seq<Cycle>, fs1: map<FunctionId, Function>, st1: seq<Cycle>,
                 fs2: map<FunctionId, Function>, st2: seq<Cycle>, f: FunctionId, passed: set<FunctionId>, k: FunctionId,
                 outEvent: Event, ratio: real, out: real)
    requires f in x.fs && CallsWalk(x, fs0, st0, fs1, st1, f, passed, CycleOf(x, f))
    requires k in x.fs[f].calls && k !in passed && Integrated(x.fs, f, k)
    requires NodeDone(x, fs1, st1, fs2, st2, k) && outEvent == x.outEvent
    requires f in fs1 && k in fs1[f].calls && fs1[f].calls[k].ratio == Some(ratio) && out == FunctionOut(x, k)
    ensures Times(ratio, out) == CallOut(x, f, k) && f in fs2 && k in fs2[f].calls
    ensures CallsWalk(x, fs0, st0, fs2[f := SetCallOut(fs2[f], k, outEvent, Times(ratio, out))], st2, f, passed + {k}, CycleOf(x, f))
  {
    LowerLevel(x, f, k);
    RatioHeld(x, fs1, f, k);
    CallsWalkCallee(x, fs0, st0, fs1, st1, fs2, st2, f, passed, CycleOf(x, f), k);
    CallsWalkWrite(x, fs0, st0, fs2, st2, f, passed, k, Times(ratio, out));
  }


  /** Integrating `f` adds it to `passed`. */
  lemma FunctionPassed(x: IntegrableInput, fs0: map<FunctionId, Function>, st0: seq<Cycle>, fs1: map<FunctionId, Function>, st1: seq<Cycle>,
                 passed: set<FunctionId>, f: FunctionId)
    requires DoneUpTo(x, fs0, st0, passed) && NodeDone(x, fs0, st0, fs1, st1, f)
    ensures DoneUpTo(x, fs1, st1, passed + {f})
  {
    AllOkStep(x, fs0, st0, fs1, st1, f);
    FinishedStep(x, fs0, st0, fs1, st1, passed);
    FinishedJoin(x, fs1, st1, passed, f);
  }

  /** A function just integrated joins those integrated before. */
  lemma FinishedJoin(x: IntegrableInput, fs: map<FunctionId, Function>, st: seq<Cycle>, passed: set<FunctionId>, f: FunctionId)
    requires Stable(x, fs, st) && passed <= x.fs.Keys && f in x.fs
    requires FinishedIn(x, fs, st, passed) && Finished(x, fs, st, f)
    ensures FinishedIn(x, fs, st, passed + {f})
  {
  }
}
