/** The walks of `integrate` (gprof2dot.py:559-603) over a function's
    calls and over a cycle's members, each stated as a state that one step
    carries to the next, with the profile's invariant level by level
    holding throughout. */
module IntegrationWalks {
  import opened Wrappers
  import opened Events
  import opened Entities
  import opened Sums
  import opened Integration
  import opened IntegrationSteps
  import opened IntegrationState
  import opened Distribution

  /** The state while the calls of `f` are integrated, from `fs0, st0`
      on: every node below the level of `f` is as it was or integrated,
      the integrated calls among `passed` hold what they carry, nothing
      else of the level of `f` or above changed, and no integrated node but
      `f` and the cycles `cycs` stopped being so. */
  ghost predicate CallsWalk(x: IntegrableInput, fs0: map<FunctionId, Function>, st0: seq<Cycle>, fs: map<FunctionId, Function>, st: seq<Cycle>,
                            f: FunctionId, passed: set<FunctionId>, cycs: set<nat>)
  {
    && f in x.fs
    && OkBelow(x, fs, st, x.lv.fn[f] as int - 1) && Stable(x, fs0, st0)
    && fs[f] == CallsDone(x, f, passed)
    && Untouched(x, fs0, st0, fs, st, x.lv.fn[f], {f}, {})
    && Kept(x, fs0, st0, fs, st, {f}, cycs)
  }

  lemma CallsWalkStart(x: IntegrableInput, fs: map<FunctionId, Function>, st: seq<Cycle>, f: FunctionId)
    requires f in x.fs
    requires OkBelow(x, fs, st, x.lv.fn[f] as int - 1) && fs[f] == x.fs[f]
    ensures CallsWalk(x, fs, st, fs, st, f, {}, CycleOf(x, f))
  {
    CallsDoneNone(x, f);
    UntouchedRefl(x, fs, st, x.lv.fn[f], {f}, {});
    KeptRefl(x, fs, st);
    KeptMono(x, fs, st, fs, st, {}, {}, {f}, CycleOf(x, f));
  }

  /** A call that is integrated goes to a node of a lower level. */
  lemma LowerLevel(x: IntegrableInput, f: FunctionId, k: FunctionId)
    requires f in x.fs && k in x.fs[f].calls && Integrated(x.fs, f, k)
    ensures k in x.fs && x.lv.fn[k] < x.lv.fn[f]
  {
  }

  /** What leaves the nodes from level `L` on alone, `f` among them, keeps
      `f` as it was. */
  lemma UntouchedBelow(x: IntegrableInput, fs0: map<FunctionId, Function>, st0: seq<Cycle>, fs1: map<FunctionId, Function>, st1: seq<Cycle>,
                       fs2: map<FunctionId, Function>, st2: seq<Cycle>, f: FunctionId, L: int)
    requires Stable(x, fs0, st0) && Stable(x, fs1, st1) && Stable(x, fs2, st2) && f in x.fs && L <= x.lv.fn[f]
    requires Untouched(x, fs0, st0, fs1, st1, x.lv.fn[f], {f}, {}) && Untouched(x, fs1, st1, fs2, st2, L, {}, {})
    ensures Untouched(x, fs0, st0, fs2, st2, x.lv.fn[f], {f}, {}) && fs2[f] == fs1[f]
  {
  }

  /** Integrating the callee `k`, a node of a lower level, keeps the
      state of the walk. */
  lemma CallsWalkCallee(x: IntegrableInput, fs0: map<FunctionId, Function>, st0: seq<Cycle>, fs1: map<FunctionId, Function>, st1: seq<Cycle>,
                        fs2: map<FunctionId, Function>, st2: seq<Cycle>, f: FunctionId, passed: set<FunctionId>, cycs: set<nat>,
                        k: FunctionId)
    requires CallsWalk(x, fs0, st0, fs1, st1, f, passed, cycs)
    requires k in x.fs && x.lv.fn[k] < x.lv.fn[f]
    requires OkBelow(x, fs2, st2, x.lv.fn[k])
    requires Untouched(x, fs1, st1, fs2, st2, x.lv.fn[k] + 1, {}, {}) && Kept(x, fs1, st1, fs2, st2, {}, {})
    ensures CallsWalk(x, fs0, st0, fs2, st2, f, passed, cycs)
  {
    CalleeLevel(x, fs1, st1, fs2, st2, x.lv.fn[k], x.lv.fn[f] as int - 1);
    CalleeFrame(x, fs0, st0, fs1, st1, fs2, st2, f, cycs, x.lv.fn[k] + 1);
  }

  /** What leaves the levels above `L1` alone keeps the invariant up to
      `L2`. */
  lemma CalleeLevel(x: IntegrableInput, fs1: map<FunctionId, Function>, st1: seq<Cycle>, fs2: map<FunctionId, Function>, st2: seq<Cycle>,
                    L1: int, L2: int)
    requires OkBelow(x, fs1, st1, L2) && OkBelow(x, fs2, st2, L1) && L1 <= L2
    requires Untouched(x, fs1, st1, fs2, st2, L1 + 1, {}, {})
    ensures OkBelow(x, fs2, st2, L2)
  {
    OkCombine(x, fs1, st1, fs2, st2, L1, L2, {}, {});
  }

  /** The frame of the walk over the calls of `f` survives a step that
      leaves the level of `f` alone. */
  lemma CalleeFrame(x: IntegrableInput, fs0: map<FunctionId, Function>, st0: seq<Cycle>, fs1: map<FunctionId, Function>, st1: seq<Cycle>,
                    fs2: map<FunctionId, Function>, st2: seq<Cycle>, f: FunctionId, cycs: set<nat>, L: int)
    requires Stable(x, fs0, st0) && Stable(x, fs1, st1) && Stable(x, fs2, st2) && f in x.fs && L <= x.lv.fn[f]
    requires Untouched(x, fs0, st0, fs1, st1, x.lv.fn[f], {f}, {}) && Kept(x, fs0, st0, fs1, st1, {f}, cycs)
    requires Untouched(x, fs1, st1, fs2, st2, L, {}, {}) && Kept(x, fs1, st1, fs2, st2, {}, {})
    ensures Untouched(x, fs0, st0, fs2, st2, x.lv.fn[f], {f}, {}) && Kept(x, fs0, st0, fs2, st2, {f}, cycs) && fs2[f] == fs1[f]
  {
    UntouchedBelow(x, fs0, st0, fs1, st1, fs2, st2, f, L);
    KeptMono(x, fs1, st1, fs2, st2, {}, {}, {f}, cycs);
    KeptTrans(x, fs0, st0, fs1, st1, fs2, st2, {f}, cycs);
  }

  /** Storing what the integrated call `f -> k` carries moves `k` into
      `passed`. */
  lemma CallsWalkWrite(x: IntegrableInput, fs0: map<FunctionId, Function>, st0: seq<Cycle>, fs: map<FunctionId, Function>, st: seq<Cycle>,
                       f: FunctionId, passed: set<FunctionId>, k: FunctionId, v: real)
    requires f in x.fs && CallsWalk(x, fs0, st0, fs, st, f, passed, CycleOf(x, f))
    requires k in x.fs[f].calls && k !in passed && Integrated(x.fs, f, k) && v == CallOut(x, f, k)
    ensures k in fs[f].calls
    ensures CallsWalk(x, fs0, st0, fs[f := SetCallOut(fs[f], k, x.outEvent, v)], st, f, passed + {k}, CycleOf(x, f))
  {
    var fn := SetCallOut(fs[f], k, x.outEvent, v);
    CallsDoneStep(x, f, passed, k);
    SkeletonOfSetCallOut(fs[f], k, x.outEvent, v);
    OkBelowWrite(x, fs, st, x.lv.fn[f] as int - 1, f, fn);
    UntouchedWrite(x, fs0, st0, fs, st, x.lv.fn[f], {f}, {}, f, fn);
    KeptWrite(x, fs, st, f, fn);
    KeptTrans(x, fs0, st0, fs, st, fs[f := fn], st, {f}, CycleOf(x, f));
  }

  /** A call `integrate` gives no value of its own joins `passed` as it is. */
  lemma CallsWalkSkip(x: IntegrableInput, fs0: map<FunctionId, Function>, st0: seq<Cycle>, fs: map<FunctionId, Function>, st: seq<Cycle>,
                      f: FunctionId, passed: set<FunctionId>, cycs: set<nat>, k: FunctionId)
    requires CallsWalk(x, fs0, st0, fs, st, f, passed, cycs)
    requires k in x.fs[f].calls && k !in passed && !Integrated(x.fs, f, k)
    ensures CallsWalk(x, fs0, st0, fs, st, f, passed + {k}, cycs)
  {
    CallsDoneStep(x, f, passed, k);
  }

  /** A function outside any cycle whose calls are all done, once it holds
      its inclusive cost, is integrated, and the invariant holds at its
      level. */
  lemma CallsWalkFinish(x: IntegrableInput, fs0: map<FunctionId, Function>, st0: seq<Cycle>, fs: map<FunctionId, Function>, st: seq<Cycle>,
                        f: FunctionId, v: real)
    requires Aimed(x) && f in x.fs && x.fs[f].cycle.None?
    requires OkBelow(x, fs0, st0, x.lv.fn[f])
    requires CallsWalk(x, fs0, st0, fs, st, f, x.fs[f].calls.Keys, {})
    requires v == FunctionOut(x, f)
    ensures OkBelow(x, fs[f := SetOut(fs[f], x.outEvent, v)], st, x.lv.fn[f])
    ensures Finished(x, fs[f := SetOut(fs[f], x.outEvent, v)], st, f)
    ensures Untouched(x, fs0, st0, fs[f := SetOut(fs[f], x.outEvent, v)], st, x.lv.fn[f] + 1, {}, {})
    ensures Kept(x, fs0, st0, fs[f := SetOut(fs[f], x.outEvent, v)], st, {}, {})
  {
    var fn := SetOut(fs[f], x.outEvent, v);
    CallsDoneFinal(x, f);
    SkeletonOfSetOut(fs[f], x.outEvent, v);
    OkBelowWrite(x, fs, st, x.lv.fn[f] as int - 1, f, fn);
    FinishFrame(x, fs0, st0, fs, st, f, fn);
    OkLiftOne(x, fs0, st0, fs[f := fn], st, f);
  }

  /** Integrating one function outside any cycle, and nothing else of its
      level, lifts the invariant to its level. */
  lemma OkLiftOne(x: IntegrableInput, fs0: map<FunctionId, Function>, st0: seq<Cycle>, fs1: map<FunctionId, Function>, st1: seq<Cycle>, f: FunctionId)
    requires f in x.fs && x.fs[f].cycle.None?
    requires OkBelow(x, fs0, st0, x.lv.fn[f]) && OkBelow(x, fs1, st1, x.lv.fn[f] as int - 1)
    requires Untouched(x, fs0, st0, fs1, st1, x.lv.fn[f], {f}, {}) && fs1[f] == x.final[f]
    ensures OkBelow(x, fs1, st1, x.lv.fn[f])
  {
    var L := x.lv.fn[f] as int;
    FunctionsLift(x, fs0, st0, fs1, st1, f, L);
    CyclesLift(x, fs0, st0, fs1, st1, f, L);
  }

  /** The functions of level `L` or lower, when only `f` among those of
      level `L` changed and it is as it was or integrated. */
  lemma FunctionsLift(x: IntegrableInput, fs0: map<FunctionId, Function>, st0: seq<Cycle>, fs1: map<FunctionId, Function>, st1: seq<Cycle>,
                      f: FunctionId, L: int)
    requires Stable(x, fs0, st0) && Stable(x, fs1, st1) && f in x.fs && x.fs[f].cycle.None?
    requires forall g :: g in x.fs && x.fs[g].cycle.None? && x.lv.fn[g] <= L ==> FnOk(x, fs0, g)
    requires forall g :: g in x.fs && x.fs[g].cycle.None? && x.lv.fn[g] <= L - 1 ==> FnOk(x, fs1, g)
    requires Untouched(x, fs0, st0, fs1, st1, L, {f}, {}) && FnOk(x, fs1, f)
    ensures forall g :: g in x.fs && x.fs[g].cycle.None? && x.lv.fn[g] <= L ==> FnOk(x, fs1, g)
  {
    forall g | g in x.fs && x.fs[g].cycle.None? && x.lv.fn[g] <= L
      ensures FnOk(x, fs1, g)
    {
      if g != f && x.lv.fn[g] == L {
        assert fs1[g] == fs0[g] && FnOk(x, fs0, g);
      }
    }
  }

  /** The cycles of level `L` or lower, when only the function `f`, in no
      cycle, changed among the nodes of level `L`. */
  lemma CyclesLift(x: IntegrableInput, fs0: map<FunctionId, Function>, st0: seq<Cycle>, fs1: map<FunctionId, Function>, st1: seq<Cycle>,
                   f: FunctionId, L: int)
    requires Stable(x, fs0, st0) && Stable(x, fs1, st1) && f in x.fs && x.fs[f].cycle.None?
    requires forall c :: 0 <= c < |x.store| && x.lv.cyc[c] <= L ==> CycOk(x, fs0, st0, c)
    requires forall c :: 0 <= c < |x.store| && x.lv.cyc[c] <= L - 1 ==> CycOk(x, fs1, st1, c)
    requires Untouched(x, fs0, st0, fs1, st1, L, {f}, {})
    ensures forall c :: 0 <= c < |x.store| && x.lv.cyc[c] <= L ==> CycOk(x, fs1, st1, c)
  {
    forall c | 0 <= c < |x.store| && x.lv.cyc[c] == L
      ensures CycOk(x, fs1, st1, c)
    {
      MembersUntouched(x, fs0, st0, fs1, st1, L, {f}, {}, c);
      CycOkCarried(x, fs0, st0, fs1, st1, c);
    }
  }

  /** Writing its final state on a function outside any cycle closes the
      frame of its walk. */
  lemma FinishFrame(x: IntegrableInput, fs0: map<FunctionId, Function>, st0: seq<Cycle>, fs: map<FunctionId, Function>, st: seq<Cycle>,
                    f: FunctionId, fn: Function)
    requires f in x.fs && x.fs[f].cycle.None? && fn == x.final[f]
    requires Stable(x, fs0, st0) && Stable(x, fs, st) && FnSkeleton(fn, fs[f])
    requires Untouched(x, fs0, st0, fs, st, x.lv.fn[f], {f}, {}) && Kept(x, fs0, st0, fs, st, {f}, {})
    ensures Stable(x, fs[f := fn], st) && Untouched(x, fs0, st0, fs[f := fn], st, x.lv.fn[f], {f}, {})
    ensures Untouched(x, fs0, st0, fs[f := fn], st, x.lv.fn[f] + 1, {}, {}) && Kept(x, fs0, st0, fs[f := fn], st, {}, {})
  {
    var L := x.lv.fn[f] as int;
    UntouchedWrite(x, fs0, st0, fs, st, L, {f}, {}, f, fn);
    UntouchedMono(x, fs0, st0, fs[f := fn], st, L, {f}, {}, L + 1, {f}, {});
    KeptWrite(x, fs, st, f, fn);
    KeptTrans(x, fs0, st0, fs, st, fs[f := fn], st, {f}, {});
    KeptFinished(x, fs0, st0, fs[f := fn], st, f);
  }

  /** The state while the first loop of `_integrate_cycle` takes the
      members of cycle `c` one at a time, from `fs0, st0` on: every node
      below the level of `c` is as it was or integrated, the members of
      `passed` have their calls out of the cycle done, the other members
      are as they were, and nothing else of the level of `c` or above
      changed. */
  ghost predicate MembersWalk(x: IntegrableInput, fs0: map<FunctionId, Function>, st0: seq<Cycle>, fs: map<FunctionId, Function>, st: seq<Cycle>,
                              c: nat, passed: set<FunctionId>)
  {
    && c < |x.store|
    && OkBelow(x, fs, st, x.lv.cyc[c] as int - 1) && Stable(x, fs0, st0)
    && Untouched(x, fs0, st0, fs, st, x.lv.cyc[c], CycleMembers(x, c), {})
    && Kept(x, fs0, st0, fs, st, {}, {c})
    && MembersAt(x, fs, c, passed)
  }

  /** The members of `passed` have their calls out of the cycle done, the
      others are as they were. */
  ghost predicate MembersAt(x: IntegrableInput, fs: map<FunctionId, Function>, c: nat, passed: set<FunctionId>)
    requires c < |x.store| && Shaped(x, fs)
  {
    forall m :: m in CycleMembers(x, c) ==>
      InCycle(x.fs, m, c) && fs[m] == if m in passed then CallsDone(x, m, x.fs[m].calls.Keys) else x.fs[m]
  }

  /** Doing the calls of member `m`, and touching no other member, adds `m`
      to `passed`. */
  lemma MembersAtStep(x: IntegrableInput, fs1: map<FunctionId, Function>, st1: seq<Cycle>, fs2: map<FunctionId, Function>, st2: seq<Cycle>,
                      c: nat, passed: set<FunctionId>, m: FunctionId)
    requires c < |x.store| && Stable(x, fs1, st1) && Stable(x, fs2, st2) && m in CycleMembers(x, c)
    requires MembersAt(x, fs1, c, passed) && fs2[m] == CallsDone(x, m, x.fs[m].calls.Keys)
    requires Untouched(x, fs1, st1, fs2, st2, x.lv.cyc[c], {m}, {})
    ensures MembersAt(x, fs2, c, passed + {m})
  {
    forall m' | m' in CycleMembers(x, c)
      ensures InCycle(x.fs, m', c) && fs2[m'] == if m' in passed + {m} then CallsDone(x, m', x.fs[m'].calls.Keys) else x.fs[m']
    {
      MemberLevel(x, c, m');
      MemberAtStep(x, fs1, st1, fs2, st2, c, passed, m, m');
    }
  }

  lemma MemberAtStep(x: IntegrableInput, fs1: map<FunctionId, Function>, st1: seq<Cycle>, fs2: map<FunctionId, Function>, st2: seq<Cycle>,
                     c: nat, passed: set<FunctionId>, m: FunctionId, m': FunctionId)
    requires c < |x.store| && Stable(x, fs1, st1) && Stable(x, fs2, st2)
    requires m in x.fs && m' in x.fs && x.lv.fn[m'] == x.lv.cyc[c]
    requires fs1[m'] == if m' in passed then CallsDone(x, m', x.fs[m'].calls.Keys) else x.fs[m']
    requires fs2[m] == CallsDone(x, m, x.fs[m].calls.Keys)
    requires Untouched(x, fs1, st1, fs2, st2, x.lv.cyc[c], {m}, {})
    ensures fs2[m'] == if m' in passed + {m} then CallsDone(x, m', x.fs[m'].calls.Keys) else x.fs[m']
  {
    if m' != m {
      assert fs2[m'] == fs1[m'];
    }
  }

  /** The frame of one member's walk within the walk over the members. */
  lemma MemberFrame(x: IntegrableInput, fs0: map<FunctionId, Function>, st0: seq<Cycle>, fs1: map<FunctionId, Function>, st1: seq<Cycle>,
                    fs2: map<FunctionId, Function>, st2: seq<Cycle>, c: nat, m: FunctionId)
    requires c < |x.store| && Stable(x, fs0, st0) && Stable(x, fs1, st1) && Stable(x, fs2, st2)
    requires m in x.fs && x.fs[m].cycle == Some(c) && x.lv.fn[m] == x.lv.cyc[c] && m in CycleMembers(x, c)
    requires Untouched(x, fs0, st0, fs1, st1, x.lv.cyc[c], CycleMembers(x, c), {}) && Kept(x, fs0, st0, fs1, st1, {}, {c})
    requires Untouched(x, fs1, st1, fs2, st2, x.lv.fn[m], {m}, {}) && Kept(x, fs1, st1, fs2, st2, {m}, {c})
    ensures Untouched(x, fs0, st0, fs2, st2, x.lv.cyc[c], CycleMembers(x, c), {}) && Kept(x, fs0, st0, fs2, st2, {}, {c})
  {
    MemberUntouched(x, fs0, st0, fs1, st1, fs2, st2, c, m);
    KeptMember(x, fs1, st1, fs2, st2, m, {c});
    KeptTrans(x, fs0, st0, fs1, st1, fs2, st2, {}, {c});
  }

  lemma MemberUntouched(x: IntegrableInput, fs0: map<FunctionId, Function>, st0: seq<Cycle>, fs1: map<FunctionId, Function>, st1: seq<Cycle>,
                        fs2: map<FunctionId, Function>, st2: seq<Cycle>, c: nat, m: FunctionId)
    requires c < |x.store| && Stable(x, fs0, st0) && Stable(x, fs1, st1) && Stable(x, fs2, st2)
    requires m in x.fs && x.lv.fn[m] == x.lv.cyc[c] && m in CycleMembers(x, c)
    requires Untouched(x, fs0, st0, fs1, st1, x.lv.cyc[c], CycleMembers(x, c), {})
    requires Untouched(x, fs1, st1, fs2, st2, x.lv.fn[m], {m}, {})
    ensures Untouched(x, fs0, st0, fs2, st2, x.lv.cyc[c], CycleMembers(x, c), {})
  {
    var L := x.lv.cyc[c];
    UntouchedMono(x, fs1, st1, fs2, st2, L, {m}, {}, L, CycleMembers(x, c), {});
    UntouchedTrans(x, fs0, st0, fs1, st1, fs2, st2, L, CycleMembers(x, c), {}, L, CycleMembers(x, c), {});
  }

  lemma MembersWalkStart(x: IntegrableInput, fs: map<FunctionId, Function>, st: seq<Cycle>, c: nat)
    requires c < |x.store|
    requires OkBelow(x, fs, st, x.lv.cyc[c] as int - 1) && CycleOriginal(x, fs, st, c)
    ensures MembersWalk(x, fs, st, fs, st, c, {})
  {
    UntouchedRefl(x, fs, st, x.lv.cyc[c], CycleMembers(x, c), {});
    KeptRefl(x, fs, st);
  }

  /** A member not taken yet starts the walk over its calls as it was. */
  lemma MemberCallsStart(x: IntegrableInput, fs0: map<FunctionId, Function>, st0: seq<Cycle>, fs: map<FunctionId, Function>, st: seq<Cycle>,
                         c: nat, passed: set<FunctionId>, m: FunctionId)
    requires MembersWalk(x, fs0, st0, fs, st, c, passed) && m in CycleMembers(x, c) && m !in passed
    ensures m in x.fs && CycleOf(x, m) == {c} && m in fs && fs[m] == x.fs[m]
    ensures CallsWalk(x, fs, st, fs, st, m, {}, {c})
  {
    assert InCycle(x.fs, m, c);
    CallsWalkStart(x, fs, st, m);
  }

  /** A member whose calls out of the cycle are done joins `passed`. */
  lemma MemberCallsEnd(x: IntegrableInput, fs0: map<FunctionId, Function>, st0: seq<Cycle>, fs1: map<FunctionId, Function>, st1: seq<Cycle>,
                       fs2: map<FunctionId, Function>, st2: seq<Cycle>, c: nat, passed: set<FunctionId>, m: FunctionId)
    requires MembersWalk(x, fs0, st0, fs1, st1, c, passed) && m in CycleMembers(x, c) && m !in passed
    requires CallsWalk(x, fs1, st1, fs2, st2, m, x.fs[m].calls.Keys, {c})
    ensures MembersWalk(x, fs0, st0, fs2, st2, c, passed + {m})
  {
    MemberLevel(x, c, m);
    OkMono(x, fs2, st2, x.lv.fn[m] as int - 1, x.lv.cyc[c] as int - 1);
    MemberFrame(x, fs0, st0, fs1, st1, fs2, st2, c, m);
    MembersAtStep(x, fs1, st1, fs2, st2, c, passed, m);
  }

  /** After the first loop of `_integrate_cycle` every member has its
      calls out of the cycle done. */
  lemma MembersWalkDone(x: IntegrableInput, fs0: map<FunctionId, Function>, st0: seq<Cycle>, fs1: map<FunctionId, Function>, st1: seq<Cycle>,
                        c: nat)
    requires c < |x.store| && MembersWalk(x, fs0, st0, fs1, st1, c, CycleMembers(x, c))
    ensures Shaped(x, fs1) && MembersAt(x, fs1, c, CycleMembers(x, c))
  {
  }

  /** The end of `_integrate_cycle`: with the total stored on the cycle
      and every entry distributed over the members, the cycle is
      integrated, and the invariant holds at its level. */
  lemma CycleFinish(x: IntegrableInput, fs0: map<FunctionId, Function>, st0: seq<Cycle>, fs1: map<FunctionId, Function>, st1: seq<Cycle>,
                    fs2: map<FunctionId, Function>, st2: seq<Cycle>, c: nat)
    requires Aimed(x) && c < |x.store| && CycleMembers(x, c) != {} && x.outEvent !in x.store[c].events
    requires OkBelow(x, fs0, st0, x.lv.cyc[c]) && CycleOriginal(x, fs0, st0, c)
    requires MembersWalk(x, fs0, st0, fs1, st1, c, CycleMembers(x, c))
    requires c < |st1| && st2 == st1[c := st1[c].(events := st1[c].events[x.outEvent := CycleOut(x, c)])]
    requires Shaped(x, fs2) && Distributed(x, fs2, c, Entries(x.fs, c)) && OnlyMembers(x, c, fs1, fs2)
    ensures Stable(x, fs2, st2)
    ensures OkBelow(x, fs2, st2, x.lv.cyc[c]) && CycleDone(x, fs2, st2, c)
    ensures Untouched(x, fs0, st0, fs2, st2, x.lv.cyc[c] + 1, {}, {}) && Kept(x, fs0, st0, fs2, st2, {}, {})
  {
    var L := x.lv.cyc[c];
    assert st1[c] == x.store[c];
    CycleDoneAt(x, fs1, st1, fs2, st2, c);
    CyclePhase(x, fs1, st1, fs2, st2, c);
    CycleFinishFrame(x, fs0, st0, fs1, st1, fs2, st2, c);
  }

  /** The total stored on the cycle and the shares of every entry on its
      members make the cycle integrated. */
  lemma CycleDoneAt(x: IntegrableInput, fs1: map<FunctionId, Function>, st1: seq<Cycle>, fs2: map<FunctionId, Function>, st2: seq<Cycle>, c: nat)
    requires Aimed(x) && c < |x.store| && CycleMembers(x, c) != {} && x.outEvent !in x.store[c].events
    requires c < |st1| && |st1| == |x.store| && st1[c] == x.store[c]
    requires st2 == st1[c := st1[c].(events := st1[c].events[x.outEvent := CycleOut(x, c)])]
    requires Shaped(x, fs1) && Shaped(x, fs2) && Distributed(x, fs2, c, Entries(x.fs, c)) && OnlyMembers(x, c, fs1, fs2)
    ensures Stable(x, fs2, st2) && CycleDone(x, fs2, st2, c)
    ensures forall g :: g in x.fs && !InCycle(x.fs, g, c) ==> fs2[g] == fs1[g]
    ensures forall d :: 0 <= d < |x.store| && d != c ==> st2[d] == st1[d]
  {
    MembersFinal(x, fs2, c);
    CycleFinal(x, c);
  }

  /** Members holding their shares of every entry are integrated. */
  lemma MembersFinal(x: IntegrableInput, fs: map<FunctionId, Function>, c: nat)
    requires Aimed(x) && c < |x.store| && x.outEvent !in x.store[c].events
    requires Distributed(x, fs, c, Entries(x.fs, c))
    ensures forall m :: m in CycleMembers(x, c) ==> m in fs && fs[m] == x.final[m]
  {
    forall m | m in CycleMembers(x, c)
      ensures m in fs && fs[m] == x.final[m]
    {
      MemberFinal(x, fs, c, m);
    }
  }

  /** A member holding its share of every entry is integrated. */
  lemma MemberFinal(x: IntegrableInput, fs: map<FunctionId, Function>, c: nat, m: FunctionId)
    requires Aimed(x) && c < |x.store| && x.outEvent !in x.store[c].events
    requires Distributed(x, fs, c, Entries(x.fs, c)) && m in CycleMembers(x, c)
    ensures m in fs && fs[m] == x.final[m]
  {
    MemberLevel(x, c, m);
    assert x.final[m] == FinalFunction(x, m);
  }

  /** A cycle with members that lacks the output kind ends up holding its total. */
  lemma CycleFinal(x: IntegrableInput, c: nat)
    requires Aimed(x) && c < |x.store| && CycleMembers(x, c) != {} && x.outEvent !in x.store[c].events
    ensures x.finalStore[c] == x.store[c].(events := x.store[c].events[x.outEvent := CycleOut(x, c)])
  {
    assert x.finalStore[c] == FinalCycle(x, c);
  }

  /** The frame of the whole of `_integrate_cycle`. */
  lemma CycleFinishFrame(x: IntegrableInput, fs0: map<FunctionId, Function>, st0: seq<Cycle>, fs1: map<FunctionId, Function>, st1: seq<Cycle>,
                         fs2: map<FunctionId, Function>, st2: seq<Cycle>, c: nat)
    requires c < |x.store| && Stable(x, fs0, st0) && Stable(x, fs1, st1) && Stable(x, fs2, st2)
    requires OkBelow(x, fs0, st0, x.lv.cyc[c]) && OkBelow(x, fs2, st2, x.lv.cyc[c] as int - 1) && CycleDone(x, fs2, st2, c)
    requires Untouched(x, fs0, st0, fs1, st1, x.lv.cyc[c], CycleMembers(x, c), {}) && Kept(x, fs0, st0, fs1, st1, {}, {c})
    requires Untouched(x, fs1, st1, fs2, st2, x.lv.cyc[c], CycleMembers(x, c), {c}) && Kept(x, fs1, st1, fs2, st2, {}, {c})
    ensures OkBelow(x, fs2, st2, x.lv.cyc[c])
    ensures Untouched(x, fs0, st0, fs2, st2, x.lv.cyc[c] + 1, {}, {}) && Kept(x, fs0, st0, fs2, st2, {}, {})
  {
    var L := x.lv.cyc[c];
    UntouchedMono(x, fs0, st0, fs1, st1, L, CycleMembers(x, c), {}, L, CycleMembers(x, c), {c});
    UntouchedTrans(x, fs0, st0, fs1, st1, fs2, st2, L, CycleMembers(x, c), {c}, L, CycleMembers(x, c), {c});
    CycleLift(x, fs0, st0, fs2, st2, c);
    UntouchedAbove(x, fs0, st0, fs2, st2, c);
    KeptTrans(x, fs0, st0, fs1, st1, fs2, st2, {}, {c});
    KeptCycleDone(x, fs0, st0, fs2, st2, c);
  }

  /** The members of a cycle and the cycle itself sit at its level, so
      above it they are no exception. */
  lemma UntouchedAbove(x: IntegrableInput, fs0: map<FunctionId, Function>, st0: seq<Cycle>, fs1: map<FunctionId, Function>, st1: seq<Cycle>, c: nat)
    requires c < |x.store| && Stable(x, fs0, st0) && Stable(x, fs1, st1)
    requires Untouched(x, fs0, st0, fs1, st1, x.lv.cyc[c], CycleMembers(x, c), {c})
    ensures Untouched(x, fs0, st0, fs1, st1, x.lv.cyc[c] + 1, {}, {})
  {
    forall f | f in CycleMembers(x, c)
      ensures f in x.fs && x.lv.fn[f] == x.lv.cyc[c]
    {
      MemberLevel(x, c, f);
    }
  }

  /** An integrated cycle, with nothing else of its level changed, lifts
      the invariant to its level. */
  lemma CycleLift(x: IntegrableInput, fs0: map<FunctionId, Function>, st0: seq<Cycle>, fs2: map<FunctionId, Function>, st2: seq<Cycle>, c: nat)
    requires c < |x.store| && Stable(x, fs0, st0) && Stable(x, fs2, st2)
    requires OkBelow(x, fs0, st0, x.lv.cyc[c]) && OkBelow(x, fs2, st2, x.lv.cyc[c] as int - 1) && CycleDone(x, fs2, st2, c)
    requires Untouched(x, fs0, st0, fs2, st2, x.lv.cyc[c], CycleMembers(x, c), {c})
    ensures OkBelow(x, fs2, st2, x.lv.cyc[c])
  {
    forall f | f in CycleMembers(x, c)
      ensures f in x.fs && x.fs[f].cycle == Some(c)
    {
      MemberLevel(x, c, f);
    }
    OkLift(x, fs0, st0, fs2, st2, x.lv.cyc[c], CycleMembers(x, c), {c});
  }
}
