/** The state of the profile while `_integrate_cycle_function`
    (gprof2dot.py:685-707) spreads what enters a cycle at one entry over
    the members it reaches: every member is as the earlier entries left it
    until the walk reaches it, and then holds the share of this entry too. */
module Distribution {
  import opened Wrappers
  import opened Events
  import opened Entities
  import opened Sums
  import opened Ratios
  import opened Graphs
  import opened CycleRanks
  import opened CallTables
  import opened Integration
  import opened IntegrationSteps
  import opened IntegrationState
  import opened RatioTables

  /** Member `m` during the walk for entry `e`: once the walk has recorded
      it in `partials`, it holds the share of `e` and `partials` holds that
      share; before, it is as the entries of `done` left it. */
  ghost predicate GoodMember(x: IntegrableInput, fs: map<FunctionId, Function>, c: nat, done: set<FunctionId>, e: FunctionId,
                             partials: map<FunctionId, real>, m: FunctionId)
    requires e in Entries(x.fs, c) && InCycle(x.fs, m, c)
  {
    && m in fs
    && (m in partials ==>
          && m in EntryRanks(x.fs, c, e)
          && fs[m] == DistMember(x, c, done + {e}, m)
          && partials[m] == Partial(x, c, EntryRanks(x.fs, c, e), EntryRatio(x.fs, c, e), m))
    && (m !in partials ==> fs[m] == DistMember(x, c, done, m))
  }

  /** A member the walk did not touch keeps its state. */
  lemma GoodFrame(x: IntegrableInput, fs: map<FunctionId, Function>, fs': map<FunctionId, Function>, c: nat, done: set<FunctionId>,
                  e: FunctionId, p: map<FunctionId, real>, p': map<FunctionId, real>, m: FunctionId)
    requires e in Entries(x.fs, c) && InCycle(x.fs, m, c)
    requires GoodMember(x, fs, c, done, e, p, m)
    requires m in fs' && fs'[m] == fs[m] && (m in p' <==> m in p) && (m in p ==> p'[m] == p[m])
    ensures GoodMember(x, fs', c, done, e, p', m)
  {
  }

  /** The table `call_ratios` holds, for every ranked member with a
      forward caller, the ratios of its forward calls added up. */
  ghost predicate RatiosOf(fs: map<FunctionId, Function>, c: nat, ranks: map<FunctionId, nat>, callRatios: map<FunctionId, real>)
  {
    forall k :: k in ranks && ForwardCallers(fs, c, ranks, k) != {} ==> k in callRatios && callRatios[k] == ForwardRatio(fs, c, ranks, k)
  }

  /** A member the entry `e` does not reach is not changed by it. */
  lemma UnreachedSame(x: IntegrableInput, c: nat, done: set<FunctionId>, e: FunctionId, m: FunctionId)
    requires Fresh(x) && e in Entries(x.fs, c) && e !in done
    requires InCycle(x.fs, m, c) && m !in EntryRanks(x.fs, c, e)
    ensures DistMember(x, c, done + {e}, m) == DistMember(x, c, done, m)
  {
    MemberAccStep(x, c, done, e, m);
    var a, b := DistTable(x, c, done, m), DistTable(x, c, done + {e}, m);
    forall k | k in a
      ensures a[k] == b[k]
    {
      DistCallStep(x, c, done, e, m, k);
    }
    SameTable(a, b);
  }

  lemma SkeletonOfDistMember(x: IntegrableInput, c: nat, done: set<FunctionId>, m: FunctionId)
    requires InCycle(x.fs, m, c)
    ensures FnSkeleton(DistMember(x, c, done, m), x.fs[m])
  {
    var t := DistTable(x, c, done, m);
    forall k | k in t
      ensures t[k].ratio == x.fs[m].calls[k].ratio && t[k].calleeId == x.fs[m].calls[k].calleeId
    {
      assert t[k] == DistCall(x, c, done, m, k);
    }
  }

  lemma SkeletonOfMixed(x: IntegrableInput, c: nat, done: set<FunctionId>, e: FunctionId, m: FunctionId, passed: set<FunctionId>)
    requires InCycle(x.fs, m, c)
    ensures FnSkeleton(Mixed(x, c, done, e, m, passed), x.fs[m])
  {
    SkeletonOfDistMember(x, c, done, m);
    SkeletonOfDistMember(x, c, done + {e}, m);
  }

  /** The ranks read from a profile with the same skeleton are the ranks
      of the profile itself. */
  lemma SkeletonRanks(a: map<FunctionId, Function>, b: map<FunctionId, Function>, c: nat, e: FunctionId)
    requires SameSkeleton(a, b) && InCycle(b, e, c)
    ensures InCycle(a, e, c) && EntryRanks(a, c, e) == EntryRanks(b, c, e)
  {
    SkeletonGraph(a, b, c);
  }

  /** What `_rank_cycle_function` and `_call_ratios_cycle` need, read off
      a profile with the skeleton of the original one. */
  lemma RanksReady(x: IntegrableInput, fs: map<FunctionId, Function>, c: nat, e: FunctionId)
    requires Shaped(x, fs) && e in Entries(x.fs, c)
    ensures SameSkeleton(fs, x.fs) && Closed(fs) && Rated(fs) && InCycle(fs, e, c) && TableOf(fs, map[], map[])
    ensures EntryRanks(fs, c, e) == Distances(CycleGraph(fs, c), e) && e in EntryRanks(fs, c, e)
    ensures RanksClosed(CycleGraph(fs, c), EntryRanks(fs, c, e))
    ensures forall v :: v in EntryRanks(fs, c, e) ==> InCycle(fs, v, c)
    ensures EntryRanks(fs, c, e) == EntryRanks(x.fs, c, e)
  {
    ShapedSkeleton(x, fs);
    SkeletonRanks(fs, x.fs, c, e);
    DistancesMeaning(CycleGraph(fs, c), e);
    TableEmpty(fs);
  }

  /** The table `_call_ratios_cycle` builds from the entry `e` holds the
      forward ratios of the original profile. */
  lemma RatiosFromWalk(x: IntegrableInput, fs: map<FunctionId, Function>, c: nat, e: FunctionId, vs: set<FunctionId>,
                       who: map<FunctionId, set<FunctionId>>, t: map<FunctionId, real>)
    requires SameSkeleton(fs, x.fs) && e in Entries(x.fs, c) && InCycle(fs, e, c)
    requires TableOf(fs, who, t) && vs <= EntryRanks(fs, c, e).Keys && e in vs
    requires forall g, k :: HasCaller(who, g, k) <==> HasCaller(map[], g, k) || (g in vs - {} && Forward(fs, c, EntryRanks(fs, c, e), g, k))
    requires forall g, k :: g in vs - {} && Forward(fs, c, EntryRanks(fs, c, e), g, k) ==> k in vs
    ensures RatiosOf(x.fs, c, EntryRanks(x.fs, c, e), t)
  {
    assert vs - {} == vs;
    RatiosFromTable(x, fs, c, e, vs, who, t);
  }

  /** The table `_call_ratios_cycle` builds from a profile with the same
      skeleton holds the forward ratios of the original profile. */
  lemma RatiosFromTable(x: IntegrableInput, fs: map<FunctionId, Function>, c: nat, e: FunctionId, vs: set<FunctionId>,
                        who: map<FunctionId, set<FunctionId>>, t: map<FunctionId, real>)
    requires SameSkeleton(fs, x.fs) && e in Entries(x.fs, c)
    requires InCycle(fs, e, c) && e in vs && vs <= EntryRanks(fs, c, e).Keys
    requires ForwardClosed(fs, c, EntryRanks(fs, c, e), vs)
    requires TableOf(fs, who, t)
    requires forall g, k :: HasCaller(who, g, k) <==> g in vs && Forward(fs, c, EntryRanks(fs, c, e), g, k)
    ensures RatiosOf(x.fs, c, EntryRanks(x.fs, c, e), t)
  {
    ForwardTableMeaning(fs, c, e, vs, who, t);
    SkeletonRanks(fs, x.fs, c, e);
    var ranks := EntryRanks(x.fs, c, e);
    forall k | k in ranks && ForwardCallers(x.fs, c, ranks, k) != {}
      ensures k in t && t[k] == ForwardRatio(x.fs, c, ranks, k)
    {
      SkeletonRatios(fs, x.fs, c, ranks, k);
    }
  }

  /** What the walk for entry `e` works with: the ranks of the members seen
      from `e`, the ratio that enters at `e` and the forward ratios. */
  ghost predicate Walk(x: IntegrableInput, c: nat, e: FunctionId, done: set<FunctionId>, r: real, ranks: map<FunctionId, nat>,
                       callRatios: map<FunctionId, real>, outEvent: Event, inEvent: Event)
  {
    && Fresh(x) && outEvent == x.outEvent && inEvent == x.inEvent
    && e in Entries(x.fs, c) && e !in done
    && ranks == EntryRanks(x.fs, c, e) && r == EntryRatio(x.fs, c, e)
    && RatiosOf(x.fs, c, ranks, callRatios)
  }

  /** The state in which the walk integrates member `f`: the recorded
      members are ranked, closed under forward calls, and every member
      ranked `f` or deeper is as `GoodMember` says. */
  ghost predicate FunctionReady(x: IntegrableInput, c: nat, done: set<FunctionId>, e: FunctionId, r: real, ranks: map<FunctionId, nat>,
                                callRatios: map<FunctionId, real>, f: FunctionId,
                                fs: map<FunctionId, Function>, p: map<FunctionId, real>)
  {
    && Walk(x, c, e, done, r, ranks, callRatios, x.outEvent, x.inEvent)
    && f in ranks && p.Keys <= ranks.Keys && ForwardClosed(x.fs, c, ranks, p.Keys)
    && GoodFrom(x, fs, c, done, e, p, ranks[f])
  }

  /** The state in which the walk handles the call `f -> k` of member
      `f`: the calls of `passed` are handled, `f` holds their blend and is
      not yet recorded, the recorded members are closed under forward
      calls, and every member ranked below `f` is as `GoodMember` says. */
  ghost predicate CallReady(x: IntegrableInput, c: nat, done: set<FunctionId>, e: FunctionId, r: real, ranks: map<FunctionId, nat>,
                            callRatios: map<FunctionId, real>, f: FunctionId, k: FunctionId, passed: set<FunctionId>,
                            fs: map<FunctionId, Function>, p: map<FunctionId, real>)
  {
    && Walk(x, c, e, done, r, ranks, callRatios, x.outEvent, x.inEvent)
    && f in ranks && p.Keys <= ranks.Keys && ForwardClosed(x.fs, c, ranks, p.Keys)
    && k in x.fs[f].calls && k !in passed
    && f in fs && fs[f] == Mixed(x, c, done, e, f, passed) && f !in p
    && GoodFrom(x, fs, c, done, e, p, ranks[f] + 1)
  }

  /** What handling the call `f -> k` leaves behind, from the state
      `fs0`, `p0` to `fs1`, `p1`: the call added its term of the share of
      `f`, `f` holds the blend with `k` passed, and the rest is as
      `CallFrame` says. */
  ghost predicate CallStepped(x: IntegrableInput, c: nat, done: set<FunctionId>, e: FunctionId, r: real, ranks: map<FunctionId, nat>,
                              f: FunctionId, k: FunctionId, passed: set<FunctionId>,
                              fs0: map<FunctionId, Function>, p0: map<FunctionId, real>,
                              fs1: map<FunctionId, Function>, p1: map<FunctionId, real>, add: real)
    requires e in Entries(x.fs, c) && ranks == EntryRanks(x.fs, c, e) && f in ranks
  {
    && add == At(PartialTerms(x, c, ranks, r, f), k)
    && f in fs1 && fs1[f] == Mixed(x, c, done, e, f, passed + {k})
    && CallFrame(x, c, done, e, ranks, f, k, fs0, p0, fs1, p1)
  }

  /** The walk under the call `f -> k` recorded only members deeper than
      `f` (`k` among them when the call is forward), changed no other
      member but `f`, and left every member ranked below `f` as
      `GoodMember` says. */
  ghost predicate CallFrame(x: IntegrableInput, c: nat, done: set<FunctionId>, e: FunctionId, ranks: map<FunctionId, nat>,
                            f: FunctionId, k: FunctionId,
                            fs0: map<FunctionId, Function>, p0: map<FunctionId, real>,
                            fs1: map<FunctionId, Function>, p1: map<FunctionId, real>)
    requires e in Entries(x.fs, c) && ranks == EntryRanks(x.fs, c, e) && f in ranks
  {
    && WalkFrame(ranks, f, fs0, p0, fs1, p1) && f !in p1
    && ForwardClosed(x.fs, c, ranks, p1.Keys)
    && (Forward(x.fs, c, ranks, f, k) ==> k in p1)
    && GoodFrom(x, fs1, c, done, e, p1, ranks[f] + 1)
  }

  /** Every member ranked `lo` or deeper is as `GoodMember` says. */
  ghost predicate GoodFrom(x: IntegrableInput, fs: map<FunctionId, Function>, c: nat, done: set<FunctionId>, e: FunctionId,
                           partials: map<FunctionId, real>, lo: int)
    requires e in Entries(x.fs, c)
  {
    forall m :: m in EntryRanks(x.fs, c, e) && EntryRanks(x.fs, c, e)[m] >= lo ==> GoodMember(x, fs, c, done, e, partials, m)
  }

  lemma GoodFromMono(x: IntegrableInput, fs: map<FunctionId, Function>, c: nat, done: set<FunctionId>, e: FunctionId,
                     partials: map<FunctionId, real>, lo: int, hi: int)
    requires e in Entries(x.fs, c) && lo <= hi
    requires GoodFrom(x, fs, c, done, e, partials, lo)
    ensures GoodFrom(x, fs, c, done, e, partials, hi)
  {
  }

  /** A walk that went no nearer the entry than `hi`, but for `f`, leaves
      the members ranked from `lo` on as they were. */
  lemma GoodFromFrame(x: IntegrableInput, fs: map<FunctionId, Function>, fs': map<FunctionId, Function>, c: nat, done: set<FunctionId>,
                      e: FunctionId, p: map<FunctionId, real>, p': map<FunctionId, real>, lo: int, hi: int, f: FunctionId)
    requires e in Entries(x.fs, c) && lo <= hi && InCycle(x.fs, f, c)
    requires GoodFrom(x, fs, c, done, e, p, lo) && GoodFrom(x, fs', c, done, e, p', hi) && GoodMember(x, fs', c, done, e, p', f)
    requires forall m :: m in fs && m != f && !(m in p' && m !in p) ==> m in fs' && fs'[m] == fs[m]
    requires forall m :: m in p ==> m in p' && p'[m] == p[m]
    requires forall m :: m in p' && m !in p && m != f ==> m in EntryRanks(x.fs, c, e) && EntryRanks(x.fs, c, e)[m] >= hi
    ensures GoodFrom(x, fs', c, done, e, p', lo)
  {
    var ranks := EntryRanks(x.fs, c, e);
    forall m | m in ranks && ranks[m] >= lo
      ensures GoodMember(x, fs', c, done, e, p', m)
    {
      if ranks[m] < hi && m != f {
        assert GoodMember(x, fs, c, done, e, p, m);
        GoodFrame(x, fs, fs', c, done, e, p, p', m);
      }
    }
  }

  /** A call leaving the cycle holds what it carries once the first half
      of `_integrate_cycle` has run. */
  lemma ExternalHeld(x: IntegrableInput, c: nat, done: set<FunctionId>, f: FunctionId, k: FunctionId)
    requires InCycle(x.fs, f, c) && k in x.fs[f].calls && k != f && !InCycle(x.fs, k, c)
    ensures DistCall(x, c, done, f, k).events[x.outEvent] == CallOut(x, f, k)
  {
  }

  /** A call leaving the cycle adds `r` times what it carries. */
  lemma ExternalTerm(x: IntegrableInput, c: nat, ranks: map<FunctionId, nat>, r: real, f: FunctionId, k: FunctionId)
    requires RanksClosed(CycleGraph(x.fs, c), ranks) && f in ranks && InCycle(x.fs, f, c)
    requires k in x.fs[f].calls && k != f && !InCycle(x.fs, k, c)
    ensures At(PartialTerms(x, c, ranks, r, f), k) == Times(r, CallOut(x, f, k))
  {
    assert At(PartialTerms(x, c, ranks, r, f), k) == PartialTerm(x, c, ranks, r, f, k);
  }

  /** Changing a member ranked above `lo` leaves the members ranked `lo`
      or deeper as they were. */
  lemma GoodFromSkip(x: IntegrableInput, fs: map<FunctionId, Function>, c: nat, done: set<FunctionId>, e: FunctionId,
                     p: map<FunctionId, real>, lo: int, f: FunctionId, fn: Function)
    requires e in Entries(x.fs, c) && f in EntryRanks(x.fs, c, e) && EntryRanks(x.fs, c, e)[f] < lo
    requires GoodFrom(x, fs, c, done, e, p, lo)
    ensures GoodFrom(x, fs[f := fn], c, done, e, p, lo)
  {
    var ranks := EntryRanks(x.fs, c, e);
    forall m | m in ranks && ranks[m] >= lo
      ensures GoodMember(x, fs[f := fn], c, done, e, p, m)
    {
      assert GoodMember(x, fs, c, done, e, p, m);
    }
  }

  /** A forward call adds the share it passes on for the entry. */
  lemma ForwardTerm(x: IntegrableInput, c: nat, e: FunctionId, f: FunctionId, k: FunctionId)
    requires e in Entries(x.fs, c) && Forward(x.fs, c, EntryRanks(x.fs, c, e), f, k)
    ensures CallShare(x, c, e, f, k) == At(PartialTerms(x, c, EntryRanks(x.fs, c, e), EntryRatio(x.fs, c, e), f), k)
    ensures CallShare(x, c, e, f, k) ==
      Times(SafeRatio(RatioOf(x.fs, f, k), ForwardRatio(x.fs, c, EntryRanks(x.fs, c, e), k)), Partial(x, c, EntryRanks(x.fs, c, e), EntryRatio(x.fs, c, e), k))
  {
    var ranks, r := EntryRanks(x.fs, c, e), EntryRatio(x.fs, c, e);
    assert CallShare(x, c, e, f, k) == Passed(x, c, ranks, r, f, k);
    assert At(PartialTerms(x, c, ranks, r, f), k) == PartialTerm(x, c, ranks, r, f, k);
    ForwardPassed(x, c, ranks, r, f, k);
  }

  lemma ForwardPassed(x: IntegrableInput, c: nat, ranks: map<FunctionId, nat>, r: real, f: FunctionId, k: FunctionId)
    requires RanksClosed(CycleGraph(x.fs, c), ranks) && Forward(x.fs, c, ranks, f, k)
    ensures PartialTerm(x, c, ranks, r, f, k) == Passed(x, c, ranks, r, f, k)
    ensures Passed(x, c, ranks, r, f, k) == Times(SafeRatio(RatioOf(x.fs, f, k), ForwardRatio(x.fs, c, ranks, k)), Partial(x, c, ranks, r, k))
  {
  }

  /** Any other call adds nothing. */
  lemma OtherTerm(x: IntegrableInput, c: nat, ranks: map<FunctionId, nat>, r: real, f: FunctionId, k: FunctionId)
    requires RanksClosed(CycleGraph(x.fs, c), ranks) && f in ranks && InCycle(x.fs, f, c)
    requires k == f || (InCycle(x.fs, k, c) && !Forward(x.fs, c, ranks, f, k))
    ensures At(PartialTerms(x, c, ranks, r, f), k) == 0.0
  {
    if k != f && k in x.fs[f].calls {
      assert k in Succ(CycleGraph(x.fs, c), f);
    }
  }

  /** What integrating member `f` for entry `e` leaves behind, from the
      state `fs0`, `p0` to `fs1`, `p1`: `f` recorded its share `v`, the
      walk recorded only members at least as deep as `f`, changed only
      those, kept the forward closure, and every member ranked `f` or
      deeper is as `GoodMember` says. */
  ghost predicate CycleFunctionDone(x: IntegrableInput, c: nat, done: set<FunctionId>, e: FunctionId, r: real, ranks: map<FunctionId, nat>,
                                    f: FunctionId, fs0: map<FunctionId, Function>, p0: map<FunctionId, real>,
                                    fs1: map<FunctionId, Function>, p1: map<FunctionId, real>, v: real)
    requires e in Entries(x.fs, c) && ranks == EntryRanks(x.fs, c, e) && f in ranks
  {
    && DoneFrame(ranks, f, fs0, p0, fs1, p1) && f in p1 && v == p1[f]
    && v == Partial(x, c, ranks, r, f)
    && ForwardClosed(x.fs, c, ranks, p1.Keys)
    && GoodFrom(x, fs1, c, done, e, p1, ranks[f])
  }

  /** From the state `fs0`, `p0` to `fs1`, `p1`, integrating `f` kept
      every recorded share, recorded only members at least as deep as
      `f`, and changed only those. */
  ghost predicate DoneFrame(ranks: map<FunctionId, nat>, f: FunctionId,
                            fs0: map<FunctionId, Function>, p0: map<FunctionId, real>,
                            fs1: map<FunctionId, Function>, p1: map<FunctionId, real>)
    requires f in ranks
  {
    && p0.Keys <= p1.Keys <= ranks.Keys
    && (forall m :: m in p0 ==> p1[m] == p0[m])
    && (forall m :: m in p1 && m !in p0 ==> ranks[m] >= ranks[f])
    && (forall g :: g in fs0 && !(g in p1 && g !in p0) ==> g in fs1 && fs1[g] == fs0[g])
  }

  /** A forward call `f -> k`, once `k` is integrated, passes on its share
      of the forward ratios into `k` times the share of `k`. */
  lemma ForwardStepped(x: IntegrableInput, c: nat, done: set<FunctionId>, e: FunctionId, r: real, ranks: map<FunctionId, nat>,
                       callRatios: map<FunctionId, real>, f: FunctionId, k: FunctionId, passed: set<FunctionId>,
                       fs0: map<FunctionId, Function>, p0: map<FunctionId, real>,
                       fsMid: map<FunctionId, Function>, p1: map<FunctionId, real>, v: real, add: real)
    requires CallReady(x, c, done, e, r, ranks, callRatios, f, k, passed, fs0, p0) && Forward(x.fs, c, ranks, f, k)
    requires Shaped(x, fsMid) && CycleFunctionDone(x, c, done, e, r, ranks, k, fs0, p0, fsMid, p1, v)
    requires k in fs0[f].calls && fs0[f].calls[k].ratio.Some?
    requires k in callRatios && add == Times(SafeRatio(fs0[f].calls[k].ratio.value, callRatios[k]), v)
    ensures Shaped(x, fsMid[f := AddCallOut(fsMid[f], k, x.outEvent, add)])
    ensures CallStepped(x, c, done, e, r, ranks, f, k, passed, fs0, p0, fsMid[f := AddCallOut(fsMid[f], k, x.outEvent, add)], p1, add)
  {
    var fs1 := fsMid[f := AddCallOut(fsMid[f], k, x.outEvent, add)];
    assert ranks[k] > ranks[f];
    ForwardFrame(x, c, done, e, r, ranks, f, k, fs0, p0, fsMid, p1, v, AddCallOut(fsMid[f], k, x.outEvent, add), fs1);
    ForwardAdd(x, c, done, e, r, ranks, callRatios, f, k, passed, fs0[f], v, add);
    SkeletonOfMixed(x, c, done, e, f, passed + {k});
    ShapedUpdate(x, fsMid, f, AddCallOut(fsMid[f], k, x.outEvent, add));
  }

  /** The frame of a forward call `f -> k`: the walk from `k` recorded and
      changed only members at least as deep as `k`, and `f` changed last. */
  lemma ForwardFrame(x: IntegrableInput, c: nat, done: set<FunctionId>, e: FunctionId, r: real, ranks: map<FunctionId, nat>,
                     f: FunctionId, k: FunctionId, fs0: map<FunctionId, Function>, p0: map<FunctionId, real>,
                     fsMid: map<FunctionId, Function>, p1: map<FunctionId, real>, v: real, fn: Function, fs1: map<FunctionId, Function>)
    requires e in Entries(x.fs, c) && ranks == EntryRanks(x.fs, c, e)
    requires f in ranks && k in ranks && ranks[k] > ranks[f] && p0.Keys <= ranks.Keys && Forward(x.fs, c, ranks, f, k)
    requires f in fs0 && f !in p0
    requires GoodFrom(x, fs0, c, done, e, p0, ranks[f] + 1)
    requires CycleFunctionDone(x, c, done, e, r, ranks, k, fs0, p0, fsMid, p1, v)
    requires fs1 == fsMid[f := fn]
    ensures f in fsMid && fsMid[f] == fs0[f]
    ensures CallFrame(x, c, done, e, ranks, f, k, fs0, p0, fs1, p1)
  {
    assert f !in p1;
    FrameUpdate(fs0, fsMid, p0, p1, f, fn, fs1);
    GoodFromFrame(x, fs0, fsMid, c, done, e, p0, p1, ranks[f] + 1, ranks[k], k);
    GoodFromSkip(x, fsMid, c, done, e, p1, ranks[f] + 1, f, fn);
  }

  /** The callee of a forward call is ranked deeper, so fewer members
      lie deeper than it, the table of forward ratios has its entry, the
      call carries its ratio, and the walk is ready to integrate it. */
  lemma ForwardKnown(x: IntegrableInput, c: nat, done: set<FunctionId>, e: FunctionId, r: real, ranks: map<FunctionId, nat>,
                     callRatios: map<FunctionId, real>, f: FunctionId, k: FunctionId, passed: set<FunctionId>,
                     fs: map<FunctionId, Function>, p: map<FunctionId, real>)
    requires CallReady(x, c, done, e, r, ranks, callRatios, f, k, passed, fs, p) && Forward(x.fs, c, ranks, f, k)
    ensures k in ranks && ranks[k] > ranks[f] && k in callRatios
    ensures DeeperThan(ranks, k) < DeeperThan(ranks, f)
    ensures k in fs[f].calls && fs[f].calls[k].ratio.Some?
    ensures FunctionReady(x, c, done, e, r, ranks, callRatios, k, fs, p)
  {
    assert k in DeeperThan(ranks, f) && k !in DeeperThan(ranks, k);
    assert f in ForwardCallers(x.fs, c, ranks, k);
    SkeletonOfMixed(x, c, done, e, f, passed);
    GoodFromMono(x, fs, c, done, e, p, ranks[f] + 1, ranks[k]);
  }

  /** Changing `f` alone keeps the frame of a walk step for every other
      member. */
  lemma FrameUpdate(fs0: map<FunctionId, Function>, fsMid: map<FunctionId, Function>, p0: map<FunctionId, real>,
                    p1: map<FunctionId, real>, f: FunctionId, fn: Function, fs1: map<FunctionId, Function>)
    requires forall g :: g in fs0 && !(g in p1 && g !in p0) ==> g in fsMid && fsMid[g] == fs0[g]
    requires fs1 == fsMid[f := fn]
    ensures forall g :: g in fs0 && g != f && !(g in p1 && g !in p0) ==> g in fs1 && fs1[g] == fs0[g]
  {
  }

  /** What the forward call `f -> k` adds, out of the ratio the call
      carries, the forward ratios into `k` and the share `v` of `k`, is its
      term of the share of `f`, and blends `k` into `f`. */
  lemma ForwardAdd(x: IntegrableInput, c: nat, done: set<FunctionId>, e: FunctionId, r: real, ranks: map<FunctionId, nat>,
                   callRatios: map<FunctionId, real>, f: FunctionId, k: FunctionId, passed: set<FunctionId>,
                   fn: Function, v: real, add: real)
    requires Walk(x, c, e, done, r, ranks, callRatios, x.outEvent, x.inEvent)
    requires f in ranks && k in x.fs[f].calls && k !in passed && Forward(x.fs, c, ranks, f, k)
    requires fn == Mixed(x, c, done, e, f, passed) && k in fn.calls && fn.calls[k].ratio.Some? && v == Partial(x, c, ranks, r, k)
    requires k in callRatios && add == Times(SafeRatio(fn.calls[k].ratio.value, callRatios[k]), v)
    ensures add == At(PartialTerms(x, c, ranks, r, f), k)
    ensures AddCallOut(fn, k, x.outEvent, add) == Mixed(x, c, done, e, f, passed + {k})
  {
    ForwardTerm(x, c, e, f, k);
    MixedStep(x, c, done, e, f, passed, k);
    assert f in ForwardCallers(x.fs, c, ranks, k);
    SkeletonOfMixed(x, c, done, e, f, passed);
  }
  /** From the state `fs0`, `p0` to `fs`, `p`, the walk under member `f`
      kept every recorded share, recorded only members deeper than `f`,
      and changed no other member but `f`. */
  ghost predicate WalkFrame(ranks: map<FunctionId, nat>, f: FunctionId,
                            fs0: map<FunctionId, Function>, p0: map<FunctionId, real>,
                            fs: map<FunctionId, Function>, p: map<FunctionId, real>)
  {
    && f in ranks && p0.Keys <= p.Keys <= ranks.Keys
    && (forall m :: m in p0 ==> p[m] == p0[m])
    && (forall m :: m in p && m !in p0 ==> ranks[m] > ranks[f])
    && (forall g :: g in fs0 && g != f && !(g in p && g !in p0) ==> g in fs && fs[g] == fs0[g])
  }

  /** Two stretches of the walk under `f` make one. */
  lemma WalkFrameCompose(ranks: map<FunctionId, nat>, f: FunctionId,
                         fs0: map<FunctionId, Function>, p0: map<FunctionId, real>,
                         fs: map<FunctionId, Function>, p: map<FunctionId, real>,
                         fs': map<FunctionId, Function>, p': map<FunctionId, real>)
    requires WalkFrame(ranks, f, fs0, p0, fs, p) && WalkFrame(ranks, f, fs, p, fs', p')
    ensures WalkFrame(ranks, f, fs0, p0, fs', p')
  {
  }

  /** The state while `_integrate_cycle_function` works through the calls
      of member `f`: the calls of `passed` are handled, `f` holds their
      blend and is not yet recorded, the callee of every forward call of
      `passed` is recorded, the recorded members are closed under forward
      calls, and every member ranked below `f` is as `GoodMember` says. */
  ghost predicate MemberState(x: IntegrableInput, c: nat, done: set<FunctionId>, e: FunctionId, r: real, ranks: map<FunctionId, nat>,
                              callRatios: map<FunctionId, real>, f: FunctionId, passed: set<FunctionId>,
                              fs: map<FunctionId, Function>, p: map<FunctionId, real>)
  {
    && Walk(x, c, e, done, r, ranks, callRatios, x.outEvent, x.inEvent)
    && f in ranks && p.Keys <= ranks.Keys && ForwardClosed(x.fs, c, ranks, p.Keys)
    && f in fs && fs[f] == Mixed(x, c, done, e, f, passed) && f !in p
    && (forall k :: k in passed && Forward(x.fs, c, ranks, f, k) ==> k in p)
    && GoodFrom(x, fs, c, done, e, p, ranks[f] + 1)
  }

  /** The walk of `f` from the state `fs0`, `p0` it started in. */
  ghost predicate MemberWalk(x: IntegrableInput, c: nat, done: set<FunctionId>, e: FunctionId, r: real, ranks: map<FunctionId, nat>,
                             callRatios: map<FunctionId, real>, f: FunctionId, passed: set<FunctionId>,
                             fs0: map<FunctionId, Function>, p0: map<FunctionId, real>,
                             fs: map<FunctionId, Function>, p: map<FunctionId, real>)
  {
    MemberState(x, c, done, e, r, ranks, callRatios, f, passed, fs, p) && WalkFrame(ranks, f, fs0, p0, fs, p)
  }

  /** A member not yet recorded starts its walk with no call handled,
      holding what the earlier entries left. */
  lemma MemberStart(x: IntegrableInput, c: nat, done: set<FunctionId>, e: FunctionId, r: real, ranks: map<FunctionId, nat>,
                  callRatios: map<FunctionId, real>, f: FunctionId, fs: map<FunctionId, Function>, p: map<FunctionId, real>)
    requires FunctionReady(x, c, done, e, r, ranks, callRatios, f, fs, p) && f !in p
    ensures MemberWalk(x, c, done, e, r, ranks, callRatios, f, {}, fs, p, fs, p)
    ensures InCycle(x.fs, f, c) && f in fs && fs[f] == DistMember(x, c, done, f)
  {
    assert GoodMember(x, fs, c, done, e, p, f);
    MixedNone(x, c, done, e, f);
    GoodFromMono(x, fs, c, done, e, p, ranks[f], ranks[f] + 1);
  }

  /** A member, whatever entries are distributed, keeps its own cost and
      its calls. */
  lemma DistMemberHolds(x: IntegrableInput, c: nat, done: set<FunctionId>, f: FunctionId)
    requires Fresh(x) && InCycle(x.fs, f, c)
    ensures DistMember(x, c, done, f).calls.Keys == x.fs[f].calls.Keys
    ensures x.inEvent in DistMember(x, c, done, f).events && DistMember(x, c, done, f).events[x.inEvent] == InOf(x, f)
  {
    InNotOut(x, f);
    SkeletonOfDistMember(x, c, done, f);
  }

  /** A member already recorded is done: its share is the recorded one. */
  lemma MemberMemo(x: IntegrableInput, c: nat, done: set<FunctionId>, e: FunctionId, r: real, ranks: map<FunctionId, nat>,
                 callRatios: map<FunctionId, real>, f: FunctionId, fs: map<FunctionId, Function>, p: map<FunctionId, real>)
    requires FunctionReady(x, c, done, e, r, ranks, callRatios, f, fs, p) && f in p
    ensures CycleFunctionDone(x, c, done, e, r, ranks, f, fs, p, fs, p, p[f])
  {
    assert GoodMember(x, fs, c, done, e, p, f);
  }

  /** A call not yet handled is ready to be handled. */
  lemma MemberReady(x: IntegrableInput, c: nat, done: set<FunctionId>, e: FunctionId, r: real, ranks: map<FunctionId, nat>,
                  callRatios: map<FunctionId, real>, f: FunctionId, k: FunctionId, passed: set<FunctionId>,
                  fs0: map<FunctionId, Function>, p0: map<FunctionId, real>,
                  fs: map<FunctionId, Function>, p: map<FunctionId, real>)
    requires MemberWalk(x, c, done, e, r, ranks, callRatios, f, passed, fs0, p0, fs, p)
    requires k in x.fs[f].calls && k !in passed
    ensures CallReady(x, c, done, e, r, ranks, callRatios, f, k, passed, fs, p)
  {
  }

  /** Handling one more call keeps the walk of `f`. */
  lemma MemberStep(x: IntegrableInput, c: nat, done: set<FunctionId>, e: FunctionId, r: real, ranks: map<FunctionId, nat>,
                 callRatios: map<FunctionId, real>, f: FunctionId, k: FunctionId, passed: set<FunctionId>,
                 fs0: map<FunctionId, Function>, p0: map<FunctionId, real>,
                 fs: map<FunctionId, Function>, p: map<FunctionId, real>,
                 fs': map<FunctionId, Function>, p': map<FunctionId, real>, add: real)
    requires MemberWalk(x, c, done, e, r, ranks, callRatios, f, passed, fs0, p0, fs, p)
    requires k in x.fs[f].calls && k !in passed
    requires CallStepped(x, c, done, e, r, ranks, f, k, passed, fs, p, fs', p', add)
    ensures MemberWalk(x, c, done, e, r, ranks, callRatios, f, passed + {k}, fs0, p0, fs', p')
  {
    WalkFrameCompose(ranks, f, fs0, p0, fs, p, fs', p');
    MemberStateStep(x, c, done, e, r, ranks, callRatios, f, k, passed, fs, p, fs', p', add);
  }

  /** Handling one more call keeps the walk of `f`, and the running share
      of `f` gains that call's term. */
  lemma MemberCallStep(x: IntegrableInput, c: nat, done: set<FunctionId>, e: FunctionId, r: real, ranks: map<FunctionId, nat>,
                       callRatios: map<FunctionId, real>, f: FunctionId, k: FunctionId, passed: set<FunctionId>,
                       fs0: map<FunctionId, Function>, p0: map<FunctionId, real>,
                       fs: map<FunctionId, Function>, p: map<FunctionId, real>,
                       fs': map<FunctionId, Function>, p': map<FunctionId, real>, add: real, base: real, partial: real)
    requires MemberWalk(x, c, done, e, r, ranks, callRatios, f, passed, fs0, p0, fs, p)
    requires k in x.fs[f].calls && k !in passed
    requires CallStepped(x, c, done, e, r, ranks, f, k, passed, fs, p, fs', p', add)
    requires RunningSum(partial, base, passed, PartialTerms(x, c, ranks, r, f))
    ensures MemberWalk(x, c, done, e, r, ranks, callRatios, f, passed + {k}, fs0, p0, fs', p')
    ensures RunningSum(partial + add, base, passed + {k}, PartialTerms(x, c, ranks, r, f))
  {
    MemberStep(x, c, done, e, r, ranks, callRatios, f, k, passed, fs0, p0, fs, p, fs', p', add);
    SumAddTo(passed, PartialTerms(x, c, ranks, r, f), k, base, partial, add);
  }

  lemma MemberStateStep(x: IntegrableInput, c: nat, done: set<FunctionId>, e: FunctionId, r: real, ranks: map<FunctionId, nat>,
                        callRatios: map<FunctionId, real>, f: FunctionId, k: FunctionId, passed: set<FunctionId>,
                        fs: map<FunctionId, Function>, p: map<FunctionId, real>,
                        fs': map<FunctionId, Function>, p': map<FunctionId, real>, add: real)
    requires MemberState(x, c, done, e, r, ranks, callRatios, f, passed, fs, p)
    requires k in x.fs[f].calls && k !in passed
    requires CallStepped(x, c, done, e, r, ranks, f, k, passed, fs, p, fs', p', add)
    ensures MemberState(x, c, done, e, r, ranks, callRatios, f, passed + {k}, fs', p')
  {
  }

  /** Once every call of `f` is handled, adding the share of `f` to what
      it holds and recording it completes the member. */
  lemma MemberDone(x: IntegrableInput, c: nat, done: set<FunctionId>, e: FunctionId, r: real, ranks: map<FunctionId, nat>,
                 callRatios: map<FunctionId, real>, f: FunctionId,
                 fs0: map<FunctionId, Function>, p0: map<FunctionId, real>,
                 fs: map<FunctionId, Function>, p: map<FunctionId, real>, v: real)
    requires Walk(x, c, e, done, r, ranks, callRatios, x.outEvent, x.inEvent) && f in ranks
    requires MemberWalk(x, c, done, e, r, ranks, callRatios, f, x.fs[f].calls.Keys, fs0, p0, fs, p)
    requires GoodFrom(x, fs0, c, done, e, p0, ranks[f])
    requires v == Times(r, InOf(x, f)) + SumSet(x.fs[f].calls.Keys, PartialTerms(x, c, ranks, r, f))
    ensures FnSkeleton(AddFunctionOut(fs[f], x.outEvent, v), fs[f])
    ensures CycleFunctionDone(x, c, done, e, r, ranks, f, fs0, p0, fs[f := AddFunctionOut(fs[f], x.outEvent, v)], p[f := v], v)
  {
    var fn := AddFunctionOut(fs[f], x.outEvent, v);
    MemberFinal(x, c, done, e, r, ranks, callRatios, f, fs[f], v);
    WalkFrameClose(ranks, f, fs0, p0, fs, p, fn, v);
    ForwardsIn(x, c, ranks, f, p.Keys);
    ForwardClosedAdd(x.fs, c, ranks, p, f, v);
    GoodFromClose(x, c, done, e, r, ranks, callRatios, f, fs0, p0, fs, p, fn, v);
  }

  /** With every call of `f` handled, `f` has summed up its share, and
      adding it leaves `f` distributed for the entry. */
  lemma MemberFinal(x: IntegrableInput, c: nat, done: set<FunctionId>, e: FunctionId, r: real, ranks: map<FunctionId, nat>,
                    callRatios: map<FunctionId, real>, f: FunctionId, fn: Function, v: real)
    requires Walk(x, c, e, done, r, ranks, callRatios, x.outEvent, x.inEvent) && f in ranks
    requires fn == Mixed(x, c, done, e, f, x.fs[f].calls.Keys)
    requires v == Times(r, InOf(x, f)) + SumSet(x.fs[f].calls.Keys, PartialTerms(x, c, ranks, r, f))
    ensures v == Partial(x, c, ranks, r, f)
    ensures AddFunctionOut(fn, x.outEvent, v) == DistMember(x, c, done + {e}, f)
    ensures FnSkeleton(AddFunctionOut(fn, x.outEvent, v), fn)
  {
    MixedFinal(x, c, done, e, f);
    SkeletonOfDistMember(x, c, done + {e}, f);
    SkeletonOfMixed(x, c, done, e, f, x.fs[f].calls.Keys);
  }

  /** Recording `f` last closes the frame of its walk. */
  lemma WalkFrameClose(ranks: map<FunctionId, nat>, f: FunctionId,
                       fs0: map<FunctionId, Function>, p0: map<FunctionId, real>,
                       fs: map<FunctionId, Function>, p: map<FunctionId, real>, fn: Function, v: real)
    requires WalkFrame(ranks, f, fs0, p0, fs, p) && f !in p
    ensures DoneFrame(ranks, f, fs0, p0, fs[f := fn], p[f := v])
  {
  }

  /** Every forward call of `f` is one of its calls. */
  lemma ForwardsIn(x: IntegrableInput, c: nat, ranks: map<FunctionId, nat>, f: FunctionId, vs: set<FunctionId>)
    requires f in x.fs
    requires forall k :: k in x.fs[f].calls.Keys && Forward(x.fs, c, ranks, f, k) ==> k in vs
    ensures forall k :: Forward(x.fs, c, ranks, f, k) ==> k in vs
  {
    forall k | Forward(x.fs, c, ranks, f, k)
      ensures k in vs
    {
      assert k in Succ(CycleGraph(x.fs, c), f);
    }
  }

  /** A member whose forward calls stay in a closed set keeps it closed. */
  lemma ForwardClosedAdd(fs: map<FunctionId, Function>, c: nat, ranks: map<FunctionId, nat>, p: map<FunctionId, real>,
                         f: FunctionId, v: real)
    requires ForwardClosed(fs, c, ranks, p.Keys)
    requires forall k :: Forward(fs, c, ranks, f, k) ==> k in p.Keys
    ensures ForwardClosed(fs, c, ranks, p[f := v].Keys)
  {
    assert p[f := v].Keys == p.Keys + {f};
  }

  /** Recording `f`, distributed for the entry, at the end of its walk
      leaves every member ranked `f` or deeper as `GoodMember` says. */
  lemma GoodFromClose(x: IntegrableInput, c: nat, done: set<FunctionId>, e: FunctionId, r: real, ranks: map<FunctionId, nat>,
                      callRatios: map<FunctionId, real>, f: FunctionId,
                      fs0: map<FunctionId, Function>, p0: map<FunctionId, real>,
                      fs: map<FunctionId, Function>, p: map<FunctionId, real>, fn: Function, v: real)
    requires Walk(x, c, e, done, r, ranks, callRatios, x.outEvent, x.inEvent) && f in ranks
    requires WalkFrame(ranks, f, fs0, p0, fs, p) && f !in p
    requires GoodFrom(x, fs0, c, done, e, p0, ranks[f]) && GoodFrom(x, fs, c, done, e, p, ranks[f] + 1)
    requires fn == DistMember(x, c, done + {e}, f) && v == Partial(x, c, ranks, r, f)
    ensures GoodFrom(x, fs[f := fn], c, done, e, p[f := v], ranks[f])
  {
    var fs1, p1 := fs[f := fn], p[f := v];
    assert GoodMember(x, fs1, c, done, e, p1, f);
    GoodFromSkip(x, fs, c, done, e, p, ranks[f] + 1, f, fn);
    GoodFromGrow(x, fs1, c, done, e, p, ranks[f] + 1, f, v);
    WalkFrameRecord(ranks, f, fs0, p0, fs, p, fn, v);
    GoodFromFrame(x, fs0, fs1, c, done, e, p0, p1, ranks[f], ranks[f] + 1, f);
  }

  /** Recording `f` last leaves, besides `f`, only the changes of its walk. */
  lemma WalkFrameRecord(ranks: map<FunctionId, nat>, f: FunctionId,
                        fs0: map<FunctionId, Function>, p0: map<FunctionId, real>,
                        fs: map<FunctionId, Function>, p: map<FunctionId, real>, fn: Function, v: real)
    requires WalkFrame(ranks, f, fs0, p0, fs, p) && f !in p
    ensures forall m :: m in fs0 && m != f && !(m in p[f := v] && m !in p0) ==> m in fs[f := fn] && fs[f := fn][m] == fs0[m]
    ensures forall m :: m in p0 ==> m in p[f := v] && p[f := v][m] == p0[m]
    ensures forall m :: m in p[f := v] && m !in p0 && m != f ==> m in ranks && ranks[m] >= ranks[f] + 1
  {
  }

  /** Recording a member ranked above `lo` leaves the members ranked `lo`
      or deeper as they were. */
  lemma GoodFromGrow(x: IntegrableInput, fs: map<FunctionId, Function>, c: nat, done: set<FunctionId>, e: FunctionId,
                     p: map<FunctionId, real>, lo: int, f: FunctionId, v: real)
    requires e in Entries(x.fs, c) && f in EntryRanks(x.fs, c, e) && EntryRanks(x.fs, c, e)[f] < lo
    requires GoodFrom(x, fs, c, done, e, p, lo)
    ensures GoodFrom(x, fs, c, done, e, p[f := v], lo)
  {
    var ranks := EntryRanks(x.fs, c, e);
    forall m | m in ranks && ranks[m] >= lo
      ensures GoodMember(x, fs, c, done, e, p[f := v], m)
    {
      assert GoodMember(x, fs, c, done, e, p, m);
    }
  }

  /** Every member of cycle `c` holds the shares of the entries of `done`. */
  ghost predicate Distributed(x: IntegrableInput, fs: map<FunctionId, Function>, c: nat, done: set<FunctionId>)
  {
    forall m :: InCycle(x.fs, m, c) ==> m in fs && fs[m] == DistMember(x, c, done, m)
  }

  /** From `fs0` to `fs1` only members of cycle `c` changed. */
  ghost predicate OnlyMembers(x: IntegrableInput, c: nat, fs0: map<FunctionId, Function>, fs1: map<FunctionId, Function>)
  {
    forall g :: g in fs0 && !InCycle(x.fs, g, c) ==> g in fs1 && fs1[g] == fs0[g]
  }

  lemma OnlyMembersTrans(x: IntegrableInput, c: nat, fs0: map<FunctionId, Function>, fs1: map<FunctionId, Function>, fs2: map<FunctionId, Function>)
    requires OnlyMembers(x, c, fs0, fs1) && OnlyMembers(x, c, fs1, fs2)
    ensures OnlyMembers(x, c, fs0, fs2)
  {
  }

  /** The table of entries read from a shaped profile is the one of the
      original profile. */
  lemma EntriesOfShaped(x: IntegrableInput, fs: map<FunctionId, Function>, c: nat, callees: map<FunctionId, real>)
    requires Shaped(x, fs)
    requires callees.Keys == Entries(fs, c) && forall e :: e in callees ==> callees[e] == EntryRatio(fs, c, e)
    ensures callees.Keys == Entries(x.fs, c) && forall e :: e in callees ==> callees[e] == EntryRatio(x.fs, c, e)
  {
    ShapedSkeleton(x, fs);
    forall e | e in callees
      ensures callees[e] == EntryRatio(x.fs, c, e)
    {
      SkeletonRatios(fs, x.fs, c, map[], e);
    }
    SkeletonRatios(fs, x.fs, c, map[], 0);
  }

  /** With every member distributed for `done`, the walk for a new entry
      starts at the entry itself, nothing recorded. */
  lemma EntryReady(x: IntegrableInput, c: nat, done: set<FunctionId>, e: FunctionId, r: real, ranks: map<FunctionId, nat>,
                   callRatios: map<FunctionId, real>, fs: map<FunctionId, Function>)
    requires Walk(x, c, e, done, r, ranks, callRatios, x.outEvent, x.inEvent)
    requires Distributed(x, fs, c, done)
    ensures FunctionReady(x, c, done, e, r, ranks, callRatios, e, fs, map[]) && ranks[e] == 0
  {
    DistancesMeaning(CycleGraph(x.fs, c), e);
    forall m | m in ranks && ranks[m] >= 0
      ensures GoodMember(x, fs, c, done, e, map[], m)
    {
    }
  }

  /** Once the walk from the entry is done, every member it reached holds
      the share of the entry, every other member has none to hold, and
      nothing outside the cycle changed. */
  lemma EntryDistributed(x: IntegrableInput, c: nat, done: set<FunctionId>, e: FunctionId, r: real, ranks: map<FunctionId, nat>,
                         callRatios: map<FunctionId, real>, fs0: map<FunctionId, Function>,
                         fs1: map<FunctionId, Function>, p1: map<FunctionId, real>, v: real)
    requires Walk(x, c, e, done, r, ranks, callRatios, x.outEvent, x.inEvent) && e in ranks && ranks[e] == 0
    requires Distributed(x, fs0, c, done)
    requires CycleFunctionDone(x, c, done, e, r, ranks, e, fs0, map[], fs1, p1, v)
    ensures Distributed(x, fs1, c, done + {e}) && OnlyMembers(x, c, fs0, fs1)
  {
    forall m | InCycle(x.fs, m, c)
      ensures m in fs1 && fs1[m] == DistMember(x, c, done + {e}, m)
    {
      if m in ranks {
        ClosedCovers(x.fs, c, e, p1.Keys, m, ranks[m]);
        assert GoodMember(x, fs1, c, done, e, p1, m);
      } else {
        UnreachedSame(x, c, done, e, m);
      }
    }
  }
}
