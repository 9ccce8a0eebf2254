/** The targets an `Integration.Input` records are a proof device only:
    every quantity `integrate` computes is fixed by the profile, the two
    event kinds and the levels. So the final functions and cycles can
    always be recorded as targets, and `Profile.Integrate` can be called on
    every profile that meets what the computation needs. */
module IntegrationAim {
  import opened Wrappers
  import opened Entities
  import opened Graphs
  import opened Integration

  /** `x` and `y` describe one profile and differ at most in their targets. */
  ghost predicate SameProfile(x: Input, y: Input)
  {
    && x.fs == y.fs && x.store == y.store && x.lv == y.lv
    && x.inEvent == y.inEvent && x.outEvent == y.outEvent
  }

  /** The inclusive cost of a function does not depend on the targets. */
  lemma {:induction false} OutAgrees(x: IntegrableInput, y: IntegrableInput, f: FunctionId)
    requires SameProfile(x, y) && f in x.fs
    ensures FunctionOut(x, f) == FunctionOut(y, f)
    decreases x.lv.fn[f], 2
  {
    if x.fs[f].cycle.Some? {
      CycleAgrees(x, y, x.fs[f].cycle.value);
    } else {
      forall k | k in x.fs[f].calls && k != f
        ensures CallOut(x, f, k) == CallOut(y, f, k)
      {
        CallOutAgrees(x, y, f, k);
      }
      assert CallOuts(x, f) == CallOuts(y, f);
    }
  }

  /** Nor does what a call carries. */
  lemma {:induction false} CallOutAgrees(x: IntegrableInput, y: IntegrableInput, f: FunctionId, k: FunctionId)
    requires SameProfile(x, y)
    requires f in x.fs && k in x.fs[f].calls && k != f && !SameCycle(x.fs, f, k)
    ensures CallOut(x, f, k) == CallOut(y, f, k)
    decreases x.lv.fn[f], 0
  {
    OutAgrees(x, y, k);
  }

  /** Nor the total of a cycle, nor what `_integrate_cycle` returns. */
  lemma {:induction false} CycleAgrees(x: IntegrableInput, y: IntegrableInput, c: nat)
    requires SameProfile(x, y) && c < |x.store|
    ensures CycleOut(x, c) == CycleOut(y, c) && CycleValue(x, c) == CycleValue(y, c)
    decreases x.lv.cyc[c], 1
  {
    forall m | m in x.store[c].functions
      ensures MemberTotal(x, c, m) == MemberTotal(y, c, m)
    {
      forall k | k in x.fs[m].calls && !InCycle(x.fs, k, c)
        ensures CallOut(x, m, k) == CallOut(y, m, k)
      {
        CallOutAgrees(x, y, m, k);
      }
      assert ExternalOuts(x, c, m) == ExternalOuts(y, c, m);
    }
    assert MemberTotals(x, c) == MemberTotals(y, c);
  }

  /** Nor the share a cycle member takes for one entry. */
  lemma {:induction false} PartialAgrees(x: IntegrableInput, y: IntegrableInput, c: nat, ranks: map<FunctionId, nat>, r: real, f: FunctionId)
    requires SameProfile(x, y) && RanksClosed(CycleGraph(x.fs, c), ranks)
    requires f in ranks && InCycle(x.fs, f, c)
    ensures Partial(x, c, ranks, r, f) == Partial(y, c, ranks, r, f)
    decreases DeeperThan(ranks, f), 2
  {
    forall k | k in x.fs[f].calls
      ensures PartialTerm(x, c, ranks, r, f, k) == PartialTerm(y, c, ranks, r, f, k)
    {
      PartialTermAgrees(x, y, c, ranks, r, f, k);
    }
    assert PartialTerms(x, c, ranks, r, f) == PartialTerms(y, c, ranks, r, f);
  }

  /** Nor what one call adds to that share. */
  lemma {:induction false} PartialTermAgrees(x: IntegrableInput, y: IntegrableInput, c: nat, ranks: map<FunctionId, nat>, r: real, f: FunctionId, k: FunctionId)
    requires SameProfile(x, y) && RanksClosed(CycleGraph(x.fs, c), ranks)
    requires f in ranks && InCycle(x.fs, f, c)
    ensures PartialTerm(x, c, ranks, r, f, k) == PartialTerm(y, c, ranks, r, f, k)
    decreases DeeperThan(ranks, f), 1
  {
    if k in x.fs[f].calls && k != f && !InCycle(x.fs, k, c) {
      CallOutAgrees(x, y, f, k);
    } else if k in x.fs[f].calls && Forward(x.fs, c, ranks, f, k) {
      PassedAgrees(x, y, c, ranks, r, f, k);
    }
  }

  /** Nor what a forward call inside a cycle passes back. */
  lemma {:induction false} PassedAgrees(x: IntegrableInput, y: IntegrableInput, c: nat, ranks: map<FunctionId, nat>, r: real, f: FunctionId, k: FunctionId)
    requires SameProfile(x, y) && RanksClosed(CycleGraph(x.fs, c), ranks)
    requires Forward(x.fs, c, ranks, f, k)
    ensures Passed(x, c, ranks, r, f, k) == Passed(y, c, ranks, r, f, k)
    decreases DeeperThan(ranks, f), 0
  {
    assert DeeperThan(ranks, k) < DeeperThan(ranks, f) by {
      assert k in DeeperThan(ranks, f) && k !in DeeperThan(ranks, k);
    }
    PartialAgrees(x, y, c, ranks, r, k);
  }

  /** Nor the share a member takes for one entry. */
  lemma EntryShareAgrees(x: IntegrableInput, y: IntegrableInput, c: nat, e: FunctionId, m: FunctionId)
    requires SameProfile(x, y) && InCycle(x.fs, m, c) && e in Entries(x.fs, c)
    ensures EntryShare(x, c, e, m) == EntryShare(y, c, e, m)
  {
    var ranks := EntryRanks(x.fs, c, e);
    if m in ranks {
      PartialAgrees(x, y, c, ranks, EntryRatio(x.fs, c, e), m);
    }
  }

  /** Nor the shares a member takes for all entries. */
  lemma EntrySharesAgree(x: IntegrableInput, y: IntegrableInput, c: nat, m: FunctionId)
    requires SameProfile(x, y) && InCycle(x.fs, m, c)
    ensures EntryShares(x, c, m) == EntryShares(y, c, m)
  {
    forall e | e in Entries(x.fs, c)
      ensures EntryShare(x, c, e, m) == EntryShare(y, c, e, m)
    {
      EntryShareAgrees(x, y, c, e, m);
    }
  }

  /** Nor what a call inside a cycle passes for one entry. */
  lemma CallShareAgrees(x: IntegrableInput, y: IntegrableInput, c: nat, e: FunctionId, m: FunctionId, k: FunctionId)
    requires SameProfile(x, y) && e in Entries(x.fs, c)
    ensures CallShare(x, c, e, m, k) == CallShare(y, c, e, m, k)
  {
    var ranks := EntryRanks(x.fs, c, e);
    if Forward(x.fs, c, ranks, m, k) {
      PassedAgrees(x, y, c, ranks, EntryRatio(x.fs, c, e), m, k);
    }
  }

  /** Nor what a call inside a cycle passes for each entry. */
  lemma CallSharesAgree(x: IntegrableInput, y: IntegrableInput, c: nat, m: FunctionId, k: FunctionId)
    requires SameProfile(x, y)
    ensures CallShares(x, c, m, k) == CallShares(y, c, m, k)
  {
    forall e | e in Entries(x.fs, c)
      ensures CallShare(x, c, e, m, k) == CallShare(y, c, e, m, k)
    {
      CallShareAgrees(x, y, c, e, m, k);
    }
  }

  /** Nor a call of a cycle member once the entries of `done` are
      distributed. */
  lemma DistCallAgrees(x: IntegrableInput, y: IntegrableInput, c: nat, done: set<FunctionId>, m: FunctionId, k: FunctionId)
    requires SameProfile(x, y) && InCycle(x.fs, m, c) && k in x.fs[m].calls
    ensures DistCall(x, c, done, m, k) == DistCall(y, c, done, m, k)
  {
    if !InCycle(x.fs, k, c) {
      CallOutAgrees(x, y, m, k);
    } else {
      CallSharesAgree(x, y, c, m, k);
    }
  }

  /** Nor a cycle member once the entries of `done` are distributed. */
  lemma DistMemberAgrees(x: IntegrableInput, y: IntegrableInput, c: nat, done: set<FunctionId>, m: FunctionId)
    requires SameProfile(x, y) && InCycle(x.fs, m, c)
    ensures DistMember(x, c, done, m) == DistMember(y, c, done, m)
  {
    EntrySharesAgree(x, y, c, m);
    forall k | k in x.fs[m].calls
      ensures DistCall(x, c, done, m, k) == DistCall(y, c, done, m, k)
    {
      DistCallAgrees(x, y, c, done, m, k);
    }
    assert DistTable(x, c, done, m) == DistTable(y, c, done, m);
  }

  /** Nor any function after `integrate`. */
  lemma FinalAgrees(x: IntegrableInput, y: IntegrableInput, f: FunctionId)
    requires SameProfile(x, y) && f in x.fs
    ensures FinalFunction(x, f) == FinalFunction(y, f)
  {
    var fn := x.fs[f];
    if fn.cycle.None? {
      OutAgrees(x, y, f);
      forall k | k in fn.calls
        ensures IntegratedCall(x, f, k) == IntegratedCall(y, f, k)
      {
        if Integrated(x.fs, f, k) {
          CallOutAgrees(x, y, f, k);
        }
      }
      assert IntegratedCalls(x, f) == IntegratedCalls(y, f);
    } else if x.outEvent !in x.store[fn.cycle.value].events {
      DistMemberAgrees(x, y, fn.cycle.value, Entries(x.fs, fn.cycle.value), f);
    }
  }

  /** An input whose targets are the final functions and cycles of its
      own profile is aimed. */
  lemma AimedAt(x: IntegrableInput, y: IntegrableInput)
    requires SameProfile(x, y) && y.final == FinalFunctions(x) && y.finalStore == FinalCycles(x)
    ensures Aimed(y)
  {
    forall f | f in y.fs
      ensures y.final[f] == FinalFunction(y, f)
    {
      FinalAgrees(x, y, f);
    }
    forall c | 0 <= c < |y.store|
      ensures y.finalStore[c] == FinalCycle(y, c)
    {
      CycleAgrees(x, y, c);
    }
  }

  /** The input `Profile.Integrate` is called with: the profile of `x`
      with its final functions and cycles recorded as targets. It always
      exists, so `Integrate`'s requirement `Aimed` can be met for every
      profile that meets what the computation needs. */
  ghost function Aim(x: IntegrableInput): (y: IntegrableInput)
    ensures SameProfile(x, y) && Aimed(y)
  {
    var y: IntegrableInput := x.(final := FinalFunctions(x), finalStore := FinalCycles(x));
    AimedAt(x, y);
    y
  }
}
