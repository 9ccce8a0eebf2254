/** The two ratio tables `_integrate_cycle` builds (gprof2dot.py:590-600
    and 674-683): for each callee, the ratios of a set of calls into it
    added up. A table is described by the calls it has taken in so far. */
module RatioTables {
  import opened Entities
  import opened CallTables
  import opened Sums
  import opened Graphs
  import opened CycleRanks
  import opened Integration
  import opened Wrappers

  /** A table whose recorded calls are exactly the calls entering cycle
      `c` is `callees`: keyed by the entries, each with the ratios
      entering it added up. */
  lemma EntryTableMeaning(fs: map<FunctionId, Function>, c: nat, who: map<FunctionId, set<FunctionId>>, t: map<FunctionId, real>)
    requires TableOf(fs, who, t)
    requires forall g, k :: HasCaller(who, g, k) <==> g in fs && EntersAt(fs, c, g, k)
    ensures t.Keys == Entries(fs, c)
    ensures forall e :: e in t ==> t[e] == EntryRatio(fs, c, e)
  {
    forall e | e in t
      ensures e in Entries(fs, c) && t[e] == EntryRatio(fs, c, e)
    {
      assert EntryOf(fs, who, t, e);
      EntryRecorded(fs, c, who, e);
    }
    forall e | e in Entries(fs, c)
      ensures e in t
    {
      EntryInTable(fs, c, who, e);
    }
  }

  /** Every entry of the cycle has a recorded caller. */
  lemma EntryInTable(fs: map<FunctionId, Function>, c: nat, who: map<FunctionId, set<FunctionId>>, e: FunctionId)
    requires e in Entries(fs, c)
    requires forall g, k :: HasCaller(who, g, k) <==> g in fs && EntersAt(fs, c, g, k)
    ensures e in who
  {
    var g :| g in EntryCallers(fs, c, e);
    assert HasCaller(who, g, e);
  }

  /** The callers recorded for a callee of the table are its callers from
      outside the cycle. */
  lemma EntryRecorded(fs: map<FunctionId, Function>, c: nat, who: map<FunctionId, set<FunctionId>>, e: FunctionId)
    requires e in who && who[e] != {}
    requires forall g, k :: HasCaller(who, g, k) <==> g in fs && EntersAt(fs, c, g, k)
    ensures who[e] == EntryCallers(fs, c, e) && e in Entries(fs, c)
  {
    assert forall g :: g in who[e] <==> HasCaller(who, g, e);
    var g :| g in who[e];
    assert EntersAt(fs, c, g, e);
  }

  /** Every forward call out of `vs` stays in `vs`. */
  ghost predicate ForwardClosed(fs: map<FunctionId, Function>, c: nat, ranks: map<FunctionId, nat>, vs: set<FunctionId>)
  {
    forall g, k :: g in vs && Forward(fs, c, ranks, g, k) ==> k in vs
  }

  /** A set of members that holds the entry and every forward call out of
      it holds every member the entry reaches: each ranked member has a
      caller one rank nearer the entry. */
  lemma {:induction false} ClosedCovers(fs: map<FunctionId, Function>, c: nat, e: FunctionId, vs: set<FunctionId>, v: FunctionId, d: nat)
    requires InCycle(fs, e, c) && e in vs && ForwardClosed(fs, c, EntryRanks(fs, c, e), vs)
    requires v in EntryRanks(fs, c, e) && EntryRanks(fs, c, e)[v] == d
    ensures v in vs
    decreases d
  {
    var ranks := EntryRanks(fs, c, e);
    DistancesMeaning(CycleGraph(fs, c), e);
    if d == 0 {
      assert IsDistance(CycleGraph(fs, c), e, v, 0);
      assert PathOf(CycleGraph(fs, c), e, v, 0);
    } else {
      var u := DistancesParent(CycleGraph(fs, c), e, v);
      ClosedCovers(fs, c, e, vs, u, d - 1);
      assert Forward(fs, c, ranks, u, v);
    }
  }

  /** So a table whose recorded calls are the forward calls out of such a
      set has, for each callee, its `ForwardRatio`. */
  lemma ForwardTableMeaning(fs: map<FunctionId, Function>, c: nat, e: FunctionId, vs: set<FunctionId>,
                            who: map<FunctionId, set<FunctionId>>, t: map<FunctionId, real>)
    requires InCycle(fs, e, c) && e in vs && vs <= EntryRanks(fs, c, e).Keys
    requires ForwardClosed(fs, c, EntryRanks(fs, c, e), vs)
    requires TableOf(fs, who, t)
    requires forall g, k :: HasCaller(who, g, k) <==> g in vs && Forward(fs, c, EntryRanks(fs, c, e), g, k)
    ensures vs == EntryRanks(fs, c, e).Keys
    ensures forall k :: k in EntryRanks(fs, c, e) && ForwardCallers(fs, c, EntryRanks(fs, c, e), k) != {} ==>
      k in t && t[k] == ForwardRatio(fs, c, EntryRanks(fs, c, e), k)
  {
    var ranks := EntryRanks(fs, c, e);
    forall v | v in ranks
      ensures v in vs
    {
      ClosedCovers(fs, c, e, vs, v, ranks[v]);
    }
    forall k | k in ranks && ForwardCallers(fs, c, ranks, k) != {}
      ensures k in t && t[k] == ForwardRatio(fs, c, ranks, k)
    {
      ForwardRecorded(fs, c, ranks, vs, who, k);
      assert EntryOf(fs, who, t, k);
    }
  }

  /** Once the recording set holds every ranked member, the callers
      recorded for `k` are its forward callers. */
  lemma ForwardRecorded(fs: map<FunctionId, Function>, c: nat, ranks: map<FunctionId, nat>, vs: set<FunctionId>,
                        who: map<FunctionId, set<FunctionId>>, k: FunctionId)
    requires ranks.Keys <= vs && ForwardCallers(fs, c, ranks, k) != {}
    requires forall g, k :: HasCaller(who, g, k) <==> g in vs && Forward(fs, c, ranks, g, k)
    ensures k in who && who[k] == ForwardCallers(fs, c, ranks, k)
  {
    var g :| g in ForwardCallers(fs, c, ranks, k);
    assert HasCaller(who, g, k);
    assert forall h :: h in who[k] <==> HasCaller(who, h, k);
  }

  /** The `callees` loop of `_integrate_cycle` (gprof2dot.py:592-602): for
      each member of cycle `c` called from outside it, the ratios of those
      calls added up. */
  method EntryRatios(fs: map<FunctionId, Function>, c: nat) returns (callees: map<FunctionId, real>)
    requires Closed(fs) && Rated(fs)
    ensures callees.Keys == Entries(fs, c)
    ensures forall e :: e in callees ==> callees[e] == EntryRatio(fs, c, e)
  {
    callees := map[];
    ghost var who: map<FunctionId, set<FunctionId>> := map[];
    TableEmpty(fs);
    var todo := fs.Keys;
    while todo != {}
      invariant todo <= fs.Keys
      invariant TableOf(fs, who, callees)
      invariant forall g, k :: HasCaller(who, g, k) <==> g in fs && g !in todo && EntersAt(fs, c, g, k)
      decreases todo
    {
      var g :| g in todo;
      if fs[g].cycle != Some(c) {
        callees, who := EntryRatiosOf(fs, c, g, callees, who);
      }
      todo := todo - {g};
    }
    EntryTableMeaning(fs, c, who, callees);
  }

  /** The calls of one function outside cycle `c` into it, added to the
      table. */
  method EntryRatiosOf(fs: map<FunctionId, Function>, c: nat, g: FunctionId,
                       callees: map<FunctionId, real>, ghost who: map<FunctionId, set<FunctionId>>)
      returns (callees': map<FunctionId, real>, ghost who': map<FunctionId, set<FunctionId>>)
    requires Closed(fs) && Rated(fs) && g in fs && fs[g].cycle != Some(c)
    requires TableOf(fs, who, callees)
    requires forall h, k :: HasCaller(who, h, k) ==> h != g
    ensures TableOf(fs, who', callees')
    ensures forall h, k :: HasCaller(who', h, k) <==> HasCaller(who, h, k) || (h == g && EntersAt(fs, c, g, k))
  {
    callees', who' := callees, who;
    var todo := fs[g].calls.Keys;
    while todo != {}
      invariant todo <= fs[g].calls.Keys
      invariant TableOf(fs, who', callees')
      invariant forall h, k :: HasCaller(who', h, k) <==> HasCaller(who, h, k) || (h == g && k !in todo && EntersAt(fs, c, g, k))
      decreases todo
    {
      var k :| k in todo;
      if fs[k].cycle == Some(c) {
        TableAdd(fs, who', callees', g, k);
        AddCallerMeaning(who', k, g);
        callees' := Bump(callees', k, fs[g].calls[k].ratio.value);
        who' := AddCaller(who', k, g);
      }
      todo := todo - {k};
    }
  }

  /** `_call_ratios_cycle` (gprof2dot.py:674-683): a depth-first walk from
      `f` along the calls that go one rank deeper, adding each such call's
      ratio to its callee's entry; `visited` keeps a member from being
      walked twice. Every forward call out of a newly visited member is
      taken in, and the walk goes on from its callee. */
  method CallRatiosCycle(fs: map<FunctionId, Function>, c: nat, ranks: map<FunctionId, nat>, f: FunctionId,
                         callRatios: map<FunctionId, real>, visited: set<FunctionId>, ghost who: map<FunctionId, set<FunctionId>>)
      returns (callRatios': map<FunctionId, real>, visited': set<FunctionId>, ghost who': map<FunctionId, set<FunctionId>>)
    requires Closed(fs) && Rated(fs) && f in ranks && visited <= ranks.Keys
    requires RanksClosed(CycleGraph(fs, c), ranks) && forall v :: v in ranks ==> InCycle(fs, v, c)
    requires TableOf(fs, who, callRatios)
    requires forall g, k :: HasCaller(who, g, k) ==> g in visited
    ensures TableOf(fs, who', callRatios')
    ensures visited <= visited' <= ranks.Keys && f in visited'
    ensures forall g, k :: HasCaller(who', g, k) <==> HasCaller(who, g, k) || (g in visited' - visited && Forward(fs, c, ranks, g, k))
    ensures forall g, k :: g in visited' - visited && Forward(fs, c, ranks, g, k) ==> k in visited'
    decreases ranks.Keys - visited, 0
  {
    if f in visited {
      return callRatios, visited, who;
    }
    callRatios', visited', who' := callRatios, visited + {f}, who;
    var todo := fs[f].calls.Keys;
    ghost var done: set<FunctionId> := {};
    while todo != {}
      invariant todo <= fs[f].calls.Keys && done == fs[f].calls.Keys - todo
      invariant visited + {f} <= visited' <= ranks.Keys
      invariant TableOf(fs, who', callRatios')
      invariant Walked(fs, c, ranks, who, who', visited' - visited - {f}, f, done)
      invariant forall g, k :: g in visited' - visited - {f} && Forward(fs, c, ranks, g, k) ==> k in visited'
      invariant forall k :: k in done && Forward(fs, c, ranks, f, k) ==> k in visited'
      decreases todo
    {
      var k :| k in todo;
      assert ranks.Keys - visited' < ranks.Keys - visited by {
        assert f in ranks.Keys - visited && f !in ranks.Keys - visited';
      }
      ghost var (visited1, who1) := (visited', who');
      callRatios', visited', who' := WalkCall(fs, c, ranks, f, k, callRatios', visited', who');
      assert visited' - visited1 == (visited' - visited - {f}) - (visited1 - visited - {f});
      WalkedStep(fs, c, ranks, who, who1, who', visited1 - visited - {f}, visited' - visited - {f}, f, done, k);
      todo := todo - {k};
      done := done + {k};
    }
  }

  /** One call `f -> k` of the walk: taken in, and walked on from `k`,
      when it goes one rank deeper. */
  method WalkCall(fs: map<FunctionId, Function>, c: nat, ranks: map<FunctionId, nat>, f: FunctionId, k: FunctionId,
                  callRatios: map<FunctionId, real>, visited: set<FunctionId>, ghost who: map<FunctionId, set<FunctionId>>)
      returns (callRatios': map<FunctionId, real>, visited': set<FunctionId>, ghost who': map<FunctionId, set<FunctionId>>)
    requires RanksClosed(CycleGraph(fs, c), ranks) && forall v :: v in ranks ==> InCycle(fs, v, c)
    requires Closed(fs) && Rated(fs) && f in visited && visited <= ranks.Keys && k in fs[f].calls
    requires TableOf(fs, who, callRatios) && !HasCaller(who, f, k)
    requires forall g, j :: HasCaller(who, g, j) ==> g in visited
    ensures TableOf(fs, who', callRatios')
    ensures visited <= visited' <= ranks.Keys
    ensures forall g, j :: HasCaller(who', g, j) <==>
      || HasCaller(who, g, j)
      || (g == f && j == k && Forward(fs, c, ranks, f, k))
      || (g in visited' - visited && Forward(fs, c, ranks, g, j))
    ensures forall g, j :: g in visited' - visited && Forward(fs, c, ranks, g, j) ==> j in visited'
    ensures Forward(fs, c, ranks, f, k) ==> k in visited'
    decreases ranks.Keys - visited, 1
  {
    ForwardCall(fs, c, ranks, f, k);
    if k != f && fs[k].cycle == Some(c) && ranks[k] > ranks[f] {
      TableAdd(fs, who, callRatios, f, k);
      AddCallerMeaning(who, k, f);
      ghost var who1 := AddCaller(who, k, f);
      callRatios', visited', who' := CallRatiosCycle(fs, c, ranks, k, Bump(callRatios, k, fs[f].calls[k].ratio.value), visited, who1);
    } else {
      callRatios', visited', who' := callRatios, visited, who;
    }
  }

  /** The calls taken in so far by the walk: those `who0` had, the forward
      calls out of the members in `s`, and those out of `f` into `done`. */
  ghost predicate Walked(fs: map<FunctionId, Function>, c: nat, ranks: map<FunctionId, nat>,
                         who0: map<FunctionId, set<FunctionId>>, who: map<FunctionId, set<FunctionId>>,
                         s: set<FunctionId>, f: FunctionId, done: set<FunctionId>)
  {
    forall g, k :: HasCaller(who, g, k) <==>
      || HasCaller(who0, g, k)
      || (g in s && Forward(fs, c, ranks, g, k))
      || (g == f && k in done && Forward(fs, c, ranks, f, k))
  }

  lemma WalkedStep(fs: map<FunctionId, Function>, c: nat, ranks: map<FunctionId, nat>,
                   who0: map<FunctionId, set<FunctionId>>, who1: map<FunctionId, set<FunctionId>>, who2: map<FunctionId, set<FunctionId>>,
                   s1: set<FunctionId>, s2: set<FunctionId>, f: FunctionId, done: set<FunctionId>, k: FunctionId)
    requires Walked(fs, c, ranks, who0, who1, s1, f, done) && s1 <= s2
    requires forall g, j :: HasCaller(who2, g, j) <==>
      || HasCaller(who1, g, j)
      || (g == f && j == k && Forward(fs, c, ranks, f, k))
      || (g in s2 - s1 && Forward(fs, c, ranks, g, j))
    ensures Walked(fs, c, ranks, who0, who2, s2, f, done + {k})
  {
  }

  /** The test `_call_ratios_cycle` makes of a call, in terms of the ranked
      cycle graph. */
  lemma ForwardCall(fs: map<FunctionId, Function>, c: nat, ranks: map<FunctionId, nat>, f: FunctionId, k: FunctionId)
    requires RanksClosed(CycleGraph(fs, c), ranks) && forall v :: v in ranks ==> InCycle(fs, v, c)
    requires Closed(fs) && f in ranks && k in fs[f].calls
    ensures k != f && fs[k].cycle == Some(c) ==> k in ranks
    ensures Forward(fs, c, ranks, f, k) <==> k != f && fs[k].cycle == Some(c) && k in ranks && ranks[k] > ranks[f]
  {
    if k != f && fs[k].cycle == Some(c) {
      assert k in Succ(CycleGraph(fs, c), f);
    }
  }
}
