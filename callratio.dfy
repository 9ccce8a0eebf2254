/** The two passes of `Profile.call_ratios` (gprof2dot.py:484-523), each
    proved to compute what `CallRatioSpec` defines. */
module CallRatioPasses {
  import opened Wrappers
  import opened Events
  import opened Entities
  import opened Sums
  import opened Ratios
  import opened CallRatioSpec

  /** Pass 1 (gprof2dot.py:486-508): the inbound total of every function
      and of every listed cycle. */
  method InboundTotals(fs: map<FunctionId, Function>, cycleIds: seq<nat>, e: Event)
      returns (functionTotals: map<FunctionId, real>, cycleTotals: map<nat, real>)
    requires Closed(fs) && EnteredCyclesListed(fs, e, cycleIds)
    ensures functionTotals.Keys == fs.Keys
    ensures forall k :: k in fs ==> functionTotals[k] == FunctionTotal(fs, e, k)
    ensures cycleTotals.Keys == set c | c in cycleIds
    ensures forall c :: c in cycleTotals ==> cycleTotals[c] == CycleTotal(fs, e, c)
  {
    functionTotals := map k | k in fs :: 0.0;
    cycleTotals := map c | c in cycleIds :: 0.0;
    var todo := fs.Keys;
    while todo != {}
      invariant todo <= fs.Keys
      invariant functionTotals.Keys == fs.Keys
      invariant forall k :: k in fs ==> functionTotals[k] + SumSet(todo, InboundTo(fs, e, k)) == FunctionTotal(fs, e, k)
      invariant cycleTotals.Keys == set c | c in cycleIds
      invariant forall c :: c in cycleTotals ==> cycleTotals[c] + SumSet(todo, CycleInboundOf(fs, e, c)) == CycleTotal(fs, e, c)
      decreases todo
    {
      var f :| f in todo;
      ghost var ft0, ct0 := functionTotals, cycleTotals;
      functionTotals, cycleTotals := AddInbound(fs, e, f, functionTotals, cycleTotals);
      FunctionTotalsStep(fs, e, todo, f, ft0, functionTotals);
      CycleTotalsStep(fs, e, todo, f, ct0, cycleTotals);
      todo := todo - {f};
    }
  }

  lemma FunctionTotalsStep(fs: map<FunctionId, Function>, e: Event, todo: set<FunctionId>, f: FunctionId,
                           before: map<FunctionId, real>, after: map<FunctionId, real>)
    requires f in todo && before.Keys == fs.Keys && after.Keys == fs.Keys
    requires forall k :: k in fs ==> before[k] + SumSet(todo, InboundTo(fs, e, k)) == FunctionTotal(fs, e, k)
    requires forall k :: k in after ==> after[k] == before[k] + Inbound(fs, e, f, k)
    ensures forall k :: k in fs ==> after[k] + SumSet(todo - {f}, InboundTo(fs, e, k)) == FunctionTotal(fs, e, k)
  {
    forall k | k in fs
      ensures after[k] + SumSet(todo - {f}, InboundTo(fs, e, k)) == FunctionTotal(fs, e, k)
    {
      SumRemove(todo, InboundTo(fs, e, k), f);
    }
  }

  lemma CycleTotalsStep(fs: map<FunctionId, Function>, e: Event, todo: set<FunctionId>, f: FunctionId,
                        before: map<nat, real>, after: map<nat, real>)
    requires f in todo && after.Keys == before.Keys
    requires forall c :: c in before ==> before[c] + SumSet(todo, CycleInboundOf(fs, e, c)) == CycleTotal(fs, e, c)
    requires forall c :: c in after ==> after[c] == before[c] + CycleInboundFrom(fs, e, f, c)
    ensures forall c :: c in after ==> after[c] + SumSet(todo - {f}, CycleInboundOf(fs, e, c)) == CycleTotal(fs, e, c)
  {
    forall c | c in after
      ensures after[c] + SumSet(todo - {f}, CycleInboundOf(fs, e, c)) == CycleTotal(fs, e, c)
    {
      SumRemove(todo, CycleInboundOf(fs, e, c), f);
    }
  }

  /** The inner loop of pass 1: adds what the calls of `f` contribute. */
  method AddInbound(fs: map<FunctionId, Function>, e: Event, f: FunctionId,
                    ft0: map<FunctionId, real>, ct0: map<nat, real>)
      returns (ft: map<FunctionId, real>, ct: map<nat, real>)
    requires f in fs && Closed(fs) && ft0.Keys == fs.Keys
    requires forall k :: Counted(fs, e, f, k) && EntersCycle(fs, f, k) ==> fs[k].cycle.value in ct0
    ensures ft.Keys == ft0.Keys && forall k :: k in ft ==> ft[k] == ft0[k] + Inbound(fs, e, f, k)
    ensures ct.Keys == ct0.Keys && forall c :: c in ct ==> ct[c] == ct0[c] + CycleInboundFrom(fs, e, f, c)
  {
    ft, ct := ft0, ct0;
    var callees := fs[f].calls.Keys;
    while callees != {}
      invariant callees <= fs[f].calls.Keys
      invariant ft.Keys == ft0.Keys
      invariant forall k :: k in ft ==> ft[k] == ft0[k] + (if k in callees then 0.0 else Inbound(fs, e, f, k))
      invariant ct.Keys == ct0.Keys
      invariant forall c :: c in ct ==> ct[c] + SumSet(callees, CycleInboundVia(fs, e, f, c)) == ct0[c] + CycleInboundFrom(fs, e, f, c)
      decreases callees
    {
      var k :| k in callees;
      ft, ct := AddCallInbound(fs, e, f, k, ft, ct);
      CycleInboundStep(fs, e, f, callees, k, ct0.Keys);
      callees := callees - {k};
    }
  }

  /** One step of the inner loop of pass 1: the call `f -> k`. */
  method AddCallInbound(fs: map<FunctionId, Function>, e: Event, f: FunctionId, k: FunctionId,
                        ft0: map<FunctionId, real>, ct0: map<nat, real>)
      returns (ft: map<FunctionId, real>, ct: map<nat, real>)
    requires f in fs && k in fs[f].calls && Closed(fs) && ft0.Keys == fs.Keys
    requires Counted(fs, e, f, k) && EntersCycle(fs, f, k) ==> fs[k].cycle.value in ct0
    ensures ft.Keys == ft0.Keys && forall j :: j in ft ==> ft[j] == ft0[j] + (if j == k then Inbound(fs, e, f, k) else 0.0)
    ensures ct.Keys == ct0.Keys && forall c :: c in ct ==> ct[c] == ct0[c] + CycleInbound(fs, e, f, c, k)
  {
    ft, ct := ft0, ct0;
    var call := fs[f].calls[k];
    if k != f && e in call.events {
      ft := ft[k := ft[k] + call.events[e]];
      if fs[k].cycle.Some? && fs[k].cycle != fs[f].cycle {
        var c := fs[k].cycle.value;
        ct := ct[c := ct[c] + call.events[e]];
      }
    }
  }

  lemma CycleInboundStep(fs: map<FunctionId, Function>, e: Event, f: FunctionId, callees: set<FunctionId>, k: FunctionId, cs: set<nat>)
    requires f in fs && k in callees
    ensures forall c :: c in cs ==>
      SumSet(callees, CycleInboundVia(fs, e, f, c)) == CycleInbound(fs, e, f, c, k) + SumSet(callees - {k}, CycleInboundVia(fs, e, f, c))
  {
    forall c | c in cs
      ensures SumSet(callees, CycleInboundVia(fs, e, f, c)) == CycleInbound(fs, e, f, c, k) + SumSet(callees - {k}, CycleInboundVia(fs, e, f, c))
    {
      SumRemove(callees, CycleInboundVia(fs, e, f, c), k);
    }
  }

  /** The ratio pass 2 gives the non-self call `f -> k` out of the totals
      `functionTotals` and `cycleTotals` that pass 1 left behind. */
  ghost function RatioGiven(fs: map<FunctionId, Function>, e: Event, f: FunctionId, k: FunctionId,
                            functionTotals: map<FunctionId, real>, cycleTotals: map<nat, real>): real
    requires f in fs && k in fs[f].calls
  {
    var call := fs[f].calls[k];
    if e !in call.events then 0.0
    else if EntersCycle(fs, f, k) then SafeRatio(call.events[e], At(cycleTotals, fs[k].cycle.value))
    else SafeRatio(call.events[e], At(functionTotals, k))
  }

  ghost function RatedCallsGiven(fs: map<FunctionId, Function>, e: Event, f: FunctionId,
                                 functionTotals: map<FunctionId, real>, cycleTotals: map<nat, real>): map<FunctionId, Call>
    requires f in fs
  {
    map k | k in fs[f].calls ::
      if k == f then fs[f].calls[k] else fs[f].calls[k].(ratio := Some(RatioGiven(fs, e, f, k, functionTotals, cycleTotals)))
  }

  /** The entry of the call to `k` in the table pass 2 leaves. */
  lemma RatedCallAt(fs: map<FunctionId, Function>, e: Event, f: FunctionId,
                    functionTotals: map<FunctionId, real>, cycleTotals: map<nat, real>, k: FunctionId)
    requires f in fs && k in fs[f].calls
    ensures k in RatedCallsGiven(fs, e, f, functionTotals, cycleTotals)
    ensures RatedCallsGiven(fs, e, f, functionTotals, cycleTotals)[k] ==
      if k == f then fs[f].calls[k] else fs[f].calls[k].(ratio := Some(RatioGiven(fs, e, f, k, functionTotals, cycleTotals)))
  {
  }

  /** Pass 2 changes ratios only: every call stays under its callee id. */
  lemma RatedCallsGivenKeyed(fs: map<FunctionId, Function>, e: Event, f: FunctionId,
                             functionTotals: map<FunctionId, real>, cycleTotals: map<nat, real>)
    requires f in fs && CallsKeyed(fs[f])
    ensures CallsKeyed(fs[f].(calls := RatedCallsGiven(fs, e, f, functionTotals, cycleTotals)))
  {
  }

  /** Given the totals of pass 1, pass 2 sets exactly the ratios that
      `CallRatioSpec.RatedCalls` describes. */
  lemma RatedCallsFromTotals(fs: map<FunctionId, Function>, e: Event,
                             functionTotals: map<FunctionId, real>, cycleTotals: map<nat, real>)
    requires Closed(fs) && functionTotals.Keys == fs.Keys
    requires forall k :: k in fs ==> functionTotals[k] == FunctionTotal(fs, e, k)
    requires forall c :: c in cycleTotals ==> cycleTotals[c] == CycleTotal(fs, e, c)
    requires forall f, k :: Counted(fs, e, f, k) && EntersCycle(fs, f, k) ==> fs[k].cycle.value in cycleTotals
    ensures forall f :: f in fs ==> RatedCallsGiven(fs, e, f, functionTotals, cycleTotals) == RatedCalls(fs, e, f)
  {
    forall f | f in fs
      ensures RatedCallsGiven(fs, e, f, functionTotals, cycleTotals) == RatedCalls(fs, e, f)
    {
      RatedCallsOfFunction(fs, e, f, functionTotals, cycleTotals);
    }
  }

  lemma RatedCallsOfFunction(fs: map<FunctionId, Function>, e: Event, f: FunctionId,
                             functionTotals: map<FunctionId, real>, cycleTotals: map<nat, real>)
    requires Closed(fs) && functionTotals.Keys == fs.Keys && f in fs
    requires forall k :: k in fs ==> functionTotals[k] == FunctionTotal(fs, e, k)
    requires forall c :: c in cycleTotals ==> cycleTotals[c] == CycleTotal(fs, e, c)
    requires forall f, k :: Counted(fs, e, f, k) && EntersCycle(fs, f, k) ==> fs[k].cycle.value in cycleTotals
    ensures RatedCallsGiven(fs, e, f, functionTotals, cycleTotals) == RatedCalls(fs, e, f)
  {
    forall k | k in fs[f].calls && k != f
      ensures RatioGiven(fs, e, f, k, functionTotals, cycleTotals) == CallRatio(fs, e, f, k)
    {
      RatioFromTotals(fs, e, f, k, functionTotals, cycleTotals);
    }
    RatedCallsAgree(fs, e, f, functionTotals, cycleTotals);
  }

  lemma RatedCallsAgree(fs: map<FunctionId, Function>, e: Event, f: FunctionId,
                        functionTotals: map<FunctionId, real>, cycleTotals: map<nat, real>)
    requires f in fs
    requires forall k :: k in fs[f].calls && k != f ==> RatioGiven(fs, e, f, k, functionTotals, cycleTotals) == CallRatio(fs, e, f, k)
    ensures RatedCallsGiven(fs, e, f, functionTotals, cycleTotals) == RatedCalls(fs, e, f)
  {
    var given, rated := RatedCallsGiven(fs, e, f, functionTotals, cycleTotals), RatedCalls(fs, e, f);
    assert given.Keys == rated.Keys;
    forall k | k in given
      ensures given[k] == rated[k]
    {
    }
  }

  lemma RatioFromTotals(fs: map<FunctionId, Function>, e: Event, f: FunctionId, k: FunctionId,
                        functionTotals: map<FunctionId, real>, cycleTotals: map<nat, real>)
    requires Closed(fs) && functionTotals.Keys == fs.Keys && f in fs && k in fs[f].calls
    requires forall k :: k in fs ==> functionTotals[k] == FunctionTotal(fs, e, k)
    requires forall c :: c in cycleTotals ==> cycleTotals[c] == CycleTotal(fs, e, c)
    requires forall f, k :: Counted(fs, e, f, k) && EntersCycle(fs, f, k) ==> fs[k].cycle.value in cycleTotals
    ensures RatioGiven(fs, e, f, k, functionTotals, cycleTotals) == CallRatio(fs, e, f, k)
  {
  }

  /** The inner loop of pass 2 (gprof2dot.py:513-523): gives each non-self
      call of `f` its ratio. `cur` is the profile as pass 2 finds it, which
      differs from `fs` only in ratios already set on other functions. */
  method RateCalls(cur: map<FunctionId, Function>, ghost fs: map<FunctionId, Function>, e: Event, f: FunctionId,
                   functionTotals: map<FunctionId, real>, cycleTotals: map<nat, real>)
      returns (calls: map<FunctionId, Call>)
    requires f in fs && Closed(fs) && cur.Keys == fs.Keys && cur[f] == fs[f]
    requires forall g :: g in fs ==> cur[g].cycle == fs[g].cycle
    requires forall k :: k in fs[f].calls ==> fs[f].calls[k].ratio.None?
    requires functionTotals.Keys == fs.Keys
    requires forall k :: Counted(fs, e, f, k) && EntersCycle(fs, f, k) ==> fs[k].cycle.value in cycleTotals
    ensures calls == RatedCallsGiven(fs, e, f, functionTotals, cycleTotals)
  {
    calls := cur[f].calls;
    var todo := calls.Keys;
    while todo != {}
      invariant todo <= fs[f].calls.Keys && calls.Keys == fs[f].calls.Keys
      invariant forall k :: k in calls ==>
        calls[k] == if k in todo then fs[f].calls[k] else RatedCallsGiven(fs, e, f, functionTotals, cycleTotals)[k]
      decreases todo
    {
      var k :| k in todo;
      RatedCallAt(fs, e, f, functionTotals, cycleTotals, k);
      if k != f {
        var r := RateCall(cur, fs, e, f, k, functionTotals, cycleTotals);
        calls := calls[k := cur[f].calls[k].(ratio := Some(r))];
      }
      todo := todo - {k};
    }
  }

  /** One step of the inner loop of pass 2: the ratio of the non-self
      call `f -> k`. */
  method RateCall(cur: map<FunctionId, Function>, ghost fs: map<FunctionId, Function>, e: Event, f: FunctionId, k: FunctionId,
                  functionTotals: map<FunctionId, real>, cycleTotals: map<nat, real>)
      returns (r: real)
    requires f in fs && k in fs[f].calls && k != f && Closed(fs) && cur.Keys == fs.Keys && cur[f] == fs[f]
    requires cur[k].cycle == fs[k].cycle && functionTotals.Keys == fs.Keys
    requires Counted(fs, e, f, k) && EntersCycle(fs, f, k) ==> fs[k].cycle.value in cycleTotals
    ensures r == RatioGiven(fs, e, f, k, functionTotals, cycleTotals)
  {
    var call := cur[f].calls[k];
    if e in call.events {
      var total;
      if cur[k].cycle.Some? && cur[k].cycle != cur[f].cycle {
        total := cycleTotals[cur[k].cycle.value];
      } else {
        total := functionTotals[k];
      }
      r := SafeRatio(call.events[e], total);
    } else {
      r := 0.0;
    }
  }
}
