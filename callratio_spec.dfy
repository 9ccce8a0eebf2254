/** What `Profile.call_ratios` computes (gprof2dot.py:484-523), stated as
    sums over the call graph rather than as the two accumulating passes. */
module CallRatioSpec {
  import opened Wrappers
  import opened Events
  import opened Entities
  import opened Sums
  import opened Ratios

  /** The call `f -> k` exists, is not a self-call and has a value for `e`:
      exactly the calls the first pass adds up. */
  ghost predicate Counted(fs: map<FunctionId, Function>, e: Event, f: FunctionId, k: FunctionId)
  {
    f in fs && k in fs[f].calls && k != f && e in fs[f].calls[k].events
  }

  /** The call `f -> k` enters a cycle from outside it: the callee belongs
      to a cycle and the caller does not belong to that same cycle. */
  ghost predicate EntersCycle(fs: map<FunctionId, Function>, f: FunctionId, k: FunctionId)
  {
    f in fs && k in fs && fs[k].cycle.Some? && fs[k].cycle != fs[f].cycle
  }

  /** What the call `f -> k` contributes to the inbound total of `k`. */
  ghost function Inbound(fs: map<FunctionId, Function>, e: Event, f: FunctionId, k: FunctionId): real
  {
    if Counted(fs, e, f, k) then fs[f].calls[k].events[e] else 0.0
  }

  ghost function InboundTo(fs: map<FunctionId, Function>, e: Event, k: FunctionId): map<FunctionId, real>
  {
    map f | f in fs :: Inbound(fs, e, f, k)
  }

  /** The sum of `e` over every non-self call into `k`. */
  ghost function FunctionTotal(fs: map<FunctionId, Function>, e: Event, k: FunctionId): real
  {
    SumSet(fs.Keys, InboundTo(fs, e, k))
  }

  /** What the call `f -> k` contributes to the inbound total of cycle `c`. */
  ghost function CycleInbound(fs: map<FunctionId, Function>, e: Event, f: FunctionId, c: nat, k: FunctionId): real
  {
    if Counted(fs, e, f, k) && EntersCycle(fs, f, k) && fs[k].cycle == Some(c) then fs[f].calls[k].events[e] else 0.0
  }

  ghost function CycleInboundVia(fs: map<FunctionId, Function>, e: Event, f: FunctionId, c: nat): map<FunctionId, real>
    requires f in fs
  {
    map k | k in fs[f].calls :: CycleInbound(fs, e, f, c, k)
  }

  /** What the calls of `f` contribute to the inbound total of cycle `c`. */
  ghost function CycleInboundFrom(fs: map<FunctionId, Function>, e: Event, f: FunctionId, c: nat): real
  {
    if f in fs then SumSet(fs[f].calls.Keys, CycleInboundVia(fs, e, f, c)) else 0.0
  }

  ghost function CycleInboundOf(fs: map<FunctionId, Function>, e: Event, c: nat): map<FunctionId, real>
  {
    map f | f in fs :: CycleInboundFrom(fs, e, f, c)
  }

  /** The sum of `e` over every call that enters cycle `c` from outside. */
  ghost function CycleTotal(fs: map<FunctionId, Function>, e: Event, c: nat): real
  {
    SumSet(fs.Keys, CycleInboundOf(fs, e, c))
  }

  /** Every cycle that a counted call enters is one of `cycleIds`: the
      first pass looks its total up among the profile's cycles. */
  ghost predicate EnteredCyclesListed(fs: map<FunctionId, Function>, e: Event, cycleIds: seq<nat>)
  {
    forall f, k :: Counted(fs, e, f, k) && EntersCycle(fs, f, k) ==> fs[k].cycle.value in cycleIds
  }

  /** The ratio the second pass gives the non-self call `f -> k`: its share
      of the cycle's inbound total when it enters a cycle from outside,
      else its share of the callee's inbound total, and 0 when the call
      has no value for `e`. */
  ghost function CallRatio(fs: map<FunctionId, Function>, e: Event, f: FunctionId, k: FunctionId): real
    requires f in fs && k in fs[f].calls
  {
    var call := fs[f].calls[k];
    if e !in call.events then 0.0
    else if EntersCycle(fs, f, k) then SafeRatio(call.events[e], CycleTotal(fs, e, fs[k].cycle.value))
    else SafeRatio(call.events[e], FunctionTotal(fs, e, k))
  }

  /** The calls of `f` once the second pass has set their ratios; self-calls
      are left alone. */
  ghost function RatedCalls(fs: map<FunctionId, Function>, e: Event, f: FunctionId): map<FunctionId, Call>
    requires f in fs
  {
    map k | k in fs[f].calls :: if k == f then fs[f].calls[k] else fs[f].calls[k].(ratio := Some(CallRatio(fs, e, f, k)))
  }

  /** What pass 2 promises for each call: self-calls keep their (unset)
      ratio, every other call gets a ratio in [0, 1], exactly 0 when it has
      no value for the event, and the call is otherwise unchanged. */
  lemma RatedCallsProperties(fs: map<FunctionId, Function>, e: Event, f: FunctionId)
    requires f in fs
    ensures RatedCalls(fs, e, f).Keys == fs[f].calls.Keys
    ensures f in fs[f].calls ==> RatedCalls(fs, e, f)[f] == fs[f].calls[f]
    ensures forall k :: k in fs[f].calls && k != f ==>
      && RatedCalls(fs, e, f)[k].(ratio := fs[f].calls[k].ratio) == fs[f].calls[k]
      && RatedCalls(fs, e, f)[k].ratio.Some?
      && 0.0 <= RatedCalls(fs, e, f)[k].ratio.value <= 1.0
      && (e !in fs[f].calls[k].events ==> RatedCalls(fs, e, f)[k].ratio.value == 0.0)
  {
    forall k | k in fs[f].calls && k != f
      ensures 0.0 <= CallRatio(fs, e, f, k) <= 1.0
    {
    }
  }

  /** The ratio of the call `f -> k` when it is counted, else 0. */
  ghost function RatioShare(fs: map<FunctionId, Function>, e: Event, k: FunctionId): map<FunctionId, real>
  {
    map f | f in fs :: if Counted(fs, e, f, k) then CallRatio(fs, e, f, k) else 0.0
  }

  /** Partner of the second pass: when the calls into a function outside
      every cycle carry non-negative values and some of them are non-zero,
      the ratios of those calls add up to exactly 1. */
  lemma InboundRatiosSumToOne(fs: map<FunctionId, Function>, e: Event, k: FunctionId)
    requires k in fs && fs[k].cycle.None?
    requires forall f :: Counted(fs, e, f, k) ==> fs[f].calls[k].events[e] >= 0.0
    requires FunctionTotal(fs, e, k) > 0.0
    ensures SumSet(fs.Keys, RatioShare(fs, e, k)) == 1.0
  {
    SharesOfCalls(fs, e, k);
    SumOfShares(fs.Keys, InboundTo(fs, e, k), RatioShare(fs, e, k), FunctionTotal(fs, e, k));
  }

  lemma SharesOfCalls(fs: map<FunctionId, Function>, e: Event, k: FunctionId)
    requires k in fs && fs[k].cycle.None?
    requires forall f :: Counted(fs, e, f, k) ==> fs[f].calls[k].events[e] >= 0.0
    requires FunctionTotal(fs, e, k) > 0.0
    ensures Scaled(fs.Keys, 1.0 / FunctionTotal(fs, e, k), InboundTo(fs, e, k), RatioShare(fs, e, k))
  {
    forall f | f in fs.Keys
      ensures RatioShare(fs, e, k)[f] == (1.0 / FunctionTotal(fs, e, k)) * InboundTo(fs, e, k)[f]
    {
      ShareOfCall(fs, e, k, f);
    }
  }

  /** One term of `InboundRatiosSumToOne`: the call's ratio is its value
      divided by the callee's inbound total. */
  lemma ShareOfCall(fs: map<FunctionId, Function>, e: Event, k: FunctionId, f: FunctionId)
    requires k in fs && fs[k].cycle.None? && f in fs
    requires forall f :: Counted(fs, e, f, k) ==> fs[f].calls[k].events[e] >= 0.0
    requires FunctionTotal(fs, e, k) > 0.0
    ensures RatioShare(fs, e, k)[f] == (1.0 / FunctionTotal(fs, e, k)) * InboundTo(fs, e, k)[f]
  {
    if Counted(fs, e, f, k) {
      var t := FunctionTotal(fs, e, k);
      var v := fs[f].calls[k].events[e];
      SumAtLeastTerm(fs.Keys, InboundTo(fs, e, k), f);
      assert !EntersCycle(fs, f, k);
      assert CallRatio(fs, e, f, k) == SafeRatio(v, t);
      ShareOfTotal(v, t);
    }
  }

  /** The call `f -> k` is counted and enters cycle `c` from outside:
      exactly the calls whose ratio is taken of the cycle's total. */
  ghost predicate Enters(fs: map<FunctionId, Function>, e: Event, f: FunctionId, c: nat, k: FunctionId)
  {
    Counted(fs, e, f, k) && EntersCycle(fs, f, k) && fs[k].cycle == Some(c)
  }

  /** The ratios of the calls of `f` that enter cycle `c`, 0 for the others. */
  ghost function CycleRatioVia(fs: map<FunctionId, Function>, e: Event, f: FunctionId, c: nat): map<FunctionId, real>
    requires f in fs
  {
    map k | k in fs[f].calls :: if Enters(fs, e, f, c, k) then CallRatio(fs, e, f, k) else 0.0
  }

  /** What the ratios of each function's calls into cycle `c` add up to. */
  ghost function CycleRatioShare(fs: map<FunctionId, Function>, e: Event, c: nat): map<FunctionId, real>
  {
    map f | f in fs :: SumSet(fs[f].calls.Keys, CycleRatioVia(fs, e, f, c))
  }

  /** The cycle case of the second pass: when the calls entering cycle `c`
      from outside carry non-negative values and some of them are
      non-zero, their ratios, each taken of the cycle's inbound total,
      add up to exactly 1. */
  lemma CycleRatiosSumToOne(fs: map<FunctionId, Function>, e: Event, c: nat)
    requires forall f, k :: Enters(fs, e, f, c, k) ==> fs[f].calls[k].events[e] >= 0.0
    requires CycleTotal(fs, e, c) > 0.0
    ensures SumSet(fs.Keys, CycleRatioShare(fs, e, c)) == 1.0
  {
    var t := CycleTotal(fs, e, c);
    CycleSharesScaled(fs, e, c, t);
    SumOfShares<FunctionId>(fs.Keys, CycleInboundOf(fs, e, c), CycleRatioShare(fs, e, c), t);
  }

  /** Each function's ratios into the cycle add up to its contribution to
      the cycle's total `t`, divided by `t`. */
  lemma CycleSharesScaled(fs: map<FunctionId, Function>, e: Event, c: nat, t: real)
    requires forall f, k :: Enters(fs, e, f, c, k) ==> fs[f].calls[k].events[e] >= 0.0
    requires t == CycleTotal(fs, e, c) && t > 0.0
    ensures Scaled(fs.Keys, 1.0 / t, CycleInboundOf(fs, e, c), CycleRatioShare(fs, e, c))
  {
    forall f | f in fs.Keys
      ensures CycleRatioShare(fs, e, c)[f] == (1.0 / t) * CycleInboundOf(fs, e, c)[f]
    {
      CycleSharesOfCaller(fs, e, c, f, t);
      CallerShare(fs, e, c, f, t);
    }
  }

  /** No function's calls add a negative amount to the cycle's total. */
  lemma CycleInboundNonneg(fs: map<FunctionId, Function>, e: Event, c: nat)
    requires forall f, k :: Enters(fs, e, f, c, k) ==> fs[f].calls[k].events[e] >= 0.0
    ensures forall f :: f in fs ==> CycleInboundFrom(fs, e, f, c) >= 0.0
  {
    forall f | f in fs
      ensures CycleInboundFrom(fs, e, f, c) >= 0.0
    {
      SumNonneg<FunctionId>(fs[f].calls.Keys, CycleInboundVia(fs, e, f, c));
    }
  }

  /** The ratios of one function's calls into the cycle are their
      values divided by the cycle's inbound total `t`. */
  lemma CycleSharesOfCaller(fs: map<FunctionId, Function>, e: Event, c: nat, f: FunctionId, t: real)
    requires f in fs
    requires forall f, k :: Enters(fs, e, f, c, k) ==> fs[f].calls[k].events[e] >= 0.0
    requires t == CycleTotal(fs, e, c) && t > 0.0
    ensures Scaled(fs[f].calls.Keys, 1.0 / t, CycleInboundVia(fs, e, f, c), CycleRatioVia(fs, e, f, c))
  {
    forall k | k in fs[f].calls
      ensures CycleRatioVia(fs, e, f, c)[k] == (1.0 / t) * CycleInboundVia(fs, e, f, c)[k]
    {
      CycleShareOfCall(fs, e, c, f, k, t);
    }
  }

  /** Hence what they add up to is the function's contribution to the
      cycle's total, divided by `t`. */
  lemma CallerShare(fs: map<FunctionId, Function>, e: Event, c: nat, f: FunctionId, t: real)
    requires f in fs && t > 0.0
    requires Scaled(fs[f].calls.Keys, 1.0 / t, CycleInboundVia(fs, e, f, c), CycleRatioVia(fs, e, f, c))
    ensures CycleRatioShare(fs, e, c)[f] == (1.0 / t) * CycleInboundOf(fs, e, c)[f]
  {
    CallerSums(fs, e, c, f);
    SumScaleTo<FunctionId>(fs[f].calls.Keys, 1.0 / t, CycleInboundVia(fs, e, f, c), CycleRatioVia(fs, e, f, c),
                           CycleInboundOf(fs, e, c)[f], CycleRatioShare(fs, e, c)[f]);
  }

  /** The entries of `f` in the two per-function tables are sums over its calls. */
  lemma CallerSums(fs: map<FunctionId, Function>, e: Event, c: nat, f: FunctionId)
    requires f in fs
    ensures CycleInboundOf(fs, e, c)[f] == SumSet(fs[f].calls.Keys, CycleInboundVia(fs, e, f, c))
    ensures CycleRatioShare(fs, e, c)[f] == SumSet(fs[f].calls.Keys, CycleRatioVia(fs, e, f, c))
  {
  }

  /** One term of `CycleRatiosSumToOne`: a call into the cycle gets its
      value divided by the cycle's inbound total `t`. */
  lemma CycleShareOfCall(fs: map<FunctionId, Function>, e: Event, c: nat, f: FunctionId, k: FunctionId, t: real)
    requires f in fs && k in fs[f].calls
    requires forall f, k :: Enters(fs, e, f, c, k) ==> fs[f].calls[k].events[e] >= 0.0
    requires t == CycleTotal(fs, e, c) && t > 0.0
    ensures CycleRatioVia(fs, e, f, c)[k] == (1.0 / t) * CycleInboundVia(fs, e, f, c)[k]
  {
    if Enters(fs, e, f, c, k) {
      var v := fs[f].calls[k].events[e];
      CallWithinCycleTotal(fs, e, c, f, k);
      CallTermsAt(fs, e, c, f, k);
      ShareOfTotalAt(v, t, CycleRatioVia(fs, e, f, c)[k], CycleInboundVia(fs, e, f, c)[k]);
    }
  }

  /** A call entering the cycle carries at most the cycle's inbound total. */
  lemma CallWithinCycleTotal(fs: map<FunctionId, Function>, e: Event, c: nat, f: FunctionId, k: FunctionId)
    requires f in fs && k in fs[f].calls && Enters(fs, e, f, c, k)
    requires forall f, k :: Enters(fs, e, f, c, k) ==> fs[f].calls[k].events[e] >= 0.0
    ensures 0.0 <= fs[f].calls[k].events[e] <= CycleTotal(fs, e, c)
  {
    CycleInboundNonneg(fs, e, c);
    SumAtLeastTerm<FunctionId>(fs[f].calls.Keys, CycleInboundVia(fs, e, f, c), k);
    SumAtLeastTerm<FunctionId>(fs.Keys, CycleInboundOf(fs, e, c), f);
  }

  /** The entries of a call entering the cycle in the two per-call tables. */
  lemma CallTermsAt(fs: map<FunctionId, Function>, e: Event, c: nat, f: FunctionId, k: FunctionId)
    requires f in fs && k in fs[f].calls && Enters(fs, e, f, c, k)
    ensures CycleRatioVia(fs, e, f, c)[k] == SafeRatio(fs[f].calls[k].events[e], CycleTotal(fs, e, c))
    ensures CycleInboundVia(fs, e, f, c)[k] == fs[f].calls[k].events[e]
  {
  }

  /** `ShareOfTotal` with the share and the value named. */
  lemma ShareOfTotalAt(v: real, t: real, share: real, value: real)
    requires 0.0 <= v <= t && t > 0.0 && share == SafeRatio(v, t) && value == v
    ensures share == (1.0 / t) * value
  {
    ShareOfTotal(v, t);
  }

  lemma ShareOfTotal(v: real, t: real)
    requires 0.0 <= v <= t && t > 0.0
    ensures SafeRatio(v, t) == (1.0 / t) * v
  {
  }
}
