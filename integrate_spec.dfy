/** What `Profile.integrate` (gprof2dot.py:525-707) computes, stated over
    the profile as it is before the call: the inclusive cost of every
    function, call and cycle, and how the cost that enters a cycle is
    spread over its members. */
module Integration {
  import opened Wrappers
  import opened Events
  import opened Entities
  import opened Sums
  import opened Ratios
  import opened Graphs
  import opened CycleRanks
  import opened Totals
  import opened CallTables

  /** A witness that the calls form no loop once each cycle is taken as
      one node and self-calls are ignored: every other call goes to a
      strictly lower level, and the members of a cycle share its level.
      Without one, the recursion of `_integrate_function` does not end. */
  datatype Levels = Levels(fn: map<FunctionId, nat>, cyc: map<nat, nat>)

  /** What `integrate` reads: the functions and cycles as they are before
      it runs, the kind it reads, the kind it writes, and the levels; and,
      as a proof device, the functions and cycles it is to leave behind
      (`Aimed` ties these to `FinalFunction` and `FinalCycle`). */
  datatype Input = Input(fs: map<FunctionId, Function>, store: seq<Cycle>, inEvent: Event, outEvent: Event, lv: Levels,
                         final: map<FunctionId, Function>, finalStore: seq<Cycle>)

  predicate InCycle(fs: map<FunctionId, Function>, k: FunctionId, c: nat)
  {
    k in fs && fs[k].cycle == Some(c)
  }

  /** `f` and `k` are members of one cycle. */
  predicate SameCycle(fs: map<FunctionId, Function>, f: FunctionId, k: FunctionId)
  {
    f in fs && fs[f].cycle.Some? && InCycle(fs, k, fs[f].cycle.value)
  }

  /** A cycle's member set and its members' back-pointers agree, as
      `find_cycles` leaves them. */
  ghost predicate CyclesConsistent(fs: map<FunctionId, Function>, store: seq<Cycle>)
  {
    && CyclesBelow(fs, |store|)
    && (forall c, m :: 0 <= c < |store| && m in store[c].functions ==> InCycle(fs, m, c))
    && (forall m :: m in fs && fs[m].cycle.Some? && fs[m].cycle.value < |store| ==> m in store[fs[m].cycle.value].functions)
  }

  ghost predicate Leveled(fs: map<FunctionId, Function>, store: seq<Cycle>, lv: Levels)
  {
    && (forall f :: f in fs ==> f in lv.fn)
    && (forall c :: 0 <= c < |store| ==> c in lv.cyc)
    && (forall f :: f in fs && fs[f].cycle.Some? && fs[f].cycle.value in lv.cyc ==> lv.fn[f] == lv.cyc[fs[f].cycle.value])
    && (forall f, k :: f in fs && k in fs[f].calls && k != f && !SameCycle(fs, f, k) && k in fs ==> lv.fn[k] < lv.fn[f])
  }

  /** Every call but a self-call has its ratio, as `integrate` asserts. */
  ghost predicate Rated(fs: map<FunctionId, Function>)
  {
    forall f, k :: f in fs && k in fs[f].calls && k != f ==> fs[f].calls[k].ratio.Some?
  }

  /** What the computation needs of the profile. */
  ghost predicate Integrable(x: Input)
  {
    && WellKeyed(x.fs) && Closed(x.fs)
    && CyclesConsistent(x.fs, x.store)
    && Leveled(x.fs, x.store, x.lv)
    && Rated(x.fs)
    && AllDefine(x.fs, x.inEvent)
    && x.final.Keys == x.fs.Keys && |x.finalStore| == |x.store|
  }

  /** An input that meets what the computation needs. */
  type IntegrableInput = x: Input | Integrable(x)
    ghost witness Input(map[], [], Calls, Calls, Levels(map[], map[]), map[], [])

  function RatioOf(fs: map<FunctionId, Function>, f: FunctionId, k: FunctionId): real
    requires f in fs && k in fs[f].calls && fs[f].calls[k].ratio.Some?
  {
    fs[f].calls[k].ratio.value
  }

  ghost function InOf(x: IntegrableInput, f: FunctionId): real
    requires f in x.fs
  {
    x.fs[f].events[x.inEvent]
  }

  /** The inclusive cost of `f`: for a function outside any cycle its own
      cost plus what each of its calls, self-calls aside, carries; for a
      cycle member the total of its cycle. */
  ghost function FunctionOut(x: IntegrableInput, f: FunctionId): real
    requires f in x.fs
    decreases x.lv.fn[f], 6
  {
    if x.fs[f].cycle.Some? then CycleValue(x, x.fs[f].cycle.value)
    else InOf(x, f) + SumSet(x.fs[f].calls.Keys, CallOuts(x, f))
  }

  ghost function CallOuts(x: IntegrableInput, f: FunctionId): map<FunctionId, real>
    requires f in x.fs && x.fs[f].cycle.None?
    decreases x.lv.fn[f], 1
  {
    map k | k in x.fs[f].calls :: if k != f then CallOut(x, f, k) else 0.0
  }

  /** What the call `f -> k` carries: its ratio of the callee's inclusive
      cost. */
  ghost function CallOut(x: IntegrableInput, f: FunctionId, k: FunctionId): real
    requires f in x.fs && k in x.fs[f].calls && k != f && !SameCycle(x.fs, f, k)
    decreases x.lv.fn[f], 0
  {
    Times(RatioOf(x.fs, f, k), FunctionOut(x, k))
  }

  /** `_integrate_cycle` returns what the cycle already holds for the
      output kind, and computes the total otherwise. */
  ghost function CycleValue(x: IntegrableInput, c: nat): real
    requires c < |x.store|
    decreases x.lv.cyc[c], 5
  {
    if x.outEvent in x.store[c].events then x.store[c].events[x.outEvent] else CycleOut(x, c)
  }

  /** The total of cycle `c`: each member's own cost plus what its calls
      leaving the cycle carry. */
  ghost function CycleOut(x: IntegrableInput, c: nat): real
    requires c < |x.store|
    decreases x.lv.cyc[c], 4
  {
    SumSet(x.store[c].functions, MemberTotals(x, c))
  }

  ghost function MemberTotals(x: IntegrableInput, c: nat): map<FunctionId, real>
    requires c < |x.store|
    decreases x.lv.cyc[c], 3
  {
    map m | m in x.store[c].functions :: MemberTotal(x, c, m)
  }

  /** What member `m` adds to its cycle's total. */
  ghost function MemberTotal(x: IntegrableInput, c: nat, m: FunctionId): real
    requires c < |x.store| && m in x.store[c].functions
    decreases x.lv.cyc[c], 2
  {
    InOf(x, m) + SumSet(x.fs[m].calls.Keys, ExternalOuts(x, c, m))
  }

  ghost function ExternalOuts(x: IntegrableInput, c: nat, m: FunctionId): map<FunctionId, real>
    requires c < |x.store| && m in x.store[c].functions
    decreases x.lv.cyc[c], 1
  {
    map k | k in x.fs[m].calls :: if !InCycle(x.fs, k, c) then CallOut(x, m, k) else 0.0
  }

  /** `a` and `b` differ at most in the events they hold: same functions,
      cycles, calls and ratios. */
  ghost predicate SameSkeleton(a: map<FunctionId, Function>, b: map<FunctionId, Function>)
  {
    && a.Keys == b.Keys
    && (forall f :: f in a ==> a[f].cycle == b[f].cycle && a[f].calls.Keys == b[f].calls.Keys)
    && (forall f, k :: f in a && k in a[f].calls ==> a[f].calls[k].ratio == b[f].calls[k].ratio)
  }

  /** The calls inside cycle `c` that `_rank_cycle_function` follows: the
      non-self calls from a member to a member. */
  function CycleGraph(fs: map<FunctionId, Function>, c: nat): (g: Graph)
    ensures forall f, k {:trigger k in Succ(g, f)} :: k in Succ(g, f) <==> InCycle(fs, f, c) && k in fs[f].calls && k != f && InCycle(fs, k, c)
  {
    map m | m in fs && fs[m].cycle == Some(c) :: set k | k in fs[m].calls && k != m && InCycle(fs, k, c)
  }

  lemma SkeletonGraph(a: map<FunctionId, Function>, b: map<FunctionId, Function>, c: nat)
    requires SameSkeleton(a, b)
    ensures CycleGraph(a, c) == CycleGraph(b, c)
  {
    var ga, gb := CycleGraph(a, c), CycleGraph(b, c);
    assert ga.Keys == gb.Keys;
    forall m | m in ga
      ensures ga[m] == gb[m]
    {
      assert forall k :: k in Succ(ga, m) <==> k in Succ(gb, m);
    }
  }

  /** Everything a member reaches inside its cycle is a member. */
  lemma ReachedInCycle(fs: map<FunctionId, Function>, c: nat, e: FunctionId, v: FunctionId)
    requires InCycle(fs, e, c) && Reaches(CycleGraph(fs, c), e, v)
    ensures InCycle(fs, v, c)
  {
    var n: nat :| PathOf(CycleGraph(fs, c), e, v, n);
    if n > 0 {
      var w := PathLast(CycleGraph(fs, c), e, v, n);
    }
  }

  /** No edge leaves the ranked vertices. */
  ghost predicate RanksClosed(g: Graph, ranks: map<Vertex, nat>)
  {
    forall u, v :: u in ranks && v in Succ(g, u) ==> v in ranks
  }

  /** The ranks `_rank_cycle_function` gives the members of `c` seen from
      the entry `e`: the length of a shortest path inside the cycle. */
  ghost function EntryRanks(fs: map<FunctionId, Function>, c: nat, e: FunctionId): (r: map<FunctionId, nat>)
    requires InCycle(fs, e, c)
    ensures r == Distances(CycleGraph(fs, c), e)
    ensures RanksClosed(CycleGraph(fs, c), r)
    ensures forall v :: v in r ==> InCycle(fs, v, c)
  {
    var g := CycleGraph(fs, c);
    DistancesMeaning(g, e);
    forall u, v | u in Distances(g, e) && v in Succ(g, u)
      ensures v in Distances(g, e)
    {
      DistancesClosed(g, e, u, v);
    }
    forall v | v in Distances(g, e)
      ensures InCycle(fs, v, c)
    {
      ReachedInCycle(fs, c, e, v);
    }
    Distances(g, e)
  }

  /** The call `g -> e` enters cycle `c` at `e` from outside it. */
  predicate EntersAt(fs: map<FunctionId, Function>, c: nat, g: FunctionId, e: FunctionId)
  {
    g in fs && !InCycle(fs, g, c) && e in fs[g].calls && InCycle(fs, e, c)
  }

  /** The functions outside `c` that call its member `e`. */
  ghost function EntryCallers(fs: map<FunctionId, Function>, c: nat, e: FunctionId): set<FunctionId>
  {
    set g | g in fs && EntersAt(fs, c, g, e)
  }

  /** The keys of `callees` in `_integrate_cycle`: the members called from
      outside the cycle. */
  ghost function Entries(fs: map<FunctionId, Function>, c: nat): set<FunctionId>
  {
    set e | e in fs && InCycle(fs, e, c) && EntryCallers(fs, c, e) != {}
  }

  /** The value of `callees[e]`: the ratios of the calls entering the cycle
      at `e` added up. */
  ghost function EntryRatio(fs: map<FunctionId, Function>, c: nat, e: FunctionId): real
  {
    SumSet(EntryCallers(fs, c, e), RatioInto(fs, e))
  }

  /** The call `f -> k` inside the cycle goes one rank deeper: the calls
      `_call_ratios_cycle` and `_integrate_cycle_function` follow. */
  ghost predicate Forward(fs: map<FunctionId, Function>, c: nat, ranks: map<FunctionId, nat>, f: FunctionId, k: FunctionId)
  {
    f in ranks && k in ranks && k in Succ(CycleGraph(fs, c), f) && ranks[k] > ranks[f]
  }

  ghost function ForwardCallers(fs: map<FunctionId, Function>, c: nat, ranks: map<FunctionId, nat>, k: FunctionId): set<FunctionId>
  {
    set f | f in ranks && Forward(fs, c, ranks, f, k)
  }

  /** `call_ratios[k]`: the ratios of the forward calls into `k` added
      up. */
  ghost function ForwardRatio(fs: map<FunctionId, Function>, c: nat, ranks: map<FunctionId, nat>, k: FunctionId): real
  {
    SumSet(ForwardCallers(fs, c, ranks, k), RatioInto(fs, k))
  }

  /** The ratio tables read the same from two profiles with the same
      skeleton. */
  lemma SkeletonRatios(a: map<FunctionId, Function>, b: map<FunctionId, Function>, c: nat, ranks: map<FunctionId, nat>, k: FunctionId)
    requires SameSkeleton(a, b)
    ensures Entries(a, c) == Entries(b, c) && EntryCallers(a, c, k) == EntryCallers(b, c, k)
    ensures EntryRatio(a, c, k) == EntryRatio(b, c, k)
    ensures ForwardCallers(a, c, ranks, k) == ForwardCallers(b, c, ranks, k)
    ensures ForwardRatio(a, c, ranks, k) == ForwardRatio(b, c, ranks, k)
  {
    SkeletonGraph(a, b, c);
    assert forall e :: EntryCallers(a, c, e) == EntryCallers(b, c, e);
    SumExt(EntryCallers(a, c, k), RatioInto(a, k), RatioInto(b, k));
    assert ForwardCallers(a, c, ranks, k) == ForwardCallers(b, c, ranks, k);
    SumExt(ForwardCallers(a, c, ranks, k), RatioInto(a, k), RatioInto(b, k));
  }

  /** The ranked vertices deeper than `f`: the recursion of
      `_integrate_cycle_function` only goes deeper. */
  function DeeperThan(ranks: map<FunctionId, nat>, f: FunctionId): set<FunctionId>
    requires f in ranks
  {
    set v | v in ranks && ranks[v] > ranks[f]
  }

  /** The share of its own costs and of the deeper members' shares that
      `_integrate_cycle_function` gives member `f`, for an entry whose
      calls carry the ratio `r`. */
  ghost function Partial(x: IntegrableInput, c: nat, ranks: map<FunctionId, nat>, r: real, f: FunctionId): real
    requires RanksClosed(CycleGraph(x.fs, c), ranks)
    requires f in ranks && InCycle(x.fs, f, c)
    decreases DeeperThan(ranks, f), 3
  {
    Times(r, InOf(x, f)) + SumSet(x.fs[f].calls.Keys, PartialTerms(x, c, ranks, r, f))
  }

  ghost function PartialTerms(x: IntegrableInput, c: nat, ranks: map<FunctionId, nat>, r: real, f: FunctionId): map<FunctionId, real>
    requires RanksClosed(CycleGraph(x.fs, c), ranks)
    requires f in ranks && InCycle(x.fs, f, c)
    decreases DeeperThan(ranks, f), 2
  {
    map k | k in x.fs[f].calls :: PartialTerm(x, c, ranks, r, f, k)
  }

  /** What the call `f -> k` adds to the share of `f`: `r` times what it
      carries when it leaves the cycle, what it passes back when it goes
      one rank deeper, nothing otherwise. */
  ghost function PartialTerm(x: IntegrableInput, c: nat, ranks: map<FunctionId, nat>, r: real, f: FunctionId, k: FunctionId): real
    requires RanksClosed(CycleGraph(x.fs, c), ranks)
    requires f in ranks && InCycle(x.fs, f, c)
    decreases DeeperThan(ranks, f), 1
  {
    if k !in x.fs[f].calls || k == f then 0.0
    else if !InCycle(x.fs, k, c) then Times(r, CallOut(x, f, k))
    else if ranks[k] > ranks[f] then Passed(x, c, ranks, r, f, k)
    else 0.0
  }

  /** What the forward call `f -> k` passes back to `f`: its share of the
      forward ratios into `k`, times the share of `k`. */
  ghost function Passed(x: IntegrableInput, c: nat, ranks: map<FunctionId, nat>, r: real, f: FunctionId, k: FunctionId): real
    requires RanksClosed(CycleGraph(x.fs, c), ranks)
    requires Forward(x.fs, c, ranks, f, k)
    decreases DeeperThan(ranks, f), 0
  {
    assert DeeperThan(ranks, k) < DeeperThan(ranks, f) by {
      assert k in DeeperThan(ranks, f) && k !in DeeperThan(ranks, k);
    }
    Times(SafeRatio(RatioOf(x.fs, f, k), ForwardRatio(x.fs, c, ranks, k)), Partial(x, c, ranks, r, k))
  }

  /** A product kept behind a name, so that the solver treats the share
      passed down a forward call as one term. */
  function Times(a: real, b: real): real
  {
    a * b
  }

  /** The share of member `m` in what enters the cycle at `e`: nothing
      when `e` does not reach it. */
  ghost function EntryShare(x: IntegrableInput, c: nat, e: FunctionId, m: FunctionId): real
    requires e in Entries(x.fs, c)
  {
    var ranks := EntryRanks(x.fs, c, e);
    if m in ranks then Partial(x, c, ranks, EntryRatio(x.fs, c, e), m) else 0.0
  }

  ghost function EntryShares(x: IntegrableInput, c: nat, m: FunctionId): map<FunctionId, real>
  {
    map e | e in Entries(x.fs, c) :: EntryShare(x, c, e, m)
  }

  /** What member `m` holds once the entries of `done` are distributed. */
  ghost function MemberAcc(x: IntegrableInput, c: nat, done: set<FunctionId>, m: FunctionId): real
  {
    SumSet(done, EntryShares(x, c, m))
  }

  /** What the call `m -> k` inside the cycle passes for the entry `e`. */
  ghost function CallShare(x: IntegrableInput, c: nat, e: FunctionId, m: FunctionId, k: FunctionId): real
    requires e in Entries(x.fs, c)
  {
    var ranks := EntryRanks(x.fs, c, e);
    if Forward(x.fs, c, ranks, m, k) then Passed(x, c, ranks, EntryRatio(x.fs, c, e), m, k) else 0.0
  }

  ghost function CallShares(x: IntegrableInput, c: nat, m: FunctionId, k: FunctionId): map<FunctionId, real>
  {
    map e | e in Entries(x.fs, c) :: CallShare(x, c, e, m, k)
  }

  /** The entries of `done` for which `m -> k` is a forward call. */
  ghost function PassingEntries(fs: map<FunctionId, Function>, c: nat, done: set<FunctionId>, m: FunctionId, k: FunctionId): set<FunctionId>
  {
    done * Passers(fs, c, m, k)
  }

  /** The entries for which `m -> k` is a forward call. */
  ghost function Passers(fs: map<FunctionId, Function>, c: nat, m: FunctionId, k: FunctionId): set<FunctionId>
  {
    set e | e in Entries(fs, c) && Passes(fs, c, m, k, e)
  }

  /** `m -> k` is a forward call for the entry `e`. */
  ghost predicate Passes(fs: map<FunctionId, Function>, c: nat, m: FunctionId, k: FunctionId, e: FunctionId)
  {
    e in Entries(fs, c) && Forward(fs, c, EntryRanks(fs, c, e), m, k)
  }

  /** A call inside the cycle once the entries of `passing` have used
      it: untouched until one of them does, then holding their shares. */
  ghost function Accumulated(call: Call, e: Event, passing: set<FunctionId>, shares: map<FunctionId, real>): Call
  {
    if passing == {} then call else WithOut(call, e, SumSet(passing, shares))
  }

  /** The call with `v` stored for event `e`. */
  function WithOut(call: Call, e: Event, v: real): Call
  {
    call.(events := call.events[e := v])
  }

  /** A call of member `m` once the entries of `done` are distributed:
      a call leaving the cycle holds what it carries, one inside holds
      what the entries passed along it, if any did. */
  ghost function DistCall(x: IntegrableInput, c: nat, done: set<FunctionId>, m: FunctionId, k: FunctionId): Call
    requires InCycle(x.fs, m, c) && k in x.fs[m].calls
  {
    var call := x.fs[m].calls[k];
    if !InCycle(x.fs, k, c) then WithOut(call, x.outEvent, CallOut(x, m, k))
    else Accumulated(call, x.outEvent, PassingEntries(x.fs, c, done, m, k), CallShares(x, c, m, k))
  }

  /** The calls of member `m` once the entries of `done` are distributed. */
  ghost function DistTable(x: IntegrableInput, c: nat, done: set<FunctionId>, m: FunctionId): (r: map<FunctionId, Call>)
    requires InCycle(x.fs, m, c)
    ensures r.Keys == x.fs[m].calls.Keys
  {
    map k | k in x.fs[m].calls :: DistCall(x, c, done, m, k)
  }

  /** `fn` holding `v` for event `e`, with the calls `calls`. */
  function Holding(fn: Function, e: Event, v: real, calls: map<FunctionId, Call>): Function
  {
    fn.(events := fn.events[e := v], calls := calls)
  }

  /** Member `m` once the entries of `done` are distributed. */
  ghost function DistMember(x: IntegrableInput, c: nat, done: set<FunctionId>, m: FunctionId): Function
    requires InCycle(x.fs, m, c)
  {
    Holding(x.fs[m], x.outEvent, MemberAcc(x, c, done, m), DistTable(x, c, done, m))
  }

  /** The call `f -> k` is one `integrate` gives a value of its own: not a
      self-call and not a call inside a cycle. */
  predicate Integrated(fs: map<FunctionId, Function>, f: FunctionId, k: FunctionId)
  {
    k != f && !SameCycle(fs, f, k)
  }

  /** The call `f -> k` once `_integrate_call` has run on it, if it is run. */
  ghost function IntegratedCall(x: IntegrableInput, f: FunctionId, k: FunctionId): Call
    requires f in x.fs && k in x.fs[f].calls
  {
    var call := x.fs[f].calls[k];
    if Integrated(x.fs, f, k) then WithOut(call, x.outEvent, CallOut(x, f, k)) else call
  }

  ghost function IntegratedCalls(x: IntegrableInput, f: FunctionId): (r: map<FunctionId, Call>)
    requires f in x.fs
    ensures r.Keys == x.fs[f].calls.Keys
  {
    map k | k in x.fs[f].calls :: IntegratedCall(x, f, k)
  }

  /** `f` after `integrate`: outside a cycle it holds its inclusive cost
      and each call what it carries; a member of a cycle that already held
      the output is untouched, any other member holds its shares of what
      enters its cycle. */
  ghost function FinalFunction(x: IntegrableInput, f: FunctionId): Function
    requires f in x.fs
  {
    var fn := x.fs[f];
    if fn.cycle.None? then
      fn.(events := fn.events[x.outEvent := FunctionOut(x, f)], calls := IntegratedCalls(x, f))
    else if x.outEvent in x.store[fn.cycle.value].events then fn
    else DistMember(x, fn.cycle.value, Entries(x.fs, fn.cycle.value), f)
  }

  ghost function FinalFunctions(x: IntegrableInput): map<FunctionId, Function>
  {
    map f | f in x.fs :: FinalFunction(x, f)
  }

  /** Cycle `c` after `integrate`: a cycle with members that did not hold
      the output yet holds its total. */
  ghost function FinalCycle(x: IntegrableInput, c: nat): Cycle
    requires c < |x.store|
  {
    var cy := x.store[c];
    if cy.functions != {} && x.outEvent !in cy.events then cy.(events := cy.events[x.outEvent := CycleOut(x, c)]) else cy
  }

  ghost function FinalCycles(x: IntegrableInput): seq<Cycle>
  {
    seq(|x.store|, c requires 0 <= c < |x.store| => FinalCycle(x, c))
  }

  /** The targets recorded in `x` are the final functions and cycles. The
      triggers keep the definitions of the targets out of sight until a
      proof names `FinalFunction` or `FinalCycle`. */
  ghost predicate Aimed(x: IntegrableInput)
  {
    && (forall f {:trigger FinalFunction(x, f)} :: f in x.fs ==> x.final[f] == FinalFunction(x, f))
    && (forall c {:trigger FinalCycle(x, c)} :: 0 <= c < |x.store| ==> x.finalStore[c] == FinalCycle(x, c))
  }
}
