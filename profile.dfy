/** The `Profile` class: the whole call graph and the passes that derive
    costs from it (gprof2dot.py:304-792). */
module Profiles {
  import opened Wrappers
  import opened Events
  import opened Entities
  import opened Ratios
  import opened Sums
  import opened Graphs
  import opened CallRatioSpec
  import opened CallRatioPasses
  import opened Totals
  import opened Pruning
  import opened Frontier
  import opened Subgraphs
  import opened Tarjan
  import opened CycleRanks
  import opened CallTables
  import opened Integration
  import opened IntegrationSteps
  import opened IntegrationState
  import opened RatioTables
  import opened Distribution
  import opened IntegrationWalks
  import opened IntegrationRun

  /** The inner loop of `validate`: deletes, one by one, the calls whose
      callee is not in `known`. */
  method DropUnknownCallees(calls: map<FunctionId, Call>, known: set<FunctionId>) returns (kept: map<FunctionId, Call>)
    ensures kept == RestrictCalls(calls, known)
  {
    kept := calls;
    var calleeIds := calls.Keys;
    while calleeIds != {}
      invariant calleeIds <= calls.Keys
      invariant kept == map k | k in calls && (k in calleeIds || k in known) :: calls[k]
      decreases calleeIds
    {
      var k :| k in calleeIds;
      if k !in known {
        kept := kept - {k};
      }
      calleeIds := calleeIds - {k};
    }
  }

  predicate NoDuplicates(s: seq<nat>)
  {
    forall i, j :: 0 <= i < j < |s| ==> s[i] != s[j]
  }

  /** A profile whose calls all target registered functions gives a call
      graph that no edge leaves. */
  lemma ClosedGraph(fs: map<FunctionId, Function>)
    requires Closed(fs)
    ensures ClosedUnder(CallGraph(fs), CallGraph(fs).Keys)
  {
  }

  /** The first `k` components have become the cycles appended to
      `store0`, in order, and `fs1` is `fs0` with the cycles of their
      members, and nothing else, changed. */
  ghost predicate CyclesMade(fs0: map<FunctionId, Function>, store0: seq<Cycle>, fs1: map<FunctionId, Function>, store1: seq<Cycle>,
                             found: seq<seq<FunctionId>>, k: nat)
  {
    && k <= |found|
    && fs1.Keys == fs0.Keys
    && (forall f :: f in fs1 ==> fs1[f].(cycle := fs0[f].cycle) == fs0[f])
    && |store1| == |store0| + k && store1[..|store0|] == store0
    && (forall i :: 0 <= i < k ==> store1[|store0| + i] == Cycle(Members(found[i]), map[]))
    && (forall i, x :: 0 <= i < k && x in found[i] ==> x in fs1 && fs1[x].cycle == Some(|store0| + i))
    && (forall f :: f in fs1 && fs1[f].cycle != fs0[f].cycle ==> exists i :: 0 <= i < k && f in found[i])
  }

  /** Turning the next component into a new cycle whose members point to it. */
  lemma CyclesMadeStep(fs0: map<FunctionId, Function>, store0: seq<Cycle>, fs1: map<FunctionId, Function>, store1: seq<Cycle>,
                       fs2: map<FunctionId, Function>, store2: seq<Cycle>, found: seq<seq<FunctionId>>, k: nat)
    requires CyclesMade(fs0, store0, fs1, store1, found, k) && k < |found| && FoundDisjoint(found)
    requires forall x :: x in found[k] ==> x in fs1
    requires store2 == (store1 + [NewCycle()])[|store1| := Cycle(Members(found[k]), map[])]
    requires fs2.Keys == fs1.Keys
    requires forall f :: f in fs2 ==> fs2[f] == if f in found[k] then fs1[f].(cycle := Some(|store1|)) else fs1[f]
    ensures CyclesMade(fs0, store0, fs2, store2, found, k + 1)
  {
    forall i, x | 0 <= i < k && x in found[i]
      ensures x !in found[k]
    {
    }
    assert store2[..|store0|] == store1[..|store0|];
  }

  /** Pass 2 of `call_ratios` has rated the calls of every function of
      `fs0` but those in `todo`, and changed nothing else. */
  ghost predicate RatedExcept(fs0: map<FunctionId, Function>, fs: map<FunctionId, Function>, todo: set<FunctionId>,
                              e: Event, functionTotals: map<FunctionId, real>, cycleTotals: map<nat, real>)
  {
    && fs.Keys == fs0.Keys
    && forall g :: g in fs ==>
         fs[g] == if g in todo then fs0[g] else fs0[g].(calls := RatedCallsGiven(fs0, e, g, functionTotals, cycleTotals))
  }

  /** Rating the calls of one more function `f`. */
  lemma RatedExceptStep(fs0: map<FunctionId, Function>, fs: map<FunctionId, Function>, todo: set<FunctionId>,
                        e: Event, functionTotals: map<FunctionId, real>, cycleTotals: map<nat, real>, f: FunctionId)
    requires RatedExcept(fs0, fs, todo, e, functionTotals, cycleTotals) && f in todo && todo <= fs0.Keys
    ensures f in fs && fs[f] == fs0[f]
    ensures forall g :: g in fs0 ==> fs[g].cycle == fs0[g].cycle
    ensures RatedExcept(fs0, fs[f := fs0[f].(calls := RatedCallsGiven(fs0, e, f, functionTotals, cycleTotals))], todo - {f},
                        e, functionTotals, cycleTotals)
  {
  }

  /** Step 5 of `prune` has rescaled every function of `fs0` but those in
      `todo`. */
  ghost predicate ColouredExcept(fs0: map<FunctionId, Function>, fs: map<FunctionId, Function>, todo: set<FunctionId>, scale: real)
  {
    && fs.Keys == fs0.Keys
    && forall g :: g in fs ==> fs[g] == if g in todo then fs0[g] else ColouredFunction(fs0[g], scale)
  }

  /** Rescaling one more function `g`. */
  lemma ColouredStep(fs0: map<FunctionId, Function>, fs: map<FunctionId, Function>, todo: set<FunctionId>, scale: real, g: FunctionId)
    requires ColouredExcept(fs0, fs, todo, scale) && g in todo && todo <= fs0.Keys
    ensures g in fs && fs[g] == fs0[g]
    ensures ColouredExcept(fs0, fs[g := ColouredFunction(fs0[g], scale)], todo - {g}, scale)
    ensures ColouredFunction(fs0[g], scale) == fs0[g] ==> ColouredExcept(fs0, fs, todo - {g}, scale)
  {
    if ColouredFunction(fs0[g], scale) == fs0[g] {
      assert fs[g := ColouredFunction(fs0[g], scale)] == fs;
    }
  }

  /** Once every function is rescaled the profile is the coloured one, and
      still well formed. */
  lemma ColouredDone(fs0: map<FunctionId, Function>, fs: map<FunctionId, Function>, scale: real, n: nat)
    requires ColouredExcept(fs0, fs, {}, scale) && WellKeyed(fs0) && CyclesBelow(fs0, n)
    ensures fs == Coloured(fs0, scale) && WellKeyed(fs) && CyclesBelow(fs, n)
  {
  }

  /** `f` shares no strongly connected component with another function:
      its only recursion, if any, is a call to itself. */
  ghost predicate SelfRecursiveOnly(g: Graph, f: Vertex)
  {
    forall h :: h != f ==> !(Reaches(g, f, h) && Reaches(g, h, f))
  }

  /** A function whose only recursion, if any, is a call to itself points to none of the
      cycles `base..` of `store`: such a cycle lists every function pointing
      to it, has two or more members, and they all reach one another. */
  lemma SelfRecursiveGetsNoCycle(fs: map<FunctionId, Function>, store: seq<Cycle>, base: nat, f: FunctionId)
    requires f in fs
    requires forall i :: base <= i < |store| ==>
      && |store[i].functions| >= 2
      && (forall x, y :: x in store[i].functions && y in store[i].functions ==> Reaches(CallGraph(fs), x, y))
    requires forall g :: g in fs && fs[g].cycle.Some? && base <= fs[g].cycle.value < |store| ==>
      g in store[fs[g].cycle.value].functions
    requires SelfRecursiveOnly(CallGraph(fs), f)
    ensures !(fs[f].cycle.Some? && base <= fs[f].cycle.value < |store|)
  {
    if fs[f].cycle.Some? && base <= fs[f].cycle.value < |store| {
      OtherMember(store[fs[f].cycle.value].functions, f);
    }
  }

  /** A set of two or more elements holds one besides `f`. */
  lemma OtherMember<T>(s: set<T>, f: T)
    requires f in s && |s| >= 2
    ensures exists g :: g in s && g != f
  {
    var rest := s - {f};
    assert s == rest + {f};
    var g :| g in rest;
  }

  class Profile {
    /** `functions`: the registered functions, keyed by id. */
    var functions: map<FunctionId, Function>
    /** Every `Cycle` object created so far; `Function.cycle` is an index
        into this store. */
    var cycleStore: seq<Cycle>
    /** `cycles`: the profile's list of cycles, as indices into `cycleStore`. */
    var cycles: seq<nat>
    /** The profile-wide events. */
    var events: EventMap

    /** Keys agree with ids, and every cycle index points into the store. */
    ghost predicate Valid()
      reads this
    {
      && WellKeyed(functions)
      && CyclesBelow(functions, |cycleStore|)
      && (forall i :: 0 <= i < |cycles| ==> cycles[i] < |cycleStore|)
    }

    constructor ()
      ensures Valid()
      ensures functions == map[] && cycleStore == [] && cycles == [] && events == map[]
    {
      functions := map[];
      cycleStore := [];
      cycles := [];
      events := map[];
    }

    /** `Profile.add_function`: a function with an id already registered
        replaces the old one (the source only warns). */
    method AddFunction(f: Function)
      requires Valid() && CallsKeyed(f)
      requires f.cycle.Some? ==> f.cycle.value < |cycleStore|
      modifies this`functions
      ensures Valid()
      ensures functions == old(functions)[f.id := f]
    {
      functions := functions[f.id := f];
    }

    /** `Cycle()`: a new, empty cycle object. */
    method CreateCycle() returns (c: nat)
      requires Valid()
      modifies this`cycleStore
      ensures Valid()
      ensures c == old(|cycleStore|) && cycleStore == old(cycleStore) + [NewCycle()]
    {
      c := |cycleStore|;
      cycleStore := cycleStore + [NewCycle()];
    }

    /** `Profile.add_cycle`. */
    method AddCycle(c: nat)
      requires Valid() && c < |cycleStore|
      modifies this`cycles
      ensures Valid()
      ensures cycles == old(cycles) + [c]
    {
      cycles := cycles + [c];
    }

    /** `Cycle.add_function`: the function joins the cycle and points back
        to it. The loop meant to fold in the function's previous cycle
        tests the function just added instead of the other member, so it
        never adds anything: a previous cycle keeps its members. */
    method CycleAddFunction(c: nat, id: FunctionId)
      requires Valid() && c < |cycleStore| && id in functions
      requires id !in cycleStore[c].functions
      modifies this`cycleStore, this`functions
      ensures Valid()
      ensures cycleStore == old(cycleStore)[c := old(cycleStore[c]).(functions := old(cycleStore[c].functions) + {id})]
      ensures functions == old(functions)[id := old(functions[id]).(cycle := Some(c))]
    {
      cycleStore := cycleStore[c := cycleStore[c].(functions := cycleStore[c].functions + {id})];
      functions := functions[id := functions[id].(cycle := Some(c))];
    }

    /** `Profile.validate`: drops every call whose callee id is not a
        registered function and keeps everything else. */
    method Validate()
      requires Valid()
      modifies this`functions
      ensures Valid() && Closed(functions)
      ensures functions.Keys == old(functions).Keys
      ensures forall id :: id in functions ==>
        functions[id] == old(functions)[id].(calls := RestrictCalls(old(functions)[id].calls, old(functions).Keys))
    {
      ghost var before := functions;
      var todo := functions.Keys;
      while todo != {}
        invariant todo <= before.Keys && functions.Keys == before.Keys
        invariant forall id :: id in functions ==>
          functions[id] == if id in todo then before[id]
                           else before[id].(calls := RestrictCalls(before[id].calls, before.Keys))
        decreases todo
      {
        var id :| id in todo;
        var kept := DropUnknownCallees(functions[id].calls, functions.Keys);
        functions := functions[id := functions[id].(calls := kept)];
        todo := todo - {id};
      }
      assert WellKeyed(functions);
    }

    /** `Profile.find_cycles`: runs Tarjan's search over the call graph,
        makes a cycle of each strongly connected component of two or more
        functions, and lists the distinct cycles of the functions. Nothing
        but the functions' cycle changes. Each new cycle has at least two
        members, all of them reach one another and point back to it, so no
        function is in two new cycles; a function whose only recursion is a
        call to itself gets none (see `Tarjan.FoundPartner`). */
    method FindCycles()
      requires Valid() && Closed(functions)
      modifies this`functions, this`cycleStore, this`cycles
      ensures Valid()
      ensures functions.Keys == old(functions).Keys
      ensures forall f :: f in functions ==> functions[f].(cycle := old(functions)[f].cycle) == old(functions)[f]
      ensures |cycleStore| >= old(|cycleStore|) && cycleStore[..old(|cycleStore|)] == old(cycleStore)
      ensures forall i :: old(|cycleStore|) <= i < |cycleStore| ==>
        && |cycleStore[i].functions| >= 2 && cycleStore[i].events == map[]
        && (forall x :: x in cycleStore[i].functions ==> x in functions && functions[x].cycle == Some(i))
        && (forall x, y :: x in cycleStore[i].functions && y in cycleStore[i].functions ==>
              Reaches(CallGraph(functions), x, y))
      ensures forall f :: f in functions && functions[f].cycle != old(functions)[f].cycle ==>
        functions[f].cycle.Some? && old(|cycleStore|) <= functions[f].cycle.value < |cycleStore|
      ensures forall f :: f in functions && functions[f].cycle.Some? && functions[f].cycle.value >= old(|cycleStore|) ==>
        f in cycleStore[functions[f].cycle.value].functions
      ensures forall f :: f in functions && SelfRecursiveOnly(CallGraph(functions), f) ==>
        functions[f].cycle == old(functions)[f].cycle
      ensures NoDuplicates(cycles)
      ensures forall c :: c in cycles <==> exists f :: f in functions && functions[f].cycle == Some(c)
    {
      ClosedGraph(functions);
      var found := Components(CallGraph(functions));
      ghost var g := CallGraph(functions);
      ghost var base := |cycleStore|;
      ghost var fs0 := functions;
      MakeCycles(found);
      assert CallGraph(functions) == g;
      forall f | f in functions && functions[f].cycle.Some? && functions[f].cycle.value >= base
        ensures f in cycleStore[functions[f].cycle.value].functions
      {
        assert functions[f].cycle != fs0[f].cycle;
        var k :| 0 <= k < |found| && f in found[k];
        assert cycleStore[base + k] == Cycle(Members(found[k]), map[]);
      }
      forall i | base <= i < |cycleStore|
        ensures |cycleStore[i].functions| >= 2 && cycleStore[i].events == map[]
        ensures forall x :: x in cycleStore[i].functions ==> x in functions && functions[x].cycle == Some(i)
        ensures forall x, y :: x in cycleStore[i].functions && y in cycleStore[i].functions ==>
          Reaches(CallGraph(functions), x, y)
      {
        var k := i - base;
        assert cycleStore[base + k] == Cycle(Members(found[k]), map[]);
        assert |found[k]| > 1 && Tarjan.Distinct(found[k]) && StronglyConnected(g, found[k]);
        DistinctCard(found[k]);
        assert |cycleStore[i].functions| == |found[k]|;
      }
      forall f | f in functions && SelfRecursiveOnly(CallGraph(functions), f)
        ensures functions[f].cycle == fs0[f].cycle
      {
        SelfRecursiveGetsNoCycle(functions, cycleStore, base, f);
      }
      CollectCycles();
    }

    /** The part of `_tarjan` that builds a `Cycle` from each component:
        the components found become new cycles, in order, and each member
        points to its cycle. */
    method MakeCycles(found: seq<seq<FunctionId>>)
      requires Valid() && FoundSound(CallGraph(functions), found) && FoundDisjoint(found)
      requires forall k, x :: 0 <= k < |found| && x in found[k] ==> x in functions
      modifies this`functions, this`cycleStore
      ensures Valid()
      ensures functions.Keys == old(functions).Keys
      ensures forall f :: f in functions ==> functions[f].(cycle := old(functions)[f].cycle) == old(functions)[f]
      ensures |cycleStore| == old(|cycleStore|) + |found| && cycleStore[..old(|cycleStore|)] == old(cycleStore)
      ensures forall k :: 0 <= k < |found| ==>
        cycleStore[old(|cycleStore|) + k] == Cycle(Members(found[k]), map[])
      ensures forall k, x :: 0 <= k < |found| && x in found[k] ==> functions[x].cycle == Some(old(|cycleStore|) + k)
      ensures forall f :: f in functions && functions[f].cycle != old(functions)[f].cycle ==>
        exists k :: 0 <= k < |found| && f in found[k]
    {
      ghost var fs, store := functions, cycleStore;
      var k := 0;
      while k < |found|
        invariant Valid() && CyclesMade(fs, store, functions, cycleStore, found, k)
      {
        ghost var fs1, store1 := functions, cycleStore;
        var c := CreateCycle();
        AddMembers(c, found[k]);
        CyclesMadeStep(fs, store, fs1, store1, functions, cycleStore, found, k);
        k := k + 1;
      }
    }

    /** The loop of `_tarjan` over a component's members: each joins cycle
        `c` through `Cycle.add_function`. */
    method AddMembers(c: nat, members: seq<FunctionId>)
      requires Valid() && c < |cycleStore| && cycleStore[c] == NewCycle()
      requires Tarjan.Distinct(members) && forall x :: x in members ==> x in functions
      modifies this`functions, this`cycleStore
      ensures Valid()
      ensures cycleStore == old(cycleStore)[c := Cycle(Members(members), map[])]
      ensures functions.Keys == old(functions).Keys
      ensures forall f :: f in functions ==>
        functions[f] == if f in members then old(functions)[f].(cycle := Some(c)) else old(functions)[f]
    {
      ghost var fs := functions;
      var i := 0;
      assert Members(members[..0]) == {};
      while i < |members|
        invariant 0 <= i <= |members| && Valid() && c < |cycleStore|
        invariant cycleStore == old(cycleStore)[c := Cycle(Members(members[..i]), map[])]
        invariant functions.Keys == fs.Keys
        invariant forall f :: f in functions ==>
          functions[f] == if f in members[..i] then fs[f].(cycle := Some(c)) else fs[f]
      {
        assert members[i] !in members[..i];
        assert members[..i + 1] == members[..i] + [members[i]];
        assert Members(members[..i + 1]) == Members(members[..i]) + {members[i]};
        CycleAddFunction(c, members[i]);
        i := i + 1;
      }
      assert members[..i] == members;
    }

    /** The end of `find_cycles`: `cycles` becomes the list of the distinct
        cycles that functions belong to. */
    method CollectCycles()
      requires Valid()
      modifies this`cycles
      ensures Valid()
      ensures NoDuplicates(cycles)
      ensures forall c :: c in cycles <==> exists f :: f in functions && functions[f].cycle == Some(c)
    {
      var list: seq<nat> := [];
      var todo := functions.Keys;
      while todo != {}
        invariant todo <= functions.Keys && NoDuplicates(list)
        invariant forall i :: 0 <= i < |list| ==> list[i] < |cycleStore|
        invariant forall c :: c in list <==> exists f :: f in functions && f !in todo && functions[f].cycle == Some(c)
        decreases todo
      {
        var f :| f in todo;
        todo := todo - {f};
        if functions[f].cycle.Some? && functions[f].cycle.value !in list {
          list := list + [functions[f].cycle.value];
        }
      }
      cycles := list;
    }

    /** `Profile.call_ratios`: sets the ratio of every non-self call to the
        share of the callee's inbound total (or, for a call entering a
        cycle from outside, of the cycle's inbound total) that it carries.
        Every call must still be without a ratio. */
    method CallRatios(e: Event)
      requires Valid() && Closed(functions)
      requires EnteredCyclesListed(functions, e, cycles)
      requires forall f, k :: f in functions && k in functions[f].calls ==> functions[f].calls[k].ratio.None?
      modifies this`functions
      ensures Valid() && functions.Keys == old(functions).Keys
      ensures forall f :: f in functions ==> functions[f] == old(functions)[f].(calls := RatedCalls(old(functions), e, f))
    {
      var functionTotals, cycleTotals := InboundTotals(functions, cycles, e);
      RatedCallsFromTotals(functions, e, functionTotals, cycleTotals);
      SetRatios(e, functionTotals, cycleTotals);
    }

    /** Pass 2 of `call_ratios` (gprof2dot.py:510-523), given the totals
        of pass 1. */
    method SetRatios(e: Event, functionTotals: map<FunctionId, real>, cycleTotals: map<nat, real>)
      requires Valid() && Closed(functions) && functionTotals.Keys == functions.Keys
      requires forall f, k :: Counted(functions, e, f, k) && EntersCycle(functions, f, k) ==> functions[k].cycle.value in cycleTotals
      requires forall f, k :: f in functions && k in functions[f].calls ==> functions[f].calls[k].ratio.None?
      modifies this`functions
      ensures Valid() && functions.Keys == old(functions).Keys
      ensures forall f :: f in functions ==>
        functions[f] == old(functions)[f].(calls := RatedCallsGiven(old(functions), e, f, functionTotals, cycleTotals))
    {
      ghost var fs := functions;
      var todo := functions.Keys;
      while todo != {}
        invariant todo <= fs.Keys && RatedExcept(fs, functions, todo, e, functionTotals, cycleTotals)
        decreases todo
      {
        var f :| f in todo;
        RatedExceptStep(fs, functions, todo, e, functionTotals, cycleTotals, f);
        RateFunctionCalls(e, f, functionTotals, cycleTotals, fs);
        todo := todo - {f};
      }
      forall g | g in functions
        ensures CallsKeyed(functions[g])
      {
        RatedCallsGivenKeyed(fs, e, g, functionTotals, cycleTotals);
      }
    }

    /** One iteration of pass 2: rates the calls of `f`. */
    method RateFunctionCalls(e: Event, f: FunctionId, functionTotals: map<FunctionId, real>, cycleTotals: map<nat, real>,
                             ghost fs: map<FunctionId, Function>)
      requires f in fs && Closed(fs) && functions.Keys == fs.Keys && functions[f] == fs[f]
      requires forall g :: g in fs ==> functions[g].cycle == fs[g].cycle
      requires forall k :: k in fs[f].calls ==> fs[f].calls[k].ratio.None?
      requires functionTotals.Keys == fs.Keys
      requires forall k :: Counted(fs, e, f, k) && EntersCycle(fs, f, k) ==> fs[k].cycle.value in cycleTotals
      modifies this`functions
      ensures functions == old(functions)[f := fs[f].(calls := RatedCallsGiven(fs, e, f, functionTotals, cycleTotals))]
    {
      var rated := RateCalls(functions, fs, e, f, functionTotals, cycleTotals);
      functions := functions[f := functions[f].(calls := rated)];
    }

    /** `Profile.aggregate`: stores the sum of `e` over all functions on
        the profile, unless some function has no value for it. `failed`
        stands for the assertion failure of a `fail` aggregator, which
        happens as soon as a function with a value is reached. */
    method Aggregate(e: Event) returns (failed: bool)
      modifies this`events
      ensures failed ==> AggregatorOf(e) == Fail && exists f :: f in functions && e in functions[f].events
      ensures AggregatorOf(e) == Fail && functions != map[] && AllDefine(functions, e) ==> failed
      ensures !failed && AllDefine(functions, e) ==> events == old(events)[e := EventTotal(functions, e)]
      ensures failed || !AllDefine(functions, e) ==> events == old(events)
    {
      var total := Null(e);
      var todo := functions.Keys;
      while todo != {}
        invariant todo <= functions.Keys && events == old(events)
        invariant forall f :: f in functions && f !in todo ==> e in functions[f].events
        invariant total + SumSet(todo, ValueOf(functions, e)) == EventTotal(functions, e)
        invariant AggregatorOf(e) == Fail ==> todo == functions.Keys
        decreases todo
      {
        var f :| f in todo;
        if e !in functions[f].events {
          return false;
        }
        var sum := Events.Aggregate(e, total, functions[f].events[e]);
        if sum.None? {
          return true;
        }
        SumRemove(todo, ValueOf(functions, e), f);
        total := sum.value;
        todo := todo - {f};
      }
      events := events[e := total];
      failed := false;
    }

    /** `Profile.ratio`: every function's (and every call's) `inEvent`
        becomes a share of the profile's `inEvent` under `outEvent`, and
        the profile's own `outEvent` is 1. */
    method Ratio(outEvent: Event, inEvent: Event)
      requires Valid()
      requires outEvent !in events && inEvent in events
      requires forall f :: f in functions ==> outEvent !in functions[f].events && inEvent in functions[f].events
      requires forall f, k :: f in functions && k in functions[f].calls ==> outEvent !in functions[f].calls[k].events
      modifies this`functions, this`events
      ensures Valid()
      ensures events == old(events)[outEvent := 1.0]
      ensures functions == Normalised(old(functions), outEvent, inEvent, old(events)[inEvent])
    {
      var total := events[inEvent];
      NormaliseFunctions(outEvent, inEvent, total);
      events := events[outEvent := 1.0];
      NormalisedKeepsShape(old(functions), outEvent, inEvent, total);
    }

    /** The loop of `Profile.ratio` over the functions. */
    method NormaliseFunctions(outEvent: Event, inEvent: Event, total: real)
      requires AllDefine(functions, inEvent)
      modifies this`functions
      ensures functions == Normalised(old(functions), outEvent, inEvent, total)
    {
      ghost var fs := functions;
      var todo := functions.Keys;
      while todo != {}
        invariant todo <= fs.Keys && functions.Keys == fs.Keys
        invariant forall f :: f in functions ==>
          functions[f] == if f in todo then fs[f] else NormalisedFunction(fs[f], outEvent, inEvent, total)
        decreases todo
      {
        var f :| f in todo;
        NormaliseFunction(f, outEvent, inEvent, total);
        todo := todo - {f};
      }
    }

    /** One iteration of `Profile.ratio`: normalises function `f`. */
    method NormaliseFunction(f: FunctionId, outEvent: Event, inEvent: Event, total: real)
      requires f in functions && inEvent in functions[f].events
      modifies this`functions
      ensures functions == old(functions)[f := NormalisedFunction(old(functions)[f], outEvent, inEvent, total)]
    {
      var fn := functions[f];
      var calls := NormaliseCalls(fn.calls, outEvent, inEvent, total);
      functions := functions[f := fn.(events := fn.events[outEvent := SafeRatio(fn.events[inEvent], total)], calls := calls)];
    }

    /** `Profile.prune`: weighs every function and call, drops the
        functions below the node threshold or outside the given paths,
        then the calls to dropped functions or below the edge threshold,
        and finally, if asked, re-weighs the functions by self time. */
    method Prune(nodeThres: real, edgeThres: real, paths: seq<string>, colourNodesBySelfTime: bool)
      requires Valid() && Closed(functions)
      modifies this`functions
      ensures Valid()
      ensures functions == Pruned(old(functions), nodeThres, edgeThres, paths, colourNodesBySelfTime)
    {
      ComputeWeights();
      PruneNodes(nodeThres);
      PrunePaths(paths);
      PruneEdges(edgeThres);
      if colourNodesBySelfTime {
        ColourBySelfTime();
      }
    }

    /** Step 1 of `prune`: the prune ratios. */
    method ComputeWeights()
      requires Valid()
      modifies this`functions
      ensures Valid() && functions == Weighed(old(functions))
    {
      var fs := functions;
      var todo := functions.Keys;
      while todo != {}
        invariant todo <= fs.Keys && functions.Keys == fs.Keys
        invariant forall g :: g in functions ==> functions[g] == if g in todo then fs[g] else WeighedFunction(fs, fs[g])
        decreases todo
      {
        var g :| g in todo;
        WeighFunction(fs, g);
        todo := todo - {g};
      }
      WeighedShape(fs, |cycleStore|);
    }

    method WeighFunction(fs: map<FunctionId, Function>, g: FunctionId)
      requires g in functions && g in fs && functions[g] == fs[g]
      modifies this`functions
      ensures functions == old(functions)[g := WeighedFunction(fs, fs[g])]
    {
      var f := functions[g];
      var calls := WeighCalls(fs, f);
      if TotalTimeRatio in f.events {
        f := f.(weight := Some(f.events[TotalTimeRatio]));
      }
      functions := functions[g := f.(calls := calls)];
    }

    /** Step 2 of `prune`: the node threshold. */
    method PruneNodes(nodeThres: real)
      requires Valid()
      modifies this`functions
      ensures Valid() && functions == NodesPruned(old(functions), nodeThres)
    {
      ghost var fs := functions;
      var todo := functions.Keys;
      while todo != {}
        invariant todo <= fs.Keys
        invariant functions == map g | g in fs && (g in todo || NodeKept(fs[g], nodeThres)) :: fs[g]
        decreases todo
      {
        var g :| g in todo;
        var f := functions[g];
        if f.weight.Some? && f.weight.value < nodeThres {
          functions := functions - {g};
        }
        todo := todo - {g};
      }
    }

    /** Step 3 of `prune`: the path filter. */
    method PrunePaths(paths: seq<string>)
      requires Valid()
      modifies this`functions
      ensures Valid() && functions == PathsPruned(old(functions), paths)
    {
      ghost var fs := functions;
      var todo := functions.Keys;
      while todo != {}
        invariant todo <= fs.Keys
        invariant functions == map g | g in fs && (g in todo || PathsKept(fs[g], paths)) :: fs[g]
        decreases todo
      {
        var g :| g in todo;
        var f := functions[g];
        if paths != [] && Truthy(f.filename) && !(exists p :: p in paths && p <= f.filename.value) {
          functions := functions - {g};
        } else if paths != [] && Truthy(f.moduleName) && !(exists p :: p in paths && Contains(f.moduleName.value, p)) {
          functions := functions - {g};
        }
        todo := todo - {g};
      }
    }

    /** Step 4 of `prune`: calls to removed functions and calls below the
        edge threshold. */
    method PruneEdges(edgeThres: real)
      requires Valid()
      modifies this`functions
      ensures Valid() && functions == EdgesPruned(old(functions), edgeThres)
    {
      ghost var fs := functions;
      var todo := functions.Keys;
      while todo != {}
        invariant todo <= fs.Keys && functions.Keys == fs.Keys
        invariant forall g :: g in functions ==>
          functions[g] == if g in todo then fs[g] else fs[g].(calls := PrunedCalls(fs[g].calls, fs.Keys, edgeThres))
        decreases todo
      {
        var g :| g in todo;
        var kept := DropCalls(functions[g].calls, functions.Keys, edgeThres);
        functions := functions[g := functions[g].(calls := kept)];
        todo := todo - {g};
      }
      EdgesPrunedShape(fs, edgeThres, |cycleStore|);
    }

    /** Step 5 of `prune`: weights rescaled by the largest self-time
        ratio, for colouring. */
    method ColourBySelfTime()
      requires Valid()
      modifies this`functions
      ensures Valid() && functions == Coloured(old(functions), ColourScale(old(functions)))
    {
      ghost var fs := functions;
      var m := FindMaxTimeRatio(functions);
      var scale := if m.Some? then m.value else 1.0;
      var todo := functions.Keys;
      while todo != {}
        invariant todo <= fs.Keys && ColouredExcept(fs, functions, todo, scale)
        decreases todo
      {
        var g :| g in todo;
        ColouredStep(fs, functions, todo, scale, g);
        var f := functions[g];
        if TimeRatio in f.events && scale != 0.0 {
          functions := functions[g := f.(weight := Some(f.events[TimeRatio] / scale))];
        }
        todo := todo - {g};
      }
      ColouredDone(fs, functions, scale, |cycleStore|);
    }

    /** `Profile.prune_root`: keeps the functions the roots reach within
        `depth` calls (any number when `depth` is negative) and the calls
        among them. */
    method PruneRoot(roots: set<FunctionId>, depth: int)
      requires Valid() && Closed(functions) && roots <= functions.Keys
      modifies this`functions
      ensures Valid() && Closed(functions)
      ensures functions == Subgraph(old(functions), functions.Keys)
      ensures RootPruned(old(functions), roots, depth, functions.Keys)
    {
      var sub := RootSubgraph(functions, roots, depth);
      SubgraphShape(functions, sub.Keys, |cycleStore|);
      functions := sub;
    }

    /** `Profile.prune_leaf`: keeps the functions that reach one of the
        leaves within `depth` calls (any number when `depth` is negative)
        and the calls among them. */
    method PruneLeaf(leafs: set<FunctionId>, depth: int)
      requires Valid()
      modifies this`functions
      ensures Valid() && Closed(functions)
      ensures functions == Subgraph(old(functions), functions.Keys)
      ensures LeafPruned(old(functions), leafs, depth, functions.Keys)
    {
      var sub := LeafSubgraph(functions, leafs, depth);
      SubgraphShape(functions, sub.Keys, |cycleStore|);
      functions := sub;
    }

    /** `_integrate_cycle_function`: the share of `f` in what enters the
        cycle at `e`, with `r` the ratio of the calls into `e`. A member
        already in `partials` returns its recorded share; otherwise its
        share is `r` times its own cost, plus `r` times what its calls out
        of the cycle carry, plus, for each call one rank deeper, that
        call's share of the forward ratios into its callee times the
        callee's share, which the call also adds to what it holds. The
        member then records its share and adds it to what it holds. */
    method IntegrateCycleFunction(c: nat, f: FunctionId, r: real, partials: map<FunctionId, real>,
                                  ranks: map<FunctionId, nat>, callRatios: map<FunctionId, real>,
                                  outEvent: Event, inEvent: Event, ghost x: IntegrableInput, ghost e: FunctionId, ghost done: set<FunctionId>)
        returns (v: real, partials': map<FunctionId, real>)
      requires outEvent == x.outEvent && inEvent == x.inEvent
      requires FunctionReady(x, c, done, e, r, ranks, callRatios, f, functions, partials)
      requires Shaped(x, functions)
      modifies this`functions
      ensures Shaped(x, functions)
      ensures CycleFunctionDone(x, c, done, e, r, ranks, f, old(functions), partials, functions, partials', v)
      decreases DeeperThan(ranks, f), 3
    {
      if f in partials {
        MemberMemo(x, c, done, e, r, ranks, callRatios, f, functions, partials);
        return partials[f], partials;
      }
      ghost var fs0 := functions;
      MemberStart(x, c, done, e, r, ranks, callRatios, f, functions, partials);
      DistMemberHolds(x, c, done, f);
      var partial := Times(r, functions[f].events[inEvent]);
      partial, partials' := CycleFunctionCalls(c, f, r, partial, partials, ranks, callRatios, outEvent, inEvent, x, e, done, fs0);
      MemberDone(x, c, done, e, r, ranks, callRatios, f, fs0, partials, functions, partials', partial);
      ShapedUpdate(x, functions, f, AddFunctionOut(functions[f], outEvent, partial));
      functions := functions[f := AddFunctionOut(functions[f], outEvent, partial)];
      partials' := partials'[f := partial];
      v := partial;
    }

    /** The walk of `_integrate_cycle_function` over the calls of `f`,
        starting from `base`, `r` times the cost of `f`: returns `base`
        plus what each call adds. */
    method CycleFunctionCalls(c: nat, f: FunctionId, r: real, base: real, partials: map<FunctionId, real>,
                              ranks: map<FunctionId, nat>, callRatios: map<FunctionId, real>,
                              outEvent: Event, inEvent: Event, ghost x: IntegrableInput, ghost e: FunctionId,
                              ghost done: set<FunctionId>, ghost fs0: map<FunctionId, Function>)
        returns (partial: real, partials': map<FunctionId, real>)
      requires outEvent == x.outEvent && inEvent == x.inEvent
      requires Shaped(x, functions) && f in functions && functions[f].calls.Keys == x.fs[f].calls.Keys
      requires MemberWalk(x, c, done, e, r, ranks, callRatios, f, {}, fs0, partials, functions, partials)
      requires base == Times(r, InOf(x, f))
      modifies this`functions
      ensures Shaped(x, functions)
      ensures MemberWalk(x, c, done, e, r, ranks, callRatios, f, x.fs[f].calls.Keys, fs0, partials, functions, partials')
      ensures partial == Times(r, InOf(x, f)) + SumSet(x.fs[f].calls.Keys, PartialTerms(x, c, ranks, r, f))
      decreases DeeperThan(ranks, f), 2
    {
      partials' := partials;
      partial := base;
      var todo := functions[f].calls.Keys;
      ghost var passed: set<FunctionId> := {};
      while todo != {}
        invariant todo <= x.fs[f].calls.Keys && passed == x.fs[f].calls.Keys - todo
        invariant Shaped(x, functions)
        invariant MemberWalk(x, c, done, e, r, ranks, callRatios, f, passed, fs0, partials, functions, partials')
        invariant RunningSum(partial, base, passed, PartialTerms(x, c, ranks, r, f))
        decreases todo
      {
        var k :| k in todo;
        TakeOne(x.fs[f].calls.Keys, todo, passed, k);
        MemberReady(x, c, done, e, r, ranks, callRatios, f, k, passed, fs0, partials, functions, partials');
        ghost var fsPrev, pPrev := functions, partials';
        var add;
        add, partials' := CycleFunctionCall(c, f, k, r, partials', ranks, callRatios, outEvent, inEvent, x, e, done, passed);
        MemberCallStep(x, c, done, e, r, ranks, callRatios, f, k, passed, fs0, partials, fsPrev, pPrev, functions, partials', add, base, partial);
        partial := partial + add;
        todo := todo - {k};
        passed := passed + {k};
      }
      AllTaken(x.fs[f].calls.Keys, todo, passed);
    }

    /** One call `f -> k` of `_integrate_cycle_function`; returns what it
        adds to the share of `f`. */
    method CycleFunctionCall(c: nat, f: FunctionId, k: FunctionId, r: real, partials: map<FunctionId, real>,
                             ranks: map<FunctionId, nat>, callRatios: map<FunctionId, real>, outEvent: Event, inEvent: Event,
                             ghost x: IntegrableInput, ghost e: FunctionId, ghost done: set<FunctionId>, ghost passed: set<FunctionId>)
        returns (add: real, partials': map<FunctionId, real>)
      requires outEvent == x.outEvent && inEvent == x.inEvent
      requires CallReady(x, c, done, e, r, ranks, callRatios, f, k, passed, functions, partials)
      requires Shaped(x, functions)
      modifies this`functions
      ensures Shaped(x, functions)
      ensures CallStepped(x, c, done, e, r, ranks, f, k, passed, old(functions), partials, functions, partials', add)
      decreases DeeperThan(ranks, f), 1
    {
      ForwardCall(x.fs, c, ranks, f, k);
      assert k in x.fs;
      if k != f && functions[k].cycle == Some(c) && ranks[k] > ranks[f] {
        add, partials' := ForwardCycleCall(c, f, k, r, partials, ranks, callRatios, outEvent, inEvent, x, e, done, passed);
      } else {
        assert !Forward(x.fs, c, ranks, f, k);
        MixedStep(x, c, done, e, f, passed, k);
        assert functions[f] == Mixed(x, c, done, e, f, passed + {k});
        add := QuietCycleCall(c, f, k, r, outEvent, x, ranks, e, done, passed);
        partials' := partials;
      }
    }

    /** A call of `f` that does not pass a share on: a call to itself or to
        a member no deeper than `f` adds nothing, and a call leaving the
        cycle adds `r` times what it carries. */
    method QuietCycleCall(c: nat, f: FunctionId, k: FunctionId, r: real, outEvent: Event,
                          ghost x: IntegrableInput, ghost ranks: map<FunctionId, nat>, ghost e: FunctionId,
                          ghost done: set<FunctionId>, ghost passed: set<FunctionId>)
        returns (add: real)
      requires Fresh(x) && outEvent == x.outEvent && Shaped(x, functions)
      requires RanksClosed(CycleGraph(x.fs, c), ranks) && f in ranks && InCycle(x.fs, f, c)
      requires e in Entries(x.fs, c) && e !in done
      requires k in x.fs[f].calls && k !in passed && !Forward(x.fs, c, ranks, f, k)
      requires functions[f] == Mixed(x, c, done, e, f, passed)
      ensures add == At(PartialTerms(x, c, ranks, r, f), k)
    {
      if k == f || functions[k].cycle == Some(c) {
        OtherTerm(x, c, ranks, r, f, k);
        add := 0.0;
      } else {
        ExternalTerm(x, c, ranks, r, f, k);
        ExternalHeld(x, c, done, f, k);
        assert functions[f].calls[k] == DistCall(x, c, done, f, k);
        add := Times(r, functions[f].calls[k].events[outEvent]);
      }
    }

    /** A call of `f` one rank deeper: integrates the callee first, then
        passes the call's share of the forward ratios into the callee
        times the callee's share, which the call also adds to what it
        holds. */
    method ForwardCycleCall(c: nat, f: FunctionId, k: FunctionId, r: real, partials: map<FunctionId, real>,
                            ranks: map<FunctionId, nat>, callRatios: map<FunctionId, real>, outEvent: Event, inEvent: Event,
                            ghost x: IntegrableInput, ghost e: FunctionId, ghost done: set<FunctionId>, ghost passed: set<FunctionId>)
        returns (add: real, partials': map<FunctionId, real>)
      requires outEvent == x.outEvent && inEvent == x.inEvent
      requires CallReady(x, c, done, e, r, ranks, callRatios, f, k, passed, functions, partials) && Forward(x.fs, c, ranks, f, k)
      requires Shaped(x, functions)
      modifies this`functions
      ensures Shaped(x, functions)
      ensures CallStepped(x, c, done, e, r, ranks, f, k, passed, old(functions), partials, functions, partials', add)
      decreases DeeperThan(ranks, f), 0
    {
      ForwardKnown(x, c, done, e, r, ranks, callRatios, f, k, passed, functions, partials);
      ghost var fs0 := functions;
      var ratio := functions[f].calls[k].ratio.value;
      var calleePartial;
      calleePartial, partials' := IntegrateCycleFunction(c, k, r, partials, ranks, callRatios, outEvent, inEvent, x, e, done);
      add := Times(SafeRatio(ratio, callRatios[k]), calleePartial);
      ForwardStepped(x, c, done, e, r, ranks, callRatios, f, k, passed, fs0, partials, functions, partials', calleePartial, add);
      functions := functions[f := AddCallOut(functions[f], k, outEvent, add)];
    }
 
    /** `Profile.integrate`: once per cycle the profile's `inEvent` becomes
        its sum over the functions; then every function is integrated in
        turn, and the profile's `outEvent` becomes the sum of `inEvent`.
        Every function and cycle ends as `FinalFunction` and `FinalCycle`
        say; `x` names the profile as it was and the result it must reach. */
    method Integrate(outEvent: Event, inEvent: Event, ghost x: IntegrableInput)
      requires x.fs == functions && x.store == cycleStore && outEvent == x.outEvent && inEvent == x.inEvent
      requires Aimed(x) && Fresh(x) && outEvent !in events && AggregatorOf(inEvent) == Add
      modifies this`functions, this`cycleStore, this`events
      ensures functions == FinalFunctions(x) && cycleStore == FinalCycles(x)
      ensures events == (if cycles == [] then old(events) else old(events)[inEvent := EventTotal(x.fs, inEvent)])
                          [outEvent := EventTotal(x.fs, inEvent)]
    {
      for i := 0 to |cycles|
        invariant functions == x.fs && cycleStore == x.store
        invariant events == if i == 0 then old(events) else old(events)[inEvent := EventTotal(x.fs, inEvent)]
      {
        var failed := Aggregate(inEvent);
      }
      var total := IntegrateFunctions(outEvent, inEvent, x);
      events := events[outEvent := total];
    }

    /** The main loop of `integrate`: sums `inEvent` over the functions
        and integrates each of them. */
    method IntegrateFunctions(outEvent: Event, inEvent: Event, ghost x: IntegrableInput) returns (total: real)
      requires x.fs == functions && x.store == cycleStore && outEvent == x.outEvent && inEvent == x.inEvent
      requires Aimed(x) && Fresh(x) && AggregatorOf(inEvent) == Add
      modifies this`functions, this`cycleStore
      ensures functions == FinalFunctions(x) && cycleStore == FinalCycles(x)
      ensures total == EventTotal(x.fs, inEvent)
    {
      DoneStart(x);
      total := Null(inEvent);
      var todo := functions.Keys;
      ghost var passed: set<FunctionId> := {};
      while todo != {}
        invariant todo <= x.fs.Keys && passed == x.fs.Keys - todo
        invariant DoneUpTo(x, functions, cycleStore, passed)
        invariant RunningSum(total, 0.0, passed, ValueOf(x.fs, inEvent))
        decreases todo
      {
        var f :| f in todo;
        TakeOne(x.fs.Keys, todo, passed, f);
        total := IntegrateNext(f, total, outEvent, inEvent, x, passed);
        todo := todo - {f};
        passed := passed + {f};
      }
      AllTaken(x.fs.Keys, todo, passed);
      DoneAll(x, functions, cycleStore);
    }

    /** One iteration of the main loop of `integrate`: `f` adds its
        `inEvent` to the running total, and is integrated. */
    method IntegrateNext(f: FunctionId, total: real, outEvent: Event, inEvent: Event, ghost x: IntegrableInput,
                         ghost passed: set<FunctionId>)
        returns (next: real)
      requires outEvent == x.outEvent && inEvent == x.inEvent && Aimed(x) && AggregatorOf(inEvent) == Add
      requires f in x.fs && f !in passed && DoneUpTo(x, functions, cycleStore, passed)
      requires RunningSum(total, 0.0, passed, ValueOf(x.fs, inEvent))
      modifies this`functions, this`cycleStore
      ensures DoneUpTo(x, functions, cycleStore, passed + {f})
      ensures RunningSum(next, 0.0, passed + {f}, ValueOf(x.fs, inEvent))
    {
      NodeReady(x, functions, cycleStore, passed, f);
      var sum := Events.Aggregate(inEvent, total, functions[f].events[inEvent]);
      SumAddTo(passed, ValueOf(x.fs, inEvent), f, 0.0, total, functions[f].events[inEvent]);
      next := sum.value;
      VisitFunction(f, outEvent, inEvent, x, passed);
    }

    /** `f` is integrated, and joins the functions passed by the loop. */
    method VisitFunction(f: FunctionId, outEvent: Event, inEvent: Event, ghost x: IntegrableInput, ghost passed: set<FunctionId>)
      requires outEvent == x.outEvent && inEvent == x.inEvent && Aimed(x)
      requires f in x.fs && DoneUpTo(x, functions, cycleStore, passed) && OkBelow(x, functions, cycleStore, x.lv.fn[f])
      modifies this`functions, this`cycleStore
      ensures DoneUpTo(x, functions, cycleStore, passed + {f})
    {
      ghost var fs0, st0 := functions, cycleStore;
      var v := IntegrateFunction(f, outEvent, inEvent, x);
      FunctionPassed(x, fs0, st0, functions, cycleStore, passed, f);
    }

    /** `_integrate_function`: a member of a cycle gets what integrating
        its cycle returns; a function outside any cycle that already holds
        `outEvent` returns it; any other gets its own cost plus what each
        call but a self-call carries, and holds it as `outEvent`. */
    method IntegrateFunction(f: FunctionId, outEvent: Event, inEvent: Event, ghost x: IntegrableInput) returns (v: real)
      requires outEvent == x.outEvent && inEvent == x.inEvent && Aimed(x) && f in x.fs
      requires OkBelow(x, functions, cycleStore, x.lv.fn[f])
      modifies this`functions, this`cycleStore
      ensures NodeDone(x, old(functions), old(cycleStore), functions, cycleStore, f)
      ensures v == FunctionOut(x, f)
      decreases x.lv.fn[f], 7
    {
      NodeCycle(x, functions, cycleStore, f);
      if functions[f].cycle.Some? {
        MemberEnter(x, functions, cycleStore, f);
        v := IntegrateCycle(functions[f].cycle.value, outEvent, inEvent, x);
        MemberNodeDone(x, old(functions), old(cycleStore), functions, cycleStore, f, x.fs[f].cycle.value);
      } else if outEvent in functions[f].events {
        FunctionMemo(x, functions, cycleStore, f);
        v := functions[f].events[outEvent];
      } else {
        FunctionStart(x, functions, cycleStore, f);
        v := IntegrateOwnCalls(f, outEvent, inEvent, x);
      }
    }

    /** `_integrate_function` on a function outside any cycle that does
        not hold `outEvent` yet: it gets its own cost plus what each call
        but a self-call carries, and holds it as `outEvent`. */
    method IntegrateOwnCalls(f: FunctionId, outEvent: Event, inEvent: Event, ghost x: IntegrableInput) returns (v: real)
      requires outEvent == x.outEvent && inEvent == x.inEvent && Aimed(x) && f in x.fs && x.fs[f].cycle.None?
      requires OkBelow(x, functions, cycleStore, x.lv.fn[f])
      requires f in functions && functions[f] == x.fs[f] && CallsWalk(x, functions, cycleStore, functions, cycleStore, f, {}, {})
      modifies this`functions, this`cycleStore
      ensures NodeDone(x, old(functions), old(cycleStore), functions, cycleStore, f)
      ensures v == FunctionOut(x, f)
      decreases x.lv.fn[f], 3
    {
      v := IntegrateCalls(f, outEvent, inEvent, x);
      FunctionDone(x, old(functions), old(cycleStore), functions, cycleStore, f, v);
      functions := functions[f := SetOut(functions[f], outEvent, v)];
    }

    /** The loop of `_integrate_function` over the calls of `f`, a
        function outside any cycle: its own cost plus what each call but
        a self-call carries. */
    method IntegrateCalls(f: FunctionId, outEvent: Event, inEvent: Event, ghost x: IntegrableInput) returns (total: real)
      requires outEvent == x.outEvent && inEvent == x.inEvent && Aimed(x) && f in x.fs && x.fs[f].cycle.None?
      requires f in functions && functions[f] == x.fs[f] && CallsWalk(x, functions, cycleStore, functions, cycleStore, f, {}, {})
      modifies this`functions, this`cycleStore
      ensures CallsWalk(x, old(functions), old(cycleStore), functions, cycleStore, f, x.fs[f].calls.Keys, {})
      ensures total == FunctionOut(x, f)
      decreases x.lv.fn[f], 2
    {
      total := functions[f].events[inEvent];
      var todo := functions[f].calls.Keys;
      ghost var passed: set<FunctionId> := {};
      while todo != {}
        invariant todo <= x.fs[f].calls.Keys && passed == x.fs[f].calls.Keys - todo
        invariant CallsWalk(x, old(functions), old(cycleStore), functions, cycleStore, f, passed, CycleOf(x, f))
        invariant RunningSum(total, InOf(x, f), passed, CallOuts(x, f))
        decreases todo
      {
        var k :| k in todo;
        TakeOne(x.fs[f].calls.Keys, todo, passed, k);
        var add := 0.0;
        if k != f {
          add := IntegrateCall(f, k, outEvent, inEvent, x, old(functions), old(cycleStore), passed);
        } else {
          CallsWalkSkip(x, old(functions), old(cycleStore), functions, cycleStore, f, passed, CycleOf(x, f), k);
        }
        CallOutAt(x, f, k);
        SumAddTo(passed, CallOuts(x, f), k, InOf(x, f), total, add);
        total := total + add;
        todo := todo - {k};
        passed := passed + {k};
      }
      AllTaken(x.fs[f].calls.Keys, todo, passed);
    }

    /** `_integrate_call`: integrates the callee, and the call carries its
        ratio of what that returns. */
    method IntegrateCall(f: FunctionId, k: FunctionId, outEvent: Event, inEvent: Event, ghost x: IntegrableInput,
                         ghost fs0: map<FunctionId, Function>, ghost st0: seq<Cycle>, ghost passed: set<FunctionId>)
        returns (sub: real)
      requires outEvent == x.outEvent && inEvent == x.inEvent && Aimed(x) && f in x.fs
      requires k in x.fs[f].calls && k !in passed && Integrated(x.fs, f, k)
      requires CallsWalk(x, fs0, st0, functions, cycleStore, f, passed, CycleOf(x, f))
      modifies this`functions, this`cycleStore
      ensures CallsWalk(x, fs0, st0, functions, cycleStore, f, passed + {k}, CycleOf(x, f))
      ensures sub == CallOut(x, f, k)
      decreases x.lv.fn[f], 1
    {
      CalleeReady(x, fs0, st0, functions, cycleStore, f, passed, k);
      var ratio := functions[f].calls[k].ratio.value;
      ghost var fs1, st1 := functions, cycleStore;
      var calleeOut := IntegrateFunction(k, outEvent, inEvent, x);
      sub := RecordCall(f, k, outEvent, ratio, calleeOut, x, fs0, st0, fs1, st1, passed);
    }

    /** The tail of `_integrate_call`: the call carries the callee's output
        scaled by the call's ratio. */
    method RecordCall(f: FunctionId, k: FunctionId, outEvent: Event, ratio: real, calleeOut: real, ghost x: IntegrableInput,
                      ghost fs0: map<FunctionId, Function>, ghost st0: seq<Cycle>, ghost fs1: map<FunctionId, Function>, ghost st1: seq<Cycle>,
                      ghost passed: set<FunctionId>)
        returns (sub: real)
      requires f in x.fs && CallsWalk(x, fs0, st0, fs1, st1, f, passed, CycleOf(x, f))
      requires k in x.fs[f].calls && k !in passed && Integrated(x.fs, f, k)
      requires NodeDone(x, fs1, st1, functions, cycleStore, k) && outEvent == x.outEvent
      requires f in fs1 && k in fs1[f].calls && fs1[f].calls[k].ratio == Some(ratio) && calleeOut == FunctionOut(x, k)
      modifies this`functions
      ensures CallsWalk(x, fs0, st0, functions, cycleStore, f, passed + {k}, CycleOf(x, f))
      ensures sub == CallOut(x, f, k)
    {
      CallDone(x, fs0, st0, fs1, st1, functions, cycleStore, f, passed, k, outEvent, ratio, calleeOut);
      sub := Times(ratio, calleeOut);
      functions := functions[f := SetCallOut(functions[f], k, outEvent, sub)];
    }

    /** `_integrate_cycle`: a cycle that holds `outEvent` returns it.
        Otherwise its total is each member's own cost plus what the
        member's calls out of the cycle carry; the cycle holds the total,
        and what enters the cycle is spread over the members. */
    method IntegrateCycle(c: nat, outEvent: Event, inEvent: Event, ghost x: IntegrableInput) returns (v: real)
      requires outEvent == x.outEvent && inEvent == x.inEvent && Aimed(x)
      requires c < |x.store| && CycleMembers(x, c) != {} && OkBelow(x, functions, cycleStore, x.lv.cyc[c])
      modifies this`functions, this`cycleStore
      ensures CycleIntegrated(x, old(functions), old(cycleStore), functions, cycleStore, c)
      ensures v == CycleValue(x, c)
      decreases x.lv.cyc[c], 6
    {
      CycleEnter(x, functions, cycleStore, c);
      if outEvent in cycleStore[c].events {
        return cycleStore[c].events[outEvent];
      }
      var members := cycleStore[c].functions;
      var total := IntegrateMembers(c, members, outEvent, inEvent, x);
      SettleCycle(c, members, total, outEvent, inEvent, x, old(functions), old(cycleStore));
      v := total;
    }

    /** The end of `_integrate_cycle`: the cycle holds its total, and what
        enters the cycle is spread over the members. */
    method SettleCycle(c: nat, members: set<FunctionId>, total: real, outEvent: Event, inEvent: Event, ghost x: IntegrableInput,
                       ghost fs0: map<FunctionId, Function>, ghost st0: seq<Cycle>)
      requires outEvent == x.outEvent && inEvent == x.inEvent && Aimed(x)
      requires c < |x.store| && CycleMembers(x, c) != {} && outEvent !in x.store[c].events
      requires OkBelow(x, fs0, st0, x.lv.cyc[c]) && CycleOriginal(x, fs0, st0, c)
      requires members == CycleMembers(x, c) && total == CycleOut(x, c)
      requires MembersWalk(x, fs0, st0, functions, cycleStore, c, CycleMembers(x, c))
      modifies this`functions, this`cycleStore
      ensures CycleIntegrated(x, fs0, st0, functions, cycleStore, c)
    {
      ghost var fs1, st1 := functions, cycleStore;
      MembersWalkDone(x, fs0, st0, fs1, st1, c);
      cycleStore := cycleStore[c := cycleStore[c].(events := cycleStore[c].events[outEvent := total])];
      DistributeCycle(c, members, outEvent, inEvent, x);
      CycleFinish(x, fs0, st0, fs1, st1, functions, cycleStore, c);
    }

    /** The first loop of `_integrate_cycle`: the sum over the members of
        each one's own cost plus what its calls out of the cycle carry. */
    method IntegrateMembers(c: nat, members: set<FunctionId>, outEvent: Event, inEvent: Event, ghost x: IntegrableInput)
        returns (total: real)
      requires outEvent == x.outEvent && inEvent == x.inEvent && Aimed(x)
      requires c < |x.store| && members == CycleMembers(x, c)
      requires MembersWalk(x, functions, cycleStore, functions, cycleStore, c, {})
      modifies this`functions, this`cycleStore
      ensures MembersWalk(x, old(functions), old(cycleStore), functions, cycleStore, c, CycleMembers(x, c))
      ensures total == CycleOut(x, c)
      decreases x.lv.cyc[c], 5
    {
      total := Null(inEvent);
      var todo := members;
      ghost var passed: set<FunctionId> := {};
      while todo != {}
        invariant todo <= CycleMembers(x, c) && passed == CycleMembers(x, c) - todo
        invariant MembersWalk(x, old(functions), old(cycleStore), functions, cycleStore, c, passed)
        invariant RunningSum(total, 0.0, passed, MemberTotals(x, c))
        decreases todo
      {
        var m :| m in todo;
        TakeOne(CycleMembers(x, c), todo, passed, m);
        total := IntegrateMember(c, m, total, outEvent, inEvent, x, old(functions), old(cycleStore), passed);
        todo := todo - {m};
        passed := passed + {m};
      }
      AllTaken(CycleMembers(x, c), todo, passed);
    }

    /** One iteration of the first loop of `_integrate_cycle`: member `m`
        adds what it contributes to the running total of its cycle. */
    method IntegrateMember(c: nat, m: FunctionId, total: real, outEvent: Event, inEvent: Event, ghost x: IntegrableInput,
                           ghost fs0: map<FunctionId, Function>, ghost st0: seq<Cycle>, ghost passed: set<FunctionId>)
        returns (next: real)
      requires outEvent == x.outEvent && inEvent == x.inEvent && Aimed(x)
      requires MembersWalk(x, fs0, st0, functions, cycleStore, c, passed) && m in CycleMembers(x, c) && m !in passed
      requires RunningSum(total, 0.0, passed, MemberTotals(x, c))
      modifies this`functions, this`cycleStore
      ensures MembersWalk(x, fs0, st0, functions, cycleStore, c, passed + {m})
      ensures RunningSum(next, 0.0, passed + {m}, MemberTotals(x, c))
      decreases x.lv.cyc[c], 4
    {
      var subtotal := MemberSubtotal(c, m, outEvent, inEvent, x, fs0, st0, passed);
      MemberAdded(x, c, passed, m, total, subtotal);
      next := total + subtotal;
    }

    /** What member `m` adds to the total of its cycle: its own cost plus
        what its calls out of the cycle carry. */
    method MemberSubtotal(c: nat, m: FunctionId, outEvent: Event, inEvent: Event, ghost x: IntegrableInput,
                          ghost fs0: map<FunctionId, Function>, ghost st0: seq<Cycle>, ghost passed: set<FunctionId>)
        returns (subtotal: real)
      requires outEvent == x.outEvent && inEvent == x.inEvent && Aimed(x)
      requires MembersWalk(x, fs0, st0, functions, cycleStore, c, passed) && m in CycleMembers(x, c) && m !in passed
      modifies this`functions, this`cycleStore
      ensures MembersWalk(x, fs0, st0, functions, cycleStore, c, passed + {m})
      ensures subtotal == MemberTotal(x, c, m)
      decreases x.lv.cyc[c], 3
    {
      MemberCallsStart(x, fs0, st0, functions, cycleStore, c, passed, m);
      ghost var fs1, st1 := functions, cycleStore;
      subtotal := IntegrateMemberCalls(c, m, outEvent, inEvent, x);
      MemberCallsEnd(x, fs0, st0, fs1, st1, functions, cycleStore, c, passed, m);
    }

    /** The loop of `_integrate_cycle` over the calls of member `m`: its
        own cost plus what each call to a function outside the cycle
        carries. */
    method IntegrateMemberCalls(c: nat, m: FunctionId, outEvent: Event, inEvent: Event, ghost x: IntegrableInput)
        returns (subtotal: real)
      requires outEvent == x.outEvent && inEvent == x.inEvent && Aimed(x)
      requires c < |x.store| && m in CycleMembers(x, c) && m in x.fs && CycleOf(x, m) == {c}
      requires m in functions && functions[m] == x.fs[m] && CallsWalk(x, functions, cycleStore, functions, cycleStore, m, {}, {c})
      modifies this`functions, this`cycleStore
      ensures CallsWalk(x, old(functions), old(cycleStore), functions, cycleStore, m, x.fs[m].calls.Keys, {c})
      ensures subtotal == MemberTotal(x, c, m)
      decreases x.lv.cyc[c], 2
    {
      MemberLevel(x, c, m);
      subtotal := functions[m].events[inEvent];
      var todo := functions[m].calls.Keys;
      ghost var passed: set<FunctionId> := {};
      while todo != {}
        invariant todo <= x.fs[m].calls.Keys && passed == x.fs[m].calls.Keys - todo
        invariant CallsWalk(x, old(functions), old(cycleStore), functions, cycleStore, m, passed, CycleOf(x, m))
        invariant RunningSum(subtotal, InOf(x, m), passed, ExternalOuts(x, c, m))
        decreases todo
      {
        var k :| k in todo;
        TakeOne(x.fs[m].calls.Keys, todo, passed, k);
        NodeCycle(x, functions, cycleStore, k);
        var add := 0.0;
        if functions[k].cycle != Some(c) {
          add := IntegrateCall(m, k, outEvent, inEvent, x, old(functions), old(cycleStore), passed);
        } else {
          CallsWalkSkip(x, old(functions), old(cycleStore), functions, cycleStore, m, passed, CycleOf(x, m), k);
        }
        ExternalOutAt(x, c, m, k);
        SumAddTo(passed, ExternalOuts(x, c, m), k, InOf(x, m), subtotal, add);
        subtotal := subtotal + add;
        todo := todo - {k};
        passed := passed + {k};
      }
      AllTaken(x.fs[m].calls.Keys, todo, passed);
    }

    /** The second part of `_integrate_cycle`: the ratio of the calls into
        each entry of cycle `c`; every member's `outEvent` set to zero;
        then each entry's share spread over the members. */
    method DistributeCycle(c: nat, members: set<FunctionId>, outEvent: Event, inEvent: Event, ghost x: IntegrableInput)
      requires outEvent == x.outEvent && inEvent == x.inEvent && Fresh(x)
      requires c < |x.store| && members == CycleMembers(x, c)
      requires Shaped(x, functions) && MembersAt(x, functions, c, CycleMembers(x, c))
      modifies this`functions
      ensures Shaped(x, functions) && Distributed(x, functions, c, Entries(x.fs, c))
      ensures OnlyMembers(x, c, old(functions), functions)
    {
      ShapedSkeleton(x, functions);
      var callees := EntryRatios(functions, c);
      EntriesOfShaped(x, functions, c, callees);
      ZeroMembers(c, members, outEvent, x);
      ghost var fs1 := functions;
      DistributeEntries(c, callees, outEvent, inEvent, x);
      OnlyMembersTrans(x, c, old(functions), fs1, functions);
    }

    /** `outEvent` of every member of cycle `c` set to zero. */
    method ZeroMembers(c: nat, members: set<FunctionId>, outEvent: Event, ghost x: IntegrableInput)
      requires outEvent == x.outEvent
      requires c < |x.store| && members == CycleMembers(x, c)
      requires Shaped(x, functions) && MembersAt(x, functions, c, CycleMembers(x, c))
      modifies this`functions
      ensures Shaped(x, functions) && Distributed(x, functions, c, {})
      ensures OnlyMembers(x, c, old(functions), functions)
    {
      ZeroStart(x, functions, c);
      var todo := members;
      while todo != {}
        invariant todo <= CycleMembers(x, c) && Shaped(x, functions)
        invariant ZeroedExcept(x, functions, c, todo) && OnlyMembers(x, c, old(functions), functions)
        decreases todo
      {
        var m :| m in todo;
        ZeroStep(x, functions, c, todo, m);
        OnlyMembersTrans(x, c, old(functions), functions, functions[m := SetOut(functions[m], x.outEvent, 0.0)]);
        functions := functions[m := SetOut(functions[m], outEvent, Null(outEvent))];
        todo := todo - {m};
      }
      ZeroDone(x, functions, c);
    }

    /** The last loop of `_integrate_cycle`: the share of what enters at
        each entry of cycle `c`, spread over the members. */
    method DistributeEntries(c: nat, callees: map<FunctionId, real>, outEvent: Event, inEvent: Event, ghost x: IntegrableInput)
      requires outEvent == x.outEvent && inEvent == x.inEvent && Fresh(x)
      requires callees.Keys == Entries(x.fs, c) && forall e :: e in callees ==> callees[e] == EntryRatio(x.fs, c, e)
      requires Shaped(x, functions) && Distributed(x, functions, c, {})
      modifies this`functions
      ensures Shaped(x, functions) && Distributed(x, functions, c, Entries(x.fs, c))
      ensures OnlyMembers(x, c, old(functions), functions)
    {
      var todo := callees.Keys;
      ghost var done: set<FunctionId> := {};
      while todo != {}
        invariant todo <= callees.Keys && done == callees.Keys - todo
        invariant Shaped(x, functions) && Distributed(x, functions, c, done)
        invariant OnlyMembers(x, c, old(functions), functions)
        decreases todo
      {
        var e :| e in todo;
        TakeOne(callees.Keys, todo, done, e);
        ghost var fs1 := functions;
        DistributeEntry(c, e, callees[e], outEvent, inEvent, x, done);
        OnlyMembersTrans(x, c, old(functions), fs1, functions);
        todo := todo - {e};
        done := done + {e};
      }
      AllTaken(callees.Keys, todo, done);
    }

    /** One iteration of the last loop of `_integrate_cycle`: ranks the
        members from entry `e`, sums the forward ratios into each, and
        spreads `r` times what the members reached cost over them. */
    method DistributeEntry(c: nat, e: FunctionId, r: real, outEvent: Event, inEvent: Event,
                           ghost x: IntegrableInput, ghost done: set<FunctionId>)
      requires outEvent == x.outEvent && inEvent == x.inEvent && Fresh(x)
      requires e in Entries(x.fs, c) && e !in done && r == EntryRatio(x.fs, c, e)
      requires Shaped(x, functions) && Distributed(x, functions, c, done)
      modifies this`functions
      ensures Shaped(x, functions) && Distributed(x, functions, c, done + {e})
      ensures OnlyMembers(x, c, old(functions), functions)
    {
      var ranks, callRatios := EntryTables(c, e, x);
      EntryReady(x, c, done, e, r, ranks, callRatios, functions);
      var v, partials := IntegrateCycleFunction(c, e, r, map[], ranks, callRatios, outEvent, inEvent, x, e, done);
      EntryDistributed(x, c, done, e, r, ranks, callRatios, old(functions), functions, partials, v);
    }

    /** `_rank_cycle_function` and `_call_ratios_cycle` from entry `e`:
        each member's distance from `e` inside cycle `c`, and for each
        member reached by a forward call the sum of those calls' ratios. */
    method EntryTables(c: nat, e: FunctionId, ghost x: IntegrableInput)
        returns (ranks: map<FunctionId, nat>, callRatios: map<FunctionId, real>)
      requires Shaped(x, functions) && e in Entries(x.fs, c)
      ensures ranks == EntryRanks(x.fs, c, e) && RatiosOf(x.fs, c, ranks, callRatios)
    {
      RanksReady(x, functions, c, e);
      ranks := RankCycleFunction(CycleGraph(functions, c), e);
      var visited;
      ghost var who;
      callRatios, visited, who := CallRatiosCycle(functions, c, ranks, e, map[], {}, map[]);
      RatiosFromWalk(x, functions, c, e, visited, who, callRatios);
    }
  }
}
