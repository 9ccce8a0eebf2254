# gprof2dot graph engine, modelled in Dafny

This project models the call-graph engine at the heart of `gprof2dot.py`:
the `Event`, `Call`, `Function`, `Cycle` and `Profile` objects and the
passes the converter runs over a parsed profile before it draws it.

- `Profile.validate` drops calls to unknown functions.
- `Profile.find_cycles` runs Tarjan's strongly connected components
  search and turns every component of two or more functions into a `Cycle`.
- `Profile.call_ratios` gives every call its share of the callee's (or
  the entered cycle's) inbound calls.
- `Profile.integrate` propagates an inclusive cost (`TOTAL_TIME` from
  `TIME`) up the calls. Each cycle is treated as one node, and its total
  is distributed back over its members through the cycle's shortest-path
  ranks (`_rank_cycle_function`, `_call_ratios_cycle`,
  `_integrate_cycle_function`).
- `Profile.aggregate` and `Profile.ratio` sum an event over the profile
  and normalise it to shares.
- `Profile.prune`, `prune_root` and `prune_leaf` cut the graph down to
  what is drawn.

The profile is a Dafny `class Profile` whose fields (`functions`,
`cycleStore`, `cycles`, `events`) its methods reassign, as the Python
methods mutate the object in place. Events, calls, functions and cycles
are datatypes. A function names its cycle by an index into the profile's
`cycleStore`, which stands for the Python object reference.

Each loop of the source is a method with a `while` loop, or a small
method per loop iteration. Each method is proved against a specification
function on the state before it runs:

- `Normalised` for `ratio`;
- `Pruned` for `prune`;
- `RatedCalls` for `call_ratios`;
- `FinalFunctions` and `FinalCycles` for `integrate`.

The properties the source promises are proved about those functions:

- the normalised shares add up to one, when the profile's total equals
  the sum of the functions' values, those values are non-negative and the
  total is positive (the source divides by the profile's own value, which
  the parsers set separately, so this is a condition and not a given);
- the ratios of the calls into a function outside every cycle add up to
  one, and so do the ratios of the calls entering a cycle from outside,
  when the values counted are non-negative and their total is positive
  (with a zero total every ratio is 1.0, so the sum is the number of
  calls);
- the kept functions are exactly those that pass the thresholds;
- the cycle ranks are least distances.

Modules:

- `Wrappers`: `Option` and `Result`.
- `Events`: the event kinds, their aggregators and the sparse event map.
- `Entities`: `Call`, `Function` and `Cycle`, and `get_call`/`add_call`.
- `Ratios`: the clamped `ratio` helper.
- `Graphs`, `Sums`: paths and reachability; finite sums over sets.
- `Tarjan`: the component search behind `find_cycles`.
- `Frontier`, `Subgraphs`: the frontier walk and subgraph behind
  `prune_root`/`prune_leaf`.
- `CallRatioSpec`, `CallRatioPasses`: `call_ratios`.
- `Totals`: profile-wide sums and `ratio`.
- `Pruning`: `prune`.
- `CycleRanks`, `CallTables`, `RatioTables`: the per-cycle rank and
  ratio tables of `integrate`.
- `Integration`, `IntegrationSteps`, `IntegrationState`,
  `IntegrationWalks`, `Distribution`, `IntegrationRun`: what `integrate`
  computes, and the invariants its recursion keeps.
- `Profiles`: the `Profile` class.

## Model

| member | source | states |
|---|---|---|
| Ratios.SafeRatio | gprof2dot.py:89-105 | The result is in [0, 1]. It is 1 for a zero denominator, `n/d` when that lies in [0, 1], 0 below that range and 1 above it. |
| Ratios.SafeRatioExactOrWarned | gprof2dot.py:91-105 | `ratio` returns the exact quotient if and only if it lies in [0, 1]. Without a warning, the result is within `tol` of the quotient. |
| Ratios.SafeRatioOfPart | gprof2dot.py:91-105 | A part of a positive total gets exactly its quotient. |
| Events.AggregateFailsExactlyForTotals | gprof2dot.py:59-63 | `Event.aggregate` fails exactly for `TOTAL_TIME` and `TOTAL_TIME_RATIO` (aggregator `fail`). Every other kind adds commutatively, with its null value as the unit. |
| Events.GetAfterPut | gprof2dot.py:191-202 | `Object.__getitem__` after `__setitem__`: a value is read back. `None` deletes the event, so reading it raises `UndefinedEvent`. Other events are unchanged. |
| Entities.NewCall | gprof2dot.py:211-215 | A new call has the callee id, no events, and no ratio or weight. |
| Entities.NewFunction | gprof2dot.py:221-231 | A new function has the id and name, no calls or events, and every optional attribute unset. |
| Entities.NewCycle | gprof2dot.py:290-292 | A new cycle has no members and no events. |
| Entities.AddCall | gprof2dot.py:233-236 | The call is stored under its callee id, replacing any earlier call. Every other call and attribute is kept. |
| Entities.GetCall | gprof2dot.py:238-245 | An existing call is returned unchanged. A missing one is created with zero `SAMPLES`, `SAMPLES2` and `CALLS`, and stored. Nothing else changes. |
| Entities.GetCallIdempotent | gprof2dot.py:238-245 | A second `get_call` for the same callee changes nothing and returns the same call. |
| Profiles.Profile.constructor | gprof2dot.py:307-310 | A new profile has no functions, cycles or events. |
| Profiles.Profile.AddFunction | gprof2dot.py:312-315 | The function is stored under its id, replacing a function registered earlier with that id. |
| Profiles.Profile.CreateCycle | gprof2dot.py:290-292 | A new empty cycle is appended to the store, and its index is returned. |
| Profiles.Profile.AddCycle | gprof2dot.py:317-318 | The cycle is appended to the profile's list. |
| Profiles.Profile.CycleAddFunction | gprof2dot.py:294-301 | The function joins the cycle's members and points back to the cycle. Nothing else changes: the loop over the previous cycle's members tests the function just added, so it adds nothing. |
| Profiles.Profile.Validate | gprof2dot.py:320-328 | Every call whose callee is not a registered function is dropped, and every other call is kept. Afterwards every callee is a registered function. |
| Profiles.DropUnknownCallees | gprof2dot.py:322-328 | One function's calls, restricted to the known callee ids. |
| Profiles.ClosedGraph | gprof2dot.py:320-328 | After `validate` the call graph has no edge leaving the registered functions. |
| Tarjan.Components | gprof2dot.py:330-335 | Tarjan's search from every function in turn. Each component it reports has at least two distinct functions, all reaching one another. No function is in two components. |
| Tarjan.Visit | gprof2dot.py:443-482 | `_tarjan` on an unvisited function keeps the search invariant: stack order, lowlink witnesses, and stack vertices reaching the vertices above them. It keeps earlier marks, and reports sound components. |
| Tarjan.VisitCallee | gprof2dot.py:460-470 | One call of the visited function: the callee is visited if new, and the lowlink drops to the callee's order or lowlink. |
| Tarjan.Unstack | gprof2dot.py:476-482 | The members of a finished component are marked off the stack, and nothing else changes. |
| Tarjan.FoundPartner | gprof2dot.py:473-478 | Each member of a reported component has another member that it reaches and that reaches it. A function whose only recursion is a self-call is in no cycle. |
| Profiles.Profile.FindCycles | gprof2dot.py:330-343 | Only the functions' `cycle` changes. Each new cycle has at least two members, all reaching one another. A function belongs to a new cycle exactly when it points to it: members point back (gprof2dot.py:301), and every function pointing to a new cycle is listed in it (gprof2dot.py:296). A function whose only recursion is a call to itself keeps its cycle. `cycles` lists, without repeats, exactly the cycles some function points to. |
| Profiles.SelfRecursiveGetsNoCycle | gprof2dot.py:473-478 | A cycle that lists every function pointing to it, with two or more members that all reach one another, has no member whose only recursion is a call to itself. |
| Profiles.Profile.MakeCycles | gprof2dot.py:473-478 | Each component becomes a new cycle whose members are the component and point back to it. |
| Profiles.Profile.AddMembers | gprof2dot.py:476-478 | Every member of the component joins cycle `c`. Every other function is unchanged. |
| Profiles.Profile.CollectCycles | gprof2dot.py:336-341 | `cycles` becomes the distinct cycles the functions point to. |
| CallRatioPasses.InboundTotals | gprof2dot.py:486-508 | Pass 1: every function's total is the sum of `event` over its non-self inbound calls. Every listed cycle's total is the sum over the calls entering it from outside. |
| CallRatioPasses.AddInbound | gprof2dot.py:497-506 | The calls of one function add their values to the callee totals, and to the totals of the cycles they enter. |
| CallRatioPasses.AddCallInbound | gprof2dot.py:498-503 | One non-self call with the event adds its value to the callee's total, and to the total of the cycle it enters from outside. |
| CallRatioPasses.RatedCallsFromTotals | gprof2dot.py:510-523 | Given pass 1's totals, pass 2 sets exactly the ratios `RatedCalls` describes. |
| Profiles.Profile.SetRatios | gprof2dot.py:510-523 | Pass 2 sets every function's calls to the rated calls, and changes nothing else. |
| Profiles.Profile.RateFunctionCalls | gprof2dot.py:511-523 | Only the calls of `f` change, to their rated form. |
| CallRatioPasses.RateCalls | gprof2dot.py:512-523 | A function's calls with every non-self call given its ratio. A self-call is left as it is. |
| CallRatioPasses.RateCall | gprof2dot.py:514-523 | The ratio of one non-self call. It uses the entered cycle's total for a call entering a cycle and the callee's total otherwise, and 0 without the event. |
| Profiles.Profile.CallRatios | gprof2dot.py:484-523 | Every function's calls become `RatedCalls`, and nothing else changes. |
| CallRatioSpec.RatedCallsProperties | gprof2dot.py:510-523 | A self-call keeps no ratio. A call without the event gets 0. Any other call gets `ratio(call[event], total)`, where the total is the entered cycle's for a call entering a cycle and the callee's otherwise. Every ratio lies in [0, 1]. |
| CallRatioSpec.InboundRatiosSumToOne | gprof2dot.py:484-523 | When a function outside every cycle has a positive inbound total and its counted inbound calls carry non-negative values, the ratios of its inbound calls add up to exactly 1. |
| CallRatioSpec.CycleRatiosSumToOne | gprof2dot.py:514-519 | When the calls entering cycle `c` from outside carry non-negative values and their total is positive, their ratios, each taken of the cycle's inbound total, add up to exactly 1. |
| Profiles.Profile.Aggregate | gprof2dot.py:709-718 | The profile's `event` becomes the sum over all functions, unless a function lacks the event, in which case nothing changes. A `fail` aggregator fails as soon as a function holds the event. |
| Totals.NormaliseCalls | gprof2dot.py:727-730 | Every call that has `inevent` gets its normalised share as `outevent`. |
| Profiles.Profile.NormaliseFunctions | gprof2dot.py:723-730 | The loop over the functions: every function becomes normalised. |
| Profiles.Profile.NormaliseFunction | gprof2dot.py:724-730 | One function gets its share as `outevent`, and so do its calls. |
| Totals.NormalisedCallProperties | gprof2dot.py:727-730 | A call gets `outevent` if and only if it has `inevent` or had `outevent`. The share lies in [0, 1]. Nothing else of the call changes. |
| Totals.NormalisedFunctionProperties | gprof2dot.py:726 | A function's `outevent` is `ratio(inevent, total)`, in [0, 1], and exactly the quotient for a value within the total. Nothing else of the function changes. |
| Totals.NormalisedSharesSumToOne | gprof2dot.py:720-731 | When the profile's total is the sum of non-negative function values and is positive, the shares the functions receive add up to exactly 1. |
| Profiles.Profile.Ratio | gprof2dot.py:720-731 | Every function and call becomes `Normalised`, and the profile's `outevent` is 1. |
| Profiles.Profile.Prune | gprof2dot.py:733-792 | The functions become `Pruned`, the composition of the five steps below. |
| Profiles.Profile.ComputeWeights | gprof2dot.py:736-754 | Each function is weighed by its `TOTAL_TIME_RATIO`. Each call is weighed by its own value, or by the smaller of caller and callee. |
| Pruning.WeighCalls | gprof2dot.py:743-754 | The calls of one function with their prune weights. |
| Profiles.Profile.WeighFunction | gprof2dot.py:737-754 | One function and its calls receive their prune weights. |
| Profiles.Profile.PruneNodes | gprof2dot.py:756-761 | Functions weighed below the node threshold are removed. |
| Profiles.Profile.PrunePaths | gprof2dot.py:763-769 | With paths given, a function whose filename starts with none of them, or whose module contains none of them, is removed. |
| Profiles.Profile.PruneEdges | gprof2dot.py:771-776 | Calls to removed functions, and calls weighed below the edge threshold, are removed. |
| Pruning.DropCalls | gprof2dot.py:773-776 | One function's calls, filtered by the edge step. |
| Profiles.Profile.ColourBySelfTime | gprof2dot.py:777-792 | Each function with `TIME_RATIO` is re-weighed by it divided by the largest `TIME_RATIO` (1 when none has one). |
| Pruning.FindMaxTimeRatio | gprof2dot.py:779-785 | Returns the largest `TIME_RATIO` over the functions, or none. |
| Pruning.MaxTimeRatioIsMax | gprof2dot.py:779-785 | The maximum is the `TIME_RATIO` of some function and at least that of every function. |
| Pruning.PrunedFunctions | gprof2dot.py:756-769 | A function survives `prune` if and only if it was present, its weight is not below the node threshold, and it passes the path filter. |
| Pruning.PrunedPaths | gprof2dot.py:763-769 | A surviving function with a filename has one starting with a given path. One with a module has a given path occurring in it. |
| Pruning.PrunedCallsKept | gprof2dot.py:771-776 | After `prune` every callee is a surviving function. A call survives if and only if its callee survives and its weight is not below the edge threshold. |
| Pruning.ColouredWeights | gprof2dot.py:777-792 | The re-weighed weights lie in [0, 1] when the self-time ratios are non-negative, and the largest becomes exactly 1. |
| Pruning.ContainsAt | gprof2dot.py:768 | `str.find(path) > -1` holds if and only if the path occurs at some index. |
| Frontier.Expand | gprof2dot.py:351-360 | The frontier loop visits every start, and every direct successor of a start when the depth is non-zero. With a negative depth it visits exactly what the starts reach; otherwise nothing further than `depth` edges from a start. Depth 0 visits the starts alone; depth 1 the starts and their successors. |
| Frontier.Visit | gprof2dot.py:354-360 | One turn of the frontier loop: pop a pair and mark its node visited. Unless the depth is spent, queue its unvisited successors one level shallower. |
| Subgraphs.Subtree | gprof2dot.py:361-369 | The kept functions, each with its calls restricted to the kept functions. |
| Subgraphs.KeepCalls | gprof2dot.py:364-368 | A call table restricted to the kept callees. |
| Subgraphs.CallersOf | gprof2dot.py:373-376 | `edgesUp` is exactly the reverse of the call graph. |
| Subgraphs.AddCaller | gprof2dot.py:375-376 | `f` becomes a caller of each of its callees, and nothing else changes. |
| Subgraphs.ReverseReach | gprof2dot.py:378-388 | Walking up the callers from the leaves reaches exactly the functions that reach a leaf down the calls, within the same number of steps. |
| Subgraphs.SubgraphShape | gprof2dot.py:361-369 | The subgraph keeps keys, ids and cycles. Its keys are the kept functions, and when those are all registered no call leaves them. |
| Subgraphs.RootSubgraph | gprof2dot.py:350-370 | `prune_root` keeps the roots and their direct callees. For a negative depth it keeps exactly what the roots reach; for depth 0 exactly the roots; for depth 1 exactly the roots and their callees. Otherwise it keeps nothing more than `depth` calls away, and the calls among the kept functions. |
| Subgraphs.DownwardWalk | gprof2dot.py:350-360 | What the frontier walk over the call graph guarantees, stated as `RootPruned` on the functions. |
| Profiles.Profile.PruneRoot | gprof2dot.py:350-370 | The functions become the subgraph `RootSubgraph` describes. |
| Subgraphs.LeafSubgraph | gprof2dot.py:372-399 | `prune_leaf` keeps the leaves that are functions and their direct callers. For a negative depth it keeps exactly the functions that reach a leaf; otherwise only functions that reach one within `depth` calls. It keeps the calls among the kept functions. |
| Subgraphs.UpwardWalk | gprof2dot.py:378-389 | What the frontier walk up the callers guarantees, stated as `LeafPruned` on the functions. |
| Profiles.Profile.PruneLeaf | gprof2dot.py:372-399 | The functions become the subgraph `LeafSubgraph` describes. |
| Profiles.Profile.Integrate | gprof2dot.py:525-556 | Every function ends as `FinalFunction` and every cycle as `FinalCycle`. The profile's `outevent` (and, when there are cycles, `inevent`) is the sum of `inevent` over the functions. |
| IntegrationAim.Aim | gprof2dot.py:525-556 | What `integrate` computes depends only on the profile, the two event kinds and the levels. So for every profile that `integrate` can handle, an input recording the final functions and cycles as targets exists and is `Aimed`, and `Profile.Integrate` can be called on it. |
| Profiles.Profile.IntegrateFunctions | gprof2dot.py:551-556 | The main loop: every function and cycle reaches its final state, and the running total is the sum of `inevent`. |
| Profiles.Profile.IntegrateNext | gprof2dot.py:553-555 | One iteration adds `f`'s `inevent` to the running sum and integrates `f`: every function passed so far, and `f`, is in its final state. |
| Profiles.Profile.VisitFunction | gprof2dot.py:555 | Integrating `f` leaves it, its cycle and everything it reaches in their final state, and keeps the functions passed before final. |
| Profiles.Profile.IntegrateFunction | gprof2dot.py:558-568 | `_integrate_function` returns `FunctionOut(f)`. That is the inclusive cost, defined recursively over the acyclic condensation of the call graph. It leaves `f` (or its cycle) in its final state. |
| Profiles.Profile.IntegrateOwnCalls | gprof2dot.py:562-567 | A function outside any cycle that has no `outevent` yet gets `FunctionOut(f)`, stores it, and ends in its final state. |
| Profiles.Profile.IntegrateCalls | gprof2dot.py:561-567 | A function outside any cycle gets its own cost plus what each non-self call carries. |
| Profiles.Profile.IntegrateCall | gprof2dot.py:570-576 | `_integrate_call` returns the call's ratio times the callee's inclusive cost, and stores it on the call. |
| Profiles.Profile.RecordCall | gprof2dot.py:574-576 | The call holds `ratio * callee out` as `outevent`. |
| Profiles.Profile.IntegrateCycle | gprof2dot.py:578-621 | `_integrate_cycle` returns what the cycle holds, or computes `CycleOut`. That is the members' own costs plus what their calls leaving the cycle carry. The cycle is left as `FinalCycle` and its members as `FinalFunction`. |
| Profiles.Profile.IntegrateMembers | gprof2dot.py:582-590 | The first loop: the total is `CycleOut`, and every call leaving the cycle is integrated. |
| Profiles.Profile.IntegrateMember | gprof2dot.py:583-589 | One member adds its own cost, plus what its calls leaving the cycle carry, to the running total of the cycle. |
| Profiles.Profile.MemberSubtotal | gprof2dot.py:584-589 | A member's subtotal is `MemberTotal`: its own cost plus what its calls leaving the cycle carry. |
| Profiles.Profile.IntegrateMemberCalls | gprof2dot.py:584-589 | The loop over a member's calls sums what its calls leaving the cycle carry. |
| Profiles.Profile.SettleCycle | gprof2dot.py:590-615 | The cycle holds its total, and the total is distributed over the members. |
| RatioTables.EntryRatios | gprof2dot.py:592-602 | `callees` holds exactly the members called from outside the cycle, each with the sum of the ratios of those calls. |
| RatioTables.EntryRatiosOf | gprof2dot.py:595-602 | The calls of one function outside the cycle into the cycle are recorded, and nothing else. |
| Profiles.Profile.DistributeCycle | gprof2dot.py:592-615 | Every member ends as `DistMember` for all the entries, and only members change. |
| Profiles.Profile.ZeroMembers | gprof2dot.py:604-605 | Every member's `outevent` is reset to zero. |
| Profiles.Profile.DistributeEntries | gprof2dot.py:607-615 | The shares of every entry are added to the members. |
| Profiles.Profile.DistributeEntry | gprof2dot.py:608-612 | One entry's shares are added. |
| Profiles.Profile.EntryTables | gprof2dot.py:608-611 | From an entry: the ranks are the least distances inside the cycle, and the table holds the sum of the forward ratios into each member. |
| CycleRanks.RankCycleFunction | gprof2dot.py:623-670 | `_rank_cycle_function` ranks every member the entry reaches by its least number of calls from it. |
| CycleRanks.Discover | gprof2dot.py:640-670 | The next layer is exactly the unranked successors of the current one. |
| CycleRanks.DistancesMeaning | gprof2dot.py:623-670 | A vertex is ranked if and only if the entry reaches it. Its rank is the length of a shortest path, and the entry has rank 0. |
| CycleRanks.RanksAreDistances | gprof2dot.py:623-670 | Ranks that hold exactly the reachable vertices, each at its least distance, are the distances. |
| RatioTables.CallRatiosCycle | gprof2dot.py:672-681 | `_call_ratios_cycle` takes in every forward call (one rank deeper) out of each newly visited member, and walks on from its callee. The table stays the sum of the recorded ratios. |
| RatioTables.WalkCall | gprof2dot.py:675-681 | One call of the walk is recorded exactly when it goes one rank deeper, and the walk continues from its callee. |
| RatioTables.ForwardTableMeaning | gprof2dot.py:672-681 | Once the walk from the entry is done, `call_ratios[k]` is the sum of the ratios of all forward calls into `k`. |
| Profiles.Profile.IntegrateCycleFunction | gprof2dot.py:683-707 | `_integrate_cycle_function` gives member `f` the share `Partial`: `r` times its own cost, plus `r` times what its calls leaving the cycle carry, plus what each forward call passes back. The call and member values are accumulated. |
| Profiles.Profile.CycleFunctionCalls | gprof2dot.py:685-701 | The loop over the calls of `f` sums the terms of `Partial`. |
| Profiles.Profile.CycleFunctionCall | gprof2dot.py:686-701 | One call adds its term of `Partial`. |
| Profiles.Profile.QuietCycleCall | gprof2dot.py:686-692 | A self-call or backward call adds nothing. A call leaving the cycle adds `r * call[outevent]`. |
| Profiles.Profile.ForwardCycleCall | gprof2dot.py:693-701 | A forward call adds `ratio(call.ratio, call_ratios[callee])` times the callee's share, and records it on the call. |

## Left out

- Warnings written to standard error (`ratio` out of range, overwritten functions and calls, undefined callees, missing call data) are not modelled. `Ratios.WarnsOutOfRange` only states when `ratio` would warn, with `tol = 2**-23`.
- Floating point is modelled as exact `real` arithmetic. Round-off and the integer/float distinction of the null values are not modelled.
- The two sanity asserts at gprof2dot.py:617 and 619 (`partial == max(partials)` and `partial == call_ratio * total`, within tolerance) are not modelled, and their claims are not proved.
- The iteration order of Python dicts and of `set.pop` is modelled as an arbitrary choice (`:|`). Every result is proved for any order, except `prune_root`/`prune_leaf` with depth 2 or more, whose visited set depends on the pop order in the source; there the model states soundness only.
- `_rank_cycle_function` is Dijkstra's algorithm with a heap over unit-weight calls. It is modelled as a breadth-first layering with the same result (least distances). Heap order and the predecessor map `p`, which is never read, are not modelled.
- Object identity and aliasing: functions and calls are values in maps, and a cycle is an index into `cycleStore`. The source's in-place update of a shared `Function` object becomes a map update.
- `Function.stripped_name`, `Profile.getFunctionIds`/`getFunctionId`/`printFunctionIds`, `dump`, event formatting, the parsers, the theme and the dot writer are not modelled. They are text processing and output outside the graph engine.
- `Integrate`'s ghost parameter `x` carries proof devices that the source does not have: a level witness (`Levels`) that makes the recursion of `_integrate_function` terminate, and the expected final state (`Aimed`). Without a level witness the source's recursion does not end. `IntegrationAim.Aim` shows that the expected final state can always be supplied.
- FindCycles: only soundness is proved. Every new cycle is a set of at least two functions that all reach one another, no function is in two cycles, and `cycles` lists exactly the cycles in use. Completeness is not proved: the model does not prove that every strongly connected component of two or more functions becomes exactly one cycle. So `Integrate`'s `Leveled` precondition (a level witness over the condensation) is not derived from `FindCycles`; it is required of the caller.
- Tarjan.Components: soundness only, as for FindCycles. It does not prove that every strongly connected component of two or more vertices is reported.
- Profiles.Profile.IntegrateCycle: the distribution of the cycle total over the members is proved to follow `_integrate_cycle_function`'s recursion exactly (`Partial`, `Passed`, `DistMember`). The model does not prove that an entry's shares add up to `call_ratio * total`, the claim of the assert at gprof2dot.py:619. The same holds for DistributeCycle and IntegrateCycleFunction.
- Profiles.Profile.Integrate: requires `AggregatorOf(inEvent) == Add`. For `TOTAL_TIME`/`TOTAL_TIME_RATIO` as `inevent`, the source fails in `fail` (gprof2dot.py:63) on any non-empty profile and completes on an empty one; that error path is not modelled. The asserts at gprof2dot.py:535-543 (no `outevent` yet, `inevent` on every function, every non-self call rated) are preconditions here.
- Profiles.Profile.FindCycles: requires `Closed(functions)`, every callee a registered function, as `validate` leaves it. On an unknown callee the source raises `KeyError` at gprof2dot.py:466; that path is not modelled.
- Profiles.Profile.CallRatios: requires `Closed(functions)`; the source raises `KeyError` at gprof2dot.py:499 on an unknown callee. It also requires `EnteredCyclesListed`: every cycle a counted call enters is in `cycles`. Otherwise the source raises `KeyError` at gprof2dot.py:503. Neither error path is modelled.
- Profiles.Profile.PruneRoot: requires `Closed(functions)` and `roots <= functions.Keys`. The source raises `KeyError` at gprof2dot.py:358 (or 363 at depth 0) for an unknown root, or for an unknown callee that the walk reaches; that path is not modelled. The model requires every callee to be registered, which `validate` guarantees at every call site.
- Profiles.Profile.Prune: requires `Closed(functions)`. The source looks up every callee at gprof2dot.py:744 and raises `KeyError` on an unknown one.
- Profiles.Profile.AddFunction: requires `CallsKeyed(f)`, every call stored under its own callee id. The source accepts any `Function` at gprof2dot.py:312 and only `validate` asserts this (gprof2dot.py:324).
- Profiles.Profile.Ratio: the asserts at gprof2dot.py:721-728 are preconditions. Their failure is not modelled.
