/** The graph objects: `Call`, `Function` and `Cycle` (gprof2dot.py:205-301).
    They are values here; the profile stores them in maps keyed by id, and a
    function names its cycle by an index into the profile's cycle store
    instead of pointing to it. */
module Entities {
  import opened Wrappers
  import opened Events
  import Graphs

  type FunctionId = Graphs.Vertex

  /** A call to `calleeId`; `ratio` and `weight` stay `None` until
      `call_ratios` and `prune` set them. */
  datatype Call = Call(calleeId: FunctionId, events: EventMap, ratio: Option<real>, weight: Option<real>)

  datatype Function = Function(
    id: FunctionId,
    name: string,
    moduleName: Option<string>,
    process: Option<string>,
    calls: map<FunctionId, Call>,
    called: Option<int>,
    weight: Option<real>,
    cycle: Option<nat>,
    filename: Option<string>,
    events: EventMap)

  /** A cycle: a set of functions plus the events aggregated over them. */
  datatype Cycle = Cycle(functions: set<FunctionId>, events: EventMap)

  /** `Call(callee_id)`. */
  function NewCall(calleeId: FunctionId): (c: Call)
    ensures c.calleeId == calleeId && c.events == map[]
    ensures c.ratio.None? && c.weight.None?
  {
    Call(calleeId, map[], None, None)
  }

  /** `Function(id, name)`. */
  function NewFunction(id: FunctionId, name: string): (f: Function)
    ensures f.id == id && f.name == name && f.calls == map[] && f.events == map[]
    ensures f.cycle.None? && f.weight.None? && f.called.None?
    ensures f.moduleName.None? && f.process.None? && f.filename.None?
  {
    Function(id, name, None, None, map[], None, None, None, None, map[])
  }

  /** `Cycle()`. */
  function NewCycle(): (c: Cycle)
    ensures c.functions == {} && c.events == map[]
  {
    Cycle({}, map[])
  }

  /** Every call is stored under its own callee id. */
  ghost predicate CallsKeyed(f: Function)
  {
    forall k :: k in f.calls ==> f.calls[k].calleeId == k
  }

  /** `Function.add_call`: the call is stored under its callee id,
      replacing an existing entry (the source only warns). */
  function AddCall(f: Function, call: Call): (r: Function)
    ensures r.calls.Keys == f.calls.Keys + {call.calleeId}
    ensures r.calls[call.calleeId] == call
    ensures forall k :: k in f.calls && k != call.calleeId ==> r.calls[k] == f.calls[k]
    ensures CallsKeyed(f) ==> CallsKeyed(r)
    ensures r.(calls := f.calls) == f
  {
    f.(calls := f.calls[call.calleeId := call])
  }

  /** `Function.get_call`: the existing call to `calleeId`, or a new one
      whose `Samples`, `Samples2` and `Calls` counts are zero. */
  function GetCall(f: Function, calleeId: FunctionId): (r: (Function, Call))
    ensures r.0.calls.Keys == f.calls.Keys + {calleeId}
    ensures r.0.calls[calleeId] == r.1
    ensures calleeId in f.calls ==> r.0 == f
    ensures calleeId !in f.calls ==>
      && r.1.calleeId == calleeId
      && r.1.events == map[Samples := 0.0, Samples2 := 0.0, Calls := 0.0]
      && r.1.ratio.None? && r.1.weight.None?
    ensures forall k :: k in f.calls ==> r.0.calls[k] == f.calls[k]
    ensures CallsKeyed(f) ==> CallsKeyed(r.0)
    ensures r.0.(calls := f.calls) == f
  {
    if calleeId in f.calls then (f, f.calls[calleeId])
    else
      var call := NewCall(calleeId).(events := map[Samples := 0.0, Samples2 := 0.0, Calls := 0.0]);
      (f.(calls := f.calls[calleeId := call]), call)
  }

  /** `get_call` is idempotent: asking twice for the same callee returns
      the same call and changes nothing the second time. */
  lemma GetCallIdempotent(f: Function, calleeId: FunctionId)
    ensures GetCall(GetCall(f, calleeId).0, calleeId) == GetCall(f, calleeId)
  {
  }

  /** Every function is stored under its own id, and so is each of its
      calls. */
  ghost predicate WellKeyed(fs: map<FunctionId, Function>)
  {
    forall id :: id in fs ==> fs[id].id == id && CallsKeyed(fs[id])
  }

  /** Every cycle index used by a function is below `n`. */
  ghost predicate CyclesBelow(fs: map<FunctionId, Function>, n: nat)
  {
    forall id :: id in fs && fs[id].cycle.Some? ==> fs[id].cycle.value < n
  }

  /** The keys of `calls` that survive when only the ids in `keep` stay. */
  function RestrictCalls(calls: map<FunctionId, Call>, keep: set<FunctionId>): (r: map<FunctionId, Call>)
    ensures r.Keys == calls.Keys * keep
    ensures forall k :: k in r ==> r[k] == calls[k]
  {
    map k | k in calls && k in keep :: calls[k]
  }

  /** The call graph: each function's successors are its callee ids. */
  function CallGraph(fs: map<FunctionId, Function>): (g: Graphs.Graph)
    ensures g.Keys == fs.Keys
    ensures forall f :: f in fs ==> g[f] == fs[f].calls.Keys
  {
    map f | f in fs :: fs[f].calls.Keys
  }

  /** Every call targets a registered function. */
  ghost predicate Closed(fs: map<FunctionId, Function>)
  {
    forall f, k :: f in fs && k in fs[f].calls ==> k in fs
  }
}
