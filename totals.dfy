/** Profile-wide totals and the normaliser `Profile.ratio`
    (gprof2dot.py:709-731), stated as functions of the profile. */
module Totals {
  import opened Events
  import opened Entities
  import opened Sums
  import opened Ratios

  /** The value of `e` on function `f`, or 0 where it is undefined. */
  ghost function ValueOf(fs: map<FunctionId, Function>, e: Event): map<FunctionId, real>
  {
    map f | f in fs :: if e in fs[f].events then fs[f].events[e] else 0.0
  }

  /** The sum of `e` over every function of the profile. */
  ghost function EventTotal(fs: map<FunctionId, Function>, e: Event): real
  {
    SumSet(fs.Keys, ValueOf(fs, e))
  }

  /** Every function has a value for `e`. */
  ghost predicate AllDefine(fs: map<FunctionId, Function>, e: Event)
  {
    forall f :: f in fs ==> e in fs[f].events
  }

  /** A call after `Profile.ratio`: it gets `outEvent` only when it has
      `inEvent`, as that value's share of `total`. */
  function NormalisedCall(c: Call, outEvent: Event, inEvent: Event, total: real): Call
  {
    if inEvent in c.events then c.(events := c.events[outEvent := SafeRatio(c.events[inEvent], total)]) else c
  }

  function NormalisedCalls(calls: map<FunctionId, Call>, outEvent: Event, inEvent: Event, total: real): (r: map<FunctionId, Call>)
    ensures r.Keys == calls.Keys
  {
    map k | k in calls :: NormalisedCall(calls[k], outEvent, inEvent, total)
  }

  /** A function after `Profile.ratio`: its `outEvent` is its `inEvent`'s
      share of `total`, and its calls are normalised the same way. */
  function NormalisedFunction(f: Function, outEvent: Event, inEvent: Event, total: real): Function
    requires inEvent in f.events
  {
    f.(events := f.events[outEvent := SafeRatio(f.events[inEvent], total)],
       calls := NormalisedCalls(f.calls, outEvent, inEvent, total))
  }

  ghost function Normalised(fs: map<FunctionId, Function>, outEvent: Event, inEvent: Event, total: real): map<FunctionId, Function>
    requires AllDefine(fs, inEvent)
  {
    map f | f in fs :: NormalisedFunction(fs[f], outEvent, inEvent, total)
  }

  /** What the normaliser promises for each function: its new value lies
      in [0, 1] and is exactly its share of the total when that share is in
      range; every other event and field is unchanged, and so are the keys
      of its calls. */
  lemma NormalisedFunctionProperties(f: Function, outEvent: Event, inEvent: Event, total: real)
    requires inEvent in f.events && outEvent != inEvent
    ensures NormalisedFunction(f, outEvent, inEvent, total).(events := f.events, calls := f.calls) == f
    ensures NormalisedFunction(f, outEvent, inEvent, total).events - {outEvent} == f.events - {outEvent}
    ensures 0.0 <= NormalisedFunction(f, outEvent, inEvent, total).events[outEvent] <= 1.0
    ensures total != 0.0 && 0.0 <= f.events[inEvent] <= total ==>
      NormalisedFunction(f, outEvent, inEvent, total).events[outEvent] == f.events[inEvent] / total
    ensures NormalisedFunction(f, outEvent, inEvent, total).calls.Keys == f.calls.Keys
  {
    if total != 0.0 && 0.0 <= f.events[inEvent] <= total {
      SafeRatioOfPart(f.events[inEvent], total);
    }
  }

  /** What the normaliser promises for each call: it gets the new event
      if and only if it has the input event, with a value in [0, 1], and
      nothing else about it changes. */
  lemma NormalisedCallProperties(c: Call, outEvent: Event, inEvent: Event, total: real)
    ensures outEvent in NormalisedCall(c, outEvent, inEvent, total).events <==>
      outEvent in c.events || inEvent in c.events
    ensures inEvent in c.events ==> 0.0 <= NormalisedCall(c, outEvent, inEvent, total).events[outEvent] <= 1.0
    ensures outEvent !in c.events && inEvent !in c.events ==> NormalisedCall(c, outEvent, inEvent, total) == c
    ensures NormalisedCall(c, outEvent, inEvent, total).(events := c.events) == c
    ensures NormalisedCall(c, outEvent, inEvent, total).events - {outEvent} == c.events - {outEvent}
  {
  }

  /** The share of the profile's `inEvent` each function ends up with. */
  ghost function ShareOf(fs: map<FunctionId, Function>, inEvent: Event, total: real): map<FunctionId, real>
  {
    map f | f in fs :: if inEvent in fs[f].events then SafeRatio(fs[f].events[inEvent], total) else 0.0
  }

  /** Partner of the normaliser: when the profile's total is the sum of
      the functions' non-negative values and is positive, the values the
      functions receive add up to exactly 1, the value stored on the
      profile itself. */
  lemma NormalisedSharesSumToOne(fs: map<FunctionId, Function>, outEvent: Event, inEvent: Event)
    requires AllDefine(fs, inEvent)
    requires forall f :: f in fs ==> fs[f].events[inEvent] >= 0.0
    requires EventTotal(fs, inEvent) > 0.0
    ensures SumSet(fs.Keys, ShareOf(fs, inEvent, EventTotal(fs, inEvent))) == 1.0
  {
    SharesOfFunctions(fs, inEvent);
    SumOfShares(fs.Keys, ValueOf(fs, inEvent), ShareOf(fs, inEvent, EventTotal(fs, inEvent)), EventTotal(fs, inEvent));
  }

  /** `ShareOf` is the value the normaliser stores. */
  lemma NormalisedIsShare(fs: map<FunctionId, Function>, outEvent: Event, inEvent: Event, total: real)
    requires AllDefine(fs, inEvent)
    ensures forall f :: f in fs ==>
      Normalised(fs, outEvent, inEvent, total)[f].events[outEvent] == At(ShareOf(fs, inEvent, total), f)
  {
  }

  lemma SharesOfFunctions(fs: map<FunctionId, Function>, inEvent: Event)
    requires AllDefine(fs, inEvent)
    requires forall f :: f in fs ==> fs[f].events[inEvent] >= 0.0
    requires EventTotal(fs, inEvent) > 0.0
    ensures Scaled(fs.Keys, 1.0 / EventTotal(fs, inEvent), ValueOf(fs, inEvent), ShareOf(fs, inEvent, EventTotal(fs, inEvent)))
  {
    forall f | f in fs.Keys
      ensures ShareOf(fs, inEvent, EventTotal(fs, inEvent))[f] == (1.0 / EventTotal(fs, inEvent)) * ValueOf(fs, inEvent)[f]
    {
      ShareOfFunction(fs, inEvent, f);
    }
  }

  lemma ShareOfFunction(fs: map<FunctionId, Function>, inEvent: Event, f: FunctionId)
    requires AllDefine(fs, inEvent) && f in fs
    requires forall f :: f in fs ==> fs[f].events[inEvent] >= 0.0
    requires EventTotal(fs, inEvent) > 0.0
    ensures ShareOf(fs, inEvent, EventTotal(fs, inEvent))[f] == (1.0 / EventTotal(fs, inEvent)) * ValueOf(fs, inEvent)[f]
  {
    var t := EventTotal(fs, inEvent);
    var v := fs[f].events[inEvent];
    SumAtLeastTerm(fs.Keys, ValueOf(fs, inEvent), f);
    SafeRatioOfPart(v, t);
    DivAsScale(v, t);
  }

  lemma DivAsScale(v: real, t: real)
    requires t != 0.0
    ensures v / t == (1.0 / t) * v
  {
  }

  lemma NormalisedKeyed(f: Function, outEvent: Event, inEvent: Event, total: real)
    requires inEvent in f.events && CallsKeyed(f)
    ensures CallsKeyed(NormalisedFunction(f, outEvent, inEvent, total))
  {
    forall k | k in NormalisedFunction(f, outEvent, inEvent, total).calls
      ensures NormalisedFunction(f, outEvent, inEvent, total).calls[k].calleeId == k
    {
      NormalisedCallProperties(f.calls[k], outEvent, inEvent, total);
    }
  }

  /** The normaliser keeps every function's id, cycle and keyed calls. */
  lemma NormalisedKeepsShape(fs: map<FunctionId, Function>, outEvent: Event, inEvent: Event, total: real)
    requires AllDefine(fs, inEvent)
    ensures Normalised(fs, outEvent, inEvent, total).Keys == fs.Keys
    ensures forall f :: f in fs ==>
      && Normalised(fs, outEvent, inEvent, total)[f].id == fs[f].id
      && Normalised(fs, outEvent, inEvent, total)[f].cycle == fs[f].cycle
      && (CallsKeyed(fs[f]) ==> CallsKeyed(Normalised(fs, outEvent, inEvent, total)[f]))
  {
    forall f | f in fs && CallsKeyed(fs[f])
      ensures CallsKeyed(Normalised(fs, outEvent, inEvent, total)[f])
    {
      NormalisedKeyed(fs[f], outEvent, inEvent, total);
    }
  }

  /** The inner loop of `Profile.ratio`: normalises the calls of one
      function. */
  method NormaliseCalls(calls: map<FunctionId, Call>, outEvent: Event, inEvent: Event, total: real)
    returns (r: map<FunctionId, Call>)
    ensures r == NormalisedCalls(calls, outEvent, inEvent, total)
  {
    r := calls;
    var todo := calls.Keys;
    while todo != {}
      invariant todo <= calls.Keys && r.Keys == calls.Keys
      invariant forall k :: k in r ==>
        r[k] == if k in todo then calls[k] else NormalisedCall(calls[k], outEvent, inEvent, total)
      decreases todo
    {
      var k :| k in todo;
      var c := r[k];
      if inEvent in c.events {
        r := r[k := c.(events := c.events[outEvent := SafeRatio(c.events[inEvent], total)])];
      }
      todo := todo - {k};
    }
  }
}
