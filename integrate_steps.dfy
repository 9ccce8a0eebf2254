/** The states `integrate` (gprof2dot.py:525-707) passes through on its
    way to the final profile: a function whose calls are being integrated
    one by one, a cycle member between two entries of the distribution,
    and the invariants the recursion keeps over the whole profile. */
module IntegrationSteps {
  import opened Wrappers
  import opened Events
  import opened Entities
  import opened Sums
  import opened Ratios
  import opened Graphs
  import opened CycleRanks
  import opened Totals
  import opened Integration

  /** `function[e] = v`. */
  function SetOut(fn: Function, e: Event, v: real): Function
  {
    fn.(events := fn.events[e := v])
  }

  /** `call[e] = v` on the call to `k`. */
  function SetCallOut(fn: Function, k: FunctionId, e: Event, v: real): Function
    requires k in fn.calls
  {
    fn.(calls := fn.calls[k := WithOut(fn.calls[k], e, v)])
  }

  /** `call[e] += v`, where an undefined `e` is set to `v` instead. */
  function AddOut(call: Call, e: Event, v: real): Call
  {
    if e in call.events then WithOut(call, e, call.events[e] + v) else WithOut(call, e, v)
  }

  /** `call[e] += v` on the call to `k`. */
  function AddCallOut(fn: Function, k: FunctionId, e: Event, v: real): Function
    requires k in fn.calls
  {
    fn.(calls := fn.calls[k := AddOut(fn.calls[k], e, v)])
  }

  /** `function[e] += v`, where an undefined `e` is set to `v` instead. */
  function AddFunctionOut(fn: Function, e: Event, v: real): Function
  {
    if e in fn.events then SetOut(fn, e, fn.events[e] + v) else SetOut(fn, e, v)
  }

  /** Nothing `integrate` writes is there before it runs, as its sanity
      checks demand. */
  ghost predicate Fresh(x: IntegrableInput)
  {
    && (forall f :: f in x.fs ==> x.outEvent !in x.fs[f].events)
    && (forall f, k :: f in x.fs && k in x.fs[f].calls ==> x.outEvent !in x.fs[f].calls[k].events)
  }

  /** The table `a` with the entries of `passed` taken from `b`. */
  function Blend(a: map<FunctionId, Call>, b: map<FunctionId, Call>, passed: set<FunctionId>): (r: map<FunctionId, Call>)
    requires a.Keys == b.Keys
    ensures r.Keys == a.Keys
  {
    map k | k in a :: if k in passed then b[k] else a[k]
  }

  lemma BlendNone(a: map<FunctionId, Call>, b: map<FunctionId, Call>)
    requires a.Keys == b.Keys
    ensures Blend(a, b, {}) == a
  {
  }

  lemma BlendAll(a: map<FunctionId, Call>, b: map<FunctionId, Call>, passed: set<FunctionId>)
    requires a.Keys == b.Keys && a.Keys <= passed
    ensures Blend(a, b, passed) == b
  {
  }

  /** Passing one more key takes its entry from `b`. */
  lemma BlendStep(a: map<FunctionId, Call>, b: map<FunctionId, Call>, passed: set<FunctionId>, k: FunctionId)
    requires a.Keys == b.Keys && k in a && k !in passed
    ensures Blend(a, b, passed)[k] == a[k]
    ensures Blend(a, b, passed + {k}) == Blend(a, b, passed)[k := b[k]]
  {
  }

  /** `f` once the integrated calls among `done` hold what they carry: the
      state of `f` while `_integrate_function`, or the first loop of
      `_integrate_cycle`, works through its calls. */
  ghost function CallsDone(x: IntegrableInput, f: FunctionId, done: set<FunctionId>): Function
    requires f in x.fs
  {
    x.fs[f].(calls := Blend(x.fs[f].calls, IntegratedCalls(x, f), done))
  }

  lemma CallsDoneNone(x: IntegrableInput, f: FunctionId)
    requires f in x.fs
    ensures CallsDone(x, f, {}) == x.fs[f]
  {
    BlendNone(x.fs[f].calls, IntegratedCalls(x, f));
  }

  /** Integrating the call `f -> k` moves `k` into `done`; any other call
      joins it without a change. */
  lemma CallsDoneStep(x: IntegrableInput, f: FunctionId, done: set<FunctionId>, k: FunctionId)
    requires f in x.fs && k in x.fs[f].calls && k !in done
    ensures Integrated(x.fs, f, k) ==>
      SetCallOut(CallsDone(x, f, done), k, x.outEvent, CallOut(x, f, k)) == CallsDone(x, f, done + {k})
    ensures !Integrated(x.fs, f, k) ==> CallsDone(x, f, done + {k}) == CallsDone(x, f, done)
  {
    var a, b := x.fs[f].calls, IntegratedCalls(x, f);
    BlendStep(a, b, done, k);
    assert b[k] == IntegratedCall(x, f, k);
    if !Integrated(x.fs, f, k) {
      assert Blend(a, b, done)[k := b[k]] == Blend(a, b, done);
    }
  }

  /** A function outside any cycle is final once every call is done and
      it holds its inclusive cost. */
  lemma CallsDoneFinal(x: IntegrableInput, f: FunctionId)
    requires f in x.fs && x.fs[f].cycle.None?
    ensures SetOut(CallsDone(x, f, x.fs[f].calls.Keys), x.outEvent, FunctionOut(x, f)) == FinalFunction(x, f)
  {
    BlendAll(x.fs[f].calls, IntegratedCalls(x, f), x.fs[f].calls.Keys);
  }

  /** A cycle member whose calls out of the cycle are done and whose
      output is zeroed is where the distribution starts. */
  lemma CallsDoneZeroed(x: IntegrableInput, c: nat, m: FunctionId)
    requires InCycle(x.fs, m, c)
    ensures SetOut(CallsDone(x, m, x.fs[m].calls.Keys), x.outEvent, 0.0) == DistMember(x, c, {}, m)
  {
    var a, b := IntegratedCalls(x, m), DistTable(x, c, {}, m);
    BlendAll(x.fs[m].calls, a, x.fs[m].calls.Keys);
    forall k | k in x.fs[m].calls
      ensures a[k] == b[k]
    {
      assert PassingEntries(x.fs, c, {}, m, k) == {};
      assert a[k] == IntegratedCall(x, m, k) && b[k] == DistCall(x, c, {}, m, k);
    }
    SameTable(a, b);
    assert MemberAcc(x, c, {}, m) == 0.0;
  }

  /** The entry `e` adds its share to what member `m` holds. */
  lemma MemberAccStep(x: IntegrableInput, c: nat, done: set<FunctionId>, e: FunctionId, m: FunctionId)
    requires e in Entries(x.fs, c) && e !in done
    ensures MemberAcc(x, c, done + {e}, m) == MemberAcc(x, c, done, m) + EntryShare(x, c, e, m)
  {
    SumAdd(done, EntryShares(x, c, m), e);
  }

  /** `e` joins the entries passing along `m -> k` exactly when the call
      is a forward one for it. */
  lemma PassingStep(fs: map<FunctionId, Function>, c: nat, done: set<FunctionId>, e: FunctionId, m: FunctionId, k: FunctionId)
    requires e in Entries(fs, c) && e !in done
    ensures Forward(fs, c, EntryRanks(fs, c, e), m, k) ==>
      PassingEntries(fs, c, done + {e}, m, k) == PassingEntries(fs, c, done, m, k) + {e} && e !in PassingEntries(fs, c, done, m, k)
    ensures !Forward(fs, c, EntryRanks(fs, c, e), m, k) ==>
      PassingEntries(fs, c, done + {e}, m, k) == PassingEntries(fs, c, done, m, k)
  {
    var p := Passers(fs, c, m, k);
    if Forward(fs, c, EntryRanks(fs, c, e), m, k) {
      assert e in p;
      MeetStep(done, p, e);
    } else {
      assert e !in p;
      MeetStep(done, p, e);
    }
  }

  /** Adding `e` to `done` adds it to `done * p` exactly when `e` is in `p`. */
  lemma MeetStep(done: set<FunctionId>, p: set<FunctionId>, e: FunctionId)
    requires e !in done
    ensures e in p ==> (done + {e}) * p == done * p + {e} && e !in done * p
    ensures e !in p ==> (done + {e}) * p == done * p
  {
  }

  /** A call accumulating the shares of `before` accumulates those of
      `before + {e}` once the share of `e` is added to it. */
  lemma AddShare(call: Call, out: Event, before: set<FunctionId>, e: FunctionId, shares: map<FunctionId, real>)
    requires e !in before && out !in call.events
    ensures Accumulated(call, out, before + {e}, shares) == AddOut(Accumulated(call, out, before, shares), out, At(shares, e))
  {
    SumAdd(before, shares, e);
    var w := SumSet(before, shares);
    assert WithOut(WithOut(call, out, w), out, w + At(shares, e)).events == WithOut(call, out, w + At(shares, e)).events;
  }

  /** The entry `e` adds its share to the call `m -> k` when the call is a
      forward one for it, and leaves the call alone otherwise. */
  lemma DistCallStep(x: IntegrableInput, c: nat, done: set<FunctionId>, e: FunctionId, m: FunctionId, k: FunctionId)
    requires Fresh(x) && InCycle(x.fs, m, c) && k in x.fs[m].calls
    requires e in Entries(x.fs, c) && e !in done
    ensures Forward(x.fs, c, EntryRanks(x.fs, c, e), m, k) ==>
      DistCall(x, c, done + {e}, m, k) == AddOut(DistCall(x, c, done, m, k), x.outEvent, CallShare(x, c, e, m, k))
    ensures !Forward(x.fs, c, EntryRanks(x.fs, c, e), m, k) ==> DistCall(x, c, done + {e}, m, k) == DistCall(x, c, done, m, k)
  {
    PassingStep(x.fs, c, done, e, m, k);
    if Forward(x.fs, c, EntryRanks(x.fs, c, e), m, k) {
      assert InCycle(x.fs, k, c);
      assert At(CallShares(x, c, m, k), e) == CallShare(x, c, e, m, k);
      AddShare(x.fs[m].calls[k], x.outEvent, PassingEntries(x.fs, c, done, m, k), e, CallShares(x, c, m, k));
    }
  }

  /** Member `m` while `_integrate_cycle_function` works through its calls
      for the entry `e`: the calls of `passed` already hold the share of
      `e`. */
  ghost function Mixed(x: IntegrableInput, c: nat, done: set<FunctionId>, e: FunctionId, m: FunctionId, passed: set<FunctionId>): Function
    requires InCycle(x.fs, m, c)
  {
    Holding(x.fs[m], x.outEvent, MemberAcc(x, c, done, m), Blend(DistTable(x, c, done, m), DistTable(x, c, done + {e}, m), passed))
  }

  lemma MixedNone(x: IntegrableInput, c: nat, done: set<FunctionId>, e: FunctionId, m: FunctionId)
    requires InCycle(x.fs, m, c)
    ensures Mixed(x, c, done, e, m, {}) == DistMember(x, c, done, m)
  {
    BlendNone(DistTable(x, c, done, m), DistTable(x, c, done + {e}, m));
  }

  /** Adding `v` to the call to `k` of a function holding the table `t`
      leaves it holding `t` with `v` added at `k`. */
  lemma AddedAt(fn: Function, out: Event, w: real, t: map<FunctionId, Call>, k: FunctionId, v: real)
    requires k in t
    ensures AddCallOut(Holding(fn, out, w, t), k, out, v) == Holding(fn, out, w, t[k := AddOut(t[k], out, v)])
  {
  }

  /** Two call tables that agree everywhere are one. */
  lemma SameTable(a: map<FunctionId, Call>, b: map<FunctionId, Call>)
    requires a.Keys == b.Keys
    requires forall j :: j in a ==> a[j] == b[j]
    ensures a == b
  {
  }

  /** One more call of `m` takes the share of `e`: a forward call for
      `e` has the share added, any other call is left alone. */
  lemma MixedStep(x: IntegrableInput, c: nat, done: set<FunctionId>, e: FunctionId, m: FunctionId, passed: set<FunctionId>, k: FunctionId)
    requires Fresh(x) && InCycle(x.fs, m, c) && k in x.fs[m].calls && k !in passed
    requires e in Entries(x.fs, c) && e !in done
    ensures Forward(x.fs, c, EntryRanks(x.fs, c, e), m, k) ==>
      Mixed(x, c, done, e, m, passed + {k}) == AddCallOut(Mixed(x, c, done, e, m, passed), k, x.outEvent, CallShare(x, c, e, m, k))
    ensures !Forward(x.fs, c, EntryRanks(x.fs, c, e), m, k) ==>
      Mixed(x, c, done, e, m, passed + {k}) == Mixed(x, c, done, e, m, passed)
  {
    DistCallStep(x, c, done, e, m, k);
    var a, b := DistTable(x, c, done, m), DistTable(x, c, done + {e}, m);
    assert a[k] == DistCall(x, c, done, m, k) && b[k] == DistCall(x, c, done + {e}, m, k);
    if Forward(x.fs, c, EntryRanks(x.fs, c, e), m, k) {
      MixedAdded(x.fs[m], x.outEvent, MemberAcc(x, c, done, m), a, b, passed, k, CallShare(x, c, e, m, k));
    } else {
      MixedKept(x.fs[m], x.outEvent, MemberAcc(x, c, done, m), a, b, passed, k);
    }
  }

  /** Taking the entry at `k` from `b` adds `v` to the call to `k` when
      `b` holds `a`'s entry with `v` added. */
  lemma MixedAdded(fn: Function, out: Event, w: real, a: map<FunctionId, Call>, b: map<FunctionId, Call>,
                   passed: set<FunctionId>, k: FunctionId, v: real)
    requires a.Keys == b.Keys && k in a && k !in passed && b[k] == AddOut(a[k], out, v)
    ensures Holding(fn, out, w, Blend(a, b, passed + {k})) == AddCallOut(Holding(fn, out, w, Blend(a, b, passed)), k, out, v)
  {
    BlendStep(a, b, passed, k);
    AddedAt(fn, out, w, Blend(a, b, passed), k, v);
  }

  /** Taking the entry at `k` from `b` changes nothing when both agree. */
  lemma MixedKept(fn: Function, out: Event, w: real, a: map<FunctionId, Call>, b: map<FunctionId, Call>,
                  passed: set<FunctionId>, k: FunctionId)
    requires a.Keys == b.Keys && k in a && k !in passed && b[k] == a[k]
    ensures Holding(fn, out, w, Blend(a, b, passed + {k})) == Holding(fn, out, w, Blend(a, b, passed))
  {
    BlendStep(a, b, passed, k);
    assert Blend(a, b, passed)[k := b[k]] == Blend(a, b, passed);
  }

  /** Once every call of `m` holds the share of `e`, adding the share of
      `m` itself leaves `m` distributed for `e` as well. */
  lemma MixedFinal(x: IntegrableInput, c: nat, done: set<FunctionId>, e: FunctionId, m: FunctionId)
    requires InCycle(x.fs, m, c)
    requires e in Entries(x.fs, c) && e !in done
    ensures AddFunctionOut(Mixed(x, c, done, e, m, x.fs[m].calls.Keys), x.outEvent, EntryShare(x, c, e, m)) == DistMember(x, c, done + {e}, m)
  {
    var a, b := DistTable(x, c, done, m), DistTable(x, c, done + {e}, m);
    BlendAll(a, b, x.fs[m].calls.Keys);
    MemberAccStep(x, c, done, e, m);
    FinalGlue(x.fs[m], x.outEvent, MemberAcc(x, c, done, m), EntryShare(x, c, e, m), MemberAcc(x, c, done + {e}, m), b, b);
  }

  /** Adding `v` to a function holding `w` leaves it holding `w + v`. */
  lemma FinalGlue(fn: Function, out: Event, w: real, v: real, w': real, a: map<FunctionId, Call>, b: map<FunctionId, Call>)
    requires w' == w + v && a == b
    ensures AddFunctionOut(Holding(fn, out, w, a), out, v) == Holding(fn, out, w', b)
  {
    assert fn.events[out := w][out := w + v] == fn.events[out := w + v];
  }
}
