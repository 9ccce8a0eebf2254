/** Tables that add up, per callee, the ratios of a set of calls into it:
    the `callees` and `call_ratios` dictionaries of `_integrate_cycle`
    (gprof2dot.py:590-600 and 674-683). A table is described by the calls
    it has taken in so far. */
module CallTables {
  import opened Entities
  import opened Sums

  /** The ratio of the call `f -> k`, 0 where there is none. */
  function RatioInto(fs: map<FunctionId, Function>, k: FunctionId): map<FunctionId, real>
  {
    map f | f in fs :: if k in fs[f].calls && fs[f].calls[k].ratio.Some? then fs[f].calls[k].ratio.value else 0.0
  }

  /** `g` is one of the callers `who` records for `k`. */
  ghost predicate HasCaller(who: map<FunctionId, set<FunctionId>>, g: FunctionId, k: FunctionId)
  {
    k in who && g in who[k]
  }

  /** `t` holds, for every callee `who` records and for nothing else, the
      ratios of the calls from its recorded callers added up. */
  ghost predicate TableOf(fs: map<FunctionId, Function>, who: map<FunctionId, set<FunctionId>>, t: map<FunctionId, real>)
  {
    && t.Keys == who.Keys
    && (forall k {:trigger EntryOf(fs, who, t, k)} :: k in t ==> EntryOf(fs, who, t, k))
  }

  /** The entry of `t` for `k` adds up the ratios of the calls recorded
      into `k`, of which there is at least one. */
  ghost predicate EntryOf(fs: map<FunctionId, Function>, who: map<FunctionId, set<FunctionId>>, t: map<FunctionId, real>, k: FunctionId)
  {
    k in t && k in who && who[k] != {} && t[k] == SumSet(who[k], RatioInto(fs, k))
  }

  /** `t[k] += v`, where a missing `k` starts from 0. */
  function Bump(t: map<FunctionId, real>, k: FunctionId, v: real): (r: map<FunctionId, real>)
    ensures r.Keys == t.Keys + {k}
  {
    t[k := (if k in t then t[k] else 0.0) + v]
  }

  /** `who` with `g` recorded as a caller of `k`. */
  ghost function AddCaller(who: map<FunctionId, set<FunctionId>>, k: FunctionId, g: FunctionId): map<FunctionId, set<FunctionId>>
  {
    who[k := (if k in who then who[k] else {}) + {g}]
  }

  lemma AddCallerMeaning(who: map<FunctionId, set<FunctionId>>, k: FunctionId, g: FunctionId)
    ensures forall a, b :: HasCaller(AddCaller(who, k, g), a, b) <==> HasCaller(who, a, b) || (a == g && b == k)
  {
  }

  lemma TableEmpty(fs: map<FunctionId, Function>)
    ensures TableOf(fs, map[], map[])
  {
  }

  /** Taking in one more call adds its ratio to its callee's entry. */
  lemma TableAdd(fs: map<FunctionId, Function>, who: map<FunctionId, set<FunctionId>>, t: map<FunctionId, real>, g: FunctionId, k: FunctionId)
    requires TableOf(fs, who, t) && !HasCaller(who, g, k)
    ensures TableOf(fs, AddCaller(who, k, g), Bump(t, k, At(RatioInto(fs, k), g)))
  {
    if k in who {
      assert EntryOf(fs, who, t, k);
    }
    EntryAdded(fs, who, t, g, k);
    TableFrame(fs, who, t, AddCaller(who, k, g), Bump(t, k, At(RatioInto(fs, k), g)), k);
  }

  /** A table that gains an entry for `k` and agrees with `t` elsewhere. */
  lemma TableFrame(fs: map<FunctionId, Function>, who: map<FunctionId, set<FunctionId>>, t: map<FunctionId, real>,
                   who': map<FunctionId, set<FunctionId>>, t': map<FunctionId, real>, k: FunctionId)
    requires TableOf(fs, who, t) && EntryOf(fs, who', t', k)
    requires who'.Keys == who.Keys + {k} && t'.Keys == t.Keys + {k}
    requires forall j :: j in who && j != k ==> who'[j] == who[j]
    requires forall j :: j in t && j != k ==> t'[j] == t[j]
    ensures TableOf(fs, who', t')
  {
    forall j | j in t'
      ensures EntryOf(fs, who', t', j)
    {
      if j != k {
        assert EntryOf(fs, who, t, j);
        EntryFrame(fs, who, t, who', t', j);
      }
    }
  }

  lemma EntryAdded(fs: map<FunctionId, Function>, who: map<FunctionId, set<FunctionId>>, t: map<FunctionId, real>, g: FunctionId, k: FunctionId)
    requires k in who ==> EntryOf(fs, who, t, k)
    requires k !in who ==> k !in t
    requires !HasCaller(who, g, k)
    ensures EntryOf(fs, AddCaller(who, k, g), Bump(t, k, At(RatioInto(fs, k), g)), k)
  {
    var r := RatioInto(fs, k);
    if k in who {
      SumAdd(who[k], r, g);
    } else {
      SumSingle({g}, r, g);
    }
  }

  /** An entry holds in any table that agrees with `t` on it. */
  lemma EntryFrame(fs: map<FunctionId, Function>, who: map<FunctionId, set<FunctionId>>, t: map<FunctionId, real>,
                   who': map<FunctionId, set<FunctionId>>, t': map<FunctionId, real>, j: FunctionId)
    requires EntryOf(fs, who, t, j) && j in who' && j in t' && who'[j] == who[j] && t'[j] == t[j]
    ensures EntryOf(fs, who', t', j)
  {
  }
}
