/** Sums of real-valued terms over a finite set, in no particular order.
    The Python loops add up costs over dictionaries in insertion order;
    with exact reals the order does not matter, which the lemmas here
    establish. */
module Sums {

  /** The term at `x`: nothing when `x` has no entry. */
  function At<T>(f: map<T, real>, x: T): real
  {
    if x in f then f[x] else 0.0
  }

  ghost function SumSet<T>(s: set<T>, f: map<T, real>): real
  {
    if s == {} then 0.0 else var x :| x in s; At(f, x) + SumSet(s - {x}, f)
  }

  /** Any element can be taken out first. */
  lemma {:induction false} SumRemove<T>(s: set<T>, f: map<T, real>, y: T)
    requires y in s
    ensures SumSet(s, f) == At(f, y) + SumSet(s - {y}, f)
  {
    var x :| x in s && SumSet(s, f) == At(f, x) + SumSet(s - {x}, f);
    if x != y {
      SumRemove(s - {x}, f, y);
      SumRemove(s - {y}, f, x);
      assert s - {x} - {y} == s - {y} - {x};
    }
  }

  lemma SumAdd<T>(s: set<T>, f: map<T, real>, y: T)
    requires y !in s
    ensures SumSet(s + {y}, f) == SumSet(s, f) + At(f, y)
  {
    SumRemove(s + {y}, f, y);
    assert s + {y} - {y} == s;
  }

  /** `acc` is `base` plus the terms of `s`. */
  ghost predicate RunningSum<T>(acc: real, base: real, s: set<T>, f: map<T, real>)
  {
    acc == base + SumSet(s, f)
  }

  /** A running total over `s`, on top of `base`, grown by the term of `y`. */
  lemma SumAddTo<T>(s: set<T>, f: map<T, real>, y: T, base: real, acc: real, add: real)
    requires y !in s && RunningSum(acc, base, s, f) && add == At(f, y)
    ensures RunningSum(acc + add, base, s + {y}, f)
  {
    SumAdd(s, f, y);
  }

  /** Moving one element from the set still to visit to the set visited
      keeps the two splitting `all`. */
  lemma TakeOne<T>(all: set<T>, todo: set<T>, passed: set<T>, y: T)
    requires todo <= all && passed == all - todo && y in todo
    ensures todo - {y} <= all && passed + {y} == all - (todo - {y}) && y !in passed
  {
  }

  /** Once nothing is left to visit, everything is visited. */
  lemma AllTaken<T>(all: set<T>, todo: set<T>, passed: set<T>)
    requires passed == all - todo && todo == {}
    ensures passed == all
  {
  }

  lemma {:induction false} SumExt<T>(s: set<T>, f: map<T, real>, g: map<T, real>)
    requires forall x :: x in s ==> At(f, x) == At(g, x)
    ensures SumSet(s, f) == SumSet(s, g)
  {
    if s != {} {
      var x :| x in s;
      SumRemove(s, f, x);
      SumRemove(s, g, x);
      SumExt(s - {x}, f, g);
    }
  }

  lemma {:induction false} SumZero<T>(s: set<T>, f: map<T, real>)
    requires forall x :: x in s ==> At(f, x) == 0.0
    ensures SumSet(s, f) == 0.0
  {
    if s != {} {
      var x :| x in s;
      SumRemove(s, f, x);
      SumZero(s - {x}, f);
    }
  }

  lemma {:induction false} SumNonneg<T>(s: set<T>, f: map<T, real>)
    requires forall x :: x in s ==> At(f, x) >= 0.0
    ensures SumSet(s, f) >= 0.0
  {
    if s != {} {
      var x :| x in s;
      SumRemove(s, f, x);
      SumNonneg(s - {x}, f);
    }
  }

  /** A term that is zero everywhere but at `y` sums to its value at `y`. */
  lemma SumSingle<T>(s: set<T>, f: map<T, real>, y: T)
    requires forall x :: x in s && x != y ==> At(f, x) == 0.0
    ensures SumSet(s, f) == if y in s then At(f, y) else 0.0
  {
    if y in s {
      SumRemove(s, f, y);
      SumZero(s - {y}, f);
    } else {
      SumZero(s, f);
    }
  }

  lemma {:induction false} SumUnion<T>(a: set<T>, b: set<T>, f: map<T, real>)
    requires a !! b
    ensures SumSet(a + b, f) == SumSet(a, f) + SumSet(b, f)
  {
    if b != {} {
      var y :| y in b;
      SumRemove(b, f, y);
      SumRemove(a + b, f, y);
      assert a + b - {y} == a + (b - {y});
      SumUnion(a, b - {y}, f);
    } else {
      assert a + b == a;
    }
  }

  /** Terms that are zero outside a subset do not change the sum. */
  lemma SumSubsetZero<T>(a: set<T>, b: set<T>, f: map<T, real>)
    requires a <= b
    requires forall x :: x in b && x !in a ==> At(f, x) == 0.0
    ensures SumSet(b, f) == SumSet(a, f)
  {
    SumUnion(a, b - a, f);
    SumZero(b - a, f);
    assert a + (b - a) == b;
  }

  lemma {:induction false} SumPlus<T>(s: set<T>, f: map<T, real>, g: map<T, real>, h: map<T, real>)
    requires forall x :: x in s ==> At(h, x) == At(f, x) + At(g, x)
    ensures SumSet(s, h) == SumSet(s, f) + SumSet(s, g)
  {
    if s != {} {
      var x :| x in s;
      SumRemove(s, f, x);
      SumRemove(s, g, x);
      SumRemove(s, h, x);
      SumPlus(s - {x}, f, g, h);
    }
  }

  /** Over `s`, every entry of `g` is `c` times the entry of `f`. */
  ghost predicate Scaled<T>(s: set<T>, c: real, f: map<T, real>, g: map<T, real>)
  {
    s <= f.Keys && s <= g.Keys && forall x :: x in s ==> g[x] == c * f[x]
  }

  lemma {:induction false} SumScale<T>(s: set<T>, c: real, f: map<T, real>, g: map<T, real>)
    requires Scaled(s, c, f, g)
    ensures SumSet(s, g) == c * SumSet(s, f)
  {
    if s != {} {
      var x :| x in s;
      assert Scaled(s - {x}, c, f, g);
      SumScale(s - {x}, c, f, g);
      ScaledAt(s, c, f, g, x);
      SumRemove(s, f, x);
      SumRemove(s, g, x);
      SumScaleStep(s, c, f, g, x);
    }
  }

  lemma {:induction false} SumScaleStep<T>(s: set<T>, c: real, f: map<T, real>, g: map<T, real>, x: T)
    requires x in s && At(g, x) == c * At(f, x)
    requires SumSet(s - {x}, g) == c * SumSet(s - {x}, f)
    requires SumSet(s, f) == At(f, x) + SumSet(s - {x}, f)
    requires SumSet(s, g) == At(g, x) + SumSet(s - {x}, g)
    ensures SumSet(s, g) == c * SumSet(s, f)
  {
    Distribute(c, At(f, x), SumSet(s - {x}, f));
  }

  lemma {:induction false} ScaledAt<T>(s: set<T>, c: real, f: map<T, real>, g: map<T, real>, x: T)
    requires Scaled(s, c, f, g) && x in s
    ensures At(g, x) == c * At(f, x)
  {
  }

  lemma Distribute(c: real, a: real, b: real)
    ensures c * (a + b) == c * a + c * b
  {
  }

  /** A total is at least each of its non-negative terms. */
  lemma SumAtLeastTerm<T>(s: set<T>, g: map<T, real>, y: T)
    requires y in s && forall x :: x in s ==> At(g, x) >= 0.0
    ensures SumSet(s, g) >= At(g, y)
  {
    SumRemove(s, g, y);
    SumNonneg(s - {y}, g);
  }

  /** `SumScale` with both sums named: `b` is `c` times `a`. */
  lemma SumScaleTo<T>(s: set<T>, c: real, f: map<T, real>, g: map<T, real>, a: real, b: real)
    requires Scaled(s, c, f, g) && a == SumSet(s, f) && b == SumSet(s, g)
    ensures b == c * a
  {
    SumScale(s, c, f, g);
  }

  /** Terms scaled by the inverse of their total add up to 1. */
  lemma SumOfShares<T>(s: set<T>, terms: map<T, real>, share: map<T, real>, t: real)
    requires t > 0.0 && SumSet(s, terms) == t && Scaled(s, 1.0 / t, terms, share)
    ensures SumSet(s, share) == 1.0
  {
    SumScale(s, 1.0 / t, terms, share);
    assert (1.0 / t) * t == 1.0;
  }
}
