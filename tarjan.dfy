/** Tarjan's strongly connected components search behind
    `Profile.find_cycles` (gprof2dot.py:330-343, 437-482). The search state
    that `_tarjan` threads through its calls (the visit counter, the stack and
    the per-vertex `_TarjanData`) is a value here, and the components of more
    than one vertex are handed back in the order they are found; the profile
    turns each into a `Cycle` (see `Profiles.Profile.FindCycles`). */
module Tarjan {
  import opened Graphs

  /** `_TarjanData`: when the vertex was visited, the lowest visit order it
      is known to reach on the stack, and whether it is on the stack. */
  datatype Mark = Mark(order: nat, lowlink: nat, onstack: bool)

  /** The state of the search: the next visit order, the stack, the marks of
      the visited vertices and the components of more than one vertex found
      so far, each in stack order. */
  datatype Search = Search(order: nat, stack: seq<Vertex>, data: map<Vertex, Mark>, found: seq<seq<Vertex>>)

  function Min(a: nat, b: nat): nat
  {
    if a < b then a else b
  }

  /** `func_data.lowlink = min(func_data.lowlink, low)`. */
  function Lower(s: Search, v: Vertex, low: nat): Search
    requires v in s.data
  {
    s.(data := s.data[v := s.data[v].(lowlink := Min(s.data[v].lowlink, low))])
  }

  lemma LowerUnchanged(s: Search, v: Vertex, low: nat)
    requires v in s.data && s.data[v].lowlink <= low
    ensures Lower(s, v, low) == s
  {
    assert s.data[v := s.data[v]] == s.data;
  }

  /** The marks after the members of a finished component leave the stack. */
  function Unstacked(data: map<Vertex, Mark>, members: seq<Vertex>): map<Vertex, Mark>
  {
    map x | x in data :: if x in members then data[x].(onstack := false) else data[x]
  }

  /** The end of a visit whose vertex, at stack position `pos`, is the root
      of its component: everything from `pos` up leaves the stack, and is
      recorded as a component when it has more than one member. */
  function Popped(s: Search, pos: nat): Search
    requires pos <= |s.stack|
  {
    var members := s.stack[pos..];
    s.(stack := s.stack[..pos], data := Unstacked(s.data, members),
       found := if |members| > 1 then s.found + [members] else s.found)
  }

  /** The set of vertices listed in `c`. */
  function Members(c: seq<Vertex>): set<Vertex>
  {
    set x | x in c
  }

  predicate Distinct(c: seq<Vertex>)
  {
    forall a, b :: 0 <= a < b < |c| ==> c[a] != c[b]
  }

  /** A list without repeats has as many members as entries. */
  lemma {:induction false} DistinctCard(c: seq<Vertex>)
    requires Distinct(c)
    ensures |Members(c)| == |c|
  {
    if c != [] {
      var t := c[..|c| - 1];
      assert Distinct(t);
      DistinctCard(t);
      assert c[|c| - 1] !in Members(t);
      assert Members(c) == Members(t) + {c[|c| - 1]};
    } else {
      assert Members(c) == {};
    }
  }

  /** Every member of `c` reaches every other. */
  ghost predicate StronglyConnected(g: Graph, c: seq<Vertex>)
  {
    forall x, y :: x in c && y in c ==> Reaches(g, x, y)
  }

  /** Every component found has at least two members, no repeats, and is
      strongly connected. */
  ghost predicate FoundSound(g: Graph, found: seq<seq<Vertex>>)
  {
    forall k :: 0 <= k < |found| ==> |found[k]| > 1 && Distinct(found[k]) && StronglyConnected(g, found[k])
  }

  /** Every member of a component found has a partner in it, another vertex
      that it reaches and that reaches it back; so a vertex whose only
      recursion is a call to itself is in no component. */
  lemma FoundPartner(g: Graph, found: seq<seq<Vertex>>, k: nat, f: Vertex) returns (h: Vertex)
    requires FoundSound(g, found) && k < |found| && f in found[k]
    ensures h in found[k] && h != f && Reaches(g, f, h) && Reaches(g, h, f)
  {
    var c := found[k];
    h := if c[0] == f then c[1] else c[0];
  }

  /** No vertex is in two components. */
  ghost predicate FoundDisjoint(found: seq<seq<Vertex>>)
  {
    forall i, j, x :: 0 <= i < j < |found| && x in found[i] ==> x !in found[j]
  }

  // The invariant of the search, conjunct by conjunct.

  /** The stack holds exactly the visited vertices marked `onstack`. */
  ghost predicate Marked(s: Search)
  {
    && (forall i :: 0 <= i < |s.stack| ==> s.stack[i] in s.data && s.data[s.stack[i]].onstack)
    && (forall x :: x in s.data && s.data[x].onstack ==> x in s.stack)
  }

  /** Visit orders lie below the counter and grow up the stack. */
  ghost predicate Ordered(g: Graph, s: Search)
  {
    && s.data.Keys <= g.Keys
    && (forall x :: x in s.data ==> s.data[x].order < s.order)
    && (forall i, j :: 0 <= i < j < |s.stack| && s.stack[i] in s.data && s.stack[j] in s.data ==>
          s.data[s.stack[i]].order < s.data[s.stack[j]].order)
  }

  /** The lowlink of every stack vertex is the visit order of a vertex at
      or below it on the stack that it reaches; `via` gives that vertex's
      stack position. */
  ghost predicate Witnessed(g: Graph, s: Search, via: map<Vertex, nat>)
  {
    forall i :: 0 <= i < |s.stack| ==> WitnessAt(g, s, via, i)
  }

  ghost predicate WitnessAt(g: Graph, s: Search, via: map<Vertex, nat>, i: nat)
  {
    && i < |s.stack| && s.stack[i] in via && via[s.stack[i]] <= i
    && s.stack[i] in s.data && s.stack[via[s.stack[i]]] in s.data
    && s.data[s.stack[via[s.stack[i]]]].order == s.data[s.stack[i]].lowlink
    && Reaches(g, s.stack[i], s.stack[via[s.stack[i]]])
  }

  /** Each stack vertex reaches every vertex above it. */
  ghost predicate Upward(g: Graph, stack: seq<Vertex>)
  {
    forall i, j :: 0 <= i < j < |stack| ==> Reaches(g, stack[i], stack[j])
  }

  /** The members of the components found are visited and off the stack. */
  ghost predicate FoundOff(s: Search)
  {
    forall k, x :: 0 <= k < |s.found| && x in s.found[k] ==> x in s.data && !s.data[x].onstack
  }

  ghost predicate Inv(g: Graph, s: Search, via: map<Vertex, nat>)
  {
    && Marked(s) && Ordered(g, s) && Witnessed(g, s, via) && Upward(g, s.stack)
    && FoundSound(g, s.found) && FoundDisjoint(s.found) && FoundOff(s)
  }

  /** Every vertex of `stack` reaches `v`. */
  ghost predicate AllReach(g: Graph, stack: seq<Vertex>, v: Vertex)
  {
    forall i :: 0 <= i < |stack| ==> Reaches(g, stack[i], v)
  }

  /** `s` is a later state of the same visit as `st`: earlier marks are kept,
      later ones are numbered from `st.order` on, and the stack and the
      components found only grow on top of what they were. */
  ghost predicate Extends(st: Search, s: Search)
  {
    && st.order <= s.order
    && st.data.Keys <= s.data.Keys
    && (forall x :: x in st.data ==> s.data[x] == st.data[x])
    && (forall x :: x in s.data && x !in st.data ==> s.data[x].order >= st.order)
    && |st.stack| <= |s.stack| && s.stack[..|st.stack|] == st.stack
    && |st.found| <= |s.found| && s.found[..|st.found|] == st.found
  }

  lemma ExtendsTrans(s0: Search, s1: Search, s2: Search)
    requires Extends(s0, s1) && Extends(s1, s2)
    ensures Extends(s0, s2)
  {
    assert s2.stack[..|s0.stack|] == s2.stack[..|s1.stack|][..|s0.stack|];
    assert s2.found[..|s0.found|] == s2.found[..|s1.found|][..|s0.found|];
  }

  /** `_tarjan`'s first steps on `v`: number it and push it. */
  function Push(s: Search, v: Vertex): Search
  {
    s.(order := s.order + 1, stack := s.stack + [v], data := s.data[v := Mark(s.order, s.order, true)])
  }

  lemma PushMarked(s: Search, v: Vertex)
    requires Marked(s) && v !in s.data
    ensures Marked(Push(s, v))
  {
  }

  lemma PushOrdered(g: Graph, s: Search, v: Vertex)
    requires Marked(s) && Ordered(g, s) && v in g && v !in s.data
    ensures Ordered(g, Push(s, v))
  {
    var s' := Push(s, v);
    forall i, j | 0 <= i < j < |s'.stack|
      ensures s'.data[s'.stack[i]].order < s'.data[s'.stack[j]].order
    {
      assert s'.stack[i] == s.stack[i] && s.stack[i] in s.data;
      if j < |s.stack| {
        assert s'.stack[j] == s.stack[j] && s.stack[j] in s.data;
      }
    }
  }

  lemma PushWitnessed(g: Graph, s: Search, via: map<Vertex, nat>, v: Vertex)
    requires Marked(s) && Witnessed(g, s, via) && v !in s.data
    ensures Witnessed(g, Push(s, v), via[v := |s.stack|])
  {
    ReachesRefl(g, v);
    var s' := Push(s, v);
    var via' := via[v := |s.stack|];
    forall i | 0 <= i < |s'.stack|
      ensures WitnessAt(g, s', via', i)
    {
      if i < |s.stack| {
        assert WitnessAt(g, s, via, i);
        var k := via[s.stack[i]];
        assert s'.stack[i] == s.stack[i] && s'.stack[k] == s.stack[k];
        assert s.stack[i] in s.data;
      }
    }
  }

  lemma PushUpward(g: Graph, stack: seq<Vertex>, v: Vertex)
    requires Upward(g, stack) && AllReach(g, stack, v)
    ensures Upward(g, stack + [v])
  {
  }

  /** Pushing a fresh vertex that every stack vertex reaches keeps the
      invariant. */
  lemma PushKeepsInv(g: Graph, s: Search, via: map<Vertex, nat>, v: Vertex)
    requires Inv(g, s, via) && v in g && v !in s.data && AllReach(g, s.stack, v)
    ensures Inv(g, Push(s, v), via[v := |s.stack|])
  {
    PushMarked(s, v);
    PushOrdered(g, s, v);
    PushWitnessed(g, s, via, v);
    PushUpward(g, s.stack, v);
  }

  /** Stack vertices are distinct, as their orders grow. */
  lemma StackDistinct(g: Graph, s: Search)
    requires Marked(s) && Ordered(g, s)
    ensures Distinct(s.stack)
  {
    forall a, b | 0 <= a < b < |s.stack|
      ensures s.stack[a] != s.stack[b]
    {
      assert s.data[s.stack[a]].order < s.data[s.stack[b]].order;
    }
  }

  lemma LowerWitnessed(g: Graph, s: Search, via: map<Vertex, nat>, p: nat, j: nat)
    requires Witnessed(g, s, via) && Distinct(s.stack)
    requires j <= p < |s.stack| && s.stack[j] in s.data && s.stack[p] in s.data
    requires Reaches(g, s.stack[p], s.stack[j])
    ensures
      var low := s.data[s.stack[j]].order;
      Witnessed(g, Lower(s, s.stack[p], low), if low < s.data[s.stack[p]].lowlink then via[s.stack[p] := j] else via)
  {
    var v := s.stack[p];
    var low := s.data[s.stack[j]].order;
    var s' := Lower(s, v, low);
    var via' := if low < s.data[v].lowlink then via[v := j] else via;
    assert s'.stack == s.stack;
    forall x | x in s.data
      ensures x in s'.data && s'.data[x].order == s.data[x].order
      ensures x != v ==> s'.data[x] == s.data[x]
    {
    }
    forall i | 0 <= i < |s.stack|
      ensures WitnessAt(g, s', via', i)
    {
      assert WitnessAt(g, s, via, i);
      if i != p {
        assert s.stack[i] != v;
        assert via'[s.stack[i]] == via[s.stack[i]];
      }
    }
  }

  /** Lowering the lowlink of the stack vertex at `p` to the order of a
      vertex at or below it that it reaches keeps the invariant. */
  lemma LowerKeepsInv(g: Graph, s: Search, via: map<Vertex, nat>, p: nat, j: nat)
    requires Inv(g, s, via)
    requires j <= p < |s.stack| && Reaches(g, s.stack[p], s.stack[j])
    ensures
      var low := s.data[s.stack[j]].order;
      Inv(g, Lower(s, s.stack[p], low), if low < s.data[s.stack[p]].lowlink then via[s.stack[p] := j] else via)
  {
    StackDistinct(g, s);
    LowerWitnessed(g, s, via, p, j);
    var s' := Lower(s, s.stack[p], s.data[s.stack[j]].order);
    assert Marked(s');
    assert Ordered(g, s');
    assert FoundOff(s');
  }

  /** A child left on the stack has a lowlink witness that was on the stack
      before the child was visited. */
  lemma ChildLeftOnStack(g: Graph, s: Search, s1: Search, via1: map<Vertex, nat>, w: Vertex)
    requires Inv(g, s1, via1)
    requires |s.stack| < |s1.stack| && s1.stack[..|s.stack|] == s.stack && s1.stack[|s.stack|] == w
    requires s1.data[w].lowlink < s1.data[w].order
    ensures w in via1 && via1[w] < |s.stack| && Reaches(g, w, s.stack[via1[w]])
  {
    assert WitnessAt(g, s1, via1, |s.stack|);
    assert s1.stack[via1[w]] == s.stack[via1[w]];
  }

  /** After a child visit, everything on the stack still reaches `v`. */
  lemma ReachAfterChild(g: Graph, s: Search, s1: Search, via1: map<Vertex, nat>, v: Vertex, w: Vertex)
    requires Inv(g, s1, via1) && AllReach(g, s.stack, v) && AllReach(g, s1.stack, w)
    requires |s.stack| <= |s1.stack| && s1.stack[..|s.stack|] == s.stack
    requires |s1.stack| > |s.stack| ==> s1.stack[|s.stack|] == w && s1.data[w].lowlink < s1.data[w].order
    ensures AllReach(g, s1.stack, v)
  {
    if |s1.stack| > |s.stack| {
      ChildLeftOnStack(g, s, s1, via1, w);
      ReachesTrans(g, w, s.stack[via1[w]], v);
    }
    forall i | 0 <= i < |s1.stack|
      ensures Reaches(g, s1.stack[i], v)
    {
      if i < |s.stack| {
        assert s1.stack[i] == s.stack[i];
      } else {
        ReachesTrans(g, s1.stack[i], w, v);
      }
    }
  }

  lemma PopMarked(g: Graph, s: Search, pos: nat)
    requires Marked(s) && Ordered(g, s) && pos <= |s.stack|
    ensures Marked(Popped(s, pos))
  {
    StackDistinct(g, s);
    var s' := Popped(s, pos);
    forall i | 0 <= i < pos
      ensures s.stack[i] !in s.stack[pos..]
    {
      forall j | pos <= j < |s.stack|
        ensures s.stack[j] != s.stack[i]
      {
      }
    }
    forall x | x in s'.data && s'.data[x].onstack
      ensures x in s'.stack
    {
      var j :| 0 <= j < |s.stack| && s.stack[j] == x;
      if j >= pos {
        assert false;
      }
      assert s'.stack[j] == x;
    }
  }

  lemma PopOrdered(g: Graph, s: Search, pos: nat)
    requires Ordered(g, s) && pos <= |s.stack|
    ensures Ordered(g, Popped(s, pos))
  {
    var s' := Popped(s, pos);
    forall i, j | 0 <= i < j < |s'.stack| && s'.stack[i] in s'.data && s'.stack[j] in s'.data
      ensures s'.data[s'.stack[i]].order < s'.data[s'.stack[j]].order
    {
      assert s'.stack[i] == s.stack[i] && s'.stack[j] == s.stack[j];
    }
  }

  lemma PopWitnessed(g: Graph, s: Search, via: map<Vertex, nat>, pos: nat)
    requires Witnessed(g, s, via) && pos <= |s.stack|
    ensures Witnessed(g, Popped(s, pos), via)
  {
    var s' := Popped(s, pos);
    forall i | 0 <= i < |s'.stack|
      ensures WitnessAt(g, s', via, i)
    {
      assert WitnessAt(g, s, via, i);
      assert s'.stack[i] == s.stack[i];
      assert s'.stack[via[s'.stack[i]]] == s.stack[via[s.stack[i]]];
    }
  }

  lemma PopUpward(g: Graph, stack: seq<Vertex>, pos: nat)
    requires Upward(g, stack) && pos <= |stack|
    ensures Upward(g, stack[..pos])
  {
  }

  /** The members popped from the root `v` of a component all reach `v`,
      and `v` reaches them all, so they form a strongly connected set. */
  lemma PoppedConnected(g: Graph, stack: seq<Vertex>, pos: nat)
    requires Upward(g, stack) && pos < |stack| && AllReach(g, stack, stack[pos])
    ensures StronglyConnected(g, stack[pos..])
  {
    var v := stack[pos];
    forall x, y | x in stack[pos..] && y in stack[pos..]
      ensures Reaches(g, x, y)
    {
      var i :| pos <= i < |stack| && stack[i] == x;
      var j :| pos <= j < |stack| && stack[j] == y;
      if j > pos {
        ReachesTrans(g, x, v, y);
      } else {
        assert y == v;
      }
    }
  }

  lemma PopFound(g: Graph, s: Search, pos: nat)
    requires Marked(s) && Ordered(g, s) && Upward(g, s.stack)
    requires FoundSound(g, s.found) && FoundDisjoint(s.found) && FoundOff(s)
    requires pos < |s.stack| && AllReach(g, s.stack, s.stack[pos])
    ensures FoundSound(g, Popped(s, pos).found) && FoundDisjoint(Popped(s, pos).found) && FoundOff(Popped(s, pos))
  {
    var members := s.stack[pos..];
    var s' := Popped(s, pos);
    if |members| > 1 {
      PoppedConnected(g, s.stack, pos);
      StackDistinct(g, s);
      assert Distinct(members);
      assert FoundSound(g, s'.found);
      forall i, j, x | 0 <= i < j < |s'.found| && x in s'.found[i]
        ensures x !in s'.found[j]
      {
        if j == |s.found| {
          assert !s.data[x].onstack;
        }
      }
    }
  }

  /** Popping the stack from the root of a component keeps the invariant. */
  lemma PopKeepsInv(g: Graph, s: Search, via: map<Vertex, nat>, pos: nat)
    requires Inv(g, s, via) && pos < |s.stack| && AllReach(g, s.stack, s.stack[pos])
    ensures Inv(g, Popped(s, pos), via)
  {
    PopMarked(g, s, pos);
    PopOrdered(g, s, pos);
    PopWitnessed(g, s, via, pos);
    PopUpward(g, s.stack, pos);
    PopFound(g, s, pos);
  }

  /** The vertex at the bottom of the stack is the root of its component. */
  lemma BottomIsRoot(g: Graph, s: Search, via: map<Vertex, nat>)
    requires Inv(g, s, via) && |s.stack| > 0
    ensures s.data[s.stack[0]].lowlink == s.data[s.stack[0]].order
  {
    assert WitnessAt(g, s, via, 0);
  }

  /** `for member in members: data[member.id].onstack = False`. */
  method Unstack(data: map<Vertex, Mark>, members: seq<Vertex>) returns (r: map<Vertex, Mark>)
    requires forall x :: x in members ==> x in data
    ensures r == Unstacked(data, members)
  {
    r := data;
    var i := 0;
    while i < |members|
      invariant 0 <= i <= |members|
      invariant r == Unstacked(data, members[..i])
    {
      assert members[..i + 1] == members[..i] + [members[i]];
      r := r[members[i] := r[members[i]].(onstack := false)];
      i := i + 1;
    }
    assert members[..i] == members;
  }

  /** `_tarjan` on a vertex not visited yet: it is numbered and pushed, each
      callee is visited in turn (or, when already on the stack, lowers the
      lowlink), and if the vertex turns out to be the root of its component,
      the component leaves the stack. The early return of `_tarjan` for a
      visited vertex is the caller's test. */
  method Visit(g: Graph, v: Vertex, st: Search, ghost via0: map<Vertex, nat>)
    returns (s: Search, ghost via: map<Vertex, nat>)
    requires ClosedUnder(g, g.Keys) && v in g && v !in st.data
    requires Inv(g, st, via0) && AllReach(g, st.stack, v)
    ensures Visited(g, st, s, via, v)
    decreases g.Keys - st.data.Keys, 1
  {
    var pos := |st.stack|;
    PushKeepsInv(g, st, via0, v);
    s := Push(st, v);
    via := via0[v := pos];
    ReachesRefl(g, v);
    var callees := g[v];
    while callees != {}
      invariant InVisit(g, st, s, via, v, pos) && callees <= g[v]
      decreases callees
    {
      var w :| w in callees;
      callees := callees - {w};
      s, via := VisitCallee(g, v, pos, w, st, s, via);
    }
    if s.data[v].lowlink == s.data[v].order {
      ghost var before := s;
      var members := s.stack[pos..];
      var data := Unstack(s.data, members);
      s := s.(stack := s.stack[..pos], data := data, found := if |members| > 1 then s.found + [members] else s.found);
      assert s == Popped(before, pos);
      RootVisited(g, st, before, via, v, pos);
    } else {
      StillStacked(g, st, s, via, v, pos);
    }
  }

  /** The outcome of visiting `v` from `st`: the invariant holds, earlier
      marks are kept, `v` is numbered `st.order` and everything on the stack
      reaches it; either `v` has left the stack as the root of its component
      (its lowlink is its order), or it stays above `st`'s stack with a lower
      lowlink. */
  ghost predicate Visited(g: Graph, st: Search, s: Search, via: map<Vertex, nat>, v: Vertex)
  {
    && Inv(g, s, via) && Extends(st, s)
    && v in s.data && s.data[v].order == st.order
    && AllReach(g, s.stack, v)
    && (|s.stack| == |st.stack| ==> s.data[v].lowlink == s.data[v].order)
    && (|s.stack| > |st.stack| ==> s.stack[|st.stack|] == v && s.data[v].lowlink < s.data[v].order)
  }

  /** A vertex whose lowlink is its own order pops its component. */
  lemma RootVisited(g: Graph, st: Search, s: Search, via: map<Vertex, nat>, v: Vertex, pos: nat)
    requires Marked(st) && Ordered(g, st)
    requires InVisit(g, st, s, via, v, pos) && s.data[v].lowlink == s.data[v].order
    ensures Visited(g, st, Popped(s, pos), via, v)
  {
    PopKeepsInv(g, s, via, pos);
    PoppedExtends(st, s, pos);
  }

  /** A vertex whose lowlink is below its order stays on the stack. */
  lemma StillStacked(g: Graph, st: Search, s: Search, via: map<Vertex, nat>, v: Vertex, pos: nat)
    requires InVisit(g, st, s, via, v, pos) && s.data[v].lowlink != s.data[v].order
    ensures Visited(g, st, s, via, v)
  {
    assert WitnessAt(g, s, via, pos);
  }

  /** Popping from position `|st.stack|` leaves the marks of `st` alone: the
      members were all numbered after `st`. */
  lemma PoppedExtends(st: Search, s: Search, pos: nat)
    requires Extends(st, s) && pos == |st.stack| < |s.stack|
    requires forall x :: x in st.data ==> st.data[x].order < st.order
    requires forall i :: pos <= i < |s.stack| ==> s.stack[i] in s.data && s.data[s.stack[i]].order >= st.order
    ensures Extends(st, Popped(s, pos))
  {
    var s' := Popped(s, pos);
    forall x | x in st.data
      ensures s'.data[x] == st.data[x]
    {
    }
  }

  /** The state inside the visit of `v`, which sits at stack position `pos`
      and was started from `st`. */
  ghost predicate InVisit(g: Graph, st: Search, s: Search, via: map<Vertex, nat>, v: Vertex, pos: nat)
  {
    && Inv(g, s, via) && Extends(st, s) && v !in st.data
    && v in s.data && s.data[v].order == st.order && pos == |st.stack| < |s.stack| && s.stack[pos] == v
    && AllReach(g, s.stack, v)
  }

  /** A callee still on the stack lowers `v`'s lowlink to its order. */
  lemma CalleeOnStack(g: Graph, st: Search, s: Search, via: map<Vertex, nat>, v: Vertex, pos: nat, w: Vertex)
    returns (via': map<Vertex, nat>)
    requires InVisit(g, st, s, via, v, pos) && w in Succ(g, v) && w in s.data && s.data[w].onstack
    ensures InVisit(g, st, Lower(s, v, s.data[w].order), via', v, pos)
  {
    var low := s.data[w].order;
    if low < s.data[v].lowlink {
      var j := OnStackPosition(g, st, s, via, v, pos, w);
      assert Inv(g, Lower(s, v, low), via[v := j]) by { LowerKeepsInv(g, s, via, pos, j); }
      via' := via[v := j];
    } else {
      LowerUnchanged(s, v, low);
      via' := via;
    }
    LowerInVisit(g, st, s, via, via', v, pos, low);
  }

  /** A callee on the stack whose order is below `v`'s lowlink sits below
      `v`, which reaches it. */
  lemma OnStackPosition(g: Graph, st: Search, s: Search, via: map<Vertex, nat>, v: Vertex, pos: nat, w: Vertex)
    returns (j: nat)
    requires InVisit(g, st, s, via, v, pos) && w in Succ(g, v) && w in s.data && s.data[w].onstack
    requires s.data[w].order < s.data[v].lowlink
    ensures j <= pos && Reaches(g, s.stack[pos], s.stack[j]) && s.data[s.stack[j]].order == s.data[w].order
  {
    j :| 0 <= j < |s.stack| && s.stack[j] == w;
    ReachesEdge(g, v, w);
    assert WitnessAt(g, s, via, pos);
  }

  /** A callee just visited lowers `v`'s lowlink to its own lowlink; if
      that is lower, the callee is still on the stack and its witness lies
      below `v`. */
  lemma CalleeVisited(g: Graph, st: Search, s0: Search, via0: map<Vertex, nat>, s: Search, via: map<Vertex, nat>,
                      v: Vertex, pos: nat, w: Vertex)
    returns (via': map<Vertex, nat>)
    requires InVisit(g, st, s0, via0, v, pos) && w in Succ(g, v) && w !in s0.data
    requires Visited(g, s0, s, via, w)
    ensures InVisit(g, st, Lower(s, v, s.data[w].lowlink), via', v, pos)
  {
    assert InVisit(g, st, s, via, v, pos) by { ChildReturned(g, st, s0, via0, s, via, v, pos, w); }
    var low := s.data[w].lowlink;
    if low < s.data[v].lowlink {
      var j := ChildWitness(g, st, s0, via0, s, via, v, pos, w);
      assert Inv(g, Lower(s, v, low), via[v := j]) by { LowerKeepsInv(g, s, via, pos, j); }
      via' := via[v := j];
    } else {
      LowerUnchanged(s, v, low);
      via' := via;
    }
    LowerInVisit(g, st, s, via, via', v, pos, low);
  }

  /** After the callee's visit the state is still inside the visit of `v`. */
  lemma ChildReturned(g: Graph, st: Search, s0: Search, via0: map<Vertex, nat>, s: Search, via: map<Vertex, nat>,
                      v: Vertex, pos: nat, w: Vertex)
    requires InVisit(g, st, s0, via0, v, pos)
    requires Visited(g, s0, s, via, w)
    ensures InVisit(g, st, s, via, v, pos)
  {
    ExtendsTrans(st, s0, s);
    assert s.stack[..pos] == s0.stack[..pos];
    ReachAfterChild(g, s0, s, via, v, w);
  }

  /** A callee whose lowlink is below `v`'s was left on the stack, and its
      lowlink witness sits at or below `v`, which reaches it. */
  lemma ChildWitness(g: Graph, st: Search, s0: Search, via0: map<Vertex, nat>, s: Search, via: map<Vertex, nat>,
                     v: Vertex, pos: nat, w: Vertex)
    returns (j: nat)
    requires InVisit(g, st, s0, via0, v, pos) && w in Succ(g, v) && w !in s0.data
    requires InVisit(g, st, s, via, v, pos) && Visited(g, s0, s, via, w)
    requires s.data[w].lowlink < s.data[v].lowlink
    ensures j <= pos && Reaches(g, s.stack[pos], s.stack[j]) && s.data[s.stack[j]].order == s.data[w].lowlink
  {
    assert WitnessAt(g, s, via, pos);
    ChildLeftOnStack(g, s0, s, via, w);
    j := via[w];
    ReachesStep(g, v, w, s.stack[j]);
    assert WitnessAt(g, s, via, |s0.stack|);
  }

  /** Lowering `v`'s lowlink, with an invariant kept by the new witnesses,
      stays inside the visit of `v`. */
  lemma LowerInVisit(g: Graph, st: Search, s: Search, via: map<Vertex, nat>, via': map<Vertex, nat>,
                     v: Vertex, pos: nat, low: nat)
    requires InVisit(g, st, s, via, v, pos) && Inv(g, Lower(s, v, low), via')
    ensures InVisit(g, st, Lower(s, v, low), via', v, pos)
  {
  }

  /** One turn of `_tarjan`'s loop over the calls of `v`, for the callee
      `w`: a callee on the stack lowers `v`'s lowlink to its order; a callee
      not yet visited is visited and lowers it to its own lowlink; a callee
      already finished is ignored. */
  method VisitCallee(g: Graph, v: Vertex, pos: nat, w: Vertex, st: Search, s0: Search, ghost via0: map<Vertex, nat>)
    returns (s: Search, ghost via: map<Vertex, nat>)
    requires ClosedUnder(g, g.Keys) && v in g && w in g[v]
    requires InVisit(g, st, s0, via0, v, pos)
    ensures InVisit(g, st, s, via, v, pos)
    decreases g.Keys - s0.data.Keys, 2
  {
    s, via := s0, via0;
    if w in s.data {
      if s.data[w].onstack {
        via := CalleeOnStack(g, st, s, via, v, pos, w);
        s := Lower(s, v, s.data[w].order);
      }
    } else {
      forall i | 0 <= i < |s.stack|
        ensures Reaches(g, s.stack[i], w)
      {
        ReachesEdge(g, v, w);
        ReachesTrans(g, s.stack[i], v, w);
      }
      s, via := Visit(g, w, s0, via0);
      via := CalleeVisited(g, st, s0, via0, s, via, v, pos, w);
      s := Lower(s, v, s.data[w].lowlink);
    }
  }

  /** `find_cycles`' outer loop: `_tarjan` from every vertex in turn. The
      components it returns are disjoint, have at least two members each,
      and each is strongly connected. */
  method Components(g: Graph) returns (found: seq<seq<Vertex>>)
    requires ClosedUnder(g, g.Keys)
    ensures FoundSound(g, found) && FoundDisjoint(found)
    ensures forall k, x :: 0 <= k < |found| && x in found[k] ==> x in g
  {
    var s := Search(0, [], map[], []);
    ghost var via: map<Vertex, nat> := map[];
    var todo := g.Keys;
    while todo != {}
      invariant Inv(g, s, via) && s.stack == []
      decreases todo
    {
      var v :| v in todo;
      todo := todo - {v};
      if v !in s.data {
        s, via := Visit(g, v, s, via);
        if |s.stack| > 0 {
          BottomIsRoot(g, s, via);
          assert false;
        }
      }
    }
    found := s.found;
  }
}
