/** Strong references: what marking follows, and how far it may spread. */
module GcReach {
  import opened GcState
  import opened GcMark
  import opened GcTrace
  import opened GcGrow

  // ----- Weak modes and strong references -----

  /** The weak mode that lgc.c `traversetable` finds in the metatable of `x`. */
  predicate ModeK(h: Heap, x: Id)
    requires x in h
  {
    h[x].Table? && h[x].mt.Ref? && h[x].mt.id in h && h[h[x].mt.id].Table? && h[h[x].mt.id].modeK
  }

  predicate ModeV(h: Heap, x: Id)
    requires x in h
  {
    h[x].Table? && h[x].mt.Ref? && h[x].mt.id in h && h[h[x].mt.id].Table? && h[h[x].mt.id].modeV
  }

  /** A non-empty entry of a table holds `y`, not counting halves that are weak. */
  predicate HoldsStrongly(n: Node, k: bool, v: bool, y: Id) {
    n.val != Nil && ((!k && n.key == Ref(y)) || (!v && n.val == Ref(y)))
  }

  /** `x` refers to `y` otherwise than by a weak half of a table. */
  predicate Refers(h: Heap, x: Id, y: Id)
    requires x in h
  {
    if h[x].Table? then
      || h[x].mt == Ref(y) || (!ModeV(h, x) && Ref(y) in h[x].arr)
      || exists n :: n in h[x].nodes && HoldsStrongly(n, ModeK(h, x), ModeV(h, x), y)
    else Points(h, x, y)
  }

  lemma RefersPoints(h: Heap, x: Id, y: Id)
    requires x in h && Refers(h, x, y)
    ensures Points(h, x, y) && Strong(h, x, y)
  {
  }

  /** A path of strong references from an object of `from`. */
  ghost predicate Way(h: Heap, from: set<Id>, p: seq<Id>) {
    && |p| > 0 && p[0] in from
    && forall i :: 0 <= i < |p| - 1 ==> p[i] in h && Refers(h, p[i], p[i + 1])
  }

  /** `x` can be reached from `from` without the weak halves of weak tables. */
  ghost predicate Reached(h: Heap, from: set<Id>, x: Id) {
    exists p :: Way(h, from, p) && p[|p| - 1] == x
  }

  // ----- Fences -----

  /** No strong reference leads out of `fence`. */
  ghost predicate Encloses(h: Heap, fence: set<Id>) {
    forall x, y :: x in fence && x in h && Refers(h, x, y) ==> y in fence
  }

  /** All marks are inside `fence`. */
  ghost predicate Fenced(s: State, fence: set<Id>) {
    Encloses(s.heap, fence) && forall x :: Marked(s, x) ==> x in fence
  }

  /** Marking from `s` to `t` has marked only what can be reached from `from` or from what was marked:
      it has stayed inside every fence around them. */
  ghost predicate Spread(s: State, t: State, from: set<Id>) {
    forall fence :: Fenced(s, fence) && from <= fence ==> Fenced(t, fence)
  }

  function Target(v: Value): set<Id> {
    if v.Ref? then {v.id} else {}
  }

  function Targets(vs: seq<Value>): set<Id> {
    set v | v in vs && v.Ref? :: v.id
  }

  lemma SpreadTrans(s: State, m: State, t: State, a: set<Id>, b: set<Id>)
    requires Spread(s, m, a) && Spread(m, t, b)
    ensures Spread(s, t, a + b)
  {
    hide Fenced;
  }

  lemma SpreadWider(s: State, t: State, a: set<Id>, b: set<Id>)
    requires Spread(s, t, a) && a <= b
    ensures Spread(s, t, b)
  {
    hide Fenced;
  }

  /** Colouring one object. */
  lemma SpreadOne(s: State, t: State, x: Id)
    requires t.heap == s.heap && forall z :: Marked(t, z) ==> Marked(s, z) || z == x
    ensures Spread(s, t, {x})
  {
  }

  /** Nothing is marked that was not. */
  lemma SpreadNone(s: State, t: State)
    requires t.heap == s.heap && forall z :: Marked(t, z) ==> Marked(s, z)
    ensures Spread(s, t, {})
  {
  }

  /** What a marked object refers to is inside every fence. */
  lemma SpreadFrom(s: State, t: State, x: Id, a: set<Id>)
    requires Spread(s, t, a) && Marked(s, x) && forall y :: y in a ==> Refers(s.heap, x, y)
    ensures Spread(s, t, {})
  {
    forall fence | Fenced(s, fence)
      ensures Fenced(t, fence)
    {
      assert a <= fence;
    }
  }

  // ----- Cleaning keeps strong references -----

  lemma CleanedModes(h: Heap, h': Heap, x: Id)
    requires CleanedStar(h, h') && x in h
    ensures ModeK(h', x) == ModeK(h, x) && ModeV(h', x) == ModeV(h, x)
  {
    assert ObjCleaned(h[x], h'[x]);
    if h[x].Table? && h[x].mt.Ref? && h[x].mt.id in h {
      assert ObjCleaned(h[h[x].mt.id], h'[h[x].mt.id]);
    }
  }

  lemma CleanedRefers(h: Heap, h': Heap, x: Id, y: Id)
    requires CleanedStar(h, h') && x in h
    ensures Refers(h', x, y) == Refers(h, x, y)
  {
    CleanedModes(h, h', x);
    assert ObjCleaned(h[x], h'[x]);
    if h[x].Table? {
      CleanedNodes(h[x].nodes, h'[x].nodes, ModeK(h, x), ModeV(h, x), y);
    } else {
      CleanedPoints(h, h', x, y);
    }
  }

  lemma CleanedPoints(h: Heap, h': Heap, x: Id, y: Id)
    requires CleanedStar(h, h') && x in h && !h[x].Table?
    ensures Points(h', x, y) == Points(h, x, y)
  {
    assert ObjCleaned(h[x], h'[x]);
    if IsOpen(h[x]) && h[x].home.owner in h {
      assert ObjCleaned(h[h[x].home.owner], h'[h[x].home.owner]);
    }
  }

  lemma CleanedNodes(ns: seq<Node>, ns': seq<Node>, k: bool, v: bool, y: Id)
    requires ns' == ns || NodesCleaned(ns, ns')
    ensures (exists n :: n in ns' && HoldsStrongly(n, k, v, y)) <==> (exists n :: n in ns && HoldsStrongly(n, k, v, y))
  {
    if n :| n in ns && HoldsStrongly(n, k, v, y) {
      var i :| 0 <= i < |ns| && ns[i] == n;
      assert ns'[i] == n;
    }
    if n :| n in ns' && HoldsStrongly(n, k, v, y) {
      var i :| 0 <= i < |ns'| && ns'[i] == n;
      assert ns[i] == n;
    }
  }

  lemma CleanedClosed(h: Heap, h': Heap, fence: set<Id>)
    requires CleanedStar(h, h')
    ensures Encloses(h', fence) <==> Encloses(h, fence)
  {
    hide Refers, CleanedStar;
    assert h.Keys == h'.Keys by { CleanedKeys(h, h'); }
    forall x, y | x in h
      ensures Refers(h', x, y) == Refers(h, x, y)
    {
      CleanedRefers(h, h', x, y);
    }
  }

  lemma CleanedKeys(h: Heap, h': Heap)
    requires CleanedStar(h, h')
    ensures h.Keys == h'.Keys
  {
  }

  lemma SpreadCleaned(s: State, t: State)
    requires CleanedStar(s.heap, t.heap) && forall z :: Marked(t, z) ==> Marked(s, z)
    ensures Spread(s, t, {})
  {
    hide Encloses, CleanedStar;
    forall fence | Fenced(s, fence)
      ensures Fenced(t, fence)
    {
      CleanedClosed(s.heap, t.heap, fence);
    }
  }

  // ----- Fences and paths -----

  /** A fence holds everything that can be reached from inside. */
  lemma {:induction false} WayInside(h: Heap, from: set<Id>, p: seq<Id>, fence: set<Id>, i: nat)
    requires Encloses(h, fence) && from <= fence && Way(h, from, p) && i < |p|
    ensures p[i] in fence
  {
    if i > 0 {
      WayInside(h, from, p, fence, i - 1);
      assert Refers(h, p[i - 1], p[i - 1 + 1]);
    }
  }

  /** The tightest fence around `from`. */
  ghost function Reach(h: Heap, from: set<Id>): set<Id> {
    set x | x in h && Reached(h, from, x)
  }

  /** It is a fence where references stay in the heap. */
  lemma ReachClosed(h: Heap, from: set<Id>)
    requires from <= h.Keys && forall x, y :: x in h && Reached(h, from, x) && Refers(h, x, y) ==> y in h
    ensures from <= Reach(h, from) && Encloses(h, Reach(h, from))
  {
    forall x | x in from
      ensures x in Reach(h, from)
    {
      assert Way(h, from, [x]) && [x][|[x]| - 1] == x;
    }
    forall x, y | x in Reach(h, from) && Refers(h, x, y)
      ensures y in Reach(h, from)
    {
      ReachedNext(h, from, x, y);
    }
  }

  lemma ReachedNext(h: Heap, from: set<Id>, x: Id, y: Id)
    requires x in h && Reached(h, from, x) && Refers(h, x, y)
    ensures Reached(h, from, y)
  {
    var p :| Way(h, from, p) && p[|p| - 1] == x;
    hide Refers;
    var q := p + [y];
    forall i | 0 <= i < |q| - 1
      ensures q[i] in h && Refers(h, q[i], q[i + 1])
    {
      if i < |p| - 1 { assert q[i + 1] == p[i + 1]; }
    }
    assert Way(h, from, q) && q[|q| - 1] == y;
  }

  lemma ReachedCleaned(h: Heap, h': Heap, from: set<Id>, x: Id)
    requires CleanedStar(h, h') && Reached(h, from, x)
    ensures Reached(h', from, x)
  {
    var p :| Way(h, from, p) && p[|p| - 1] == x;
    CleanedKeys(h, h');
    hide Refers, CleanedStar;
    forall i | 0 <= i < |p| - 1
      ensures p[i] in h' && Refers(h', p[i], p[i + 1])
    {
      CleanedRefers(h, h', p[i], p[i + 1]);
    }
    assert Way(h', from, p);
  }

  // ----- Complete marks -----

  /** The weakness bits say what the metatable says. */
  ghost predicate BitsRight(s: State, x: Id)
    requires x in s.heap
  {
    (x in s.weakK <==> ModeK(s.heap, x)) && (x in s.weakV <==> ModeV(s.heap, x)) && (x in s.weakK || x in s.weakV)
  }

  ghost predicate Bits(s: State) {
    forall x :: x in s.weak ==> x in s.heap && BitsRight(s, x)
  }

  /** Every marked object outside `todo` has been traced. */
  ghost predicate Complete(s: State, todo: set<Id>) {
    && Bits(s)
    && forall x :: x in s.heap && Marked(s, x) && x !in todo ==> Traced(s, x)
  }

  /** Complete marks are closed under strong references. */
  lemma CompleteRefers(s: State, todo: set<Id>, x: Id, y: Id)
    requires Complete(s, todo) && x in s.heap && Marked(s, x) && x !in todo && Refers(s.heap, x, y)
    ensures Marked(s, y)
  {
    assert Traced(s, x);
    if x in s.weak {
      assert BitsRight(s, x);
      WeakRefers(s, x, y);
    } else {
      RefersPoints(s.heap, x, y);
    }
  }

  lemma WeakRefers(s: State, x: Id, y: Id)
    requires x in s.heap && WeakTraced(s, x) && BitsRight(s, x) && Refers(s.heap, x, y)
    ensures Marked(s, y)
  {
    assert MarkedV(s, Ref(y));
  }

  lemma {:induction false} CompleteWay(s: State, from: set<Id>, p: seq<Id>, i: nat)
    requires Complete(s, {}) && Way(s.heap, from, p) && i < |p| && forall x :: x in from ==> Marked(s, x)
    ensures Marked(s, p[i])
  {
    if i > 0 {
      CompleteWay(s, from, p, i - 1);
      hide Complete, Refers;
      assert Refers(s.heap, p[i - 1], p[i - 1 + 1]);
      CompleteRefers(s, {}, p[i - 1], p[i]);
    }
  }

  lemma CompleteReached(s: State, from: set<Id>, x: Id)
    requires Complete(s, {}) && Reached(s.heap, from, x) && forall z :: z in from ==> Marked(s, z)
    ensures Marked(s, x)
  {
    var p :| Way(s.heap, from, p) && p[|p| - 1] == x;
    CompleteWay(s, from, p, |p| - 1);
  }

  // ----- Marking an object with what it refers to -----

  lemma SpreadNothing(s: State, a: set<Id>)
    ensures Spread(s, s, a)
  {
  }

  /** The colours of marked objects change. */
  lemma SpreadAgain(s: State, m: State, t: State, a: set<Id>)
    requires Spread(s, m, a) && t.heap == m.heap && forall z :: Marked(t, z) ==> Marked(m, z)
    ensures Spread(s, t, a)
  {
    hide Encloses;
  }

  lemma SpreadUdata(s: State, s1: State, s2: State, t: State, o: Id)
    requires o in s.heap && s.heap[o].Udata? && s1 == s.(col := s1.col) && Marked(s1, o)
    requires forall z :: Marked(s1, z) ==> Marked(s, z) || z == o
    requires Spread(s1, s2, Target(s.heap[o].mt)) && Spread(s2, t, Target(s.heap[o].env))
    ensures Spread(s, t, {o})
  {
    var a, b := Target(s.heap[o].mt), Target(s.heap[o].env);
    SpreadOne(s, s1, o);
    assert forall y :: y in a + b ==> Refers(s1.heap, o, y);
    hide Spread;
    SpreadTrans(s1, s2, t, a, b);
    SpreadFrom(s1, t, o, a + b);
    SpreadTrans(s, s1, t, {o}, {});
    SpreadWider(s, t, {o} + {}, {o});
  }

  lemma SpreadUpval(s: State, s1: State, t: State, o: Id)
    requires o in s.heap && s.heap[o].Upval? && s1 == s.(col := s1.col) && Marked(s1, o)
    requires forall z :: Marked(s1, z) ==> Marked(s, z) || z == o
    requires Spread(s1, t, Target(UpvalValue(s.heap, s.heap[o].home)))
    ensures Spread(s, t, {o})
  {
    var a := Target(UpvalValue(s.heap, s.heap[o].home));
    SpreadOne(s, s1, o);
    assert forall y :: y in a ==> Refers(s1.heap, o, y);
    hide Spread;
    SpreadFrom(s1, t, o, a);
    SpreadTrans(s, s1, t, {o}, {});
    SpreadWider(s, t, {o} + {}, {o});
  }

  lemma TargetsNext(vs: seq<Value>, i: nat)
    requires i < |vs|
    ensures Targets(vs[..i + 1]) == Targets(vs[..i]) + Target(vs[i])
  {
    assert vs[..i + 1] == vs[..i] + [vs[i]];
  }

  function EntryTargets(n: Node, k: bool, v: bool): set<Id> {
    if n.val == Nil then {} else (if k then {} else Target(n.key)) + (if v then {} else Target(n.val))
  }

  function NodeTargets(ns: seq<Node>, k: bool, v: bool): set<Id> {
    set n, y | n in ns && y in EntryTargets(n, k, v) :: y
  }

  lemma NodeTargetsNext(ns: seq<Node>, i: nat, k: bool, v: bool)
    requires i < |ns|
    ensures NodeTargets(ns[..i + 1], k, v) == NodeTargets(ns[..i], k, v) + EntryTargets(ns[i], k, v)
    ensures ns[i].val == Nil ==> NodeTargets(ns[..i + 1], k, v) == NodeTargets(ns[..i], k, v)
  {
    assert ns[..i + 1] == ns[..i] + [ns[i]];
    forall y | y in EntryTargets(ns[i], k, v)
      ensures y in NodeTargets(ns[..i + 1], k, v)
    {
      assert ns[i] in ns[..i + 1];
    }
  }

  lemma SpreadTable(s: State, t: State, o: Id, from: set<Id>, k: bool, v: bool)
    requires o in s.heap && s.heap[o].Table? && Marked(s, o) && k == ModeK(s.heap, o) && v == ModeV(s.heap, o)
    requires Spread(s, t, from)
    requires from <= Target(s.heap[o].mt) + (if v then {} else Targets(s.heap[o].arr)) + NodeTargets(s.heap[o].nodes, k,
        v)
    ensures Spread(s, t, {})
  {
    forall y | y in from
      ensures Refers(s.heap, o, y)
    {
      if y in NodeTargets(s.heap[o].nodes, k, v) {
        var n :| n in s.heap[o].nodes && y in EntryTargets(n, k, v);
        assert HoldsStrongly(n, k, v, y);
      }
    }
    SpreadFrom(s, t, o, from);
  }

  // ----- Taking an object off the gray list -----

  lemma SpreadOn(s: State, m: State, t: State, a: set<Id>)
    requires Spread(s, m, a) && Spread(m, t, {})
    ensures Spread(s, t, a)
  {
    hide Fenced;
  }

  /** The object taken off is marked, and its modes are as before. */
  lemma PoppedModes(s: State, s1: State, o: Id)
    requires Popped(s, s1) && o == s.gray[0] && o in s.heap && o in s1.heap
    ensures Marked(s1, o) && ModeK(s1.heap, o) == ModeK(s.heap, o) && ModeV(s1.heap, o) == ModeV(s.heap, o)
  {
    PoppedStar(s, s1);
    CleanedModes(s.heap, s1.heap, o);
  }

  lemma PoppedStar(s: State, s1: State)
    requires Popped(s, s1)
    ensures CleanedStar(s.heap, s1.heap)
    ensures forall z :: Marked(s1, z) ==> Marked(s, z)
  {
    forall x | x in s.heap
      ensures ObjCleaned(s.heap[x], s1.heap[x])
    {
    }
  }

  lemma FinishSpread(s: State, s1: State, t: State)
    requires Popped(s, s1) && Spread(s1, t, {})
    ensures Spread(s, t, {})
  {
    PoppedStar(s, s1);
    hide CleanedStar, Popped;
    SpreadCleaned(s, s1);
    SpreadOn(s, s1, t, {});
  }

  lemma FinishStrong(s: State, s1: State, t: State)
    requires Popped(s, s1) && s1.weak == s.weak && s1.weakK == s.weakK && s1.weakV == s.weakV
    requires MarkStep(s1, t) && Spread(s1, t, {})
    ensures Spread(s, t, {}) && (Bits(s) ==> Bits(t))
  {
    FinishSpread(s, s1, t);
    PoppedStar(s, s1);
    hide Spread, CleanedStar, Popped;
    MarkFrame(s1, t);
    hide MarkStep;
    if Bits(s) { KeepBits(s, t); }
  }

  lemma FinishWeak(s: State, s1: State, t: State, k: bool, v: bool)
    requires Popped(s, s1) && s.gray[0] in s.heap && s.heap[s.gray[0]].Table? && s1 == EnteredWeak(s, k, v)
    requires k == ModeK(s.heap, s.gray[0]) && v == ModeV(s.heap, s.gray[0]) && (k || v)
    requires MarkStep(s1, t) && Spread(s1, t, {})
    ensures Spread(s, t, {}) && (Bits(s) ==> Bits(t))
  {
    FinishSpread(s, s1, t);
    PoppedStar(s, s1);
    CleanedModes(s.heap, s1.heap, s.gray[0]);
    hide Spread, CleanedStar, Popped, ModeK, ModeV;
    MarkFrame(s1, t);
    hide MarkStep;
    if Bits(s) { KeepBits(s, t); }
  }

  lemma KeepBits(s: State, t: State)
    requires Bits(s) && CleanedStar(s.heap, t.heap)
    requires forall x :: x in t.weak ==>
      || (x in s.weak && (x in t.weakK <==> x in s.weakK) && (x in t.weakV <==> x in s.weakV))
      || (x in t.heap && BitsRight(t, x))
    ensures Bits(t)
  {
    CleanedKeys(s.heap, t.heap);
    hide CleanedStar, ModeK, ModeV;
    forall x | x in t.weak
      ensures x in t.heap && BitsRight(t, x)
    {
      if x in s.weak {
        assert BitsRight(s, x);
        CleanedModes(s.heap, t.heap, x);
      }
    }
  }

  /** Marking what a marked upvalue holds. */
  lemma SpreadHeld(s: State, t: State, u: Id)
    requires u in s.heap && s.heap[u].Upval? && Marked(s, u) && Spread(s, t, Target(UpvalValue(s.heap, s.heap[u].home)))
    ensures Spread(s, t, {})
  {
    var a := Target(UpvalValue(s.heap, s.heap[u].home));
    assert forall y :: y in a ==> Refers(s.heap, u, y);
    hide Spread;
    SpreadFrom(s, t, u, a);
  }

  /** Marking an object again from white. */
  lemma SpreadBack(s: State, m: State, t: State, u: Id)
    requires m.heap == s.heap && (forall z :: Marked(m, z) ==> Marked(s, z)) && Spread(m, t, {u})
    ensures Spread(s, t, {u})
  {
    SpreadNone(s, m);
    hide Spread;
    SpreadTrans(s, m, t, {}, {u});
    SpreadWider(s, t, {} + {u}, {u});
  }
}
