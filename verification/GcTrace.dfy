/** Taking an object off the gray list and tracing it: what each kind of pop keeps. */
module GcTrace {
  import opened GcState
  import opened GcMark

  /** Everything that holds between two steps of marking, `todo` being the objects that
      still need another visit. */
  ghost predicate Marking(s: State, todo: set<Id>) {
    Shape(s) && Owned(s) && Survivors(s) && Palette(s) && NoDead(s) && Lists(s) && Pending(s, todo)
  }

  lemma MarkKeepsMarking(s: State, t: State, todo: set<Id>)
    requires Marking(s, todo) && MarkStep(s, t)
    ensures Marking(t, todo)
  {
    hide Shape, Owned, Survivors, Palette, NoDead, Lists, Pending, MarkStep;
    MarkKeepsShape(s, t);
    MarkKeepsSurvivors(s, t);
    MarkKeepsPalette(s, t);
    MarkKeepsLists(s, t);
    MarkKeepsPending(s, t, todo);
  }

  // ----- What depends on the kinds of objects only -----

  predicate SameKind(o: Obj, o': Obj) {
    && o.Str? == o'.Str? && o.Udata? == o'.Udata? && o.Upval? == o'.Upval? && IsOpen(o) == IsOpen(o')
    && o.Closure? == o'.Closure? && o.Table? == o'.Table? && o.Thread? == o'.Thread? && o.Proto? == o'.Proto?
  }

  ghost predicate SameKinds(h: Heap, h': Heap) {
    h.Keys == h'.Keys && forall x :: x in h ==> SameKind(h[x], h'[x])
  }

  lemma KindsKeepOwned(s: State, h': Heap)
    requires Owned(s) && SameKinds(s.heap, h')
    ensures Owned(s.(heap := h'))
  {
    assert OwnedStrings(h', s.strt) by { hide OwnedRoots, InTable; }
    assert OwnedRoots(h', s.rootgc, s.udatas, s.tmu) by { hide OwnedStrings; }
  }

  lemma KindsKeepPalette(s: State, h': Heap)
    requires Palette(s) && SameKinds(s.heap, h')
    ensures Palette(s.(heap := h'))
  {
  }

  lemma KindsKeepLists(s: State, h': Heap)
    requires Lists(s) && SameKinds(s.heap, h')
    ensures Lists(s.(heap := h'))
  {
    assert forall x :: Listed(s.(heap := h'), x) == Listed(s, x);
  }

  // ----- removeentry: empty entries lose their collectable keys -----

  function KillKey(v: Value): Value {
    if v.Ref? then DeadKey(v.id) else v
  }

  function CleanNode(n: Node): Node {
    if n.val == Nil then Node(KillKey(n.key), Nil) else n
  }

  function CleanNodes(nodes: seq<Node>): (r: seq<Node>)
    ensures |r| == |nodes|
    ensures forall i :: 0 <= i < |nodes| ==> r[i] == CleanNode(nodes[i])
  {
    seq(|nodes|, i requires 0 <= i < |nodes| => CleanNode(nodes[i]))
  }

  function CleanTable(o: Obj): Obj
    requires o.Table?
  {
    o.(nodes := CleanNodes(o.nodes))
  }

  lemma CleanPoints(h: Heap, o: Id, x: Id, y: Id)
    requires o in h && h[o].Table? && x in h
    ensures Points(h[o := CleanTable(h[o])], x, y) == Points(h, x, y)
    ensures Strong(h[o := CleanTable(h[o])], x, y) ==> Strong(h, x, y)
  {
    var h' := h[o := CleanTable(h[o])];
    if x == o {
      var ns, ns' := h[o].nodes, h'[o].nodes;
      if n :| n in ns && n.val != Nil && (n.key == Ref(y) || n.val == Ref(y)) {
        var i :| 0 <= i < |ns| && ns[i] == n;
        assert ns'[i] == n;
      }
      forall n | n in ns' && (n.key == Ref(y) || n.val == Ref(y))
        ensures n in ns && n.val != Nil
      {
        var i :| 0 <= i < |ns'| && ns'[i] == n;
        assert ns'[i] == CleanNode(ns[i]);
      }
    }
  }

  lemma CleanKeepsShape(s: State, o: Id)
    requires Shape(s) && Owned(s) && Palette(s) && Lists(s) && o in s.heap && s.heap[o].Table?
    ensures var t := s.(heap := s.heap[o := CleanTable(s.heap[o])]); Shape(t) && Owned(t) && Palette(t) && Lists(t)
  {
    hide Owned, Palette, Lists;
    var h' := s.heap[o := CleanTable(s.heap[o])];
    assert SameKinds(s.heap, h');
    KindsKeepOwned(s, h');
    KindsKeepPalette(s, h');
    KindsKeepLists(s, h');
  }

  lemma CleanKeepsSurvivors(s: State, o: Id)
    requires Survivors(s) && o in s.heap && s.heap[o].Table?
    ensures Survivors(s.(heap := s.heap[o := CleanTable(s.heap[o])]))
  {
    var t := s.(heap := s.heap[o := CleanTable(s.heap[o])]);
    assert forall x :: Live(t, x) == Live(s, x);
    forall x, y | x in t.heap && Live(t, x) && Points(t.heap, x, y)
      ensures Live(t, y)
    {
      CleanPoints(s.heap, o, x, y);
      hide Points;
      assert Live(s, x) && Live(s, y);
    }
    assert forall x :: Root(t, x) == Root(s, x);
  }

  lemma CleanKeepsPending(s: State, o: Id, todo: set<Id>)
    requires Pending(s, todo) && o in s.heap && s.heap[o].Table?
    ensures Pending(s.(heap := s.heap[o := CleanTable(s.heap[o])]), todo)
  {
    hide Traced;
    var t := s.(heap := s.heap[o := CleanTable(s.heap[o])]);
    forall x | x in t.heap && Marked(t, x) && x !in t.gray && x !in todo
      ensures Traced(t, x)
    {
      assert Marked(s, x) && Traced(s, x);
      CleanKeepsTraced(s, o, x);
    }
  }

  lemma CleanKeepsMarking(s: State, o: Id, todo: set<Id>)
    requires Marking(s, todo) && o in s.heap && s.heap[o].Table?
    ensures Marking(s.(heap := s.heap[o := CleanTable(s.heap[o])]), todo)
  {
    hide Shape, Owned, Survivors, Palette, Lists, Pending;
    CleanKeepsShape(s, o);
    CleanKeepsSurvivors(s, o);
    CleanKeepsPending(s, o, todo);
  }

  lemma CleanKeepsTraced(s: State, o: Id, x: Id)
    requires o in s.heap && s.heap[o].Table? && x in s.heap && Traced(s, x)
    ensures Traced(s.(heap := s.heap[o := CleanTable(s.heap[o])]), x)
  {
    var t := s.(heap := s.heap[o := CleanTable(s.heap[o])]);
    if x in s.weak {
      forall n | n in t.heap[x].nodes && n.val != Nil
        ensures n in s.heap[x].nodes
      {
        var i :| 0 <= i < |t.heap[x].nodes| && t.heap[x].nodes[i] == n;
      }
    } else {
      forall y | Strong(t.heap, x, y)
        ensures Marked(t, y)
      {
        CleanPoints(s.heap, o, x, y);
        assert Marked(s, y);
      }
    }
  }

  // ----- Pops -----

  /** A closure, prototype or strong table leaves the gray list black. */
  function PopBlack(s: State): State
    requires |s.gray| > 0
  {
    s.(gray := s.gray[1..], col := s.col[s.gray[0] := Black])
  }

  /** A thread stays gray and moves to `grayagain`. */
  function PopThread(s: State): State
    requires |s.gray| > 0
  {
    s.(gray := s.gray[1..], grayagain := [s.gray[0]] + s.grayagain)
  }

  function SetBit(bits: set<Id>, o: Id, b: bool): set<Id> {
    if b then bits + {o} else bits - {o}
  }

  /** A weak table stays gray and moves to `weak`, with its weakness recorded. */
  function PopWeak(s: State, k: bool, v: bool): State
    requires |s.gray| > 0
  {
    var o := s.gray[0];
    s.(gray := s.gray[1..], weak := [o] + s.weak,
       weakK := SetBit(s.weakK, o, k), weakV := SetBit(s.weakV, o, v))
  }

  lemma HeadFacts(s: State)
    requires Lists(s) && |s.gray| > 0
    ensures s.gray[0] !in s.gray[1..] && NoDup(s.gray[1..])
    ensures forall x :: x in s.gray <==> x == s.gray[0] || x in s.gray[1..]
    ensures Listed(s, s.gray[0])
  {
    assert s.gray == [s.gray[0]] + s.gray[1..];
  }

  lemma NoDupCons<T>(x: T, q: seq<T>)
    requires NoDup(q) && x !in q
    ensures NoDup([x] + q)
  {
  }

  lemma PopKeepsTraced(s: State, t: State, x: Id)
    requires t == s.(gray := t.gray, grayagain := t.grayagain, weak := t.weak, col := t.col, weakK := t.weakK,
                     weakV := t.weakV)
    requires x in s.heap && Traced(s, x) && t.col.Keys == s.col.Keys
    requires forall y :: Marked(s, y) ==> Marked(t, y)
    requires x in s.weak <==> x in t.weak
    requires (x in s.weakK <==> x in t.weakK) && (x in s.weakV <==> x in t.weakV)
    ensures Traced(t, x)
  {
  }

  /** A pop changes only lists and the colour of the popped object, so what does not depend
      on these stays. */
  lemma PopKeepsBasics(s: State, t: State)
    requires t == s.(gray := t.gray, grayagain := t.grayagain, weak := t.weak, col := t.col, weakK := t.weakK,
                     weakV := t.weakV)
    requires t.col.Keys == s.col.Keys
      && (forall x :: x in s.col ==> t.col[x] == s.col[x] || (!t.col[x].White? && !s.col[x].White?))
    requires Shape(s) && Owned(s) && Survivors(s) && NoDead(s)
    ensures Shape(t) && Owned(t) && Survivors(t) && NoDead(t)
    ensures forall y :: Marked(s, y) == Marked(t, y)
  {
    hide Points, Linked;
    assert forall x :: Live(t, x) == Live(s, x);
    assert forall x :: Root(t, x) == Root(s, x);
  }

  lemma PopKeepsPending(s: State, t: State, o: Id, todo: set<Id>)
    requires t == s.(gray := t.gray, grayagain := t.grayagain, weak := t.weak, col := t.col, weakK := t.weakK,
                     weakV := t.weakV)
    requires t.col.Keys == s.col.Keys && (forall y :: Marked(s, y) == Marked(t, y))
    requires Pending(s, todo)
    requires forall x :: x != o ==> (x in s.gray <==> x in t.gray) && (x in s.weak <==> x in t.weak)
    requires forall x :: x != o ==> (x in s.weakK <==> x in t.weakK) && (x in s.weakV <==> x in t.weakV)
    ensures Pending(t, todo + {o})
  {
    hide Traced, Marked;
    forall x | x in t.heap && Marked(t, x) && x !in t.gray && x !in todo + {o}
      ensures Traced(t, x)
    {
      assert Traced(s, x);
      PopKeepsTraced(s, t, x);
    }
  }

  lemma PopBlackKeeps(s: State, todo: set<Id>)
    requires Marking(s, todo) && |s.gray| > 0
    requires var o := s.gray[0]; o in s.heap && (s.heap[o].Closure? || s.heap[o].Proto? || s.heap[o].Table?)
    ensures Marking(PopBlack(s), todo + {s.gray[0]})
  {
    hide Survivors, Owned, Pending, Shape;
    var t, o := PopBlack(s), s.gray[0];
    HeadFacts(s);
    assert s.col.Keys == s.heap.Keys by { ShapeKeys(s); }
    assert s.col[o] == Gray;
    PopKeepsBasics(s, t);
    PopKeepsPending(s, t, o, todo);
    assert Lists(t) by {
      forall x
        ensures Listed(t, x) <==> Listed(s, x) && x != o
      {
      }
    }
  }

  lemma ShapeKeys(s: State)
    requires Shape(s)
    ensures s.col.Keys == s.heap.Keys && 0 < |s.strt|
  {
  }

  lemma PopThreadKeeps(s: State, todo: set<Id>)
    requires Marking(s, todo) && |s.gray| > 0 && s.gray[0] in s.heap && s.heap[s.gray[0]].Thread?
    ensures Marking(PopThread(s), todo + {s.gray[0]})
  {
    hide Survivors, Owned, Pending, Shape;
    var t, o := PopThread(s), s.gray[0];
    HeadFacts(s);
    NoDupCons(o, s.grayagain);
    PopKeepsBasics(s, t);
    PopKeepsPending(s, t, o, todo);
    assert forall x :: Listed(t, x) <==> Listed(s, x);
  }

  lemma PopWeakKeeps(s: State, k: bool, v: bool, todo: set<Id>)
    requires Marking(s, todo) && |s.gray| > 0 && s.gray[0] in s.heap && s.heap[s.gray[0]].Table?
    ensures Marking(PopWeak(s, k, v), todo + {s.gray[0]})
  {
    hide Survivors, Owned, Pending, Shape;
    var t, o := PopWeak(s, k, v), s.gray[0];
    HeadFacts(s);
    NoDupCons(o, s.weak);
    PopKeepsBasics(s, t);
    PopKeepsPending(s, t, o, todo);
    assert forall x :: Listed(t, x) <==> Listed(s, x);
  }

  /** After a pop, marking and a completed trace, nothing extra is pending. */
  lemma TraceDone(s: State, t: State, o: Id, todo: set<Id>)
    requires Marking(s, todo + {o}) && MarkStep(s, t) && o in t.heap && Traced(t, o)
    ensures Marking(t, todo)
  {
    hide Shape, Owned, Survivors, Palette, NoDead, Lists, MarkStep, Traced;
    MarkKeepsMarking(s, t, todo + {o});
  }
}
