/** Progress of marking: what one traversal, and any number of them, leave of a state. */
module GcGrow {
  import opened GcState
  import opened GcMark
  import opened GcTrace

  ghost predicate RefsIn(h: Heap) {
    forall x, y :: x in h && Points(h, x, y) ==> y in h
  }

  function Whites(col: map<Id, Colour>): set<Id> {
    set x | x in col && col[x].White?
  }

  /** Only empty entries of tables lose their keys. */
  ghost predicate Cleaned(h: Heap, h': Heap) {
    && h.Keys == h'.Keys
    && forall x :: x in h ==> h'[x] == h[x] || (h[x].Table? && h'[x] == CleanTable(h[x]))
  }

  /** What marking leaves of a state: marks and lists only grow, and nothing but colours,
      the gray lists, weakness bits and keys of empty entries changes. */
  ghost predicate Grown(s: State, t: State) {
    && t == s.(heap := t.heap, col := t.col, gray := t.gray, grayagain := t.grayagain, weak := t.weak,
               weakK := t.weakK, weakV := t.weakV)
    && (forall x :: Marked(s, x) ==> Marked(t, x))
    && (forall x :: x in s.grayagain ==> x in t.grayagain)
    && (forall x :: x in s.weak ==> x in t.weak)
  }

  lemma GrownRefl(s: State)
    ensures Grown(s, s) && CleanedStar(s.heap, s.heap)
  {
  }

  lemma GrownTrans(s: State, m: State, t: State)
    requires Grown(s, m) && Grown(m, t)
    ensures Grown(s, t)
  {
  }

  /** Any number of cleanings. */
  ghost predicate CleanedStar(h: Heap, h': Heap) {
    && h.Keys == h'.Keys
    && forall x :: x in h ==> ObjCleaned(h[x], h'[x])
  }

  ghost predicate ObjCleaned(o: Obj, o': Obj) {
    o' == o || (o.Table? && o'.Table? && o' == o.(nodes := o'.nodes) && NodesCleaned(o.nodes, o'.nodes))
  }

  ghost predicate NodesCleaned(ns: seq<Node>, ns': seq<Node>) {
    |ns| == |ns'| && forall i :: 0 <= i < |ns| ==> ns'[i] == ns[i] || ns'[i] == CleanNode(ns[i])
  }

  lemma CleanedTrans(h: Heap, m: Heap, h': Heap)
    requires CleanedStar(h, m) && Cleaned(m, h')
    ensures CleanedStar(h, h')
  {
    forall x | x in h
      ensures ObjCleaned(h[x], h'[x])
    {
      if h'[x] != m[x] {
        assert h'[x].nodes == CleanNodes(m[x].nodes);
        if h[x] != m[x] {
          assert NodesCleaned(h[x].nodes, m[x].nodes);
        }
        forall i | 0 <= i < |h[x].nodes|
          ensures h'[x].nodes[i] == CleanNode(h[x].nodes[i])
        {
          assert h'[x].nodes[i] == CleanNode(m[x].nodes[i]);
        }
      }
    }
  }

  lemma CleanKind(h: Heap, o: Id)
    requires o in h && h[o].Table?
    ensures Cleaned(h, h) && Cleaned(h, h[o := CleanTable(h[o])])
    ensures CleanTable(h[o]).Table? && CleanTable(h[o]).mt == h[o].mt
  {
    assert h[o := CleanTable(h[o])].Keys == h.Keys;
  }

  lemma TableRefsIn(h: Heap, o: Id)
    requires RefsIn(h) && o in h && h[o].Table?
    ensures h[o].mt.Ref? ==> h[o].mt.id in h
    ensures forall v :: v in h[o].arr && v.Ref? ==> v.id in h
    ensures forall n :: n in h[o].nodes && n.val != Nil ==>
      (n.key.Ref? ==> n.key.id in h) && (n.val.Ref? ==> n.val.id in h)
  {
    assert h[o].mt.Ref? ==> Points(h, o, h[o].mt.id);
    forall v | v in h[o].arr && v.Ref?
      ensures v.id in h
    {
      assert Points(h, o, v.id);
    }
    forall n | n in h[o].nodes && n.val != Nil
      ensures (n.key.Ref? ==> n.key.id in h) && (n.val.Ref? ==> n.val.id in h)
    {
      assert n.key.Ref? ==> Points(h, o, n.key.id);
      assert n.val.Ref? ==> Points(h, o, n.val.id);
    }
  }

  lemma MarkedVStays(s: State, t: State)
    requires MarkStep(s, t)
    ensures forall v :: MarkedV(s, v) ==> MarkedV(t, v)
  {
    forall v | MarkedV(s, v)
      ensures MarkedV(t, v)
    {
      if v.Ref? { MarkedStays(s, t, v.id); }
    }
  }

  lemma MarkingRefs(s: State, todo: set<Id>)
    requires Marking(s, todo)
    ensures RefsIn(s.heap) && s.heap.Keys == s.col.Keys
  {
    hide Owned, Palette, Lists, Pending, Points;
    assert forall x :: x in s.heap ==> Live(s, x);
  }

  lemma GrayHead(s: State, todo: set<Id>)
    requires Marking(s, todo) && |s.gray| > 0
    ensures var o := s.gray[0]; o in s.heap && o in s.col && s.col[o] == Gray && Container(s.heap[o]) && o !in s.weak
  {
    assert Listed(s, s.gray[0]);
  }

  /** A strong table whose empty entries were cleaned and whose contents were marked. */
  lemma TableTraced(s: State, t: State, o: Id)
    requires o in s.heap && s.heap[o].Table? && o in t.heap && t.heap[o] == CleanTable(s.heap[o])
    requires MarkedV(t, t.heap[o].mt)
    requires forall w :: w in t.heap[o].arr ==> MarkedV(t, w)
    requires forall n :: n in t.heap[o].nodes && n.val != Nil ==> MarkedV(t, n.val)
    requires forall n :: n in t.heap[o].nodes && n.val != Nil ==> MarkedV(t, n.key)
    ensures FullyTraced(t, o)
  {
    forall y | Strong(t.heap, o, y)
      ensures Marked(t, y)
    {
      assert MarkedV(t, Ref(y)) by {
        if n :| n in t.heap[o].nodes && (n.key == Ref(y) || n.val == Ref(y)) {
          var i :| 0 <= i < |t.heap[o].nodes| && t.heap[o].nodes[i] == n;
          assert n == CleanNode(s.heap[o].nodes[i]);
          assert n.val != Nil;
        }
      }
    }
  }

  /** `s1` is `s` with the first gray object taken off the list. */
  ghost predicate Popped(s: State, s1: State) {
    && |s.gray| > 0 && s.gray[0] in s.col && !s.col[s.gray[0]].White?
    && s1 == s.(heap := s1.heap, gray := s.gray[1..], col := s1.col, grayagain := s1.grayagain, weak := s1.weak,
                weakK := s1.weakK, weakV := s1.weakV)
    && Cleaned(s.heap, s1.heap)
    && (s1.col == s.col || s1.col == s.col[s.gray[0] := Black])
    && (s1.grayagain == s.grayagain || s1.grayagain == [s.gray[0]] + s.grayagain)
    && (s1.weak == s.weak || s1.weak == [s.gray[0]] + s.weak)
  }

  function EnteredWeak(s: State, k: bool, v: bool): State
    requires |s.gray| > 0 && s.gray[0] in s.heap && s.heap[s.gray[0]].Table?
  {
    var o := s.gray[0];
    PopWeak(s, k, v).(heap := s.heap[o := if k && v then s.heap[o] else CleanTable(s.heap[o])])
  }

  lemma EnteredWeakKeeps(s: State, k: bool, v: bool, todo: set<Id>)
    requires Marking(s, todo) && |s.gray| > 0 && s.gray[0] in s.heap && s.heap[s.gray[0]].Table?
    ensures var t := EnteredWeak(s, k, v);
      && Marking(t, todo + {s.gray[0]}) && Popped(s, t) && Cleaned(s.heap, t.heap)
      && s.gray[0] in t.heap && t.heap[s.gray[0]].Table?
      && s.gray[0] in t.weak && (s.gray[0] in t.weakK <==> k) && (s.gray[0] in t.weakV <==> v)
  {
    hide Marking, Points, CleanTable, Cleaned, Popped;
    var o, t := s.gray[0], EnteredWeak(s, k, v);
    GrayHead(s, todo);
    PopWeakKeeps(s, k, v, todo);
    CleanKind(s.heap, o);
    if k && v {
      assert s.heap[o := s.heap[o]] == s.heap;
      assert t == PopWeak(s, k, v);
    } else {
      CleanKeepsMarking(PopWeak(s, k, v), o, todo + {o});
    }
    PoppedWeak(s, t, k, v);
  }

  lemma PoppedWeak(s: State, s1: State, k: bool, v: bool)
    requires |s.gray| > 0 && s.gray[0] in s.col && !s.col[s.gray[0]].White?
    requires s1 == PopWeak(s, k, v).(heap := s1.heap) && (s1.heap == s.heap || Cleaned(s.heap, s1.heap))
    ensures Popped(s, s1)
  {
  }

  lemma WeakDone(t: State, o: Id)
    requires o in t.heap && o in t.weak && t.heap[o].Table? && MarkedV(t, t.heap[o].mt)
    requires o !in t.weakV ==> forall w :: w in t.heap[o].arr ==> MarkedV(t, w)
    requires o !in t.weakV ==> forall n :: n in t.heap[o].nodes && n.val != Nil ==> MarkedV(t, n.val)
    requires o !in t.weakK ==> forall n :: n in t.heap[o].nodes && n.val != Nil ==> MarkedV(t, n.key)
    ensures Traced(t, o)
  {
  }

  lemma PoppedGrown(s: State, s1: State)
    requires Popped(s, s1)
    ensures Grown(s, s1) && Whites(s1.col) == Whites(s.col) && |s1.gray| < |s.gray|
  {
  }

  lemma MarkGrown(s: State, t: State)
    requires MarkStep(s, t)
    ensures Grown(s, t) && Whites(t.col) <= Whites(s.col)
    ensures |t.gray| >= |s.gray| && (Whites(t.col) == Whites(s.col) ==> |t.gray| == |s.gray|)
  {
    hide Settled, Container;
    forall x | Marked(s, x)
      ensures Marked(t, x)
    {
      MarkedStays(s, t, x);
    }
    if |t.gray| > |s.gray| {
      assert t.gray[0] in Whites(s.col) && t.gray[0] !in Whites(t.col);
    }
  }

  /** The bookkeeping of one `propagatemark` from `s`: popped to `s1`, marked to `t`. */
  lemma FinishTrace(s: State, s1: State, t: State, todo: set<Id>)
    requires Popped(s, s1)
    requires Marking(s1, todo + {s.gray[0]}) && MarkStep(s1, t) && s.gray[0] in t.heap && Traced(t, s.gray[0])
    ensures Marking(t, todo) && Grown(s, t)
    ensures Whites(t.col) <= Whites(s.col)
    ensures Whites(t.col) == Whites(s.col) ==> |t.gray| < |s.gray|
  {
    hide Marking, Traced, MarkStep, Grown;
    TraceDone(s1, t, s.gray[0], todo);
    PoppedGrown(s, s1);
    MarkGrown(s1, t);
    GrownTrans(s, s1, t);
  }

  lemma WhitesShrink(col: map<Id, Colour>, o: Id, c: Colour)
    requires o in col && col[o].White? && !c.White?
    ensures Whites(col[o := c]) < Whites(col)
    ensures col[o := c].Keys == col.Keys
  {
    assert o in Whites(col) && o !in Whites(col[o := c]);
  }

  lemma WhitesRepaint(col: map<Id, Colour>, o: Id, c: Colour)
    requires o in col && !col[o].White? && !c.White?
    ensures Whites(col[o := c]) == Whites(col) && col[o := c].Keys == col.Keys
  {
  }

  lemma UdataIn(h: Heap, o: Id)
    requires RefsIn(h) && o in h && h[o].Udata?
    ensures (h[o].mt.Ref? ==> h[o].mt.id in h) && (h[o].env.Ref? ==> h[o].env.id in h)
  {
    assert h[o].mt.Ref? ==> Points(h, o, h[o].mt.id);
    assert h[o].env.Ref? ==> Points(h, o, h[o].env.id);
  }

  lemma UdataMarked(h: Heap, col: map<Id, Colour>, o: Id)
    requires o in h && h[o].Udata? && h.Keys == col.Keys && RefsIn(h)
    requires (h[o].mt.Ref? && h[o].mt.id in h ==> !col[h[o].mt.id].White?)
      && (h[o].env.Ref? && h[o].env.id in h ==> !col[h[o].env.id].White?)
    ensures AllMarked(h, col, o)
  {
  }

  /** The variable behind an upvalue is what the upvalue refers to. */
  lemma UpvalIn(h: Heap, o: Id)
    requires RefsIn(h) && o in h && h[o].Upval?
    ensures var v := UpvalValue(h, h[o].home); v.Ref? ==> v.id in h
  {
    var v := UpvalValue(h, h[o].home);
    assert v.Ref? ==> Points(h, o, v.id);
  }

  lemma UpvalMarked(h: Heap, col: map<Id, Colour>, o: Id)
    requires o in h && h[o].Upval?
    requires var v := UpvalValue(h, h[o].home); v.Ref? ==> v.id in h && v.id in col && !col[v.id].White?
    ensures AllMarked(h, col, o)
  {
  }

  /** An upvalue whose value has been marked; a closed one then turns black. */
  lemma MarkedUpval(s: State, s1: State, t: State, o: Id)
    requires o in s.col && o in s.heap && s.col[o].White? && s.heap[o].Upval? && s1 == s.(col := s.col[o := Gray])
    requires MarkStep(s1, t) && MarkedV(t, UpvalValue(t.heap, s.heap[o].home)) && t.heap == s.heap
    ensures Marked(t, o)
    ensures if IsOpen(s.heap[o]) then MarkStep(s, t) else MarkStep(s, t.(col := t.col[o := Black]))
  {
    hide MarkStep;
    MarkedStays(s1, t, o);
    if IsOpen(s.heap[o]) {
      UpvalMarked(t.heap, t.col, o);
      MarkFrom(s, s1, t, o, Gray);
    } else {
      var s2, t2 := s.(col := s.col[o := Black]), t.(col := t.col[o := Black]);
      Recolour(s1, t, o, Black);
      assert s1.(col := s1.col[o := Black]) == s2;
      UpvalMarked(t2.heap, t2.col, o);
      MarkFrom(s, s2, t2, o, Black);
    }
  }

  lemma MarkString(s: State, o: Id)
    requires o in s.heap && o in s.col && s.col[o].White? && s.heap[o].Str?
    ensures MarkStep(s, s.(col := s.col[o := Gray]))
  {
    hide AllMarked, Points;
    var t := s.(col := s.col[o := Gray], gray := s.gray);
    assert t.col.Keys == s.col.Keys;
    assert Settled(t.heap, t.col, t.gray, o);
    assert GrayGrew(s, t) by {
      hide Settled;
      assert t.gray[0..] == s.gray;
    }
    hide Settled, GrayGrew;
    assert forall x :: x in s.col && s.col[x].White? && t.col[x] != s.col[x] ==> x == o;
  }

  lemma MarkContainer(s: State, o: Id)
    requires o in s.heap && o in s.col && s.col[o].White? && Container(s.heap[o])
    ensures MarkStep(s, s.(col := s.col[o := Gray], gray := [o] + s.gray))
  {
    var t := s.(col := s.col[o := Gray], gray := [o] + s.gray);
    assert t.col.Keys == s.col.Keys;
    assert t.gray[1..] == s.gray;
  }

  /** Marking one object: colour it, then mark what it refers to. */
  lemma MarkFrom(s: State, s1: State, t: State, o: Id, c: Colour)
    requires o in s.col && o in s.heap && s.col[o].White? && !c.White?
    requires s1 == s.(col := s.col[o := c]) && MarkStep(s1, t)
    requires s.heap[o].Udata? || s.heap[o].Upval?
    requires c == if IsOpen(s.heap[o]) then Gray else Black
    requires AllMarked(t.heap, t.col, o)
    ensures MarkStep(s, t)
  {
    assert t.col[o] == c;
    forall x | x in s.col && s.col[x].White? && t.col[x] != s.col[x]
      ensures Settled(t.heap, t.col, t.gray, x)
    {
      if x != o {
        assert s1.col[x] == s.col[x];
      }
    }
    assert t.col.Keys == s.col.Keys;
    var k := |t.gray| - |s.gray|;
    forall i | 0 <= i < k
      ensures t.gray[i] in s.col && s.col[t.gray[i]].White?
    {
      assert s1.col[t.gray[i]].White?;
    }
  }
}
