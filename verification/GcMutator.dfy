/** What the mutator's operations keep: stores, barriers, allocation, upvalues, roots. */
module GcMutator {
  import opened GcState
  import opened GcMark
  import opened GcTrace
  import opened GcAtomic
  import opened GcSweep

  // ----- Overwriting an object -----

  function Stored(s: State, x: Id, o: Obj): State {
    s.(heap := s.heap[x := o])
  }

  /** `o` may take the place of object `x`: same kind, same open upvalues, and every slot
      that an open upvalue names still exists. */
  ghost predicate Replaces(h: Heap, x: Id, o: Obj) {
    && x in h && SameKind(h[x], o)
    && (o.Upval? ==> o.home.Closed?)
    && (o.Thread? ==> o.openup == h[x].openup && forall u :: u in o.openup && u in h && IsOpen(h[u]) ==>
          h[u].home.slot < |o.stack|)
  }

  /** Storing into `x` adds references to live objects only. */
  ghost predicate AddsLive(s: State, x: Id, o: Obj) {
    forall z, y :: z in s.heap && Points(s.heap[x := o], z, y) ==> Points(s.heap, z, y) || Live(s, y)
  }

  lemma StoredLinked(h: Heap, x: Id, o: Obj)
    requires Linked(h) && Replaces(h, x, o)
    ensures Linked(h[x := o])
  {
  }

  lemma StoredShape(s: State, x: Id, o: Obj)
    requires Shape(s) && Owned(s) && Palette(s) && Replaces(s.heap, x, o)
    ensures var t := Stored(s, x, o); Shape(t) && Owned(t) && Palette(t) && SameKinds(s.heap, t.heap)
  {
    hide Owned, Palette, Linked;
    var t := Stored(s, x, o);
    StoredLinked(s.heap, x, o);
    assert SameKinds(s.heap, t.heap);
    KindsKeepOwned(s, t.heap);
    KindsKeepPalette(s, t.heap);
  }

  lemma StoredSurvivors(s: State, x: Id, o: Obj)
    requires Survivors(s) && x in s.heap && AddsLive(s, x, o)
    ensures Survivors(Stored(s, x, o))
  {
    hide Points;
    var t := Stored(s, x, o);
    assert forall z :: Live(t, z) == Live(s, z);
    assert forall z :: Root(t, z) == Root(s, z);
  }

  lemma StoredPhase(s: State, x: Id, o: Obj)
    requires Inv(s) && s.phase != Propagate && Replaces(s.heap, x, o)
    ensures InPhase(Stored(s, x, o))
  {
    hide Points, Linked, Owned, Palette, Survivors;
    var t := Stored(s, x, o);
    assert t.heap.Keys == s.heap.Keys;
    if s.phase == Sweep {
      forall i | 0 <= i < t.sweepPos && i < |t.rootgc + t.udatas|
        ensures Swept(t, (t.rootgc + t.udatas)[i])
      {
        assert Swept(s, (s.rootgc + s.udatas)[i]);
      }
    }
  }

  /** Outside the propagate phase a store keeps the invariant as it is. */
  lemma StoreKeeps(s: State, x: Id, o: Obj)
    requires Inv(s) && s.phase != Propagate && Replaces(s.heap, x, o) && AddsLive(s, x, o)
    ensures Inv(Stored(s, x, o))
  {
    hide Shape, Owned, Survivors, Palette, InPhase, AddsLive, Replaces;
    assert x in s.heap by { ReplacesIn(s.heap, x, o); }
    StoredShape(s, x, o);
    StoredSurvivors(s, x, o);
    StoredPhase(s, x, o);
  }

  lemma ReplacesIn(h: Heap, x: Id, o: Obj)
    requires Replaces(h, x, o)
    ensures x in h
  {
  }

  lemma StoredStrong(h: Heap, x: Id, o: Obj, z: Id, y: Id)
    requires x in h && z in h && z != x && !IsOpen(h[z]) && Strong(h[x := o], z, y)
    ensures Strong(h, z, y)
  {
  }

  lemma StoredTraced(s: State, x: Id, o: Obj, z: Id)
    requires x in s.heap && z in s.heap && z != x && !IsOpen(s.heap[z]) && Traced(s, z)
    ensures Traced(Stored(s, x, o), z)
  {
    hide Strong;
    var t := Stored(s, x, o);
    assert forall y :: Marked(t, y) == Marked(s, y);
    if z in s.weak {
      assert forall v :: MarkedV(t, v) == MarkedV(s, v);
    } else {
      forall y | Strong(t.heap, z, y)
        ensures Marked(t, y)
      {
        StoredStrong(s.heap, x, o, z, y);
      }
    }
  }

  /** During marking a store leaves only the written object, and open upvalues, to be
      looked at again. */
  lemma StoreMarking(s: State, x: Id, o: Obj, todo: set<Id>)
    requires Marking(s, todo) && Replaces(s.heap, x, o) && AddsLive(s, x, o)
    requires forall u :: u in s.heap && IsOpen(s.heap[u]) ==> u in todo
    ensures Marking(Stored(s, x, o), todo + {x})
  {
    hide Shape, Owned, Survivors, Palette, AddsLive, Replaces, Lists, Traced;
    var t := Stored(s, x, o);
    ReplacesIn(s.heap, x, o);
    StoredShape(s, x, o);
    StoredSurvivors(s, x, o);
    KindsKeepLists(s, t.heap);
    forall z | z in t.heap && Marked(t, z) && z !in t.gray && z !in todo + {x}
      ensures Traced(t, z)
    {
      assert Marked(s, z);
      StoredTraced(s, x, o, z);
    }
  }

  // ----- Barriers -----

  /** lgc.c `luaC_barrierf` outside the propagate phase: the written object turns white. */
  lemma PaintWhite(s: State, x: Id)
    requires Inv(s) && s.phase != Propagate && Live(s, x)
    ensures Inv(s.(col := s.col[x := White(s.cw)]))
  {
    hide Points, Linked, OwnedRoots, OwnedStrings;
    var t := s.(col := s.col[x := White(s.cw)]);
    assert t.col.Keys == s.col.Keys;
    assert forall z :: Live(t, z) == Live(s, z);
    assert forall z :: Root(t, z) == Root(s, z);
    if s.phase == Sweep {
      forall i | 0 <= i < t.sweepPos && i < |t.rootgc + t.udatas|
        ensures Swept(t, (t.rootgc + t.udatas)[i])
      {
        assert Swept(s, (s.rootgc + s.udatas)[i]);
      }
    }
  }

  function BackBarrier(s: State, x: Id): State {
    s.(col := s.col[x := Gray], grayagain := [x] + s.grayagain)
  }

  /** lgc.c `luaC_barrierback` while sweeping. */
  lemma BackSweeping(s: State, x: Id)
    requires Inv(s) && s.phase != Propagate && x in s.heap && s.heap[x].Table? && s.col[x] == Black
    ensures Inv(BackBarrier(s, x))
  {
    hide Points, Linked, OwnedStrings;
    var t := BackBarrier(s, x);
    assert t.col.Keys == s.col.Keys;
    assert forall z :: Live(t, z) == Live(s, z);
    assert forall z :: Root(t, z) == Root(s, z);
    if s.phase == Sweep {
      forall i | 0 <= i < t.sweepPos && i < |t.rootgc + t.udatas|
        ensures Swept(t, (t.rootgc + t.udatas)[i])
      {
        assert Swept(s, (s.rootgc + s.udatas)[i]);
        if s.heap[(s.rootgc + s.udatas)[i]].Thread? {
          OpenupNot(s, (s.rootgc + s.udatas)[i], x);
        }
      }
    }
  }

  /** lgc.c `luaC_barrierback` while marking: the table joins `grayagain`. */
  lemma BackLists(s: State, x: Id)
    requires Lists(s) && x in s.heap && s.heap[x].Table? && x in s.col && s.col[x] == Black
    ensures Lists(BackBarrier(s, x))
  {
    var t := BackBarrier(s, x);
    assert !Listed(s, x);
    assert forall z :: Listed(t, z) <==> Listed(s, z) || z == x;
    NoDupCons(x, s.grayagain);
    hide NoDup;
  }

  lemma BackSurvivors(s: State, x: Id)
    requires Survivors(s) && Palette(s) && x in s.heap && s.heap[x].Table? && x in s.col && s.col[x] == Black
    ensures Survivors(BackBarrier(s, x)) && Palette(BackBarrier(s, x))
  {
    hide Points;
    var t := BackBarrier(s, x);
    assert forall z :: Live(t, z) == Live(s, z);
    assert forall z :: Root(t, z) == Root(s, z);
  }

  lemma BackMarking(s: State, x: Id, todo: set<Id>)
    requires Marking(s, todo + {x}) && x in s.heap && s.heap[x].Table? && s.col[x] == Black
    ensures Marking(BackBarrier(s, x), todo + {x})
  {
    hide Points, Linked, OwnedRoots, OwnedStrings, Traced, Lists, Survivors, Palette;
    var t := BackBarrier(s, x);
    assert t.col.Keys == s.col.Keys;
    assert forall z :: Live(t, z) == Live(s, z);
    assert forall z :: Marked(t, z) == Marked(s, z);
    BackLists(s, x);
    BackSurvivors(s, x);
    forall z | z in t.heap && Marked(t, z) && z !in t.gray && z !in todo + {x}
      ensures Traced(t, z)
    {
      assert Traced(s, z);
      PopKeepsTraced(s, t, z);
    }
  }

  // ----- Allocation -----

  function Unbit(s: State, id: Id): State {
    s.(finalized := s.finalized - {id}, weakK := s.weakK - {id}, weakV := s.weakV - {id})
  }

  lemma UnbitFrame(s: State, id: Id)
    ensures var t := Unbit(s, id);
      t == s.(finalized := t.finalized, weakK := t.weakK, weakV := t.weakV)
  {
  }

  /** lgc.c `luaC_link`: a new object, white and first on `rootgc`. */
  function Linking(s: State, id: Id, o: Obj): State {
    Unbit(s, id).(heap := s.heap[id := o], col := s.col[id := White(s.cw)], rootgc := [id] + s.rootgc,
                  sweepPos := if s.sweepPos == 0 then 0 else s.sweepPos + 1, held := s.held + {id})
  }

  /** lstring.c `luaS_newudata`: a new userdata, right behind the main thread. */
  function NewUdata(s: State, id: Id, o: Obj): State {
    Unbit(s, id).(heap := s.heap[id := o], col := s.col[id := White(s.cw)], udatas := [id] + s.udatas,
                  sweepPos := if s.sweepPos <= |s.rootgc| then s.sweepPos else s.sweepPos + 1, held := s.held + {id})
  }

  /** lstring.c `newlstr`: a new string at the head of a bucket. */
  function NewString(s: State, id: Id, b: nat): State
    requires b < |s.strt|
  {
    Unbit(s, id).(heap := s.heap[id := Str(false)], col := s.col[id := White(s.cw)],
                  strt := s.strt[b := s.strt[b] + {id}], held := s.held + {id})
  }

  /** Only references to live objects are built into a new object. */
  ghost predicate Fresh(s: State, id: Id, o: Obj) {
    && id !in s.heap
    && !IsOpen(o) && (o.Thread? ==> o.openup == {})
    && forall y :: Points(s.heap[id := o], id, y) ==> Live(s, y)
  }

  lemma FreshPoints(s: State, id: Id, o: Obj, z: Id, y: Id)
    requires Shape(s) && id !in s.heap && z in s.heap
    ensures Points(s.heap[id := o], z, y) == Points(s.heap, z, y)
    ensures Strong(s.heap[id := o], z, y) == Strong(s.heap, z, y)
  {
    if IsOpen(s.heap[z]) {
      assert s.heap[z].home.owner in s.heap;
    }
  }

  /** Common to all allocations: a white object that refers to live ones joins the heap. */
  lemma FreshLinked(h: Heap, h': Heap, id: Id, o: Obj)
    requires Linked(h) && id !in h && h' == h[id := o] && !IsOpen(o) && (o.Thread? ==> o.openup == {})
    ensures Linked(h')
  {
  }

  lemma FreshSurvivors(s: State, t: State, id: Id, o: Obj)
    requires Inv(s) && Fresh(s, id, o)
    requires t.heap == s.heap[id := o] && t.col == s.col[id := White(s.cw)] && t.cw == s.cw
    requires forall x :: Root(t, x) <==> Root(s, x) || x == id
    ensures Survivors(t) && Palette(t) && t.col.Keys == t.heap.Keys && Linked(t.heap)
  {
    hide Owned, InPhase, Points, Root;
    assert forall z :: Live(t, z) <==> Live(s, z) || z == id;
    FreshLinked(s.heap, t.heap, id, o);
    hide Linked;
    forall z, y | z in t.heap && Live(t, z) && Points(t.heap, z, y)
      ensures Live(t, y)
    {
      if z != id {
        FreshPoints(s, id, o, z, y);
      }
    }
  }

  lemma FreshTraced(s: State, t: State, id: Id, o: Obj, x: Id)
    requires Shape(s) && id !in s.heap && t.heap == s.heap[id := o] && t.col == s.col[id := White(s.cw)]
    requires t.weak == s.weak && t.weakK == s.weakK - {id} && t.weakV == s.weakV - {id}
    requires x in s.heap && Traced(s, x)
    ensures Traced(t, x)
  {
    hide Points, Strong, Shape;
    assert s.col.Keys == s.heap.Keys by { ShapeKeys(s); }
    assert forall y :: Marked(s, y) ==> Marked(t, y);
    if x in s.weak {
      assert forall v :: MarkedV(s, v) ==> MarkedV(t, v);
    } else {
      forall y | Strong(t.heap, x, y)
        ensures Marked(t, y)
      {
        FreshPoints(s, id, o, x, y);
      }
    }
  }

  lemma FreshLists(s: State, t: State, id: Id, o: Obj)
    requires Lists(s) && s.col.Keys == s.heap.Keys && id !in s.heap
    requires t.heap == s.heap[id := o] && t.col == s.col[id := White(s.cw)]
    requires t.gray == s.gray && t.grayagain == s.grayagain && t.weak == s.weak
    ensures Lists(t)
  {
    assert forall x :: Listed(t, x) == Listed(s, x);
  }

  /** Allocation while marking: the new object is white and on no gray list. */
  lemma FreshPropagating(s: State, t: State, id: Id, o: Obj)
    requires Inv(s) && s.phase == Propagate && Fresh(s, id, o)
    requires t.heap == s.heap[id := o] && t.col == s.col[id := White(s.cw)] && t.cw == s.cw
    requires t.gray == s.gray && t.grayagain == s.grayagain && t.weak == s.weak && t.tmu == s.tmu
    requires t.weakK == s.weakK - {id} && t.weakV == s.weakV - {id} && t.main == s.main && t.registry == s.registry
    ensures Propagating(t)
  {
    hide Points, Owned, Palette, Survivors, Traced, Fresh, Lists, Shape;
    ShapeKeys(s);
    FreshFacts(s, id, o);
    FreshLists(s, t, id, o);
    assert Todo(t) == Todo(s);
    assert forall x :: Marked(t, x) == Marked(s, x);
    hide Todo;
    forall x | x in t.heap && Marked(t, x) && x !in t.gray && x !in Todo(t)
      ensures Traced(t, x)
    {
      assert Marked(s, x) && Traced(s, x);
      FreshTraced(s, t, id, o, x);
    }
  }

  lemma FreshFacts(s: State, id: Id, o: Obj)
    requires Fresh(s, id, o)
    ensures id !in s.heap && !IsOpen(o)
  {
  }

  lemma SweptStays(s: State, t: State, id: Id, o: Obj, x: Id)
    requires Shape(s) && id !in s.heap && t.heap == s.heap[id := o] && t.col == s.col[id := White(s.cw)] && t.cw == s.cw
    requires Swept(s, x)
    ensures Swept(t, x)
  {
  }

  lemma LinkingPhase(s: State, id: Id, o: Obj)
    requires Inv(s) && Fresh(s, id, o)
    ensures InPhase(Linking(s, id, o))
  {
    hide Points, Linked, OwnedRoots, Palette, Survivors, Swept, Propagating;
    var t := Linking(s, id, o);
    if s.phase == Propagate {
      hide Inv, Fresh;
      FreshPropagating(s, t, id, o);
    } else {
      assert forall b, x :: 0 <= b < |s.strt| && x in s.strt[b] ==> x != id;
      if s.phase == Sweep {
        forall i | 0 <= i < t.sweepPos && i < |t.rootgc + t.udatas|
          ensures Swept(t, (t.rootgc + t.udatas)[i])
        {
          if i == 0 {
            FreshSwept(t, id);
          } else {
            assert (t.rootgc + t.udatas)[i] == (s.rootgc + s.udatas)[i - 1];
            assert Swept(s, (s.rootgc + s.udatas)[i - 1]);
            SweptStays(s, t, id, o, (s.rootgc + s.udatas)[i - 1]);
          }
        }
      }
    }
  }

  lemma FreshSwept(t: State, id: Id)
    requires id in t.heap && id in t.col && t.col[id] == White(t.cw) && (t.heap[id].Thread? ==> t.heap[id].openup == {})
    ensures Swept(t, id)
  {
  }

  lemma LinkingKeeps(s: State, id: Id, o: Obj)
    requires Inv(s) && Fresh(s, id, o) && (Container(o) || o.Upval?)
    ensures Inv(Linking(s, id, o))
  {
    hide InPhase, Owned, Survivors, Palette, Linked, Points, Fresh;
    var t := Linking(s, id, o);
    FreshFacts(s, id, o);
    LinkingPhase(s, id, o);
    LinkingOwned(s, id, o);
    assert forall x :: Root(t, x) <==> Root(s, x) || x == id;
    hide Root;
    FreshSurvivors(s, t, id, o);
  }

  lemma LinkingOwned(s: State, id: Id, o: Obj)
    requires Inv(s) && Fresh(s, id, o) && (Container(o) || o.Upval?)
    ensures Owned(Linking(s, id, o))
  {
    hide Points, Linked, Palette, Survivors, InPhase;
    var t := Linking(s, id, o);
    assert OwnedStrings(t.heap, t.strt) by { hide OwnedRoots, InTable; }
    assert OwnedRoots(t.heap, t.rootgc, t.udatas, t.tmu) by {
      hide OwnedStrings;
      assert id !in s.rootgc;
      NoDupCons(id, s.rootgc);
    }
  }

  lemma NewUdataOwned(s: State, id: Id, o: Obj)
    requires Inv(s) && Fresh(s, id, o) && o.Udata?
    ensures Owned(NewUdata(s, id, o))
  {
    hide Points, Linked, Palette, Survivors, InPhase;
    var t := NewUdata(s, id, o);
    assert OwnedStrings(t.heap, t.strt) by { hide OwnedRoots, InTable; }
    assert OwnedRoots(t.heap, t.rootgc, t.udatas, t.tmu) by {
      hide OwnedStrings;
      assert id !in s.udatas && id !in s.tmu && id !in s.rootgc;
      NoDupCons(id, s.udatas);
    }
  }

  lemma NewUdataPhase(s: State, id: Id, o: Obj)
    requires Inv(s) && Fresh(s, id, o) && o.Udata?
    ensures InPhase(NewUdata(s, id, o))
  {
    hide Points, Linked, OwnedRoots, Palette, Survivors, Swept, Propagating;
    var t := NewUdata(s, id, o);
    if s.phase == Propagate {
      hide Inv, Fresh;
      FreshPropagating(s, t, id, o);
    } else {
      assert forall b, x :: 0 <= b < |s.strt| && x in s.strt[b] ==> x != id;
      if s.phase == Sweep {
        forall i | 0 <= i < t.sweepPos && i < |t.rootgc + t.udatas|
          ensures Swept(t, (t.rootgc + t.udatas)[i])
        {
          if i < |s.rootgc| {
            assert (t.rootgc + t.udatas)[i] == (s.rootgc + s.udatas)[i];
            assert Swept(s, (s.rootgc + s.udatas)[i]);
            SweptStays(s, t, id, o, (s.rootgc + s.udatas)[i]);
          } else if i == |s.rootgc| {
            FreshSwept(t, id);
          } else {
            assert (t.rootgc + t.udatas)[i] == (s.rootgc + s.udatas)[i - 1];
            assert Swept(s, (s.rootgc + s.udatas)[i - 1]);
            SweptStays(s, t, id, o, (s.rootgc + s.udatas)[i - 1]);
          }
        }
      }
    }
  }

  lemma NewUdataKeeps(s: State, id: Id, o: Obj)
    requires Inv(s) && Fresh(s, id, o) && o.Udata?
    ensures Inv(NewUdata(s, id, o))
  {
    hide InPhase, Owned, Survivors, Palette, Linked, Points, Fresh;
    var t := NewUdata(s, id, o);
    FreshFacts(s, id, o);
    NewUdataPhase(s, id, o);
    NewUdataOwned(s, id, o);
    assert forall x :: Root(t, x) <==> Root(s, x) || x == id;
    hide Root;
    FreshSurvivors(s, t, id, o);
  }

  lemma NewStringOwned(s: State, id: Id, b: nat)
    requires Inv(s) && id !in s.heap && b < |s.strt|
    ensures Owned(NewString(s, id, b))
  {
    hide Points, Linked, Palette, Survivors, InPhase;
    var t := NewString(s, id, b);
    assert OwnedRoots(t.heap, t.rootgc, t.udatas, t.tmu) by { hide OwnedStrings, InTable; }
    assert OwnedStrings(t.heap, t.strt) by {
      hide OwnedRoots;
      forall x | x in t.heap && t.heap[x].Str?
        ensures InTable(t.strt, x)
      {
        if x == id {
          assert id in t.strt[b];
        } else {
          assert InTable(s.strt, x);
          var c :| 0 <= c < |s.strt| && x in s.strt[c];
          assert x in t.strt[c];
        }
      }
    }
  }

  lemma FreshString(s: State, id: Id)
    requires Inv(s) && id !in s.heap
    ensures Fresh(s, id, Str(false))
  {
    hide Inv;
  }

  lemma NewStringSwept(s: State, id: Id, b: nat)
    requires Inv(s) && id !in s.heap && b < |s.strt| && s.phase == Sweep
    ensures RootsSwept(NewString(s, id, b), s.sweepPos)
  {
    hide Points, Linked, OwnedRoots, OwnedStrings, Palette, Survivors, Swept, StringsSwept;
    var t := NewString(s, id, b);
    forall i | 0 <= i < t.sweepPos && i < |t.rootgc + t.udatas|
      ensures Swept(t, (t.rootgc + t.udatas)[i])
    {
      assert Swept(s, (s.rootgc + s.udatas)[i]);
      SweptStays(s, t, id, Str(false), (s.rootgc + s.udatas)[i]);
    }
  }

  lemma NewStringBuckets(s: State, id: Id, b: nat, n: nat)
    requires id !in s.heap && b < |s.strt| && StringsSwept(s, n)
    ensures StringsSwept(NewString(s, id, b), n)
  {
  }

  lemma NewStringPhase(s: State, id: Id, b: nat)
    requires Inv(s) && id !in s.heap && b < |s.strt|
    ensures InPhase(NewString(s, id, b))
  {
    FreshString(s, id);
    hide Points, Linked, OwnedRoots, OwnedStrings, Palette, Survivors, Swept, Propagating, Fresh, RootsSwept;
    var t := NewString(s, id, b);
    if s.phase == Propagate {
      hide Inv;
      FreshPropagating(s, t, id, Str(false));
    } else if s.phase == Sweep {
      NewStringSwept(s, id, b);
      hide Inv;
      NewStringBuckets(s, id, b, |s.strt|);
    } else if s.phase == SweepString {
      hide Inv;
      NewStringBuckets(s, id, b, s.sweepStr);
    } else {
      hide StringsSwept;
    }
  }

  lemma NewStringKeeps(s: State, id: Id, b: nat)
    requires Inv(s) && id !in s.heap && b < |s.strt|
    ensures Inv(NewString(s, id, b))
  {
    hide InPhase, Owned, Survivors, Palette, Linked;
    var t := NewString(s, id, b);
    NewStringPhase(s, id, b);
    NewStringOwned(s, id, b);
    assert forall x :: Root(t, x) <==> Root(s, x) || x == id;
    hide Root;
    FreshSurvivors(s, t, id, Str(false));
  }

  // ----- Strings that are found in the table -----

  /** lstring.c `luaS_newlstr` on a hit: a dead string is brought back to the current white. */
  function Resurrect(s: State, x: Id): State {
    s.(col := if x in s.col && s.col[x] == White(!s.cw) then s.col[x := White(s.cw)] else s.col, held := s.held + {x})
  }

  /** Bringing back an object that refers to live objects only. */
  lemma ResurrectKeeps(s: State, x: Id)
    requires Inv(s) && x in s.heap && forall y :: Points(s.heap, x, y) ==> Live(s, y)
    ensures Inv(Resurrect(s, x))
  {
    hide Points, Linked, OwnedRoots, OwnedStrings, Propagating;
    var t := Resurrect(s, x);
    assert t.col.Keys == s.col.Keys;
    assert forall z :: Live(t, z) <==> Live(s, z) || z == x;
    assert forall z :: Root(t, z) <==> Root(s, z) || z == x;
    assert Survivors(t) && Palette(t);
    ResurrectPhase(s, x);
  }

  lemma ResurrectPhase(s: State, x: Id)
    requires Inv(s) && x in s.heap
    ensures InPhase(Resurrect(s, x))
  {
    hide Points, Linked, Owned, Palette, Survivors;
    var t := Resurrect(s, x);
    if s.phase == Propagate {
      assert t.col == s.col;
      RootsPhase(s, t);
    } else if s.phase == Sweep {
      forall i | 0 <= i < t.sweepPos && i < |t.rootgc + t.udatas|
        ensures Swept(t, (t.rootgc + t.udatas)[i])
      {
        assert Swept(s, (s.rootgc + s.udatas)[i]);
      }
    }
  }

  /** Changing roots: new roots are live. */
  lemma RootsKeep(s: State, t: State)
    requires Inv(s) && t == s.(held := t.held, running := t.running, mts := t.mts)
    requires forall x :: Root(t, x) ==> Root(s, x) || Live(s, x)
    requires t.running in s.heap && s.heap[t.running].Thread?
    ensures Inv(t)
  {
    hide Points, Linked, OwnedRoots, OwnedStrings, Root, InPhase;
    assert forall z :: Live(t, z) == Live(s, z);
    assert Survivors(t) && Palette(t) && Shape(t);
    hide Survivors, Palette, Shape, Owned;
    RootsPhase(s, t);
  }

  lemma RootsPhase(s: State, t: State)
    requires t == s.(held := t.held, running := t.running, mts := t.mts)
    ensures InPhase(t) == InPhase(s)
  {
    hide Points, Strong, Shape, Owned, Palette, Survivors;
    assert forall x :: Marked(t, x) == Marked(s, x);
    assert forall v :: MarkedV(t, v) == MarkedV(s, v);
    assert forall x :: Listed(t, x) == Listed(s, x);
    assert Todo(t) == Todo(s);
    assert forall x :: Swept(t, x) == Swept(s, x);
    assert forall x :: x in s.heap ==> WeakTraced(t, x) == WeakTraced(s, x) && FullyTraced(t, x) == FullyTraced(s, x);
  }

  /** lstring.c `luaS_resize`, which is refused while strings are being swept: any
      redistribution of the strings over buckets. */
  lemma ResizeKeeps(s: State, strt: seq<set<Id>>)
    requires Inv(s) && s.phase != SweepString && 0 < |strt| && OwnedStrings(s.heap, strt)
    ensures Inv(s.(strt := strt))
  {
    hide Points, Linked, OwnedRoots;
    var t := s.(strt := strt);
    assert forall z :: Live(t, z) == Live(s, z);
    assert forall z :: Root(t, z) == Root(s, z);
    assert Survivors(t) && Palette(t);
    if s.phase == Sweep {
      forall b, x | 0 <= b < |strt| && x in strt[b]
        ensures x in t.col && t.col[x] == White(t.cw)
      {
        assert InTable(s.strt, x);
      }
      assert forall x :: Swept(t, x) == Swept(s, x);
    } else if s.phase == Propagate {
      ResizePropagating(s, strt);
    }
  }

  lemma ResizePropagating(s: State, strt: seq<set<Id>>)
    requires Propagating(s)
    ensures Propagating(s.(strt := strt))
  {
    hide Points, Strong;
    var t := s.(strt := strt);
    assert forall x :: Marked(t, x) == Marked(s, x);
    assert forall v :: MarkedV(t, v) == MarkedV(s, v);
    assert forall x :: Listed(t, x) == Listed(s, x);
    assert Todo(t) == Todo(s);
    assert forall x :: x in s.heap ==> WeakTraced(t, x) == WeakTraced(s, x) && FullyTraced(t, x) == FullyTraced(s, x);
  }
}
