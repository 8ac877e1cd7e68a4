/** Open upvalues inside the collector: creating, closing and freeing them. */
module GcUpvals {
  import opened GcState
  import opened GcMark
  import opened GcTrace
  import opened GcGrow
  import opened GcAtomic
  import opened GcSweep
  import opened GcMutator

  // ----- Creating an open upvalue -----

  function WithOpen(h: Heap, th: Id, i: nat, u: Id): Heap
    requires th in h && h[th].Thread?
  {
    h[u := Upval(Open(th, i))][th := h[th].(openup := h[th].openup + {u})]
  }

  /** lfunc.c `luaF_findupval` when the slot has no upvalue yet. */
  function Found(s: State, th: Id, i: nat, u: Id): State
    requires th in s.heap && s.heap[th].Thread?
  {
    Unbit(s, u).(heap := WithOpen(s.heap, th, i, u), col := s.col[u := White(s.cw)], held := s.held + {u})
  }

  ghost predicate CanFind(s: State, th: Id, i: nat, u: Id) {
    Inv(s) && th in s.heap && s.heap[th].Thread? && Live(s, th) && i < |s.heap[th].stack| && u !in s.heap
  }

  lemma FoundLinked(h: Heap, th: Id, i: nat, u: Id)
    requires Linked(h) && th in h && h[th].Thread? && i < |h[th].stack| && u !in h
    ensures Linked(WithOpen(h, th, i, u))
    ensures forall x :: x in WithOpen(h, th, i, u) <==> x in h || x == u
    ensures forall x :: x in h ==> SameKind(h[x], WithOpen(h, th, i, u)[x])
  {
  }

  lemma FoundPoints(h: Heap, th: Id, i: nat, u: Id, x: Id, y: Id)
    requires Linked(h) && th in h && h[th].Thread? && i < |h[th].stack| && u !in h && x in h
    ensures Points(WithOpen(h, th, i, u), x, y) == Points(h, x, y)
    ensures Strong(WithOpen(h, th, i, u), x, y) == Strong(h, x, y)
    ensures Points(WithOpen(h, th, i, u), u, y) <==> h[th].stack[i] == Ref(y)
  {
  }

  lemma FoundPalette(s: State, th: Id, i: nat, u: Id)
    requires CanFind(s, th, i, u)
    ensures Palette(Found(s, th, i, u))
  {
    hide Owned, InPhase, Points, Survivors;
    FoundLinked(s.heap, th, i, u);
    hide Linked;
  }

  lemma FoundSurvivors(s: State, th: Id, i: nat, u: Id)
    requires CanFind(s, th, i, u)
    ensures Survivors(Found(s, th, i, u)) && Palette(Found(s, th, i, u)) && Shape(Found(s, th, i, u))
  {
    hide Owned, InPhase, Points;
    var t := Found(s, th, i, u);
    FoundLinked(s.heap, th, i, u);
    FoundPalette(s, th, i, u);
    hide Linked, Palette, SameKind;
    assert forall z :: Live(t, z) <==> Live(s, z) || z == u;
    assert forall z :: Root(t, z) <==> Root(s, z) || z == u;
    forall z, y | z in t.heap && Live(t, z) && Points(t.heap, z, y)
      ensures Live(t, y)
    {
      if z == u {
        FoundPoints(s.heap, th, i, u, th, y);
        StackLive(s, th, i, y);
      } else {
        FoundPoints(s.heap, th, i, u, z, y);
      }
    }
  }

  lemma StackLive(s: State, th: Id, i: nat, y: Id)
    requires Survivors(s) && Live(s, th) && s.heap[th].Thread? && i < |s.heap[th].stack|
      && s.heap[th].stack[i] == Ref(y)
    ensures Live(s, y)
  {
    assert Points(s.heap, th, y);
  }

  lemma FoundOwned(s: State, th: Id, i: nat, u: Id)
    requires CanFind(s, th, i, u)
    ensures Owned(Found(s, th, i, u))
  {
    hide Points, Palette, Survivors, InPhase;
    var t := Found(s, th, i, u);
    FoundLinked(s.heap, th, i, u);
    hide Linked;
    assert OwnedStrings(t.heap, t.strt) by { hide OwnedRoots, InTable; }
    assert OwnedRoots(t.heap, t.rootgc, t.udatas, t.tmu) by { hide OwnedStrings; }
  }

  lemma FoundTraced(s: State, th: Id, i: nat, u: Id, x: Id)
    requires CanFind(s, th, i, u) && x in s.heap && Traced(s, x)
    ensures x in Found(s, th, i, u).heap && Traced(Found(s, th, i, u), x)
  {
    hide Points, Strong, Owned, InPhase, Palette, Survivors;
    var t := Found(s, th, i, u);
    assert forall y :: Marked(s, y) ==> Marked(t, y);
    if x in s.weak {
      assert forall v :: MarkedV(s, v) ==> MarkedV(t, v);
    } else {
      forall y | Strong(t.heap, x, y)
        ensures Marked(t, y)
      {
        FoundPoints(s.heap, th, i, u, x, y);
      }
    }
  }

  lemma ListsStay(s: State, t: State, u: Id)
    requires Lists(s) && t.gray == s.gray && t.grayagain == s.grayagain && t.weak == s.weak && u !in s.heap
    requires t.heap.Keys == s.heap.Keys + {u} && !Container(t.heap[u]) && t.col.Keys == s.col.Keys + {u}
    requires forall x :: x in s.heap ==>
      t.heap[x].Table? == s.heap[x].Table? && t.heap[x].Thread? == s.heap[x].Thread?
        && Container(t.heap[x]) == Container(s.heap[x])
    requires forall x :: x in s.col && x != u ==> t.col[x] == s.col[x]
    ensures Lists(t)
  {
    hide NoDup, Container;
    assert forall x :: Listed(t, x) == Listed(s, x);
  }

  lemma FoundLists(s: State, th: Id, i: nat, u: Id)
    requires CanFind(s, th, i, u) && Lists(s)
    ensures Lists(Found(s, th, i, u))
  {
    hide Inv, NoDup, Lists;
    var t := Found(s, th, i, u);
    assert forall x :: x in s.heap ==>
      x in t.heap && t.heap[x].Table? == s.heap[x].Table? && t.heap[x].Thread? == s.heap[x].Thread?
        && Container(t.heap[x]) == Container(s.heap[x]);
    assert t.heap.Keys == s.heap.Keys + {u} && !Container(t.heap[u]) && forall x :: x in s.col && x != u ==>
      t.col[x] == s.col[x];
    hide Found;
    ListsStay(s, t, u);
  }

  lemma FoundFacts(s: State, th: Id, i: nat, u: Id)
    requires CanFind(s, th, i, u)
    ensures var t := Found(s, th, i, u);
      && Todo(t) == Todo(s) + {u} && t.gray == s.gray
      && (forall x :: x in t.heap <==> x in s.heap || x == u)
      && (forall x :: Marked(t, x) == Marked(s, x))
      && (NoDead(s) ==> NoDead(t))
      && t.main == s.main && t.registry == s.registry
  {
    hide Points, Palette, Survivors, Linked, Owned, InPhase;
  }

  lemma FoundPropagating(s: State, th: Id, i: nat, u: Id)
    requires CanFind(s, th, i, u) && s.phase == Propagate
    ensures Propagating(Found(s, th, i, u))
  {
    hide Points, Palette, Survivors, Shape, Owned, Traced, Lists, Found, Todo, NoDead, Marked;
    FoundLists(s, th, i, u);
    FoundFacts(s, th, i, u);
    var t := Found(s, th, i, u);
    forall x | x in t.heap && Marked(t, x) && x !in t.gray && x !in Todo(t)
      ensures Traced(t, x)
    {
      assert Traced(s, x);
      FoundTraced(s, th, i, u, x);
    }
  }

  lemma FoundSweeping(s: State, th: Id, i: nat, u: Id)
    requires CanFind(s, th, i, u) && s.phase == Sweep
    ensures RootsSwept(Found(s, th, i, u), s.sweepPos)
  {
    hide Points, Palette, Survivors, Linked, Owned, StringsSwept;
    var t := Found(s, th, i, u);
    forall j | 0 <= j < t.sweepPos && j < |t.rootgc + t.udatas|
      ensures Swept(t, (t.rootgc + t.udatas)[j])
    {
      assert Swept(s, (s.rootgc + s.udatas)[j]);
    }
  }

  lemma FoundPhase(s: State, th: Id, i: nat, u: Id)
    requires CanFind(s, th, i, u)
    ensures InPhase(Found(s, th, i, u))
  {
    hide Points, Palette, Survivors, Linked, OwnedRoots, Propagating, RootsSwept;
    if s.phase == Propagate {
      FoundPropagating(s, th, i, u);
    } else {
      assert forall b, x :: 0 <= b < |s.strt| && x in s.strt[b] ==> x != u;
      hide OwnedStrings;
      if s.phase == Sweep { FoundSweeping(s, th, i, u); }
    }
  }

  lemma FoundKeeps(s: State, th: Id, i: nat, u: Id)
    requires CanFind(s, th, i, u)
    ensures Inv(Found(s, th, i, u))
  {
    FoundSurvivors(s, th, i, u);
    FoundOwned(s, th, i, u);
    FoundPhase(s, th, i, u);
    hide Shape, Owned, Survivors, Palette, InPhase;
  }

  // ----- Closing an open upvalue -----

  function WithClosed(h: Heap, u: Id): Heap
    requires u in h && IsOpen(h[u])
  {
    var th := h[u].home.owner;
    var h' := h[u := Upval(Closed(UpvalValue(h, h[u].home)))];
    if th in h && h[th].Thread? then h'[th := h[th].(openup := h[th].openup - {u})] else h'
  }

  /** lfunc.c `luaF_close` and lgc.c `luaC_linkupval` for one live upvalue, up to the barrier:
      the value moves into the upvalue, which joins `rootgc`. */
  function ClosedWith(s: State, u: Id, c: Colour): State
    requires u in s.heap && IsOpen(s.heap[u])
  {
    s.(heap := WithClosed(s.heap, u), col := s.col[u := c], rootgc := [u] + s.rootgc,
       sweepPos := if s.sweepPos == 0 then 0 else s.sweepPos + 1)
  }

  lemma ClosedHeap(h: Heap, u: Id)
    requires Linked(h) && u in h && IsOpen(h[u])
    ensures WithClosed(h, u).Keys == h.Keys && Linked(WithClosed(h, u))
    ensures forall x :: x in h && x != u ==> SameKind(h[x], WithClosed(h, u)[x])
    ensures WithClosed(h, u)[u].Upval? && WithClosed(h, u)[u].home.Closed?
    ensures forall x :: x in h && x != u && !h[x].Thread? ==> WithClosed(h, u)[x] == h[x]
    ensures forall x :: x in h && h[x].Thread? ==>
      WithClosed(h, u)[x].openup <= h[x].openup && WithClosed(h, u)[x] == h[x].(openup := WithClosed(h, u)[x].openup)
  {
    ClosedLinked(h, u);
    hide Linked;
  }

  lemma ClosedLinked(h: Heap, u: Id)
    requires Linked(h) && u in h && IsOpen(h[u])
    ensures Linked(WithClosed(h, u))
    ensures var th := h[u].home.owner; th in h && h[th].Thread?
  {
  }

  lemma ClosedPoints(h: Heap, u: Id, x: Id, y: Id)
    requires Linked(h) && u in h && IsOpen(h[u]) && x in h
    ensures WithClosed(h, u).Keys == h.Keys
    ensures Points(WithClosed(h, u), x, y) == Points(h, x, y)
    ensures Strong(WithClosed(h, u), x, y) == Strong(h, x, y)
  {
    assert WithClosed(h, u).Keys == h.Keys;
  }

  lemma ClosedStrings(h: Heap, h': Heap, u: Id, strt: seq<set<Id>>)
    requires OwnedStrings(h, strt) && h'.Keys == h.Keys && u in h && IsOpen(h[u]) && h'[u].Upval?
    requires forall x :: x in h && x != u ==> SameKind(h[x], h'[x])
    ensures OwnedStrings(h', strt)
  {
    hide InTable;
  }

  lemma ClosedRoots(h: Heap, h': Heap, u: Id, rootgc: seq<Id>, udatas: seq<Id>, tmu: seq<Id>)
    requires OwnedRoots(h, rootgc, udatas, tmu) && h'.Keys == h.Keys && u in h && IsOpen(h[u]) && h'[u].Upval?
      && !IsOpen(h'[u])
    requires forall x :: x in h && x != u ==> SameKind(h[x], h'[x])
    ensures OwnedRoots(h', [u] + rootgc, udatas, tmu)
  {
    assert u !in rootgc;
    NoDupCons(u, rootgc);
    hide NoDup;
  }

  lemma ClosedOwned(s: State, u: Id, c: Colour)
    requires Shape(s) && Owned(s) && u in s.heap && IsOpen(s.heap[u])
    ensures Owned(ClosedWith(s, u, c))
  {
    hide Points, Linked, WithClosed, OwnedRoots, OwnedStrings;
    var t := ClosedWith(s, u, c);
    ClosedHeap(s.heap, u);
    assert OwnedStrings(t.heap, t.strt) by { ClosedStrings(s.heap, t.heap, u, s.strt); }
    assert OwnedRoots(t.heap, t.rootgc, t.udatas,
                      t.tmu) by { ClosedRoots(s.heap, t.heap, u, s.rootgc, s.udatas, s.tmu); }
  }

  lemma ClosedSurvivors(s: State, u: Id, c: Colour)
    requires Shape(s) && Survivors(s) && u in s.heap && IsOpen(s.heap[u]) && Live(s, u) && c != White(!s.cw)
    ensures Survivors(ClosedWith(s, u, c))
  {
    hide Points;
    var t := ClosedWith(s, u, c);
    ClosedHeap(s.heap, u);
    assert forall z :: Live(t, z) <==> Live(s, z);
    assert forall z :: Root(t, z) <==> Root(s, z);
    forall z, y | z in t.heap && Live(t, z) && Points(t.heap, z, y)
      ensures Live(t, y)
    {
      ClosedPoints(s.heap, u, z, y);
    }
  }

  lemma ClosedLive(s: State, u: Id, c: Colour)
    requires Shape(s) && u in s.heap && IsOpen(s.heap[u]) && c != White(!s.cw)
    ensures LiveStays(s, ClosedWith(s, u, c))
  {
    ClosedHeap(s.heap, u);
    hide WithClosed, Linked;
  }

  lemma ClosedShape(s: State, u: Id, c: Colour)
    requires Shape(s) && Palette(s) && u in s.heap && IsOpen(s.heap[u]) && c != Gray
    ensures Shape(ClosedWith(s, u, c)) && Palette(ClosedWith(s, u, c))
  {
    hide Points;
    ClosedHeap(s.heap, u);
    hide Linked, WithClosed;
  }

  /** The gray lists do not see an object that is no container. */
  lemma ListsBut(s: State, t: State, u: Id)
    requires Lists(s) && t.gray == s.gray && t.grayagain == s.grayagain && t.weak == s.weak
    requires t.heap.Keys == s.heap.Keys && u in s.heap && u in t.heap && !Container(s.heap[u]) && !Container(t.heap[u])
    requires forall x :: x != u ==> (x in s.col <==> x in t.col) && (x in s.col ==> t.col[x] == s.col[x])
    requires forall x :: x in s.heap && x != u ==> SameKind(s.heap[x], t.heap[x])
    ensures Lists(t)
  {
    assert forall x :: Listed(t, x) == Listed(s, x);
    assert !Listed(s, u);
  }

  lemma ClosedLists(s: State, u: Id, c: Colour)
    requires Shape(s) && Lists(s) && u in s.heap && IsOpen(s.heap[u])
    ensures Lists(ClosedWith(s, u, c))
  {
    hide Points, Lists;
    ClosedHeap(s.heap, u);
    hide Linked, WithClosed, SameKind;
    ListsBut(s, ClosedWith(s, u, c), u);
  }

  lemma ClosedTraced(s: State, u: Id, c: Colour, x: Id)
    requires Shape(s) && u in s.heap && IsOpen(s.heap[u]) && x in s.heap && x != u && Traced(s, x)
    requires Marked(s, u) ==> !c.White?
    ensures x in ClosedWith(s, u, c).heap && Traced(ClosedWith(s, u, c), x)
  {
    hide Points, Strong;
    var t := ClosedWith(s, u, c);
    ClosedHeap(s.heap, u);
    assert forall y :: Marked(s, y) ==> Marked(t, y);
    if x in s.weak {
      assert forall v :: MarkedV(s, v) ==> MarkedV(t, v);
      assert t.heap[x] == s.heap[x];
    } else {
      forall y | Strong(t.heap, x, y)
        ensures Marked(t, y)
      {
        ClosedPoints(s.heap, u, x, y);
      }
    }
  }

  /** Closing while marking leaves the upvalue itself to be traced. */
  lemma ClosedMarking(s: State, u: Id, c: Colour, todo: set<Id>)
    requires Marking(s, todo + {u}) && u in s.heap && IsOpen(s.heap[u]) && c != Gray && c != White(!s.cw)
    requires s.col[u].White? == c.White?
    ensures Marking(ClosedWith(s, u, c), todo + {u})
  {
    hide Points, Owned, Survivors, Palette, Lists, Shape, Traced, WithClosed;
    var t := ClosedWith(s, u, c);
    assert Live(s, u) by { ShapeKeys(s); }
    ClosedOwned(s, u, c);
    ClosedSurvivors(s, u, c);
    ClosedShape(s, u, c);
    ClosedLists(s, u, c);
    ShapeKeys(s);
    ShapeKeys(t);
    forall x | x in t.heap && Marked(t, x) && x !in t.gray && x !in todo + {u}
      ensures Traced(t, x)
    {
      assert x in s.heap && Marked(s, x) && Traced(s, x);
      ClosedTraced(s, u, c, x);
    }
  }

  lemma ClosedPhase(s: State, u: Id)
    requires Inv(s) && s.phase != Propagate && u in s.heap && IsOpen(s.heap[u])
    ensures InPhase(ClosedWith(s, u, White(s.cw)))
  {
    hide Points, Palette, Survivors, OwnedRoots, Linked, WithClosed;
    var t := ClosedWith(s, u, White(s.cw));
    ClosedHeap(s.heap, u);
    assert forall b, x :: 0 <= b < |s.strt| && x in s.strt[b] ==> x != u;
    if s.phase == Sweep {
      forall j | 0 <= j < t.sweepPos && j < |t.rootgc + t.udatas|
        ensures Swept(t, (t.rootgc + t.udatas)[j])
      {
        if j > 0 {
          assert (t.rootgc + t.udatas)[j] == (s.rootgc + s.udatas)[j - 1];
          assert Swept(s, (s.rootgc + s.udatas)[j - 1]);
        }
      }
    }
  }

  /** Closing a live upvalue outside the propagate phase turns it white. */
  lemma ClosedKeeps(s: State, u: Id)
    requires Inv(s) && s.phase != Propagate && u in s.heap && IsOpen(s.heap[u]) && Live(s, u)
    ensures Inv(ClosedWith(s, u, White(s.cw))) && LiveStays(s, ClosedWith(s, u, White(s.cw)))
  {
    assert LiveStays(s, ClosedWith(s, u, White(s.cw))) by { ClosedLive(s, u, White(s.cw)); }
    hide Shape, Owned, Survivors, Palette, InPhase, Points;
    ClosedOwned(s, u, White(s.cw));
    ClosedSurvivors(s, u, White(s.cw));
    ClosedShape(s, u, White(s.cw));
    ClosedPhase(s, u);
  }

  // ----- Freeing a dead open upvalue -----

  /** lfunc.c `luaF_close` on a dead upvalue. */
  function FreedUpval(s: State, u: Id): State
    requires u in s.heap && IsOpen(s.heap[u])
  {
    var th := s.heap[u].home.owner;
    s.(heap := if th in s.heap && s.heap[th].Thread?
               then (s.heap - {u})[th := s.heap[th].(openup := s.heap[th].openup - {u})] else s.heap - {u},
       col := s.col - {u})
  }

  lemma OwnerOf(h: Heap, u: Id)
    requires Linked(h) && u in h && IsOpen(h[u])
    ensures var th := h[u].home.owner; th in h && h[th].Thread? && u in h[th].openup && th != u
  {
  }

  lemma FreedUpvalHeap(s: State, u: Id)
    requires Shape(s) && u in s.heap && IsOpen(s.heap[u])
    ensures var t := FreedUpval(s, u);
      && t.heap.Keys == s.heap.Keys - {u} && Linked(t.heap)
      && (forall x :: x in t.heap ==> SameKind(s.heap[x], t.heap[x]))
      && (forall x :: x in t.heap && !s.heap[x].Thread? ==> t.heap[x] == s.heap[x])
      && (forall x :: x in t.heap && s.heap[x].Thread? ==> ShrunkThread(s.heap[x], t.heap[x]))
  {
    hide Linked;
    var t, th := FreedUpval(s, u), s.heap[u].home.owner;
    OwnerOf(s.heap, u);
    assert t.heap == (s.heap - {u})[th := s.heap[th].(openup := s.heap[th].openup - {u})];
    OpenLinked(s.heap, t.heap, th, {u});
  }

  predicate ShrunkThread(o: Obj, o': Obj) {
    o.Thread? && o'.Thread? && o'.openup <= o.openup && o' == o.(openup := o'.openup)
  }

  lemma FreedUpvalSurvivors(s: State, u: Id)
    requires Inv(s) && u in s.heap && IsOpen(s.heap[u]) && !Live(s, u)
    ensures Survivors(FreedUpval(s, u)) && Palette(FreedUpval(s, u)) && Shape(FreedUpval(s, u))
  {
    hide Owned, InPhase, Points;
    var t := FreedUpval(s, u);
    FreedUpvalHeap(s, u);
    FreedUpvalFrame(s, u);
    hide Linked, FreedUpval;
    assert forall z :: Live(t, z) <==> Live(s, z);
    assert forall z :: Root(t, z) <==> Root(s, z);
    forall z, y | z in t.heap && Live(t, z) && Points(t.heap, z, y)
      ensures Live(t, y)
    {
      KeptPoints(s, t, z, y);
    }
  }

  lemma FreedUpvalFrame(s: State, u: Id)
    requires u in s.heap && IsOpen(s.heap[u])
    ensures var t := FreedUpval(s, u); t == s.(heap := t.heap, col := s.col - {u})
  {
  }

  lemma KeptPoints(s: State, t: State, z: Id, y: Id)
    requires forall x :: x in t.heap ==> x in s.heap && SameKind(s.heap[x], t.heap[x])
    requires forall x :: x in t.heap && !s.heap[x].Thread? ==> t.heap[x] == s.heap[x]
    requires forall x :: x in t.heap && s.heap[x].Thread? ==> ShrunkThread(s.heap[x], t.heap[x])
    requires z in t.heap && Points(t.heap, z, y)
    ensures Points(s.heap, z, y)
  {
  }

  lemma FreedUpvalOwned(s: State, u: Id)
    requires Inv(s) && u in s.heap && IsOpen(s.heap[u])
    ensures Owned(FreedUpval(s, u))
  {
    hide Points, Palette, OwnedRoots, OwnedStrings, Survivors, InPhase;
    var t := FreedUpval(s, u);
    FreedUpvalHeap(s, u);
    FreedUpvalFrame(s, u);
    hide Linked, FreedUpval, Shape;
    OwnedRootsSame(s.heap, t.heap, s.rootgc, s.udatas, s.tmu);
    OwnedStringsSame(s.heap, t.heap, s.strt);
  }

  lemma FreedUpvalPhase(s: State, u: Id)
    requires Inv(s) && u in s.heap && IsOpen(s.heap[u]) && !Live(s, u)
    ensures InPhase(FreedUpval(s, u))
  {
    hide Points, Palette, Owned, Linked, Survivors, FreedUpval, Lists, Pending, Swept;
    var t := FreedUpval(s, u);
    FreedUpvalHeap(s, u);
    FreedUpvalFrame(s, u);
    StringsNotOpen(s, u);
    ShapeKeys(s);
    assert s.phase != Propagate;
    hide Propagating, Shape;
    if s.phase == Sweep {
      forall j | 0 <= j < t.sweepPos && j < |t.rootgc + t.udatas|
        ensures Swept(t, (t.rootgc + t.udatas)[j])
      {
        assert Swept(s, (s.rootgc + s.udatas)[j]);
        RootNotOpen(s, j);
        FreedUpvalSwept(s, t, u, (s.rootgc + s.udatas)[j]);
      }
    }
  }

  lemma FreedUpvalSwept(s: State, t: State, u: Id, x: Id)
    requires Swept(s, x) && x != u && t.heap.Keys == s.heap.Keys - {u} && t.col == s.col - {u} && t.cw == s.cw
    requires x in t.heap && SameKind(s.heap[x], t.heap[x]) && Linked(t.heap)
    requires s.heap[x].Thread? ==> ShrunkThread(s.heap[x], t.heap[x])
    ensures Swept(t, x)
  {
  }

  lemma StringsNotOpen(s: State, u: Id)
    requires Owned(s) && u in s.heap && IsOpen(s.heap[u])
    ensures forall b, x :: 0 <= b < |s.strt| && x in s.strt[b] ==> x != u
  {
  }

  lemma FreedUpvalLive(s: State, u: Id)
    requires Shape(s) && u in s.heap && IsOpen(s.heap[u]) && !Live(s, u)
    ensures LiveStays(s, FreedUpval(s, u))
  {
    FreedUpvalHeap(s, u);
    hide Linked;
  }

  lemma FreedUpvalKeeps(s: State, u: Id)
    requires Inv(s) && u in s.heap && IsOpen(s.heap[u]) && !Live(s, u)
    ensures Inv(FreedUpval(s, u)) && LiveStays(s, FreedUpval(s, u))
  {
    hide Shape, Owned, Survivors, Palette, InPhase, LiveStays, Live;
    FreedUpvalSurvivors(s, u);
    FreedUpvalOwned(s, u);
    FreedUpvalPhase(s, u);
    FreedUpvalLive(s, u);
  }

  // ----- Glue for the sweep of a thread -----

  lemma LiveStaysTrans(s: State, m: State, t: State)
    requires LiveStays(s, m) && LiveStays(m, t)
    ensures LiveStays(s, t)
  {
  }

  lemma CloseThreadFacts(s: State, th: Id)
    requires Inv(s) && th in s.heap
    ensures LiveStays(s, s) && th in s.col
  {
  }

  lemma CloseStep(m: State, th: Id, u: Id, j: nat)
    requires Inv(m) && m.phase == Sweep && th in m.heap && m.heap[th].Thread? && u in m.heap[th].openup
    requires forall w :: w in m.heap[th].openup ==> Live(m, w)
    requires m.sweepPos <= j < |AllRoots(m)| && AllRoots(m)[j] == th && th in m.col
    ensures u in m.heap && IsOpen(m.heap[u])
    ensures var t := ClosedWith(m, u, White(m.cw));
      && Inv(t) && LiveStays(m, t) && t.phase == Sweep
      && th in t.heap && t.heap[th].Thread? && t.heap[th].openup == m.heap[th].openup - {u}
      && th in t.col && t.col[th] == m.col[th]
      && (forall w :: w in t.heap[th].openup ==> Live(t, w))
      && t.sweepPos <= j + 1 < |AllRoots(t)| && AllRoots(t)[j + 1] == th
  {
    hide Owned, Survivors, Palette, InPhase, Points;
    assert u in m.heap && IsOpen(m.heap[u]) && m.heap[u].home.owner == th;
    ClosedKeeps(m, u);
    assert Shape(m);
    hide Shape, Linked, Inv;
    var t := ClosedWith(m, u, White(m.cw));
    assert (t.rootgc + t.udatas)[j + 1] == (m.rootgc + m.udatas)[j];
  }

  lemma SweepEntry(s: State)
    requires Inv(s) && s.phase == Sweep && s.sweepPos < |AllRoots(s)|
    ensures LiveStays(s, s) && AllRoots(s) == s.rootgc + s.udatas
    ensures var x := AllRoots(s)[s.sweepPos]; x in s.heap && x in s.col && !IsOpen(s.heap[x]) && !s.heap[x].Str?
  {
    RootNotOpen(s, s.sweepPos);
  }

  lemma SweepOpenEntry(s: State, th: Id)
    requires Inv(s) && th in s.heap && s.heap[th].Thread?
    ensures s.heap.Keys == s.col.Keys && s.heap[th].openup <= s.heap.Keys && th !in s.heap[th].openup
  {
  }

  /** After the open upvalues of a thread have been swept, those left are in the current white. */
  lemma AfterOpen(s: State, m: State, x: Id)
    requires Inv(s) && s.phase == Sweep && s.sweepPos < |AllRoots(s)| && AllRoots(s)[s.sweepPos] == x
    requires x in s.heap && (if s.heap[x].Thread? then m == SweptOpen(s, x) else m == s)
    ensures AllRoots(m) == AllRoots(s) && m.sweepPos == s.sweepPos && m.phase == Sweep && m.cw == s.cw
    ensures x in m.heap && x in m.col && m.col[x] == s.col[x] && m.heap[x].Thread? == s.heap[x].Thread?
    ensures m.heap[x].Thread? ==> forall u :: u in m.heap[x].openup ==>
      u in m.col && m.col[u] == White(m.cw) && Live(m, u)
  {
    RootNotOpen(s, s.sweepPos);
    if s.heap[x].Thread? {
      OpenFacts(s, x);
      OpenFrame(s, x);
      OpenShape(s, x);
    }
    hide Points, Owned, Survivors, Palette, SweptOpen, Doomed;
  }

  lemma FreedEntry(m: State, i: nat)
    requires Inv(m) && i < |AllRoots(m)| && AllRoots(m)[i] in m.col && m.col[AllRoots(m)[i]] == White(!m.cw)
    ensures AllRoots(m)[i] in m.heap && Condemned(m, AllRoots(m)[i])
  {
    RootNotOpen(m, i);
  }

  lemma KeptEntry(m: State)
    requires Inv(m) && m.sweepPos < |AllRoots(m)| && AllRoots(m)[m.sweepPos] in m.col
    requires m.col[AllRoots(m)[m.sweepPos]] != White(!m.cw)
    ensures Live(m, AllRoots(m)[m.sweepPos])
  {
  }

  // ----- Phase changes -----

  /** lgc.c `luaC_fullgc` before the mark phase is over: sweep everything back to white. */
  function SweepAll(s: State): State {
    Reset(s).(sweepStr := 0, sweepPos := 0, phase := SweepString)
  }

  lemma SweepAllKeeps(s: State)
    requires Inv(s)
    ensures Inv(SweepAll(s))
  {
    hide Points, Linked, OwnedRoots, OwnedStrings;
    var t := SweepAll(s);
    assert forall z :: Live(t, z) == Live(s, z);
    assert forall z :: Root(t, z) == Root(s, z);
    hide InPhase;
    assert Survivors(t) && Palette(t) && Shape(t) && Owned(t);
    assert StringsSwept(t, 0);
    assert InPhase(t) by { SweepAllPhase(s); }
  }

  lemma SweepAllPhase(s: State)
    requires Shape(s)
    ensures InPhase(SweepAll(s))
  {
  }

  lemma FinalizeEnds(s: State)
    requires Inv(s) && s.phase == Finalize
    ensures Inv(s.(phase := Pause))
  {
    SamePhase(s, Pause);
    hide Points, Linked, OwnedRoots, OwnedStrings, Survivors, Palette;
  }

  /** lgc.c `GCTM`: the first userdata of `tmudata` goes back behind the main thread. */
  function Returned(s: State): State
    requires |s.tmu| > 0
  {
    var u := s.tmu[0];
    s.(tmu := s.tmu[1..], udatas := [u] + s.udatas, col := s.col[u := White(s.cw)], held := s.held + {u})
  }

  lemma ReturnedKeeps(s: State)
    requires Inv(s) && s.phase == Finalize && |s.tmu| > 0
    ensures Inv(Returned(s)) && LiveStays(s, Returned(s)) && s.tmu[0] in s.heap
  {
    hide Points, Linked, OwnedStrings, OwnedRoots, Rested;
    var t, u := Returned(s), s.tmu[0];
    ReturnedOwned(s);
    ReturnedRested(s);
    assert Root(s, u);
    assert t.col.Keys == s.col.Keys;
    assert forall z :: Live(t, z) == Live(s, z);
    assert forall z :: Root(t, z) ==> Root(s, z);
    assert Survivors(t) && Palette(t) && Shape(t);
  }

  lemma ReturnedRested(s: State)
    requires Rested(s) && |s.tmu| > 0
    ensures Rested(Returned(s))
  {
    assert s.tmu == [s.tmu[0]] + s.tmu[1..];
  }

  lemma ReturnedFrame(s: State)
    requires |s.tmu| > 0
    ensures Returned(s) == s.(tmu := s.tmu[1..], udatas := [s.tmu[0]] + s.udatas,
                              col := s.col[s.tmu[0] := White(s.cw)], held := s.held + {s.tmu[0]})
  {
  }

  lemma ReturnedOwned(s: State)
    requires OwnedRoots(s.heap, s.rootgc, s.udatas, s.tmu) && |s.tmu| > 0
    ensures OwnedRoots(s.heap, s.rootgc, [s.tmu[0]] + s.udatas, s.tmu[1..])
  {
    var u := s.tmu[0];
    assert s.tmu == [u] + s.tmu[1..];
    assert u !in s.udatas;
    NoDupCons(u, s.udatas);
  }

  lemma PropagateStepKeeps(s: State, t: State)
    requires Inv(s) && s.phase == Propagate && Marking(t, Todo(s)) && Grown(s, t) && CleanedStar(s.heap, t.heap)
    ensures Inv(t) && t.phase == Propagate && t.heap.Keys == s.heap.Keys
  {
    StillPropagating(s, t);
    hide Shape, Owned, Survivors, Palette, Propagating, Marked;
  }

  lemma SweepAtEnd(s: State)
    requires Inv(s) && s.phase == Sweep
    ensures s.sweepPos <= |AllRoots(s)|
  {
  }

  // ----- Glue for the mutator -----

  lemma FindOldKeeps(s: State, th: Id, i: nat, u: Id)
    requires Inv(s) && Live(s, th) && s.heap[th].Thread? && i < |s.heap[th].stack| && u in s.heap
      && s.heap[u] == Upval(Open(th, i))
    ensures Inv(Resurrect(s, u))
  {
    hide Shape, Owned, Palette, InPhase;
    forall y | Points(s.heap, u, y)
      ensures Live(s, y)
    {
      StackLive(s, th, i, y);
    }
    hide Inv;
    ResurrectKeeps(s, u);
  }

  lemma ClosedSelf(h: Heap, u: Id)
    requires u in h && IsOpen(h[u])
    ensures u in WithClosed(h, u)
    ensures h[u].home.owner != u ==> WithClosed(h, u)[u] == Upval(Closed(UpvalValue(h, h[u].home)))
    ensures !h[u].Thread?
  {
  }

  lemma CloseEntry(s: State, u: Id, c: Colour)
    requires Inv(s) && s.phase == Propagate && u in s.heap && u in s.col && IsOpen(s.heap[u])
      && s.col[u] != White(!s.cw)
    requires c == if s.col[u] == Gray then Black else s.col[u]
    ensures var t, todo := ClosedWith(s, u, c), Todo(s) - {u};
      && Marking(t, todo + {u}) && t.heap == WithClosed(s.heap, u) && t.heap.Keys == s.heap.Keys
      && u in t.heap && t.heap[u] == Upval(Closed(UpvalValue(s.heap, s.heap[u].home)))
      && t.col == s.col[u := c]
      && (UpvalValue(s.heap, s.heap[u].home).Ref? ==> UpvalValue(s.heap, s.heap[u].home).id in s.heap)
    ensures c == Black || c == White(s.cw)
  {
    hide Owned, Lists, Pending, Linked, NoDead, WithClosed;
    assert u in Todo(s);
    assert Todo(s) - {u} + {u} == Todo(s);
    OwnerOf(s.heap, u);
    var v := UpvalValue(s.heap, s.heap[u].home);
    assert v.Ref? ==> Points(s.heap, u, v.id);
    assert Live(s, u);
    assert v.Ref? ==> v.id in s.heap;
    assert s.col[u] != Black;
    hide Points, Survivors, Palette;
    ClosedSelf(s.heap, u);
    ClosedHeap(s.heap, u);
    hide Shape;
    ClosedMarking(s, u, c, Todo(s) - {u});
  }

  lemma CloseTraced(s: State, m: State, t: State, u: Id, c: Colour)
    requires Lists(s) && u in s.heap && IsOpen(s.heap[u]) && m.weak == s.weak
    requires MarkStep(m, t) && u in m.heap && u in m.col && m.col[u] == c && m.heap[u].Upval? && m.heap[u].home.Closed?
    requires c == Black || c.White?
    requires c == Black ==> MarkedV(t, m.heap[u].home.v)
    ensures u in t.heap && (!Marked(t, u) || Traced(t, u))
  {
    hide GrayGrew;
    assert !Listed(s, u);
    if c.White? && Marked(t, u) {
      assert Settled(t.heap, t.col, t.gray, u);
    }
  }

  lemma TodoClosed(s: State, t: State, u: Id)
    requires Shape(s) && u in s.heap && IsOpen(s.heap[u]) && t.heap == WithClosed(s.heap, u)
    requires t.grayagain == s.grayagain && t.weak == s.weak && t.tmu == s.tmu && Owned(s) && Lists(s)
    ensures Todo(s) - {u} <= Todo(t)
  {
    ClosedHeap(s.heap, u);
    hide WithClosed, Linked, Points, OwnedStrings;
  }

  lemma CloseFinish(s: State, m: State, t: State, u: Id, c: Colour)
    requires Inv(s) && s.phase == Propagate && u in s.heap && u in s.col && IsOpen(s.heap[u])
    requires m == ClosedWith(s, u, c) && Marking(m, Todo(s) - {u} + {u}) && MarkStep(m, t)
    requires c == (if s.col[u] == Gray then Black else s.col[u]) && (c == Black || c == White(s.cw))
    requires u in m.heap && m.heap[u] == Upval(Closed(UpvalValue(s.heap, s.heap[u].home))) && m.col == s.col[u := c]
    requires m.heap == WithClosed(s.heap, u) && m.heap.Keys == s.heap.Keys
    requires c == Black ==> MarkedV(t, m.heap[u].home.v)
    ensures Inv(t)
  {
    hide Points, Palette, Survivors, Pending, Marking, Shape, WithClosed, Lists, Owned, Traced, Todo, NoDead;
    CloseTraced(s, m, t, u, c);
    assert t == m.(col := t.col, gray := t.gray);
    forall z | Marked(s, z)
      ensures Marked(t, z)
    {
      assert Marked(m, z);
      MarkedStays(m, t, z);
    }
    hide MarkStep, Marked;
    TodoClosed(s, t, u);
    TraceOrNot(m, t, u, Todo(s) - {u});
    CloseInv(s, t, Todo(s) - {u});
  }

  lemma TraceOrNot(m: State, t: State, u: Id, todo: set<Id>)
    requires Marking(m, todo + {u}) && MarkStep(m, t) && u in t.heap && (!Marked(t, u) || Traced(t, u))
    ensures Marking(t, todo)
  {
    hide Shape, Owned, Survivors, Palette, NoDead, Lists, MarkStep, Traced;
    MarkKeepsMarking(m, t, todo + {u});
  }

  lemma CloseInv(s: State, t: State, todo: set<Id>)
    requires Inv(s) && s.phase == Propagate && t.phase == Propagate && Marking(t, todo) && todo <= Todo(t)
    requires t.main == s.main && t.registry == s.registry && forall z :: Marked(s, z) ==> Marked(t, z)
    ensures Inv(t)
  {
    hide Shape, Owned, Survivors, Palette, NoDead, Lists, Traced, Todo;
  }
}
