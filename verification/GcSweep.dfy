/** Sweeping: what freeing dead objects and repainting the others keeps. */
module GcSweep {
  import opened GcState
  import opened GcTrace

  /** The test of lgc.c `sweeplist`: dead and not fixed. */
  predicate Condemned(s: State, x: Id) {
    x in s.heap && x in s.col && s.col[x] == White(!s.cw) && !(s.heap[x].Str? && s.heap[x].fixed)
  }

  function Doomed(s: State, ids: set<Id>): set<Id> {
    set x | x in ids && Condemned(s, x)
  }

  /** The colours after sweeping `ids`. */
  function Repaint(s: State, ids: set<Id>): map<Id, Colour> {
    map x | x in s.col && x !in Doomed(s, ids) :: if x in ids then White(s.cw) else s.col[x]
  }

  /** Live objects stay: what left the heap between `s` and `t` was dead in `s`. */
  ghost predicate LiveStays(s: State, t: State) {
    forall x :: Live(s, x) ==> Live(t, x)
  }

  lemma SweepWholeStep(s: State, done: set<Id>, x: Id)
    requires x !in done && x in s.heap && x in s.col && s.heap.Keys == s.col.Keys
    ensures Doomed(s, done + {x}) == Doomed(s, done) + (if Condemned(s, x) then {x} else {})
    ensures Repaint(s, done + {x}) == if Condemned(s, x) then Repaint(s, done) - {x}
      else Repaint(s, done)[x := White(s.cw)]
    ensures s.heap - Doomed(s, done + {x}) == if Condemned(s, x) then (s.heap - Doomed(s, done)) - {x}
      else s.heap - Doomed(s, done)
  {
  }

  // ----- Strings -----

  function SweptBucket(s: State): State
    requires s.sweepStr < |s.strt|
  {
    var ids := s.strt[s.sweepStr];
    s.(heap := s.heap - Doomed(s, ids), col := Repaint(s, ids),
       strt := s.strt[s.sweepStr := ids - Doomed(s, ids)], sweepStr := s.sweepStr + 1,
       phase := if s.sweepStr + 1 >= |s.strt| then Sweep else SweepString)
  }

  lemma BucketFacts(s: State)
    requires Inv(s) && s.phase == SweepString
    ensures var ids := s.strt[s.sweepStr]; forall x :: x in ids ==> x in s.heap && s.heap[x].Str?
    ensures var t := SweptBucket(s);
      && t.col.Keys == t.heap.Keys
      && (forall x :: x in t.heap ==> x in s.heap && t.heap[x] == s.heap[x])
      && (forall x :: x in s.heap && !s.heap[x].Str? ==> x in t.heap && t.col[x] == s.col[x])
      && (forall x :: Live(s, x) ==> Live(t, x))
      && (forall x :: x in t.heap && !s.heap[x].Str? && Live(t, x) ==> Live(s, x))
  {
    hide Points, Linked, OwnedRoots, Palette, Survivors, StringsSwept;
  }

  lemma BucketEntry(s: State)
    requires Inv(s) && s.phase == SweepString
    ensures s.sweepStr < |s.strt| && s.heap.Keys == s.col.Keys && s.strt[s.sweepStr] <= s.heap.Keys
  {
    hide Points, Linked, OwnedRoots, Palette, Survivors, StringsSwept;
  }

  lemma BucketSurvivors(s: State)
    requires Inv(s) && s.phase == SweepString
    ensures Survivors(SweptBucket(s))
  {
    BucketFacts(s);
    hide Shape, OwnedRoots, OwnedStrings, Palette, SweptBucket, Live, InPhase;
    var t := SweptBucket(s);
    forall x, y | x in t.heap && Live(t, x) && Points(t.heap, x, y)
      ensures Live(t, y)
    {
      assert !s.heap[x].Str?;
      assert Points(s.heap, x, y) by { BucketPoints(s, t, x, y); }
    }
    BucketRoots(s, t);
  }

  lemma BucketRoots(s: State, t: State)
    requires s.sweepStr < |s.strt| && t == SweptBucket(s)
    ensures forall x :: Root(t, x) == Root(s, x)
  {
  }

  lemma BucketPoints(s: State, t: State, x: Id, y: Id)
    requires forall z :: z in t.heap ==> z in s.heap && t.heap[z] == s.heap[z]
    requires x in t.heap && Points(t.heap, x, y)
    ensures Points(s.heap, x, y)
  {
  }

  /** Lists stay right when only strings and open upvalues leave the heap. */
  lemma OwnedRootsSame(h: Heap, h': Heap, rootgc: seq<Id>, udatas: seq<Id>, tmu: seq<Id>)
    requires OwnedRoots(h, rootgc, udatas, tmu)
    requires forall x :: x in h' ==> x in h && SameKind(h[x], h'[x])
    requires forall x :: x in h && !h[x].Str? && !IsOpen(h[x]) ==> x in h'
    ensures OwnedRoots(h', rootgc, udatas, tmu)
  {
  }

  /** The string table stays right when no string leaves the heap. */
  lemma OwnedStringsSame(h: Heap, h': Heap, strt: seq<set<Id>>)
    requires OwnedStrings(h, strt)
    requires forall x :: x in h' ==> x in h && SameKind(h[x], h'[x])
    requires forall x :: x in h && h[x].Str? ==> x in h'
    ensures OwnedStrings(h', strt)
  {
    hide InTable;
  }

  lemma BucketStrings(h: Heap, h': Heap, strt: seq<set<Id>>, k: nat, gone: set<Id>)
    requires OwnedStrings(h, strt) && k < |strt| && gone <= strt[k] && h' == h - gone
    ensures OwnedStrings(h', strt[k := strt[k] - gone])
  {
    var strt' := strt[k := strt[k] - gone];
    forall x | x in h' && h'[x].Str?
      ensures InTable(strt', x)
    {
      assert InTable(strt, x);
      var b :| 0 <= b < |strt| && x in strt[b];
      assert x in strt'[b];
    }
    forall b, x | 0 <= b < |strt'| && x in strt'[b]
      ensures x in h' && h'[x].Str? && x in strt[b]
    {
      if b < k { assert x !in strt[k]; }
      if k < b { assert x !in gone; }
    }
  }

  lemma BucketOwned(s: State)
    requires Inv(s) && s.phase == SweepString
    ensures Owned(SweptBucket(s))
  {
    BucketFacts(s);
    hide Points, Linked, Palette, Survivors, Repaint, StringsSwept, OwnedRoots, OwnedStrings, Live;
    var t := SweptBucket(s);
    BucketStrings(s.heap, t.heap, s.strt, s.sweepStr, Doomed(s, s.strt[s.sweepStr]));
    OwnedRootsSame(s.heap, t.heap, s.rootgc, s.udatas, s.tmu);
  }

  lemma BucketShape(s: State)
    requires Inv(s) && s.phase == SweepString
    ensures Shape(SweptBucket(s)) && Palette(SweptBucket(s))
  {
    hide Points, OwnedRoots, OwnedStrings, Survivors, Doomed, StringsSwept;
    BucketFacts(s);
    var t := SweptBucket(s);
    assert Linked(t.heap);
  }

  lemma BucketSwept(s: State)
    requires Inv(s) && s.phase == SweepString
    ensures InPhase(SweptBucket(s))
  {
    hide Points, OwnedRoots, Linked, Survivors, Palette;
    BucketFacts(s);
    var t := SweptBucket(s);
    forall b, x | 0 <= b < s.sweepStr + 1 && b < |t.strt| && x in t.strt[b]
      ensures x in t.col && t.col[x] == White(t.cw)
    {
      assert x in s.strt[b];
      if b < s.sweepStr {
        assert s.col[x] == White(s.cw);
        assert x !in s.strt[s.sweepStr];
      }
    }
  }

  /** One `singlestep` of the string sweep. */
  lemma SweepBucketKeeps(s: State)
    requires Inv(s) && s.phase == SweepString
    ensures Inv(SweptBucket(s)) && LiveStays(s, SweptBucket(s))
  {
    assert LiveStays(s, SweptBucket(s)) by { BucketFacts(s); }
    hide Shape, Owned, Survivors, Palette, InPhase, Points;
    BucketShape(s);
    BucketOwned(s);
    BucketSurvivors(s);
    BucketSwept(s);
  }

  // ----- Objects on rootgc -----

  function AllRoots(s: State): seq<Id> {
    s.rootgc + s.udatas
  }

  /** `sweepwholelist` on the open upvalues of a thread. */
  function SweptOpen(s: State, th: Id): State
    requires th in s.heap && s.heap[th].Thread?
  {
    var ids := s.heap[th].openup;
    var gone := Doomed(s, ids);
    s.(heap := (s.heap - gone)[th := s.heap[th].(openup := ids - gone)], col := Repaint(s, ids))
  }

  lemma OpenFacts(s: State, th: Id)
    requires Inv(s) && th in s.heap && s.heap[th].Thread?
    ensures var ids := s.heap[th].openup;
      forall x :: x in ids ==> x in s.heap && IsOpen(s.heap[x]) && s.heap[x].home.owner == th
    ensures var t := SweptOpen(s, th);
      && t.col.Keys == t.heap.Keys
      && (forall x :: x in t.heap ==> x in s.heap && (x == th || t.heap[x] == s.heap[x]))
      && th in t.heap && t.heap[th].Thread? && t.heap[th] == s.heap[th].(openup := t.heap[th].openup)
      && t.heap[th].openup == s.heap[th].openup - Doomed(s, s.heap[th].openup)
      && (forall x :: x in s.heap && !IsOpen(s.heap[x]) ==> x in t.heap && t.col[x] == s.col[x])
      && (forall x :: x in s.heap && x !in s.heap[th].openup ==> x in t.heap && t.col[x] == s.col[x])
      && (forall x :: x in t.heap && x in s.heap[th].openup ==> t.col[x] == White(s.cw))
      && (forall x :: x in t.heap && x in s.heap[th].openup ==> x in t.heap[th].openup)
      && (forall x :: Live(s, x) <==> Live(t, x))
  {
    hide Points, OwnedRoots, OwnedStrings, Palette, Survivors, InPhase;
  }

  lemma OpenPoints(s: State, t: State, th: Id, x: Id, y: Id)
    requires forall z :: z in t.heap ==> z in s.heap && (z == th || t.heap[z] == s.heap[z])
    requires th in s.heap && s.heap[th].Thread? && th in t.heap && t.heap[th].Thread?
    requires t.heap[th] == s.heap[th].(openup := t.heap[th].openup)
    requires x in t.heap && Points(t.heap, x, y)
    ensures Points(s.heap, x, y)
  {
  }

  lemma OpenLinked(h: Heap, h': Heap, th: Id, gone: set<Id>)
    requires Linked(h) && th in h && h[th].Thread? && gone <= h[th].openup
    requires h' == (h - gone)[th := h[th].(openup := h[th].openup - gone)]
    ensures Linked(h')
  {
    assert forall u :: u in gone ==> u in h && IsOpen(h[u]) && h[u].home.owner == th;
    forall o, u | o in h' && h'[o].Thread? && u in h'[o].openup
      ensures u in h' && IsOpen(h'[u]) && h'[u].home.owner == o
    {
      assert u in h[o].openup;
    }
  }

  lemma OpenHeap(s: State, th: Id)
    requires th in s.heap && s.heap[th].Thread?
    ensures var gone := Doomed(s, s.heap[th].openup);
      SweptOpen(s, th).heap == (s.heap - gone)[th := s.heap[th].(openup := s.heap[th].openup - gone)]
        && gone <= s.heap[th].openup
  {
  }

  lemma OpenShape(s: State, th: Id)
    requires Inv(s) && th in s.heap && s.heap[th].Thread?
    ensures Shape(SweptOpen(s, th)) && Palette(SweptOpen(s, th))
  {
    hide Owned, Survivors, InPhase, SweptOpen, Live, Linked, Doomed;
    OpenFacts(s, th);
    OpenHeap(s, th);
    OpenLinked(s.heap, SweptOpen(s, th).heap, th, Doomed(s, s.heap[th].openup));
    OpenFrame(s, th);
  }

  lemma OpenFrame(s: State, th: Id)
    requires th in s.heap && s.heap[th].Thread?
    ensures var t := SweptOpen(s, th); t == s.(heap := t.heap, col := t.col)
  {
  }

  lemma OpenOwned(s: State, th: Id)
    requires Inv(s) && th in s.heap && s.heap[th].Thread?
    ensures Owned(SweptOpen(s, th))
  {
    hide Points, Linked, Palette, Survivors, InPhase, SweptOpen, Live, OwnedRoots, OwnedStrings, Doomed;
    OpenFacts(s, th);
    OpenFrame(s, th);
    var t := SweptOpen(s, th);
    assert forall x :: x in t.heap ==> SameKind(s.heap[x], t.heap[x]);
    OwnedRootsSame(s.heap, t.heap, s.rootgc, s.udatas, s.tmu);
    OwnedStringsSame(s.heap, t.heap, s.strt);
  }

  lemma OpenSurvivors(s: State, th: Id)
    requires Inv(s) && th in s.heap && s.heap[th].Thread?
    ensures Survivors(SweptOpen(s, th))
  {
    OpenFacts(s, th);
    OpenFrame(s, th);
    hide Shape, Owned, Palette, InPhase, SweptOpen, Live, Points;
    var t := SweptOpen(s, th);
    forall x, y | x in t.heap && Live(t, x) && Points(t.heap, x, y)
      ensures Live(t, y)
    {
      OpenPoints(s, t, th, x, y);
    }
    assert forall x :: Root(t, x) == Root(s, x);
  }

  lemma SweptByOpen(s: State, t: State, th: Id, x: Id)
    requires s.col.Keys == s.heap.Keys && Swept(s, x) && !IsOpen(s.heap[x]) && t.cw == s.cw && t.col.Keys == t.heap.Keys
      && th in s.heap && s.heap[th].Thread?
    requires forall y :: y in s.heap && !IsOpen(s.heap[y]) ==> y in t.heap && t.col[y] == s.col[y]
    requires forall y :: y in s.heap && y !in s.heap[th].openup ==> y in t.heap && t.col[y] == s.col[y]
    requires forall y :: y in t.heap && y in s.heap[th].openup ==> t.col[y] == White(s.cw)
    requires forall y :: y in t.heap ==> y in s.heap && (y == th || t.heap[y] == s.heap[y])
    requires th in t.heap && t.heap[th].Thread? && t.heap[th].openup <= s.heap[th].openup && Linked(s.heap)
      && Linked(t.heap)
    ensures Swept(t, x)
  {
  }

  lemma OpenSwept(s: State, th: Id)
    requires Inv(s) && s.phase == Sweep && th in s.heap && s.heap[th].Thread?
    ensures InPhase(SweptOpen(s, th))
  {
    hide Linked, Palette, Survivors, SweptOpen, Live, OwnedRoots, Swept, Doomed;
    OpenFacts(s, th);
    OpenHeap(s, th);
    OpenLinked(s.heap, SweptOpen(s, th).heap, th, Doomed(s, s.heap[th].openup));
    OpenFrame(s, th);
    var t := SweptOpen(s, th);
    forall b, x | 0 <= b < |t.strt| && x in t.strt[b]
      ensures x in t.col && t.col[x] == White(t.cw)
    {
      assert x in s.heap && s.heap[x].Str?;
    }
    hide OwnedStrings;
    forall i | 0 <= i < t.sweepPos && i < |t.rootgc + t.udatas|
      ensures Swept(t, (t.rootgc + t.udatas)[i])
    {
      assert Swept(s, (s.rootgc + s.udatas)[i]);
      RootNotOpen(s, i);
      SweptByOpen(s, t, th, (s.rootgc + s.udatas)[i]);
    }
  }

  lemma RootNotOpen(s: State, i: nat)
    requires Owned(s) && i < |s.rootgc + s.udatas|
    ensures var x := (s.rootgc + s.udatas)[i]; x in s.heap && !IsOpen(s.heap[x]) && !s.heap[x].Str?
  {
    var x := (s.rootgc + s.udatas)[i];
    assert x in s.rootgc || x in s.udatas;
  }

  lemma SweptOpenKeeps(s: State, th: Id)
    requires Inv(s) && s.phase == Sweep && th in s.heap && s.heap[th].Thread?
    ensures Inv(SweptOpen(s, th)) && LiveStays(s, SweptOpen(s, th))
  {
    hide Shape, Owned, Survivors, Palette, InPhase, Points;
    OpenShape(s, th);
    OpenOwned(s, th);
    OpenSurvivors(s, th);
    OpenSwept(s, th);
    assert LiveStays(s, SweptOpen(s, th)) by { OpenFacts(s, th); }
  }

  // ----- Keeping and freeing the object at the sweep position -----

  function Kept(s: State): State
    requires s.sweepPos < |AllRoots(s)|
  {
    s.(col := s.col[AllRoots(s)[s.sweepPos] := White(s.cw)], sweepPos := s.sweepPos + 1)
  }

  /** The object survives: it turns to the current white. A thread's open upvalues have been
      swept before. */
  lemma KeptKeeps(s: State)
    requires Inv(s) && s.phase == Sweep && s.sweepPos < |AllRoots(s)|
    requires Live(s, AllRoots(s)[s.sweepPos])
    requires var x := AllRoots(s)[s.sweepPos];
      s.heap[x].Thread? ==> forall u :: u in s.heap[x].openup ==> u in s.col && s.col[u] == White(s.cw)
    ensures Inv(Kept(s)) && LiveStays(s, Kept(s))
  {
    hide Points, Linked, OwnedStrings;
    var t, x := Kept(s), AllRoots(s)[s.sweepPos];
    RootNotOpen(s, s.sweepPos);
    assert t.col.Keys == s.col.Keys;
    assert forall z :: Live(t, z) <==> Live(s, z);
    assert forall z :: Root(t, z) == Root(s, z);
    assert Survivors(t) && Palette(t);
    assert StringsSwept(t, |t.strt|);
    forall i | 0 <= i < t.sweepPos && i < |t.rootgc + t.udatas|
      ensures Swept(t, (t.rootgc + t.udatas)[i])
    {
      if i < s.sweepPos { assert Swept(s, (s.rootgc + s.udatas)[i]); }
    }
  }

  /** Removing the element at a position of `rootgc + udatas`. */
  function DropRoot(s: State, i: nat): State
    requires i < |AllRoots(s)|
  {
    if i < |s.rootgc| then s.(rootgc := s.rootgc[..i] + s.rootgc[i + 1..])
    else s.(udatas := s.udatas[..i - |s.rootgc|] + s.udatas[i - |s.rootgc| + 1..])
  }

  /** The object at position `i` leaves its list and the heap. */
  function Freed(s: State, i: nat): State
    requires i < |AllRoots(s)|
  {
    var x := AllRoots(s)[i];
    DropRoot(s, i).(heap := s.heap - {x}, col := s.col - {x})
  }

  lemma DropFacts<T>(q: seq<T>, i: nat)
    requires i < |q| && NoDup(q)
    ensures NoDup(q[..i] + q[i + 1..])
    ensures forall x :: x in q[..i] + q[i + 1..] <==> x in q && x != q[i]
  {
    var r := q[..i] + q[i + 1..];
    forall x | x in q && x != q[i]
      ensures x in r
    {
      var j :| 0 <= j < |q| && q[j] == x;
      assert j < i ==> r[j] == x;
      assert j > i ==> r[j - 1] == x;
    }
    forall x | x in r
      ensures x in q && x != q[i]
    {
      var j :| 0 <= j < |r| && r[j] == x;
      assert j < i ==> q[j] == x;
      assert j >= i ==> q[j + 1] == x;
    }
  }

  lemma DropOwned(h: Heap, rootgc: seq<Id>, udatas: seq<Id>, tmu: seq<Id>, rootgc': seq<Id>, udatas': seq<Id>, x: Id)
    requires OwnedRoots(h, rootgc, udatas, tmu) && x in h && x !in tmu
    requires forall z :: z in rootgc' <==> z in rootgc && z != x
    requires forall z :: z in udatas' <==> z in udatas && z != x
    requires NoDup(rootgc') && NoDup(udatas')
    ensures OwnedRoots(h - {x}, rootgc', udatas', tmu)
  {
  }

  lemma FreedOwned(s: State, i: nat)
    requires Inv(s) && i < |AllRoots(s)|
    ensures Owned(Freed(s, i))
  {
    hide Points, Linked, Survivors, Palette, InPhase, OwnedStrings;
    var t, x := Freed(s, i), AllRoots(s)[i];
    RootNotOpen(s, i);
    OwnedStringsSame(s.heap, t.heap, s.strt);
    if i < |s.rootgc| {
      DropFacts(s.rootgc, i);
      assert s.rootgc[i] == x;
      assert x in s.rootgc && x !in s.udatas && x !in s.tmu;
      hide OwnedRoots;
      DropOwned(s.heap, s.rootgc, s.udatas, s.tmu, t.rootgc, t.udatas, x);
    } else {
      DropFacts(s.udatas, i - |s.rootgc|);
      assert s.udatas[i - |s.rootgc|] == x;
      assert x in s.udatas && x !in s.rootgc && x !in s.tmu;
      hide OwnedRoots;
      DropOwned(s.heap, s.rootgc, s.udatas, s.tmu, t.rootgc, t.udatas, x);
    }
  }

  lemma FreedPoints(s: State, x: Id, z: Id, y: Id)
    requires Linked(s.heap) && x in s.heap && (s.heap[x].Thread? ==> s.heap[x].openup == {}) && z in s.heap && z != x
    ensures Points(s.heap - {x}, z, y) == Points(s.heap, z, y)
  {
    if IsOpen(s.heap[z]) {
      assert s.heap[z].home.owner != x;
    }
  }

  lemma FreedSurvivors(s: State, i: nat)
    requires Inv(s) && i < |AllRoots(s)|
    requires var x := AllRoots(s)[i]; x in s.heap && Condemned(s, x) && (s.heap[x].Thread? ==> s.heap[x].openup == {})
    ensures Survivors(Freed(s, i))
  {
    hide Points, Linked, Owned, Palette, InPhase;
    var t, x := Freed(s, i), AllRoots(s)[i];
    assert !Live(s, x);
    assert forall z :: Live(t, z) <==> Live(s, z);
    forall z, y | z in t.heap && Live(t, z) && Points(t.heap, z, y)
      ensures Live(t, y)
    {
      FreedPoints(s, x, z, y);
      assert Live(s, z);
    }
    assert forall z :: Root(t, z) == Root(s, z);
  }

  lemma FreedLinked(h: Heap, x: Id)
    requires Linked(h) && x in h && !IsOpen(h[x]) && (h[x].Thread? ==> h[x].openup == {})
    ensures Linked(h - {x})
  {
  }

  lemma FreedShape(s: State, i: nat)
    requires Inv(s) && i < |AllRoots(s)|
    requires var x := AllRoots(s)[i]; x in s.heap && Condemned(s, x) && (s.heap[x].Thread? ==> s.heap[x].openup == {})
    ensures Shape(Freed(s, i)) && Palette(Freed(s, i))
  {
    hide Points, InPhase, Owned, Linked;
    var t, x := Freed(s, i), AllRoots(s)[i];
    RootNotOpen(s, i);
    FreedLinked(s.heap, x);
    assert x != s.main && x != s.running by {
      assert Root(s, s.main) && Root(s, s.running);
      assert !Live(s, x);
    }
    hide Survivors, Live, Condemned;
    assert t.rootgc != [] && t.rootgc[|t.rootgc| - 1] == s.main;
  }

  lemma NotString(s: State, x: Id)
    requires Owned(s) && x in s.heap && !s.heap[x].Str?
    ensures forall b, z :: 0 <= b < |s.strt| && z in s.strt[b] ==> z != x
  {
    hide OwnedRoots;
  }

  lemma SweptOther(s: State, t: State, z: Id, x: Id)
    requires Swept(s, z) && z != x && Shape(s) && x in s.heap && !IsOpen(s.heap[x])
    requires t.heap == s.heap - {x} && t.col == s.col - {x} && t.cw == s.cw
    ensures Swept(t, z)
  {
    if s.heap[z].Thread? { OpenupNot(s, z, x); }
    hide Shape;
  }

  lemma FreedSwept(s: State, i: nat)
    requires Inv(s) && s.phase == Sweep && s.sweepPos <= i < |AllRoots(s)|
    ensures InPhase(Freed(s, i))
  {
    hide Shape, Survivors, Palette, OwnedRoots, OwnedStrings, Swept;
    var t, x := Freed(s, i), AllRoots(s)[i];
    RootNotOpen(s, i);
    NotString(s, x);
    assert |t.rootgc + t.udatas| == |AllRoots(s)| - 1;
    forall j | 0 <= j < s.sweepPos && j < |t.rootgc + t.udatas|
      ensures Swept(t, (t.rootgc + t.udatas)[j])
    {
      assert (t.rootgc + t.udatas)[j] == AllRoots(s)[j];
      assert Swept(s, (s.rootgc + s.udatas)[j]);
      RootsDistinct(s, j, i);
      SweptOther(s, t, AllRoots(s)[j], x);
    }
  }

  lemma OpenupNot(s: State, th: Id, x: Id)
    requires Shape(s) && th in s.heap && s.heap[th].Thread? && (x in s.heap ==> !IsOpen(s.heap[x]))
    ensures x !in s.heap[th].openup
  {
  }

  lemma RootsDistinct(s: State, i: nat, j: nat)
    requires Owned(s) && i < j < |AllRoots(s)|
    ensures AllRoots(s)[i] != AllRoots(s)[j]
  {
    hide OwnedStrings;
    var q := AllRoots(s);
    if j < |s.rootgc| {
      assert s.rootgc[i] != s.rootgc[j];
    } else if i >= |s.rootgc| {
      assert s.udatas[i - |s.rootgc|] != s.udatas[j - |s.rootgc|];
    } else {
      assert q[i] in s.rootgc && q[j] in s.udatas;
    }
  }

  lemma FreedKeeps(s: State, i: nat)
    requires Inv(s) && s.phase == Sweep && s.sweepPos <= i < |AllRoots(s)|
    requires var x := AllRoots(s)[i]; x in s.heap && Condemned(s, x) && (s.heap[x].Thread? ==> s.heap[x].openup == {})
    ensures Inv(Freed(s, i)) && LiveStays(s, Freed(s, i))
  {
    hide Shape, Owned, Survivors, Palette, InPhase, Points;
    FreedShape(s, i);
    FreedOwned(s, i);
    FreedSurvivors(s, i);
    FreedSwept(s, i);
  }

  /** The end of the sweep: everything outside `tmudata` is in the current white. */
  lemma SweepEnds(s: State)
    requires Inv(s) && s.phase == Sweep && s.sweepPos == |AllRoots(s)|
    ensures Inv(s.(phase := Finalize))
  {
    hide Points, Survivors, Palette;
    var t := s.(phase := Finalize);
    assert Survivors(t) && Palette(t) by { SamePhase(s, Finalize); }
    forall x | x in t.heap && x in t.col
      ensures x in t.tmu || t.col[x] == White(t.cw)
    {
      if s.heap[x].Str? {
        assert InTable(s.strt, x);
      } else if IsOpen(s.heap[x]) {
        var th := s.heap[x].home.owner;
        assert th in s.rootgc;
        var i :| 0 <= i < |s.rootgc| && s.rootgc[i] == th;
        assert (s.rootgc + s.udatas)[i] == th;
        assert Swept(s, th);
      } else if x in s.rootgc {
        var i :| 0 <= i < |s.rootgc| && s.rootgc[i] == x;
        assert (s.rootgc + s.udatas)[i] == x;
        assert Swept(s, x);
      } else if x in s.udatas {
        var i :| 0 <= i < |s.udatas| && s.udatas[i] == x;
        assert (s.rootgc + s.udatas)[|s.rootgc| + i] == x;
        assert Swept(s, x);
      }
    }
  }

  lemma SamePhase(s: State, p: Phase)
    ensures Survivors(s.(phase := p)) == Survivors(s) && Palette(s.(phase := p)) == Palette(s)
    ensures Rested(s.(phase := p)) == Rested(s)
  {
    hide Points;
    var t := s.(phase := p);
    assert forall x :: Live(t, x) == Live(s, x);
    assert forall x :: Root(t, x) == Root(s, x);
  }
}
