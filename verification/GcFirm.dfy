/** What the collector never takes away: objects that the program can reach by firm references stay, and
    stay reachable that way, over any number of collector steps. */
module GcFirm {
  import opened GcState
  import opened GcMark
  import opened GcTrace
  import opened GcGrow
  import opened GcReach
  import opened GcAtomic
  import opened GcCycle
  import opened GcSweep
  import opened GcStore
  import opened GcUpvals
  import opened GcRun

  // ----- Firm references -----

  predicate IsWeak(h: Heap, x: Id)
    requires x in h
  {
    ModeK(h, x) || ModeV(h, x)
  }

  /** A value that is never the reason to clear an entry: strings behave as values. */
  predicate Lasting(h: Heap, v: Value) {
    v.Ref? ==> v.id in h && h[v.id].Str?
  }

  /** The entry of a weak table holds `y` by its strong half, and nothing can clear the entry: its weak half
      lasts, and `y` is not a userdata in the place of a value that has been finalized before. */
  predicate FirmEntry(h: Heap, finalized: set<Id>, k: bool, v: bool, n: Node, y: Id) {
    n.val != Nil &&
    ((!k && n.key == Ref(y) && Lasting(h, n.val)) ||
     (!v && n.val == Ref(y) && Lasting(h, n.key) && !(y in h && h[y].Udata? && y in finalized)))
  }

  predicate Firm(h: Heap, finalized: set<Id>, x: Id, y: Id)
    requires x in h
  {
    if h[x].Table? && IsWeak(h, x) then
      || h[x].mt == Ref(y) || (!ModeV(h, x) && Ref(y) in h[x].arr)
      || exists n :: n in h[x].nodes && FirmEntry(h, finalized, ModeK(h, x), ModeV(h, x), n, y)
    else Points(h, x, y)
  }

  lemma FirmRefers(h: Heap, finalized: set<Id>, x: Id, y: Id)
    requires x in h && Firm(h, finalized, x, y)
    ensures Refers(h, x, y) && Points(h, x, y)
  {
    if h[x].Table? {
      if IsWeak(h, x) {
        if n :| n in h[x].nodes && FirmEntry(h, finalized, ModeK(h, x), ModeV(h, x), n, y) {
          assert HoldsStrongly(n, ModeK(h, x), ModeV(h, x), y);
        }
      } else if n :| n in h[x].nodes && n.val != Nil && (n.key == Ref(y) || n.val == Ref(y)) {
        assert HoldsStrongly(n, false, false, y);
      }
    }
  }

  /** One firm reference, not out of a userdata that waits for its finalizer. */
  predicate FirmStep(s: State, x: Id, y: Id) {
    x in s.heap && x !in s.tmu && Firm(s.heap, s.finalized, x, y)
  }

  ghost predicate FirmPath(s: State, p: seq<Id>) {
    && |p| > 0 && IsRoot(s, p[0])
    && forall i :: 0 <= i < |p| - 1 ==> FirmStep(s, p[i], p[i + 1])
  }

  /** The program can reach `x` from its roots by firm references. */
  ghost predicate FirmlyReached(s: State, x: Id) {
    exists p :: FirmPath(s, p) && p[|p| - 1] == x
  }

  lemma FirmIsPath(s: State, p: seq<Id>)
    requires FirmPath(s, p)
    ensures Path(s, p)
  {
    hide Points, Firm;
    forall i | 0 <= i < |p| - 1
      ensures p[i] in s.heap && Points(s.heap, p[i], p[i + 1])
    {
      assert FirmStep(s, p[i], p[i + 1]);
      FirmRefers(s.heap, s.finalized, p[i], p[i + 1]);
    }
  }

  /** Firm paths lead to live objects only. */
  lemma FirmLive(s: State, p: seq<Id>, i: nat)
    requires Inv(s) && FirmPath(s, p) && i < |p|
    ensures Live(s, p[i])
  {
    FirmIsPath(s, p);
    hide Points, FirmPath;
    PathStaysLive(s, p, i);
  }

  /** Where every firm step stays firm, so does every path. */
  lemma PathKept(s: State, t: State, p: seq<Id>)
    requires FirmPath(s, p) && (forall x :: IsRoot(s, x) ==> IsRoot(t, x))
    requires forall i :: 0 <= i < |p| - 1 ==> FirmStep(t, p[i], p[i + 1])
    requires p[|p| - 1] in t.heap
    ensures FirmlyReached(t, p[|p| - 1]) && p[|p| - 1] in t.heap
  {
    assert FirmPath(t, p);
  }

  // ----- Changes of the heap that keep firm references -----

  lemma CleanedFirm(h: Heap, h': Heap, fin: set<Id>, x: Id, y: Id)
    requires CleanedStar(h, h') && x in h && Firm(h, fin, x, y)
    ensures x in h' && Firm(h', fin, x, y)
  {
    CleanedModes(h, h', x);
    CleanedKinds(h, h');
    assert ObjCleaned(h[x], h'[x]);
    if h[x].Table? {
      if IsWeak(h, x) {
        if n :| n in h[x].nodes && FirmEntry(h, fin, ModeK(h, x), ModeV(h, x), n, y) {
          EntryKept(h[x].nodes, h'[x].nodes, n);
          LastingCleaned(h, h', n.key);
          LastingCleaned(h, h', n.val);
          assert FirmEntry(h', fin, ModeK(h', x), ModeV(h', x), n, y);
        }
      } else if n :| n in h[x].nodes && n.val != Nil && (n.key == Ref(y) || n.val == Ref(y)) {
        EntryKept(h[x].nodes, h'[x].nodes, n);
      }
    } else {
      CleanedPoints(h, h', x, y);
    }
  }

  lemma LastingCleaned(h: Heap, h': Heap, v: Value)
    requires CleanedStar(h, h')
    ensures Lasting(h, v) ==> Lasting(h', v)
  {
    if v.Ref? && v.id in h { assert ObjCleaned(h[v.id], h'[v.id]); }
  }

  lemma CleanedKinds(h: Heap, h': Heap)
    requires CleanedStar(h, h')
    ensures h.Keys == h'.Keys && forall z :: z in h ==> (h[z].Udata? <==> h'[z].Udata?)
  {
    forall z | z in h
      ensures h[z].Udata? <==> h'[z].Udata?
    {
      assert ObjCleaned(h[z], h'[z]);
    }
  }

  lemma EntryKept(ns: seq<Node>, ns': seq<Node>, n: Node)
    requires (ns' == ns || NodesCleaned(ns, ns')) && n in ns && n.val != Nil
    ensures n in ns'
  {
    var i :| 0 <= i < |ns| && ns[i] == n;
    assert ns'[i] == n;
  }

  // ----- Sweeping -----

  lemma SweptFirm(h: Heap, h': Heap, fin: set<Id>, x: Id, y: Id)
    requires HeapSwept(h, h') && Linked(h') && x in h && x in h' && Firm(h, fin, x, y)
    requires forall z :: Points(h, x, z) ==> z in h'
    ensures Firm(h', fin, x, y)
  {
    assert ObjSwept(h, x, h'[x]);
    if h[x].Table? {
      SweptModes(h, h', x);
      if IsWeak(h, x) {
        if n :| n in h[x].nodes && FirmEntry(h, fin, ModeK(h, x), ModeV(h, x), n, y) {
          SweptEntry(h, h', fin, x, n, y);
        }
      }
    } else {
      SweptPoints(h, h', x, y);
    }
  }

  lemma SweptModes(h: Heap, h': Heap, x: Id)
    requires HeapSwept(h, h') && x in h && x in h' && h[x].Table?
    requires forall z :: Points(h, x, z) ==> z in h'
    ensures h'[x] == h[x] && ModeK(h', x) == ModeK(h, x) && ModeV(h', x) == ModeV(h, x)
  {
    assert ObjSwept(h, x, h'[x]);
    if h[x].mt.Ref? {
      assert Points(h, x, h[x].mt.id);
      if h[x].mt.id in h { assert ObjSwept(h, h[x].mt.id, h'[h[x].mt.id]); }
    }
  }

  lemma SweptEntry(h: Heap, h': Heap, fin: set<Id>, x: Id, n: Node, y: Id)
    requires HeapSwept(h, h') && x in h && x in h' && h[x].Table? && h'[x] == h[x] && n in h[x].nodes
    requires ModeK(h', x) == ModeK(h, x) && ModeV(h', x) == ModeV(h, x)
    requires FirmEntry(h, fin, ModeK(h, x), ModeV(h, x), n, y)
    requires forall z :: Points(h, x, z) ==> z in h'
    ensures FirmEntry(h', fin, ModeK(h', x), ModeV(h', x), n, y)
  {
    assert n.key.Ref? ==> Points(h, x, n.key.id);
    assert n.val.Ref? ==> Points(h, x, n.val.id);
    if n.key.Ref? && n.key.id in h { assert ObjSwept(h, n.key.id, h'[n.key.id]); }
    if n.val.Ref? && n.val.id in h { assert ObjSwept(h, n.val.id, h'[n.val.id]); }
  }

  lemma SweptPoints(h: Heap, h': Heap, x: Id, y: Id)
    requires HeapSwept(h, h') && Linked(h') && x in h && x in h' && !h[x].Table? && Points(h, x, y)
    ensures Points(h', x, y)
  {
    assert ObjSwept(h, x, h'[x]);
    if IsOpen(h'[x]) {
      var th := h'[x].home.owner;
      assert th in h' && ObjSwept(h, th, h'[th]);
    }
  }

  // ----- Clearing weak tables -----

  lemma ClearedFirm(m: State, u: State, x: Id, y: Id)
    requires WeakCleared(m, u) && Bits(m) && x in m.heap && Firm(m.heap, m.finalized, x, y)
    requires Marked(m, y) && (forall z :: z in m.weak ==> z in m.heap)
    ensures x in u.heap && Firm(u.heap, u.finalized, x, y)
  {
    ClearedModes(m, u, x);
    if x !in m.weak {
      ClearedOther(m, u, x, y);
    } else {
      assert BitsRight(m, x) && ClearedTable(m, x, u.heap[x]);
      if Ref(y) in m.heap[x].arr && !ModeV(m.heap, x) {
        var i :| 0 <= i < |m.heap[x].arr| && m.heap[x].arr[i] == Ref(y);
        assert u.heap[x].arr[i] == Ref(y);
      } else if m.heap[x].mt != Ref(y) {
        var n :| n in m.heap[x].nodes && FirmEntry(m.heap, m.finalized, ModeK(m.heap, x), ModeV(m.heap, x), n, y);
        FirmNotCleared(m, x, n, y);
        var i :| 0 <= i < |m.heap[x].nodes| && m.heap[x].nodes[i] == n;
        assert u.heap[x].nodes[i] == n;
        FirmEntryKinds(m, u, ModeK(m.heap, x), ModeV(m.heap, x), n, y);
      }
    }
  }

  /** A firm entry is not cleared. */
  lemma FirmNotCleared(m: State, x: Id, n: Node, y: Id)
    requires x in m.heap && FirmEntry(m.heap, m.finalized, ModeK(m.heap, x), ModeV(m.heap, x), n, y) && Marked(m, y)
    ensures ClearNode(m, n) == n
  {
  }

  lemma ClearedModes(m: State, u: State, x: Id)
    requires WeakCleared(m, u) && x in m.heap
    ensures x in u.heap && u.heap[x].Table? == m.heap[x].Table?
    ensures ModeK(u.heap, x) == ModeK(m.heap, x) && ModeV(u.heap, x) == ModeV(m.heap, x)
    ensures m.heap[x].Table? ==> u.heap[x].mt == m.heap[x].mt
  {
    hide StringsKept, StringsGray, ClearNode, ClearValue;
    if x in m.weak { assert ClearedTable(m, x, u.heap[x]); }
    if m.heap[x].Table? && m.heap[x].mt.Ref? && m.heap[x].mt.id in m.heap {
      var z := m.heap[x].mt.id;
      if z in m.weak { assert ClearedTable(m, z, u.heap[z]); }
    }
  }

  lemma FirmEntryKinds(m: State, u: State, k: bool, v: bool, n: Node, y: Id)
    requires WeakCleared(m, u) && FirmEntry(m.heap, m.finalized, k, v, n, y)
    ensures FirmEntry(u.heap, u.finalized, k, v, n, y)
  {
    ClearedKinds(m, u);
  }

  lemma ClearedOther(m: State, u: State, x: Id, y: Id)
    requires WeakCleared(m, u) && x in m.heap && x !in m.weak && Firm(m.heap, m.finalized, x, y)
    requires ModeK(u.heap, x) == ModeK(m.heap, x) && ModeV(u.heap, x) == ModeV(m.heap, x) && x in u.heap
    requires forall z :: z in m.weak ==> z in m.heap
    ensures Firm(u.heap, u.finalized, x, y)
  {
    assert u.heap[x] == m.heap[x];
    if m.heap[x].Table? && IsWeak(m.heap, x) {
      if n :| n in m.heap[x].nodes && FirmEntry(m.heap, m.finalized, ModeK(m.heap, x), ModeV(m.heap, x), n, y) {
        FirmEntryKinds(m, u, ModeK(m.heap, x), ModeV(m.heap, x), n, y);
      }
    } else {
      ClearedPoints(m, u, x, y);
    }
  }

  // ----- The atomic step -----

  /** Up to the separation of userdata, every object of a firm path is marked. */
  lemma {:induction false} FirmMarked(s: State, m: State, p: seq<Id>, i: nat)
    requires FirmPath(s, p) && MarkedUp(s, m) && i < |p|
    ensures Marked(m, p[i])
  {
    hide Complete, CleanedStar, Spread, Firm;
    AdvancedRoots(s, m);
    if i > 0 {
      FirmMarked(s, m, p, i - 1);
      assert FirmStep(s, p[i - 1], p[i - 1 + 1]);
      FirmRefers(s.heap, s.finalized, p[i - 1], p[i]);
      CleanedRefers(s.heap, m.heap, p[i - 1], p[i]);
      CompleteRefers(m, Ids(m.tmu), p[i - 1], p[i]);
    } else {
      assert MarkedV(m, Ref(p[0]));
    }
  }

  /** Userdata that are marked then are not separated. */
  lemma NotSeparated(m: State, x: Id)
    requires Marked(m, x)
    ensures x !in SeparatedState(m).tmu || x in m.tmu
    ensures x in SeparatedState(m).finalized ==> x in m.finalized
  {
    hide Pick;
    PickFacts(m, m.udatas, true);
  }

  lemma FlippedStep(s: State, m0: State, m: State, u: State, t: State, x: Id, y: Id)
    requires FlippedBy(s, m0, m, u, t) && FirmStep(s, x, y) && Marked(m0, x) && Marked(m0, y)
    ensures FirmStep(t, x, y)
  {
    hide Complete, CleanedStar, Spread, Firm, StringsFrom, WeakCleared, RootsMarked, SeparatedState;
    var m1 := SeparatedState(m0);
    NotSeparated(m0, x);
    NotSeparated(m0, y);
    CleanedFirm(s.heap, m0.heap, s.finalized, x, y);
    SeparatedFrame(m0);
    CleanedFirm(m1.heap, m.heap, s.finalized, x, y);
    FirmFinalized(m.heap, s.finalized, m.finalized, x, y);
    BitsIn(m);
    ClearedFrame(m, u);
    ClearedFirm(m, u, x, y);
  }

  lemma BitsIn(m: State)
    requires Complete(m, {})
    ensures Bits(m) && forall z :: z in m.weak ==> z in m.heap
  {
  }

  lemma SeparatedFrame(m: State)
    ensures var t := SeparatedState(m);
      t.heap == m.heap && t.col == m.col && t == m.(finalized := t.finalized, udatas := t.udatas, tmu := t.tmu)
    ensures forall z :: Marked(SeparatedState(m), z) <==> Marked(m, z)
  {
  }

  lemma FirmFinalized(h: Heap, fin: set<Id>, fin': set<Id>, x: Id, y: Id)
    requires x in h && Firm(h, fin, x, y) && (y in fin' ==> y in fin)
    ensures Firm(h, fin', x, y)
  {
    if h[x].Table? && IsWeak(h, x) {
      if n :| n in h[x].nodes && FirmEntry(h, fin, ModeK(h, x), ModeV(h, x), n, y) {
        assert FirmEntry(h, fin', ModeK(h, x), ModeV(h, x), n, y);
      }
    }
  }

  lemma FlippedFirm(s: State, t: State, x: Id)
    requires Flipped(s, t) && FirmlyReached(s, x)
    ensures FirmlyReached(t, x) && x in t.heap
  {
    var p :| FirmPath(s, p) && p[|p| - 1] == x;
    FlippedFrame(s, t);
    var m0, m, u :| FlippedBy(s, m0, m, u, t);
    hide Flipped;
    forall i | 0 <= i < |p|
      ensures Marked(m0, p[i])
    {
      FirmMarked(s, m0, p, i);
    }
    forall i | 0 <= i < |p| - 1
      ensures FirmStep(t, p[i], p[i + 1])
    {
      assert FirmStep(s, p[i], p[i + 1]);
      hide FlippedBy, Firm;
      FlippedStep(s, m0, m, u, t, p[i], p[i + 1]);
    }
    MarkedThere(s, m0, m, u, t, x);
    PathKept(s, t, p);
  }

  lemma MarkedThere(s: State, m0: State, m: State, u: State, t: State, x: Id)
    requires FlippedBy(s, m0, m, u, t) && Marked(m0, x) && t.heap.Keys == s.heap.Keys
    ensures x in t.heap
  {
    CleanedKeys(s.heap, m0.heap);
  }

  // ----- The other steps -----

  lemma SweptStep(s: State, t: State, x: Id, y: Id)
    requires Inv(s) && Inv(t) && HeapSwept(s.heap, t.heap) && LiveStays(s, t) && t.finalized == s.finalized
      && t.tmu == s.tmu
    requires FirmStep(s, x, y) && Live(s, x)
    ensures FirmStep(t, x, y)
  {
    assert Linked(t.heap) && Survivors(s);
    hide Inv, Linked, Firm, HeapSwept;
    forall z | Points(s.heap, x, z)
      ensures z in t.heap
    {
      assert Live(s, z);
    }
    SweptFirm(s.heap, t.heap, s.finalized, x, y);
  }

  lemma SweptReached(s: State, t: State, x: Id)
    requires Inv(s) && Inv(t) && HeapSwept(s.heap, t.heap) && LiveStays(s, t) && FirmlyReached(s, x)
    requires t.finalized == s.finalized && t.tmu == s.tmu && forall z :: IsRoot(s, z) ==> IsRoot(t, z)
    ensures FirmlyReached(t, x) && x in t.heap
  {
    hide Inv, HeapSwept, Firm, IsRoot;
    var p :| FirmPath(s, p) && p[|p| - 1] == x;
    forall i | 0 <= i < |p|
      ensures Live(s, p[i])
    {
      FirmLive(s, p, i);
    }
    forall i | 0 <= i < |p| - 1
      ensures FirmStep(t, p[i], p[i + 1])
    {
      assert FirmStep(s, p[i], p[i + 1]);
      SweptStep(s, t, p[i], p[i + 1]);
    }
    PathKept(s, t, p);
  }

  /** Where references only become more. */
  lemma MoreReached(s: State, t: State, x: Id)
    requires Inv(s) && FirmlyReached(s, x) && t.heap.Keys == s.heap.Keys && (forall z :: IsRoot(s, z) ==> IsRoot(t, z))
    requires forall y, z :: FirmStep(s, y, z) ==> FirmStep(t, y, z)
    ensures FirmlyReached(t, x) && x in t.heap
  {
    hide Inv, FirmStep, IsRoot;
    var p :| FirmPath(s, p) && p[|p| - 1] == x;
    FirmLive(s, p, |p| - 1);
    PathKept(s, t, p);
  }

  lemma PushedFirm(h: Heap, th: Id, u: Id, fin: set<Id>, x: Id, y: Id)
    requires th in h && h[th].Thread? && x in h && Firm(h, fin, x, y)
    ensures Firm(Pushed(h, th, u), fin, x, y)
  {
    var h' := Pushed(h, th, u);
    assert forall z :: z in h && z != th ==> h'[z] == h[z];
    if h[x].Table? && IsWeak(h, x) {
      if n :| n in h[x].nodes && FirmEntry(h, fin, ModeK(h, x), ModeV(h, x), n, y) {
        assert FirmEntry(h', fin, ModeK(h', x), ModeV(h', x), n, y);
      }
    }
  }

  lemma FinalizedReached(s: State, t: State, x: Id)
    requires Inv(s) && Finalized(s, t) && FirmlyReached(s, x)
    ensures FirmlyReached(t, x) && x in t.heap
  {
    forall y, z | FirmStep(s, y, z)
      ensures FirmStep(t, y, z)
    {
      hide Firm;
      if HasGc(s.heap, s.tmu[0]) { PushedFirm(s.heap, s.running, s.tmu[0], s.finalized, y, z); }
    }
    hide FirmStep, Inv, LiveStays;
    MoreReached(s, t, x);
  }

  lemma PropagatedReached(s: State, t: State, x: Id)
    requires Inv(s) && Propagated(s, t) && FirmlyReached(s, x)
    ensures FirmlyReached(t, x) && x in t.heap
  {
    CleanedOnce(s.heap, t.heap);
    hide Cleaned, CleanedStar, Spread, Inv;
    forall y, z | FirmStep(s, y, z)
      ensures FirmStep(t, y, z)
    {
      hide Firm;
      CleanedFirm(s.heap, t.heap, s.finalized, y, z);
    }
    hide FirmStep;
    MoreReached(s, t, x);
  }

  lemma FrameReached(s: State, t: State, x: Id)
    requires Inv(s) && FirmlyReached(s, x) && t.heap == s.heap && t.finalized == s.finalized && t.tmu == s.tmu
    requires forall z :: IsRoot(s, z) ==> IsRoot(t, z)
    ensures FirmlyReached(t, x) && x in t.heap
  {
    assert forall y, z :: FirmStep(s, y, z) ==> FirmStep(t, y, z);
    hide FirmStep, Inv, IsRoot;
    MoreReached(s, t, x);
  }

  lemma BucketReached(s: State, t: State, x: Id)
    requires Inv(s) && Inv(t) && s.phase == SweepString && Worked(s, t) && FirmlyReached(s, x)
    ensures FirmlyReached(t, x) && x in t.heap
  {
    BucketRootsSame(s);
    hide Inv, FirmlyReached, SweptBucket, HeapSwept, IsRoot, LiveStays;
    SweptReached(s, t, x);
  }

  lemma BucketRootsSame(s: State)
    requires s.sweepStr < |s.strt|
    ensures var t := SweptBucket(s);
      t.finalized == s.finalized && t.tmu == s.tmu && forall z :: IsRoot(t, z) <==> IsRoot(s, z)
  {
  }

  /** One step of the collector takes no firmly reached object away from the program. */
  lemma WorkedFirm(s: State, t: State, x: Id)
    requires Inv(s) && Inv(t) && Worked(s, t) && FirmlyReached(s, x)
    ensures FirmlyReached(t, x) && x in t.heap
  {
    match s.phase {
      case Pause =>
        hide Inv, FirmlyReached, Begun;
        FrameReached(s, t, x);
      case Propagate =>
        hide Inv, FirmlyReached, Propagated, Flipped;
        if s.gray != [] { PropagatedReached(s, t, x); } else { FlippedFirm(s, t, x); }
      case SweepString =>
        hide Inv, FirmlyReached;
        BucketReached(s, t, x);
      case Sweep =>
        hide Inv, FirmlyReached, HeapSwept, LiveStays, Backlog;
        SweptReached(s, t, x);
      case Finalize =>
        hide Inv, FirmlyReached, Finalized;
        if s.tmu != [] { FinalizedReached(s, t, x); } else { FrameReached(s, t, x); }
    }
  }

  predicate ByCollector(op: Op) {
    op.Step? || op.FullGc? || op.Restart?
  }

  lemma SteppedFirm(s: State, op: Op, t: State, x: Id)
    requires Inv(s) && Inv(t) && Stepped(s, op, t) && ByCollector(op) && FirmlyReached(s, x)
    ensures FirmlyReached(t, x) && x in t.heap
  {
    hide Inv, FirmlyReached, Worked, Begun;
    if op.Step? && s.held == {} {
      WorkedFirm(s, t, x);
    } else {
      FrameReached(s, t, x);
    }
  }

  /** Over any sequence of collector operations: what the program can firmly reach stays in the heap, and stays
      firmly reachable. */
  lemma {:induction false} FirmStays(trace: seq<State>, ops: seq<Op>, n: nat, x: Id)
    requires |trace| == |ops| + 1 && n < |trace| && (forall i :: 0 <= i < |trace| ==> Inv(trace[i]))
    requires forall i :: 0 <= i < |ops| ==> ByCollector(ops[i]) && Stepped(trace[i], ops[i], trace[i + 1])
    requires FirmlyReached(trace[0], x)
    ensures FirmlyReached(trace[n], x) && x in trace[n].heap
  {
    hide Inv, Stepped, FirmlyReached;
    if n > 0 {
      FirmStays(trace, ops, n - 1, x);
      assert Stepped(trace[n - 1], ops[n - 1], trace[n - 1 + 1]);
      SteppedFirm(trace[n - 1], ops[n - 1], trace[n], x);
    } else {
      FrameReached(trace[0], trace[0], x);
    }
  }

  // ----- What is not firm can be lost -----

  /** The strong half of an entry goes with the weak half: a key that only an entry of a weak-valued table
      holds is lost when its value is dead. */
  lemma StrongHalfLost(m: State, u: State, x: Id, key: Id, val: Id)
    requires WeakCleared(m, u) && x in m.heap && x in m.weak && m.heap[x].Table? && ModeV(m.heap, x)
      && !ModeK(m.heap, x)
    requires m.heap[x].nodes == [Node(Ref(key), Ref(val))] && m.heap[x].arr == [] && m.heap[x].mt != Ref(key)
    requires val in m.heap && val in m.col && m.col[val].White? && !m.heap[val].Str?
    ensures Refers(m.heap, x, key) && x in u.heap && !Refers(u.heap, x, key)
  {
    assert ClearedTable(m, x, u.heap[x]);
    assert HoldsStrongly(m.heap[x].nodes[0], false, true, key);
    ClearedModes(m, u, x);
  }

  /** A userdata that has been finalized before is dropped as a value of a weak-keyed table, although values
      are strong there and the userdata is marked. */
  lemma FinalizedValueLost(m: State, u: State, x: Id, val: Id)
    requires WeakCleared(m, u) && x in m.heap && x in m.weak && m.heap[x].Table? && ModeK(m.heap, x)
      && !ModeV(m.heap, x)
    requires m.heap[x].nodes == [Node(Plain, Ref(val))] && m.heap[x].arr == [] && m.heap[x].mt != Ref(val)
      && x !in m.weakV
    requires val in m.heap && val in m.col && m.heap[val].Udata? && val in m.finalized
    ensures Refers(m.heap, x, val) && x in u.heap && !Refers(u.heap, x, val)
  {
    assert ClearedTable(m, x, u.heap[x]);
    assert HoldsStrongly(m.heap[x].nodes[0], true, false, val);
    ClearedModes(m, u, x);
  }
}
