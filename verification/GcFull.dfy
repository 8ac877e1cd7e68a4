/** A full collection frees exactly what cannot be reached. */
module GcFull {
  import opened GcState
  import opened GcMark
  import opened GcTrace
  import opened GcGrow
  import opened GcReach
  import opened GcAtomic
  import opened GcCycle
  import opened GcSweep
  import opened GcStore
  import opened GcUpvals
  import opened GcRun
  import opened GcFirm

  /** From where a cycle keeps objects alive: the roots, userdata that waited for their finalizers when it
      started, and those that it has put among them. */
  function Sources(s: State, flip: State): set<Id> {
    Starts(s) + {s.running} + Ids(flip.tmu)
  }

  /** Why an object may be in the heap after a cycle that started in `s`: it can be reached by strong
      references, or it is a string that is fixed or that such a weak table refers to. */
  ghost predicate Justified(s: State, flip: State, x: Id) {
    || Reached(s.heap, Sources(s, flip), x)
    || (x in s.heap && s.heap[x].Str? && (s.heap[x].fixed || StringHeld(s, flip, x)))
  }

  ghost predicate StringHeld(s: State, flip: State, x: Id) {
    exists z :: z in s.heap && s.heap[z].Table? && IsWeak(s.heap, z) && Reached(s.heap, Sources(s, flip),
        z) && Points(s.heap, z, x)
  }

  // ----- Marking -----

  /** Marks since `s`, the state in which the cycle started: inside every fence around its start. */
  ghost predicate InMarking(s: State, t: State) {
    && CleanedStar(s.heap, t.heap) && t.main == s.main && t.running == s.running && t.registry == s.registry
    && t.mts == s.mts && t.tmu == s.tmu && t.udatas == s.udatas && t.finalized == s.finalized
    && forall fence :: Encloses(s.heap, fence) && Starts(s) <= fence ==> Fenced(t, fence)
  }

  lemma MarkingStarts(s: State, t: State)
    requires MarkedRoots(s, t)
    ensures InMarking(s, t)
  {
    GrownRefl(s);
    hide CleanedStar, Fenced;
  }

  lemma MarkingGoesOn(s: State, m: State, t: State)
    requires InMarking(s, m) && Propagated(m, t)
    ensures InMarking(s, t)
  {
    CleanedTrans(s.heap, m.heap, t.heap);
    hide CleanedStar, Fenced, Cleaned, Encloses;
  }

  /** The marks of the atomic step stay inside the fence, too. */
  lemma FlipFenced(s: State, t: State, m0: State, m: State, u: State, f: State, fence: set<Id>)
    requires InMarking(s, t) && FlippedBy(t, m0, m, u, f)
    requires Encloses(s.heap, fence) && Sources(s, f) <= fence
    ensures Fenced(m, fence)
  {
    hide Encloses, Complete, StringsFrom, RootsMarked, CleanedStar, Advanced;
    SeparatedFrame(m0);
    hide SeparatedState;
    ClearedFrame(m, u);
    hide WeakCleared;
    assert Fenced(t, fence);
    assert Targets(t.mts) <= Starts(s);
    assert Fenced(m0, fence);
    assert Fenced(SeparatedState(m0), fence) by { hide Spread; }
    assert Ids(m.tmu) <= fence;
  }

  lemma FlipStar(s: State, t: State, m0: State, m: State, u: State, f: State)
    requires InMarking(s, t) && FlippedBy(t, m0, m, u, f)
    ensures CleanedStar(s.heap, m.heap)
  {
    hide Encloses, Complete, StringsFrom, RootsMarked, CleanedStar, Fenced, WeakCleared, Spread, RootsMarkedBut;
    SeparatedFrame(m0);
    hide SeparatedState;
    CleanedStarTrans(s.heap, t.heap, m0.heap);
    CleanedStarTrans(s.heap, m0.heap, m.heap);
  }

  /** The marks at the flip are exactly what can be reached. */
  lemma FlipExact(s: State, t: State, f: State)
    requires InMarking(s, t) && Flipped(t, f) && Inv(s) && Rested(s) && Inv(f)
    ensures forall x :: Reached(s.heap, Sources(s, f), x) ==> Live(f, x)
    ensures forall x :: Live(f, x) ==> Justified(s, f, x)
  {
    var m0, m, u :| FlippedBy(t, m0, m, u, f);
    hide Flipped;
    var from, fence := Sources(s, f), Reach(s.heap, Sources(s, f));
    FlipKeys(s, t, f);
    SourcesIn(s, f);
    ReachFence(s, Sources(s, f));
    FlipFenced(s, t, m0, m, u, f, fence);
    FlipStar(s, t, m0, m, u, f);
    hide InMarking, Inv, Rested, Reach;
    forall x | Reached(s.heap, from, x)
      ensures Live(f, x)
    {
      SourcesMarked(s, t, m0, m, u, f);
      ReachedCleaned(s.heap, m.heap, from, x);
      ReachedLive(t, m0, m, u, f, from, x);
    }
    forall x | Live(f, x)
      ensures Justified(s, f, x)
    {
      LiveJustified(s, t, m0, m, u, f, x, fence);
    }
  }

  lemma FlipKeys(s: State, t: State, f: State)
    requires InMarking(s, t) && Flipped(t, f)
    ensures f.heap.Keys == s.heap.Keys
  {
    FlippedFrame(t, f);
    CleanedKeys(s.heap, t.heap);
  }

  lemma SourcesIn(s: State, f: State)
    requires Inv(s) && Inv(f) && f.heap.Keys == s.heap.Keys
    ensures Sources(s, f) <= s.heap.Keys
  {
    hide Inv;
    forall x | x in Sources(s, f)
      ensures x in s.heap
    {
      if x in f.tmu { RootIn(f, x); } else { RootIn(s, x); }
    }
  }

  lemma RootIn(s: State, x: Id)
    requires Inv(s) && Root(s, x)
    ensures x in s.heap
  {
    hide Shape, Owned, Palette, InPhase;
    assert Live(s, x);
  }

  /** Between cycles everything is live, so references stay in the heap. */
  lemma ReachFence(s: State, from: set<Id>)
    requires Inv(s) && Rested(s) && from <= s.heap.Keys
    ensures from <= Reach(s.heap, from) && Encloses(s.heap, Reach(s.heap, from))
  {
    forall x, y | x in s.heap && Refers(s.heap, x, y)
      ensures y in s.heap
    {
      RestedLive(s, x);
      RefersPoints(s.heap, x, y);
      hide Refers, Points;
      assert Live(s, y);
    }
    hide Inv, Rested, Refers;
    ReachClosed(s.heap, from);
  }

  lemma RestedLive(s: State, x: Id)
    requires Inv(s) && Rested(s) && x in s.heap
    ensures Live(s, x)
  {
    if x in s.tmu { assert Root(s, x); }
  }

  lemma SourcesMarked(s: State, t: State, m0: State, m: State, u: State, f: State)
    requires InMarking(s, t) && FlippedBy(t, m0, m, u, f)
    ensures forall x :: x in Sources(s, f) ==> Marked(m, x)
  {
    hide Encloses, Complete, StringsFrom, CleanedStar, Spread, Fenced, Marked, Live;
    AdvancedRoots(t, m0);
    AdvancedRoots(SeparatedState(m0), m);
    SeparatedTmu(m0);
    hide SeparatedState;
    ClearedFrame(m, u);
    hide WeakCleared, Advanced;
    forall x | x in Sources(s, f)
      ensures Marked(m, x)
    {
      assert MarkedV(m, Ref(x));
    }
  }

  lemma SeparatedTmu(m: State)
    ensures forall x :: x in m.tmu ==> x in SeparatedState(m).tmu
    ensures var r := SeparatedState(m);
      r.main == m.main && r.running == m.running && r.registry == m.registry && r.mts == m.mts
  {
  }

  lemma ReachedLive(t: State, m0: State, m: State, u: State, f: State, from: set<Id>, x: Id)
    requires FlippedBy(t, m0, m, u, f) && Reached(m.heap, from, x) && forall z :: z in from ==> Marked(m, z)
    ensures Live(f, x)
  {
    CompleteReached(m, from, x);
    hide Complete, Spread, CleanedStar, StringsFrom, ClearedTable, StringsKept;
  }

  lemma LiveJustified(s: State, t: State, m0: State, m: State, u: State, f: State, x: Id, fence: set<Id>)
    requires FlippedBy(t, m0, m, u, f) && CleanedStar(s.heap, m.heap) && Fenced(m, fence)
    requires fence == Reach(s.heap, Sources(s, f)) && Live(f, x)
    ensures Justified(s, f, x)
  {
    hide Encloses, Spread, Advanced, SeparatedState, Refers, Points, CleanedStar;
    assert Marked(f, x) && Marked(u, x) by { hide Complete, StringsFrom, WeakCleared; }
    if !Marked(m, x) {
      assert m.heap[x].Str? && WeaklyHeld(m, x);
      var z :| z in m.weak && Marked(m, z) && Points(m.heap, z, x);
      assert BitsRight(m, z) by { hide WeakCleared; }
      StringBack(s.heap, m.heap, z, x);
      assert z in Reach(s.heap, Sources(s, f));
    }
  }

  /** A string that a weak table refers to after cleaning was referred to before. */
  lemma StringBack(h: Heap, h': Heap, z: Id, x: Id)
    requires CleanedStar(h, h') && z in h' && (ModeK(h', z) || ModeV(h', z)) && Points(h', z, x) && x in h'
      && h'[x].Str?
    ensures z in h && h[z].Table? && IsWeak(h, z) && Points(h, z, x) && x in h && h[x].Str?
  {
    CleanedKeys(h, h');
    CleanedModes(h, h', z);
    assert ObjCleaned(h[z], h'[z]) && ObjCleaned(h[x], h'[x]);
    if n :| n in h'[z].nodes && n.val != Nil && (n.key == Ref(x) || n.val == Ref(x)) {
      var i :| 0 <= i < |h'[z].nodes| && h'[z].nodes[i] == n;
      assert h[z].nodes[i] == n;
    }
  }

  // ----- The whole cycle -----

  ghost predicate Collected(s: State, t: State) {
    Stepped(s, Step, t) || Stepped(s, FullGc, t) || Stepped(s, Restart, t)
  }

  /** A run of the collector alone. */
  ghost predicate Chain(trace: seq<State>) {
    && |trace| > 0
    && (forall i :: 0 <= i < |trace| ==> Inv(trace[i]))
    && (forall i :: 0 <= i < |trace| - 1 ==> Collected(trace[i], trace[i + 1]))
  }

  /** A run of the collector alone: up to `start` a sweep ends, then a cycle starts, and `flip` is where
      its marking is over. */
  ghost predicate FullTrace(trace: seq<State>, start: nat, flip: nat) {
    && Chain(trace) && start + 1 < flip < |trace|
    && trace[start].phase == Finalize && Stepped(trace[start], Restart, trace[start + 1])
    && (forall i :: start < i < flip ==> trace[i].phase == Propagate)
    && (forall i :: flip <= i < |trace| ==> trace[i].phase != Propagate)
    && trace[flip].phase == SweepString
  }

  lemma CollectedFirm(s: State, t: State, x: Id)
    requires Inv(s) && Inv(t) && Collected(s, t) && FirmlyReached(s, x)
    ensures FirmlyReached(t, x) && x in t.heap
  {
    hide Inv, Stepped, FirmlyReached;
    if Stepped(s, Step, t) {
      SteppedFirm(s, Step, t, x);
    } else if Stepped(s, FullGc, t) {
      SteppedFirm(s, FullGc, t, x);
    } else {
      SteppedFirm(s, Restart, t, x);
    }
  }

  /** After the cycle exactly what can be reached is left. */
  lemma CycleExact(s: State, f: State, t: State)
    requires forall x :: Reached(s.heap, Sources(s, f), x) ==> Live(f, x)
    requires forall x :: Live(f, x) ==> Justified(s, f, x)
    requires (forall x :: Live(f, x) ==> x in t.heap) && (forall x :: x in t.heap ==> x in f.heap && !Condemned(f, x))
    requires f.heap.Keys == f.col.Keys && CleanStrings(s, f)
    ensures forall x :: Reached(s.heap, Sources(s, f), x) ==> x in t.heap
    ensures forall x :: x in t.heap ==> Justified(s, f, x)
  {
    hide Reached, StringHeld, Points;
    forall x | x in t.heap
      ensures Justified(s, f, x)
    {
      if !Live(f, x) { assert f.heap[x].Str? && f.heap[x].fixed; }
    }
  }

  predicate CleanStrings(s: State, f: State) {
    forall x :: x in f.heap && f.heap[x].Str? ==> x in s.heap && s.heap[x] == f.heap[x]
  }

  lemma FlipStrings(s: State, t: State, f: State)
    requires InMarking(s, t) && Flipped(t, f)
    ensures CleanStrings(s, f)
  {
    hide InMarking, FlippedBy, WeakCleared, CleanedStar;
    var m0, m, u :| FlippedBy(t, m0, m, u, f);
    FlipStar(s, t, m0, m, u, f);
    FlipCleared(t, m0, m, u, f);
    forall x | x in f.heap && f.heap[x].Str?
      ensures x in s.heap && s.heap[x] == f.heap[x]
    {
      StringSame(s.heap, m, u, x);
    }
  }

  lemma FlipCleared(t: State, m0: State, m: State, u: State, f: State)
    requires FlippedBy(t, m0, m, u, f)
    ensures WeakCleared(m, u) && f.heap == u.heap
  {
    hide MarkedUp, MarkedOut, WeakCleared, StringsFrom, SeparatedState;
  }

  lemma StringSame(h: Heap, m: State, u: State, x: Id)
    requires CleanedStar(h, m.heap) && WeakCleared(m, u) && x in u.heap && u.heap[x].Str?
    ensures x in h && h[x] == u.heap[x]
  {
    hide StringsKept, StringsGray;
    assert ObjCleaned(h[x], m.heap[x]);
    assert x in m.heap && x in m.weak ==> ClearedTable(m, x, u.heap[x]);
  }

  lemma ChainNext(trace: seq<State>, t: State)
    requires Chain(trace) && Collected(trace[|trace| - 1], t) && Inv(t)
    ensures Chain(trace + [t])
  {
    hide Inv, Collected;
    var r := trace + [t];
    forall i | 0 <= i < |r| - 1
      ensures Collected(r[i], r[i + 1])
    {
      if i < |trace| - 1 { assert r[i + 1] == trace[i + 1]; }
    }
  }

  lemma OneStep(s: State, t: State)
    requires Worked(s, t) && s.held == {}
    ensures Collected(s, t)
  {
    hide Worked;
  }

  lemma OneRestart(s: State, t: State)
    requires MarkedRoots(s, t) && s.held == {} && s.phase == Finalize
    ensures Stepped(s, Restart, t) && Collected(s, t)
  {
    hide MarkedRoots;
  }

  lemma SweptAll(s: State, t: State)
    requires t == SweepAll(s) && (s.phase == Pause || s.phase == Propagate)
    ensures Collected(s, t)
  {
  }

  lemma MarkingStep(s: State, m: State, t: State)
    requires InMarking(s, m) && Worked(m, t) && m.phase == Propagate
    ensures t.phase == Propagate ==> InMarking(s, t)
    ensures t.phase != Propagate ==> Flipped(m, t)
  {
    hide InMarking, Propagated, Flipped;
    if m.gray != [] {
      MarkingGoesOn(s, m, t);
      PropagatedPhase(m, t);
    } else {
      FlippedFrame(m, t);
    }
  }

  lemma PropagatedPhase(s: State, t: State)
    requires Propagated(s, t)
    ensures t.phase == s.phase
  {
  }

  lemma InvSameKeys(s: State)
    requires Inv(s)
    ensures s.heap.Keys == s.col.Keys
  {
  }

  lemma LiveIn(s: State)
    ensures forall x :: Live(s, x) ==> x in s.heap
  {
  }

  lemma {:induction false} ChainFirm(trace: seq<State>, n: nat, x: Id)
    requires Chain(trace) && n < |trace| && FirmlyReached(trace[0], x)
    ensures FirmlyReached(trace[n], x) && x in trace[n].heap
  {
    hide Inv, Collected, FirmlyReached;
    if n > 0 {
      ChainFirm(trace, n - 1, x);
      assert Collected(trace[n - 1], trace[n - 1 + 1]);
      CollectedFirm(trace[n - 1], trace[n], x);
    } else {
      FrameReached(trace[0], trace[0], x);
    }
  }

  lemma ChainFirmAll(trace: seq<State>, s: State, t: State)
    requires Chain(trace) && trace[0] == s && trace[|trace| - 1] == t
    ensures forall x :: FirmlyReached(s, x) ==> FirmlyReached(t, x) && x in t.heap
  {
    ChainSome(trace);
    hide Chain, FirmlyReached;
    forall x | FirmlyReached(s, x)
      ensures FirmlyReached(t, x) && x in t.heap
    {
      ChainFirm(trace, |trace| - 1, x);
    }
  }

  lemma FullDone(t0: seq<State>, t1: seq<State>, trace: seq<State>)
    requires Chain(t0) && Chain(trace) && |t0| + 1 < |t1| && t0 <= t1 <= trace
    requires t0[|t0| - 1].phase == Finalize && Stepped(t0[|t0| - 1], Restart, t1[|t0|])
    requires (forall i :: |t0| <= i < |t1| - 1 ==> t1[i].phase == Propagate) && t1[|t1| - 1].phase == SweepString
    requires forall i :: |t1| - 1 <= i < |trace| ==> trace[i].phase != Propagate
    ensures FullTrace(trace, |t0| - 1, |t1| - 1)
    ensures trace[|t0| - 1] == t0[|t0| - 1] && trace[|t1| - 1] == t1[|t1| - 1] && trace[0] == t0[0]
  {
    hide Chain, Stepped;
    assert |t0| > 0 by { ChainSome(t0); }
  }

  lemma ChainSome(trace: seq<State>)
    requires Chain(trace)
    ensures |trace| > 0
  {
  }

  lemma MarkedRootsFrame(s: State, t: State)
    requires MarkedRoots(s, t)
    ensures t.phase == Propagate && t.heap == s.heap && t.held == s.held
  {
  }
}
