/** Finalizers: which userdata get theirs called, and that none of them is forgotten. */
module GcFinal {
  import opened GcState
  import opened GcMark
  import opened GcTrace
  import opened GcGrow
  import opened GcReach
  import opened GcAtomic
  import opened GcCycle
  import opened GcSweep
  import opened GcStore
  import opened GcUpvals
  import opened GcMutator
  import opened GcRun
  import opened GcFirm
  import opened GcFull

  /** `u` is a userdata whose metatable `m` has a "__gc" field. */
  predicate GcField(h: Heap, u: Id, m: Id) {
    u in h && h[u].Udata? && h[u].mt == Ref(m) && m in h && h[m].Table? && h[m].gcTM
  }

  ghost predicate WithGc(h: Heap, u: Id) {
    exists m :: GcField(h, u, m)
  }

  lemma GcMeans(h: Heap, u: Id)
    ensures HasGc(h, u) <==> WithGc(h, u)
  {
    if HasGc(h, u) { assert GcField(h, u, h[u].mt.id); }
  }

  lemma CleanedGc(h: Heap, h': Heap, u: Id)
    requires CleanedStar(h, h')
    ensures WithGc(h', u) <==> WithGc(h, u)
  {
    forall m
      ensures GcField(h', u, m) <==> GcField(h, u, m)
    {
      assert u in h ==> ObjCleaned(h[u], h'[u]);
      assert m in h ==> ObjCleaned(h[m], h'[m]);
    }
  }

  // ----- Who joins the userdata that wait -----

  /** What joins at the separation: white userdata that have "__gc" in their metatables and have not been
      finalized before. */
  lemma Separation(m: State, u: Id)
    ensures u in SeparatedState(m).tmu <==>
      u in m.tmu || (u in m.udatas && u in m.col && m.col[u].White? && u !in m.finalized && WithGc(m.heap, u))
  {
    GcMeans(m.heap, u);
    hide HasGc, WithGc, Pick;
    PickFacts(m, m.udatas, true);
  }

  lemma FlipTmu(t: State, m0: State, m: State, u: State, f: State)
    requires FlippedBy(t, m0, m, u, f)
    ensures f.tmu == SeparatedState(m0).tmu && m0.tmu == t.tmu && m0.udatas == t.udatas && m0.finalized == t.finalized
    ensures CleanedStar(t.heap, m0.heap)
  {
    hide Complete, StringsFrom, CleanedStar, Spread, Pick, WhiteAmong;
  }

  /** Past objects of `avoid` there is no way through. */
  ghost predicate WayPast(h: Heap, from: set<Id>, avoid: set<Id>, p: seq<Id>) {
    Way(h, from, p) && forall i :: 0 <= i < |p| - 1 ==> p[i] !in avoid
  }

  ghost predicate ReachedPast(h: Heap, from: set<Id>, avoid: set<Id>, x: Id) {
    exists p :: WayPast(h, from, avoid, p) && p[|p| - 1] == x
  }

  /** The roots, without userdata that wait. */
  function Roots(s: State): set<Id> {
    {s.main, s.running} + Target(s.registry) + Targets(s.mts)
  }

  lemma {:induction false} MarkedWay(s: State, todo: set<Id>, from: set<Id>, p: seq<Id>, i: nat)
    requires Complete(s, todo) && WayPast(s.heap, from, todo, p) && i < |p| && forall x :: x in from ==> Marked(s, x)
    ensures Marked(s, p[i])
  {
    if i > 0 {
      MarkedWay(s, todo, from, p, i - 1);
      hide Complete, Refers;
      assert Refers(s.heap, p[i - 1], p[i - 1 + 1]);
      CompleteRefers(s, todo, p[i - 1], p[i]);
    }
  }

  lemma CleanedWay(h: Heap, h': Heap, from: set<Id>, avoid: set<Id>, p: seq<Id>)
    requires CleanedStar(h, h') && WayPast(h, from, avoid, p)
    ensures WayPast(h', from, avoid, p)
  {
    CleanedKeys(h, h');
    hide CleanedStar, Refers;
    forall i | 0 <= i < |p| - 1
      ensures p[i] in h' && Refers(h', p[i], p[i + 1])
    {
      assert p[i] in h && Refers(h, p[i], p[i + 1]);
      CleanedRefers(h, h', p[i], p[i + 1]);
    }
  }

  lemma RootsMarkedUp(t: State, m0: State)
    requires RootsMarkedBut(m0) && m0.main == t.main && m0.running == t.running && m0.registry == t.registry
      && m0.mts == t.mts
    ensures forall x :: x in Roots(t) ==> Marked(m0, x)
  {
    forall x | x in Roots(t)
      ensures Marked(m0, x)
    {
      assert MarkedV(m0, Ref(x));
    }
  }

  lemma PastMarked(t: State, m0: State, m: State, u: State, f: State, x: Id)
    requires FlippedBy(t, m0, m, u, f) && ReachedPast(t.heap, Roots(t), Ids(t.tmu), x)
    ensures Marked(m0, x)
  {
    var p :| WayPast(t.heap, Roots(t), Ids(t.tmu), p) && p[|p| - 1] == x;
    hide Complete, StringsFrom, CleanedStar, Spread, SeparatedState, WayPast;
    AdvancedRoots(t, m0);
    RootsMarkedUp(t, m0);
    CleanedWay(t.heap, m0.heap, Roots(t), Ids(t.tmu), p);
    MarkedWay(m0, Ids(m0.tmu), Roots(t), p, |p| - 1);
  }

  /** The userdata that the atomic step puts among those that wait: they have "__gc" in their metatables, have
      not been finalized before, and the program cannot reach them. No other such userdata dies. */
  lemma FlipFinalizers(t: State, f: State, x: Id)
    requires Flipped(t, f) && x !in t.tmu
    ensures x in f.tmu ==> Unreachable(t, x)
    ensures x in t.udatas && x !in t.finalized && WithGc(t.heap, x) ==> x in f.tmu || Live(f, x)
  {
    var m0, m, u :| FlippedBy(t, m0, m, u, f);
    hide Flipped, FlippedBy, WithGc, SeparatedState, ReachedPast, Roots;
    FlipTmu(t, m0, m, u, f);
    Separation(m0, x);
    CleanedGc(t.heap, m0.heap, x);
    if x in f.tmu && ReachedPast(t.heap, Roots(t), Ids(t.tmu), x) {
      PastMarked(t, m0, m, u, f, x);
    }
    FlipKeysUp(t, m0, m, u, f);
    hide FlippedBy, WithGc;
    if x in t.udatas && x !in t.finalized && WithGc(t.heap, x) && x !in f.tmu {
      assert x in m0.heap by { assert HasGc(m0.heap, x) by { GcMeans(m0.heap, x); } }
      FlipMarks(t, m0, m, u, f, x);
    }
  }

  /** A userdata whose finalizer is to be called. */
  ghost predicate Unreachable(t: State, x: Id) {
    x in t.udatas && x !in t.finalized && WithGc(t.heap, x) && !ReachedPast(t.heap, Roots(t), Ids(t.tmu), x)
  }

  lemma FlipSeparates(t: State, f: State)
    requires Flipped(t, f)
    ensures forall x :: x in f.tmu && x !in t.tmu ==> Unreachable(t, x)
    ensures forall x, m :: x in t.udatas && x !in t.finalized && GcField(t.heap, x, m) ==> x in f.tmu || Live(f, x)
  {
    hide Flipped, GcField, Live, ReachedPast, Roots;
    forall x | x in f.tmu && x !in t.tmu
      ensures Unreachable(t, x)
    {
      FlipFinalizers(t, f, x);
    }
    forall x, m | x in t.udatas && x !in t.finalized && GcField(t.heap, x, m)
      ensures x in f.tmu || Live(f, x)
    {
      if x in t.tmu {
        FlippedWaits(t, f, x);
      } else {
        FlipFinalizers(t, f, x);
      }
    }
  }

  lemma FlipMarks(t: State, m0: State, m: State, u: State, f: State, x: Id)
    requires FlippedBy(t, m0, m, u, f) && Marked(m0, x)
    ensures Live(f, x)
  {
    hide Complete, StringsFrom, CleanedStar, Spread, SeparatedState, ClearedTable, StringsKept;
    SeparatedFrame(m0);
    assert Marked(SeparatedState(m0), x);
    assert Marked(m, x);
  }

  // ----- In a whole cycle -----

  /** In a cycle of its own the collector finds exactly the userdata that need it: those that cannot be reached. */
  lemma CycleFinalizers(s: State, t: State, f: State, x: Id)
    requires InMarking(s, t) && Flipped(t, f) && Inv(s) && Rested(s) && Inv(f)
    ensures x in s.udatas && x !in s.finalized && WithGc(s.heap, x) && !Reached(s.heap, Starts(s) + {s.running}, x) ==>
      x in f.tmu && x in f.heap
    ensures x in f.tmu && x !in s.tmu ==> Unreachable(s, x)
  {
    hide Inv, InMarking, Flipped, Rested, ReachedPast, WithGc;
    InMarkingFrame(s, t);
    CleanedGc(s.heap, t.heap, x);
    if x in s.tmu {
    } else {
      FlipFinalizers(t, f, x);
      if ReachedPast(s.heap, Roots(s), Ids(s.tmu), x) { PastCleaned(s.heap, t.heap, Roots(s), Ids(s.tmu), x); }
    }
    if x in s.udatas && x !in s.finalized && WithGc(s.heap, x) && !Reached(s.heap, Starts(s) + {s.running}, x) {
      Unreached(s, t, f, x);
    }
  }

  lemma InMarkingFrame(s: State, t: State)
    requires InMarking(s, t)
    ensures CleanedStar(s.heap, t.heap) && t.tmu == s.tmu && t.udatas == s.udatas && t.finalized == s.finalized
      && Roots(t) == Roots(s)
  {
  }

  lemma PastCleaned(h: Heap, h': Heap, from: set<Id>, avoid: set<Id>, x: Id)
    requires CleanedStar(h, h') && ReachedPast(h, from, avoid, x)
    ensures ReachedPast(h', from, avoid, x)
  {
    var p :| WayPast(h, from, avoid, p) && p[|p| - 1] == x;
    CleanedWay(h, h', from, avoid, p);
  }

  /** What cannot be reached is white when userdata are separated. */
  lemma Unreached(s: State, t: State, f: State, x: Id)
    requires InMarking(s, t) && Flipped(t, f) && Inv(s) && Rested(s) && Inv(f)
    requires x in s.udatas && x !in s.finalized && WithGc(s.heap, x) && !Reached(s.heap, Starts(s) + {s.running}, x)
    ensures x in f.tmu && x in f.heap
  {
    var m0, m, u :| FlippedBy(t, m0, m, u, f);
    hide Flipped;
    var from := Starts(s) + {s.running};
    FlipKeys(s, t, f);
    SourcesIn(s, f);
    ReachFence(s, from);
    SeparationFenced(s, t, m0, m, u, f, Reach(s.heap, from));
    FlipTmu(t, m0, m, u, f);
    InMarkingFrame(s, t);
    hide InMarking, Inv, Rested;
    Separation(m0, x);
    CleanedGc(s.heap, t.heap, x);
    CleanedGc(t.heap, m0.heap, x);
    FlipKeysUp(t, m0, m, u, f);
    NotMarked(s.heap, m0, from, x);
    assert x in f.heap by { CleanedKeys(s.heap, t.heap); }
  }

  lemma SeparationFenced(s: State, t: State, m0: State, m: State, u: State, f: State, fence: set<Id>)
    requires InMarking(s, t) && FlippedBy(t, m0, m, u, f)
    requires Encloses(s.heap, fence) && Starts(s) + {s.running} <= fence
    ensures Fenced(m0, fence)
  {
    hide Encloses, Complete, StringsFrom, RootsMarked, CleanedStar, Advanced, SeparatedState, WeakCleared;
    assert Fenced(t, fence);
    assert Targets(t.mts) <= Starts(s);
  }

  lemma NotMarked(h: Heap, m0: State, from: set<Id>, x: Id)
    requires Fenced(m0, Reach(h, from)) && m0.col.Keys == m0.heap.Keys && WithGc(m0.heap, x) && !Reached(h, from, x)
    ensures x in m0.col && m0.col[x].White?
  {
    hide Encloses, Reached;
    assert !Marked(m0, x);
  }

  lemma FlipKeysUp(t: State, m0: State, m: State, u: State, f: State)
    requires FlippedBy(t, m0, m, u, f)
    ensures f.heap.Keys == t.heap.Keys && m0.col.Keys == m0.heap.Keys
  {
    hide FlippedBy;
    assert Flipped(t, f);
    FlippedFrame(t, f);
    MarkedUpKeys(t, m0, m, u, f);
  }

  lemma MarkedUpKeys(t: State, m0: State, m: State, u: State, f: State)
    requires FlippedBy(t, m0, m, u, f)
    ensures m0.col.Keys == m0.heap.Keys
  {
    hide Complete, StringsFrom, CleanedStar, Spread, SeparatedState, WeakCleared, Advanced;
  }

  // ----- Nobody is forgotten -----

  /** The collector calls the finalizer of `u`: the running thread gets it, if its metatable still has "__gc". */
  ghost predicate Called(s: State, t: State, u: Id) {
    && s.phase == Finalize && s.tmu != [] && s.tmu[0] == u && s.running in s.heap && s.heap[s.running].Thread?
    && t.tmu == s.tmu[1..]
    && t.heap == if WithGc(s.heap, u) then
         s.heap[s.running := s.heap[s.running].(stack := s.heap[s.running].stack + [Ref(u)])]
       else s.heap
  }

  lemma FinalizedCalls(s: State, t: State)
    requires Finalized(s, t) && s.phase == Finalize
    ensures Called(s, t, s.tmu[0])
  {
    GcMeans(s.heap, s.tmu[0]);
    hide HasGc, WithGc, LiveStays;
  }

  /** In one step of the collector userdata that wait go on waiting, or the first of them is called. */
  lemma WorkedWaits(s: State, t: State, u: Id)
    requires Worked(s, t) && u in s.tmu
    ensures u in t.tmu || Called(s, t, u)
  {
    match s.phase
    case Pause => hide Begun;
    case Propagate =>
      hide Cleaned, Spread, Closer;
      if s.gray == [] {
        hide Flipped;
        FlippedWaits(s, t, u);
      }
    case SweepString => hide Sunk, LiveStays;
    case Sweep => hide Sunk, LiveStays, Backlog;
    case Finalize =>
      hide Called, WithGc, HasGc, LiveStays;
      FinalizedCalls(s, t);
      if u != s.tmu[0] {
        var i :| 0 <= i < |s.tmu| && s.tmu[i] == u;
        assert s.tmu[1..][i - 1] == u;
      }
  }

  lemma FlippedWaits(s: State, t: State, u: Id)
    requires Flipped(s, t) && u in s.tmu
    ensures u in t.tmu
  {
    var m0, m, v :| FlippedBy(s, m0, m, v, t);
    hide FlippedBy, SeparatedState;
    FlipTmu(s, m0, m, v, t);
    Separation(m0, u);
  }

  lemma SteppedWaits(s: State, op: Op, t: State, u: Id)
    requires Stepped(s, op, t) && u in s.tmu
    ensures u in t.tmu || (op == Step && Called(s, t, u))
  {
    if op.Step? {
      hide Worked, Called;
      if s.held == {} { WorkedWaits(s, t, u); }
    } else {
      hide Worked, Points, Called, Begun, SweptBucket, OwnedStrings, IsRoot, Creatable, Forwardable, Settable,
          WithClosed;
    }
  }

  lemma WaitingIn(s: State, u: Id)
    requires Inv(s) && u in s.tmu
    ensures u in s.heap && s.heap[u].Udata?
  {
    hide Shape, OwnedStrings, Survivors, Palette, InPhase;
  }

  /** Over every run of program and collector: userdata that wait for their finalizers stay in the heap and go on
      waiting until a step of the collector calls them. */
  lemma {:induction false} NeverForgotten(trace: seq<State>, ops: seq<Op>, n: nat, u: Id)
    requires |trace| == |ops| + 1 && n < |trace| && (forall i :: 0 <= i < |trace| ==> Inv(trace[i]))
    requires forall i :: 0 <= i < |ops| ==> Stepped(trace[i], ops[i], trace[i + 1])
    requires u in trace[0].tmu
    ensures (u in trace[n].tmu && u in trace[n].heap)
      || exists k :: 0 <= k < n && u in trace[k].heap && Called(trace[k], trace[k + 1], u)
  {
    hide Inv, Stepped, Called;
    if n > 0 {
      NeverForgotten(trace, ops, n - 1, u);
      if u in trace[n - 1].tmu {
        assert Stepped(trace[n - 1], ops[n - 1], trace[n - 1 + 1]);
        SteppedWaits(trace[n - 1], ops[n - 1], trace[n], u);
      }
    }
    if u in trace[n].tmu { WaitingIn(trace[n], u); }
  }

  /** Nobody else is called: only the flip adds to those that wait, and only userdata that have "__gc", have not
      been finalized before, and are out of the program's reach. */
  lemma SteppedJoins(s: State, op: Op, t: State, u: Id)
    requires Stepped(s, op, t) && u in t.tmu && u !in s.tmu
    ensures op == Step && s.phase == Propagate && Unreachable(s, u)
  {
    hide WithGc, ReachedPast, Roots;
    if op.Step? && s.held == {} {
      hide Worked;
      WorkedJoins(s, t, u);
    } else {
      hide Worked, Points, Begun, SweptBucket, OwnedStrings, IsRoot, Creatable, Forwardable, Settable, WithClosed;
    }
  }

  lemma WorkedJoins(s: State, t: State, u: Id)
    requires Worked(s, t) && u in t.tmu && u !in s.tmu
    ensures s.phase == Propagate && Unreachable(s, u)
  {
    hide WithGc, ReachedPast, Roots, HasGc, LiveStays, Sunk, Backlog, Begun, Cleaned, Spread, Closer, Flipped, Pushed;
    if s.phase == Propagate && s.gray == [] {
      FlipFinalizers(s, t, u);
    } else {
      WorkedTmu(s, t);
    }
  }

  lemma WorkedTmu(s: State, t: State)
    requires Worked(s, t) && !(s.phase == Propagate && s.gray == [])
    ensures forall u :: u in t.tmu ==> u in s.tmu
  {
    hide HasGc, LiveStays, Sunk, Backlog, Begun, Cleaned, Spread, Closer, Flipped, Pushed;
  }

  // ----- A full collection -----

  /** At the start of the cycle: a finalizer is due. */
  ghost predicate Due(s: State, u: Id) {
    u in s.udatas && u !in s.finalized && WithGc(s.heap, u) && !Reached(s.heap, Starts(s) + {s.running}, u)
  }

  /** It has been called, or the userdata waits for it. */
  ghost predicate Served(t: State, u: Id) {
    || (u in t.tmu && WithGc(t.heap, u))
    || (t.running in t.heap && t.heap[t.running].Thread? && Ref(u) in t.heap[t.running].stack)
  }

  lemma DueServed(s: State, t: State, f: State, u: Id)
    requires InMarking(s, t) && Flipped(t, f) && Inv(s) && Rested(s) && Inv(f) && Due(s, u)
    ensures Served(f, u)
  {
    var m0, m, v :| FlippedBy(t, m0, m, v, f);
    hide Inv, InMarking, Flipped, Rested, Reached, WithGc, FlippedBy;
    CycleFinalizers(s, t, f, u);
    FlipStar(s, t, m0, m, v, f);
    FlipCleared(t, m0, m, v, f);
    CleanedGc(s.heap, m.heap, u);
    ClearedGc(m, v, u);
  }

  lemma ClearedGc(m: State, v: State, u: Id)
    requires WeakCleared(m, v)
    ensures WithGc(m.heap, u) ==> WithGc(v.heap, u)
  {
    hide StringsKept, StringsGray, ClearNode, ClearValue;
    if x :| GcField(m.heap, u, x) {
      assert u in m.weak ==> ClearedTable(m, u, v.heap[u]);
      if x in m.weak { assert ClearedTable(m, x, v.heap[x]); }
      assert GcField(v.heap, u, x);
    }
  }

  lemma SweptServed(s: State, t: State, u: Id)
    requires Inv(s) && HeapSwept(s.heap, t.heap) && LiveStays(s, t) && t.tmu == s.tmu && t.running == s.running
      && Served(s, u)
    ensures Served(t, u)
  {
    if u in s.tmu && WithGc(s.heap, u) {
      var m :| GcField(s.heap, u, m);
      SweptGc(s, t, u, m);
    } else {
      SweptStack(s, t, u);
    }
  }

  lemma SweptGc(s: State, t: State, u: Id, m: Id)
    requires Inv(s) && HeapSwept(s.heap, t.heap) && LiveStays(s, t) && u in s.tmu && GcField(s.heap, u, m)
    ensures WithGc(t.heap, u)
  {
    assert Root(s, u) && Points(s.heap, u, m);
    assert Live(s, u) && Live(s, m) by { assert Survivors(s); }
    hide Inv, WithGc;
    assert u in t.heap && m in t.heap;
    assert ObjSwept(s.heap, u, t.heap[u]) && ObjSwept(s.heap, m, t.heap[m]);
    assert GcField(t.heap, u, m);
    GcThere(t.heap, u, m);
  }

  lemma GcThere(h: Heap, u: Id, m: Id)
    requires GcField(h, u, m)
    ensures WithGc(h, u)
  {
  }

  lemma SweptStack(s: State, t: State, u: Id)
    requires Inv(s) && HeapSwept(s.heap, t.heap) && LiveStays(s, t) && t.running == s.running
    requires s.running in s.heap && s.heap[s.running].Thread? && Ref(u) in s.heap[s.running].stack
    ensures t.running in t.heap && t.heap[t.running].Thread? && Ref(u) in t.heap[t.running].stack
  {
    assert Root(s, s.running);
    assert Live(s, s.running) by { assert Survivors(s); }
    hide Inv;
    assert ObjSwept(s.heap, s.running, t.heap[s.running]);
  }

  lemma CalledServed(s: State, t: State, u: Id)
    requires s.tmu != [] && Called(s, t, s.tmu[0]) && t.running == s.running && Served(s, u)
    ensures Served(t, u)
  {
    var v, th := s.tmu[0], s.running;
    assert forall x :: x in s.heap && x != th ==> x in t.heap && t.heap[x] == s.heap[x];
    assert t.heap[th].Thread? && forall y :: y in s.heap[th].stack ==> y in t.heap[th].stack;
    if u in s.tmu && WithGc(s.heap, u) && u != v {
      var m :| GcField(s.heap, u, m);
      assert GcField(t.heap, u, m);
      var i :| 0 <= i < |s.tmu| && s.tmu[i] == u;
      assert s.tmu[1..][i - 1] == u;
    }
  }

  /** No step after the flip forgets a userdata that waits. */
  lemma WorkedServed(s: State, t: State, u: Id)
    requires Inv(s) && Worked(s, t) && s.phase != Pause && s.phase != Propagate && Served(s, u)
    ensures Served(t, u)
  {
    hide Inv, Served, LiveStays, HeapSwept, HasGc;
    match s.phase
    case SweepString => SweptServed(s, t, u);
    case Sweep => SweptServed(s, t, u);
    case Finalize =>
      if s.tmu != [] {
        FinalizedCalls(s, t);
        hide Called;
        CalledServed(s, t, u);
      } else {
        hide Finalized;
        ServedSame(s, t, u);
      }
  }

  lemma WorkedPause(s: State, t: State)
    requires Worked(s, t) && s.phase != Pause && s.phase != Propagate
    ensures t.phase == Pause ==> t.tmu == []
  {
    hide LiveStays, Sunk, Backlog, HasGc, Pushed;
  }

  lemma ServedSame(s: State, t: State, u: Id)
    requires t.heap == s.heap && t.tmu == s.tmu && t.running == s.running && Served(s, u)
    ensures Served(t, u)
  {
  }

  lemma RunningThere(s: State)
    requires Inv(s)
    ensures s.running in s.heap && s.heap[s.running].Thread?
  {
    hide Owned, Survivors, Palette, InPhase, Linked;
  }

  lemma DueStack(s: State, f: State, t: State)
    requires (forall u :: Due(s, u) ==> Served(f, u)) && (forall u :: Served(f, u) ==> Served(t, u)) && t.tmu == []
      && Inv(t)
    ensures t.running in t.heap && t.heap[t.running].Thread?
    ensures forall u :: Due(s, u) ==> Ref(u) in t.heap[t.running].stack
  {
    RunningThere(t);
    hide Inv, Due, Served;
    forall u | Due(s, u)
      ensures Ref(u) in t.heap[t.running].stack
    {
      ServedStack(t, u);
    }
  }

  lemma ServedStack(t: State, u: Id)
    requires Served(t, u) && t.tmu == []
    ensures t.running in t.heap && t.heap[t.running].Thread? && Ref(u) in t.heap[t.running].stack
  {
  }
}
