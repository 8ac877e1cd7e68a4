/** What the collector does to the heap between two safe points: marking spreads along strong
    references, clearing touches weak tables only, sweeping only frees. */
module GcCycle {
  import opened GcState
  import opened GcMark
  import opened GcTrace
  import opened GcGrow
  import opened GcReach
  import opened GcAtomic

  // ----- Starting a cycle -----

  /** What marking starts from: the roots, and userdata that still wait for their finalizers. */
  function Starts(s: State): set<Id> {
    {s.main} + Target(s.registry) + Targets(s.mts) + Ids(s.tmu)
  }

  /** The marks that a new cycle starts with are inside every fence around these. */
  ghost predicate Begun(s: State, t: State) {
    forall fence :: Encloses(s.heap, fence) && Starts(s) <= fence ==> Fenced(t, fence)
  }

  // ----- Marking in the atomic step -----

  ghost predicate RootsMarkedBut(s: State) {
    Marked(s, s.main) && Marked(s, s.running) && MarkedV(s, s.registry) && forall v :: v in s.mts ==> MarkedV(s, v)
  }

  /** Up to the separation of userdata: marking is complete except behind userdata that wait already. */
  ghost predicate MarkedUp(s: State, m: State) {
    && Advanced(s, m) && m.gray == [] && Complete(m, Ids(m.tmu)) && RootsMarkedBut(m) && m.col.Keys == m.heap.Keys
    && Spread(s, m, {s.running} + Targets(s.mts))
  }

  /** From there: the userdata in `tmudata` and what they keep alive. */
  ghost predicate MarkedOut(s: State, m: State) {
    && Advanced(s, m) && m.gray == [] && Complete(m, {}) && RootsMarked(m)
    && Spread(s, m, Ids(m.tmu))
  }

  /** Some marked table on the weak list refers to `y`. */
  ghost predicate WeaklyHeld(s: State, y: Id) {
    exists x :: x in s.weak && Marked(s, x) && Points(s.heap, x, y)
  }

  /** The only objects that clearing marks are strings of weak tables. */
  ghost predicate StringsFrom(m: State, u: State) {
    forall y :: Marked(u, y) && !Marked(m, y) ==>
      y in m.heap && m.heap[y].Str? && WeaklyHeld(m, y)
  }

  /** lgc.c `atomic`: marking by `m0` and `m`, with userdata separated in between, clearing by `u`. */
  ghost predicate FlippedBy(s: State, m0: State, m: State, u: State, t: State) {
    && MarkedUp(s, m0) && MarkedOut(SeparatedState(m0), m) && WeakCleared(m, u) && StringsFrom(m, u)
    && t == Flip(u) && (forall x :: Live(t, x) ==> Marked(t, x))
  }

  ghost predicate Flipped(s: State, t: State) {
    exists m0, m, u :: FlippedBy(s, m0, m, u, t)
  }

  lemma FlippedFrame(s: State, t: State)
    requires Flipped(s, t)
    ensures t == s.(heap := t.heap, col := t.col, gray := t.gray, grayagain := t.grayagain, weak := t.weak,
                    weakK := t.weakK, weakV := t.weakV, udatas := t.udatas, tmu := t.tmu, finalized := t.finalized,
                    cw := !s.cw, phase := SweepString, sweepStr := 0, sweepPos := 0)
    ensures t.heap.Keys == s.heap.Keys
  {
    hide Complete, Spread, CleanedStar, Pick, WhiteAmong, StringsFrom;
    var m0, m, u :| FlippedBy(s, m0, m, u, t);
    CleanedKeys(s.heap, m0.heap);
    CleanedKeys(m0.heap, m.heap);
  }

  lemma MarkingKeys(s: State, todo: set<Id>)
    requires Marking(s, todo)
    ensures s.col.Keys == s.heap.Keys
  {
  }

  lemma MarkingComplete(s: State, todo: set<Id>)
    requires Marking(s, todo) && s.gray == [] && Bits(s)
    ensures Complete(s, todo)
  {
    hide Shape, Owned, Survivors, Palette, NoDead, Lists, Traced;
  }

  /** Outside the marks everything keeps the white that becomes the dead one. */
  lemma FlipDead(m: State, u: State)
    requires Marking(m, {}) && WeakCleared(m, u)
    ensures forall x :: Live(Flip(u), x) ==> Marked(Flip(u), x)
  {
    hide Points, Owned, Palette, Lists, Pending, Survivors, ClearedTable, StringsKept, Linked;
    forall x | Live(Flip(u), x)
      ensures Marked(Flip(u), x)
    {
      assert m.col[x] != White(!m.cw);
    }
  }

  lemma BegunFrom(s: State, r: State, t: State)
    requires Inv(s) && Rested(s) && r == Reset(s) && MarkStep(r, t)
    requires Spread(r, t, {s.main} + Target(GlobalTable(s)) + Target(s.registry) + Targets(s.mts))
    ensures Begun(s, t.(phase := Propagate))
  {
    forall fence | Encloses(s.heap, fence) && Starts(s) <= fence
      ensures Fenced(t.(phase := Propagate), fence)
    {
      GlobalInside(s, fence);
      assert Fenced(r, fence) by { LeftMarks(s); }
      hide Encloses, Inv, Rested;
      assert Fenced(t, fence);
    }
  }

  function GlobalTable(s: State): Value {
    if s.main in s.heap && s.heap[s.main].Thread? then s.heap[s.main].gt else Nil
  }

  lemma GlobalInside(s: State, fence: set<Id>)
    requires Encloses(s.heap, fence) && s.main in fence
    ensures Target(GlobalTable(s)) <= fence
  {
    if s.main in s.heap && s.heap[s.main].Thread? && s.heap[s.main].gt.Ref? {
      assert Refers(s.heap, s.main, s.heap[s.main].gt.id);
    }
  }

  /** Between cycles only userdata that wait for their finalizers can be marked. */
  lemma LeftMarks(s: State)
    requires Rested(s)
    ensures forall x :: Marked(Reset(s), x) ==> x in s.tmu
  {
  }

  // ----- The parts of the atomic step -----

  lemma ListsSpread(s: State, m: State)
    requires m == s.(gray := m.gray, weak := [])
    ensures Spread(s, m, {}) && Bits(m)
  {
    SpreadNone(s, m);
  }

  lemma AgainSpread(s: State, m: State)
    requires m == s.(gray := m.gray, grayagain := [])
    ensures Spread(s, m, {}) && (Bits(s) ==> Bits(m))
  {
    SpreadNone(s, m);
  }

  lemma RootsSpread(s: State, m: State, t: State, roots: seq<Value>)
    requires roots == [Ref(s.running)] + s.mts && Spread(s, m, {}) && Spread(m, t, Targets(roots)) && MarkStep(m, t)
      && Bits(m)
    ensures Spread(s, t, {s.running} + Targets(s.mts)) && Bits(t)
  {
    MarkedBits(m, t);
    hide Spread, MarkStep;
    SpreadTrans(s, m, t, {}, Targets(roots));
    assert {} + Targets(roots) <= {s.running} + Targets(s.mts);
    SpreadWider(s, t, {} + Targets(roots), {s.running} + Targets(s.mts));
  }

  lemma MarkedBits(s: State, t: State)
    requires MarkStep(s, t)
    ensures Bits(s) ==> Bits(t)
  {
    MarkFrame(s, t);
    GrownRefl(s);
    hide MarkStep, CleanedStar;
    if Bits(s) { KeepBits(s, t); }
  }

  lemma SeparatedBits(s: State)
    ensures Bits(SeparatedState(s)) <==> Bits(s)
  {
    var t := SeparatedState(s);
    assert forall x :: x in s.heap ==> (BitsRight(t, x) <==> BitsRight(s, x));
  }

  lemma UpDone(s: State, s1: State, s2: State, s3: State)
    requires Advanced(s, s1) && Advanced(s1, s2) && Advanced(s2, s3)
    requires Spread(s, s1, {}) && Spread(s1, s2, {s1.running} + Targets(s1.mts)) && Spread(s2, s3, {})
    requires Marking(s3, Ids(s3.tmu)) && s3.gray == [] && Bits(s3)
    requires Marked(s2, s2.running) && (forall v :: v in s2.mts ==> MarkedV(s2, v))
    requires MarkedV(s, Ref(s.main)) && MarkedV(s, s.registry)
    ensures MarkedUp(s, s3)
  {
    hide Marking, Bits, Spread, CleanedStar, Advanced, Complete, Marked;
    AdvancedTrans(s, s1, s2);
    AdvancedTrans(s, s2, s3);
    AdvancedRoots(s, s1);
    AdvancedRoots(s1, s2);
    AdvancedRoots(s2, s3);
    MarkingComplete(s3, Ids(s3.tmu));
    MarkingKeys(s3, Ids(s3.tmu));
    var a := {s.running} + Targets(s.mts);
    SpreadTrans(s, s1, s2, {}, a);
    SpreadWider(s, s2, {} + a, a);
    SpreadOn(s, s2, s3, a);
    assert MarkedV(s3, Ref(s3.main)) && MarkedV(s2, Ref(s2.running)) && MarkedV(s3, Ref(s3.running));
  }

  lemma OutDone(s: State, m: State)
    requires Advanced(s, m) && Spread(s, m, Ids(m.tmu)) && Marking(m, {}) && m.gray == [] && Bits(m) && RootsMarked(m)
    ensures MarkedOut(s, m)
  {
    MarkingComplete(m, {});
  }

  // ----- Strings of weak tables -----

  /** `y` is a half of a non-empty entry. */
  predicate InEntry(ns: seq<Node>, y: Id) {
    exists n :: n in ns && n.val != Nil && (n.key == Ref(y) || n.val == Ref(y))
  }

  lemma EntryIn(ns: seq<Node>, i: nat)
    requires i < |ns| && ns[i].val != Nil
    ensures forall y :: ns[i].key == Ref(y) || ns[i].val == Ref(y) ==> InEntry(ns, y)
  {
    assert ns[i] in ns;
  }

  lemma TableHolds(h: Heap, x: Id)
    requires x in h && h[x].Table?
    ensures forall y :: Ref(y) in h[x].arr ==> Points(h, x, y)
    ensures forall y :: InEntry(h[x].nodes, y) ==> Points(h, x, y)
  {
  }

  lemma UpToSame(s: State, m: State, k: nat)
    requires ClearedUpTo(s, m, k) && k < |s.weak| && NoDup(s.weak) && Marked(s, s.weak[k]) && s.heap[s.weak[k]].Table?
    ensures s.weak[k] in m.heap && forall y :: Points(m.heap, s.weak[k], y) <==> Points(s.heap, s.weak[k], y)
    ensures forall y :: Points(m.heap, s.weak[k], y) ==> WeaklyHeld(s, y)
  {
    hide ClearedTable, StringsKept, StringsGray;
    assert s.weak[k] !in s.weak[..k];
  }

  lemma StringsFound(s: State, t: State)
    requires WeakCleared(s, t) && forall y :: Marked(t, y) ==> Marked(s, y) || WeaklyHeld(s, y)
    ensures StringsFrom(s, t)
  {
    hide Points, ClearedTable, StringsKept;
    forall y | Marked(t, y) && !Marked(s, y)
      ensures y in s.heap && s.heap[y].Str? && WeaklyHeld(s, y)
    {
    }
  }
}
