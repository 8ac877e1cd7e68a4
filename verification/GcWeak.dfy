/** Weak tables at the end of marking: what they lose, and that strings are not among it. */
module GcWeak {
  import opened GcState
  import opened GcMark
  import opened GcTrace
  import opened GcGrow
  import opened GcReach
  import opened GcAtomic
  import opened GcCycle
  import opened GcFinal
  import opened GcFull
  import opened GcFirm

  /** What a weak table may lose once the white has changed: an object that is dead, or as a value a userdata
      that has been finalized; never a string. */
  predicate Lost(f: State, v: Value, isKey: bool) {
    v.Ref? && v.id in f.heap && !f.heap[v.id].Str?
    && (!Live(f, v.id) || (!isKey && f.heap[v.id].Udata? && v.id in f.finalized))
  }

  lemma FlipCleaned(t: State, m0: State, m: State, u: State, f: State)
    requires FlippedBy(t, m0, m, u, f)
    ensures CleanedStar(t.heap, m.heap) && WeakCleared(m, u) && f.heap == u.heap
  {
    FlipTmu(t, m0, m, u, f);
    hide Complete, StringsFrom, CleanedStar, WeakCleared, Spread;
    SeparatedFrame(m0);
    hide SeparatedState;
    CleanedStarTrans(t.heap, m0.heap, m.heap);
  }

  lemma ClearedLost(t: State, m0: State, m: State, u: State, f: State, v: Value, isKey: bool)
    requires FlippedBy(t, m0, m, u, f) && Cleared(m, v, isKey)
    ensures Lost(f, v, isKey)
  {
    hide Complete, CleanedStar, Spread, StringsKept, MarkedUp, MarkedOut, StringsFrom;
    assert v.id in m.weak ==> ClearedTable(m, v.id, u.heap[v.id]);
    assert u.col[v.id] == m.col[v.id];
    assert Live(f, v.id) ==> Marked(f, v.id);
  }

  predicate EntryCleared(m: State, n: Node, n': Node) {
    n' == n || (n'.val == Nil && (n.val == Nil || Cleared(m, n.key, true) || Cleared(m, n.val, false)))
  }

  lemma TableCleared(h: Heap, m: State, u: State, x: Id)
    requires CleanedStar(h, m.heap) && WeakCleared(m, u) && x in h && h[x].Table?
    ensures x in u.heap && u.heap[x].Table? && |u.heap[x].arr| == |h[x].arr| && |u.heap[x].nodes| == |h[x].nodes|
    ensures forall i :: 0 <= i < |h[x].arr| ==>
      u.heap[x].arr[i] == h[x].arr[i] || (u.heap[x].arr[i] == Nil && Cleared(m, h[x].arr[i], false))
    ensures forall i :: 0 <= i < |h[x].nodes| ==> EntryCleared(m, h[x].nodes[i], u.heap[x].nodes[i])
  {
    hide StringsKept, StringsGray, Cleared;
    assert ObjCleaned(h[x], m.heap[x]);
    if x in m.weak {
      assert ClearedTable(m, x, u.heap[x]);
    }
  }

  /** At the end of marking a table keeps every array item that is not lost. */
  lemma ItemsKept(t: State, f: State, x: Id, i: nat)
    requires Flipped(t, f) && x in t.heap && t.heap[x].Table? && i < |t.heap[x].arr|
    ensures x in f.heap && f.heap[x].Table? && |f.heap[x].arr| == |t.heap[x].arr|
    ensures f.heap[x].arr[i] == t.heap[x].arr[i] || (f.heap[x].arr[i] == Nil && Lost(f, t.heap[x].arr[i], false))
  {
    var m0, m, u :| FlippedBy(t, m0, m, u, f);
    hide Flipped, FlippedBy, Lost, Cleared, CleanedStar, WeakCleared;
    FlipCleaned(t, m0, m, u, f);
    TableCleared(t.heap, m, u, x);
    if f.heap[x].arr[i] != t.heap[x].arr[i] {
      ClearedLost(t, m0, m, u, f, t.heap[x].arr[i], false);
    }
  }

  /** And every entry with a value of which neither half is lost. */
  lemma EntriesKept(t: State, f: State, x: Id, i: nat)
    requires Flipped(t, f) && x in t.heap && t.heap[x].Table? && i < |t.heap[x].nodes|
    ensures x in f.heap && f.heap[x].Table? && |f.heap[x].nodes| == |t.heap[x].nodes|
    ensures var n, n' := t.heap[x].nodes[i], f.heap[x].nodes[i];
      n' == n || (n'.val == Nil && (n.val == Nil || Lost(f, n.key, true) || Lost(f, n.val, false)))
  {
    var m0, m, u :| FlippedBy(t, m0, m, u, f);
    hide Flipped, FlippedBy, Lost, Cleared, CleanedStar, WeakCleared;
    FlipCleaned(t, m0, m, u, f);
    TableCleared(t.heap, m, u, x);
    var n := t.heap[x].nodes[i];
    if Cleared(m, n.key, true) { ClearedLost(t, m0, m, u, f, n.key, true); }
    if Cleared(m, n.val, false) { ClearedLost(t, m0, m, u, f, n.val, false); }
  }
}
