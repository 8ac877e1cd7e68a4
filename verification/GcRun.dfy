/** What each operation of a run does to the collector state, as a relation. */
module GcRun {
  import opened GcState
  import opened GcMark
  import opened GcTrace
  import opened GcGrow
  import opened GcReach
  import opened GcAtomic
  import opened GcCycle
  import opened GcSweep
  import opened GcMutator
  import opened GcStore
  import opened GcUpvals

  /** The operations of a run. */
  datatype Op =
    | Hold(x: Id) | Follow(x: Id, y: Id) | LetGo
    | Create(id: Id, o: Obj) | CreateUdata(id: Id, env: Value) | CreateString(id: Id, b: nat)
    | FindString(x: Id) | Rehash(strt: seq<set<Id>>)
    | Capture(th: Id, i: nat, id: Id) | Close(u: Id) | WriteSlot(u: Id, v: Value)
    | Write(x: Id, o: Obj, v: Value) | WriteTable(x: Id, o: Obj, k: Value, v: Value) | WriteThread(x: Id, o: Obj)
    | WriteMetatables(vs: seq<Value>) | Resume(th: Id)
    | Step | FullGc | Restart

  // ----- The collector -----

  /** What sweeping leaves of an object: a thread may lose open upvalues, and an open upvalue of a dead
      thread is closed with its value. */
  predicate ObjSwept(h: Heap, x: Id, o: Obj)
    requires x in h
  {
    || o == h[x]
    || ShrunkThread(h[x], o)
    || (IsOpen(h[x]) && o == Upval(Closed(UpvalValue(h, h[x].home))))
  }

  ghost predicate HeapSwept(h: Heap, h': Heap) {
    h'.Keys <= h.Keys && forall x :: x in h' ==> ObjSwept(h, x, h'[x])
  }

  /** Sweeping only frees: what is freed was condemned, what was condemned is gone or still condemned,
      and the contents of everything else stay. */
  ghost predicate Sunk(s: State, t: State) {
    && t.cw == s.cw && HeapSwept(s.heap, t.heap)
    && (forall x :: x in t.heap && Condemned(s, x) ==> Condemned(t, x))
    && (forall x :: x in s.heap && x !in t.heap ==> Condemned(s, x))
  }

  lemma HeapSweptTrans(h: Heap, m: Heap, h': Heap)
    requires HeapSwept(h, m) && HeapSwept(m, h') && Linked(m)
    ensures HeapSwept(h, h')
  {
    forall x | x in h'
      ensures ObjSwept(h, x, h'[x])
    {
      assert ObjSwept(h, x, m[x]) && ObjSwept(m, x, h'[x]);
      if IsOpen(m[x]) {
        var th := m[x].home.owner;
        assert th in m && ObjSwept(h, th, m[th]);
      }
    }
  }

  lemma LiveStaysRefl(s: State)
    ensures LiveStays(s, s)
  {
  }

  lemma SunkTrans(s: State, m: State, t: State)
    requires Sunk(s, m) && Sunk(m, t) && LiveStays(s, m) && Inv(s) && Inv(m)
    ensures Sunk(s, t)
  {
    hide Inv, Linked, ObjSwept, LiveStays;
    InvLinked(s);
    InvLinked(m);
    HeapSweptTrans(s.heap, m.heap, t.heap);
    forall x | x in s.heap && x !in t.heap
      ensures Condemned(s, x)
    {
      if x in m.heap { SunkBack(s, m, x); }
    }
    hide Condemned, HeapSwept;
  }

  lemma InvLinked(s: State)
    requires Inv(s)
    ensures Linked(s.heap) && s.heap.Keys == s.col.Keys
  {
  }

  /** What is condemned later was condemned before. */
  lemma SunkBack(s: State, m: State, x: Id)
    requires Sunk(s, m) && LiveStays(s, m) && s.heap.Keys == s.col.Keys && x in m.heap && Condemned(m, x)
    ensures Condemned(s, x)
  {
    assert ObjSwept(s.heap, x, m.heap[x]);
    assert !Live(m, x) && !Live(s, x);
  }

  lemma SunkSame(s: State, t: State)
    requires t.heap == s.heap && t.col == s.col && t.cw == s.cw
    ensures Sunk(s, t)
  {
  }

  lemma SunkBucket(s: State)
    requires s.sweepStr < |s.strt| && s.heap.Keys == s.col.Keys
    ensures Sunk(s, SweptBucket(s))
  {
  }

  lemma SunkOpen(s: State, th: Id)
    requires th in s.heap && s.heap[th].Thread? && s.heap.Keys == s.col.Keys && th !in s.heap[th].openup
    ensures Sunk(s, SweptOpen(s, th))
  {
  }

  lemma SunkKept(s: State)
    requires s.sweepPos < |AllRoots(s)| && !Condemned(s, AllRoots(s)[s.sweepPos])
    ensures Sunk(s, Kept(s))
  {
  }

  lemma SunkFreed(s: State, i: nat)
    requires i < |AllRoots(s)| && Condemned(s, AllRoots(s)[i])
    ensures Sunk(s, Freed(s, i))
  {
  }

  lemma SunkClosed(s: State, u: Id)
    requires u in s.heap && IsOpen(s.heap[u]) && !Condemned(s, u) && s.heap[u].home.owner != u
    ensures Sunk(s, ClosedWith(s, u, White(s.cw)))
  {
    var t := ClosedWith(s, u, White(s.cw));
    var th := s.heap[u].home.owner;
    assert t.heap.Keys <= s.heap.Keys;
    forall x | x in t.heap && Condemned(s, x)
      ensures Condemned(t, x)
    {
      assert x != u;
      assert t.heap[x].Str? == s.heap[x].Str?;
    }
  }

  function OpenUpvals(h: Heap): set<Id> {
    set x | x in h && IsOpen(h[x])
  }

  /** How much of `rootgc` is still to be swept. A dead thread closes its open upvalues, which join
      the list, so they count already. */
  function Backlog(s: State): int {
    |AllRoots(s)| - s.sweepPos + |OpenUpvals(s.heap)|
  }

  lemma SubsetSize(a: set<Id>, b: set<Id>)
    requires a <= b
    ensures |a| <= |b|
  {
    if a != {} {
      var x :| x in a;
      SubsetSize(a - {x}, b - {x});
    }
  }

  /** One call of propagatemark comes nearer to the end of marking. */
  ghost predicate Closer(s: State, t: State) {
    Whites(t.col) <= Whites(s.col) && (Whites(t.col) == Whites(s.col) ==> |t.gray| < |s.gray|)
  }

  lemma BacklogFreed(s: State, i: nat)
    requires i < |AllRoots(s)|
    ensures Backlog(Freed(s, i)) < Backlog(s)
  {
    SubsetSize(OpenUpvals(Freed(s, i).heap), OpenUpvals(s.heap));
  }

  lemma BacklogKept(s: State)
    requires s.sweepPos < |AllRoots(s)|
    ensures Backlog(Kept(s)) < Backlog(s)
  {
  }

  lemma BacklogOpen(s: State, th: Id)
    requires th in s.heap && s.heap[th].Thread?
    ensures Backlog(SweptOpen(s, th)) <= Backlog(s)
  {
    assert OpenUpvals(SweptOpen(s, th).heap) <= OpenUpvals(s.heap);
    SubsetSize(OpenUpvals(SweptOpen(s, th).heap), OpenUpvals(s.heap));
  }

  lemma BacklogClosed(s: State, u: Id)
    requires u in s.heap && IsOpen(s.heap[u])
    ensures Backlog(ClosedWith(s, u, White(s.cw))) <= Backlog(s)
  {
    var t := ClosedWith(s, u, White(s.cw));
    assert OpenUpvals(t.heap) <= OpenUpvals(s.heap) - {u};
    SubsetSize(OpenUpvals(t.heap), OpenUpvals(s.heap) - {u});
    assert u in OpenUpvals(s.heap);
  }

  lemma ClosingSunk(s: State, th: Id, u: Id)
    requires Inv(s) && th in s.heap && s.heap[th].Thread? && u in s.heap[th].openup && u in s.heap && IsOpen(s.heap[u])
      && Live(s, u)
    ensures Sunk(s, ClosedWith(s, u, White(s.cw))) && Backlog(ClosedWith(s, u, White(s.cw))) <= Backlog(s)
  {
    assert s.heap[u].home.owner != u;
    hide Inv, WithClosed;
    SunkClosed(s, u);
    BacklogClosed(s, u);
  }

  /** Alive, with open upvalues that have been swept. */
  ghost predicate Spared(s: State, x: Id) {
    && x in s.heap && x in s.col && s.col[x] != White(!s.cw)
    && (s.heap[x].Thread? ==> forall u :: u in s.heap[x].openup ==> u in s.col && s.col[u] == White(s.cw))
  }

  /** What lgc.c `singlestep` does in each phase. */
  ghost predicate Worked(s: State, t: State) {
    match s.phase
    case Pause => MarkedRoots(s, t)
    case Propagate => if s.gray != [] then Propagated(s, t) else Flipped(s, t)
    case SweepString => s.sweepStr < |s.strt| && t == SweptBucket(s) && Sunk(s, t) && LiveStays(s, t)
    case Sweep => SweptSome(s, t)
    case Finalize => if s.tmu != [] then Finalized(s, t) else t == s.(phase := Pause)
  }

  /** markroot: a new cycle, with nothing but colours and lists changed, and nothing marked but what can
      be reached from where marking starts. */
  ghost predicate MarkedRoots(s: State, t: State) {
    && t == s.(gray := t.gray, grayagain := t.grayagain, weak := t.weak, col := t.col, phase := Propagate)
    && Begun(s, t)
  }

  ghost predicate Propagated(s: State, t: State) {
    Grown(s, t) && Cleaned(s.heap, t.heap) && Closer(s, t) && t.heap.Keys == s.heap.Keys && Spread(s, t, {})
  }

  ghost predicate SweptSome(s: State, t: State) {
    && t == s.(heap := t.heap, col := t.col, rootgc := t.rootgc, udatas := t.udatas, sweepPos := t.sweepPos,
               phase := t.phase)
    && Sunk(s, t) && LiveStays(s, t)
    && (t.phase == Finalize || (t.phase == Sweep && Backlog(t) < Backlog(s)))
  }

  /** GCTM: one userdata goes back to the others, and onto the running thread's stack if it has a finalizer. */
  ghost predicate Finalized(s: State, t: State) {
    && s.tmu != [] && LiveStays(s, t) && s.running in s.heap && s.heap[s.running].Thread?
    && t == s.(heap := if HasGc(s.heap, s.tmu[0]) then Pushed(s.heap, s.running, s.tmu[0]) else s.heap,
               col := s.col[s.tmu[0] := White(s.cw)], tmu := s.tmu[1..], udatas := [s.tmu[0]] + s.udatas)
  }

  function Pushed(h: Heap, th: Id, u: Id): Heap
    requires th in h && h[th].Thread?
  {
    h[th := h[th].(stack := h[th].stack + [Ref(u)])]
  }

  /** No object waits to be freed when sweeping is over. */
  lemma NoneCondemned(s: State, x: Id)
    requires Inv(s) && (s.phase == Finalize || s.phase == Pause)
    ensures !Condemned(s, x)
  {
    assert Rested(s);
    if x in s.tmu { assert Root(s, x); assert Live(s, x); }
  }

  // ----- A full collection -----

  /** The phases count down to GCSpause, each with a measure of its own. */
  function Rank(s: State): nat {
    match s.phase
    case Pause => 0
    case Finalize => 1
    case Sweep => 2
    case SweepString => 3
    case Propagate => 4
  }

  function Size(s: State): nat {
    match s.phase
    case Pause => 0
    case Finalize => |s.tmu|
    case Sweep => Max(Backlog(s))
    case SweepString => Max(|s.strt| - s.sweepStr)
    case Propagate => |s.gray|
  }

  function Max(n: int): nat {
    if n < 0 then 0 else n
  }

  lemma PropagatedKeys(s: State, t: State)
    requires Propagated(s, t)
    ensures t.heap.Keys == s.heap.Keys
  {
  }

  lemma LiveStaysSame(s: State, t: State)
    requires t.heap == s.heap && t.col == s.col && t.cw == s.cw
    ensures LiveStays(s, t)
  {
  }

  lemma SweepAllLive(s: State, t: State)
    requires t == SweepAll(s)
    ensures LiveStays(s, t) && t.phase == SweepString && t.held == s.held
  {
  }

  /** After the flip: what was live then is live, and what was dead is gone or waits to be swept. */
  ghost predicate InCycle(s: State, flip: State, t: State) {
    && Inv(flip) && flip.phase == SweepString && flip.sweepStr == 0 && (forall x :: Live(s, x) ==> x in flip.heap)
    && LiveStays(flip, t) && t.cw == flip.cw && t.heap.Keys <= flip.heap.Keys
    && forall x :: x in t.heap && Condemned(flip, x) ==> Condemned(t, x)
  }

  lemma CycleStarts(s: State, flip: State)
    requires Inv(flip) && flip.phase == SweepString && flip.sweepStr == 0 && forall x :: Live(s, x) ==> x in flip.heap
    ensures InCycle(s, flip, flip)
  {
  }

  lemma LiveKeys(s: State, m: State, t: State)
    requires LiveStays(s, m) && t.heap == m.heap
    ensures forall x :: Live(s, x) ==> x in t.heap
  {
  }

  /** What is white counts while marking. */
  function Uncoloured(s: State): set<Id> {
    if s.phase == Propagate then Whites(s.col) else {}
  }

  lemma BacklogPositive(s: State)
    requires Inv(s) && s.phase == Sweep
    ensures Backlog(s) >= 0
  {
  }

  lemma WorkedSweeps(s: State, t: State)
    requires Worked(s, t) && Inv(s) && Inv(t) && (s.phase == SweepString || s.phase == Sweep)
    ensures LiveStays(s, t) && (t.phase == SweepString || t.phase == Sweep || t.phase == Finalize)
    ensures Rank(t) < Rank(s) || (Rank(t) == Rank(s) && Size(t) < Size(s))
  {
    hide Sunk, LiveStays, Inv, Backlog;
    if s.phase == Sweep { BacklogPositive(s); }
    if t.phase == Sweep { BacklogPositive(t); }
  }

  lemma WorkedMarking(s: State, t: State)
    requires Worked(s, t) && s.phase == Propagate
    ensures t.heap.Keys == s.heap.Keys && (t.phase == Propagate || (t.phase == SweepString && t.sweepStr == 0))
    ensures Rank(t) < Rank(s) || (Rank(t) == Rank(s)
                                  && (Uncoloured(t) < Uncoloured(s)
                                      || (Uncoloured(t) == Uncoloured(s) && Size(t) < Size(s))))
  {
    hide Cleaned;
  }

  lemma WorkedCycle(s: State, flip: State, m: State, t: State)
    requires InCycle(s, flip, m) && Worked(m, t) && Inv(m) && Inv(t) && m.phase != Propagate && m.phase != Pause
    ensures InCycle(s, flip, t) && t.phase != Propagate
    ensures Rank(t) < Rank(m) || (Rank(t) == Rank(m) && Size(t) < Size(m))
  {
    if m.phase == Finalize {
      FinalCycle(s, flip, m, t);
    } else {
      WorkedSweeps(m, t);
      SweepCycle(s, flip, m, t);
    }
  }

  lemma SweepCycle(s: State, flip: State, m: State, t: State)
    requires InCycle(s, flip, m) && Worked(m, t) && (m.phase == SweepString || m.phase == Sweep)
    ensures InCycle(s, flip, t) && t.phase != Propagate
  {
    hide Inv, Condemned, Backlog, Live, Doomed, Repaint;
    LiveStaysTrans(flip, m, t);
  }

  lemma NothingDead(s: State, flip: State, m: State)
    requires InCycle(s, flip, m) && Inv(m) && (m.phase == Finalize || m.phase == Pause)
    ensures forall x :: x in m.heap ==> !Condemned(flip, x)
  {
    forall x | x in m.heap
      ensures !Condemned(flip, x)
    {
      NoneCondemned(m, x);
    }
  }

  lemma FinalCycle(s: State, flip: State, m: State, t: State)
    requires InCycle(s, flip, m) && Worked(m, t) && Inv(m) && m.phase == Finalize
    ensures InCycle(s, flip, t) && t.phase != Propagate
    ensures Rank(t) < Rank(m) || (Rank(t) == Rank(m) && Size(t) < Size(m))
  {
    hide Inv, Condemned, Live, LiveStays;
    NothingDead(s, flip, m);
    if m.tmu == [] { LiveStaysSame(m, t); }
    LiveStaysTrans(flip, m, t);
  }

  lemma CycleDone(s: State, flip: State, t: State)
    requires InCycle(s, flip, t) && Inv(t) && t.phase == Pause
    ensures Inv(flip) && flip.phase == SweepString && flip.sweepStr == 0
    ensures forall x :: Live(s, x) ==> x in flip.heap
    ensures forall x :: Live(flip, x) ==> x in t.heap
    ensures forall x :: x in t.heap ==> x in flip.heap && !Condemned(flip, x)
  {
    hide Inv, Condemned;
    NothingDead(s, flip, t);
  }

  // ----- Any operation -----

  predicate IsRoot(s: State, x: Id) {
    x == s.main || x == s.running || s.registry == Ref(x) || Ref(x) in s.mts
  }

  predicate Held(s: State, v: Value) {
    v.Ref? ==> v.id in s.held
  }

  predicate Creatable(s: State, id: Id, o: Obj) {
    id !in s.heap && (Container(o) || (o.Upval? && o.home.Closed?)) && (o.Thread? ==> o.openup == {})
      && Refs(o) <= s.held
  }

  predicate Capturable(s: State, th: Id, i: nat, id: Id) {
    th in s.held && th in s.heap && s.heap[th].Thread? && i < |s.heap[th].stack| && id !in s.heap
  }

  /** The upvalue of the slot is found or made. */
  ghost predicate Captured(s: State, th: Id, i: nat, id: Id, t: State)
    requires th in s.heap && s.heap[th].Thread?
  {
    || (exists u :: u in s.heap && s.heap[u] == Upval(Open(th, i)) && t == Resurrect(s, u))
    || t == Found(s, th, i, id)
  }

  /** A dead upvalue is freed; a live one takes its value along. */
  ghost predicate ClosedOne(s: State, u: Id, t: State)
    requires u in s.heap && IsOpen(s.heap[u])
  {
    if u in s.col && s.col[u] == White(!s.cw) then t == FreedUpval(s, u)
    else
      t == s.(heap := WithClosed(s.heap, u), col := t.col, gray := t.gray, rootgc := [u] + s.rootgc,
              sweepPos := if s.sweepPos == 0 then 0 else s.sweepPos + 1)
  }

  predicate SlotThere(s: State, u: Id) {
    u in s.heap && IsOpen(s.heap[u]) &&
    var th := s.heap[u].home.owner; th in s.heap && s.heap[th].Thread? && s.heap[u].home.slot < |s.heap[th].stack|
  }

  /** A store of `v` into an object that is neither a table nor a thread. */
  predicate Forwardable(s: State, x: Id, o: Obj, v: Value) {
    && Writable(s.heap, s.held, x, o) && Held(s, v) && !o.Table? && !o.Thread?
    && Refs(o) <= Refs(s.heap[x]) + RefSet([v])
  }

  /** A store of `v` at the key `k` of a table. */
  predicate Settable(s: State, x: Id, o: Obj, k: Value, v: Value) {
    && Writable(s.heap, s.held, x, o) && Held(s, k) && Held(s, v) && o.Table?
    && Refs(o) + Keys(o) <= Refs(s.heap[x]) + Keys(s.heap[x]) + RefSet([k, v])
  }

  /** What one operation does; an operation that is not allowed does nothing. */
  ghost predicate Stepped(s: State, op: Op, t: State) {
    match op
    case Hold(x) => t == if IsRoot(s, x) then s.(held := s.held + {x}) else s
    case Follow(x, y) => t == if x in s.held && x in s.heap && Points(s.heap, x, y) then s.(held := s.held + {y}) else s
    case LetGo => t == s.(held := {})
    case Create(id, o) => t == if Creatable(s, id, o) then Linking(s, id, o) else s
    case CreateUdata(id, env) => t == if id !in s.heap && Held(s, env) then NewUdata(s, id, Udata(Nil, env)) else s
    case CreateString(id, b) => t == if id !in s.heap && b < |s.strt| then NewString(s, id, b) else s
    case FindString(x) => t == if x in s.heap && s.heap[x].Str? then Resurrect(s, x) else s
    case Rehash(q) => t == if 0 < |q| && OwnedStrings(s.heap, q) && s.phase != SweepString then s.(strt := q) else s
    case Capture(th, i, id) => if Capturable(s, th, i, id) then Captured(s, th, i, id, t) else t == s
    case Close(u) => if u in s.heap && IsOpen(s.heap[u]) then ClosedOne(s, u, t) else t == s
    case WriteSlot(u, v) => t == if u in s.held && SlotThere(s, u) && Held(s, v) then SlotStored(s, u, v) else s
    case Write(x, o, v) =>
      if Forwardable(s, x, o, v) then t == s.(heap := s.heap[x := o], col := t.col, gray := t.gray) else t == s
    case WriteTable(x, o, k, v) =>
      if Settable(s, x, o, k, v) then t == s.(heap := s.heap[x := o], col := t.col, grayagain := t.grayagain)
      else t == s
    case WriteThread(x, o) => t == if Writable(s.heap, s.held, x, o) && o.Thread? then s.(heap := s.heap[x := o]) else s
    case WriteMetatables(vs) => t == if forall v :: v in vs && v.Ref? ==>
      v in s.mts || v.id in s.held then s.(mts := vs) else s
    case Resume(th) => t == if th in s.held && th in s.heap && s.heap[th].Thread? then s.(running := th) else s
    case Step => if s.held == {} then Worked(s, t) else t == s
    case FullGc => t == if s.phase == Pause || s.phase == Propagate then SweepAll(s) else s
    case Restart => if s.held == {} && s.phase == Finalize then MarkedRoots(s, t) else t == s
  }

  lemma ForwardStepped(s: State, x: Id, o: Obj, v: Value, t: State)
    requires if Forwardable(s, x, o, v) then t == s.(heap := s.heap[x := o], col := t.col, gray := t.gray) else t == s
    ensures Stepped(s, Write(x, o, v), t)
  {
    hide Forwardable;
  }

  lemma SetStepped(s: State, x: Id, o: Obj, k: Value, v: Value, t: State)
    requires if Settable(s, x, o, k, v) then t == s.(heap := s.heap[x := o], col := t.col, grayagain := t.grayagain)
      else t == s
    ensures Stepped(s, WriteTable(x, o, k, v), t)
  {
    hide Settable;
  }
}
