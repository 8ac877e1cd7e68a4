/** Stores together with their write barriers. */
module GcStore {
  import opened GcState
  import opened GcMark
  import opened GcTrace
  import opened GcGrow
  import opened GcAtomic
  import opened GcSweep
  import opened GcMutator

  function RefSet(vs: seq<Value>): set<Id> {
    set v | v in vs && v.Ref? :: v.id
  }

  function NodeValues(ns: seq<Node>): seq<Value> {
    if ns == [] then [] else (if ns[0].val != Nil then [ns[0].key, ns[0].val] else []) + NodeValues(ns[1..])
  }

  function NodeKeys(ns: seq<Node>): seq<Value> {
    if ns == [] then [] else [ns[0].key] + NodeKeys(ns[1..])
  }

  /** The values an object holds itself; an open upvalue holds none. */
  function Slots(o: Obj): seq<Value> {
    match o
    case Str(_) => []
    case Udata(mt, env) => [mt, env]
    case Upval(Open(_, _)) => []
    case Upval(Closed(v)) => [v]
    case Closure(env, proto, ups) => [env, proto] + ups
    case Table(mt, arr, nodes, _, _, _) => [mt] + arr + NodeValues(nodes)
    case Thread(gt, stack, _) => [gt] + stack
    case Proto(names, consts, nested) => names + consts + nested
  }

  function Refs(o: Obj): set<Id> {
    RefSet(Slots(o))
  }

  /** The keys of all entries, empty ones included. */
  function Keys(o: Obj): set<Id> {
    if o.Table? then RefSet(NodeKeys(o.nodes)) else {}
  }

  lemma {:induction false} NodeValuesFacts(ns: seq<Node>, v: Value)
    ensures v in NodeValues(ns) <==> exists n :: n in ns && n.val != Nil && (n.key == v || n.val == v)
  {
    if ns != [] {
      NodeValuesFacts(ns[1..], v);
      assert ns == [ns[0]] + ns[1..];
      if n :| n in ns && n.val != Nil && (n.key == v || n.val == v) {
        assert n == ns[0] || n in ns[1..];
      }
    }
  }

  lemma {:induction false} NodeKeysFacts(ns: seq<Node>, v: Value)
    ensures v in NodeKeys(ns) <==> exists n :: n in ns && n.key == v
  {
    if ns != [] {
      NodeKeysFacts(ns[1..], v);
      assert ns == [ns[0]] + ns[1..];
      if n :| n in ns && n.key == v {
        assert n == ns[0] || n in ns[1..];
      }
    }
  }

  lemma RefSetFacts(vs: seq<Value>, y: Id)
    ensures y in RefSet(vs) <==> Ref(y) in vs
  {
    if Ref(y) in vs { assert Ref(y).id in RefSet(vs); }
  }

  lemma PointsIsRefs(h: Heap, x: Id, y: Id)
    requires x in h && !IsOpen(h[x])
    ensures Points(h, x, y) <==> y in Refs(h[x])
    ensures Strong(h, x, y) <==> y in Refs(h[x]) || y in Keys(h[x])
  {
    RefSetFacts(Slots(h[x]), y);
    if h[x].Table? {
      NodeValuesFacts(h[x].nodes, Ref(y));
      NodeKeysFacts(h[x].nodes, Ref(y));
      RefSetFacts(NodeKeys(h[x].nodes), y);
    }
  }

  // ----- Stores add live references -----

  /** A store by a program: into a live object, and with references that it already had or
      that are held. */
  ghost predicate Legal(s: State, x: Id, o: Obj) {
    && Replaces(s.heap, x, o) && Live(s, x) && !IsOpen(o)
    && Refs(o) <= Refs(s.heap[x]) + s.held
    && Keys(o) <= Keys(s.heap[x]) + s.held
  }

  lemma LegalAddsLive(s: State, x: Id, o: Obj)
    requires Inv(s) && Legal(s, x, o)
    ensures AddsLive(s, x, o)
  {
    hide Shape, Owned, Palette, InPhase, Refs, Keys;
    var h' := s.heap[x := o];
    forall z, y | z in s.heap && Points(h', z, y)
      ensures Points(s.heap, z, y) || Live(s, y)
    {
      if z == x {
        PointsIsRefs(h', x, y);
        PointsIsRefs(s.heap, x, y);
        if y in s.held { assert Root(s, y); }
      } else if IsOpen(s.heap[z]) && s.heap[z].home.owner == x {
        StackRefs(h', z, x, y);
        PointsIsRefs(s.heap, x, y);
        if y in s.held { assert Root(s, y); }
      }
    }
  }

  lemma StackRefs(h: Heap, z: Id, x: Id, y: Id)
    requires z in h && IsOpen(h[z]) && h[z].home.owner == x && x in h && Points(h, z, y)
    ensures y in Refs(h[x])
  {
    RefSetFacts(Slots(h[x]), y);
  }

  // ----- Finishing a store while marking -----

  /** After a store into `x` and its barrier, nothing new is pending if the barrier did its
      job on `x`. */
  lemma StoreDone(s1: State, t: State, x: Id, todo: set<Id>)
    requires Marking(s1, todo + {x}) && MarkStep(s1, t) && x in t.heap
    requires x in todo || x in t.gray || !Marked(t, x) || Traced(t, x)
    ensures Marking(t, todo)
  {
    hide Shape, Owned, Survivors, Palette, NoDead, Lists, MarkStep, Traced;
    MarkKeepsMarking(s1, t, todo + {x});
  }

  /** Back in the propagate phase, once nothing new is pending. */
  lemma StorePropagating(s: State, t: State)
    requires Inv(s) && s.phase == Propagate && Marking(t, Todo(s)) && t.phase == Propagate
    requires SameKinds(s.heap, t.heap) && t.main == s.main && t.registry == s.registry && t.tmu == s.tmu
      && t.weak == s.weak
    requires (forall z :: z in s.grayagain ==> z in t.grayagain) && (forall z :: Marked(s, z) ==> Marked(t, z))
    ensures Inv(t)
  {
    hide Shape, Owned, Survivors, Palette, NoDead, Lists, Traced;
    assert Todo(s) <= Todo(t) by { hide Pending, Marked; }
    hide Todo;
    assert MarkedV(t, t.registry);
  }

  /** What the forward barrier achieves: the written object is traced, or need not be. */
  lemma ForwardTraced(s: State, s1: State, t: State, x: Id, o: Obj, v: Value)
    requires Inv(s) && s.phase == Propagate && Legal(s, x, o) && !o.Table?
    requires Refs(o) <= Refs(s.heap[x]) + RefSet([v])
    requires s1 == Stored(s, x, o) && MarkStep(s1, t)
    requires s.col[x] == Black ==> MarkedV(t, v)
    ensures x in Todo(s) || x in t.gray || !Marked(t, x) || Traced(t, x)
  {
    hide Points, Owned, Survivors, Palette, Refs, Keys, GrayGrew;
    if s.col[x] == Black {
      assert !Listed(s, x);
      if x !in Todo(s) {
        assert Traced(s, x);
        forall y | Strong(t.heap, x, y)
          ensures Marked(t, y)
        {
          PointsIsRefs(t.heap, x, y);
          PointsIsRefs(s.heap, x, y);
          RefSetFacts([v], y);
          if y in Refs(s.heap[x]) {
            assert Marked(s, y);
            assert Marked(s1, y);
            MarkedStays(s1, t, y);
          }
        }
      }
    } else {
      ForwardOther(s, s1, t, x, o);
    }
  }

  lemma ForwardOther(s: State, s1: State, t: State, x: Id, o: Obj)
    requires Inv(s) && s.phase == Propagate && Replaces(s.heap, x, o) && !o.Table? && !IsOpen(o)
    requires s1 == Stored(s, x, o) && MarkStep(s1, t) && s.col[x] != Black
    ensures x in Todo(s) || x in t.gray || !Marked(t, x) || Traced(t, x)
  {
    hide Points, Owned, Survivors, Pending;
    var k := |t.gray| - |s.gray|;
    assert t.gray == t.gray[..k] + s.gray;
    if s.col[x] == Gray {
      if Container(s.heap[x]) {
        assert Listed(s, x);
      } else {
        assert s.heap[x].Str?;
        StrStrong(t.heap, x);
        assert !Listed(s, x);
      }
    } else if Marked(t, x) {
      assert s1.col[x].White?;
      assert Settled(t.heap, t.col, t.gray, x);
      SettledTraced(s, t, x);
    }
  }

  lemma StrStrong(h: Heap, x: Id)
    requires x in h && h[x].Str?
    ensures forall y :: !Strong(h, x, y)
  {
  }

  lemma SettledTraced(s: State, t: State, x: Id)
    requires Lists(s) && x in s.col && s.col[x].White? && t.weak == s.weak
    requires x in t.col && Settled(t.heap, t.col, t.gray, x) && !t.heap[x].Table?
    ensures x in t.gray || Traced(t, x)
  {
    assert !Listed(s, x);
  }

  /** A black table into which only marked objects were stored stays traced. */
  lemma TableStillTraced(s: State, x: Id, o: Obj)
    requires Inv(s) && s.phase == Propagate && Legal(s, x, o) && o.Table? && s.col[x] == Black
    requires forall y :: y in (Refs(o) + Keys(o)) - (Refs(s.heap[x]) + Keys(s.heap[x])) ==> Marked(s, y)
    ensures Traced(Stored(s, x, o), x)
  {
    hide Points, Owned, Survivors, Palette, Refs, Keys;
    var t := Stored(s, x, o);
    assert !Listed(s, x);
    assert x !in s.tmu by { if x in s.tmu { TmuIsUdata(s, x); } }
    assert x !in Todo(s);
    assert Traced(s, x);
    forall y | Strong(t.heap, x, y)
      ensures Marked(t, y)
    {
      PointsIsRefs(t.heap, x, y);
      PointsIsRefs(s.heap, x, y);
      assert Marked(s, y);
    }
  }

  lemma TableOther(s: State, x: Id)
    requires Inv(s) && s.phase == Propagate && x in s.heap && s.heap[x].Table? && s.col[x] != Black
    ensures x in Todo(s) || x in s.gray || !Marked(s, x)
  {
    hide Points, Owned, Survivors, Pending;
    if s.col[x] == Gray { assert Listed(s, x); }
  }

  // ----- Whole stores -----

  /** What a forward store does, up to marking. */
  lemma ForwardStored(s: State, s1: State, t: State, x: Id, o: Obj, v: Value)
    requires Inv(s) && s.phase == Propagate && Legal(s, x, o) && !o.Table?
    requires Refs(o) <= Refs(s.heap[x]) + RefSet([v])
    requires s1 == Stored(s, x, o) && MarkStep(s1, t)
    requires s.col[x] == Black ==> MarkedV(t, v)
    ensures Inv(t)
  {
    hide Inv, Marking, MarkStep, Traced, Todo, Marked;
    assert Replaces(s.heap, x, o);
    hide Legal, Replaces;
    LegalAddsLive(s, x, o);
    EntryMarking(s);
    StoreMarking(s, x, o, Todo(s));
    ForwardTraced(s, s1, t, x, o, v);
    StoreKinds(s, x, o);
    MarkFrame(s1, t);
    StoreDone(s1, t, x, Todo(s));
    StorePropagating(s, t);
  }

  lemma EntryMarking(s: State)
    requires Inv(s) && s.phase == Propagate
    ensures Marking(s, Todo(s))
    ensures forall u :: u in s.heap && IsOpen(s.heap[u]) ==> u in Todo(s)
  {
    hide Shape, Owned, Survivors, Palette, NoDead, Lists, Pending;
  }

  lemma StoreKinds(s: State, x: Id, o: Obj)
    requires Replaces(s.heap, x, o)
    ensures SameKinds(s.heap, Stored(s, x, o).heap) && x in s.heap
    ensures forall z :: Marked(s, z) == Marked(Stored(s, x, o), z)
  {
  }

  /** A table store without a barrier. */
  lemma TableStored(s: State, x: Id, o: Obj)
    requires Inv(s) && s.phase == Propagate && Legal(s, x, o) && o.Table?
    requires s.col[x] == Black ==>
      forall y :: y in (Refs(o) + Keys(o)) - (Refs(s.heap[x]) + Keys(s.heap[x])) ==> Marked(s, y)
    ensures Inv(Stored(s, x, o))
  {
    hide Marking, MarkStep, Traced, Todo, Marked, Refs, Keys, Shape, Owned, Survivors, Palette, InPhase;
    var t := Stored(s, x, o);
    LegalAddsLive(s, x, o);
    if s.col[x] == Black { TableStillTraced(s, x, o); } else { TableOther(s, x); }
    hide Inv;
    EntryMarking(s);
    StoreMarking(s, x, o, Todo(s));
    StoreKinds(s, x, o);
    MarkStepRefl(t);
    StoreDone(t, t, x, Todo(s));
    StorePropagating(s, t);
  }

  /** A table store followed by the back barrier. */
  lemma TableBarriered(s: State, x: Id, o: Obj)
    requires Inv(s) && s.phase == Propagate && Legal(s, x, o) && o.Table? && s.col[x] == Black
    ensures Inv(BackBarrier(Stored(s, x, o), x))
  {
    hide Inv, Marking, Traced, Todo, Marked, Refs, Keys;
    var s1 := Stored(s, x, o);
    var t := BackBarrier(s1, x);
    LegalAddsLive(s, x, o);
    EntryMarking(s);
    StoreMarking(s, x, o, Todo(s));
    StoreKinds(s, x, o);
    BackMarking(s1, x, Todo(s));
    BackBarriered(s, t, x);
  }

  lemma BackBarriered(s: State, t: State, x: Id)
    requires Inv(s) && s.phase == Propagate && Marking(t, Todo(s) + {x}) && x in t.grayagain
    requires SameKinds(s.heap, t.heap) && t == s.(heap := t.heap, col := s.col[x := Gray], grayagain := t.grayagain)
    requires x in s.col && s.col[x] == Black
    requires forall z :: z in s.grayagain ==> z in t.grayagain
    ensures Inv(t)
  {
    hide Shape, Owned, Survivors, Palette, NoDead, Lists, Traced;
    assert Todo(s) + {x} <= Todo(t) by { hide Pending, Marked; }
    hide Todo;
    assert forall z :: Marked(s, z) ==> Marked(t, z);
    assert MarkedV(t, t.registry);
  }

  // ----- Writing through an open upvalue -----

  function SlotStored(s: State, u: Id, v: Value): State
    requires u in s.heap && IsOpen(s.heap[u])
    requires var th := s.heap[u].home.owner;
      th in s.heap && s.heap[th].Thread? && s.heap[u].home.slot < |s.heap[th].stack|
  {
    var th := s.heap[u].home.owner;
    Stored(s, th, s.heap[th].(stack := s.heap[th].stack[s.heap[u].home.slot := v]))
  }

  /** A store through an open upvalue needs no barrier, even if the thread that owns the
      slot is already dead. */
  lemma SlotStoredKeeps(s: State, u: Id, v: Value)
    requires Inv(s) && u in s.heap && IsOpen(s.heap[u]) && (v.Ref? ==> v.id in s.held)
    requires var th := s.heap[u].home.owner;
      th in s.heap && s.heap[th].Thread? && s.heap[u].home.slot < |s.heap[th].stack|
    ensures Inv(SlotStored(s, u, v))
  {
    var th := s.heap[u].home.owner;
    var o := s.heap[th].(stack := s.heap[th].stack[s.heap[u].home.slot := v]);
    SlotAddsLive(s, th, s.heap[u].home.slot, v);
    assert Replaces(s.heap, th, o) by { hide Owned, Survivors, Palette, InPhase, Points; }
    hide Inv, AddsLive, Replaces;
    if s.phase == Propagate {
      ThreadStored(s, th, o);
    } else {
      StoreKeeps(s, th, o);
    }
  }

  lemma SlotAddsLive(s: State, th: Id, i: nat, v: Value)
    requires Inv(s) && th in s.heap && s.heap[th].Thread? && i < |s.heap[th].stack| && (v.Ref? ==> v.id in s.held)
    ensures AddsLive(s, th, s.heap[th].(stack := s.heap[th].stack[i := v]))
  {
    hide Shape, Owned, Palette, InPhase;
    var h' := s.heap[th := s.heap[th].(stack := s.heap[th].stack[i := v])];
    forall z, y | z in s.heap && Points(h', z, y)
      ensures Points(s.heap, z, y) || Live(s, y)
    {
      if v == Ref(y) { assert Root(s, y); }
    }
  }

  /** Threads are never black, so stores into them need no barrier. */
  lemma ThreadStored(s: State, x: Id, o: Obj)
    requires Inv(s) && s.phase == Propagate && Replaces(s.heap, x, o) && o.Thread? && AddsLive(s, x, o)
    ensures Inv(Stored(s, x, o))
  {
    var t := Stored(s, x, o);
    StoreKinds(s, x, o);
    assert s.col[x] != Black by { hide Owned, Survivors, InPhase, Points; }
    MarkStepRefl(t);
    ForwardOther(s, t, t, x, o);
    hide Marking, MarkStep, Traced, Todo, Marked, Inv, Replaces, AddsLive;
    EntryMarking(s);
    StoreMarking(s, x, o, Todo(s));
    StoreDone(t, t, x, Todo(s));
    StorePropagating(s, t);
  }

  lemma LegalThread(s: State, x: Id, o: Obj)
    requires Inv(s) && Legal(s, x, o) && o.Thread?
    ensures Inv(Stored(s, x, o))
  {
    LegalAddsLive(s, x, o);
    hide Inv, AddsLive, Refs, Keys;
    if s.phase == Propagate { ThreadStored(s, x, o); } else { StoreKeeps(s, x, o); }
  }

  // ----- Glue for the finalizer call -----

  lemma RunningIsThread(s: State)
    requires Inv(s)
    ensures s.running in s.heap && s.heap[s.running].Thread?
  {
  }

  lemma PushKeeps(s: State, u: Id)
    requires Inv(s) && u in s.held && s.running in s.heap && s.heap[s.running].Thread?
    ensures var o := s.heap[s.running].(stack := s.heap[s.running].stack + [Ref(u)]);
      Inv(Stored(s, s.running, o)) && LiveStays(s, Stored(s, s.running, o))
  {
    var th := s.running;
    var o := s.heap[th].(stack := s.heap[th].stack + [Ref(u)]);
    assert Root(s, th);
    assert Refs(o) <= Refs(s.heap[th]) + s.held by {
      forall y | y in Refs(o)
        ensures y in Refs(s.heap[th]) + s.held
      {
        RefSetFacts(Slots(o), y);
        RefSetFacts(Slots(s.heap[th]), y);
      }
    }
    hide Owned, Palette, InPhase, Points, Refs;
    assert Legal(s, th, o);
    LegalThread(s, th, o);
    hide Survivors, Shape, Inv, Legal;
  }

  lemma ReleaseKeeps(s: State, held: set<Id>)
    requires Inv(s) && held <= s.held
    ensures Inv(s.(held := held)) && LiveStays(s, s.(held := held))
  {
    RunningIsThread(s);
    assert forall x :: Root(s.(held := held), x) ==> Root(s, x);
    hide Inv;
    RootsKeep(s, s.(held := held));
  }

  lemma SweepEntryLength(s: State)
    ensures AllRoots(s) == s.rootgc + s.udatas
  {
  }

  lemma PauseRested(s: State)
    requires Inv(s) && (s.phase == Pause || s.phase == Finalize)
    ensures Rested(s)
  {
  }

  /** Every live object is still in the heap. */
  ghost predicate Survive(s: State, t: State) {
    forall x :: Live(s, x) ==> x in t.heap
  }

  lemma SurviveSame(s: State, m: State, t: State)
    requires Survive(s, m) && t.heap == m.heap
    ensures Survive(s, t)
  {
  }

  lemma SurviveRefl(s: State)
    ensures Survive(s, s)
  {
  }

  lemma SurviveKeys(s: State, t: State)
    requires s.heap.Keys <= t.heap.Keys
    ensures Survive(s, t)
  {
  }

  lemma SurviveLive(s: State, t: State)
    requires LiveStays(s, t)
    ensures Survive(s, t)
  {
  }

  // ----- Glue for the mutator -----

  lemma NewStateOwned(s: State)
    requires s.heap == map[0 := Thread(Ref(1), [Nil], {}), 1 := Table(Nil, [], [], false, false, false),
                           2 := Table(Nil, [], [], false, false, false)]
    requires s.tmu == [] && s.rootgc == [2, 1, 0] && s.udatas == [] && s.strt == [{}]
    ensures Owned(s)
  {
    assert OwnedStrings(s.heap, s.strt);
  }

  lemma NewStateShape(s: State)
    requires s.heap == map[0 := Thread(Ref(1), [Nil], {}), 1 := Table(Nil, [], [], false, false, false),
                           2 := Table(Nil, [], [], false, false, false)]
    requires s.col == map[0 := White(false), 1 := White(false), 2 := White(false)] && !s.cw
    requires s.rootgc == [2, 1, 0] && s.strt == [{}] && s.main == 0 && s.running == 0
    ensures Shape(s) && Palette(s) && Rested(s)
  {
    assert s.heap.Keys == {0, 1, 2} && s.col.Keys == {0, 1, 2};
  }

  lemma NewStateSurvivors(s: State)
    requires s.heap == map[0 := Thread(Ref(1), [Nil], {}), 1 := Table(Nil, [], [], false, false, false),
                           2 := Table(Nil, [], [], false, false, false)]
    requires s.col == map[0 := White(false), 1 := White(false), 2 := White(false)] && !s.cw
    requires s.tmu == [] && s.main == 0 && s.running == 0 && s.registry == Ref(2) && s.mts == [] && s.held == {}
    ensures Survivors(s)
  {
  }

  lemma NewStateInv(s: State)
    requires Shape(s) && Owned(s) && Survivors(s) && Palette(s) && Rested(s) && s.phase == Pause
    ensures Inv(s)
  {
    hide Shape, Owned, Survivors, Palette, Rested;
  }

  lemma NewState(s: State)
    requires s.heap == map[0 := Thread(Ref(1), [Nil], {}), 1 := Table(Nil, [], [], false, false, false),
                           2 := Table(Nil, [], [], false, false, false)]
    requires s.col == map[0 := White(false), 1 := White(false), 2 := White(false)] && !s.cw && s.phase == Pause
    requires s.tmu == [] && s.rootgc == [2, 1, 0] && s.udatas == [] && s.strt == [{}]
    requires s.main == 0 && s.running == 0 && s.registry == Ref(2) && s.mts == [] && s.held == {}
    ensures Inv(s)
  {
    hide *;
    NewStateOwned(s);
    NewStateShape(s);
    NewStateSurvivors(s);
    assert Inv(s) by { NewStateInv(s); }
  }

  lemma HoldKeeps(s: State, x: Id)
    requires Inv(s) && (Root(s, x) || Live(s, x))
    ensures Inv(s.(held := s.held + {x}))
  {
    RunningIsThread(s);
    var t := s.(held := s.held + {x});
    assert forall z :: Root(t, z) ==> Root(s, z) || z == x;
    hide Inv;
    RootsKeep(s, t);
  }

  lemma LoadLive(s: State, x: Id, y: Id)
    requires Inv(s) && x in s.held && x in s.heap && Points(s.heap, x, y)
    ensures Live(s, y)
  {
    assert Root(s, x);
  }

  lemma HeldLive(s: State, x: Id)
    requires Inv(s) && x in s.held
    ensures Live(s, x)
  {
    assert Root(s, x);
  }

  lemma FreshHeld(s: State, id: Id, o: Obj)
    requires Inv(s) && id !in s.heap && !IsOpen(o) && (o.Thread? ==> o.openup == {}) && Refs(o) <= s.held
    ensures Fresh(s, id, o)
  {
    hide Inv, Refs;
    forall y | Points(s.heap[id := o], id, y)
      ensures Live(s, y)
    {
      PointsIsRefs(s.heap[id := o], id, y);
      HeldLive(s, y);
    }
  }

  lemma UdataRefs(env: Value)
    ensures Refs(Udata(Nil, env)) <= RefSet([env])
  {
    forall y | y in Refs(Udata(Nil, env))
      ensures y in RefSet([env])
    {
      RefSetFacts([Nil, env], y);
      RefSetFacts([env], y);
    }
  }

  lemma NewObjectKeeps(s: State, id: Id, o: Obj)
    requires Inv(s) && id !in s.heap && (Container(o) || (o.Upval? && o.home.Closed?))
    requires (o.Thread? ==> o.openup == {}) && Refs(o) <= s.held
    ensures Inv(Linking(s, id, o))
  {
    hide Inv, Refs;
    FreshHeld(s, id, o);
    LinkingKeeps(s, id, o);
  }

  lemma NewUserdataKeeps(s: State, id: Id, env: Value)
    requires Inv(s) && id !in s.heap && (env.Ref? ==> env.id in s.held)
    ensures Inv(NewUdata(s, id, Udata(Nil, env)))
  {
    hide Inv;
    UdataRefs(env);
    assert RefSet([env]) <= s.held;
    hide Refs;
    FreshHeld(s, id, Udata(Nil, env));
    NewUdataKeeps(s, id, Udata(Nil, env));
  }

  lemma UseStringKeeps(s: State, x: Id)
    requires Inv(s) && x in s.heap && s.heap[x].Str?
    ensures Inv(Resurrect(s, x))
  {
    assert forall y :: !Points(s.heap, x, y);
    hide Inv;
    ResurrectKeeps(s, x);
  }

  lemma InvKeys(s: State)
    requires Inv(s)
    ensures s.heap.Keys == s.col.Keys
  {
  }

  lemma NotHeld(s: State, u: Id)
    requires Inv(s) && u in s.col && s.col[u] == White(!s.cw)
    ensures u !in s.held && !Live(s, u)
  {
    if u in s.held { HeldLive(s, u); }
  }

  lemma OwnerIsThread(s: State, u: Id)
    requires Inv(s) && u in s.heap && IsOpen(s.heap[u])
    ensures var th := s.heap[u].home.owner;
      th != u && th in s.heap && s.heap[th].Thread? && s.heap[u].home.slot < |s.heap[th].stack|
  {
  }

  /** Which stores a program may make: into an object in hand, keeping its kind and its open
      upvalues, with references that the object had or that are in hand. */
  predicate Writable(h: Heap, held: set<Id>, x: Id, o: Obj) {
    && x in held && x in h && SameKind(h[x], o) && !IsOpen(o)
    && (o.Thread? ==> o.openup == h[x].openup && forall u :: u in o.openup ==>
          u in h && IsOpen(h[u]) && h[u].home.slot < |o.stack|)
    && Refs(o) <= Refs(h[x]) + held && Keys(o) <= Keys(h[x]) + held
  }

  lemma WritableLegal(s: State, x: Id, o: Obj)
    requires Inv(s) && Writable(s.heap, s.held, x, o)
    ensures Legal(s, x, o) && Live(s, x) && Replaces(s.heap, x, o) && AddsLive(s, x, o)
  {
    HeldLive(s, x);
    hide Inv, Refs, Keys;
    assert Legal(s, x, o);
    LegalAddsLive(s, x, o);
  }

  lemma ForwardQuiet(s: State, x: Id, o: Obj, v: Value)
    requires Inv(s) && s.phase != Propagate && Writable(s.heap, s.held, x, o)
    ensures var t := Stored(s, x, o); Inv(t) && Inv(t.(col := t.col[x := White(t.cw)]))
  {
    hide Inv;
    WritableLegal(s, x, o);
    hide Legal, AddsLive, Replaces;
    StoreKeeps(s, x, o);
    PaintWhite(Stored(s, x, o), x);
  }

  lemma ForwardRefs(s: State, x: Id, o: Obj)
    requires Inv(s) && s.phase == Propagate && Writable(s.heap, s.held, x, o)
    ensures var t := Stored(s, x, o); RefsIn(t.heap) && t.heap.Keys == t.col.Keys
  {
    WritableLegal(s, x, o);
    EntryMarking(s);
    hide Inv, Legal, AddsLive, Marking;
    StoreMarking(s, x, o, Todo(s));
    MarkingRefs(Stored(s, x, o), Todo(s) + {x});
  }

  /** A back barrier is not needed when everything stored is marked or was there before. */
  lemma TableNoBarrier(s: State, x: Id, o: Obj, k: Value, v: Value)
    requires Inv(s) && Writable(s.heap, s.held, x, o) && o.Table?
    requires Refs(o) + Keys(o) <= Refs(s.heap[x]) + Keys(s.heap[x]) + RefSet([k, v])
    requires s.col[x] == Black ==> (MarkedV(s, k) || (k.Ref? && k.id in Keys(s.heap[x]))) && MarkedV(s, v)
    ensures Inv(Stored(s, x, o))
  {
    hide Refs, Keys;
    WritableLegal(s, x, o);
    if s.phase == Propagate {
      forall y | s.col[x] == Black && y in (Refs(o) + Keys(o)) - (Refs(s.heap[x]) + Keys(s.heap[x]))
        ensures Marked(s, y)
      {
        RefSetFacts([k, v], y);
      }
      hide Inv, Legal;
      TableStored(s, x, o);
    } else {
      hide Inv, Legal, AddsLive, Replaces;
      StoreKeeps(s, x, o);
    }
  }

  lemma TableWithBarrier(s: State, x: Id, o: Obj)
    requires Inv(s) && Writable(s.heap, s.held, x, o) && o.Table? && x in s.col && s.col[x] == Black
    ensures Inv(BackBarrier(Stored(s, x, o), x))
  {
    WritableLegal(s, x, o);
    hide Inv, Refs, Keys;
    if s.phase == Propagate {
      TableBarriered(s, x, o);
    } else {
      StoreKeeps(s, x, o);
      BackSweeping(Stored(s, x, o), x);
    }
  }

  lemma ForwardMarked(s: State, t: State, x: Id, o: Obj, v: Value)
    requires Inv(s) && s.phase == Propagate && Writable(s.heap, s.held, x, o) && !o.Table?
    requires Refs(o) <= Refs(s.heap[x]) + RefSet([v])
    requires MarkStep(Stored(s, x, o), t) && (s.col[x] == Black ==> MarkedV(t, v))
    ensures Inv(t)
  {
    hide Inv, MarkStep, Refs, Keys, Marked;
    WritableLegal(s, x, o);
    hide Legal, Replaces, AddsLive;
    ForwardStored(s, Stored(s, x, o), t, x, o, v);
  }

  lemma RootChange(s: State, t: State)
    requires Inv(s) && t == s.(running := t.running, mts := t.mts)
    requires t.running in s.heap && s.heap[t.running].Thread? && (t.running == s.running || t.running in s.held)
    requires forall v :: v in t.mts && v.Ref? ==> v in s.mts || v.id in s.held
    ensures Inv(t)
  {
    forall x | Root(t, x)
      ensures Root(s, x) || Live(s, x)
    {
    }
    hide Inv;
    RootsKeep(s, t);
  }

  lemma WritableIn(h: Heap, held: set<Id>, x: Id, o: Obj)
    requires Writable(h, held, x, o)
    ensures x in h && x in held && SameKind(h[x], o) && h[x := o].Keys == h.Keys
  {
  }
}
