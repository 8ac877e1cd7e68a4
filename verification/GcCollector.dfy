/** The collector and the mutator's write paths as methods on the collector state. */
module GcCollector {
  import opened GcState
  import opened GcMark
  import opened GcTrace
  import opened GcGrow
  import opened GcReach
  import opened GcAtomic
  import opened GcCycle
  import opened GcSweep
  import opened GcMutator
  import opened GcStore
  import opened GcUpvals
  import opened GcRun
  import opened GcFirm
  import opened GcFull
  import opened GcFinal
  import opened GcFields

  /** Objects swept by one `singlestep`. */
  const GCSWEEPMAX: nat := 40

  class Collector {
    var heap: Heap
    var col: map<Id, Colour>
    var finalized: set<Id>
    var weakK: set<Id>
    var weakV: set<Id>
    var cw: bool
    var phase: Phase
    var gray: seq<Id>
    var grayagain: seq<Id>
    var weak: seq<Id>
    var tmu: seq<Id>
    var rootgc: seq<Id>
    var udatas: seq<Id>
    var sweepPos: nat
    var strt: seq<set<Id>>
    var sweepStr: nat
    var main: Id
    var running: Id
    var registry: Value
    var mts: seq<Value>
    var held: set<Id>

    ghost function View(): State
      reads this
    {
      State(heap, col, finalized, weakK, weakV, cw, phase, gray, grayagain, weak, tmu, rootgc, udatas,
            sweepPos, strt, sweepStr, main, running, registry, mts, held)
    }

    // ----- Marking -----

    /** lgc.c `reallymarkobject`. */
    method ReallyMark(o: Id)
      requires o in heap && o in col && heap.Keys == col.Keys && col[o].White? && RefsIn(heap)
      modifies `col, `gray
      ensures MarkStep(old(View()), View()) && Marked(View(), o)
      ensures col.Keys == heap.Keys && Whites(col) < old(Whites(col))
      ensures Spread(old(View()), View(), {o})
      decreases Whites(col), 1
    {
      hide MarkStep, Points, RefsIn, Spread;
      ghost var s := View();
      match heap[o]
      case Str(_) =>
        col := col[o := Gray];
        WhitesShrink(s.col, o, Gray);
        MarkString(s, o);
        SpreadOne(s, View(), o);
      case Udata(mt, env) =>
        MarkUdata(o);
      case Upval(_) =>
        MarkUpval(o);
      case _ =>
        col := col[o := Gray];
        gray := [o] + gray;
        WhitesShrink(s.col, o, Gray);
        MarkContainer(s, o);
        SpreadOne(s, View(), o);
    }

    method MarkUdata(o: Id)
      requires o in heap && o in col && heap.Keys == col.Keys && col[o].White? && RefsIn(heap)
      requires heap[o].Udata?
      modifies `col, `gray
      ensures MarkStep(old(View()), View()) && Marked(View(), o)
      ensures col.Keys == heap.Keys && Whites(col) < old(Whites(col))
      ensures Spread(old(View()), View(), {o})
      decreases Whites(col), 0
    {
      hide MarkStep, Spread, RefsIn;
      ghost var s := View();
      var mt, env := heap[o].mt, heap[o].env;
      col := col[o := Black];
      WhitesShrink(s.col, o, Black);
      UdataIn(heap, o);
      ghost var s1 := View();
      MarkValue(mt);
      ghost var s2 := View();
      MarkValue(env);
      ghost var t := View();
      if mt.Ref? { MarkedStays(s2, t, mt.id); }
      MarkStepTrans(s1, s2, t);
      UdataMarked(heap, col, o);
      hide AllMarked;
      MarkFrom(s, s1, t, o, Black);
      SpreadUdata(s, s1, s2, t, o);
    }

    method MarkUpval(o: Id)
      requires o in heap && o in col && heap.Keys == col.Keys && col[o].White? && RefsIn(heap)
      requires heap[o].Upval?
      modifies `col, `gray
      ensures MarkStep(old(View()), View()) && Marked(View(), o)
      ensures col.Keys == heap.Keys && Whites(col) < old(Whites(col))
      ensures Spread(old(View()), View(), {o})
      decreases Whites(col), 0
    {
      hide MarkStep, Spread, RefsIn, Whites, AllMarked;
      ghost var s := View();
      var v := UpvalValue(heap, heap[o].home);
      UpvalIn(heap, o);
      col := col[o := Gray];
      WhitesShrink(s.col, o, Gray);
      ghost var s1 := View();
      MarkValue(v);
      ghost var t := View();
      MarkedUpval(s, s1, t, o);
      SpreadUpval(s, s1, t, o);
      if heap[o].home.Closed? {
        WhitesRepaint(col, o, Black);
        col := col[o := Black];
        assert View() == t.(col := t.col[o := Black]);
        SpreadAgain(s, t, View(), {o});
      }
    }

    /** lgc.c `markvalue` and `markobject`. */
    method MarkValue(v: Value)
      requires v.Ref? ==> v.id in heap
      requires heap.Keys == col.Keys && RefsIn(heap)
      modifies `col, `gray
      ensures MarkStep(old(View()), View()) && MarkedV(View(), v)
      ensures col.Keys == heap.Keys && Whites(col) <= old(Whites(col))
      ensures Spread(old(View()), View(), Target(v))
      decreases Whites(col), 2
    {
      hide MarkStep, RefsIn, Spread;
      MarkStepRefl(View());
      SpreadNothing(View(), Target(v));
      if v.Ref? && col[v.id].White? {
        ReallyMark(v.id);
      }
    }

    method MarkValues(vs: seq<Value>)
      requires forall v :: v in vs && v.Ref? ==> v.id in heap
      requires heap.Keys == col.Keys && RefsIn(heap)
      modifies `col, `gray
      ensures MarkStep(old(View()), View()) && forall v :: v in vs ==> MarkedV(View(), v)
      ensures col.Keys == heap.Keys && Whites(col) <= old(Whites(col))
      ensures Spread(old(View()), View(), Targets(vs))
    {
      hide MarkStep, RefsIn, Spread;
      ghost var s := View();
      MarkStepRefl(s);
      SpreadNothing(s, {});
      assert Targets(vs[..0]) == {};
      for i := 0 to |vs|
        invariant View() == s.(col := col, gray := gray)
        invariant MarkStep(s, View()) && forall j :: 0 <= j < i ==> MarkedV(View(), vs[j])
        invariant col.Keys == heap.Keys && Whites(col) <= Whites(s.col)
        invariant Spread(s, View(), Targets(vs[..i]))
      {
        ghost var m := View();
        MarkValue(vs[i]);
        MarkStepTrans(s, m, View());
        SpreadTrans(s, m, View(), Targets(vs[..i]), Target(vs[i]));
        TargetsNext(vs, i);
        forall j | 0 <= j < i
          ensures MarkedV(View(), vs[j])
        {
          if vs[j].Ref? { MarkedStays(m, View(), vs[j].id); }
        }
      }
      assert vs[..|vs|] == vs;
    }

    // ----- Traversals -----

    /** lgc.c `traverseclosure`. */
    method TraverseClosure(o: Id)
      requires o in heap && heap[o].Closure? && heap.Keys == col.Keys && RefsIn(heap)
      modifies `col, `gray
      ensures MarkStep(old(View()), View()) && FullyTraced(View(), o)
      ensures col.Keys == heap.Keys && Whites(col) <= old(Whites(col))
      ensures Marked(old(View()), o) ==> Spread(old(View()), View(), {})
    {
      hide MarkStep, Spread;
      ghost var s := View();
      var vs := [heap[o].env, heap[o].proto] + heap[o].upvals;
      assert forall v :: v in vs && v.Ref? ==> Points(heap, o, v.id);
      MarkValues(vs);
      if Marked(s, o) { SpreadFrom(s, View(), o, Targets(vs)); }
      assert vs[0] == heap[o].env && vs[1] == heap[o].proto;
      assert forall v :: v in heap[o].upvals ==> v in vs;
      forall y | Strong(heap, o, y)
        ensures Marked(View(), y)
      {
        assert Ref(y) in vs;
        assert MarkedV(View(), Ref(y));
      }
    }

    /** lgc.c `traverseproto`. */
    method TraverseProto(o: Id)
      requires o in heap && heap[o].Proto? && heap.Keys == col.Keys && RefsIn(heap)
      modifies `col, `gray
      ensures MarkStep(old(View()), View()) && FullyTraced(View(), o)
      ensures col.Keys == heap.Keys && Whites(col) <= old(Whites(col))
      ensures Marked(old(View()), o) ==> Spread(old(View()), View(), {})
    {
      hide MarkStep, Spread;
      ghost var s := View();
      var vs := heap[o].names + heap[o].consts + heap[o].nested;
      assert forall v :: v in vs && v.Ref? ==> Points(heap, o, v.id);
      MarkValues(vs);
      if Marked(s, o) { SpreadFrom(s, View(), o, Targets(vs)); }
      assert forall v :: v in heap[o].names || v in heap[o].consts || v in heap[o].nested ==> v in vs;
    }

    /** lgc.c `traversestack`. */
    method TraverseStack(o: Id)
      requires o in heap && heap[o].Thread? && heap.Keys == col.Keys && RefsIn(heap)
      modifies `col, `gray
      ensures MarkStep(old(View()), View()) && FullyTraced(View(), o)
      ensures col.Keys == heap.Keys && Whites(col) <= old(Whites(col))
      ensures Marked(old(View()), o) ==> Spread(old(View()), View(), {})
    {
      hide MarkStep, Spread;
      ghost var s := View();
      var vs := [heap[o].gt] + heap[o].stack;
      assert forall v :: v in vs && v.Ref? ==> Points(heap, o, v.id);
      MarkValues(vs);
      if Marked(s, o) { SpreadFrom(s, View(), o, Targets(vs)); }
      assert vs[0] == heap[o].gt;
      assert forall v :: v in heap[o].stack ==> v in vs;
      forall y | Strong(heap, o, y)
        ensures Marked(View(), y)
      {
        assert Ref(y) in vs;
        assert MarkedV(View(), Ref(y));
      }
    }

    method MarkEntry(n: Node, keys: bool, vals: bool)
      requires (n.key.Ref? ==> n.key.id in heap) && (n.val.Ref? ==> n.val.id in heap)
      requires n.val != Nil && heap.Keys == col.Keys && RefsIn(heap)
      modifies `col, `gray
      ensures MarkStep(old(View()), View())
      ensures (keys ==> MarkedV(View(), n.key)) && (vals ==> MarkedV(View(), n.val))
      ensures col.Keys == heap.Keys && Whites(col) <= old(Whites(col))
      ensures Spread(old(View()), View(), EntryTargets(n, !keys, !vals))
    {
      hide MarkStep, RefsIn, Spread;
      ghost var s := View();
      MarkStepRefl(s);
      SpreadNothing(s, {});
      if keys {
        MarkValue(n.key);
      }
      ghost var m, from := View(), if keys then Target(n.key) else {};
      if vals {
        MarkValue(n.val);
        MarkStepTrans(s, m, View());
        SpreadTrans(s, m, View(), from, Target(n.val));
        from := from + Target(n.val);
        if keys && n.key.Ref? { MarkedStays(m, View(), n.key.id); }
      }
      SpreadWider(s, View(), from, EntryTargets(n, !keys, !vals));
    }

    /** The node loop of lgc.c `traversetable`: mark the strong halves of non-empty entries. */
    method MarkNodes(ns: seq<Node>, keys: bool, vals: bool)
      requires forall n :: n in ns && n.val != Nil ==>
        (n.key.Ref? ==> n.key.id in heap) && (n.val.Ref? ==> n.val.id in heap)
      requires heap.Keys == col.Keys && RefsIn(heap)
      modifies `col, `gray
      ensures MarkStep(old(View()), View())
      ensures keys ==> forall n :: n in ns && n.val != Nil ==> MarkedV(View(), n.key)
      ensures vals ==> forall n :: n in ns && n.val != Nil ==> MarkedV(View(), n.val)
      ensures col.Keys == heap.Keys && Whites(col) <= old(Whites(col))
      ensures Spread(old(View()), View(), NodeTargets(ns, !keys, !vals))
    {
      hide MarkStep, RefsIn, Marked, Spread, EntryTargets;
      ghost var s := View();
      MarkStepRefl(s);
      SpreadNothing(s, {});
      assert NodeTargets(ns[..0], !keys, !vals) == {};
      for i := 0 to |ns|
        invariant View() == s.(col := col, gray := gray)
        invariant MarkStep(s, View())
        invariant keys ==> forall j :: 0 <= j < i && ns[j].val != Nil ==> MarkedV(View(), ns[j].key)
        invariant vals ==> forall j :: 0 <= j < i && ns[j].val != Nil ==> MarkedV(View(), ns[j].val)
        invariant col.Keys == heap.Keys && Whites(col) <= Whites(s.col)
        invariant Spread(s, View(), NodeTargets(ns[..i], !keys, !vals))
      {
        NodeTargetsNext(ns, i, !keys, !vals);
        if ns[i].val != Nil {
          ghost var m := View();
          MarkEntry(ns[i], keys, vals);
          MarkStepTrans(s, m, View());
          SpreadTrans(s, m, View(), NodeTargets(ns[..i], !keys, !vals), EntryTargets(ns[i], !keys, !vals));
          forall v | MarkedV(m, v)
            ensures MarkedV(View(), v)
          {
            if v.Ref? { MarkedStays(m, View(), v.id); }
          }
        }
      }
      assert ns[..|ns|] == ns;
    }

    /** The marking of lgc.c `traversetable`, for the given weakness. */
    method TraverseTable(o: Id, k: bool, v: bool)
      requires o in heap && heap[o].Table? && heap.Keys == col.Keys && RefsIn(heap)
      modifies `col, `gray
      ensures MarkStep(old(View()), View())
      ensures MarkedV(View(), heap[o].mt)
      ensures !v ==> forall w :: w in heap[o].arr ==> MarkedV(View(), w)
      ensures !v ==> forall n :: n in heap[o].nodes && n.val != Nil ==> MarkedV(View(), n.val)
      ensures !k ==> forall n :: n in heap[o].nodes && n.val != Nil ==> MarkedV(View(), n.key)
      ensures col.Keys == heap.Keys && Whites(col) <= old(Whites(col))
      ensures Marked(old(View()), o) && k == ModeK(heap, o) && v == ModeV(heap, o) ==> Spread(old(View()), View(), {})
    {
      hide MarkStep;
      ghost var s := View();
      var mt, arr, nodes := heap[o].mt, heap[o].arr, heap[o].nodes;
      TableRefsIn(heap, o);
      hide RefsIn, Points, Marked, Spread;
      MarkValue(mt);
      ghost var from := Target(mt);
      if k && v {
        if Marked(s, o) && k == ModeK(heap, o) && v == ModeV(heap, o) { SpreadTable(s, View(), o, from, k, v); }
        return;
      }
      ghost var m := View();
      if !v {
        MarkValues(arr);
        MarkStepTrans(s, m, View());
        MarkedVStays(m, View());
        SpreadTrans(s, m, View(), from, Targets(arr));
        from := from + Targets(arr);
      }
      m := View();
      MarkNodes(nodes, !k, !v);
      MarkStepTrans(s, m, View());
      MarkedVStays(m, View());
      SpreadTrans(s, m, View(), from, NodeTargets(nodes, k, v));
      from := from + NodeTargets(nodes, k, v);
      if Marked(s, o) && k == ModeK(heap, o) && v == ModeV(heap, o) { SpreadTable(s, View(), o, from, k, v); }
    }

    /** lgc.c `propagatemark`: trace the first gray object. A thread moves on to `grayagain`,
        a weak table to `weak`; anything else turns black. */
    method PropagateMark(ghost todo: set<Id>)
      requires Marking(View(), todo) && |gray| > 0
      modifies `heap, `col, `gray, `grayagain, `weak, `weakK, `weakV
      ensures Marking(View(), todo)
      ensures Cleaned(old(heap), heap) && Grown(old(View()), View())
      ensures Whites(col) <= old(Whites(col))
      ensures Whites(col) == old(Whites(col)) ==> |gray| < |old(gray)|
      ensures Spread(old(View()), View(), {}) && (Bits(old(View())) ==> Bits(View()))
    {
      hide Marking, MarkStep, FullyTraced, Points, RefsIn, Spread, Bits;
      ghost var s := View();
      var o := gray[0];
      GrayHead(s, todo);
      MarkingRefs(s, todo);
      match heap[o]
      case Closure(_, _, _) =>
        gray, col := gray[1..], col[o := Black];
        PopBlackKeeps(s, todo);
        ghost var s1 := View();
        assert s1 == PopBlack(s);
        TraverseClosure(o);
        FinishTrace(s, s1, View(), todo);
        FinishStrong(s, s1, View());
      case Proto(_, _, _) =>
        gray, col := gray[1..], col[o := Black];
        PopBlackKeeps(s, todo);
        ghost var s1 := View();
        assert s1 == PopBlack(s);
        TraverseProto(o);
        FinishTrace(s, s1, View(), todo);
        FinishStrong(s, s1, View());
      case Thread(_, _, _) =>
        gray, grayagain := gray[1..], [o] + grayagain;
        PopThreadKeeps(s, todo);
        ghost var s1 := View();
        assert s1 == PopThread(s);
        TraverseStack(o);
        FinishTrace(s, s1, View(), todo);
        FinishStrong(s, s1, View());
      case Table(mt, _, _, _, _, _) =>
        PropagateTable(o, todo);
    }

    method PropagateTable(o: Id, ghost todo: set<Id>)
      requires Marking(View(), todo) && |gray| > 0 && o == gray[0] && o in heap && heap[o].Table?
      modifies `heap, `col, `gray, `grayagain, `weak, `weakK, `weakV
      ensures Marking(View(), todo)
      ensures Cleaned(old(heap), heap) && Grown(old(View()), View())
      ensures Whites(col) <= old(Whites(col))
      ensures Whites(col) == old(Whites(col)) ==> |gray| < |old(gray)|
      ensures Spread(old(View()), View(), {}) && (Bits(old(View())) ==> Bits(View()))
    {
      hide Spread, Bits, Grown, Marking;
      var mt := heap[o].mt;
      var k := mt.Ref? && mt.id in heap && heap[mt.id].Table? && heap[mt.id].modeK;
      var v := mt.Ref? && mt.id in heap && heap[mt.id].Table? && heap[mt.id].modeV;
      if k || v {
        PropagateWeak(o, k, v, todo);
      } else {
        PropagateStrong(o, todo);
      }
    }

    method PropagateStrong(o: Id, ghost todo: set<Id>)
      requires Marking(View(), todo) && |gray| > 0 && o == gray[0] && o in heap && heap[o].Table?
        && !ModeK(heap, o) && !ModeV(heap, o)
      modifies `heap, `col, `gray
      ensures Marking(View(), todo)
      ensures Cleaned(old(heap), heap) && Grown(old(View()), View())
      ensures Whites(col) <= old(Whites(col))
      ensures Whites(col) == old(Whites(col)) ==> |gray| < |old(gray)|
      ensures Spread(old(View()), View(), {}) && (Bits(old(View())) ==> Bits(View()))
    {
      hide Marking, MarkStep, FullyTraced, RefsIn, Points, CleanTable, Grown, WeakTraced, Spread, Bits, ModeK, ModeV;
      ghost var s := View();
      GrayHead(s, todo);
      PopBlackKeeps(s, todo);
      gray, col := gray[1..], col[o := Black];
      assert View() == PopBlack(s);
      CleanKeepsMarking(View(), o, todo + {o});
      CleanKind(s.heap, o);
      heap := heap[o := CleanTable(heap[o])];
      ghost var s1 := View();
      MarkingRefs(s1, todo + {o});
      PoppedModes(s, s1, o);
      TraverseTable(o, false, false);
      TableTraced(s, View(), o);
      FinishTrace(s, s1, View(), todo);
      FinishStrong(s, s1, View());
    }

    method PropagateWeak(o: Id, k: bool, v: bool, ghost todo: set<Id>)
      requires Marking(View(), todo) && |gray| > 0 && o == gray[0] && o in heap && heap[o].Table? && (k || v)
        && k == ModeK(heap, o) && v == ModeV(heap, o)
      modifies `heap, `col, `gray, `weak, `weakK, `weakV
      ensures Marking(View(), todo)
      ensures Cleaned(old(heap), heap) && Grown(old(View()), View())
      ensures Whites(col) <= old(Whites(col))
      ensures Whites(col) == old(Whites(col)) ==> |gray| < |old(gray)|
      ensures Spread(old(View()), View(), {}) && (Bits(old(View())) ==> Bits(View()))
      ensures o in weak && (o in weakK <==> k) && (o in weakV <==> v)
    {
      hide Marking, MarkStep, Traced, RefsIn, Points, Grown, Marked, Cleaned, Popped, EnteredWeak, Spread, Bits, ModeK,
          ModeV;
      ghost var s := View();
      EnteredWeakKeeps(s, k, v, todo);
      EnterWeak(k, v);
      ghost var s1 := View();
      MarkingRefs(s1, todo + {o});
      PoppedModes(s, s1, o);
      TraverseTable(o, k, v);
      WeakDone(View(), o);
      FinishTrace(s, s1, View(), todo);
      FinishWeak(s, s1, View(), k, v);
    }

    /** Put a weak table on the `weak` list and, unless both halves are weak, drop the keys
        of its empty entries. */
    method EnterWeak(k: bool, v: bool)
      requires |gray| > 0 && gray[0] in heap && heap[gray[0]].Table?
      modifies `heap, `gray, `weak, `weakK, `weakV
      ensures View() == EnteredWeak(old(View()), k, v)
    {
      hide CleanTable, SetBit;
      ghost var t := EnteredWeak(View(), k, v);
      var o := gray[0];
      EnterList();
      ghost var m := View();
      heap := heap[o := if k && v then heap[o] else CleanTable(heap[o])];
      weakK := SetBit(weakK, o, k);
      weakV := SetBit(weakV, o, v);
      assert View() == m.(heap := heap, weakK := weakK, weakV := weakV);
    }

    /** The first gray object goes to the `weak` list. */
    method EnterList()
      requires |gray| > 0
      modifies `gray, `weak
      ensures View() == old(View()).(gray := old(gray)[1..], weak := [old(gray)[0]] + old(weak))
    {
      ghost var s := View();
      var o := gray[0];
      gray := gray[1..];
      weak := [o] + weak;
      assert View() == s.(gray := gray, weak := weak);
    }

    /** lgc.c `propagateall`. */
    method PropagateAll(ghost todo: set<Id>)
      requires Marking(View(), todo)
      modifies `heap, `col, `gray, `grayagain, `weak, `weakK, `weakV
      ensures Marking(View(), todo) && gray == []
      ensures CleanedStar(old(heap), heap) && Grown(old(View()), View())
      ensures Spread(old(View()), View(), {}) && (Bits(old(View())) ==> Bits(View()))
    {
      hide Marking, Grown, Cleaned, CleanedStar, Spread, Bits;
      ghost var s := View();
      GrownRefl(s);
      SpreadNothing(s, {});
      while gray != []
        invariant Marking(View(), todo) && CleanedStar(s.heap, heap) && Grown(s, View())
        invariant Spread(s, View(), {}) && (Bits(s) ==> Bits(View()))
        decreases Whites(col), |gray|
      {
        ghost var m := View();
        PropagateMark(todo);
        GrownTrans(s, m, View());
        SpreadOn(s, m, View(), {});
        CleanedTrans(s.heap, m.heap, heap);
      }
    }

    // ----- Starting and ending the mark phase -----

    method ResetLists()
      modifies `gray, `grayagain, `weak
      ensures View() == Reset(old(View()))
    {
      gray := [];
      grayagain := [];
      weak := [];
    }

    /** The roots that `markroot` marks. */
    method MarkRootValues()
      requires Marking(View(), Todo(View())) && main in heap && heap[main].Thread?
      requires heap[main].gt.Ref? ==> heap[main].gt.id in heap
      requires registry.Ref? ==> registry.id in heap
      requires forall v :: v in mts && v.Ref? ==> v.id in heap
      modifies `gray, `col
      ensures Inv(View().(phase := Propagate)) && MarkStep(old(View()), View())
      ensures Spread(old(View()), View(), {main} + Target(heap[main].gt) + Target(registry) + Targets(mts))
    {
      hide Marking, MarkStep, Points, RefsIn, Inv, Spread;
      ghost var s := View();
      MarkingRefs(s, Todo(s));
      var roots := [Ref(main), heap[main].gt, registry] + mts;
      MarkValues(roots);
      assert roots[0] == Ref(main) && roots[2] == registry;
      assert MarkedV(View(), Ref(main));
      assert Targets(roots) <= {main} + Target(heap[main].gt) + Target(registry) + Targets(mts);
      SpreadWider(s, View(), Targets(roots), {main} + Target(heap[main].gt) + Target(registry) + Targets(mts));
      RootsMarkedInv(s, View());
    }

    /** lgc.c `markroot`. */
    method MarkRoot()
      requires Inv(View()) && Rested(View())
      modifies `gray, `grayagain, `weak, `col, `phase
      ensures Inv(View()) && phase == Propagate && Begun(old(View()), View())
    {
      hide Marking, Inv, Rested, Spread, MarkStep, Begun;
      ghost var s := View();
      ResetMarking(View());
      RootRefs(View());
      ResetLists();
      ghost var r := View();
      MarkRootValues();
      BegunFrom(s, r, View());
      phase := Propagate;
    }

    /** lgc.c `remarkupvals`: mark again what the marked open upvalues of all threads hold. */
    method RemarkUpvals()
      requires heap.Keys == col.Keys && RefsIn(heap)
      modifies `col, `gray
      ensures MarkStep(old(View()), View())
      ensures forall u :: u in heap && IsOpen(heap[u]) && Marked(old(View()), u) ==> FullyTraced(View(), u)
      ensures col.Keys == heap.Keys && Spread(old(View()), View(), {})
    {
      hide MarkStep, Points, RefsIn, FullyTraced, Spread;
      ghost var s := View();
      MarkStepRefl(s);
      SpreadNothing(s, {});
      var rest := set u | u in heap && IsOpen(heap[u]);
      while rest != {}
        invariant View() == s.(col := col, gray := gray)
        invariant MarkStep(s, View()) && heap.Keys == col.Keys && Spread(s, View(), {})
        invariant forall u :: u in rest ==> u in heap && IsOpen(heap[u])
        invariant forall u :: u in heap && IsOpen(heap[u]) && u !in rest && Marked(s, u) ==> FullyTraced(View(), u)
        decreases rest
      {
        var u :| u in rest;
        ghost var m := View();
        if !col[u].White? {
          var v := UpvalValue(heap, heap[u].home);
          UpvalRefIn(heap, u);
          MarkValue(v);
          MarkStepTrans(s, m, View());
          UpvalTraced(View(), u);
          SpreadHeld(m, View(), u);
          SpreadOn(s, m, View(), {});
        }
        forall w | w in heap && IsOpen(heap[w]) && FullyTraced(m, w)
          ensures FullyTraced(View(), w)
        {
          if col != m.col || gray != m.gray { TraceStays(m, View(), w); }
        }
        if Marked(s, u) { MarkedStays(s, m, u); }
        rest := rest - {u};
      }
    }

    /** lgc.c `luaC_separateudata` with `all` = 0. */
    method SeparateUdata()
      requires NoDup(udatas)
      modifies `udatas, `tmu, `finalized
      ensures View() == SeparatedState(old(View()))
    {
      hide Pick, WhiteAmong, HasGc;
      ghost var s := View();
      var us := udatas;
      var kept: seq<Id>, moved: seq<Id>, fin := [], [], finalized;
      PickNone(s);
      for i := 0 to |us|
        invariant View() == s
        invariant kept == Pick(s, us[..i], false) && moved == Pick(s, us[..i], true)
        invariant fin == s.finalized + WhiteAmong(s.col, us[..i])
      {
        var u := us[i];
        SeparateOne(s, us, i);
        if !(u in col && col[u].White?) || u in fin {
          kept := kept + [u];
        } else if !HasGc(heap, u) {
          fin := fin + {u};
          kept := kept + [u];
        } else {
          fin := fin + {u};
          moved := moved + [u];
        }
      }
      assert us[..|us|] == us;
      ghost var t := SeparatedState(s);
      finalized := fin;
      udatas := kept;
      tmu := tmu + moved;
      assert finalized == t.finalized;
      assert udatas == t.udatas;
      assert tmu == t.tmu;
    }

    /** `makewhite` and `reallymarkobject` on a userdata of `tmudata`. */
    method RemarkOne(u: Id)
      requires heap.Keys == col.Keys && RefsIn(heap)
      requires u in heap && heap[u].Udata? && u in col && (col[u] == White(cw) || col[u] == Black)
      modifies `col, `gray
      ensures MarkStep(old(View()), View()) && heap.Keys == col.Keys
      ensures AllMarked(heap, col, u) && Marked(View(), u) && Spread(old(View()), View(), {u})
    {
      hide MarkStep, Points, RefsIn, AllMarked, Spread;
      ghost var m := View();
      col := col[u := White(cw)];
      assert col.Keys == m.col.Keys;
      ghost var m' := View();
      ReallyMark(u);
      SpreadBack(m, m', View(), u);
      RemarkUdata(m, View(), u);
    }

    /** lgc.c `marktmu`. */
    method MarkTmu()
      requires heap.Keys == col.Keys && RefsIn(heap)
      requires forall u :: u in tmu ==> u in heap && heap[u].Udata?
      requires forall u :: u in tmu ==> u in col && (col[u] == White(cw) || col[u] == Black)
      modifies `col, `gray
      ensures MarkStep(old(View()), View()) && heap.Keys == col.Keys
      ensures forall u :: u in tmu ==> u in heap && AllMarked(heap, col, u) && Marked(View(), u)
      ensures Spread(old(View()), View(), Ids(tmu))
    {
      hide MarkStep, Points, RefsIn, AllMarked, Spread;
      ghost var s := View();
      MarkStepRefl(s);
      SpreadNothing(s, Ids(tmu));
      for i := 0 to |tmu|
        invariant View() == s.(col := col, gray := gray)
        invariant MarkStep(s, View()) && heap.Keys == col.Keys && Spread(s, View(), Ids(tmu))
        invariant forall u :: u in tmu ==> u in col && (col[u] == White(cw) || col[u] == Black)
        invariant forall j :: 0 <= j < i ==> tmu[j] in heap && AllMarked(heap, col, tmu[j]) && Marked(View(), tmu[j])
      {
        ghost var m := View();
        var u := tmu[i];
        assert u in tmu;
        RemarkOne(u);
        MarkStepTrans(s, m, View());
        SpreadTrans(s, m, View(), Ids(tmu), {u});
        assert Ids(tmu) + {u} == Ids(tmu);
        UdataColours(m, View());
        forall j | 0 <= j < i
          ensures AllMarked(heap, col, tmu[j]) && Marked(View(), tmu[j])
        {
          AllMarkedStays(m, View(), tmu[j]);
        }
      }
    }

    // ----- Clearing weak tables -----

    /** lgc.c `iscleared`; strings behave as values and are marked on the way. */
    method IsCleared(v: Value, isKey: bool) returns (b: bool)
      requires heap.Keys == col.Keys && (v.Ref? ==> v.id in heap)
      modifies `col
      ensures b == Cleared(old(View()), v, isKey)
      ensures StringsGray(heap, old(col), col) && heap.Keys == col.Keys
      ensures StringOk(heap, col, v)
      ensures forall y :: Marked(View(), y) ==> Marked(old(View()), y) || v == Ref(y)
    {
      if !v.Ref? {
        return false;
      }
      if heap[v.id].Str? {
        if col[v.id].White? {
          col := col[v.id := Gray];
          assert col.Keys == old(col).Keys;
        }
        return false;
      }
      return col[v.id].White? || (heap[v.id].Udata? && !isKey && v.id in finalized);
    }

    method ClearArray(arr: seq<Value>) returns (r: seq<Value>)
      requires heap.Keys == col.Keys && forall v :: v in arr && v.Ref? ==> v.id in heap
      modifies `col
      ensures |r| == |arr| && forall i :: 0 <= i < |arr| ==> r[i] == ClearValue(old(View()), arr[i])
      ensures StringsGray(heap, old(col), col) && heap.Keys == col.Keys
      ensures forall v :: v in r ==> StringOk(heap, col, v)
      ensures forall y :: Marked(View(), y) ==> Marked(old(View()), y) || Ref(y) in arr
    {
      ghost var s := View();
      r := [];
      for i := 0 to |arr|
        invariant View() == s.(col := col)
        invariant |r| == i && forall j :: 0 <= j < i ==> r[j] == ClearValue(s, arr[j])
        invariant StringsGray(heap, s.col, col) && heap.Keys == col.Keys
        invariant forall v :: v in r ==> StringOk(heap, col, v)
        invariant forall y :: Marked(View(), y) ==> Marked(s, y) || Ref(y) in arr
      {
        ghost var m := View();
        var b := IsCleared(arr[i], false);
        ClearedSame(s, m, arr[i], false);
        GrayTrans(heap, s.col, m.col, col);
        r := r + [if b then Nil else arr[i]];
      }
    }

    /** One entry of a weak table; an entry that keeps neither half loses both. */
    method ClearEntry(n: Node) returns (r: Node)
      requires heap.Keys == col.Keys
      requires n.val != Nil ==> (n.key.Ref? ==> n.key.id in heap) && (n.val.Ref? ==> n.val.id in heap)
      modifies `col
      ensures r == ClearNode(old(View()), n)
      ensures StringsGray(heap, old(col), col) && heap.Keys == col.Keys
      ensures r.val != Nil ==> StringOk(heap, col, r.key) && StringOk(heap, col, r.val)
      ensures forall y :: Marked(View(), y) ==>
        Marked(old(View()), y) || (n.val != Nil && (n.key == Ref(y) || n.val == Ref(y)))
    {
      hide Cleared, StringsGray, StringOk;
      ghost var s := View();
      GrayRefl(s);
      r := n;
      if n.val != Nil {
        var b := IsCleared(n.key, true);
        if !b {
          ghost var m := View();
          b := IsCleared(n.val, false);
          ClearedSame(s, m, n.val, false);
          GrayTrans(heap, s.col, m.col, col);
        }
        if b {
          r := Node(KillKey(n.key), Nil);
        }
      }
    }

    method ClearNodes(ns: seq<Node>) returns (r: seq<Node>)
      requires heap.Keys == col.Keys
      requires forall n :: n in ns && n.val != Nil ==>
        (n.key.Ref? ==> n.key.id in heap) && (n.val.Ref? ==> n.val.id in heap)
      modifies `col
      ensures |r| == |ns| && forall i :: 0 <= i < |ns| ==> r[i] == ClearNode(old(View()), ns[i])
      ensures StringsGray(heap, old(col), col) && heap.Keys == col.Keys
      ensures forall n :: n in r && n.val != Nil ==> StringOk(heap, col, n.key) && StringOk(heap, col, n.val)
      ensures forall y :: Marked(View(), y) ==> Marked(old(View()), y) || InEntry(ns, y)
    {
      hide ClearNode, StringsGray, StringOk, InEntry, Marked;
      ghost var s := View();
      GrayRefl(s);
      r := [];
      for i := 0 to |ns|
        invariant View() == s.(col := col)
        invariant |r| == i && forall j :: 0 <= j < i ==> r[j] == ClearNode(s, ns[j])
        invariant StringsGray(heap, s.col, col) && heap.Keys == col.Keys
        invariant forall n :: n in r && n.val != Nil ==> StringOk(heap, col, n.key) && StringOk(heap, col, n.val)
        invariant forall y :: Marked(View(), y) ==> Marked(s, y) || InEntry(ns, y)
      {
        ghost var m := View();
        var n := ClearEntry(ns[i]);
        ClearNodesSame(s, m, ns);
        GrayTrans(heap, s.col, m.col, col);
        if ns[i].val != Nil { EntryIn(ns, i); }
        r := r + [n];
      }
    }

    method ClearTable(x: Id)
      requires heap.Keys == col.Keys && RefsIn(heap) && x in heap && heap[x].Table?
      modifies `heap, `col
      ensures x in heap && heap == old(heap)[x := heap[x]] && heap.Keys == col.Keys
      ensures ClearedTable(old(View()), x, heap[x]) && StringsGray(old(heap), old(col), col)
      ensures StringsKept(heap, col, weakV, x)
      ensures forall y :: Marked(View(), y) ==> Marked(old(View()), y) || Points(old(heap), x, y)
    {
      hide RefsIn, Points, StringOk, ClearNode, ClearValue, InEntry;
      ghost var s := View();
      var o := heap[x];
      TableRefsIn(heap, x);
      TableHolds(heap, x);
      var arr := o.arr;
      if x in weakV {
        arr := ClearArray(o.arr);
      }
      ghost var m := View();
      GrayRefl(s);
      var nodes := ClearNodes(o.nodes);
      ClearNodesSame(s, m, o.nodes);
      GrayTrans(heap, s.col, m.col, col);
      ghost var h := heap;
      heap := heap[x := o.(arr := arr, nodes := nodes)];
      assert heap.Keys == h.Keys;
      StringOkSame(h, heap, col, x);
    }

    /** lgc.c `cleartable`. */
    method ClearTables()
      requires Marking(View(), {})
      modifies `heap, `col
      ensures WeakCleared(old(View()), View()) && StringsFrom(old(View()), View())
    {
      hide Marking, RefsIn, StringsGray, StringsKept, ClearedTable, StringsFrom, Points, Marked;
      ghost var s := View();
      MarkingRefs(s, {});
      WeakRefs(s);
      ClearedNone(s);
      for i := 0 to |weak|
        invariant ClearedUpTo(s, View(), i) && heap.Keys == col.Keys && RefsIn(heap) && weak == s.weak
        invariant forall y :: Marked(View(), y) ==> Marked(s, y) || WeaklyHeld(s, y)
      {
        hide ClearedUpTo;
        ghost var m := View();
        ClearedUpToFrame(s, m, i);
        ClearTable(weak[i]);
        ClearedUpToStep(s, m, View(), i);
        UpToSame(s, m, i);
        assert forall y :: Points(m.heap, weak[i], y) ==> WeaklyHeld(s, y);
        ClearedRefsStay(m, View(), weak[i]);
        ClearedUpToFrame(s, View(), i + 1);
      }
      ClearedAll(s, View());
      StringsFound(s, View());
    }

    // ----- The atomic step -----

    /** Open upvalues again, then everything gray. */
    method AtomicUpvals()
      requires Marking(View(), Todo(View())) && gray == []
      modifies `heap, `col, `gray, `grayagain, `weak, `weakK, `weakV
      ensures Marking(View(), Ids(grayagain) + Ids(tmu) + Ids(weak)) && gray == []
      ensures Advanced(old(View()), View()) && Spread(old(View()), View(), {})
    {
      hide Marking, MarkStep, RefsIn, FullyTraced, CleanedStar, Advanced, Spread, Bits;
      ghost var s := View();
      MarkingRefs(s, Todo(s));
      ghost var todo := Ids(grayagain) + Ids(weak) + Ids(tmu);
      assert Todo(s) == todo + set x | x in heap && IsOpen(heap[x]);
      RemarkUpvals();
      ghost var m := View();
      RemarkDone(s, m, todo);
      MarkAdvanced(s, m);
      PropagateAll(todo);
      GrownAdvanced(m, View());
      AdvancedTrans(s, m, View());
      SpreadOn(s, m, View(), {});
      assert todo <= Ids(grayagain) + Ids(tmu) + Ids(weak);
      PendingWider(View(), todo, Ids(grayagain) + Ids(tmu) + Ids(weak));
    }

    /** Weak tables again, with the running thread and the basic metatables. */
    method AtomicWeak()
      requires Marking(View(), Ids(grayagain) + Ids(tmu) + Ids(weak)) && gray == [] && running in heap
      requires forall v :: v in mts && v.Ref? ==> v.id in heap
      modifies `heap, `col, `gray, `grayagain, `weak, `weakK, `weakV
      ensures Marking(View(), Ids(tmu) + Ids(grayagain)) && gray == []
      ensures Advanced(old(View()), View()) && Spread(old(View()), View(), {running} + Targets(mts)) && Bits(View())
      ensures Marked(View(), running) && forall v :: v in mts ==> MarkedV(View(), v)
    {
      hide Marking, MarkStep, RefsIn, CleanedStar, Advanced, Marked, Spread, Bits;
      ghost var s := View();
      ghost var todo := Ids(grayagain) + Ids(tmu);
      WeakToGray(s, todo);
      gray := weak;
      weak := [];
      ghost var m := View();
      ListsAdvanced(s, m);
      ListsSpread(s, m);
      MarkingRefs(m, todo);
      var roots := [Ref(running)] + mts;
      MarkValues(roots);
      ghost var m' := View();
      assert roots[0] == Ref(running);
      assert MarkedV(m', Ref(running));
      MarkKeepsMarking(m, m', todo);
      MarkAdvanced(m, m');
      AdvancedTrans(s, m, m');
      RootsSpread(s, m, m', roots);
      PropagateAll(todo);
      GrownAdvanced(m', View());
      AdvancedTrans(s, m', View());
      SpreadOn(s, m', View(), {s.running} + Targets(s.mts));
      AdvancedRoots(m', View());
      assert MarkedV(View(), Ref(running));
      assert todo <= Ids(tmu) + Ids(grayagain);
      PendingWider(View(), todo, Ids(tmu) + Ids(grayagain));
    }

    /** Objects caught by the back barrier, and threads, again. */
    method AtomicAgain()
      requires Marking(View(), Ids(tmu) + Ids(grayagain)) && gray == []
      modifies `heap, `col, `gray, `grayagain, `weak, `weakK, `weakV
      ensures Marking(View(), Ids(tmu)) && gray == []
      ensures Advanced(old(View()), View()) && Spread(old(View()), View(), {}) && (Bits(old(View())) ==> Bits(View()))
    {
      hide Marking, CleanedStar, Advanced, Spread, Bits;
      ghost var s := View();
      AgainToGray(s, Ids(tmu));
      gray := grayagain;
      grayagain := [];
      ghost var m := View();
      ListsAdvanced(s, m);
      AgainSpread(s, m);
      PropagateAll(Ids(tmu));
      GrownAdvanced(m, View());
      AdvancedTrans(s, m, View());
      SpreadOn(s, m, View(), {});
    }

    /** Userdata to be finalized, and what they keep alive. */
    method AtomicUdata()
      requires Marking(View(), Ids(tmu)) && gray == []
      modifies `heap, `col, `gray, `grayagain, `weak, `weakK, `weakV, `udatas, `tmu, `finalized
      ensures Marking(View(), {}) && gray == []
      ensures Advanced(SeparatedState(old(View())), View())
      ensures Spread(SeparatedState(old(View())), View(), Ids(tmu)) && (Bits(old(View())) ==> Bits(View()))
      ensures forall u :: u in tmu ==> Marked(View(), u)
    {
      hide Marking, MarkStep, RefsIn, CleanedStar, Advanced, AllMarked, Marked, SeparatedState, Spread, Bits, Ids;
      ghost var s := View();
      SeparateKeeps(s);
      UdatasNoDup(s, Ids(tmu));
      SeparateUdata();
      ghost var m := View();
      MarkingRefs(m, Ids(tmu));
      TmuColours(m, Ids(tmu));
      MarkTmu();
      ghost var m' := View();
      MarkKeepsMarking(m, m', Ids(tmu));
      TmuDone(m');
      MarkAdvanced(m, m');
      SeparatedBits(s);
      MarkedBits(m, m');
      PropagateAll({});
      GrownAdvanced(m', View());
      AdvancedTrans(m, m', View());
      SpreadOn(m, m', View(), Ids(m.tmu));
      AdvancedRoots(m', View());
      forall u | u in tmu
        ensures Marked(View(), u)
      {
        assert MarkedV(m', Ref(u));
      }
    }

    /** All the marking of the atomic step. */
    method AtomicMark() returns (ghost m0: State)
      requires Inv(View()) && phase == Propagate && gray == [] && held == {}
      modifies `heap, `col, `gray, `grayagain, `weak, `weakK, `weakV, `udatas, `tmu, `finalized
      ensures Marking(View(), {}) && gray == [] && RootsMarked(View())
      ensures heap.Keys == old(heap).Keys
      ensures MarkedUp(old(View()), m0) && MarkedOut(SeparatedState(m0), View())
    {
      hide Marking, Advanced, Inv, Marked, RootsMarked, SeparatedState, Ids, Todo, Spread, Bits, MarkedUp, MarkedOut,
          Complete;
      AtomicEntry(View());
      ghost var s := View();
      AtomicUpvals();
      ghost var s1 := View();
      AdvancedRoots(s, s1);
      AtomicWeak();
      ghost var s2 := View();
      AdvancedRoots(s1, s2);
      AtomicAgain();
      ghost var s3 := View();
      m0 := s3;
      UpDone(s, s1, s2, s3);
      AtomicUdata();
      AtomicRoots(s2, s3, View());
      OutDone(SeparatedState(s3), View());
    }

    /** lgc.c `atomic`: no object is freed, the white flips, and sweeping starts. */
    method Atomic()
      requires Inv(View()) && phase == Propagate && gray == [] && held == {}
      modifies `heap, `col, `gray, `grayagain, `weak, `weakK, `weakV, `udatas, `tmu, `finalized, `cw, `phase, `sweepStr,
      `sweepPos
      ensures Inv(View()) && phase == SweepString && cw == !old(cw) && sweepStr == 0 && sweepPos == 0
      ensures Flipped(old(View()), View()) && heap.Keys == old(heap).Keys
      ensures forall u :: u in tmu && u !in old(tmu) ==> Unreachable(old(View()), u)
      ensures forall u, m :: u in old(udatas) && u !in old(finalized) && GcField(old(heap), u, m) ==>
        u in tmu || Live(View(), u)
    {
      hide Unreachable, GcField, Marking, Inv, RootsMarked, WeakCleared, MarkedUp, MarkedOut, SeparatedState,
          StringsFrom, Live, Marked;
      ghost var s0 := View();
      ghost var m0 := AtomicMark();
      ghost var s := View();
      ClearTables();
      FlipKeepsInv(s, View());
      ClearedSameKeys(s, View());
      FlipDead(s, View());
      ghost var u := View();
      cw := !cw;
      sweepStr := 0;
      sweepPos := 0;
      phase := SweepString;
      assert FlippedBy(s0, m0, s, u, View());
      FlipSeparates(s0, View());
    }

    // ----- Sweeping -----

    /** lgc.c `sweepwholelist` on a list of strings or of open upvalues: free the dead, repaint
        the rest. */
    method SweepWhole(ids: set<Id>) returns (kept: set<Id>)
      requires heap.Keys == col.Keys && ids <= heap.Keys
      modifies `heap, `col
      ensures kept == ids - Doomed(old(View()), ids)
      ensures heap == old(heap) - Doomed(old(View()), ids) && col == Repaint(old(View()), ids)
    {
      ghost var s := View();
      kept := {};
      var rest, h, c := ids, heap, col;
      ghost var done: set<Id> := {};
      while rest != {}
        invariant View() == s && done + rest == ids && done !! rest
        invariant kept == done - Doomed(s, done) && h == heap - Doomed(s, done) && c == Repaint(s, done)
        decreases rest
      {
        var x :| x in rest;
        if col[x] == White(!cw) && !(heap[x].Str? && heap[x].fixed) {
          h, c := h - {x}, c - {x};
        } else {
          c := c[x := White(cw)];
          kept := kept + {x};
        }
        SweepWholeStep(s, done, x);
        done, rest := done + {x}, rest - {x};
      }
      assert done == ids;
      heap := h;
      col := c;
    }

    method SweepBucket()
      requires sweepStr < |strt| && heap.Keys == col.Keys && strt[sweepStr] <= heap.Keys
      modifies `heap, `col, `strt, `sweepStr, `phase
      ensures View() == SweptBucket(old(View()))
    {
      hide Doomed, Repaint;
      ghost var s := View();
      var ids := strt[sweepStr];
      var kept := SweepWhole(ids);
      ghost var m := View();
      assert m == s.(heap := s.heap - Doomed(s, ids), col := Repaint(s, ids));
      NextBucket(kept);
    }

    method NextBucket(kept: set<Id>)
      requires sweepStr < |strt|
      modifies `strt, `sweepStr, `phase
      ensures View() == old(View()).(strt := old(strt)[old(sweepStr) := kept], sweepStr := old(sweepStr) + 1,
        phase := if old(sweepStr) + 1 >= |old(strt)| then Sweep else SweepString)
    {
      ghost var s := View();
      strt := strt[sweepStr := kept];
      sweepStr := sweepStr + 1;
      phase := if sweepStr >= |strt| then Sweep else SweepString;
      assert View() == s.(strt := strt, sweepStr := sweepStr, phase := phase);
    }

    /** `singlestep` in GCSsweepstring. */
    method SweepStrings()
      requires Inv(View()) && phase == SweepString
      modifies `heap, `col, `strt, `sweepStr, `phase
      ensures View() == SweptBucket(old(View()))
      ensures Inv(View()) && LiveStays(old(View()), View())
    {
      SweepBucketKeeps(View());
      BucketEntry(View());
      hide Inv, LiveStays, SweptBucket;
      SweepBucket();
    }

    /** `sweepwholelist` on the open upvalues of a thread. */
    method SweepOpen(th: Id)
      requires th in heap && heap[th].Thread? && heap.Keys == col.Keys && heap[th].openup <= heap.Keys
        && th !in heap[th].openup
      modifies `heap, `col
      ensures View() == SweptOpen(old(View()), th)
    {
      hide Doomed, Repaint;
      ghost var s := View();
      var o := heap[th];
      var kept := SweepWhole(o.openup);
      heap := heap[th := o.(openup := kept)];
      assert View() == s.(heap := heap, col := col);
    }

    /** lfunc.c `luaF_close` and lgc.c `luaC_linkupval` for a live upvalue while not marking. */
    method CloseQuiet(u: Id)
      requires u in heap && IsOpen(heap[u])
      modifies `heap, `col, `rootgc, `sweepPos
      ensures View() == ClosedWith(old(View()), u, White(cw))
    {
      hide ClosedWith;
      LinkUpval(u, White(cw));
    }

    /** lstate.c `luaE_freethread` closes what is left open in a dead thread. */
    method CloseThread(th: Id, i: nat) returns (j: nat)
      requires Inv(View()) && phase == Sweep && th in heap && heap[th].Thread?
      requires forall u :: u in heap[th].openup ==> Live(View(), u)
      requires sweepPos <= i < |AllRoots(View())| && AllRoots(View())[i] == th
      modifies `heap, `col, `rootgc, `sweepPos
      ensures Inv(View()) && LiveStays(old(View()), View()) && phase == Sweep
      ensures th in heap && heap[th].Thread? && heap[th].openup == {} && th in col && col[th] == old(col)[th]
      ensures sweepPos <= j < |AllRoots(View())| && AllRoots(View())[j] == th
      ensures Sunk(old(View()), View()) && Backlog(View()) <= old(Backlog(View()))
    {
      hide Inv, Live, LiveStays, AllRoots, Sunk, Backlog;
      j := i;
      ghost var s := View();
      CloseThreadFacts(s, th);
      SunkSame(s, s);
      while heap[th].openup != {}
        invariant Inv(View()) && LiveStays(s, View()) && phase == Sweep && cw == s.cw
        invariant th in heap && heap[th].Thread? && th in col && col[th] == s.col[th]
        invariant forall u :: u in heap[th].openup ==> Live(View(), u)
        invariant sweepPos <= j < |AllRoots(View())| && AllRoots(View())[j] == th
        invariant Sunk(s, View()) && Backlog(View()) <= Backlog(s)
        decreases heap[th].openup
      {
        var u :| u in heap[th].openup;
        ghost var m := View();
        CloseStep(m, th, u, j);
        ClosingSunk(m, th, u);
        CloseQuiet(u);
        LiveStaysTrans(s, m, View());
        SunkTrans(s, m, View());
        j := j + 1;
      }
    }

    /** The end of `sweeplist` for a dead object at position `i`: off the list and freed. */
    method FreeRoot(i: nat)
      requires i < |AllRoots(View())|
      modifies `heap, `col, `rootgc, `udatas
      ensures View() == Freed(old(View()), i)
    {
      ghost var s := View();
      var n := |rootgc|;
      var x := (rootgc + udatas)[i];
      if i < n {
        rootgc := rootgc[..i] + rootgc[i + 1..];
      } else {
        udatas := udatas[..i - n] + udatas[i - n + 1..];
      }
      heap := heap - {x};
      col := col - {x};
      assert View() == s.(heap := heap, col := col, rootgc := rootgc, udatas := udatas);
    }

    method KeepRoot()
      requires sweepPos < |AllRoots(View())|
      modifies `col, `sweepPos
      ensures View() == Kept(old(View()))
    {
      ghost var s := View();
      var x := (rootgc + udatas)[sweepPos];
      col := col[x := White(cw)];
      sweepPos := sweepPos + 1;
      assert View() == s.(col := col, sweepPos := sweepPos);
    }

    /** One turn of the loop of lgc.c `sweeplist` over `rootgc`: the object at the sweep position is freed if
        it is dead, or else turns white and is passed. */
    method SweepOne()
      requires Inv(View()) && phase == Sweep && sweepPos < |AllRoots(View())|
      modifies `heap, `col, `rootgc, `udatas, `sweepPos
      ensures Inv(View()) && phase == Sweep && LiveStays(old(View()), View())
      ensures Sunk(old(View()), View()) && Backlog(View()) < old(Backlog(View()))
      ensures var x := old((rootgc + udatas)[sweepPos]);
        && x in old(col)
        && if old(col)[x] == White(!cw) then x !in heap
           else x in heap && x in col && col[x] == White(cw) && sweepPos == old(sweepPos) + 1
    {
      hide Inv, LiveStays, AllRoots, Live, Sunk, Backlog, SweptOpen;
      ghost var s := View();
      SweepEntry(s);
      SunkSame(s, s);
      var x := (rootgc + udatas)[sweepPos];
      OpenAt(x);
      ghost var m := View();
      AfterOpen(s, m, x);
      if col[x] == White(!cw) {
        var i := sweepPos;
        if heap[x].Thread? { i := CloseDying(x, s); }
        EraseRoot(i, s);
      } else {
        SpareRoot(s);
      }
    }

    /** `sweepwholelist` on the open upvalues of the object at the sweep position, if it is a thread. */
    method OpenAt(x: Id)
      requires Inv(View()) && phase == Sweep && x in heap && sweepPos < |AllRoots(View())|
        && AllRoots(View())[sweepPos] == x
      modifies `heap, `col
      ensures View() == if old(heap)[x].Thread? then SweptOpen(old(View()), x) else old(View())
      ensures Inv(View()) && LiveStays(old(View()), View()) && Sunk(old(View()), View())
        && Backlog(View()) <= old(Backlog(View()))
    {
      hide Inv, LiveStays, AllRoots, Live, Sunk, Backlog, SweptOpen;
      ghost var s := View();
      SunkSame(s, s);
      LiveStaysRefl(s);
      if heap[x].Thread? {
        SweptOpenKeeps(s, x);
        SweepOpenEntry(s, x);
        SunkOpen(s, x);
        BacklogOpen(s, x);
        SweepOpen(x);
      }
    }

    /** The open upvalues of a dead thread at the sweep position are closed; its new place is returned. */
    method CloseDying(x: Id, ghost s: State) returns (i: nat)
      requires Inv(s) && Inv(View()) && phase == Sweep && x in heap && heap[x].Thread?
      requires LiveStays(s, View()) && Sunk(s, View()) && Backlog(View()) <= Backlog(s)
      requires forall u :: u in heap[x].openup ==> Live(View(), u)
      requires sweepPos < |AllRoots(View())| && AllRoots(View())[sweepPos] == x && x in col
      modifies `heap, `col, `rootgc, `sweepPos
      ensures Inv(View()) && LiveStays(s, View()) && phase == Sweep
      ensures x in heap && heap[x].Thread? && heap[x].openup == {} && x in col && col[x] == old(col)[x]
      ensures sweepPos <= i < |AllRoots(View())| && AllRoots(View())[i] == x
      ensures Sunk(s, View()) && Backlog(View()) <= old(Backlog(View()))
    {
      hide Inv, LiveStays, AllRoots, Live, Sunk, Backlog;
      ghost var m := View();
      i := CloseThread(x, sweepPos);
      LiveStaysTrans(s, m, View());
      SunkTrans(s, m, View());
    }

    /** The dead object at place `i` is freed. */
    method EraseRoot(i: nat, ghost s: State)
      requires Inv(s) && Inv(View()) && phase == Sweep && sweepPos <= i < |AllRoots(View())| && LiveStays(s, View())
        && Sunk(s, View())
      requires var x := AllRoots(View())[i];
        x in heap && x in col && col[x] == White(!cw) && !(heap[x].Thread? && heap[x].openup != {})
      modifies `heap, `col, `rootgc, `udatas
      ensures Inv(View()) && phase == Sweep && LiveStays(s, View()) && Sunk(s, View())
        && Backlog(View()) < old(Backlog(View())) && cw == old(cw) && old(AllRoots(View())[i]) !in heap
    {
      hide Inv, LiveStays, AllRoots, Live, Sunk, Backlog;
      ghost var m := View();
      FreedEntry(m, i);
      FreedKeeps(m, i);
      SunkFreed(m, i);
      BacklogFreed(m, i);
      FreeRoot(i);
      LiveStaysTrans(s, m, View());
      SunkTrans(s, m, View());
    }

    /** The object at the sweep position is alive: it turns white and is passed. */
    method SpareRoot(ghost s: State)
      requires Inv(s) && Inv(View()) && phase == Sweep && sweepPos < |AllRoots(View())| && LiveStays(s, View())
        && Sunk(s, View())
      requires Spared(View(), AllRoots(View())[sweepPos])
      modifies `col, `sweepPos
      ensures Inv(View()) && phase == Sweep && LiveStays(s, View()) && Sunk(s, View())
        && Backlog(View()) < old(Backlog(View())) && cw == old(cw) && sweepPos == old(sweepPos) + 1
      ensures var x := old(AllRoots(View())[sweepPos]); x in heap && x in col && col[x] == White(cw)
    {
      hide Inv, LiveStays, AllRoots, Live, Sunk, Backlog;
      ghost var m := View();
      KeptEntry(m);
      KeptKeeps(m);
      SunkKept(m);
      BacklogKept(m);
      KeepRoot();
      LiveStaysTrans(s, m, View());
      SunkTrans(s, m, View());
    }

    /** lgc.c `sweeplist` over `rootgc` with its limit. */
    method SweepList(count: nat)
      requires Inv(View()) && phase == Sweep
      modifies `heap, `col, `rootgc, `udatas, `sweepPos
      ensures Inv(View()) && phase == Sweep && LiveStays(old(View()), View())
      ensures Sunk(old(View()), View())
        && (count > 0 ==> sweepPos >= |rootgc + udatas| || Backlog(View()) < old(Backlog(View())))
    {
      hide Inv, AllRoots, Live, LiveStays, Sunk, Backlog;
      ghost var s := View();
      LiveStaysRefl(s);
      SunkSame(s, s);
      var n := count;
      while sweepPos < |rootgc + udatas| && n > 0
        invariant Inv(View()) && phase == Sweep && LiveStays(s, View()) && Sunk(s, View())
        invariant n <= count && Backlog(View()) <= Backlog(s) && (n < count ==> Backlog(View()) < Backlog(s))
        decreases n
      {
        ghost var m := View();
        SweepEntryLength(m);
        SweepOne();
        LiveStaysTrans(s, m, View());
        SunkTrans(s, m, View());
        n := n - 1;
      }
    }

    /** lgc.c `GCTM`, up to the call of the finalizer: the userdata is handed to the program on
        the stack of the running thread if its metatable has a "__gc" field. */
    method CallGcTm()
      requires Inv(View()) && phase == Finalize && |tmu| > 0
      modifies `heap, `col, `udatas, `tmu, `held
      ensures Inv(View()) && phase == Finalize && LiveStays(old(View()), View())
      ensures tmu == old(tmu)[1..] && udatas == [old(tmu)[0]] + old(udatas) && held == old(held)
      ensures heap.Keys == old(heap).Keys && col == old(col)[old(tmu)[0] := White(cw)]
      ensures heap == if HasGc(old(heap), old(tmu)[0])
        then old(heap)[running := old(heap)[running].(stack := old(heap)[running].stack + [Ref(old(tmu)[0])])]
          else old(heap)
      ensures Called(old(View()), View(), old(tmu)[0])
    {
      hide Inv, LiveStays, HasGc, Returned, WithGc;
      ghost var s := View();
      var u, wasHeld := tmu[0], held;
      ReturnedKeeps(s);
      RunningIsThread(s);
      ReturnUdata();
      ghost var m := View();
      ReturnedFrame(s);
      if HasGc(heap, u) {
        PushKeeps(m, u);
        heap := heap[running := heap[running].(stack := heap[running].stack + [Ref(u)])];
        LiveStaysTrans(s, m, View());
      }
      ghost var m' := View();
      ReleaseKeeps(m', wasHeld);
      held := wasHeld;
      LiveStaysTrans(s, m', View());
      GcMeans(s.heap, u);
    }

    method ReturnUdata()
      requires |tmu| > 0
      modifies `col, `udatas, `tmu, `held
      ensures View() == Returned(old(View()))
    {
      ghost var s := View();
      var u := tmu[0];
      tmu := tmu[1..];
      udatas := [u] + udatas;
      col := col[u := White(cw)];
      held := held + {u};
      assert View() == s.(tmu := tmu, udatas := udatas, col := col, held := held);
    }

    /** GCSpropagate with a gray object. */
    method PropagateStep()
      requires Inv(View()) && held == {} && phase == Propagate && gray != []
      modifies `heap, `col, `gray, `grayagain, `weak, `weakK, `weakV
      ensures Inv(View()) && Propagated(old(View()), View())
    {
      hide Inv, Marking, Grown;
      ghost var s := View();
      EntryMarking(s);
      PropagateMark(Todo(s));
      CleanedOnce(s.heap, heap);
      PropagateStepKeeps(s, View());
    }

    /** GCSpause: a new cycle. */
    method PauseStep()
      requires Inv(View()) && (phase == Pause || phase == Finalize)
      modifies `gray, `grayagain, `weak, `col, `phase
      ensures Inv(View()) && MarkedRoots(old(View()), View())
    {
      hide Inv;
      PauseRested(View());
      MarkRoot();
    }

    /** GCSpropagate without gray objects. */
    method AtomicStep()
      requires Inv(View()) && phase == Propagate && gray == [] && held == {}
      modifies `heap, `col, `gray, `grayagain, `weak, `weakK, `weakV, `udatas, `tmu, `finalized, `cw, `phase, `sweepStr,
      `sweepPos
      ensures Inv(View()) && Flipped(old(View()), View())
    {
      hide Inv, Flipped;
      Atomic();
    }

    /** GCSsweepstring. */
    method SweepStringStep()
      requires Inv(View()) && phase == SweepString
      modifies `heap, `col, `strt, `sweepStr, `phase
      ensures Inv(View()) && Worked(old(View()), View()) && Survive(old(View()), View())
    {
      hide Inv, LiveStays, Sunk, SweptBucket, Survive;
      ghost var s := View();
      BucketEntry(s);
      SunkBucket(s);
      SweepStrings();
      SurviveLive(s, View());
    }

    /** GCSsweep: some objects are swept; at the end of the list the phase is over. */
    method SweepStep()
      requires Inv(View()) && phase == Sweep
      modifies `heap, `col, `rootgc, `udatas, `sweepPos, `phase
      ensures Inv(View()) && SweptSome(old(View()), View()) && Survive(old(View()), View())
    {
      hide Inv, Survive, LiveStays, Sunk, Backlog;
      ghost var s := View();
      SweepList(GCSWEEPMAX);
      SurviveLive(s, View());
      SweepAtEnd(View());
      if sweepPos >= |rootgc + udatas| {
        ghost var m := View();
        SweepEnds(m);
        phase := Finalize;
        SurviveSame(s, m, View());
        LiveStaysSame(m, View());
        LiveStaysTrans(s, m, View());
        SunkSame(m, View());
        SunkTrans(s, m, View());
      }
    }

    /** GCSfinalize. */
    method FinalizeStep()
      requires Inv(View()) && phase == Finalize
      modifies `heap, `col, `udatas, `tmu, `held, `phase
      ensures Inv(View()) && held == old(held) && Worked(old(View()), View()) && Survive(old(View()), View())
    {
      hide Inv, Survive, LiveStays, HasGc;
      ghost var s := View();
      if tmu != [] {
        RunningIsThread(s);
        CallGcTm();
        SurviveLive(s, View());
      } else {
        FinalizeEnds(s);
        phase := Pause;
        SurviveKeys(s, View());
      }
    }

    /** lgc.c `singlestep`: whatever the phase, live objects stay in the heap, and the cycle comes
        nearer to its end. */
    method SingleStep()
      requires Inv(View()) && held == {}
      modifies this
      ensures Inv(View()) && held == {} && Survive(old(View()), View()) && Worked(old(View()), View())
    {
      hide Inv, Survive, LiveStays, SweptSome, Propagated, Sunk, SweptBucket;
      ghost var s := View();
      match phase
      case Pause =>
        PauseStep();
        SurviveKeys(s, View());
      case Propagate =>
        if gray != [] {
          PropagateStep();
          PropagatedKeys(s, View());
        } else {
          AtomicStep();
        }
        SurviveKeys(s, View());
      case SweepString =>
        SweepStringStep();
      case Sweep =>
        SweepStep();
      case Finalize =>
        FinalizeStep();
    }

    /** lgc.c `luaC_fullgc`: it ends, in GCSpause, and exactly what can be reached is left. `trace` are the
        states it goes through: it ends what was under way, starts a cycle in state `start`, and has marked
        everything in state `flip`. */
    method FullCollection() returns (ghost trace: seq<State>, ghost start: nat, ghost flip: nat)
      requires Inv(View()) && held == {}
      modifies this
      ensures Inv(View()) && held == {} && phase == Pause
      ensures FullTrace(trace, start, flip) && trace[0] == old(View()) && trace[|trace| - 1] == View()
      ensures forall x :: Reached(trace[start].heap, Sources(trace[start], trace[flip]), x) ==> x in heap
      ensures forall x :: x in heap ==> Justified(trace[start], trace[flip], x)
      ensures forall x :: Live(old(View()), x) ==> x in trace[flip].heap
      ensures trace[flip].sweepStr == 0 && forall x :: Live(trace[flip], x) ==> x in heap
      ensures forall x :: x in heap ==> x in trace[flip].heap && !Condemned(trace[flip], x)
      ensures forall x :: FirmlyReached(old(View()), x) ==> FirmlyReached(View(), x) && x in heap
      ensures running in heap && heap[running].Thread?
      ensures forall u :: Due(trace[start], u) ==> Ref(u) in heap[running].stack
    {
      hide Inv, Live, LiveStays, Condemned, Collected, Reached, FirmlyReached, Justified, CleanStrings, FullTrace,
        Due, Served;
      ghost var s := View();
      trace := FinishSweep();
      start := |trace| - 1;
      ghost var m, t0 := View(), trace;
      trace := MarkAll(trace);
      flip := |trace| - 1;
      ghost var f, t1 := View(), trace;
      InvSameKeys(f);
      trace := SweepAfter(trace);
      CycleExact(m, f, View());
      LiveKeys(s, m, m);
      FullDone(t0, t1, trace);
      DueStack(m, f, View());
      ChainFirmAll(trace, s, View());
    }

    /** The first part of `luaC_fullgc`: what was under way ends without freeing anything live. */
    method FinishSweep() returns (ghost trace: seq<State>)
      requires Inv(View()) && held == {}
      modifies this
      ensures Inv(View()) && held == {} && phase == Finalize && LiveStays(old(View()), View())
      ensures Chain(trace) && trace[0] == old(View()) && trace[|trace| - 1] == View()
    {
      hide Inv, Live, LiveStays, Survive, Worked, Collected;
      ghost var s := View();
      LiveStaysRefl(s);
      trace := [s];
      if phase == Pause || phase == Propagate {
        BeginFullGc();
        SweepAllLive(s, View());
        SweptAll(s, View());
        ChainNext([s], View());
        trace := [s] + [View()];
      }
      while phase != Finalize
        invariant Inv(View()) && held == {} && LiveStays(s, View())
        invariant phase == SweepString || phase == Sweep || phase == Finalize
        invariant Chain(trace) && trace[0] == s && trace[|trace| - 1] == View()
        decreases Rank(View()), Size(View())
      {
        ghost var m := View();
        SingleStep();
        WorkedSweeps(m, View());
        LiveStaysTrans(s, m, View());
        OneStep(m, View());
        ChainNext(trace, View());
        trace := trace + [View()];
      }
    }

    /** The second part: a new cycle marks, from markroot to the end of the atomic step. */
    method MarkAll(ghost before: seq<State>) returns (ghost trace: seq<State>)
      requires Inv(View()) && held == {} && phase == Finalize
      requires Chain(before) && before[|before| - 1] == View()
      modifies this
      ensures Inv(View()) && held == {} && phase == SweepString && sweepStr == 0 && heap.Keys == old(heap).Keys
      ensures Chain(trace) && |before| + 1 < |trace| && before <= trace && trace[|trace| - 1] == View()
      ensures Stepped(old(View()), Restart, trace[|before|])
      ensures forall i :: |before| <= i < |trace| - 1 ==> trace[i].phase == Propagate
      ensures forall x :: Reached(old(heap), Sources(old(View()), View()), x) ==> Live(View(), x)
      ensures forall x :: Live(View(), x) ==> Justified(old(View()), View(), x)
      ensures CleanStrings(old(View()), View())
      ensures forall u :: Due(old(View()), u) ==> Served(View(), u)
    {
      hide Inv, Live, Survive, Worked, Collected, Reached, Justified, InMarking, CleanStrings, Rested, Chain, Stepped,
        Due, Served,
        Flipped, MarkedRoots, Uncoloured, Rank, Size;
      ghost var s, last := View(), View();
      PauseRested(s);
      PauseStep();
      MarkingStarts(s, View());
      OneRestart(s, View());
      ChainSome(before);
      ChainNext(before, View());
      MarkedRootsFrame(s, View());
      trace := before + [View()];
      while phase == Propagate
        invariant Inv(View()) && held == {} && (phase == Propagate || (phase == SweepString && sweepStr == 0))
        invariant Chain(trace) && |before| < |trace| && before <= trace && trace[|trace| - 1] == View()
        invariant Stepped(s, Restart, trace[|before|]) && heap.Keys == s.heap.Keys
        invariant forall i :: |before| <= i < |trace| - 1 ==> trace[i].phase == Propagate
        invariant phase == Propagate ==> InMarking(s, View())
        invariant phase != Propagate ==> |before| + 1 < |trace| && InMarking(s, last) && Flipped(last, View())
        decreases Rank(View()), Uncoloured(View()), Size(View())
      {
        last := View();
        SingleStep();
        WorkedMarking(last, View());
        MarkingStep(s, last, View());
        OneStep(last, View());
        ChainNext(trace, View());
        trace := trace + [View()];
      }
      FlipExact(s, last, View());
      FlipStrings(s, last, View());
      forall u | Due(s, u)
        ensures Served(View(), u)
      {
        DueServed(s, last, View(), u);
      }
    }

    /** The last part: everything is swept, and the finalizers are called. */
    method SweepAfter(ghost before: seq<State>) returns (ghost trace: seq<State>)
      requires Inv(View()) && held == {} && phase == SweepString && sweepStr == 0
      requires Chain(before) && before[|before| - 1] == View()
      modifies this
      ensures Inv(View()) && held == {} && phase == Pause
      ensures Chain(trace) && before <= trace && trace[|trace| - 1] == View()
      ensures forall i :: |before| - 1 <= i < |trace| ==> trace[i].phase != Propagate
      ensures forall x :: Live(old(View()), x) ==> x in heap
      ensures forall x :: x in heap ==> x in old(heap) && !Condemned(old(View()), x)
      ensures tmu == [] && forall u :: Served(old(View()), u) ==> Served(View(), u)
    {
      hide Inv, Live, Survive, Worked, Collected, InCycle, Condemned, Served;
      ghost var f := View();
      trace := before;
      LiveIn(f);
      CycleStarts(f, f);
      while phase != Pause
        invariant Inv(View()) && held == {} && phase != Propagate && InCycle(f, f, View())
        invariant (phase == Pause ==> tmu == []) && forall u :: Served(f, u) ==> Served(View(), u)
        invariant Chain(trace) && before <= trace && trace[|trace| - 1] == View()
        invariant forall i :: |before| - 1 <= i < |trace| ==> trace[i].phase != Propagate
        decreases Rank(View()), Size(View())
      {
        ghost var m := View();
        SingleStep();
        WorkedCycle(f, f, m, View());
        WorkedPause(m, View());
        forall u | Served(f, u)
          ensures Served(View(), u)
        {
          WorkedServed(m, View(), u);
        }
        OneStep(m, View());
        ChainNext(trace, View());
        trace := trace + [View()];
      }
      CycleDone(f, f, View());
    }

    // ----- The mutator -----

    /** lstate.c `lua_newstate`: a main thread, its table of globals and the registry, all
        white, and no cycle under way. */
    constructor ()
      ensures Inv(View()) && phase == Pause && held == {}
    {
      heap := map[0 := Thread(Ref(1), [Nil], {}), 1 := Table(Nil, [], [], false, false, false),
                  2 := Table(Nil, [], [], false, false, false)];
      col := map[0 := White(false), 1 := White(false), 2 := White(false)];
      finalized, weakK, weakV := {}, {}, {};
      cw, phase := false, Pause;
      gray, grayagain, weak, tmu := [], [], [], [];
      rootgc, udatas := [2, 1, 0], [];
      sweepPos, sweepStr, strt := 0, 0, [{}];
      main, running, registry, mts, held := 0, 0, Ref(2), [], {};
      new;
      hide *;
      NewState(View());
    }

    /** A reference that is in the program's hands. */
    predicate InHand(v: Value)
      reads this
    {
      v.Ref? ==> v.id in held
    }

    /** Take a root in hand. */
    method HoldRoot(x: Id)
      requires Inv(View()) && (x == main || x == running || registry == Ref(x) || Ref(x) in mts)
      modifies `held
      ensures Inv(View()) && held == old(held) + {x}
    {
      ghost var s := View();
      held := held + {x};
      HoldKeeps(s, x);
    }

    /** Follow a reference of an object in hand. */
    method Load(x: Id, y: Id)
      requires Inv(View()) && x in held && x in heap && Points(heap, x, y)
      modifies `held
      ensures Inv(View()) && held == old(held) + {y}
    {
      ghost var s := View();
      LoadLive(s, x, y);
      held := held + {y};
      HoldKeeps(s, y);
    }

    /** Read a field of an object in hand: what it holds is there, and then in hand, too. */
    method Read(x: Id, f: Field) returns (v: Value)
      requires Inv(View()) && x in held && x in heap && HasField(heap[x], f)
      modifies `held
      ensures Inv(View()) && v == Get(heap, x, f)
      ensures v.Ref? ==> v.id in heap && held == old(held) + {v.id}
      ensures !v.Ref? ==> held == old(held)
    {
      hide Inv, Points;
      v := Get(heap, x, f);
      if v.Ref? {
        ReadThere(View(), x, f, v.id);
        Load(x, v.id);
      }
    }

    /** Let go of everything: a safe point for the collector. */
    method Release()
      requires Inv(View())
      modifies `held
      ensures Inv(View()) && held == {}
    {
      ReleaseKeeps(View(), {});
      held := {};
    }

    method ClearBits(id: Id)
      modifies `finalized, `weakK, `weakV
      ensures View() == Unbit(old(View()), id)
    {
      finalized := finalized - {id};
      weakK := weakK - {id};
      weakV := weakV - {id};
    }

    /** A new object in the current white, with its other mark bits clear. */
    method Admit(id: Id, o: Obj)
      modifies `heap, `col, `held, `finalized, `weakK, `weakV
      ensures View() == Unbit(old(View()), id).(heap := old(heap)[id := o], col := old(col)[id := White(cw)],
                                                held := old(held) + {id})
    {
      ghost var s := View();
      ClearBits(id);
      heap := heap[id := o];
      col := col[id := White(cw)];
      held := held + {id};
      assert View() == Unbit(s, id).(heap := heap, col := col, held := held);
    }

    /** lgc.c `luaC_link` of a new closure, table, thread, prototype or closed upvalue. */
    method NewObject(id: Id, o: Obj)
      requires Inv(View()) && id !in heap && (Container(o) || (o.Upval? && o.home.Closed?))
      requires (o.Thread? ==> o.openup == {}) && Refs(o) <= held
      modifies `heap, `col, `rootgc, `sweepPos, `held, `finalized, `weakK, `weakV
      ensures Inv(View()) && View() == Linking(old(View()), id, o)
    {
      hide Inv, Refs, Container;
      NewObjectKeeps(View(), id, o);
      ghost var s := View();
      Admit(id, o);
      ghost var m := View();
      hide Unbit;
      rootgc := [id] + rootgc;
      if sweepPos != 0 { sweepPos := sweepPos + 1; }
      UnbitFrame(s, id);
      assert View() == m.(rootgc := rootgc, sweepPos := sweepPos);
    }

    /** lstring.c `luaS_newudata`. */
    method NewUserdata(id: Id, env: Value)
      requires Inv(View()) && id !in heap && InHand(env)
      modifies `heap, `col, `udatas, `sweepPos, `held, `finalized, `weakK, `weakV
      ensures Inv(View()) && View() == NewUdata(old(View()), id, Udata(Nil, env))
    {
      hide Inv;
      NewUserdataKeeps(View(), id, env);
      ghost var s := View();
      Admit(id, Udata(Nil, env));
      ghost var m := View();
      hide Unbit;
      if sweepPos > |rootgc| { sweepPos := sweepPos + 1; }
      udatas := [id] + udatas;
      UnbitFrame(s, id);
      assert View() == m.(udatas := udatas, sweepPos := sweepPos);
    }

    /** lstring.c `newlstr`. */
    method NewStr(id: Id, b: nat)
      requires Inv(View()) && id !in heap && b < |strt|
      modifies `heap, `col, `strt, `held, `finalized, `weakK, `weakV
      ensures Inv(View()) && View() == NewString(old(View()), id, b)
    {
      hide Inv;
      NewStringKeeps(View(), id, b);
      ghost var s := View();
      Admit(id, Str(false));
      ghost var m := View();
      strt := strt[b := strt[b] + {id}];
      assert View() == m.(strt := strt);
    }

    /** lstring.c `luaS_newlstr` on a hit. Any string in the table may be found, also one that
        is dead and about to be swept. */
    method UseString(x: Id)
      requires Inv(View()) && x in heap && heap[x].Str?
      modifies `col, `held
      ensures Inv(View()) && View() == Resurrect(old(View()), x)
    {
      hide Inv;
      UseStringKeeps(View(), x);
      ghost var s := View();
      if x in col && col[x] == White(!cw) { col := col[x := White(cw)]; }
      held := held + {x};
      assert View() == s.(col := col, held := held);
    }

    /** lstring.c `luaS_resize`. */
    method ResizeStrings(t: seq<set<Id>>)
      requires Inv(View()) && 0 < |t| && OwnedStrings(heap, t)
      modifies `strt
      ensures Inv(View()) && strt == if phase == SweepString then old(strt) else t
    {
      hide Inv, OwnedStrings;
      if phase != SweepString {
        ResizeKeeps(View(), t);
        strt := t;
      }
    }

    /** lfunc.c `luaF_findupval`: the upvalue of a stack slot of a thread in hand, brought back
        if it was dead, or a new one. */
    method FindUpval(th: Id, i: nat, id: Id) returns (u: Id)
      requires Inv(View()) && th in held && th in heap && heap[th].Thread? && i < |heap[th].stack| && id !in heap
      modifies `heap, `col, `held, `finalized, `weakK, `weakV
      ensures Inv(View()) && u in held
      ensures u in heap && heap[u] == Upval(Open(th, i)) && (u in old(heap) ==> old(heap)[u] == heap[u])
        && (u !in old(heap) ==> u == id)
      ensures View() == if u in old(heap) then Resurrect(old(View()), u) else Found(old(View()), th, i, u)
    {
      hide Inv, Points;
      ghost var s := View();
      HeldLive(s, th);
      if w :| w in heap[th].openup && w in heap && heap[w] == Upval(Open(th, i)) {
        u := w;
        FindOldKeeps(s, th, i, u);
        if u in col && col[u] == White(!cw) { col := col[u := White(cw)]; }
        held := held + {u};
        assert View() == s.(col := col, held := held);
      } else {
        u := id;
        FoundKeeps(s, th, i, u);
        Admit(u, Upval(Open(th, i)));
        ghost var m := View();
        heap := heap[th := heap[th].(openup := heap[th].openup + {u})];
        assert View() == m.(heap := heap);
        assert heap == WithOpen(s.heap, th, i, u);
      }
    }

    /** Closing a live upvalue while not marking. */
    method CloseResting(u: Id)
      requires Inv(View()) && phase != Propagate && u in heap && u in col && IsOpen(heap[u]) && col[u] != White(!cw)
      modifies `heap, `col, `rootgc, `sweepPos
      ensures Inv(View()) && Survive(old(View()), View())
      ensures u in heap && heap[u] == Upval(Closed(UpvalValue(old(heap), old(heap)[u].home)))
      ensures ClosedOne(old(View()), u, View())
    {
      hide Inv, WithClosed, Points, Survive, LiveStays;
      ghost var s := View();
      OwnerIsThread(s, u);
      ClosedKeeps(s, u);
      ClosedSelf(s.heap, u);
      CloseQuiet(u);
      SurviveLive(s, View());
    }

    /** Closing a dead upvalue frees it. */
    method CloseDead(u: Id)
      requires Inv(View()) && u in heap && u in col && IsOpen(heap[u]) && col[u] == White(!cw)
      modifies `heap, `col, `held
      ensures Inv(View()) && Survive(old(View()), View()) && ClosedOne(old(View()), u, View())
    {
      hide Inv, WithClosed, Points, Survive, LiveStays;
      ghost var s := View();
      OwnerIsThread(s, u);
      FreedUpvalKeeps(s, u);
      FreeUpval(u);
      SurviveLive(s, View());
    }

    /** Closing a live upvalue while marking. */
    method CloseMarked(u: Id)
      requires Inv(View()) && phase == Propagate && u in heap && u in col && IsOpen(heap[u]) && col[u] != White(!cw)
      modifies `heap, `col, `gray, `rootgc, `sweepPos
      ensures Inv(View()) && Survive(old(View()), View())
      ensures u in heap && heap[u] == Upval(Closed(UpvalValue(old(heap), old(heap)[u].home)))
      ensures ClosedOne(old(View()), u, View())
    {
      hide Inv, WithClosed, Points, Survive, LiveStays;
      ghost var s := View();
      InvKeys(s);
      OwnerIsThread(s, u);
      CloseMarking(u);
      ClosedSelf(s.heap, u);
      SurviveKeys(s, View());
    }

    /** lfunc.c `luaF_close` for one open upvalue of a live thread. */
    method CloseUpval(u: Id)
      requires Inv(View()) && u in heap && IsOpen(heap[u])
      modifies `heap, `col, `gray, `rootgc, `sweepPos, `held
      ensures Inv(View()) && Survive(old(View()), View())
      ensures u in old(held) ==> u in heap && heap[u] == Upval(Closed(UpvalValue(old(heap), old(heap)[u].home)))
      ensures ClosedOne(old(View()), u, View())
    {
      hide Inv, WithClosed, Points, Survive, LiveStays, ClosedOne;
      ghost var s := View();
      InvKeys(s);
      if col[u] == White(!cw) {
        NotHeld(s, u);
        CloseDead(u);
      } else if phase != Propagate {
        CloseResting(u);
      } else {
        CloseMarked(u);
      }
    }

    method FreeUpval(u: Id)
      requires u in heap && IsOpen(heap[u])
      modifies `heap, `col
      ensures View() == FreedUpval(old(View()), u)
    {
      ghost var s := View();
      var th := heap[u].home.owner;
      if th in heap && heap[th].Thread? {
        heap := (heap - {u})[th := heap[th].(openup := heap[th].openup - {u})];
      } else {
        heap := heap - {u};
      }
      col := col - {u};
      assert View() == s.(heap := heap, col := col);
    }

    /** Closing while marking: a gray upvalue turns black and its value is marked. */
    method CloseMarking(u: Id)
      requires Inv(View()) && phase == Propagate && u in heap && u in col && IsOpen(heap[u]) && col[u] != White(!cw)
      modifies `heap, `col, `gray, `rootgc, `sweepPos
      ensures Inv(View()) && heap == WithClosed(old(heap), u) && heap.Keys == old(heap).Keys
      ensures rootgc == [u] + old(rootgc) && sweepPos == if old(sweepPos) == 0 then 0 else old(sweepPos) + 1
    {
      hide Inv, WithClosed, Points, Marking, MarkStep, RefsIn, ClosedWith;
      ghost var s := View();
      var c := if col[u] == Gray then Black else col[u];
      CloseEntry(s, u, c);
      LinkUpval(u, c);
      ghost var m := View();
      ghost var todo := Todo(s) - {u};
      MarkingRefs(m, todo + {u});
      MarkStepRefl(m);
      if c == Black {
        MarkValue(heap[u].home.v);
      }
      CloseFinish(s, m, View(), u, c);
    }

    method LinkUpval(u: Id, c: Colour)
      requires u in heap && IsOpen(heap[u])
      modifies `heap, `col, `rootgc, `sweepPos
      ensures View() == ClosedWith(old(View()), u, c)
      ensures rootgc == [u] + old(rootgc) && sweepPos == if old(sweepPos) == 0 then 0 else old(sweepPos) + 1
    {
      hide WithClosed;
      ghost var s := View();
      heap := WithClosed(heap, u);
      col := col[u := c];
      rootgc := [u] + rootgc;
      if sweepPos != 0 { sweepPos := sweepPos + 1; }
      assert View() == s.(heap := heap, col := col, rootgc := rootgc, sweepPos := sweepPos);
    }

    /** A store into a userdata, closure, prototype or closed upvalue with `luaC_barrier` or
        `luaC_objbarrier` on the stored value. */
    method StoreForward(x: Id, o: Obj, v: Value)
      requires Inv(View()) && Writable(heap, held, x, o) && InHand(v) && !o.Table? && !o.Thread?
      requires Refs(o) <= Refs(heap[x]) + RefSet([v])
      modifies `heap, `col, `gray
      ensures Inv(View()) && heap == old(heap)[x := o]
    {
      hide Inv, Writable, Refs, RefsIn;
      ghost var s := View();
      WritableIn(heap, held, x, o);
      InvKeys(s);
      if phase != Propagate {
        ForwardQuiet(s, x, o, v);
        heap := heap[x := o];
        if v.Ref? && v.id in col && col[v.id].White? && col[x] == Black {
          col := col[x := White(cw)];
        }
      } else {
        StoreForwardMarking(x, o, v);
      }
    }

    method StoreForwardMarking(x: Id, o: Obj, v: Value)
      requires Inv(View()) && phase == Propagate && Writable(heap, held, x, o) && InHand(v) && !o.Table? && !o.Thread?
      requires Refs(o) <= Refs(heap[x]) + RefSet([v])
      modifies `heap, `col, `gray
      ensures Inv(View()) && heap == old(heap)[x := o]
    {
      hide Inv, Writable, Refs, RefsIn, MarkStep;
      ghost var s := View();
      WritableIn(heap, held, x, o);
      ForwardRefs(s, x, o);
      if v.Ref? { HeldLive(s, v.id); }
      heap := heap[x := o];
      ghost var m := View();
      MarkStepRefl(m);
      if v.Ref? && col[v.id].White? && col[x] == Black {
        ReallyMark(v.id);
      }
      ForwardMarked(s, View(), x, o, v);
    }

    /** A store into a table with `luaC_barriert` on the value and, if it is new, on the key.
        Setting the metatable, resizing and rehashing are such stores too. */
    method StoreTable(x: Id, o: Obj, k: Value, v: Value)
      requires Inv(View()) && Writable(heap, held, x, o) && InHand(k) && InHand(v) && o.Table?
      requires Refs(o) + Keys(o) <= Refs(heap[x]) + Keys(heap[x]) + RefSet([k, v])
      modifies `heap, `col, `grayagain
      ensures Inv(View()) && heap == old(heap)[x := o]
    {
      hide Inv, Writable, Refs, Keys;
      ghost var s := View();
      var barrier := NeedsBarrier(x, o, k, v);
      if barrier {
        TableWithBarrier(s, x, o);
        heap := heap[x := o];
        BarrierBack(x);
      } else {
        TableNoBarrier(s, x, o, k, v);
        heap := heap[x := o];
      }
    }

    /** lgc.c `luaC_barrierback`. */
    method BarrierBack(x: Id)
      modifies `col, `grayagain
      ensures View() == BackBarrier(old(View()), x)
    {
      ghost var s := View();
      col := col[x := Gray];
      grayagain := [x] + grayagain;
      assert View() == s.(col := col, grayagain := grayagain);
    }

    /** The tests of `luaC_barriert` for the key, if it is new, and for the value. */
    method NeedsBarrier(x: Id, o: Obj, k: Value, v: Value) returns (b: bool)
      requires Inv(View()) && Writable(heap, held, x, o) && InHand(k) && InHand(v) && o.Table?
      ensures x in heap && x in col && (b ==> col[x] == Black) && (k.Ref? ==> k.id in heap && k.id in col)
        && (v.Ref? ==> v.id in heap && v.id in col)
      ensures b <==> col[x] == Black && ((k.Ref? && col[k.id].White? && k.id !in Keys(heap[x]))
                                         || (v.Ref? && col[v.id].White?))
    {
      hide Inv, Writable, Refs, Keys;
      WritableIn(heap, held, x, o);
      InvKeys(View());
      if k.Ref? { HeldLive(View(), k.id); }
      if v.Ref? { HeldLive(View(), v.id); }
      var known := k.Ref? && k.id in Keys(heap[x]);
      var whiteKey := k.Ref? && col[k.id].White? && !known;
      var whiteVal := v.Ref? && col[v.id].White?;
      b := col[x] == Black && (whiteKey || whiteVal);
    }

    /** Stores into a thread: its stack and its table of globals. There is no barrier. */
    method StoreThread(x: Id, o: Obj)
      requires Inv(View()) && Writable(heap, held, x, o) && o.Thread?
      modifies `heap
      ensures Inv(View()) && heap == old(heap)[x := o]
    {
      hide Inv, Refs;
      ghost var s := View();
      WritableLegal(s, x, o);
      LegalThread(s, x, o);
      heap := heap[x := o];
    }

    /** A store through an open upvalue goes to the stack slot. */
    method StoreSlot(u: Id, v: Value)
      requires Inv(View()) && u in held && u in heap && IsOpen(heap[u]) && InHand(v)
      modifies `heap
      ensures Inv(View()) && heap.Keys == old(heap).Keys
      ensures u in heap && UpvalValue(heap, heap[u].home) == v
      ensures SlotThere(old(View()), u) && View() == SlotStored(old(View()), u, v)
    {
      hide Inv;
      ghost var s := View();
      OwnerIsThread(s, u);
      SlotStoredKeeps(s, u, v);
      var th := heap[u].home.owner;
      heap := heap[th := heap[th].(stack := heap[th].stack[heap[u].home.slot := v])];
      assert heap.Keys == s.heap.Keys;
    }

    /** The metatables of the basic types are roots that are written without a barrier. */
    method SetBasicMetatables(vs: seq<Value>)
      requires Inv(View()) && forall v :: v in vs && v.Ref? ==> v in mts || v.id in held
      modifies `mts
      ensures Inv(View()) && mts == vs
    {
      ghost var s := View();
      RunningIsThread(s);
      RootChange(s, s.(mts := vs));
      hide Inv;
      mts := vs;
    }

    method SwitchThread(th: Id)
      requires Inv(View()) && th in held && th in heap && heap[th].Thread?
      modifies `running
      ensures Inv(View()) && running == th
    {
      ghost var s := View();
      RootChange(s, s.(running := th));
      hide Inv;
      running := th;
    }

    /** The start of lgc.c `luaC_fullgc` when no sweep is under way. */
    method BeginFullGc()
      requires Inv(View()) && (phase == Pause || phase == Propagate)
      modifies `gray, `grayagain, `weak, `sweepStr, `sweepPos, `phase
      ensures Inv(View()) && View() == SweepAll(old(View()))
    {
      hide Inv;
      SweepAllKeeps(View());
      ResetLists();
      ghost var m := View();
      hide Reset;
      sweepStr := 0;
      sweepPos := 0;
      phase := SweepString;
      assert View() == m.(sweepStr := 0, sweepPos := 0, phase := SweepString);
    }

    // ----- Runs -----

    /** Operations on what the program has in its hands. */
    method MutateHands(op: Op)
      requires Inv(View()) && (op.Hold? || op.Follow? || op.LetGo?)
      modifies `held
      ensures Inv(View()) && Stepped(old(View()), op, View())
    {
      hide Inv, Points;
      match op
      case Hold(x) =>
        if x == main || x == running || registry == Ref(x) || Ref(x) in mts { HoldRoot(x); }
      case Follow(x, y) =>
        if x in held && x in heap && Points(heap, x, y) { Load(x, y); }
      case LetGo =>
        Release();
    }

    /** Roots that the program changes. */
    method MutateRoots(op: Op)
      requires Inv(View()) && (op.WriteMetatables? || op.Resume?)
      modifies `mts, `running
      ensures Inv(View()) && Stepped(old(View()), op, View())
    {
      hide Inv;
      match op
      case WriteMetatables(vs) =>
        if forall v :: v in vs && v.Ref? ==> v in mts || v.id in held { SetBasicMetatables(vs); }
      case Resume(th) =>
        if th in held && th in heap && heap[th].Thread? { SwitchThread(th); }
    }

    /** New objects other than strings. */
    method MutateNew(op: Op)
      requires Inv(View()) && (op.Create? || op.CreateUdata?)
      modifies this
      ensures Inv(View()) && Stepped(old(View()), op, View()) && old(heap).Keys <= heap.Keys
    {
      hide Inv, Refs, OwnedStrings, Container, Unbit, Linking, NewUdata;
      NewKeys(View());
      match op
      case Create(id, o) =>
        if id !in heap && (Container(o) || (o.Upval? && o.home.Closed?)) && (o.Thread? ==> o.openup == {})
          && Refs(o) <= held {
          NewObject(id, o);
        }
      case CreateUdata(id, env) =>
        if id !in heap && InHand(env) { NewUserdata(id, env); }
    }

    /** New strings, strings from the table, and the table itself. */
    method MutateStrings(op: Op)
      requires Inv(View()) && (op.CreateString? || op.FindString? || op.Rehash?)
      modifies this
      ensures Inv(View()) && Stepped(old(View()), op, View()) && old(heap).Keys <= heap.Keys
    {
      hide Inv, OwnedStrings, Unbit, NewString, Resurrect;
      NewKeys(View());
      match op
      case CreateString(id, b) =>
        if id !in heap && b < |strt| { NewStr(id, b); }
      case FindString(x) =>
        if x in heap && heap[x].Str? { UseString(x); }
      case Rehash(t) =>
        if 0 < |t| && OwnedStrings(heap, t) { ResizeStrings(t); }
    }

    /** Upvalues of stack slots. */
    method MutateUpvals(op: Op)
      requires Inv(View()) && (op.Capture? || op.Close? || op.WriteSlot?)
      modifies this
      ensures Inv(View()) && Stepped(old(View()), op, View()) && Survive(old(View()), View())
    {
      hide Inv, Survive, ClosedOne, Found, Resurrect, SlotStored;
      ghost var s := View();
      SurviveRefl(s);
      match op
      case Capture(th, i, id) =>
        if th in held && th in heap && heap[th].Thread? && i < |heap[th].stack| && id !in heap {
          var u := FindUpval(th, i, id);
          CaptureKeys(s, View(), th, i, u);
          CaptureDone(s, View(), th, i, id, u);
        }
      case Close(u) =>
        if u in heap && IsOpen(heap[u]) { CloseUpval(u); }
      case WriteSlot(u, v) =>
        OpenSlots(s);
        if u in held && u in heap && IsOpen(heap[u]) && InHand(v) {
          StoreSlot(u, v);
          SurviveKeys(s, View());
        }
    }

    /** Stores into objects. */
    method MutateStores(op: Op)
      requires Inv(View()) && (op.Write? || op.WriteTable? || op.WriteThread?)
      modifies `heap, `col, `gray, `grayagain
      ensures Inv(View()) && Stepped(old(View()), op, View()) && old(heap).Keys <= heap.Keys
    {
      hide Inv, Stepped;
      match op
      case Write(x, o, v) => WriteForward(x, o, v);
      case WriteTable(x, o, k, v) => WriteEntry(x, o, k, v);
      case WriteThread(x, o) => WriteStack(x, o);
    }

    method WriteForward(x: Id, o: Obj, v: Value)
      requires Inv(View())
      modifies `heap, `col, `gray
      ensures Inv(View()) && Stepped(old(View()), Write(x, o, v), View()) && old(heap).Keys <= heap.Keys
    {
      hide Inv, Refs, Keys, Writable, Stepped;
      ghost var s := View();
      if Writable(heap, held, x, o) && InHand(v) && !o.Table? && !o.Thread? {
        WritableIn(heap, held, x, o);
        if Refs(o) <= Refs(heap[x]) + RefSet([v]) { StoreForward(x, o, v); }
      }
      ForwardStepped(s, x, o, v, View());
    }

    method WriteEntry(x: Id, o: Obj, k: Value, v: Value)
      requires Inv(View())
      modifies `heap, `col, `grayagain
      ensures Inv(View()) && Stepped(old(View()), WriteTable(x, o, k, v), View()) && old(heap).Keys <= heap.Keys
    {
      hide Inv, Refs, Keys, Writable, Stepped;
      ghost var s := View();
      if Writable(heap, held, x, o) && InHand(k) && InHand(v) && o.Table? {
        WritableIn(heap, held, x, o);
        if Refs(o) + Keys(o) <= Refs(heap[x]) + Keys(heap[x]) + RefSet([k, v]) { StoreTable(x, o, k, v); }
      }
      SetStepped(s, x, o, k, v, View());
    }

    method WriteStack(x: Id, o: Obj)
      requires Inv(View())
      modifies `heap
      ensures Inv(View()) && Stepped(old(View()), WriteThread(x, o), View()) && old(heap).Keys <= heap.Keys
    {
      hide Inv, Refs, Keys, Writable;
      if Writable(heap, held, x, o) && o.Thread? {
        WritableIn(heap, held, x, o);
        StoreThread(x, o);
      }
    }

    /** One operation of mutator or collector. The collector runs at safe points only, when the
        mutator holds nothing outside the heap. */
    method Perform(op: Op)
      requires Inv(View())
      modifies this
      ensures Inv(View()) && Survive(old(View()), View()) && Stepped(old(View()), op, View())
    {
      hide Inv, Survive, Stepped;
      ghost var s := View();
      SurviveRefl(s);
      match op
      case Hold(_) => MutateHands(op); SurviveKeys(s, View());
      case Follow(_, _) => MutateHands(op); SurviveKeys(s, View());
      case LetGo => MutateHands(op); SurviveKeys(s, View());
      case WriteMetatables(_) => MutateRoots(op); SurviveKeys(s, View());
      case Resume(_) => MutateRoots(op); SurviveKeys(s, View());
      case Create(_, _) => MutateNew(op); SurviveKeys(s, View());
      case CreateUdata(_, _) => MutateNew(op); SurviveKeys(s, View());
      case CreateString(_, _) => MutateStrings(op); SurviveKeys(s, View());
      case FindString(_) => MutateStrings(op); SurviveKeys(s, View());
      case Rehash(_) => MutateStrings(op); SurviveKeys(s, View());
      case Capture(_, _, _) => MutateUpvals(op);
      case Close(_) => MutateUpvals(op);
      case WriteSlot(_, _) => MutateUpvals(op);
      case Write(_, _, _) => MutateStores(op); SurviveKeys(s, View());
      case WriteTable(_, _, _, _) => MutateStores(op); SurviveKeys(s, View());
      case WriteThread(_, _) => MutateStores(op); SurviveKeys(s, View());
      case Step => Work();
      case FullGc => Restarted(op);
      case Restart => Restarted(op);
    }

    method Work()
      requires Inv(View())
      modifies this
      ensures Inv(View()) && Survive(old(View()), View()) && Stepped(old(View()), Step, View())
    {
      hide Inv, Survive, Worked;
      SurviveRefl(View());
      if held == {} { SingleStep(); }
    }

    /** The steps of lgc.c `luaC_fullgc` that are not those of `singlestep`. */
    method Restarted(op: Op)
      requires Inv(View()) && (op.FullGc? || op.Restart?)
      modifies `gray, `grayagain, `weak, `col, `sweepStr, `sweepPos, `phase
      ensures Inv(View()) && Survive(old(View()), View()) && Stepped(old(View()), op, View())
    {
      hide Inv, Survive;
      ghost var s := View();
      SurviveKeys(s, s);
      if op.FullGc? {
        if phase == Pause || phase == Propagate { BeginFullGc(); }
      } else if held == {} && phase == Finalize {
        PauseStep();
      }
      SurviveKeys(s, View());
    }

    /** Over every interleaving of mutator operations and collector steps: each operation does what
        it should, the invariant holds throughout, no object that is reachable before an operation
        is freed by it, and no surviving object refers to a freed one. */
    method Run(ops: seq<Op>) returns (ghost trace: seq<State>)
      requires Inv(View())
      modifies this
      ensures |trace| == |ops| + 1 && trace[0] == old(View()) && trace[|ops|] == View()
      ensures forall i :: 0 <= i <= |ops| ==> Inv(trace[i])
      ensures forall i :: 0 <= i < |ops| ==> Stepped(trace[i], ops[i], trace[i + 1])
      ensures forall i, x :: 0 <= i < |ops| && Reachable(trace[i], x) ==> x in trace[i + 1].heap
      ensures forall i, x, y :: 0 <= i <= |ops| && Live(trace[i], x) && Points(trace[i].heap, x, y) ==>
        y in trace[i].heap
    {
      hide Inv, Survive, Points, Reachable, Stepped;
      trace := [View()];
      for i := 0 to |ops|
        invariant |trace| == i + 1 && trace[0] == old(View()) && trace[i] == View()
        invariant forall j :: 0 <= j <= i ==> Inv(trace[j])
        invariant forall j :: 0 <= j < i ==> Stepped(trace[j], ops[j], trace[j + 1]) && Survive(trace[j], trace[j + 1])
      {
        Perform(ops[i]);
        trace := trace + [View()];
      }
      forall i, x | 0 <= i < |ops| && Reachable(trace[i], x)
        ensures x in trace[i + 1].heap
      {
        assert Survive(trace[i], trace[i + 1]);
        ReachableSurvives(trace[i], trace[i + 1], x);
      }
      forall i, x, y | 0 <= i <= |ops| && Live(trace[i], x) && Points(trace[i].heap, x, y)
        ensures y in trace[i].heap
      {
        LiveRefs(trace[i], x, y);
      }
    }
  }

  /** Creating an object frees none. */
  lemma NewKeys(s: State)
    ensures forall id, o :: s.heap.Keys <= Linking(s, id, o).heap.Keys
    ensures forall id, o :: s.heap.Keys <= NewUdata(s, id, o).heap.Keys
    ensures forall id, b: nat :: b < |s.strt| ==> s.heap.Keys <= NewString(s, id, b).heap.Keys
    ensures forall x :: x in s.heap ==> s.heap.Keys <= Resurrect(s, x).heap.Keys
  {
  }

  lemma CaptureDone(s: State, t: State, th: Id, i: nat, id: Id, u: Id)
    requires Capturable(s, th, i, id) && (u in s.heap ==> s.heap[u] == Upval(Open(th, i))) && (u !in s.heap ==> u == id)
    requires t == if u in s.heap then Resurrect(s, u) else Found(s, th, i, u)
    ensures Captured(s, th, i, id, t)
  {
  }

  lemma OpenSlots(s: State)
    requires Inv(s)
    ensures forall u :: u in s.heap && IsOpen(s.heap[u]) ==> SlotThere(s, u)
  {
    hide Owned, Survivors, Palette, InPhase;
  }

  /** A live object refers to objects of the heap only. */
  lemma LiveRefs(s: State, x: Id, y: Id)
    requires Inv(s) && Live(s, x) && Points(s.heap, x, y)
    ensures y in s.heap
  {
    assert Live(s, y);
  }

  lemma CaptureKeys(s: State, t: State, th: Id, i: nat, u: Id)
    requires th in s.heap && s.heap[th].Thread?
    requires t == if u in s.heap then Resurrect(s, u) else Found(s, th, i, u)
    ensures Survive(s, t)
  {
  }

  /** Nothing reachable leaves the heap. */
  lemma ReachableSurvives(s: State, t: State, x: Id)
    requires Inv(s) && Survive(s, t) && Reachable(s, x)
    ensures x in t.heap
  {
    ReachableIsLive(s, x);
  }
}
