/** The atomic step that ends marking: handing lists over, separating userdata, clearing
    weak tables and flipping the white. */
module GcAtomic {
  import opened GcState
  import opened GcMark
  import opened GcTrace
  import opened GcGrow

  function Ids(q: seq<Id>): set<Id> {
    set x | x in q
  }

  // ----- Starting a cycle -----

  function Reset(s: State): State {
    s.(gray := [], grayagain := [], weak := [])
  }

  lemma ResetMarking(s: State)
    requires Inv(s) && Rested(s)
    ensures Marking(Reset(s), Todo(Reset(s)))
  {
    hide Points, Linked, OwnedStrings, OwnedRoots, Traced;
    var t := Reset(s);
    assert Survivors(t) by {
      assert forall x :: Live(t, x) == Live(s, x);
      assert forall x :: Root(t, x) == Root(s, x);
    }
    forall x | x in t.col
      ensures t.col[x] != White(!t.cw)
    {
      if x in s.tmu {
        assert Root(s, x) && Live(s, x);
      }
    }
    forall x | x in t.heap && Marked(t, x)
      ensures x in Todo(t)
    {
      assert x in s.tmu;
    }
    assert forall x :: !Listed(t, x);
    forall x | x in t.heap && x in t.col && Container(t.heap[x])
      ensures t.col[x] != Gray
    {
      if x in s.tmu { TmuIsUdata(s, x); }
    }
  }

  lemma TmuIsUdata(s: State, x: Id)
    requires Owned(s) && x in s.tmu
    ensures x in s.heap && s.heap[x].Udata?
  {
  }

  /** A step within the propagate phase keeps its invariant. */
  lemma StillPropagating(s: State, t: State)
    requires Propagating(s) && Marking(t, Todo(s)) && Grown(s, t) && CleanedStar(s.heap, t.heap)
    ensures Propagating(t)
  {
    hide Points, Owned, Survivors, Palette, Lists, Shape, Traced;
    assert Todo(s) <= Todo(t) by {
      hide Pending, NoDead, Marked;
    }
    hide Todo;
  }

  lemma CleanedOnce(h: Heap, h': Heap)
    requires Cleaned(h, h')
    ensures CleanedStar(h, h')
  {
    forall x | x in h
      ensures ObjCleaned(h[x], h'[x])
    {
    }
  }

  lemma RootRefs(s: State)
    requires Inv(s)
    ensures s.main in s.heap && s.heap[s.main].Thread?
    ensures s.heap[s.main].gt.Ref? ==> s.heap[s.main].gt.id in s.heap
    ensures s.registry.Ref? ==> s.registry.id in s.heap
    ensures s.running in s.heap
    ensures forall v :: v in s.mts && v.Ref? ==> v.id in s.heap
  {
    hide Owned, Palette, Linked, InPhase;
    assert Root(s, s.main);
    var gt := s.heap[s.main].gt;
    assert gt.Ref? ==> Points(s.heap, s.main, gt.id);
    assert s.registry.Ref? ==> Root(s, s.registry.id);
    forall v | v in s.mts && v.Ref?
      ensures v.id in s.heap
    {
      assert Root(s, v.id);
    }
  }

  lemma RootsMarkedInv(s: State, t: State)
    requires Marking(s, Todo(s)) && MarkStep(s, t) && Marked(t, t.main) && MarkedV(t, t.registry)
    ensures Inv(t.(phase := Propagate))
  {
    hide Shape, Owned, Survivors, Palette, NoDead, Lists, Pending, Marked;
    assert Todo(t) == Todo(s);
    hide MarkStep;
    MarkKeepsMarking(s, t, Todo(s));
    PhaseIrrelevant(t, Propagate);
  }

  lemma PhaseIrrelevant(t: State, p: Phase)
    requires Marking(t, Todo(t))
    ensures var r := t.(phase := p); Marking(r, Todo(r))
    ensures forall x :: Marked(t.(phase := p), x) == Marked(t, x)
  {
    hide Points, OwnedStrings, OwnedRoots, Linked;
    var r := t.(phase := p);
    assert forall x :: Live(r, x) == Live(t, x);
    assert forall x :: Root(r, x) == Root(t, x);
    assert forall x :: Listed(r, x) == Listed(t, x);
    assert Todo(r) == Todo(t);
    forall x | x in r.heap && Marked(r, x) && x !in r.gray && x !in Todo(r)
      ensures Traced(r, x)
    {
      assert Traced(t, x);
      SameTraced(t, r, x);
    }
  }

  lemma UpvalRefIn(h: Heap, u: Id)
    requires RefsIn(h) && u in h && h[u].Upval?
    ensures UpvalValue(h, h[u].home).Ref? ==> UpvalValue(h, h[u].home).id in h
  {
    var v := UpvalValue(h, h[u].home);
    assert v.Ref? ==> Points(h, u, v.id);
  }

  lemma UpvalTraced(t: State, u: Id)
    requires u in t.heap && t.heap[u].Upval? && MarkedV(t, UpvalValue(t.heap, t.heap[u].home))
    ensures FullyTraced(t, u)
  {
  }

  lemma TraceStays(m: State, t: State, w: Id)
    requires MarkStep(m, t) && w in m.heap && FullyTraced(m, w)
    ensures FullyTraced(t, w)
  {
    hide Points, Settled, GrayGrew;
  }

  // ----- Handing lists over to `gray` -----

  /** Re-marking the values of gray open upvalues takes open upvalues off the to-do list. */
  lemma RemarkDone(s: State, t: State, todo: set<Id>)
    requires Marking(s, todo + set x | x in s.heap && IsOpen(s.heap[x]))
    requires MarkStep(s, t)
    requires forall u :: u in s.heap && IsOpen(s.heap[u]) && Marked(s, u) ==> FullyTraced(t, u)
    ensures Marking(t, todo)
  {
    hide Shape, Owned, Survivors, Palette, NoDead, MarkStep, Points, FullyTraced, Pending, Lists;
    MarkKeepsMarking(s, t, todo + set x | x in s.heap && IsOpen(s.heap[x]));
    ShapeKeys(s);
    RemarkPending(s, t, todo);
  }

  lemma RemarkPending(s: State, t: State, todo: set<Id>)
    requires s.col.Keys == s.heap.Keys && MarkStep(s, t) && Lists(t)
    requires Pending(t, todo + set x | x in s.heap && IsOpen(s.heap[x]))
    requires forall u :: u in s.heap && IsOpen(s.heap[u]) && Marked(s, u) ==> FullyTraced(t, u)
    ensures Pending(t, todo)
  {
    hide Points, Strong, GrayGrew;
    forall x | x in t.heap && Marked(t, x) && x !in t.gray && x !in todo
      ensures Traced(t, x)
    {
      if IsOpen(s.heap[x]) {
        assert x !in t.weak;
        if !Marked(s, x) {
          assert Settled(t.heap, t.col, t.gray, x);
          assert FullyTraced(t, x) by { OpenTraced(t, x); }
        }
      }
    }
  }

  lemma OpenTraced(t: State, x: Id)
    requires x in t.heap && IsOpen(t.heap[x]) && AllMarked(t.heap, t.col, x)
    ensures FullyTraced(t, x)
  {
  }

  /** `g->gray = g->weak; g->weak = NULL`. */
  lemma WeakToGray(s: State, todo: set<Id>)
    requires Marking(s, todo + Ids(s.weak)) && s.gray == []
    ensures Marking(s.(gray := s.weak, weak := []), todo)
  {
    hide Points, Strong, OwnedStrings, OwnedRoots, Linked;
    var t := s.(gray := s.weak, weak := []);
    assert forall x :: Live(t, x) == Live(s, x);
    assert forall x :: Root(t, x) == Root(s, x);
    assert forall x :: Listed(t, x) == Listed(s, x);
    assert Lists(t);
    forall x | x in t.heap && Marked(t, x) && x !in t.gray && x !in todo
      ensures Traced(t, x)
    {
      assert Marked(s, x) && Traced(s, x);
      assert FullyTraced(s, x);
      SameTrace(s, t, x);
    }
  }

  /** `g->gray = g->grayagain; g->grayagain = NULL`. */
  lemma AgainToGray(s: State, todo: set<Id>)
    requires Marking(s, todo + Ids(s.grayagain)) && s.gray == []
    ensures Marking(s.(gray := s.grayagain, grayagain := []), todo)
  {
    hide Points, Strong, OwnedStrings, OwnedRoots, Linked;
    var t := s.(gray := s.grayagain, grayagain := []);
    assert forall x :: Live(t, x) == Live(s, x);
    assert forall x :: Root(t, x) == Root(s, x);
    assert forall x :: Listed(t, x) == Listed(s, x);
    assert Lists(t);
    forall x | x in t.heap && Marked(t, x) && x !in t.gray && x !in todo
      ensures Traced(t, x)
    {
      assert Marked(s, x) && Traced(s, x);
      if x in s.weak { SameWeakTrace(s, t, x); } else { SameTrace(s, t, x); }
    }
  }

  lemma SameTrace(s: State, t: State, x: Id)
    requires t.heap == s.heap && t.col == s.col && x in s.heap && FullyTraced(s, x)
    ensures FullyTraced(t, x)
  {
    hide Points, Strong;
    assert forall y :: Marked(t, y) == Marked(s, y);
  }

  lemma SameWeakTrace(s: State, t: State, x: Id)
    requires t.heap == s.heap && t.col == s.col && x in s.heap && WeakTraced(s, x)
    requires t.weakK == s.weakK && t.weakV == s.weakV
    ensures WeakTraced(t, x)
  {
    assert forall v :: MarkedV(t, v) == MarkedV(s, v);
  }

  lemma PendingWider(s: State, todo: set<Id>, todo': set<Id>)
    requires Marking(s, todo) && todo <= todo'
    ensures Marking(s, todo')
  {
    hide Shape, Owned, Survivors, Palette, NoDead, Lists, Traced;
  }

  // ----- Userdata awaiting finalization -----

  predicate HasGc(h: Heap, u: Id) {
    u in h && h[u].Udata? && h[u].mt.Ref? && h[u].mt.id in h && h[h[u].mt.id].Table? && h[h[u].mt.id].gcTM
  }

  /** lgc.c `luaC_separateudata` moves exactly these. */
  predicate Separable(s: State, u: Id) {
    u in s.col && s.col[u].White? && u !in s.finalized && HasGc(s.heap, u)
  }

  function Pick(s: State, us: seq<Id>, b: bool): seq<Id> {
    if us == [] then [] else
      var u := us[|us| - 1];
      Pick(s, us[..|us| - 1], b) + (if Separable(s, u) == b then [u] else [])
  }

  lemma {:induction false} PickFacts(s: State, us: seq<Id>, b: bool)
    ensures forall x :: x in Pick(s, us, b) <==> x in us && Separable(s, x) == b
    ensures NoDup(us) ==> NoDup(Pick(s, us, b))
  {
    if us != [] {
      var us', u := us[..|us| - 1], us[|us| - 1];
      assert us == us' + [u];
      PickFacts(s, us', b);
    }
  }

  function WhiteAmong(col: map<Id, Colour>, us: seq<Id>): set<Id> {
    set u | u in us && u in col && col[u].White?
  }

  lemma PickNone(s: State)
    ensures Pick(s, [], true) == [] && Pick(s, [], false) == [] && WhiteAmong(s.col, []) == {}
  {
  }

  lemma SeparateOne(s: State, us: seq<Id>, i: nat)
    requires i < |us| && NoDup(us)
    ensures us[i] !in WhiteAmong(s.col, us[..i])
    ensures var u := us[i];
      && Pick(s, us[..i + 1], true) == Pick(s, us[..i], true) + (if Separable(s, u) then [u] else [])
      && Pick(s, us[..i + 1], false) == Pick(s, us[..i], false) + (if Separable(s, u) then [] else [u])
      && WhiteAmong(s.col, us[..i + 1]) == WhiteAmong(s.col, us[..i]) + (if u in s.col && s.col[u].White? then {u}
                                                                         else {})
  {
    assert us[..i + 1][..i] == us[..i] && us[..i + 1] == us[..i] + [us[i]];
  }

  function SeparatedState(s: State): State {
    s.(finalized := s.finalized + WhiteAmong(s.col, s.udatas),
       udatas := Pick(s, s.udatas, false), tmu := s.tmu + Pick(s, s.udatas, true))
  }

  lemma SeparateOwned(s: State)
    requires OwnedRoots(s.heap, s.rootgc, s.udatas, s.tmu)
    ensures var t := SeparatedState(s); OwnedRoots(t.heap, t.rootgc, t.udatas, t.tmu)
  {
    hide Pick;
    PickFacts(s, s.udatas, true);
    PickFacts(s, s.udatas, false);
    var t, moved := SeparatedState(s), Pick(s, s.udatas, true);
    forall i, j | 0 <= i < j < |t.tmu|
      ensures t.tmu[i] != t.tmu[j]
    {
      if i < |s.tmu| <= j {
        assert t.tmu[j] == moved[j - |s.tmu|];
        assert moved[j - |s.tmu|] in moved;
      } else if i >= |s.tmu| {
        assert moved[i - |s.tmu|] != moved[j - |s.tmu|];
      }
    }
  }

  lemma SeparateKeeps(s: State)
    requires Marking(s, Ids(s.tmu))
    ensures var t := SeparatedState(s); Marking(t, Ids(t.tmu))
  {
    hide Points, OwnedStrings, Linked, Pick, Traced;
    PickFacts(s, s.udatas, true);
    PickFacts(s, s.udatas, false);
    var t := SeparatedState(s);
    assert OwnedRoots(t.heap, t.rootgc, t.udatas, t.tmu) by { SeparateOwned(s); }
    hide OwnedRoots;
    assert Survivors(t) by {
      assert forall x :: Live(t, x) == Live(s, x);
      forall x | Root(t, x)
        ensures Live(t, x)
      {
        if x in Pick(s, s.udatas, true) {
          UdatasIn(s, x);
        } else {
          assert Root(s, x);
        }
      }
    }
    assert forall x :: Listed(t, x) == Listed(s, x);
    assert Lists(t);
    forall x | x in t.heap && Marked(t, x) && x !in t.gray && x !in Ids(t.tmu)
      ensures Traced(t, x)
    {
      assert Marked(s, x) && x !in Ids(s.tmu) && Traced(s, x);
      SameTraced(s, t, x);
    }
  }

  lemma SameTraced(s: State, t: State, x: Id)
    requires t.heap == s.heap && t.col == s.col && t.weak == s.weak && t.weakK == s.weakK && t.weakV == s.weakV
    requires x in s.heap && Traced(s, x)
    ensures Traced(t, x)
  {
    if x in s.weak { SameWeakTrace(s, t, x); } else { SameTrace(s, t, x); }
  }

  lemma UdatasIn(s: State, x: Id)
    requires Shape(s) && Owned(s) && NoDead(s) && x in s.udatas
    ensures Live(s, x)
  {
  }

  /** `makewhite` followed by `reallymarkobject` on a userdata is a marking step, whatever
      colour it had. */
  lemma RemarkUdata(s: State, t: State, u: Id)
    requires u in s.heap && s.heap[u].Udata? && u in s.col && (s.col[u] == White(s.cw) || s.col[u] == Black)
    requires MarkStep(s.(col := s.col[u := White(s.cw)]), t) && Marked(t, u)
    ensures MarkStep(s, t) && AllMarked(t.heap, t.col, u)
  {
    var s' := s.(col := s.col[u := White(s.cw)]);
    hide AllMarked;
    assert Settled(t.heap, t.col, t.gray, u);
    assert t.col.Keys == s.col.Keys;
    var k := |t.gray| - |s.gray|;
    forall i | 0 <= i < k
      ensures t.gray[i] in s.col && s.col[t.gray[i]].White?
    {
      assert s'.col[t.gray[i]].White?;
    }
    assert GrayGrew(s, t);
  }

  /** With every userdata of `tmudata` marked through, nothing is left to revisit. */
  lemma TmuDone(s: State)
    requires Marking(s, Ids(s.tmu))
    requires forall u :: u in s.tmu ==> u in s.heap && AllMarked(s.heap, s.col, u)
    ensures Marking(s, {})
  {
    hide Points, OwnedStrings, Linked, Survivors, Palette;
    forall x | x in s.heap && Marked(s, x) && x !in s.gray
      ensures Traced(s, x)
    {
      if x in s.tmu {
        assert x !in s.weak;
        UdataTraced(s, x);
      }
    }
  }

  lemma UdataTraced(s: State, x: Id)
    requires x in s.heap && s.heap[x].Udata? && AllMarked(s.heap, s.col, x)
    ensures FullyTraced(s, x)
  {
  }

  // ----- Weak tables -----

  /** lgc.c `iscleared`, apart from its marking of strings. */
  predicate Cleared(s: State, v: Value, isKey: bool) {
    v.Ref? && v.id in s.heap && v.id in s.col && !s.heap[v.id].Str? &&
    (s.col[v.id].White? || (s.heap[v.id].Udata? && !isKey && v.id in s.finalized))
  }

  function ClearNode(s: State, n: Node): Node {
    if n.val != Nil && (Cleared(s, n.key, true) || Cleared(s, n.val, false))
    then Node(KillKey(n.key), Nil) else n
  }

  function ClearValue(s: State, v: Value): Value {
    if Cleared(s, v, false) then Nil else v
  }

  /** `o` is what clearing leaves of the table `t` of state `s`. */
  ghost predicate ClearedTable(s: State, t: Id, o: Obj)
    requires t in s.heap
  {
    && s.heap[t].Table? && o.Table?
    && o == s.heap[t].(arr := o.arr, nodes := o.nodes)
    && |o.arr| == |s.heap[t].arr| && |o.nodes| == |s.heap[t].nodes|
    && (forall i :: 0 <= i < |o.arr| ==>
          o.arr[i] == if t in s.weakV then ClearValue(s, s.heap[t].arr[i]) else s.heap[t].arr[i])
    && (forall i :: 0 <= i < |o.nodes| ==> o.nodes[i] == ClearNode(s, s.heap[t].nodes[i]))
  }

  /** Only strings change colour, from white to gray. */
  ghost predicate StringsGray(h: Heap, c: map<Id, Colour>, c': map<Id, Colour>) {
    && c.Keys == c'.Keys
    && forall x :: x in c ==> c'[x] == c[x] || (x in h && h[x].Str? && c[x].White? && c'[x] == Gray)
  }

  predicate StringOk(h: Heap, c: map<Id, Colour>, v: Value) {
    v.Ref? && v.id in h && h[v.id].Str? && v.id in c ==> !c[v.id].White?
  }

  /** The strings that a cleared weak table still refers to are marked. */
  ghost predicate StringsKept(h: Heap, c: map<Id, Colour>, weakV: set<Id>, t: Id)
    requires t in h
  {
    && h[t].Table?
    && (t in weakV ==> forall v :: v in h[t].arr ==> StringOk(h, c, v))
    && (forall n :: n in h[t].nodes && n.val != Nil ==> StringOk(h, c, n.key) && StringOk(h, c, n.val))
  }

  lemma ClearedSame(s: State, m: State, v: Value, isKey: bool)
    requires m == s.(col := m.col) && StringsGray(s.heap, s.col, m.col)
    ensures Cleared(m, v, isKey) == Cleared(s, v, isKey)
  {
  }

  lemma GrayTrans(h: Heap, a: map<Id, Colour>, b: map<Id, Colour>, c: map<Id, Colour>)
    requires StringsGray(h, a, b) && StringsGray(h, b, c)
    ensures StringsGray(h, a, c)
    ensures forall v :: StringOk(h, b, v) ==> StringOk(h, c, v)
  {
  }

  lemma UdataColours(s: State, t: State)
    requires MarkStep(s, t)
    requires forall u :: u in s.tmu ==>
      u in s.heap && s.heap[u].Udata? && u in s.col && (s.col[u] == White(s.cw) || s.col[u] == Black)
    ensures forall u :: u in s.tmu ==> u in t.col && (t.col[u] == White(t.cw) || t.col[u] == Black)
  {
    hide Points, AllMarked, GrayGrew;
  }

  lemma AllMarkedStays(s: State, t: State, x: Id)
    requires MarkStep(s, t) && x in s.heap && AllMarked(s.heap, s.col, x) && Marked(s, x)
    ensures AllMarked(t.heap, t.col, x) && Marked(t, x)
  {
    hide Points, Settled, GrayGrew;
  }

  /** `t` is `s` with its weak tables cleared. */
  ghost predicate WeakCleared(s: State, t: State) {
    && t == s.(heap := t.heap, col := t.col)
    && t.heap.Keys == s.heap.Keys
    && StringsGray(s.heap, s.col, t.col)
    && (forall x :: x in s.heap && x !in s.weak ==> t.heap[x] == s.heap[x])
    && (forall x :: x in s.heap && x in s.weak ==>
          ClearedTable(s, x, t.heap[x]) && StringsKept(t.heap, t.col, s.weakV, x))
  }

  /** `t` is `s` with the first `k` tables of the weak list cleared. */
  ghost predicate ClearedUpTo(s: State, t: State, k: nat) {
    && k <= |s.weak|
    && t == s.(heap := t.heap, col := t.col)
    && t.heap.Keys == s.heap.Keys
    && StringsGray(s.heap, s.col, t.col)
    && (forall x :: x in s.heap && x !in s.weak[..k] ==> t.heap[x] == s.heap[x])
    && (forall x :: x in s.heap && x in s.weak[..k] ==>
          ClearedTable(s, x, t.heap[x]) && StringsKept(t.heap, t.col, s.weakV, x))
  }

  lemma ClearedUpToKinds(s: State, t: State, k: nat)
    requires ClearedUpTo(s, t, k)
    ensures forall x :: x in s.heap ==> SameKind(s.heap[x], t.heap[x])
  {
    hide StringsKept, StringsGray, ClearNode, ClearValue;
    forall x | x in s.heap
      ensures SameKind(s.heap[x], t.heap[x])
    {
      if x in s.weak[..k] {
        assert ClearedTable(s, x, t.heap[x]);
      }
    }
  }

  lemma ClearedAgain(s: State, m: State, x: Id, o: Obj)
    requires m.finalized == s.finalized && m.weakV == s.weakV && m.heap.Keys == s.heap.Keys
    requires forall z :: z in s.heap ==> SameKind(s.heap[z], m.heap[z])
    requires StringsGray(s.heap, s.col, m.col) && x in s.heap && m.heap[x] == s.heap[x] && ClearedTable(m, x, o)
    ensures ClearedTable(s, x, o)
  {
    forall v, b
      ensures Cleared(m, v, b) == Cleared(s, v, b)
    {
    }
  }

  lemma KeptAgain(s: State, m: State, t: State, z: Id, x: Id)
    requires m.heap.Keys == t.heap.Keys && StringsGray(m.heap, m.col, t.col) && z in m.heap && z in t.heap
      && t.heap[z] == m.heap[z]
    requires forall y :: y in m.heap ==> m.heap[y].Str? == t.heap[y].Str?
    requires StringsKept(m.heap, m.col, s.weakV, z)
    ensures StringsKept(t.heap, t.col, s.weakV, z)
  {
    forall v | StringOk(m.heap, m.col, v)
      ensures StringOk(t.heap, t.col, v)
    {
    }
  }

  lemma ClearedUpToStep(s: State, m: State, t: State, k: nat)
    requires k < |s.weak| && NoDup(s.weak) && ClearedUpTo(s, m, k)
    requires s.weak[k] in s.heap && s.heap[s.weak[k]].Table?
    requires var x := s.weak[k];
      && x in t.heap && t == m.(heap := m.heap[x := t.heap[x]], col := t.col) && StringsGray(m.heap, m.col, t.col)
      && ClearedTable(m, x, t.heap[x]) && StringsKept(t.heap, t.col, s.weakV, x)
    ensures ClearedUpTo(s, t, k + 1)
  {
    hide ClearNode, ClearValue, StringsKept, ClearedTable, StringOk;
    var x := s.weak[k];
    assert s.weak[..k + 1] == s.weak[..k] + [x];
    assert x !in s.weak[..k];
    ClearedUpToKinds(s, m, k);
    assert t.heap[x].Table? by { ClearedTableIs(m, x, t.heap[x]); }
    StringsGrayKinds(s, m, t);
    ClearedAgain(s, m, x, t.heap[x]);
    forall z | z in s.heap && z in s.weak[..k]
      ensures ClearedTable(s, z, t.heap[z]) && StringsKept(t.heap, t.col, s.weakV, z)
    {
      assert z != x;
      KeptAgain(s, m, t, z, x);
    }
  }

  lemma ClearedTableIs(m: State, x: Id, o: Obj)
    requires x in m.heap && ClearedTable(m, x, o)
    ensures o.Table?
  {
  }

  lemma StringsGrayKinds(s: State, m: State, t: State)
    requires StringsGray(s.heap, s.col, m.col) && StringsGray(m.heap, m.col, t.col) && m.heap.Keys == s.heap.Keys
    requires forall x :: x in s.heap ==> SameKind(s.heap[x], m.heap[x])
    ensures StringsGray(s.heap, s.col, t.col)
  {
  }

  lemma ClearedAll(s: State, t: State)
    requires ClearedUpTo(s, t, |s.weak|)
    ensures WeakCleared(s, t)
  {
    hide ClearedTable, StringsKept, StringsGray;
    assert s.weak[..|s.weak|] == s.weak;
  }

  /** What the run up to `cleartable` provides for the weak tables. */
  lemma WeakRefs(s: State)
    requires Marking(s, {})
    ensures forall x :: x in s.weak ==> x in s.heap && s.heap[x].Table? && Marked(s, x)
    ensures NoDup(s.weak)
  {
    assert forall x :: x in s.weak ==> Listed(s, x);
  }

  lemma GrayRefl(s: State)
    ensures StringsGray(s.heap, s.col, s.col)
  {
  }

  lemma ClearedNone(s: State)
    ensures ClearedUpTo(s, s, 0)
  {
  }

  lemma ClearNodesSame(s: State, m: State, ns: seq<Node>)
    requires m == s.(col := m.col) && StringsGray(s.heap, s.col, m.col)
    ensures forall n :: ClearNode(m, n) == ClearNode(s, n)
  {
    forall v, b
      ensures Cleared(m, v, b) == Cleared(s, v, b)
    {
      ClearedSame(s, m, v, b);
    }
  }

  lemma StringOkSame(h: Heap, h': Heap, c: map<Id, Colour>, x: Id)
    requires x in h && x in h' && h' == h[x := h'[x]] && h[x].Table? && h'[x].Table?
    ensures forall v :: StringOk(h', c, v) == StringOk(h, c, v)
  {
  }

  lemma ClearedUpToFrame(s: State, t: State, k: nat)
    requires ClearedUpTo(s, t, k) && (forall x :: x in s.weak ==> x in s.heap && s.heap[x].Table?) && NoDup(s.weak)
    ensures t.weak == s.weak && t.weakV == s.weakV
    ensures t == s.(heap := t.heap, col := t.col)
    ensures k < |s.weak| ==> s.weak[k] in t.heap && t.heap[s.weak[k]].Table?
  {
    ClearedUpToKinds(s, t, k);
    hide ClearedTable, StringsKept;
  }

  lemma ClearedRefsStay(m: State, t: State, x: Id)
    requires RefsIn(m.heap) && x in m.heap && x in t.heap && t.heap == m.heap[x := t.heap[x]]
      && ClearedTable(m, x, t.heap[x])
    ensures RefsIn(t.heap)
  {
    forall z, y | z in t.heap && Points(t.heap, z, y)
      ensures y in t.heap
    {
      if z == x {
        ClearedRefsIn(m, t, x, y);
      } else {
        assert Points(m.heap, z, y);
      }
    }
  }

  lemma ClearedPoints(s: State, t: State, x: Id, y: Id)
    requires WeakCleared(s, t) && x in s.heap && x !in s.weak
    requires forall z :: z in s.weak ==> z in s.heap
    ensures Points(t.heap, x, y) == Points(s.heap, x, y)
  {
    hide StringsKept, StringsGray, ClearNode, ClearValue;
    if s.heap[x].Upval? && s.heap[x].home.Open? {
      var th := s.heap[x].home.owner;
      if th in s.heap && th in s.weak {
        assert ClearedTable(s, th, t.heap[th]);
      }
    }
  }

  /** Whatever a cleared weak table still refers to is marked. */
  lemma ClearedWeakMarked(s: State, t: State, x: Id, y: Id)
    requires WeakCleared(s, t) && x in s.heap && x in s.weak && WeakTraced(s, x)
    requires s.heap.Keys == s.col.Keys && RefsIn(s.heap)
    requires forall z :: z in s.heap ==> (s.heap[z].Str? <==> t.heap[z].Str?)
    requires Points(t.heap, x, y)
    ensures Marked(t, y)
  {
    hide RefsIn;
    assert ClearedTable(s, x, t.heap[x]) && StringsKept(t.heap, t.col, s.weakV, x);
    forall z | Marked(s, z)
      ensures Marked(t, z)
    {
      StringsGrayMarked(s, t, z);
    }
    if s.heap[x].mt == Ref(y) {
      assert MarkedV(s, Ref(y));
    } else if Ref(y) in t.heap[x].arr {
      assert y in s.heap by { ClearedRefsIn(s, t, x, y); }
      var i :| 0 <= i < |t.heap[x].arr| && t.heap[x].arr[i] == Ref(y);
      if x in s.weakV {
        KeptValue(s, t, Ref(y), false);
      } else {
        assert MarkedV(s, Ref(y));
      }
    } else {
      assert y in s.heap by { ClearedRefsIn(s, t, x, y); }
      var n :| n in t.heap[x].nodes && n.val != Nil && (n.key == Ref(y) || n.val == Ref(y));
      var i :| 0 <= i < |t.heap[x].nodes| && t.heap[x].nodes[i] == n;
      assert n == s.heap[x].nodes[i];
      if n.key == Ref(y) { KeptValue(s, t, n.key, true); } else { KeptValue(s, t, n.val, false); }
    }
  }

  lemma StringsGrayMarked(s: State, t: State, z: Id)
    requires StringsGray(s.heap, s.col, t.col) && s.heap.Keys == t.heap.Keys && Marked(s, z)
    ensures Marked(t, z)
  {
  }

  lemma KeptValue(s: State, t: State, v: Value, isKey: bool)
    requires v.Ref? && v.id in s.heap && v.id in s.col && v.id in t.heap && v.id in t.col
    requires StringsGray(s.heap, s.col, t.col) && s.heap[v.id].Str? == t.heap[v.id].Str?
    requires !Cleared(s, v, isKey) && StringOk(t.heap, t.col, v)
    ensures Marked(t, v.id)
  {
  }

  lemma ClearedRefsIn(s: State, t: State, x: Id, y: Id)
    requires RefsIn(s.heap) && x in s.heap && x in t.heap && ClearedTable(s, x, t.heap[x]) && Points(t.heap, x, y)
    ensures y in s.heap
  {
    assert Points(s.heap, x, y) by {
      if Ref(y) in t.heap[x].arr {
        var i :| 0 <= i < |t.heap[x].arr| && t.heap[x].arr[i] == Ref(y);
        assert s.heap[x].arr[i] == Ref(y);
      }
      if n :| n in t.heap[x].nodes && n.val != Nil && (n.key == Ref(y) || n.val == Ref(y)) {
        var i :| 0 <= i < |t.heap[x].nodes| && t.heap[x].nodes[i] == n;
        assert s.heap[x].nodes[i] == n;
      }
    }
  }

  // ----- The flip -----

  /** All roots that `atomic` marks. */
  ghost predicate RootsMarked(s: State) {
    && Marked(s, s.main) && Marked(s, s.running) && MarkedV(s, s.registry)
    && (forall v :: v in s.mts ==> MarkedV(s, v))
    && (forall x :: x in s.tmu ==> Marked(s, x))
  }

  function Flip(s: State): State {
    s.(cw := !s.cw, sweepStr := 0, sweepPos := 0, phase := SweepString)
  }

  lemma ClearedKinds(s: State, t: State)
    requires WeakCleared(s, t)
    ensures SameKinds(s.heap, t.heap)
    ensures forall x :: x in s.heap && (s.heap[x].Thread? || s.heap[x].Upval?) ==> t.heap[x] == s.heap[x]
  {
    hide StringsKept, StringsGray, ClearNode, ClearValue, Points;
    forall x | x in s.heap
      ensures SameKind(s.heap[x], t.heap[x])
      ensures s.heap[x].Thread? || s.heap[x].Upval? ==> t.heap[x] == s.heap[x]
    {
      if x in s.weak {
        assert ClearedTable(s, x, t.heap[x]);
      }
    }
  }

  lemma ClearedShape(s: State, t: State)
    requires Shape(s) && Owned(s) && WeakCleared(s, t) && SameKinds(s.heap, t.heap)
    requires forall x :: x in s.heap && (s.heap[x].Thread? || s.heap[x].Upval?) ==> t.heap[x] == s.heap[x]
    ensures Shape(Flip(t)) && Owned(Flip(t))
  {
    hide ClearedTable, StringsKept, OwnedStrings, OwnedRoots;
    KindsKeepOwned(s, t.heap);
    assert Linked(t.heap);
  }

  lemma ClearedPalette(s: State, t: State)
    requires Palette(s) && WeakCleared(s, t) && SameKinds(s.heap, t.heap)
    ensures Palette(Flip(t))
  {
    hide ClearedTable, StringsKept;
  }

  lemma ClearedSurvivors(s: State, t: State)
    requires Marking(s, {}) && s.gray == [] && RootsMarked(s) && s.held == {} && WeakCleared(s, t)
    requires SameKinds(s.heap, t.heap)
    ensures Survivors(Flip(t))
  {
    hide Points, Shape, Owned, Palette, Marking, WeakCleared, Traced, Marked, Live;
    MarkingRefs(s, {});
    var r := Flip(t);
    forall x
      ensures Live(r, x) ==> Marked(s, x) || (x in s.heap && s.heap[x].Str?)
      ensures Marked(s, x) ==> Marked(t, x)
      ensures Marked(t, x) ==> Live(r, x)
    {
      FlipLive(s, t, x);
    }
    forall x, y | x in r.heap && Live(r, x) && Points(r.heap, x, y)
      ensures Live(r, y)
    {
      if !s.heap[x].Str? {
        assert Marked(s, x);
        MarkingTraced(s, x);
        if x in s.weak {
          ClearedWeakMarked(s, t, x, y);
        } else {
          MarkingWeakIn(s);
          ClearedPoints(s, t, x, y);
          FullPoints(s, x, y);
        }
      } else {
        StrPoints(t.heap, x, y);
      }
    }
    ClearedFrame(s, t);
    forall x | Root(r, x)
      ensures Live(r, x)
    {
      assert MarkedV(s, Ref(x));
    }
  }

  lemma ClearedFrame(s: State, t: State)
    requires WeakCleared(s, t)
    ensures t == s.(heap := t.heap, col := t.col)
  {
  }

  lemma StrPoints(h: Heap, x: Id, y: Id)
    requires x in h && h[x].Str?
    ensures !Points(h, x, y)
  {
  }

  lemma FullPoints(s: State, x: Id, y: Id)
    requires x in s.heap && FullyTraced(s, x) && Points(s.heap, x, y)
    ensures Marked(s, y)
  {
    assert Strong(s.heap, x, y);
  }

  lemma MarkingWeakIn(s: State)
    requires Marking(s, {})
    ensures forall z :: z in s.weak ==> z in s.heap
  {
    assert forall z :: z in s.weak ==> Listed(s, z);
  }

  lemma MarkingTraced(s: State, x: Id)
    requires Marking(s, {}) && s.gray == [] && x in s.heap && Marked(s, x)
    ensures if x in s.weak then WeakTraced(s, x) else FullyTraced(s, x)
  {
    hide Shape, Owned, Survivors, Palette, NoDead, Lists, WeakTraced, FullyTraced;
    assert Traced(s, x);
  }

  lemma FlipLive(s: State, t: State, x: Id)
    requires Marking(s, {}) && WeakCleared(s, t)
    ensures Live(Flip(t), x) ==> Marked(s, x) || (x in s.heap && s.heap[x].Str?)
    ensures Marked(s, x) ==> Marked(t, x)
    ensures Marked(t, x) ==> Live(Flip(t), x)
  {
    hide Points, Owned, Palette, Lists, Pending, Survivors, ClearedTable, StringsKept, Linked;
  }

  /** The end of the atomic step: sweeping starts with every live object referring to live
      objects only. */
  lemma FlipKeepsInv(s: State, t: State)
    requires Marking(s, {}) && s.gray == [] && RootsMarked(s) && s.held == {} && WeakCleared(s, t)
    ensures Inv(Flip(t))
  {
    hide Shape, Owned, Survivors, Palette, NoDead, Lists, Pending, WeakCleared;
    ClearedKinds(s, t);
    ClearedShape(s, t);
    ClearedPalette(s, t);
    ClearedSurvivors(s, t);
    ShapeKeys(Flip(t));
  }

  // ----- Chaining the parts of the atomic step -----

  /** Marks only grow; nothing but colours, gray lists, weakness bits and keys of empty
      entries changes. */
  ghost predicate Advanced(s: State, t: State) {
    && t == s.(heap := t.heap, col := t.col, gray := t.gray, grayagain := t.grayagain, weak := t.weak,
               weakK := t.weakK, weakV := t.weakV)
    && (forall x :: Marked(s, x) ==> Marked(t, x))
    && CleanedStar(s.heap, t.heap)
  }

  lemma {:induction false} CleanedStarTrans(h: Heap, m: Heap, h': Heap)
    requires CleanedStar(h, m) && CleanedStar(m, h')
    ensures CleanedStar(h, h')
  {
    forall x | x in h
      ensures ObjCleaned(h[x], h'[x])
    {
      assert ObjCleaned(h[x], m[x]) && ObjCleaned(m[x], h'[x]);
      if h[x] != m[x] && m[x] != h'[x] {
        forall i | 0 <= i < |h[x].nodes|
          ensures h'[x].nodes[i] == h[x].nodes[i] || h'[x].nodes[i] == CleanNode(h[x].nodes[i])
        {
          assert m[x].nodes[i] == h[x].nodes[i] || m[x].nodes[i] == CleanNode(h[x].nodes[i]);
        }
      }
    }
  }

  lemma AdvancedTrans(s: State, m: State, t: State)
    requires Advanced(s, m) && Advanced(m, t)
    ensures Advanced(s, t)
  {
    hide CleanedStar;
    CleanedStarTrans(s.heap, m.heap, t.heap);
  }

  lemma MarkAdvanced(s: State, t: State)
    requires MarkStep(s, t)
    ensures Advanced(s, t)
  {
    MarkGrown(s, t);
    GrownRefl(s);
    hide MarkStep, CleanedStar;
  }

  lemma GrownAdvanced(s: State, t: State)
    requires Grown(s, t) && CleanedStar(s.heap, t.heap)
    ensures Advanced(s, t)
  {
  }

  lemma ListsAdvanced(s: State, t: State)
    requires t == s.(gray := t.gray, grayagain := t.grayagain, weak := t.weak)
    ensures Advanced(s, t)
  {
    GrownRefl(s);
    hide CleanedStar;
  }

  lemma AdvancedRoots(s: State, t: State)
    requires Advanced(s, t)
    ensures t.main == s.main && t.running == s.running && t.registry == s.registry && t.mts == s.mts
    ensures t.tmu == s.tmu && t.udatas == s.udatas && t.heap.Keys == s.heap.Keys
    ensures forall v :: MarkedV(s, v) ==> MarkedV(t, v)
  {
  }

  lemma TmuColours(s: State, todo: set<Id>)
    requires Marking(s, todo)
    ensures forall u :: u in s.tmu ==> u in s.heap && s.heap[u].Udata?
    ensures forall u :: u in s.tmu ==> u in s.col && (s.col[u] == White(s.cw) || s.col[u] == Black)
  {
    hide Points, OwnedStrings, Linked, Survivors, Pending, Lists;
  }

  lemma UdatasNoDup(s: State, todo: set<Id>)
    requires Marking(s, todo)
    ensures NoDup(s.udatas)
  {
  }

  lemma AtomicEntry(s: State)
    requires Inv(s) && s.phase == Propagate
    ensures Marking(s, Todo(s)) && MarkedV(s, Ref(s.main)) && MarkedV(s, s.registry) && s.running in s.heap
    ensures forall v :: v in s.mts && v.Ref? ==> v.id in s.heap
  {
    RootRefs(s);
    hide Shape, Owned, Survivors, Palette, NoDead, Lists, Pending;
  }

  lemma AtomicRoots(s2: State, s3: State, s4: State)
    requires Marked(s2, s2.running) && (forall v :: v in s2.mts ==> MarkedV(s2, v))
    requires MarkedV(s2, Ref(s2.main)) && MarkedV(s2, s2.registry)
    requires Advanced(s2, s3) && Advanced(SeparatedState(s3), s4) && forall u :: u in s4.tmu ==> Marked(s4, u)
    ensures RootsMarked(s4) && s4.held == s2.held && s4.heap.Keys == s2.heap.Keys
  {
    hide CleanedStar, Pick, WhiteAmong;
    AdvancedRoots(s2, s3);
    AdvancedRoots(SeparatedState(s3), s4);
    assert forall v :: MarkedV(s3, v) ==> MarkedV(SeparatedState(s3), v);
    assert MarkedV(s4, Ref(s4.main)) && MarkedV(s2, Ref(s2.running)) && MarkedV(s4, Ref(s4.running));
  }

  lemma ClearedSameKeys(s: State, t: State)
    requires WeakCleared(s, t)
    ensures t.heap.Keys == s.heap.Keys
  {
  }
}
