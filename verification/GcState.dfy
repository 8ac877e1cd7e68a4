/** The heap of the Lua 5.1 collector as values: objects, colours, collector
    lists, reachability, and the invariant that every operation keeps.

    Colours live in a map of their own, so that marking leaves objects alone. The bits
    of the `marked` byte that say "finalized", "has weak keys" and "has weak values" are
    sets of object ids.
 */
module GcState {

  type Id = nat

  /** A TValue. `Plain` is any non-collectable value other than nil; `DeadKey` is a key
      whose type tag has been overwritten with LUA_TDEADKEY. */
  datatype Value = Nil | Plain | Ref(id: Id) | DeadKey(id: Id)

  datatype Node = Node(key: Value, val: Value)

  /** Where the variable behind an upvalue lives: in a stack slot, or in the upvalue. */
  datatype Home = Open(owner: Id, slot: nat) | Closed(v: Value)

  /** Collectable objects. The last three fields of a table say what looking up "__mode"
      and "__gc" in it yields, which matters when it serves as a metatable. */
  datatype Obj =
    | Str(fixed: bool)
    | Udata(mt: Value, env: Value)
    | Upval(home: Home)
    | Closure(env: Value, proto: Value, upvals: seq<Value>)
    | Table(mt: Value, arr: seq<Value>, nodes: seq<Node>, modeK: bool, modeV: bool, gcTM: bool)
    | Thread(gt: Value, stack: seq<Value>, openup: set<Id>)
    | Proto(names: seq<Value>, consts: seq<Value>, nested: seq<Value>)

  datatype Colour = White(bit: bool) | Gray | Black

  datatype Phase = Pause | Propagate | SweepString | Sweep | Finalize

  type Heap = map<Id, Obj>

  /** The whole collector state. `rootgc` is the list of collectable objects up to and
      including the main thread; `udatas` is what hangs off the main thread's `next`.
      `sweepPos` is the position of the link `sweepgc` in `rootgc + udatas`. `held` are the
      objects in C local variables of the running mutator. */
  datatype State = State(
    heap: Heap, col: map<Id, Colour>,
    finalized: set<Id>, weakK: set<Id>, weakV: set<Id>,
    cw: bool, phase: Phase,
    gray: seq<Id>, grayagain: seq<Id>, weak: seq<Id>, tmu: seq<Id>,
    rootgc: seq<Id>, udatas: seq<Id>, sweepPos: nat,
    strt: seq<set<Id>>, sweepStr: nat,
    main: Id, running: Id, registry: Value, mts: seq<Value>, held: set<Id>)

  // ----- References -----

  predicate Container(o: Obj) {
    o.Closure? || o.Table? || o.Thread? || o.Proto?
  }

  predicate IsOpen(o: Obj) {
    o.Upval? && o.home.Open?
  }

  function SlotValue(h: Heap, th: Id, i: nat): Value {
    if th in h && h[th].Thread? && i < |h[th].stack| then h[th].stack[i] else Nil
  }

  function UpvalValue(h: Heap, home: Home): Value {
    match home
    case Open(th, i) => SlotValue(h, th, i)
    case Closed(v) => v
  }

  /** `x` holds a reference to `y` that a program can follow. The key of an empty
      table entry is not such a reference. */
  predicate Points(h: Heap, x: Id, y: Id)
    requires x in h
  {
    match h[x]
    case Str(_) => false
    case Udata(mt, env) => mt == Ref(y) || env == Ref(y)
    case Upval(home) => UpvalValue(h, home) == Ref(y)
    case Closure(env, proto, ups) => env == Ref(y) || proto == Ref(y) || Ref(y) in ups
    case Table(mt, arr, nodes, _, _, _) =>
      mt == Ref(y) || Ref(y) in arr ||
      exists n :: n in nodes && n.val != Nil && (n.key == Ref(y) || n.val == Ref(y))
    case Thread(gt, stack, _) => gt == Ref(y) || Ref(y) in stack
    case Proto(names, consts, nested) => Ref(y) in names || Ref(y) in consts || Ref(y) in nested
  }

  /** Like `Points`, but the keys of empty entries count too. */
  predicate Strong(h: Heap, x: Id, y: Id)
    requires x in h
  {
    Points(h, x, y) || (h[x].Table? && exists n :: n in h[x].nodes && n.key == Ref(y))
  }

  // ----- Reachability -----

  predicate Root(s: State, x: Id) {
    x == s.main || x == s.running || s.registry == Ref(x) || Ref(x) in s.mts || x in s.tmu || x in s.held
  }

  ghost predicate Path(s: State, p: seq<Id>) {
    && |p| > 0
    && Root(s, p[0])
    && forall i :: 0 <= i < |p| - 1 ==> p[i] in s.heap && Points(s.heap, p[i], p[i + 1])
  }

  ghost predicate Reachable(s: State, x: Id) {
    exists p :: Path(s, p) && p[|p| - 1] == x
  }

  // ----- Colours -----

  /** The negation of the source's `isdead`. */
  predicate Live(s: State, x: Id) {
    x in s.heap && x in s.col && s.col[x] != White(!s.cw)
  }

  predicate Marked(s: State, x: Id) {
    x in s.heap && x in s.col && !s.col[x].White?
  }

  predicate MarkedV(s: State, v: Value) {
    v.Ref? ==> Marked(s, v.id)
  }

  ghost predicate NoDup<T>(q: seq<T>) {
    forall i, j :: 0 <= i < j < |q| ==> q[i] != q[j]
  }

  // ----- The invariant -----

  /** Open upvalues and their threads name each other. */
  ghost predicate Linked(h: Heap) {
    && (forall u :: u in h && IsOpen(h[u]) ==>
          var th := h[u].home.owner;
          th in h && h[th].Thread? && h[u].home.slot < |h[th].stack| && u in h[th].openup)
    && (forall th, u :: th in h && h[th].Thread? && u in h[th].openup ==>
          u in h && IsOpen(h[u]) && h[u].home.owner == th)
  }

  ghost predicate Shape(s: State) {
    && s.col.Keys == s.heap.Keys
    && s.main in s.heap && s.heap[s.main].Thread?
    && s.running in s.heap && s.heap[s.running].Thread?
    && |s.rootgc| > 0 && s.rootgc[|s.rootgc| - 1] == s.main
    && 0 < |s.strt|
    && Linked(s.heap)
  }

  predicate InTable(strt: seq<set<Id>>, x: Id) {
    exists b :: 0 <= b < |strt| && x in strt[b]
  }

  /** The string table holds exactly the strings, each in one bucket. */
  predicate OwnedStrings(h: Heap, strt: seq<set<Id>>) {
    && (forall x :: x in h && h[x].Str? ==> InTable(strt, x))
    && (forall b, x :: 0 <= b < |strt| && x in strt[b] ==> x in h && h[x].Str?)
    && (forall b, c, x :: 0 <= b < c < |strt| && x in strt[b] ==> x !in strt[c])
  }

  /** Userdata are on the list behind the main thread or in `tmudata`; everything else but
      strings and open upvalues is on `rootgc`. */
  ghost predicate OwnedRoots(h: Heap, rootgc: seq<Id>, udatas: seq<Id>, tmu: seq<Id>) {
    && (forall x :: x in h && h[x].Udata? ==> x in udatas || x in tmu)
    && (forall x :: x in h && !h[x].Str? && !h[x].Udata? && !IsOpen(h[x]) ==> x in rootgc)
    && (forall x :: x in rootgc ==> x in h && !h[x].Str? && !h[x].Udata? && !IsOpen(h[x]))
    && (forall x :: x in udatas ==> x in h && h[x].Udata? && x !in tmu)
    && (forall x :: x in tmu ==> x in h && h[x].Udata?)
    && NoDup(rootgc) && NoDup(udatas) && NoDup(tmu)
  }

  /** Every object hangs on exactly the list that its kind calls for. */
  ghost predicate Owned(s: State) {
    OwnedStrings(s.heap, s.strt) && OwnedRoots(s.heap, s.rootgc, s.udatas, s.tmu)
  }

  /** Live objects refer to live objects only, and the roots are live. */
  ghost predicate Survivors(s: State) {
    && (forall x, y :: x in s.heap && Live(s, x) && Points(s.heap, x, y) ==> Live(s, y))
    && (forall x :: Root(s, x) ==> Live(s, x))
  }

  /** Colours that a kind never has: threads, open upvalues and strings are never black;
      userdata and closed upvalues are never gray. */
  ghost predicate Palette(s: State) {
    forall x :: x in s.heap && x in s.col ==>
      && ((s.heap[x].Str? || s.heap[x].Thread? || IsOpen(s.heap[x])) ==> s.col[x] != Black)
      && ((s.heap[x].Udata? || (s.heap[x].Upval? && !IsOpen(s.heap[x]))) ==> s.col[x] != Gray)
  }

  /** Everything outside `tmudata` waits in the current white. */
  ghost predicate Rested(s: State) {
    forall x :: x in s.heap && x in s.col ==> x in s.tmu || s.col[x] == White(s.cw)
  }

  ghost predicate NoDead(s: State) {
    forall x :: x in s.col ==> s.col[x] != White(!s.cw)
  }

  /** The strong part of a table on the `weak` list is marked. */
  ghost predicate WeakTraced(s: State, t: Id)
    requires t in s.heap
  {
    && s.heap[t].Table?
    && MarkedV(s, s.heap[t].mt)
    && (t !in s.weakV ==>
          && (forall v :: v in s.heap[t].arr ==> MarkedV(s, v))
          && (forall n :: n in s.heap[t].nodes && n.val != Nil ==> MarkedV(s, n.val)))
    && (t !in s.weakK ==> forall n :: n in s.heap[t].nodes && n.val != Nil ==> MarkedV(s, n.key))
  }

  ghost predicate FullyTraced(s: State, x: Id)
    requires x in s.heap
  {
    forall y :: Strong(s.heap, x, y) ==> Marked(s, y)
  }

  ghost predicate Traced(s: State, x: Id)
    requires x in s.heap
  {
    if x in s.weak then WeakTraced(s, x) else FullyTraced(s, x)
  }

  /** Every marked object that is neither gray-listed nor in `todo` has been traced. */
  ghost predicate Pending(s: State, todo: set<Id>) {
    forall x :: x in s.heap && Marked(s, x) && x !in s.gray && x !in todo ==> Traced(s, x)
  }

  /** What the atomic phase still has to visit again. */
  ghost function Todo(s: State): set<Id> {
    (set x | x in s.grayagain) + (set x | x in s.weak) + (set x | x in s.tmu) +
    (set x | x in s.heap && IsOpen(s.heap[x]))
  }

  predicate Listed(s: State, x: Id) {
    x in s.gray || x in s.grayagain || x in s.weak
  }

  /** The three gray lists share the link field `gclist`, so no object is on two of them or
      twice on one. They hold gray containers, and every gray container is on one. */
  ghost predicate Lists(s: State) {
    && NoDup(s.gray) && NoDup(s.grayagain) && NoDup(s.weak)
    && (forall x :: x in s.gray ==> x !in s.grayagain && x !in s.weak)
    && (forall x :: x in s.grayagain ==> x !in s.weak)
    && (forall x :: Listed(s, x) ==> x in s.heap && x in s.col && s.col[x] == Gray && Container(s.heap[x]))
    && (forall x :: x in s.grayagain ==> s.heap[x].Thread? || s.heap[x].Table?)
    && (forall x :: x in s.weak ==> s.heap[x].Table?)
    && (forall x :: x in s.heap && x in s.col && s.col[x] == Gray && Container(s.heap[x]) ==> Listed(s, x))
  }

  ghost predicate StringsSwept(s: State, n: nat) {
    forall b, x :: 0 <= b < n && b < |s.strt| && x in s.strt[b] ==> x in s.col && s.col[x] == White(s.cw)
  }

  /** The object and, for a thread, its open upvalues are in the current white. */
  ghost predicate Swept(s: State, x: Id) {
    && x in s.heap && x in s.col && s.col[x] == White(s.cw)
    && (s.heap[x].Thread? ==> forall u :: u in s.heap[x].openup ==> u in s.col && s.col[u] == White(s.cw))
  }

  ghost predicate RootsSwept(s: State, n: nat) {
    forall i :: 0 <= i < n && i < |s.rootgc + s.udatas| ==> Swept(s, (s.rootgc + s.udatas)[i])
  }

  ghost predicate Propagating(s: State) {
    && NoDead(s)
    && Lists(s)
    && Pending(s, Todo(s))
    && Marked(s, s.main) && MarkedV(s, s.registry)
  }

  ghost predicate InPhase(s: State) {
    match s.phase
    case Pause => Rested(s)
    case Propagate => Propagating(s)
    case SweepString => s.sweepStr < |s.strt| && StringsSwept(s, s.sweepStr) && s.sweepPos == 0
    case Sweep => s.sweepPos <= |s.rootgc + s.udatas| && StringsSwept(s, |s.strt|) && RootsSwept(s, s.sweepPos)
    case Finalize => Rested(s)
  }

  ghost predicate Inv(s: State) {
    Shape(s) && Owned(s) && Survivors(s) && Palette(s) && InPhase(s)
  }

  // ----- Consequences of the invariant -----

  lemma {:induction false} PathStaysLive(s: State, p: seq<Id>, i: nat)
    requires Survivors(s) && Path(s, p) && i < |p|
    ensures Live(s, p[i])
  {
    if i > 0 {
      PathStaysLive(s, p, i - 1);
      assert Points(s.heap, p[i - 1], p[i - 1 + 1]);
    }
  }

  /** Dead objects are unreachable. */
  lemma ReachableIsLive(s: State, x: Id)
    requires Survivors(s) && Reachable(s, x)
    ensures Live(s, x)
  {
    var p :| Path(s, p) && p[|p| - 1] == x;
    PathStaysLive(s, p, |p| - 1);
  }

  /** The invariant of incremental marking: outside `tmudata` and the tables awaiting
      another visit, no black object refers to a white one. */
  lemma BlackNeverPointsToWhite(s: State, x: Id, y: Id)
    requires Inv(s) && s.phase == Propagate
    requires x in s.heap && s.col[x] == Black && x !in s.tmu && Points(s.heap, x, y)
    ensures Marked(s, y)
  {
    hide Survivors, Owned, Linked, Points;
    assert !Listed(s, x);
    assert x !in Todo(s);
    assert Traced(s, x);
    hide Lists, Pending, Todo, Palette;
    assert FullyTraced(s, x);
    assert Strong(s.heap, x, y);
  }

  /** A gray table, closure, thread or prototype is on exactly one gray list. */
  lemma GrayIsListed(s: State, x: Id)
    requires Inv(s) && s.phase == Propagate
    requires x in s.heap && s.col[x] == Gray && Container(s.heap[x])
    ensures x in s.gray || x in s.grayagain || x in s.weak
    ensures !(x in s.gray && x in s.grayagain) && !(x in s.gray && x in s.weak) && !(x in s.grayagain && x in s.weak)
  {
    assert Listed(s, x);
  }
}
