/** What the program reads: the fields of objects, one by one. */
module GcFields {
  import opened GcState
  import opened GcMark
  import opened GcTrace
  import opened GcGrow
  import opened GcReach
  import opened GcAtomic
  import opened GcSweep
  import opened GcMutator
  import opened GcStore

  /** The places in an object that hold a value. */
  datatype Field =
    | Metatable | Environment | Item(i: nat) | EntryKey(i: nat) | EntryValue(i: nat)
    | Variable | Prototype | Upvalue(i: nat) | Globals | StackSlot(i: nat)
    | LocalName(i: nat) | Constant(i: nat) | Nested(i: nat)

  predicate HasField(o: Obj, f: Field) {
    match f
    case Metatable => o.Table? || o.Udata?
    case Environment => o.Closure? || o.Udata?
    case Item(i) => o.Table? && i < |o.arr|
    case EntryKey(i) => o.Table? && i < |o.nodes|
    case EntryValue(i) => o.Table? && i < |o.nodes|
    case Variable => o.Upval?
    case Prototype => o.Closure?
    case Upvalue(i) => o.Closure? && i < |o.upvals|
    case Globals => o.Thread?
    case StackSlot(i) => o.Thread? && i < |o.stack|
    case LocalName(i) => o.Proto? && i < |o.names|
    case Constant(i) => o.Proto? && i < |o.consts|
    case Nested(i) => o.Proto? && i < |o.nested|
  }

  /** The value in the field. An open upvalue shows the stack slot that it stands for; the key of an empty entry
      is never looked at. */
  function Get(h: Heap, x: Id, f: Field): Value
    requires x in h && HasField(h[x], f)
  {
    match f
    case Metatable => h[x].mt
    case Environment => h[x].env
    case Item(i) => h[x].arr[i]
    case EntryKey(i) => if h[x].nodes[i].val == Nil then Nil else h[x].nodes[i].key
    case EntryValue(i) => h[x].nodes[i].val
    case Variable =>
      (match h[x].home
       case Closed(v) => v
       case Open(th, i) => if th in h && h[th].Thread? && i < |h[th].stack| then h[th].stack[i] else Nil)
    case Prototype => h[x].proto
    case Upvalue(i) => h[x].upvals[i]
    case Globals => h[x].gt
    case StackSlot(i) => h[x].stack[i]
    case LocalName(i) => h[x].names[i]
    case Constant(i) => h[x].consts[i]
    case Nested(i) => h[x].nested[i]
  }

  predicate Yields(h: Heap, x: Id, f: Field, y: Id)
    requires x in h
  {
    HasField(h[x], f) && Get(h, x, f) == Ref(y)
  }

  /** An object refers to exactly what reading its fields yields. */
  lemma PointsByField(h: Heap, x: Id, y: Id)
    requires x in h
    ensures Points(h, x, y) <==> exists f :: Yields(h, x, f, y)
  {
    if Points(h, x, y) { var f := Pointing(h, x, y); }
  }

  lemma Pointing(h: Heap, x: Id, y: Id) returns (f: Field)
    requires x in h && Points(h, x, y)
    ensures Yields(h, x, f, y)
  {
    match h[x]
    case Udata(mt, env) => f := if mt == Ref(y) then Metatable else Environment;
    case Upval(_) => f := Variable;
    case Closure(env, proto, ups) =>
      if Ref(y) in ups { var i :| 0 <= i < |ups| && ups[i] == Ref(y); f := Upvalue(i); }
      else { f := if env == Ref(y) then Environment else Prototype; }
    case Table(mt, arr, nodes, _, _, _) =>
      if mt == Ref(y) { f := Metatable; }
      else if Ref(y) in arr { var i :| 0 <= i < |arr| && arr[i] == Ref(y); f := Item(i); }
      else {
        var n :| n in nodes && n.val != Nil && (n.key == Ref(y) || n.val == Ref(y));
        var i :| 0 <= i < |nodes| && nodes[i] == n;
        f := if n.key == Ref(y) then EntryKey(i) else EntryValue(i);
      }
    case Thread(gt, stack, _) =>
      if gt == Ref(y) { f := Globals; }
      else { var i :| 0 <= i < |stack| && stack[i] == Ref(y); f := StackSlot(i); }
    case Proto(names, consts, nested) =>
      if Ref(y) in names { var i :| 0 <= i < |names| && names[i] == Ref(y); f := LocalName(i); }
      else if Ref(y) in consts { var i :| 0 <= i < |consts| && consts[i] == Ref(y); f := Constant(i); }
      else { var i :| 0 <= i < |nested| && nested[i] == Ref(y); f := Nested(i); }
  }

  /** What a field of a live object holds is there: no reference dangles. */
  lemma GetThere(s: State, x: Id, f: Field, y: Id)
    requires Inv(s) && Live(s, x) && Yields(s.heap, x, f, y)
    ensures Live(s, y) && y in s.heap
  {
    PointsByField(s.heap, x, y);
    hide Points, Yields, Shape, Owned, Palette, InPhase;
  }

  lemma ReadThere(s: State, x: Id, f: Field, y: Id)
    requires Inv(s) && x in s.held && x in s.heap && Yields(s.heap, x, f, y)
    ensures Points(s.heap, x, y) && y in s.heap
  {
    HeldLive(s, x);
    hide Inv, Points, Yields;
    PointsByField(s.heap, x, y);
    GetThere(s, x, f, y);
  }

  // ----- Weak tables -----

  /** `m` is the metatable of `x`, and its "__mode" has a "k" (a "v"). */
  predicate WeakKeys(h: Heap, x: Id, m: Id) {
    x in h && h[x].Table? && h[x].mt == Ref(m) && m in h && h[m].Table? && h[m].modeK
  }

  predicate WeakValues(h: Heap, x: Id, m: Id) {
    x in h && h[x].Table? && h[x].mt == Ref(m) && m in h && h[m].Table? && h[m].modeV
  }

  /** A field that keeps alive what it holds: no item and no entry value of a table with weak values, and no
      entry key of one with weak keys. */
  ghost predicate KeepsAlive(h: Heap, x: Id, f: Field)
    requires x in h
  {
    && ((exists m :: WeakValues(h, x, m)) ==> !f.Item? && !f.EntryValue?)
    && ((exists m :: WeakKeys(h, x, m)) ==> !f.EntryKey?)
  }

  lemma ModesMean(h: Heap, x: Id)
    requires x in h
    ensures ModeK(h, x) <==> exists m :: WeakKeys(h, x, m)
    ensures ModeV(h, x) <==> exists m :: WeakValues(h, x, m)
  {
    if ModeK(h, x) { assert WeakKeys(h, x, h[x].mt.id); }
    if ModeV(h, x) { assert WeakValues(h, x, h[x].mt.id); }
  }

  /** Strong references are those of fields that keep alive; an entry counts while its value is not nil. */
  lemma RefersByField(h: Heap, x: Id, y: Id)
    requires x in h
    ensures Refers(h, x, y) <==> exists f :: Yields(h, x, f, y) && KeepsAlive(h, x, f)
  {
    ModesMean(h, x);
    if h[x].Table? {
      hide Points;
      if Refers(h, x, y) { var f := Referring(h, x, y); }
      if f :| Yields(h, x, f, y) && KeepsAlive(h, x, f) { FieldRefers(h, x, f, y); }
    } else {
      PointsByField(h, x, y);
      hide Yields, Points, ModeK, ModeV;
      assert forall f :: KeepsAlive(h, x, f);
    }
  }

  lemma Referring(h: Heap, x: Id, y: Id) returns (f: Field)
    requires x in h && h[x].Table? && Refers(h, x, y)
    ensures Yields(h, x, f, y) && KeepsAlive(h, x, f)
  {
    ModesMean(h, x);
    hide WeakKeys, WeakValues;
    if h[x].mt == Ref(y) {
      f := Metatable;
    } else if !ModeV(h, x) && Ref(y) in h[x].arr {
      var i :| 0 <= i < |h[x].arr| && h[x].arr[i] == Ref(y);
      f := Item(i);
    } else {
      var n :| n in h[x].nodes && HoldsStrongly(n, ModeK(h, x), ModeV(h, x), y);
      var i :| 0 <= i < |h[x].nodes| && h[x].nodes[i] == n;
      f := if !ModeK(h, x) && n.key == Ref(y) then EntryKey(i) else EntryValue(i);
    }
  }

  lemma FieldRefers(h: Heap, x: Id, f: Field, y: Id)
    requires x in h && h[x].Table? && Yields(h, x, f, y) && KeepsAlive(h, x, f)
    ensures Refers(h, x, y)
  {
    ModesMean(h, x);
    hide WeakKeys, WeakValues;
    if f.EntryKey? || f.EntryValue? {
      assert HoldsStrongly(h[x].nodes[f.i], ModeK(h, x), ModeV(h, x), y);
    }
  }
}
