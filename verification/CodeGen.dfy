/** The code generator for boolean expressions, on the state of the function being compiled. */
module CodeGen {
  import opened CodeVm
  import opened CodeLists
  import opened CodeRoute
  import opened CodeSem
  import opened CodeRuns
  import opened CodeFinal
  import opened CodeExp
  import opened CodeDesc

  class FuncState {
    var code: seq<Instr>
    var jpc: int
    var freereg: nat
    var k: seq<Value>
    /** Where a constant is in `k`. */
    var h: map<Value, nat>
    const nactvar: nat
    /** The jumps of the list `jpc`, which wait for the next instruction. */
    ghost var held: seq<nat>

    ghost predicate Valid()
      reads this
    {
      && JumpList(code, jpc, held) && Pending(code, held)
      && nactvar <= freereg < MAXSTACK
      && Indexed(k, h)
    }

    constructor (nactvar: nat)
      requires nactvar + 2 < MAXSTACK
      ensures Valid() && code == [] && k == [] && held == [] && freereg == nactvar && this.nactvar == nactvar
    {
      code, jpc, k, h, held := [], NO_JUMP, [], map[], [];
      freereg := nactvar;
      this.nactvar := nactvar;
    }

    // ----- Lists -----

    /** lcode.c `luaK_concat`: append the list `l2` to `l1`. */
    method Concat(l1: int, l2: int, ghost q1: seq<nat>, ghost q2: seq<nat>) returns (l: int)
      requires JumpList(code, l1, q1) && JumpList(code, l2, q2) && forall j :: j in q1 ==> j !in q2
      modifies `code
      ensures JumpList(code, l, q1 + q2) && Relinked(old(code), code, Elems(q1)) && (q2 == [] ==> code == old(code))
    {
      l := l1;
      if l2 == NO_JUMP {
        assert q1 + q2 == q1;
        return;
      }
      if l1 == NO_JUMP {
        assert q1 + q2 == q2;
        l := l2;
        return;
      }
      var list := l1;
      ghost var i := 0;
      while GetJump(code, list) != NO_JUMP
        invariant code == old(code) && 0 <= i < |q1| && list == q1[i] && IsJump(code, list)
        decreases |q1| - i
      {
        assert q1[i + 1..] != [] && q1[i + 1..][0] == q1[i + 1];
        list := GetJump(code, list);
        i := i + 1;
      }
      assert q1[i + 1..] == [] && i == |q1| - 1;
      ListJoin(code, q1, q2);
      code := code[list := JMP(l2 - (list + 1))];
    }

    /** lcode.c `patchlistaux`: jumps that deliver a value go to `vtarget`, the others to `dtarget`. */
    method PatchListAux(head: int, vtarget: int, reg: nat, dtarget: int, ghost q: seq<nat>)
      requires JumpList(code, head, q)
      modifies `code
      ensures AllJumps(old(code), q) && code == Patched(old(code), q, vtarget, reg, dtarget)
    {
      var list := head;
      ghost var i := 0;
      assert q[0..] == q;
      ListJumps(code, head, q);
      while list != NO_JUMP
        invariant 0 <= i <= |q| && list == Head(q[i..]) && AllJumps(code, q[i..])
        invariant forall m :: i <= m < |q| ==> IsJump(code, q[m]) && GetJump(code, q[m]) == Head(q[m + 1..])
        invariant Patched(code, q[i..], vtarget, reg, dtarget) == Patched(old(code), q, vtarget, reg, dtarget)
        decreases |q| - i
      {
        assert q[i..] != [] && q[i..][0] == q[i] && q[i..][1..] == q[i + 1..];
        var next := GetJump(code, list);
        ghost var before := code;
        PatchOneJumps(code, list, vtarget, reg, dtarget);
        code := PatchOne(code, list, vtarget, reg, dtarget);
        forall m | i < m < |q|
          ensures IsJump(code, q[m]) && GetJump(code, q[m]) == Head(q[m + 1..])
        {
          assert q[m] != q[i];
          assert code[q[m]] == before[q[m]];
        }
        list := next;
        i := i + 1;
      }
      assert q[i..] == [];
    }

    /** lcode.c `luaK_code`, which first discharges the jumps to here. */
    method Code(i: Instr)
      requires Valid()
      modifies `code, `jpc, `held
      ensures Valid() && jpc == NO_JUMP && held == []
      ensures |code| == |old(code)| + 1 && code[|old(code)|] == i && Grown(old(code), code, Elems(old(held)))
    {
      var pc := |code|;
      PatchListAux(jpc, pc, NO_REG, pc, held);
      PatchedFacts(old(code), held, pc, NO_REG, pc);
      SettledIsPatched(old(code), held);
      jpc := NO_JUMP;
      held := [];
      code := code + [i];
    }

    /** lcode.c `luaK_jump`: the jumps to here are kept on hold, in the list of the new jump. */
    method Jump() returns (l: int)
      requires Valid()
      modifies `code, `jpc, `held
      ensures Valid() && jpc == NO_JUMP && held == [] && l == |old(code)|
      ensures |code| == |old(code)| + 1 && code[..|old(code)|] == old(code) && code[l].JMP?
      ensures JumpList(code, l, [|old(code)|] + old(held)) && (old(held) == [] ==> code[l] == JMP(NO_JUMP))
    {
      ghost var q, c := held, code;
      var saved := jpc;
      jpc := NO_JUMP;
      held := [];
      l := |code|;
      assert Elems(held) == {};
      Code(JMP(NO_JUMP));
      GrownByOne(c, code);
      JumpAlone(code, l);
      ListJumps(c, saved, q);
      ListStays(c, code, saved, q);
      ghost var mid := code;
      l := Concat(l, saved, [|c|], q);
      assert [|c|] + q == if q == [] then [|c|] else [|c|] + q;
      assert code[..|c|] == c;
    }

    /** lcode.c `condjump`: a test and a jump that is on no list yet. */
    method CondJump(i: Instr) returns (j: nat)
      requires Valid() && IsTest(i)
      modifies `code, `jpc, `held
      ensures Valid() && jpc == NO_JUMP && held == []
      ensures |code| == |old(code)| + 2 && code[|old(code)|] == i && code[|old(code)| + 1] == JMP(NO_JUMP)
        && j == |old(code)| + 1
      ensures Grown(old(code), code, Elems(old(held)))
    {
      Code(i);
      ghost var mid := code;
      j := |code|;
      var l := Jump();
      assert forall n :: 0 <= n < |mid| ==> code[n] == mid[n];
    }

    /** lcode.c `freeexp`: give back the register of a temporary value. */
    method FreeExp(kind: Kind)
      requires kind.VNonReloc? && kind.r >= nactvar ==> kind.r == freereg - 1
      modifies `freereg
      ensures freereg == if kind.VNonReloc? && kind.r >= nactvar then old(freereg) - 1 else old(freereg)
    {
      if kind.VNonReloc? && kind.r >= nactvar {
        freereg := freereg - 1;
      }
    }

    /** lcode.c `luaK_patchtohere`: the jumps of the list wait for the next instruction, too. */
    method PatchToHere(list: int, ghost q: seq<nat>)
      requires Valid() && JumpList(code, list, q) && Pending(code, q) && Elems(held) !! Elems(q)
      modifies `code, `jpc, `held
      ensures Valid() && held == old(held) + q && Relinked(old(code), code, Elems(old(held)))
        && (q == [] ==> code == old(code))
    {
      ghost var c := code;
      assert forall j :: j in held ==> j in Elems(held) && (j in q ==> j in Elems(q));
      jpc := Concat(jpc, list, held, q);
      PatchedHere(c, code, held, q);
      held := held + q;
    }

    // ----- goiftrue, goiffalse -----

    /** The jumps that lcode.c `luaK_goiftrue` (`b`) or `luaK_goiffalse` emits: taken if the value is not
        `b`. Behind a constant there is none, or one that is always taken. */
    method JumpUnless(b: bool, d: ExpDesc, ghost e: Expr, ghost code0: seq<Instr>, ghost p0: set<nat>,
                      ghost tq: seq<nat>, ghost fq: seq<nat>) returns (l: int, ghost jq: seq<nat>)
      requires Valid() && OnlyLocals(d.kind, nactvar) && !d.kind.VLocal? && freereg + 2 < MAXSTACK
        && Described(code0, p0, code, k, e, d, tq, fq, held, freereg)
      modifies `code, `jpc, `held, `k, `h, `freereg
      ensures Valid() && Rested(code) && old(k) <= k && freereg == old(freereg) && (jq == [] ==> l == NO_JUMP)
      ensures JumpsUnless(code0, p0, code, k, e, b, d, tq, fq, l, jq, held, freereg)
    {
      ghost var c, hd, free := code, held, freereg;
      hide JumpsUnless, Described, Grown, Indexed, JumpList, Pending;
      match d.kind
      case VNonReloc(x) =>
        FreeExp(d.kind);
        l := CondJump(TESTSET(NO_REG, x, !b));
        UnlessNonReloc(code0, p0, c, code, k, e, b, d, tq, fq, hd, free);
        jq := [l];
      case VReloc(pc) =>
        DescribedLast(code0, p0, code, k, e, d, tq, fq, held, freereg);
        l, jq := TestInstead(b, d, pc, e, code0, p0, tq, fq);
      case VJmp(pc) =>
        DescribedLast(code0, p0, code, k, e, d, tq, fq, held, freereg);
        ListFacts(code, jpc, held);
        if b {
          code := code[pc - 1 := code[pc - 1].(cond := !code[pc - 1].cond)];
        }
        l, jq := pc, [pc];
        NothingPending(code);
        UnlessJmp(code0, p0, c, code, k, e, b, d, tq, fq, pc, free);
      case VConst(v) =>
        l, jq := JumpUnlessConst(b, d, v, e, code0, p0, tq, fq);
    }

    /** A TEST takes the place of an OP_NOT. */
    method TestInstead(b: bool, d: ExpDesc, pc: nat, ghost e: Expr, ghost code0: seq<Instr>, ghost p0: set<nat>,
                       ghost tq: seq<nat>, ghost fq: seq<nat>) returns (l: int, ghost jq: seq<nat>)
      requires Valid() && d.kind == VReloc(pc) && pc == |code| - 1 && code[pc].NOT? && held == []
        && Described(code0, p0, code, k, e, d, tq, fq, [], freereg)
      modifies `code, `jpc, `held
      ensures Valid() && held == [] && Rested(code) && jq != []
      ensures JumpsUnless(code0, p0, code, k, e, b, d, tq, fq, l, jq, [], freereg)
    {
      hide JumpsUnless, Described, Grown, Indexed, JumpList, Pending;
      ghost var c := code;
      var ie := code[pc];
      ListFacts(code, jpc, held);
      code := code[..pc];
      NothingPending(code);
      l := CondJump(TEST(ie.b, b));
      assert Elems([]) == {};
      GrownByTwo(c[..pc], code);
      UnlessReloc(code0, p0, c, code, k, e, b, d, tq, fq, pc, freereg);
      jq := [l];
    }

    method JumpUnlessConst(b: bool, d: ExpDesc, v: Value, ghost e: Expr, ghost code0: seq<Instr>, ghost p0: set<nat>,
                           ghost tq: seq<nat>, ghost fq: seq<nat>) returns (l: int, ghost jq: seq<nat>)
      requires Valid() && d.kind == VConst(v) && freereg + 2 < MAXSTACK
        && Described(code0, p0, code, k, e, d, tq, fq, held, freereg)
      modifies `code, `jpc, `held, `k, `h, `freereg
      ensures Valid() && Rested(code) && old(k) <= k && freereg == old(freereg) && (jq == [] ==> l == NO_JUMP)
      ensures JumpsUnless(code0, p0, code, k, e, b, d, tq, fq, l, jq, held, freereg)
    {
      ghost var c, k0, hd, free := code, k, held, freereg;
      hide JumpsUnless, Grown, Indexed, JumpList, Pending, Sem, Placed;
      if Truthy(v) == b {
        l, jq := NO_JUMP, [];
        UnlessConst(code0, p0, code, k, e, b, d, tq, fq, held, free);
      } else if v == Bool(!b) {
        l := Jump();
        jq := [|c|] + hd;
        UnlessAlways(code0, p0, c, code, k, e, b, d, tq, fq, hd, l, free);
      } else {
        var reg := freereg;
        freereg := freereg + 1;
        LoadConst(v, reg);
        ghost var mid := code;
        FreeExp(VNonReloc(reg));
        NothingHeld(held);
        l := CondJump(TESTSET(NO_REG, reg, !b));
        GrownByTwo(mid, code);
        LoadedGrown(c, mid, code, Elems(hd));
        jq := [l];
        DescribedMore(code0, p0, c, k0, k, e, d, tq, fq, hd, free);
        UnlessLoad(code0, p0, c, code, k, e, b, d, tq, fq, hd, free, free);
      }
    }

    /** lcode.c `discharge2reg` on a constant. */
    method LoadConst(v: Value, reg: nat)
      requires Valid() && reg < MAXSTACK
      modifies `code, `jpc, `held, `k, `h
      ensures Valid() && jpc == NO_JUMP && held == [] && old(k) <= k
      ensures |code| == |old(code)| + 1 && LoadsConst(k, code[|old(code)|], reg, v)
        && Grown(old(code), code, Elems(old(held)))
    {
      hide Grown, JumpList, Pending;
      match v
      case Nil => Code(LOADNIL(reg));
      case Bool(b) => Code(LOADBOOL(reg, b, false));
      case _ =>
        var i := AddK(v);
        Code(LOADK(reg, i));
    }

    /** lcode.c `luaK_goiftrue` (`b`) and `luaK_goiffalse`: go on if the value is `b`. The jumps of
        the other list lead to where it goes on; the list of jumps that leave is returned. */
    method GoIf(b: bool, d: ExpDesc, ghost e: Expr, ghost code0: seq<Instr>, ghost p0: set<nat>, ghost tq: seq<nat>,
                ghost fq: seq<nat>) returns (l: int, ghost q: seq<nat>)
      requires Valid() && OnlyLocals(d.kind, nactvar) && !d.kind.VLocal? && freereg + 2 < MAXSTACK
        && Described(code0, p0, code, k, e, d, tq, fq, held, freereg)
      modifies `code, `jpc, `held, `k, `h, `freereg
      ensures Valid() && Rested(code) && old(k) <= k && freereg == old(freereg)
      ensures GoesOn(code0, p0, code, k, e, b, l, q, held, freereg)
    {
      hide JumpsUnless, JumpList, Pending, GoPlaced, GoSem, Relinked, Described, Rested, Indexed;
      ghost var jq;
      l, jq := JumpUnless(b, d, e, code0, p0, tq, fq);
      ghost var c, q1, other, hd := code, if b then fq else tq, if b then tq else fq, held;
      q := q1 + jq;
      ghost var l0 := l;
      UnlessLists(code0, p0, code, k, e, b, d, tq, fq, l, jq, held, freereg);
      l := Concat(if b then d.f else d.t, l, q1, jq);
      ghost var c1 := code;
      GoIfLinked(code0, p0, c, code, k, e, b, d, tq, fq, l0, jq, held, freereg);
      GoIfHeld(code0, p0, c, code, k, e, b, d, tq, fq, l0, jq, held, freereg, jpc);
      RelinkedRest(c, code, Elems(q1));
      PatchToHere(if b then d.t else d.f, other);
      RelinkedRest(c1, code, Elems(hd));
      GoIfDone(code0, p0, c1, code, k, e, b, l, q, hd, other, freereg);
    }

    // ----- not -----

    /** lcode.c `removevalues`. */
    method RemoveValues(head: int, ghost q: seq<nat>)
      requires JumpList(code, head, q)
      modifies `code
      ensures code == WithoutValues(old(code), q)
    {
      hide WithoutValues, JumpList;
      var list := head;
      ghost var i: nat := 0;
      ghost var c := code;
      ListFacts(code, head, q);
      WithoutNone(code, q);
      assert q[0..] == q;
      while list != NO_JUMP
        invariant i <= |q| && list == Head(q[i..])
        invariant code == WithoutValues(c, q[..i])
        decreases |q| - i
      {
        assert list == q[i];
        WithoutOne(c, q, i);
        if HasValue(code, list) {
          code := code[list - 1 := PatchReg(code[list - 1], NO_REG)];
        }
        list := GetJump(code, list);
        i := i + 1;
      }
      assert q[i..] == [] && q[..i] == q;
    }

    /** The first part of lcode.c `codenot`, which negates the value that arrives. */
    method Negate(d: ExpDesc, ghost e: Expr, ghost code0: seq<Instr>, ghost p0: set<nat>, ghost tq: seq<nat>,
                  ghost fq: seq<nat>) returns (kind: Kind)
      requires Valid() && OnlyLocals(d.kind, nactvar) && !d.kind.VLocal?
        && Described(code0, p0, code, k, e, d, tq, fq, held, freereg)
      modifies `code, `jpc, `held, `freereg
      ensures Valid() && freereg == old(freereg) && held == StillHeld(d.kind, old(held)) && !kind.VLocal?
        && !kind.VNonReloc?
      ensures NotMid(old(code), code, d.kind, kind, Elems(old(held)), freereg)
    {
      hide Described, Grown, Indexed, JumpList, Pending;
      DescribedLast(code0, p0, code, k, e, d, tq, fq, held, freereg);
      ListFacts(code, jpc, held);
      match d.kind {
        case VConst(v) =>
          kind := VConst(Bool(!Truthy(v)));
        case VJmp(pc) =>
          code := code[pc - 1 := code[pc - 1].(cond := !code[pc - 1].cond)];
          kind := d.kind;
          NothingPending(code);
        case VNonReloc(x) =>
          FreeExp(d.kind);
          kind := VReloc(|code|);
          Code(NOT(0, x));
        case VReloc(pc) =>
          freereg := freereg + 1;
          code := code[pc := NOT(freereg - 1, code[pc].b)];
          FreeExp(VNonReloc(freereg - 1));
          kind := VReloc(|code|);
          ghost var c1 := code;
          NothingPending(code);
          assert Elems(held) == {};
          Code(NOT(0, freereg));
          GrownByOne(c1, code);
      }
    }

    /** lcode.c `codenot`. */
    method CodeNot(d: ExpDesc, ghost e: Expr, ghost code0: seq<Instr>, ghost p0: set<nat>, ghost tq: seq<nat>,
                   ghost fq: seq<nat>) returns (d': ExpDesc)
      requires Valid() && OnlyLocals(d.kind, nactvar) && !d.kind.VLocal?
        && Described(code0, p0, code, k, e, d, tq, fq, held, freereg)
      modifies `code, `jpc, `held, `freereg
      ensures Valid() && freereg == old(freereg) && !d'.kind.VLocal? && !d'.kind.VNonReloc?
      ensures Described(code0, p0, code, k, Not(e), d', fq, tq, held, freereg)
    {
      hide Described, Grown, Indexed, JumpList, NotMid, Pending;
      ghost var c, hd, free := code, held, freereg;
      var kind := Negate(d, e, code0, p0, tq, fq);
      ghost var mid := code;
      ListFacts(code, jpc, held);
      NotMidLists(code0, p0, c, mid, k, e, d, tq, fq, hd, free, kind);
      RemoveValues(d.t, tq);
      ValuesStay(mid, tq, fq, d.f);
      RemoveValues(d.f, fq);
      d' := ExpDesc(kind, d.f, d.t);
      NotDescribed(code0, p0, c, mid, code, k, e, d, tq, fq, hd, free, kind);
      if d.kind.VConst? {
        NotMidConst(c, mid, d.kind, kind, Elems(hd), free);
        HeldRemoved(code0, p0, c, code, k, e, d, tq, fq, hd, free, jpc);
      } else {
        NothingPending(code);
      }
    }

    // ----- Comparisons -----

    /** lcode.c `addk`. */
    method AddK(v: Value) returns (i: nat)
      requires Valid()
      modifies `k, `h
      ensures Valid() && old(k) <= k && i < |k| && k[i] == v && i <= |old(k)|
    {
      if v in h {
        i := h[v];
      } else {
        i := |k|;
        h := h[v := i];
        k := k + [v];
      }
    }

    /** lcode.c `luaK_exp2RK` on a local variable or a number. */
    method Exp2RK(x: Atom, ghost code0: seq<Instr>, ghost p0: set<nat>, ghost free: nat) returns (o: Operand)
      requires Valid() && AtomScope(x, nactvar) && freereg + 1 < MAXSTACK && nactvar <= free <= freereg
      requires Rested(code) && Loading(code0, p0, code, k, held, free)
      modifies `code, `jpc, `held, `k, `h, `freereg
      ensures Valid() && old(k) <= k && Rested(code) && Loading(code0, p0, code, k, held, free)
      ensures InUse(o, freereg) && FitsOperand(o) && OperandReady(code, k, |code0|, free, x, o)
      ensures if o.R? && o.r >= nactvar then freereg == old(freereg) + 1 && o.r == old(freereg)
        else freereg == old(freereg)
      ensures forall y, o2 :: InUse(o2, old(freereg)) && OperandReady(old(code), old(k), |code0|, free, y, o2) ==>
        OperandReady(code, k, |code0|, free, y, o2)
    {
      match x
      case Loc(r) =>
        o := R(r);
        LocalReady(code0, p0, code, k, held, free, r);
      case Const(n) =>
        if |k| <= MAXINDEXRK {
          var i := AddK(Num(n));
          o := K(i);
          ConstReady(code0, p0, code, old(k), k, held, free, n, i);
        } else {
          freereg := freereg + 1;
          var i := AddK(Num(n));
          o := R(freereg - 1);
          Code(LOADK(freereg - 1, i));
          LoadReady(code0, p0, old(code), code, old(k), k, old(held), free, n, i, old(freereg));
        }
    }

    /** The operands of a comparison, whose registers are free again. */
    method CompOperands(x: Atom, y: Atom, ghost code0: seq<Instr>, ghost p0: set<nat>)
      returns (o1: Operand, o2: Operand)
      requires Valid() && Rested(code) && AtomScope(x, nactvar) && AtomScope(y, nactvar) && freereg + 2 < MAXSTACK
      requires Loading(code0, p0, code, k, held, freereg)
      modifies `code, `jpc, `held, `k, `h, `freereg
      ensures Valid() && Rested(code) && old(k) <= k && freereg == old(freereg)
      ensures Loading(code0, p0, code, k, held, freereg)
      ensures OperandReady(code, k, |code0|, freereg, x, o1) && OperandReady(code, k, |code0|, freereg, y, o2)
      ensures FitsOperand(o1) && FitsOperand(o2)
    {
      hide Loading, OperandReady, Described, Grown, Indexed, Pending, JumpList, Rested;
      ghost var free := freereg;
      o1 := Exp2RK(x, code0, p0, free);
      o2 := Exp2RK(y, code0, p0, free);
      if o2.R? { FreeExp(VNonReloc(o2.r)); }
      if o1.R? { FreeExp(VNonReloc(o1.r)); }
    }

    /** lcode.c `luaK_infix` and `codecomp` for a comparison. */
    method CodeComp(op: RelOp, x: Atom, y: Atom) returns (d: ExpDesc)
      requires Valid() && Rested(code) && AtomScope(x, nactvar) && AtomScope(y, nactvar) && freereg + 2 < MAXSTACK
      modifies `code, `jpc, `held, `k, `h, `freereg
      ensures Valid() && old(k) <= k && freereg == old(freereg) && d.kind.VJmp?
      ensures Described(old(code), Elems(old(held)), code, k, Rel(op, x, y), d, [], [], held, freereg)
    {
      ghost var code0, p0 := code, Elems(held);
      hide Loading, OperandReady, Described, Grown, Indexed, Pending, JumpList;
      LoadingStart(code, k, held, freereg);
      var o1, o2 := CompOperands(x, y, code0, p0);
      ghost var c, hd := code, held;
      var j := CondJump(CompInstr(op, o1, o2));
      d := ExpDesc(VJmp(j), NO_JUMP, NO_JUMP);
      RelDescribed(code0, p0, c, code, k, hd, freereg, op, x, y, o1, o2);
    }

    // ----- Expressions -----

    /** lcode.c `luaK_posfix` for `and` (`b`) and `or`: the jumps that leave the first operand join
        the second operand's list. */
    method Join(b: bool, d: ExpDesc, l: int, ghost x: Expr, ghost y: Expr, ghost code0: seq<Instr>, ghost p0: set<nat>,
                ghost code1: seq<Instr>, ghost k1: seq<Value>, ghost pq: seq<nat>,
                ghost q: seq<nat>, ghost tq: seq<nat>, ghost fq: seq<nat>) returns (d': ExpDesc)
      requires Valid() && Scope(y, freereg) && k1 <= k
      requires GoesOn(code0, p0, code1, k1, x, b, l, q, pq, freereg)
      requires Described(code1, Elems(pq), code, k, y, d, tq, fq, held, freereg)
      modifies `code
      ensures Valid() && d'.kind == d.kind
      ensures Described(code0, p0, code, k, Joined(b, x, y), d', if b then tq else tq + q, if b then fq + q else fq,
                        held, freereg)
    {
      hide Described, GoesOn, Indexed, JumpList, Pending, Relinked, Scope, Sem, Placed, Rested, Shaped, TrueList,
          FalseList, Unconditional, Opens;
      ghost var c := code;
      JoinLists(code0, p0, code1, code, k1, k, x, y, b, l, d, q, pq, tq, fq, held, freereg);
      JoinBefore(code0, p0, code1, code, k1, k, x, y, b, l, d, q, pq, tq, fq, held, freereg);
      JoinedOpens(code0, p0, code1, code, k1, k, x, y, b, l, d, q, pq, tq, fq, held, freereg);
      var head := Concat(if b then d.f else d.t, l, if b then fq else tq, q);
      d' := if b then d.(f := head) else d.(t := head);
      JoinDescribed(code0, p0, c, code, k, Joined(b, x, y), b, d, q, tq, fq, held, freereg, head);
      JoinedSets(b, Elems(tq), Elems(fq), Elems(held), Elems(q));
      JoinHeld(code0, p0, c, code, d.kind, TrueList(b, Elems(tq), Elems(q)), FalseList(b, Elems(fq), Elems(q)), freereg,
               if b then fq else tq, jpc, held);
    }

    /** lparser.c `subexpr` with the calls it makes into the code generator. */
    method SubExpr(e: Expr) returns (d: ExpDesc, ghost tq: seq<nat>, ghost fq: seq<nat>)
      requires Valid() && Rested(code) && Scope(e, nactvar) && freereg + 2 < MAXSTACK
      modifies `code, `jpc, `held, `k, `h, `freereg
      ensures Valid() && old(k) <= k && freereg == old(freereg) && OnlyLocals(d.kind, nactvar)
      ensures Described(old(code), Elems(old(held)), code, k, e, d, tq, fq, held, freereg)
      decreases e, 1
    {
      hide Described, GoesOn, Indexed, JumpList, Pending;
      tq, fq := [], [];
      match e
      case Local(r) =>
        d := ExpDesc(VLocal(r), NO_JUMP, NO_JUMP);
        StartDescribed(code, k, e, d.kind, jpc, held, freereg);
      case Literal(v) =>
        d := ExpDesc(VConst(v), NO_JUMP, NO_JUMP);
        StartDescribed(code, k, e, d.kind, jpc, held, freereg);
      case Rel(op, x, y) =>
        d := CodeComp(op, x, y);
      case Not(a) =>
        d, tq, fq := SubExpr(a);
        d := DischargeVars(d, a, old(code), Elems(old(held)), tq, fq);
        d := CodeNot(d, a, old(code), Elems(old(held)), tq, fq);
        tq, fq := fq, tq;
      case And(a, b) =>
        d, tq, fq := Binary(true, a, b);
      case Or(a, b) =>
        d, tq, fq := Binary(false, a, b);
    }

    method Binary(and: bool, a: Expr, b: Expr) returns (d: ExpDesc, ghost tq: seq<nat>, ghost fq: seq<nat>)
      requires Valid() && Rested(code) && Scope(a, nactvar) && Scope(b, nactvar) && freereg + 2 < MAXSTACK
      modifies `code, `jpc, `held, `k, `h, `freereg
      ensures Valid() && old(k) <= k && freereg == old(freereg) && OnlyLocals(d.kind, nactvar)
      ensures Described(old(code), Elems(old(held)), code, k, Joined(and, a, b), d, tq, fq, held, freereg)
      decreases Joined(and, a, b), 0
    {
      ghost var code0, p0 := code, Elems(held);
      hide Described, GoesOn, Indexed, JumpList, Pending, Scope, Rested, Relinked;
      d, tq, fq := SubExpr(a);
      d := DischargeVars(d, a, code0, p0, tq, fq);
      var l: int;
      ghost var q;
      l, q := GoIf(and, d, a, code0, p0, tq, fq);
      ghost var code1, k1, pq := code, k, held;
      d, tq, fq := SubExpr(b);
      d := DischargeVars(d, b, code1, Elems(pq), tq, fq);
      ScopeMore(b, nactvar, freereg);
      d := Join(and, d, l, a, b, code0, p0, code1, k1, pq, q, tq, fq);
      tq, fq := if and then tq else tq + q, if and then fq + q else fq;
    }

    /** lcode.c `luaK_dischargevars`: a local variable is a value in a register. */
    method DischargeVars(d: ExpDesc, ghost e: Expr, ghost code0: seq<Instr>, ghost p0: set<nat>, ghost tq: seq<nat>,
                         ghost fq: seq<nat>) returns (d': ExpDesc)
      requires Valid() && OnlyLocals(d.kind, nactvar) && Described(code0, p0, code, k, e, d, tq, fq, held, freereg)
      ensures !d'.kind.VLocal? && OnlyLocals(d'.kind, nactvar)
      ensures Described(code0, p0, code, k, e, d', tq, fq, held, freereg)
    {
      match d.kind
      case VLocal(r) =>
        d' := d.(kind := VNonReloc(r));
        Discharged(code0, p0, code, k, e, d, tq, fq, held, freereg);
      case _ =>
        d' := d;
    }

    // ----- Values in registers -----

    /** lcode.c `need_value`. */
    method NeedValue(head: int, ghost q: seq<nat>) returns (b: bool)
      requires JumpList(code, head, q)
      ensures b == !AllValues(code, Elems(q))
    {
      var list := head;
      ghost var i := 0;
      assert q[0..] == q;
      b := false;
      while list != NO_JUMP
        invariant 0 <= i <= |q| && list == Head(q[i..])
        invariant forall m :: 0 <= m < i ==> HasValue(code, q[m])
        decreases |q| - i
      {
        assert list == q[i] && q[i] in Elems(q);
        assert IsJump(code, list) && GetJump(code, list) == Head(q[i + 1..]);
        if !HasValue(code, list) {
          return true;
        }
        list := GetJump(code, list);
        i := i + 1;
      }
      assert i == |q|;
    }

    /** lcode.c `discharge2reg`, and the jump of a comparison joins the true list. */
    method Discharge2Reg(d: ExpDesc, reg: nat, ghost e: Expr, ghost code0: seq<Instr>, ghost p0: set<nat>,
                         ghost tq: seq<nat>, ghost fq: seq<nat>)
      returns (t: int, bare: bool, ghost tq': seq<nat>)
      requires Valid() && !d.kind.VLocal? && Described(code0, p0, code, k, e, d, tq, fq, held, freereg)
        && reg <= freereg
      modifies `code, `jpc, `held, `k, `h
      ensures Valid() && old(k) <= k && Landing(code0, p0, code, k, e, reg, bare, t, d.f, tq', fq, held, freereg)
    {
      ghost var c, hd := code, held;
      hide Described, Landing, Grown, Indexed, Loads, LoadsConst;
      DescribedLast(code0, p0, code, k, e, d, tq, fq, held, freereg);
      t, bare, tq' := d.t, false, tq;
      match d.kind
      case VNonReloc(x) =>
        if reg != x {
          Code(MOVE(reg, x));
          LandingMove(code0, p0, c, code, k, e, d, tq, fq, hd, freereg, reg);
        } else {
          LandingSame(code0, p0, code, k, e, d, tq, fq, held, freereg);
        }
      case VConst(v) =>
        ghost var k0 := k;
        LoadConst(v, reg);
        DescribedMore(code0, p0, c, k0, k, e, d, tq, fq, hd, freereg);
        LandingConst(code0, p0, c, code, k, e, d, tq, fq, hd, freereg, reg);
      case VReloc(pc) =>
        ListFacts(code, jpc, held);
        code := code[pc := NOT(reg, code[pc].b)];
        NothingPending(code);
        LandingNot(code0, p0, c, code, k, e, d, tq, fq, freereg, reg);
      case VJmp(pc) =>
        bare := true;
        tq' := tq + [pc];
        LandingStart(code0, p0, code, k, e, d, tq, fq, freereg, reg);
        hide JumpList;
        t := Concat(t, pc, tq, [pc]);
        LandingJmp(code0, p0, c, code, k, e, d, tq, fq, freereg, reg, t);
        assert held == [] && jpc == NO_JUMP;
        NothingPending(code);
    }

    /** The part of lcode.c `exp2reg` that emits the two loads of booleans. */
    method LoadBooleans(bare: bool, reg: nat) returns (pf: int, pt: int)
      requires Valid() && Rested(code) && (bare ==> held == [])
      modifies `code, `jpc, `held
      ensures Valid() && Behind(old(code), code, true, bare, reg) && held == if bare then []
        else [|old(code)|] + old(held)
      ensures pf == LoadAt(|old(code)|, bare, false) && pt == LoadAt(|old(code)|, bare, true)
    {
      ghost var c, hd := code, held;
      hide Indexed, Grown, Pending, JumpList;
      var fj: int := NO_JUMP;
      ghost var q: seq<nat> := [];
      if !bare {
        fj := Jump();
        q := [|c|] + hd;
      } else {
        NothingPending(code);
      }
      ghost var c1 := code;
      NothingPending(code);
      assert Elems([]) == {};
      pf := |code|;
      Code(LOADBOOL(reg, false, true));
      GrownByOne(c1, code);
      ghost var c2 := code;
      pt := |code|;
      Code(LOADBOOL(reg, true, false));
      GrownByOne(c2, code);
      assert code == c1 + [LOADBOOL(reg, false, true), LOADBOOL(reg, true, false)];
      LoadsPending(c, c1, code, bare, fj, hd, q);
      assert forall i :: 0 <= i < |c| ==> c1[i] == c1[..|c|][i];
      PatchToHere(fj, q);
    }

    /** lcode.c `exp2reg`. */
    method Exp2Reg(d: ExpDesc, reg: nat, ghost e: Expr, ghost code0: seq<Instr>, ghost p0: set<nat>, ghost tq: seq<nat>,
                   ghost fq: seq<nat>)
      requires Valid() && !d.kind.VLocal? && Described(code0, p0, code, k, e, d, tq, fq, held, freereg)
        && reg <= freereg
      modifies `code, `jpc, `held, `k, `h
      ensures Valid() && old(k) <= k && Untouched(code0, code, p0) && Evaluates(code0, code, k, e, reg, held, freereg)
      ensures Returned(code0, code, e, p0, reg, held)
    {
      hide Described, Landing, Indexed, Evaluates, Untouched, JumpList, Pending, Behind, BothPatched, AllPending,
          Returned;
      var t, bare;
      ghost var tq';
      t, bare, tq' := Discharge2Reg(d, reg, e, code0, p0, tq, fq);
      ghost var c1, h1 := code, held;
      LandingLists(code0, p0, code, k, e, reg, bare, t, d.f, tq', fq, held, freereg);
      if t != d.f {
        var pf, pt := NO_JUMP, NO_JUMP;
        var loads := NeedValue(t, tq');
        if !loads { loads := NeedValue(d.f, fq); }
        if loads {
          pf, pt := LoadBooleans(bare, reg);
        } else {
          BehindNothing(code, reg);
        }
        var final := |code|;
        ghost var c2 := code;
        LandingBehind(code0, p0, c1, c2, k, e, reg, bare, t, d.f, tq', fq, h1, freereg, loads);
        PatchListAux(d.f, final, reg, pf, fq);
        ghost var c3 := code;
        PatchedOther(c2, c3, fq, final, reg, pf, t, tq');
        PatchListAux(t, final, reg, pt, tq');
        PatchBoth(c2, c3, code, tq', fq, reg, final, pf, pt);
        PatchBothKeeps(c2, code, Elems(tq'), Elems(fq), reg, final, pf, pt, held, jpc);
        ExpDone(code0, p0, c1, c2, code, k, e, reg, bare, t, d.f, tq', fq, h1, held, freereg, loads, pf, pt);
      } else {
        ExpPlain(code0, p0, code, k, e, reg, t, d.f, tq', fq, held, freereg);
      }
    }

    /** lparser.c `expr` followed by lcode.c `exp2reg`, as for an assignment to a local variable or,
        with the first free register, for `luaK_exp2nextreg`. */
    method ExpToReg(e: Expr, reg: nat)
      requires Valid() && Rested(code) && Scope(e, nactvar) && freereg + 2 < MAXSTACK && reg <= freereg
      modifies `code, `jpc, `held, `k, `h, `freereg
      ensures Valid() && old(k) <= k && freereg == old(freereg)
      ensures Untouched(old(code), code, Elems(old(held)))
      ensures Evaluates(old(code), code, k, e, reg, held, freereg)
      ensures Returned(old(code), code, e, Elems(old(held)), reg, held)
    {
      hide Described, Indexed, Evaluates, Untouched, JumpList, Pending, Scope, Rested, Returned;
      ghost var code0, p0 := code, Elems(held);
      var d;
      ghost var tq, fq;
      d, tq, fq := SubExpr(e);
      d := DischargeVars(d, e, code0, p0, tq, fq);
      Exp2Reg(d, reg, e, code0, p0, tq, fq);
    }

    /** The instruction behind the expression settles its last jumps: the whole of what has been
        emitted then brings a value into `reg` and goes on at that instruction. It is the value of
        `e`, exactly unless the run is misled by a caught jump. The code before stays, and the jumps that
        waited lead to the start of the expression, where none of its own jumps can catch them. Every
        emitted instruction fits its fields. */
    method ExpThen(e: Expr, reg: nat, next: Instr)
      requires Valid() && Rested(code) && Scope(e, nactvar) && freereg + 2 < MAXSTACK && reg <= freereg
      modifies `code, `jpc, `held, `k, `h, `freereg
      ensures Valid() && held == [] && old(k) <= k && freereg == old(freereg) && |old(code)| < |code|
        && code[|code| - 1] == next
      ensures forall env: Env, regs: Regs :: k <= env.k && |regs| == MAXSTACK ==>
        var o := Exec(code, env, |old(code)|, |code| - 1, regs, {});
        && o.Fall? && o.pc == |code| - 1 && Reg(o.regs, reg) == Delivered(env, regs, e)
        && (Reg(o.regs, reg) == Eval(env, regs, e) <==> !Misled(env, regs, e))
        && (Unconditional(e) ==> Reg(o.regs, reg) == Eval(env, regs, e))
        && |o.regs| == MAXSTACK && forall r :: 0 <= r < freereg && r != reg ==> o.regs[r] == regs[r]
      ensures Untouched(old(code), code, Elems(old(held)))
      ensures Rejoins(old(code), code, Elems(old(held)), reg, |code| - 1)
      ensures Unconditional(e) ==> Straight(old(code), code, Elems(old(held)))
      ensures forall i :: |old(code)| <= i < |code| - 1 ==> FitsFields(code[i])
    {
      hide Indexed, Evaluates, Untouched, JumpList, Pending, Scope, Rested, Grown, Exec, Delivered, Eval, Misled,
          Unconditional, Rejoins, Returned, Straight;
      ghost var code0, p0 := code, Elems(held);
      ExpToReg(e, reg);
      UntouchedLength(code0, code, p0);
      ghost var c, hd := code, held;
      Code(next);
      NextInstruction(code0, c, code, k, e, reg, hd, freereg);
      NextRejoins(code0, c, code, e, p0, reg, hd);
      forall env, regs
        ensures Delivered(env, regs, e) == Eval(env, regs, e) <==> !Misled(env, regs, e)
        ensures Unconditional(e) ==> Delivered(env, regs, e) == Eval(env, regs, e)
      {
        DeliveredRight(env, regs, e);
        if Unconditional(e) { UnconditionalRight(env, regs, e); }
      }
    }

    /** lcode.c `luaK_goiftrue` (`b`) and `luaK_goiffalse` on a whole expression, and the instruction
        behind: control arrives there exactly if the expression is `b`, and leaves by the list otherwise.
        The code before stays, and the jumps that waited share the fate of the first instruction. */
    method ConditionThen(e: Expr, b: bool, next: Instr) returns (l: int, ghost q: seq<nat>)
      requires Valid() && Rested(code) && Scope(e, nactvar) && freereg + 2 < MAXSTACK
      modifies `code, `jpc, `held, `k, `h, `freereg
      ensures Valid() && held == [] && old(k) <= k && freereg == old(freereg) && |old(code)| < |code|
        && code[|code| - 1] == next && JumpList(code, l, q)
      ensures forall env: Env, regs: Regs :: k <= env.k && |regs| == MAXSTACK ==>
        var o := Exec(code, env, |old(code)|, |code| - 1, regs, Elems(q));
        && Keeps(regs, o.regs, freereg)
        && if Truthy(Eval(env, regs, e)) == b then o == Fall(|code| - 1, o.regs) else o.Jump? && o.j in Elems(q)
      ensures Entered(old(code), code, Elems(old(held)), Elems(q), {}, {})
      ensures forall i :: |old(code)| <= i < |code| - 1 ==> FitsFields(code[i])
    {
      hide Entered, Described, GoesOn, Indexed, JumpList, Pending, Scope, Rested, Grown, Exec, Eval, Keeps;
      ghost var code0, p0 := code, Elems(held);
      var d;
      ghost var tq, fq;
      d, tq, fq := SubExpr(e);
      d := DischargeVars(d, e, code0, p0, tq, fq);
      l, q := GoIf(b, d, e, code0, p0, tq, fq);
      ghost var c, hd := code, held;
      GoesOnLength(code0, p0, c, k, e, b, l, q, hd, freereg);
      Code(next);
      NextAfterCondition(code0, p0, c, code, k, e, b, l, q, hd, freereg);
      ConditionEntered(code0, p0, c, code, k, e, b, l, q, hd, freereg);
    }
  }
}
