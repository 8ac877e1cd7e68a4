/** The end of an expression: its value is brought into one register. */
module CodeFinal {
  import opened CodeVm
  import opened CodeLists
  import opened CodeRoute
  import opened CodeSem

  ghost predicate KeepsBut(regs: Regs, r: Regs, free: nat, reg: nat) {
    |r| == |regs| && forall i :: 0 <= i < free && i < |regs| && i != reg ==> r[i] == regs[i]
  }

  /** The code delivers `v` in `reg` and ends behind itself. */
  ghost predicate Delivers(code: seq<Instr>, env: Env, lo: nat, v: Value, reg: nat, free: nat, regs: Regs) {
    lo <= |code| &&
    var o := Exec(code, env, lo, |code|, regs, {});
    o.Fall? && o.pc == |code| && Reg(o.regs, reg) == v && KeepsBut(regs, o.regs, free, reg)
  }

  /** A jump behind a TESTSET has the value in the tested register; any other stands for a boolean. */
  predicate JumpValue(code: seq<Instr>, j: nat, regs: Regs, v: Value, b: bool) {
    if HasValue(code, j) then Reg(regs, code[j - 1].b) == v else v == Bool(b)
  }

  /** A run up to the end of `code`: what its pending jumps know, and what `v` is on arrival. In
      the comparison case only that it is false. */
  ghost predicate Lands(code: seq<Instr>, env: Env, lo: nat, v: Value, reg: nat, bare: bool, tj: set<nat>, fj: set<nat>,
                        pj: set<nat>, free: nat, regs: Regs) {
    var o := Exec(code, env, lo, |code|, regs, tj + fj + pj);
    && Proper(o, |code|, tj + fj + pj) && KeepsBut(regs, o.regs, free, reg)
    && if o.Jump? && o.j in tj then JumpValue(code, o.j, o.regs, v, true)
       else if o.Jump? && o.j in fj then JumpValue(code, o.j, o.regs, v, false)
       else if bare then v == Bool(false) else Reg(o.regs, reg) == v
  }

  /** What is delivered is what the jump brings, or what arrives. */
  lemma DeliveredAt(code: seq<Instr>, env: Env, e: Expr, kind: Kind, tj: set<nat>, fj: set<nat>, j: nat, regs: Regs,
                    regs0: Regs)
    requires JumpEnds(code, env, kind, tj, fj, Eval(env, regs0, e), j, regs, Through(env, regs0, e, Nothing))
      && tj !! fj
    ensures j in tj + fj ==> JumpValue(code, j, regs, Delivered(env, regs0, e), j in tj)
    ensures j !in tj + fj ==> Arrives(code, env, kind, regs, Delivered(env, regs0, e))
  {
  }

  // ----- discharge2reg -----

  lemma LandMove(code: seq<Instr>, code': seq<Instr>, env: Env, lo: nat, e: Expr, x: nat, tj: set<nat>, fj: set<nat>,
                 pj: set<nat>, free: nat, regs: Regs, reg: nat)
    requires Layout(code, lo, VNonReloc(x), tj, fj, pj, free)
      && Yields(code, env, lo, e, VNonReloc(x), tj, fj, pj, free, regs)
    requires Grown(code, code', pj) && |code'| == |code| + 1 && code'[|code|] == MOVE(reg, x) && reg <= free
      && |regs| == MAXSTACK
    ensures Lands(code', env, lo, Delivered(env, regs, e), reg, false, tj, fj, {}, free, regs)
  {
    var o := Exec(code, env, lo, |code|, regs, tj + fj + pj);
    hide Eval, Through, Delivered;
    if Through(env, regs, e, Nothing).Arrive? { DeliveredHere(env, regs, e); }
    LandGrown(code, code', env, lo, e, VNonReloc(x), tj, fj, pj, free, regs, reg, Reg(o.regs, x));
  }

  /** A run that arrives delivers the value of the expression. */
  lemma DeliveredHere(env: Env, regs: Regs, e: Expr)
    requires Through(env, regs, e, Nothing).Arrive?
    ensures Delivered(env, regs, e) == Eval(env, regs, e)
  {
  }

  /** The value is brought into `reg` by one instruction. */
  lemma LandGrown(code: seq<Instr>, code': seq<Instr>, env: Env, lo: nat, e: Expr, kind: Kind, tj: set<nat>,
                  fj: set<nat>,
                  pj: set<nat>, free: nat, regs: Regs, reg: nat, w: Value)
    requires Layout(code, lo, kind, tj, fj, pj, free) && Yields(code, env, lo, e, kind, tj, fj, pj, free, regs)
    requires Grown(code, code', pj) && |code'| == |code| + 1 && !IsTest(code'[|code|]) && Stop(code, kind) == |code|
    requires var o := Exec(code, env, lo, |code|, regs, tj + fj + pj);
      && Next(code'[|code|], env, |code|, o.regs) == (|code| + 1, Set(o.regs, reg, w))
      && (o.Fall? || o.j in pj ==> w == Delivered(env, regs, e))
    requires reg <= free && |regs| == MAXSTACK
    ensures Lands(code', env, lo, Delivered(env, regs, e), reg, false, tj, fj, {}, free, regs)
  {
    hide Eval, Through, Delivered, Arrives;
    var hi, xs := |code|, tj + fj + {};
    assert tj + fj + pj == (tj + fj) + pj && xs == tj + fj;
    PendingBelow(code, tj);
    PendingBelow(code, fj);
    GrownExec(code, code', env, lo, |code'|, regs, tj + fj, pj, xs);
    GrownSame(code, code', pj, tj + fj);
    var o := Exec(code, env, lo, hi, regs, tj + fj + pj);
    hide AllPending, Grown;
    if o.Jump? && o.j in tj + fj {
      DeliveredAt(code, env, e, kind, tj, fj, o.j, o.regs, regs);
      assert SameTest(code, code', o.j);
    } else {
      var r := Set(o.regs, reg, w);
      assert Exec(code', env, hi + 1, hi + 1, r, xs) == Fall(hi + 1, r);
      assert Exec(code', env, hi, hi + 1, o.regs, xs) == Fall(hi + 1, r);
    }
  }

  /** A constant is loaded. */
  lemma LandConst(code: seq<Instr>, code': seq<Instr>, env: Env, lo: nat, e: Expr, v: Value, tj: set<nat>, fj: set<nat>,
                  pj: set<nat>, free: nat, regs: Regs, reg: nat)
    requires Layout(code, lo, VConst(v), tj, fj, pj, free)
      && Yields(code, env, lo, e, VConst(v), tj, fj, pj, free, regs)
    requires Grown(code, code', pj) && |code'| == |code| + 1 && Loads(code'[|code|], env, reg, v)
      && !IsTest(code'[|code|])
    requires reg <= free && |regs| == MAXSTACK
    ensures Lands(code', env, lo, Delivered(env, regs, e), reg, false, tj, fj, {}, free, regs)
  {
    hide Eval, Through, Delivered;
    if Through(env, regs, e, Nothing).Arrive? { DeliveredHere(env, regs, e); }
    LandGrown(code, code', env, lo, e, VConst(v), tj, fj, pj, free, regs, reg, v);
  }

  lemma LandSame(code: seq<Instr>, env: Env, lo: nat, e: Expr, tj: set<nat>, fj: set<nat>, pj: set<nat>, free: nat,
                 regs: Regs, reg: nat)
    requires Yields(code, env, lo, e, VNonReloc(reg), tj, fj, pj, free, regs) && tj !! fj
    ensures Lands(code, env, lo, Delivered(env, regs, e), reg, false, tj, fj, pj, free, regs)
  {
    hide Eval, Through, Exec;
    var o := Exec(code, env, lo, |code|, regs, tj + fj + pj);
    if o.Jump? { DeliveredAt(code, env, e, VNonReloc(reg), tj, fj, o.j, o.regs, regs); }
  }

  lemma LandNot(code: seq<Instr>, env: Env, lo: nat, e: Expr, pc: nat, tj: set<nat>, fj: set<nat>, free: nat,
                regs: Regs, reg: nat)
    requires Layout(code, lo, VReloc(pc), tj, fj, {}, free)
      && Yields(code, env, lo, e, VReloc(pc), tj, fj, {}, free, regs)
    requires reg <= free && |regs| == MAXSTACK
    ensures Lands(code[pc := NOT(reg, code[pc].b)], env, lo, Delivered(env, regs, e), reg, false, tj, fj, {}, free,
                  regs)
  {
    hide Eval, Through;
    var code', xs := code[pc := NOT(reg, code[pc].b)], tj + fj + {};
    SimilarExec(code, code', env, lo, lo, pc, regs, xs);
    SplitExec(code', env, lo, pc, pc + 1, regs, xs);
    PrefixSame(code, code', pc, tj + fj);
    hide AllPending;
    var o := Exec(code, env, lo, pc, regs, xs);
    if o.Fall? {
      var r := Set(o.regs, reg, Bool(!Truthy(Reg(o.regs, code[pc].b))));
      assert Exec(code', env, pc + 1, pc + 1, r, xs) == Fall(pc + 1, r);
      assert Exec(code', env, pc, pc + 1, o.regs, xs) == Fall(pc + 1, r);
    } else {
      DeliveredAt(code, env, e, VReloc(pc), tj, fj, o.j, o.regs, regs);
      assert SameTest(code, code', o.j);
    }
  }

  /** A comparison's own jump counts as a true jump; without it the value is false. */
  lemma LandJmp(code: seq<Instr>, env: Env, lo: nat, e: Expr, pc: nat, tj: set<nat>, fj: set<nat>, free: nat,
                regs: Regs, reg: nat)
    requires Layout(code, lo, VJmp(pc), tj, fj, {}, free) && Yields(code, env, lo, e, VJmp(pc), tj, fj, {}, free, regs)
    ensures Lands(code, env, lo, Delivered(env, regs, e), reg, true, tj + {pc}, fj, {}, free, regs)
  {
    hide Exec, Eval, Through;
    var xs, ys := tj + fj + {}, tj + {pc} + fj + {};
    CompareRun(code, code, env, lo, pc, xs, regs);
    assert xs + {pc} == ys;
    hide AllPending;
    var o := Exec(code, env, lo, pc - 1, regs, xs);
    if o.Jump? { DeliveredAt(code, env, e, VJmp(pc), tj, fj, o.j, o.regs, regs); }
  }

  // ----- The lists are patched -----

  /** Where a jump of the true or false list goes: to the end if its TESTSET delivers the value,
      else to the instruction that loads the boolean. */
  function Target(code: seq<Instr>, j: nat, final: nat, load: nat): nat {
    if HasValue(code, j) then final else load
  }

  ghost predicate Final(code: seq<Instr>, code': seq<Instr>, tj: set<nat>, fj: set<nat>, pj: set<nat>, reg: nat,
                        final: nat, pf: nat, pt: nat) {
    && |code| <= |code'|
    && (forall i :: i in tj ==> i < |code| && code'[i] == JMP(Target(code, i, final, pt) as int - (i + 1)))
    && (forall i :: i in fj ==> i < |code| && code'[i] == JMP(Target(code, i, final, pf) as int - (i + 1)))
    && (forall i :: i in pj ==> i < |code| && code'[i] == JMP(final as int - (i + 1)))
    && (forall i :: 0 <= i < |code| && i !in tj + fj + pj ==>
        code'[i] == FinishedAt(code, tj + fj + pj, tj + fj, reg, i))
  }

  /** The instructions behind: nothing if every jump brings its value along, else the two loads,
      behind a jump around them unless the value is a bare comparison. */
  ghost predicate Tail(code: seq<Instr>, code': seq<Instr>, loads: bool, bare: bool, reg: nat, final: nat, pf: nat,
                       pt: nat) {
    && |code'| == final
    && (if !loads then !bare && final == |code|
        else if bare then final == |code| + 2 && pf == |code| && pt == |code| + 1
        else final == |code| + 3 && pf == |code| + 1 && pt == |code| + 2 && code'[|code|] == JMP(2))
    && (loads ==> code'[pf] == LOADBOOL(reg, false, true) && code'[pt] == LOADBOOL(reg, true, false))
  }

  ghost predicate AllValues(code: seq<Instr>, js: set<nat>) {
    forall j :: j in js ==> HasValue(code, j)
  }

  lemma LoadExec(code: seq<Instr>, env: Env, pc: nat, regs: Regs, reg: nat, b: bool)
    requires pc < |code| && code[pc] == LOADBOOL(reg, b, !b) && |code| == (if b then pc + 1 else pc + 2)
    ensures Exec(code, env, pc, |code|, regs, {}) == Fall(|code|, Set(regs, reg, Bool(b)))
  {
    assert Exec(code, env, |code|, |code|, Set(regs, reg, Bool(b)), {}) == Fall(|code|, Set(regs, reg, Bool(b)));
  }

  lemma JumpExec(code: seq<Instr>, env: Env, pc: nat, dest: nat, regs: Regs)
    requires pc < dest <= |code| && code[pc] == JMP(dest - (pc + 1))
    ensures Exec(code, env, pc, |code|, regs, {}) == Exec(code, env, dest, |code|, regs, {})
  {
  }

  /** A patched jump of the true (`b`) or false list ends at the end, with the value in `reg`. */
  lemma JumpLands(code: seq<Instr>, code': seq<Instr>, env: Env, j: nat, b: bool, js: set<nat>, vj: set<nat>, reg: nat,
                  final: nat, load: nat, v: Value, regs: Regs, loads: bool)
    requires j in js && js <= vj && j < |code| <= |code'| == final
      && code'[j] == JMP(Target(code, j, final, load) as int - (j + 1))
    requires loads ==> |code| <= load < final && code'[load] == LOADBOOL(reg, b, !b) && final == (if b then load + 1
        else load + 2)
    requires !loads ==> AllValues(code, js)
    requires JumpValue(code, j, regs, v, b) && reg < |regs| && reg != NO_REG
    ensures var o := Exec(code', env, j, final, AtExit(code, j, regs, vj, reg), {});
      o.Fall? && o.pc == final && Reg(o.regs, reg) == v && o.regs == Set(regs, reg, v)
  {
    var r := AtExit(code, j, regs, vj, reg);
    if HasValue(code, j) {
      JumpExec(code', env, j, final, r);
      assert Exec(code', env, final, final, r, {}) == Fall(final, r);
    } else {
      JumpExec(code', env, j, load, r);
      LoadExec(code', env, load, r, reg, b);
    }
  }

  /** Falling off the end of the code proper. */
  lemma FallLands(code: seq<Instr>, code': seq<Instr>, env: Env, loads: bool, bare: bool, reg: nat, final: nat, pf: nat,
                  pt: nat, v: Value, regs: Regs)
    requires |code| <= |code'| && Tail(code, code', loads, bare, reg, final, pf, pt)
    requires if bare then v == Bool(false) else Reg(regs, reg) == v
    requires reg < |regs| && reg != NO_REG
    ensures var o := Exec(code', env, |code|, final, regs, {});
      o.Fall? && o.pc == final && Reg(o.regs, reg) == v && (o.regs == Set(regs, reg, v) || o.regs == regs)
  {
    if loads && bare {
      LoadExec(code', env, pf, regs, reg, false);
    } else if loads {
      JumpExec(code', env, |code|, final, regs);
      assert Exec(code', env, final, final, regs, {}) == Fall(final, regs);
    }
  }

  /** The finished code delivers the value of the expression. */
  lemma FinalDelivers(code: seq<Instr>, code': seq<Instr>, env: Env, lo: nat, v: Value, reg: nat, bare: bool,
                      loads: bool,
                      tj: set<nat>, fj: set<nat>, pj: set<nat>, free: nat, regs: Regs, final: nat, pf: nat, pt: nat)
    requires lo <= |code| && Lands(code, env, lo, v, reg, bare, tj, fj, pj, free, regs)
    requires AllPending(code, tj) && AllPending(code, fj) && AllPending(code, pj) && tj !! fj && tj !! pj && fj !! pj
    requires Final(code, code', tj, fj, pj, reg, final, pf, pt) && Tail(code, code', loads, bare, reg, final, pf, pt)
    requires !loads ==> AllValues(code, tj) && AllValues(code, fj)
    requires bare ==> pj == {}
    requires reg < |regs| == MAXSTACK
    ensures Delivers(code', env, lo, v, reg, free, regs)
  {
    var hi, xs, vj := |code|, tj + fj + pj, tj + fj;
    var o := Exec(code, env, lo, hi, regs, xs);
    assert Finished(code, code', lo, hi, xs, vj,
                    reg) by { FinalFinished(code, code', lo, tj, fj, pj, reg, final, pf, pt); }
    FinishExec(code, code', env, lo, lo, hi, final, regs, xs, vj, reg);
    hide Exec, AllPending;
    if o.Jump? && o.j in tj {
      JumpLands(code, code', env, o.j, true, tj, vj, reg, final, pt, v, o.regs, loads);
    } else if o.Jump? && o.j in fj {
      JumpLands(code, code', env, o.j, false, fj, vj, reg, final, pf, v, o.regs, loads);
    } else if o.Jump? {
      HeldLands(code, code', env, o.j, lo, pj, vj, reg, final, o.regs);
    } else {
      FallLands(code, code', env, loads, bare, reg, final, pf, pt, v, o.regs);
    }
  }

  lemma HeldLands(code: seq<Instr>, code': seq<Instr>, env: Env, j: nat, lo: nat, pj: set<nat>, vj: set<nat>, reg: nat,
                  final: nat, regs: Regs)
    requires j in pj && pj !! vj && j < |code| <= |code'| == final && code'[j] == JMP(final as int - (j + 1))
    ensures Exec(code', env, j, final, AtExit(code, j, regs, vj, reg), {}) == Fall(final, regs)
  {
    JumpExec(code', env, j, final, regs);
    assert Exec(code', env, final, final, regs, {}) == Fall(final, regs);
  }

  lemma FinalFinished(code: seq<Instr>, code': seq<Instr>, lo: nat, tj: set<nat>, fj: set<nat>, pj: set<nat>, reg: nat,
                      final: nat, pf: nat, pt: nat)
    requires AllPending(code, tj) && AllPending(code, fj) && AllPending(code, pj)
    requires Final(code, code', tj, fj, pj, reg, final, pf, pt)
    ensures Finished(code, code', lo, |code|, tj + fj + pj, tj + fj, reg)
  {
    forall i | lo <= i < |code| && i + 1 in tj + fj + pj && code[i].TESTSET?
      ensures code[i].a == NO_REG
    {
      assert PendingJump(code, i + 1);
    }
  }
}
