/** The instructions that boolean expressions compile to, a machine for them, and how runs
    change when pending jumps are patched. */
module CodeVm {

  /** Lua values; `Other` stands for tables, functions, strings and so on. */
  datatype Value = Nil | Bool(b: bool) | Num(n: int) | Other(id: int)

  predicate Truthy(v: Value) {
    v != Nil && v != Bool(false)
  }

  /** A register or a constant operand. */
  datatype Operand = R(r: nat) | K(i: nat)

  datatype CmpOp = Eq | Lt | Le

  datatype Instr =
    | MOVE(a: nat, b: nat)
    | LOADK(a: nat, bx: nat)
    | LOADNIL(a: nat)
    | LOADBOOL(a: nat, v: bool, skip: bool)
    | NOT(a: nat, b: nat)
    | JMP(sbx: int)
    | CMP(op: CmpOp, cond: bool, x: Operand, y: Operand)
    | TEST(a: nat, c: bool)
    | TESTSET(a: nat, b: nat, c: bool)

  /** End of a jump list. */
  const NO_JUMP: int := -1
  /** An invalid register: where a TESTSET would put its value is not known yet. */
  const NO_REG: nat := 255
  const MAXSTACK: nat := 250
  const MAXINDEXRK: nat := 255

  /** An operand fits into nine bits, one of which tells constants from registers. */
  predicate FitsOperand(o: Operand) {
    match o
    case R(r) => r < 250
    case K(i) => i < 256
  }

  /** The registers and operands of an instruction fit into their fields; the target of a TESTSET may still
      be unknown. */
  predicate FitsFields(i: Instr) {
    match i
    case MOVE(a, b) => a < 250 && b < 250
    case LOADK(a, _) => a < 250
    case LOADNIL(a) => a < 250
    case LOADBOOL(a, _, _) => a < 250
    case NOT(a, b) => a < 250 && b < 250
    case JMP(_) => true
    case CMP(_, _, x, y) => FitsOperand(x) && FitsOperand(y)
    case TEST(a, _) => a < 250
    case TESTSET(a, b, _) => (a < 250 || a == 255) && b < 250
  }

  /** lopcodes.c: the T bit of the opcode modes. */
  predicate IsTest(i: Instr) {
    i.CMP? || i.TEST? || i.TESTSET?
  }

  type Regs = seq<Value>

  /** The comparisons of values are parameters: any deterministic functions. */
  datatype Env = Env(k: seq<Value>, eq: (Value, Value) -> bool, lt: (Value, Value) -> bool, le: (Value, Value) -> bool)

  function Reg(regs: Regs, r: nat): Value {
    if r < |regs| then regs[r] else Nil
  }

  function Set(regs: Regs, r: nat, v: Value): Regs {
    if r < |regs| && r != NO_REG then regs[r := v] else regs
  }

  function Rk(env: Env, regs: Regs, x: Operand): Value {
    match x
    case R(r) => Reg(regs, r)
    case K(i) => if i < |env.k| then env.k[i] else Nil
  }

  predicate Compare(env: Env, op: CmpOp, v: Value, w: Value) {
    match op
    case Eq => env.eq(v, w)
    case Lt => env.lt(v, w)
    case Le => env.le(v, w)
  }

  /** One instruction, as described in lopcodes.h. */
  function Next(i: Instr, env: Env, pc: nat, regs: Regs): (int, Regs) {
    match i
    case MOVE(a, b) => (pc + 1, Set(regs, a, Reg(regs, b)))
    case LOADK(a, bx) => (pc + 1, Set(regs, a, Rk(env, regs, K(bx))))
    case LOADNIL(a) => (pc + 1, Set(regs, a, Nil))
    case LOADBOOL(a, v, skip) => (if skip then pc + 2 else pc + 1, Set(regs, a, Bool(v)))
    case NOT(a, b) => (pc + 1, Set(regs, a, Bool(!Truthy(Reg(regs, b)))))
    case JMP(sbx) => (pc + 1 + sbx, regs)
    case CMP(op, cond, x, y) => (if Compare(env, op, Rk(env, regs, x), Rk(env, regs, y)) != cond then pc + 2
                                 else pc + 1, regs)
    case TEST(a, c) => (if Truthy(Reg(regs, a)) != c then pc + 2 else pc + 1, regs)
    case TESTSET(a, b, c) =>
      if Truthy(Reg(regs, b)) == c then (pc + 1, Set(regs, a, Reg(regs, b))) else (pc + 2, regs)
  }

  /** How a run of a region ends: at a position, or by taking a pending jump. */
  datatype Outcome = Fall(pc: nat, regs: Regs) | Jump(j: nat, regs: Regs)

  /** A test lets the jump that follows it happen. */
  predicate Taken(i: Instr, env: Env, regs: Regs)
    requires IsTest(i)
  {
    Next(i, env, 0, regs).0 == 1
  }

  /** The instruction is the jump of a test. */
  predicate Controlled(code: seq<Instr>, pc: nat) {
    1 <= pc <= |code| && IsTest(code[pc - 1])
  }

  /** Run from `pc` up to `hi`. Jumps in `exits` are pending: a run that takes one ends there, with
      the registers as they were before its test, if it has one. */
  function Exec(code: seq<Instr>, env: Env, pc: nat, hi: nat, regs: Regs, exits: set<nat>): Outcome
    requires hi <= |code|
    decreases if pc <= hi then hi - pc else 0
  {
    if pc >= hi then Fall(pc, regs)
    else if pc in exits then if Controlled(code, pc) then Fall(pc, regs) else Jump(pc, regs)
    else if IsTest(code[pc]) && pc + 1 in exits then
      if Taken(code[pc], env, regs) then Jump(pc + 1, regs) else Exec(code, env, pc + 2, hi, regs, exits)
    else
      var (pc', regs') := Next(code[pc], env, pc, regs);
      if pc' <= pc then Fall(pc, regs) else Exec(code, env, pc', hi, regs', exits)
  }

  /** A run that ends as it should: at the end or by a pending jump. */
  predicate Proper(o: Outcome, hi: nat, exits: set<nat>) {
    if o.Fall? then o.pc == hi else o.j in exits
  }

  /** `j` may replace `i` without any effect while its value is not asked for. */
  predicate Alike(i: Instr, j: Instr) {
    i == j || (i.TESTSET? && i.a == NO_REG && j == TEST(i.b, i.c))
  }

  ghost predicate Similar(code: seq<Instr>, code': seq<Instr>, lo: nat, hi: nat, exits: set<nat>) {
    && hi <= |code| && hi <= |code'|
    && (forall i :: lo <= i < hi && i !in exits ==> Alike(code[i], code'[i]))
    && (forall i :: lo <= i < hi && i in exits ==> (Controlled(code, i) <==> Controlled(code', i)))
  }

  lemma AlikeNext(i: Instr, j: Instr, env: Env, pc: nat, regs: Regs)
    requires Alike(i, j)
    ensures Next(i, env, pc, regs) == Next(j, env, pc, regs)
    ensures IsTest(i) == IsTest(j) && (IsTest(i) ==> Taken(i, env, regs) == Taken(j, env, regs))
  {
  }

  lemma {:induction false} SimilarExec(code: seq<Instr>, code': seq<Instr>, env: Env, lo: nat, pc: nat, hi: nat,
                                       regs: Regs, exits: set<nat>)
    requires Similar(code, code', lo, hi, exits) && lo <= pc
    ensures Exec(code', env, pc, hi, regs, exits) == Exec(code, env, pc, hi, regs, exits)
    decreases if pc <= hi then hi - pc else 0
  {
    if pc < hi && pc !in exits {
      AlikeNext(code[pc], code'[pc], env, pc, regs);
      if IsTest(code[pc]) && pc + 1 in exits {
        SimilarExec(code, code', env, lo, pc + 2, hi, regs, exits);
      } else {
        var (pc', regs') := Next(code[pc], env, pc, regs);
        if pc' > pc { SimilarExec(code, code', env, lo, pc', hi, regs', exits); }
      }
    }
  }

  /** A run to `hi2` is a run to `hi1` continued. */
  lemma {:induction false} SplitExec(code: seq<Instr>, env: Env, pc: nat, hi1: nat, hi2: nat, regs: Regs,
                                     exits: set<nat>)
    requires pc <= hi1 <= hi2 <= |code| && Proper(Exec(code, env, pc, hi1, regs, exits), hi1, exits)
    ensures var o := Exec(code, env, pc, hi1, regs, exits);
      Exec(code, env, pc, hi2, regs, exits) == if o.Jump? then o else Exec(code, env, hi1, hi2, o.regs, exits)
    decreases hi1 - pc
  {
    if pc < hi1 && pc !in exits {
      if IsTest(code[pc]) && pc + 1 in exits {
        if !Taken(code[pc], env, regs) && pc + 2 <= hi1 { SplitExec(code, env, pc + 2, hi1, hi2, regs, exits); }
      } else {
        var (pc', regs') := Next(code[pc], env, pc, regs);
        if pc < pc' <= hi1 { SplitExec(code, env, pc', hi1, hi2, regs', exits); }
      }
    }
  }

  /** Where a jump goes. */
  function Goal(code: seq<Instr>, j: nat): int
    requires j < |code| && code[j].JMP?
  {
    j + 1 + code[j].sbx
  }

  /** All jumps of `js` lead to `m`, or where the jump at `m` leads. */
  ghost predicate Lead(code: seq<Instr>, js: set<nat>, m: nat) {
    && (forall j :: j in js ==> j < |code| && code[j].JMP?)
    && ((forall j :: j in js ==> Goal(code, j) == m) ||
        (m < |code| && code[m].JMP? && code[m].sbx >= 0 && forall j :: j in js ==> Goal(code, j) == Goal(code, m)))
  }

  /** `code'` goes on behind `hi`, the end of `code`. Of the pending jumps of `code`, those in `js`
      have been given the fate of position `hi`: they are pending if that is, and lead there if not. */
  ghost predicate Continued(code: seq<Instr>, code': seq<Instr>, lo: nat, hi: nat, xs: set<nat>, js: set<nat>,
                            ys: set<nat>) {
    && hi == |code| <= |code'| && js <= xs
    && (forall i :: lo <= i < hi && i !in xs ==> i !in ys && Alike(code[i], code'[i]))
    && (forall i :: lo <= i < hi && i in xs && i !in js ==> i in ys)
    && (forall i :: lo <= i < hi && i in js ==> (i in ys <==> hi in ys))
    && (forall i :: lo <= i < hi && i in xs && i in ys ==> (Controlled(code, i) <==> Controlled(code', i)))
    && (forall i :: lo <= i < hi && i + 1 in js && code[i].TESTSET? ==> code[i].a == NO_REG)
    && (forall j :: j in js ==> j < hi)
    && (if hi in ys then !Controlled(code', hi) else Lead(code', js, hi))
  }

  /** A jump that leads where `hi` leads. */
  lemma LeadExec(code: seq<Instr>, env: Env, js: set<nat>, j: nat, hi: nat, end: nat, regs: Regs, ys: set<nat>)
    requires Lead(code, js, hi) && j in js && j < hi <= end <= |code| && j !in ys && hi !in ys
    requires end == hi ==> hi == |code| || !code[hi].JMP?
    ensures Exec(code, env, j, end, regs, ys) == Exec(code, env, hi, end, regs, ys)
  {
    assert Next(code[j], env, j, regs) == (Goal(code, j), regs);
    if Goal(code, j) != hi {
      assert Next(code[hi], env, hi, regs) == (Goal(code, j), regs);
      assert hi < end;
    }
  }

  lemma {:induction false} ContinueExec(code: seq<Instr>, code': seq<Instr>, env: Env, lo: nat, pc: nat, hi: nat,
                                        end: nat, regs: Regs, xs: set<nat>, js: set<nat>, ys: set<nat>)
    requires Continued(code, code', lo, hi, xs, js, ys) && lo <= pc <= hi <= end <= |code'|
      && (forall j :: j in xs ==> j < hi)
    requires end == hi ==> hi !in ys && (hi == |code'| || !code'[hi].JMP?)
    requires Proper(Exec(code, env, pc, hi, regs, xs), hi, xs)
    ensures var o := Exec(code, env, pc, hi, regs, xs);
      Exec(code', env, pc, end, regs, ys) ==
        if o.Jump? && (o.j !in js || hi in ys) then o else Exec(code', env, hi, end, o.regs, ys)
    decreases hi - pc
  {
    hide Lead;
    if pc < hi {
      if pc in xs {
        if pc in js && hi !in ys { LeadExec(code', env, js, pc, hi, end, regs, ys); }
      } else if IsTest(code[pc]) && pc + 1 in xs {
        AlikeNext(code[pc], code'[pc], env, pc, regs);
        ContinueTest(code, code', env, lo, pc, hi, end, regs, xs, js, ys);
        if !Taken(code[pc], env, regs) && pc + 2 <= hi {
          ContinueExec(code, code', env, lo, pc + 2, hi, end, regs, xs, js, ys);
        }
      } else {
        AlikeNext(code[pc], code'[pc], env, pc, regs);
        var (pc', regs') := Next(code[pc], env, pc, regs);
        if pc < pc' <= hi { ContinueExec(code, code', env, lo, pc', hi, end, regs', xs, js, ys); }
      }
    }
  }

  /** A test before a pending jump of the old code. */
  lemma ContinueTest(code: seq<Instr>, code': seq<Instr>, env: Env, lo: nat, pc: nat, hi: nat, end: nat, regs: Regs,
                     xs: set<nat>, js: set<nat>, ys: set<nat>)
    requires Continued(code, code', lo, hi, xs, js, ys) && lo <= pc < hi <= end <= |code'| && pc + 1 < hi
    requires pc !in xs && IsTest(code[pc]) && pc + 1 in xs
    requires end == hi ==> hi !in ys && (hi == |code'| || !code'[hi].JMP?)
    ensures Exec(code', env, pc, end, regs, ys) ==
      if Taken(code[pc], env, regs) then
        (if pc + 1 in js && hi !in ys then Exec(code', env, hi, end, regs, ys) else Jump(pc + 1, regs))
      else Exec(code', env, pc + 2, end, regs, ys)
  {
    hide Lead;
    AlikeNext(code[pc], code'[pc], env, pc, regs);
    if !Taken(code[pc], env, regs) {
      assert Next(code'[pc], env, pc, regs) == (pc + 2, regs);
    } else if pc + 1 !in ys {
      assert Next(code'[pc], env, pc, regs) == (pc + 1, regs);
      LeadExec(code', env, js, pc + 1, hi, end, regs, ys);
    }
  }

  /** Exits that lie outside the region do not matter. */
  lemma {:induction false} ExitsExec(code: seq<Instr>, env: Env, lo: nat, pc: nat, hi: nat, regs: Regs, xs: set<nat>,
                                     ys: set<nat>)
    requires hi <= |code| && lo <= pc && forall i :: lo <= i <= hi ==> (i in xs <==> i in ys)
    ensures Exec(code, env, pc, hi, regs, xs) == Exec(code, env, pc, hi, regs, ys)
    decreases if pc <= hi then hi - pc else 0
  {
    if pc < hi && pc !in xs {
      if IsTest(code[pc]) && pc + 1 in xs {
        ExitsExec(code, env, lo, pc + 2, hi, regs, xs, ys);
      } else {
        var (pc', regs') := Next(code[pc], env, pc, regs);
        if pc' > pc { ExitsExec(code, env, lo, pc', hi, regs', xs, ys); }
      }
    }
  }

  /** The jumps are given their final form with their tests: a taken TESTSET of a jump in `vj` also
      moves its value into `reg`, any other TESTSET only tests. */
  ghost predicate Finished(code: seq<Instr>, code': seq<Instr>, lo: nat, hi: nat, exits: set<nat>, vj: set<nat>,
                           reg: nat) {
    && hi <= |code| && hi <= |code'|
    && (forall i :: lo <= i < hi && i !in exits ==> code'[i] == FinishedAt(code, exits, vj, reg, i))
    && (forall i :: lo <= i < hi && i + 1 in exits && code[i].TESTSET? ==> code[i].a == NO_REG)
  }

  function FinishedAt(code: seq<Instr>, exits: set<nat>, vj: set<nat>, reg: nat, i: nat): Instr
    requires i < |code|
  {
    if i + 1 in exits && code[i].TESTSET? then
      if i + 1 in vj && reg != code[i].b then TESTSET(reg, code[i].b, code[i].c) else TEST(code[i].b, code[i].c)
    else code[i]
  }

  /** The registers when a finished jump leaves. */
  function AtExit(code: seq<Instr>, j: nat, regs: Regs, vj: set<nat>, reg: nat): Regs {
    if j in vj && 1 <= j <= |code| && code[j - 1].TESTSET? then Set(regs, reg, Reg(regs, code[j - 1].b)) else regs
  }

  lemma {:induction false} FinishExec(code: seq<Instr>, code': seq<Instr>, env: Env, lo: nat, pc: nat, hi: nat,
                                      end: nat, regs: Regs, exits: set<nat>, vj: set<nat>, reg: nat)
    requires Finished(code, code', lo, hi, exits, vj, reg) && lo <= pc <= hi <= end <= |code'| && reg < |regs|
      && reg != NO_REG
    requires Proper(Exec(code, env, pc, hi, regs, exits), hi, exits)
    ensures var o := Exec(code, env, pc, hi, regs, exits);
      Exec(code', env, pc, end, regs, {}) ==
        if o.Jump? then Exec(code', env, o.j, end, AtExit(code, o.j, o.regs, vj, reg), {})
          else Exec(code', env, hi, end, o.regs, {})
    decreases hi - pc
  {
    if pc < hi && pc !in exits {
      if IsTest(code[pc]) && pc + 1 in exits {
        if Taken(code[pc], env, regs) {
          SameSet(regs, reg);
          assert Next(code'[pc], env, pc, regs) == (pc + 1, AtExit(code, pc + 1, regs, vj, reg));
        } else {
          assert Next(code'[pc], env, pc, regs) == (pc + 2, regs);
          if pc + 2 <= hi { FinishExec(code, code', env, lo, pc + 2, hi, end, regs, exits, vj, reg); }
        }
      } else {
        var (pc', regs') := Next(code[pc], env, pc, regs);
        NextLength(code[pc], env, pc, regs);
        if pc < pc' <= hi { FinishExec(code, code', env, lo, pc', hi, end, regs', exits, vj, reg); }
      }
    }
  }

  lemma SameSet(regs: Regs, r: nat)
    ensures Set(regs, r, Reg(regs, r)) == regs
  {
  }

  lemma NextLength(i: Instr, env: Env, pc: nat, regs: Regs)
    ensures |Next(i, env, pc, regs).1| == |regs|
  {
  }
}
