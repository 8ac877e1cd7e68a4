/** Instructions as words of 32 bits, laid out as in lopcodes.h. */
module CodeWord {
  import opened CodeVm

  // ----- Fields: six bits of opcode, eight of A, nine of C, nine of B; Bx takes the last two -----

  function Abc(op: nat, a: nat, b: nat, c: nat): nat {
    op + 0x40 * a + 0x4000 * c + 0x80_0000 * b
  }

  function Abx(op: nat, a: nat, bx: nat): nat {
    op + 0x40 * a + 0x4000 * bx
  }

  function Op(w: nat): nat { w % 0x40 }
  function A(w: nat): nat { w / 0x40 % 0x100 }
  function B(w: nat): nat { w / 0x80_0000 % 0x200 }
  function C(w: nat): nat { w / 0x4000 % 0x200 }
  function Bx(w: nat): nat { w / 0x4000 % 0x4_0000 }

  const MAXARG_SBX: nat := 131071

  /** RKASK: the ninth bit marks a constant. */
  function Field(o: Operand): nat {
    match o
    case R(r) => r
    case K(i) => if i / 256 % 2 == 1 then i else i + 256
  }

  /** ISK and INDEXK. */
  function OperandOf(x: nat): Operand {
    if x / 256 % 2 == 1 then K(x - 256) else R(x)
  }

  function Bit(b: bool): nat {
    if b then 1 else 0
  }

  function CmpCode(op: CmpOp): nat {
    match op
    case Eq => 23
    case Lt => 24
    case Le => 25
  }

  function Word(i: Instr): nat
    requires i.JMP? ==> i.sbx + MAXARG_SBX >= 0
  {
    match i
    case MOVE(a, b) => Abc(0, a, b, 0)
    case LOADK(a, bx) => Abx(1, a, bx)
    case LOADBOOL(a, v, skip) => Abc(2, a, Bit(v), Bit(skip))
    case LOADNIL(a) => Abc(3, a, a, 0)
    case NOT(a, b) => Abc(19, a, b, 0)
    case JMP(sbx) => Abx(22, 0, sbx + MAXARG_SBX)
    case CMP(op, cond, x, y) => Abc(CmpCode(op), Bit(cond), Field(x), Field(y))
    case TEST(a, c) => Abc(26, a, 0, Bit(c))
    case TESTSET(a, b, c) => Abc(27, a, b, Bit(c))
  }

  datatype Option<T> = None | Some(value: T)

  /** What lvm.c takes out of a word. */
  function Read(w: nat): Option<Instr> {
    match Op(w)
    case 0 => Some(MOVE(A(w), B(w)))
    case 1 => Some(LOADK(A(w), Bx(w)))
    case 2 => Some(LOADBOOL(A(w), B(w) != 0, C(w) != 0))
    case 3 => if B(w) == A(w) then Some(LOADNIL(A(w))) else None
    case 19 => Some(NOT(A(w), B(w)))
    case 22 => Some(JMP(Bx(w) - MAXARG_SBX))
    case 23 => Some(CMP(Eq, A(w) != 0, OperandOf(B(w)), OperandOf(C(w))))
    case 24 => Some(CMP(Lt, A(w) != 0, OperandOf(B(w)), OperandOf(C(w))))
    case 25 => Some(CMP(Le, A(w) != 0, OperandOf(B(w)), OperandOf(C(w))))
    case 26 => Some(TEST(A(w), C(w) != 0))
    case 27 => Some(TESTSET(A(w), B(w), C(w) != 0))
    case _ => None
  }

  lemma AbcFields(op: nat, a: nat, b: nat, c: nat)
    requires op < 0x40 && a < 0x100 && b < 0x200 && c < 0x200
    ensures var w := Abc(op, a, b, c); Op(w) == op && A(w) == a && B(w) == b && C(w) == c && w < 0x1_0000_0000
  {
    var w := Abc(op, a, b, c);
    assert w / 0x40 == a + 0x100 * (c + 0x200 * b);
    assert w / 0x4000 == c + 0x200 * b;
    assert w / 0x80_0000 == b;
  }

  lemma AbxFields(op: nat, a: nat, bx: nat)
    requires op < 0x40 && a < 0x100 && bx < 0x4_0000
    ensures var w := Abx(op, a, bx); Op(w) == op && A(w) == a && Bx(w) == bx && w < 0x1_0000_0000
  {
    var w := Abx(op, a, bx);
    assert w / 0x40 == a + 0x100 * bx;
    assert w / 0x4000 == bx;
  }

  lemma FieldOperand(o: Operand)
    requires FitsOperand(o)
    ensures Field(o) < 0x200 && OperandOf(Field(o)) == o
  {
  }

  /** An instruction whose fields fit is read back from its word, but for constants and jumps that are too
      far away. */
  lemma WordRead(i: Instr)
    requires FitsFields(i) && (i.LOADK? ==> i.bx < 262144) && (i.JMP? ==> -131071 <= i.sbx <= 131072)
    ensures Word(i) < 0x1_0000_0000 && Read(Word(i)) == Some(i)
  {
    hide Abc, Abx, Op, A, B, C, Bx;
    match i
    case MOVE(a, b) => AbcFields(0, a, b, 0);
    case LOADK(a, bx) => AbxFields(1, a, bx);
    case LOADBOOL(a, v, skip) => AbcFields(2, a, Bit(v), Bit(skip));
    case LOADNIL(a) => AbcFields(3, a, a, 0);
    case NOT(a, b) => AbcFields(19, a, b, 0);
    case JMP(sbx) => AbxFields(22, 0, sbx + MAXARG_SBX);
    case CMP(op, cond, x, y) =>
      FieldOperand(x);
      FieldOperand(y);
      AbcFields(CmpCode(op), Bit(cond), Field(x), Field(y));
    case TEST(a, c) => AbcFields(26, a, 0, Bit(c));
    case TESTSET(a, b, c) => AbcFields(27, a, b, Bit(c));
  }

  /** A constant behind the first 256 is read as another one. */
  lemma ConstantTooFar(i: nat)
    requires 256 <= i < 512
    ensures OperandOf(Field(K(i))) == K(i - 256)
  {
  }

  // ----- Running words -----

  /** RK: a register, or a constant if the ninth bit is set. */
  function RkField(env: Env, regs: Regs, x: nat): Value {
    if x < 256 then Reg(regs, x) else if x - 256 < |env.k| then env.k[x - 256] else Nil
  }

  predicate True(x: nat) {
    x != 0
  }

  /** What the comments of lopcodes.h say about each opcode, in terms of its fields: the next place and the
      registers. */
  function WordStep(w: nat, env: Env, pc: nat, regs: Regs): (int, Regs) {
    var (a, b, c) := (A(w), B(w), C(w));
    match Op(w)
    case 0 => (pc + 1, Put(regs, a, Reg(regs, b)))
    case 1 => (pc + 1, Put(regs, a, if Bx(w) < |env.k| then env.k[Bx(w)] else Nil))
    case 2 => (if True(c) then pc + 2 else pc + 1, Put(regs, a, Bool(True(b))))
    case 3 => (pc + 1, seq(|regs|, r requires 0 <= r < |regs| => if a <= r <= b then Nil else regs[r]))
    case 19 => (pc + 1, Put(regs, a, Bool(Reg(regs, b) == Nil || Reg(regs, b) == Bool(false))))
    case 22 => (pc + 1 + Bx(w) - MAXARG_SBX, regs)
    case 23 => (pc + (if env.eq(RkField(env, regs, b), RkField(env, regs, c)) != True(a) then 2 else 1), regs)
    case 24 => (pc + (if env.lt(RkField(env, regs, b), RkField(env, regs, c)) != True(a) then 2 else 1), regs)
    case 25 => (pc + (if env.le(RkField(env, regs, b), RkField(env, regs, c)) != True(a) then 2 else 1), regs)
    case 26 => (pc + (if Truthy(Reg(regs, a)) == True(c) then 1 else 2), regs)
    case 27 => if Truthy(Reg(regs, b)) == True(c) then (pc + 1, Put(regs, a, Reg(regs, b))) else (pc + 2, regs)
    case _ => (pc, regs)
  }

  function Put(regs: Regs, r: nat, v: Value): Regs {
    if r < |regs| then regs[r := v] else regs
  }

  lemma FieldValue(env: Env, regs: Regs, o: Operand)
    requires FitsOperand(o) && |regs| == MAXSTACK
    ensures RkField(env, regs, Field(o)) == Rk(env, regs, o)
  {
  }

  lemma NilStep(regs: Regs, a: nat)
    requires a < |regs| == MAXSTACK
    ensures seq(|regs|, r requires 0 <= r < |regs| => if a <= r <= a then Nil else regs[r]) == Set(regs, a, Nil)
  {
  }

  /** The machine of the theorems does what the words say. */
  lemma WordRuns(i: Instr, env: Env, pc: nat, regs: Regs)
    requires FitsFields(i) && (i.LOADK? ==> i.bx < 262144) && (i.JMP? ==> -131071 <= i.sbx <= 131072)
    requires |regs| == MAXSTACK
    ensures WordStep(Word(i), env, pc, regs) == Next(i, env, pc, regs)
  {
    hide Abc, Abx, Op, A, B, C, Bx, Field, RkField, Rk;
    match i
    case MOVE(a, b) => AbcFields(0, a, b, 0);
    case LOADK(a, bx) =>
      AbxFields(1, a, bx);
      assert Rk(env, regs, K(bx)) == if bx < |env.k| then env.k[bx] else Nil by { ConstValue(env, regs, bx); }
    case LOADBOOL(a, v, skip) => AbcFields(2, a, Bit(v), Bit(skip));
    case LOADNIL(a) =>
      AbcFields(3, a, a, 0);
      NilStep(regs, a);
    case NOT(a, b) => AbcFields(19, a, b, 0);
    case JMP(sbx) => AbxFields(22, 0, sbx + MAXARG_SBX);
    case CMP(op, cond, x, y) =>
      FieldOperand(x);
      FieldOperand(y);
      FieldValue(env, regs, x);
      FieldValue(env, regs, y);
      AbcFields(CmpCode(op), Bit(cond), Field(x), Field(y));
    case TEST(a, c) => AbcFields(26, a, 0, Bit(c));
    case TESTSET(a, b, c) => AbcFields(27, a, b, Bit(c));
  }

  lemma ConstValue(env: Env, regs: Regs, i: nat)
    ensures Rk(env, regs, K(i)) == if i < |env.k| then env.k[i] else Nil
  {
  }
}
