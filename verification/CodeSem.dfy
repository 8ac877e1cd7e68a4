/** What a half-compiled expression means: running its code ends in a pending jump of its true
    or false list, or arrives behind it with the value where its descriptor says. */
module CodeSem {
  import opened CodeVm
  import opened CodeLists
  import opened CodeRoute

  /** lparser.h `expkind`, the kinds that occur; `VConst` stands for VNIL, VTRUE, VFALSE and VKNUM. */
  datatype Kind = VLocal(r: nat) | VNonReloc(r: nat) | VJmp(pc: nat) | VReloc(pc: nat) | VConst(v: Value)

  /** The kind of the descriptor of a compiled expression. */
  predicate Shaped(kind: Kind, e: Expr) {
    match ShapeOf(e)
    case Register => kind.VLocal? || kind.VNonReloc?
    case Compared => kind.VJmp?
    case Negated => kind.VReloc?
    case Constant(v) => kind == VConst(v)
  }

  // ----- Meaning of partial code -----

  /** Where the code proper of an expression ends: before the instruction that is not final yet. */
  function Stop(code: seq<Instr>, kind: Kind): int {
    match kind
    case VReloc(pc) => pc
    case VJmp(pc) => pc - 1
    case _ => |code|
  }

  predicate Arrives(code: seq<Instr>, env: Env, kind: Kind, regs: Regs, v: Value) {
    match kind
    case VLocal(r) => Reg(regs, r) == v
    case VNonReloc(r) => Reg(regs, r) == v
    case VConst(c) => c == v
    case VReloc(pc) => pc < |code| && code[pc].NOT? && v == Bool(!Truthy(Reg(regs, code[pc].b)))
    case VJmp(pc) =>
      && 1 <= pc < |code| && code[pc - 1].CMP?
      && v == Bool(Compare(env, code[pc - 1].op, Rk(env, regs, code[pc - 1].x),
                           Rk(env, regs, code[pc - 1].y)) == code[pc - 1].cond)
  }

  /** A jump behind a TESTSET brings the tested value. */
  predicate Brings(t: Token, code: seq<Instr>, j: nat, regs: Regs) {
    if HasValue(code, j) then t.Carries? && Reg(regs, code[j - 1].b) == t.v else t.Nothing?
  }

  /** A pending jump is on the list that the route calls for, or arrives with the value `v`. */
  predicate JumpEnds(code: seq<Instr>, env: Env, kind: Kind, tj: set<nat>, fj: set<nat>, v: Value, j: nat, regs: Regs,
                     r: Route) {
    && Brings(r.tok, code, j, regs)
    && if j in tj then r.Leave? && r.b else if j in fj then r.Leave? && !r.b
       else r.Arrive? && Arrives(code, env, kind, regs, v)
  }

  /** From `lo`, the code computes `e`: jumps in `tj` leave when it is true, jumps in `fj` when it is
      false, jumps in `pj` go to the end. */
  ghost predicate Yields(code: seq<Instr>, env: Env, lo: nat, e: Expr, kind: Kind, tj: set<nat>, fj: set<nat>,
                         pj: set<nat>, free: nat, regs: Regs) {
    var hi := Stop(code, kind);
    0 <= hi <= |code| &&
    var o := Exec(code, env, lo, hi, regs, tj + fj + pj);
    var v, r := Eval(env, regs, e), Through(env, regs, e, Nothing);
    && Proper(o, hi, tj + fj + pj) && Keeps(regs, o.regs, free)
    && if o.Fall? then r == Arrive(Nothing) && Arrives(code, env, kind, o.regs, v)
       else JumpEnds(code, env, kind, tj, fj, v, o.j, o.regs, r)
  }

  /** What becomes of `j`, a jump that waited for the code of `e`: it has been put on the list that its
      own way through `e` calls for, or it now leads into the code and makes no difference. */
  ghost predicate Passes(code0: seq<Instr>, code: seq<Instr>, env: Env, e: Expr, kind: Kind, tj: set<nat>, fj: set<nat>,
                         pj: set<nat>, regs: Regs, j: nat, tok: Token) {
    Brings(tok, code0, j, regs) ==>
      var r := Through(env, regs, e, tok);
      if j in tj + fj + pj then JumpEnds(code, env, kind, tj, fj, Eval(env, regs, e), j, regs, r)
      else r == Through(env, regs, e, Nothing)
  }

  /** A jump in `qj` leaves the condition, any other goes on. */
  predicate WayEnds(code: seq<Instr>, qj: set<nat>, j: nat, regs: Regs, w: Way) {
    Brings(w.tok, code, j, regs) && (j in qj <==> w.Out?)
  }

  /** From `lo`, the code goes on if `e` is `b`, and else leaves by a jump in `qj`. */
  ghost predicate Goes(code: seq<Instr>, env: Env, lo: nat, e: Expr, b: bool, qj: set<nat>, pj: set<nat>, free: nat,
                       regs: Regs) {
    var o := Exec(code, env, lo, |code|, regs, qj + pj);
    var w := GoWay(env, regs, b, e, Through(env, regs, e, Nothing));
    && Proper(o, |code|, qj + pj) && Keeps(regs, o.regs, free)
    && if o.Fall? then w == On(Nothing) else WayEnds(code, qj, o.j, o.regs, w)
  }

  ghost predicate GoPasses(code0: seq<Instr>, code: seq<Instr>, env: Env, e: Expr, b: bool, qj: set<nat>, pj: set<nat>,
                           regs: Regs, j: nat, tok: Token) {
    Brings(tok, code0, j, regs) ==>
      var w := GoWay(env, regs, b, e, Through(env, regs, e, tok));
      if j in qj + pj then WayEnds(code, qj, j, regs, w)
        else w == GoWay(env, regs, b, e, Through(env, regs, e, Nothing))
  }

  // ----- Pending jumps -----

  predicate PendingJump(code: seq<Instr>, j: nat) {
    j < |code| && code[j].JMP? && (HasValue(code, j) ==> code[j - 1].a == NO_REG)
  }

  ghost predicate AllPending(code: seq<Instr>, js: set<nat>) {
    forall j :: j in js ==> PendingJump(code, j)
  }

  lemma PendingBelow(code: seq<Instr>, js: set<nat>)
    requires AllPending(code, js)
    ensures forall j :: j in js ==> j < |code| && code[j].JMP?
  {
    forall j | j in js
      ensures j < |code| && code[j].JMP?
    {
      assert PendingJump(code, j);
    }
  }

  ghost predicate Layout(code: seq<Instr>, lo: nat, kind: Kind, tj: set<nat>, fj: set<nat>, pj: set<nat>, free: nat) {
    && lo <= |code| && free + 2 < MAXSTACK && !Controlled(code, lo)
    && AllPending(code, tj) && AllPending(code, fj) && AllPending(code, pj)
    && tj !! fj && tj !! pj && fj !! pj
    && KindOk(code, lo, kind, tj + fj, pj, free)
  }

  ghost predicate KindOk(code: seq<Instr>, lo: nat, kind: Kind, js: set<nat>, pj: set<nat>, free: nat) {
    match kind
    case VLocal(r) => r < free
    case VNonReloc(r) => r < free
    case VConst(_) => true
    case VReloc(pc) => lo <= pc == |code| - 1 && code[pc].NOT? && pj == {} && forall j :: j in js ==> j < pc
    case VJmp(pc) =>
      && lo + 1 <= pc == |code| - 1 && code[pc] == JMP(NO_JUMP) && code[pc - 1].CMP? && pj == {}
      && forall j :: j in js ==> j < pc - 1
  }

  /** The jumps of `p0`, which waited for position `m`, share its fate. */
  predicate Together(p0: set<nat>, m: nat, js: set<nat>) {
    forall j :: j in p0 ==> (j in js <==> m in js)
  }

  /** Before the end of `code0` only the jumps of `p0` and their tests have changed. */
  ghost predicate Framed(code0: seq<Instr>, code: seq<Instr>, p0: set<nat>) {
    && |code0| <= |code|
    && (forall i :: 0 <= i < |code0| && i !in p0 ==> code[i] == code0[i] || code[i] == Settled(code0, p0, i))
    && (forall j :: j in p0 ==> j < |code0| && code0[j].JMP? && code[j].JMP?)
  }

  /** How compiling an expression treats the code before it, where the jumps `p0` waited: nothing has
      been emitted and they still wait, or they share the fate of the first instruction. */
  ghost predicate Entered(code0: seq<Instr>, code: seq<Instr>, p0: set<nat>, tj: set<nat>, fj: set<nat>, pj: set<nat>) {
    if |code| == |code0| then code == code0 && pj == p0 && tj == {} && fj == {}
    else
      && Framed(code0, code, p0)
      && Together(p0, |code0|, tj) && Together(p0, |code0|, fj) && Together(p0, |code0|, pj)
      && (forall j :: j in tj + fj + pj ==> j in p0 || |code0| <= j)
      && (|code0| !in tj + fj + pj ==> Lead(code, p0, |code0|))
  }

  /** `code'` extends `code` after its held jumps `pj` have been patched to its end. */
  ghost predicate Grown(code: seq<Instr>, code': seq<Instr>, pj: set<nat>) {
    && |code| <= |code'|
    && forall i :: 0 <= i < |code| ==> code'[i] == Settled(code, pj, i)
  }

  /** What patching the held jumps makes of position `i`. */
  function Settled(code: seq<Instr>, pj: set<nat>, i: nat): Instr
    requires i < |code|
  {
    if i in pj then JMP(|code| - (i + 1))
    else if i + 1 in pj && code[i].TESTSET? then TEST(code[i].b, code[i].c)
    else code[i]
  }

  /** A jump and its test are the same, apart from where the jump goes. */
  predicate SameTest(code: seq<Instr>, code': seq<Instr>, j: nat) {
    && j < |code| && j < |code'| && code[j].JMP? && code'[j].JMP?
    && (Controlled(code, j) <==> Controlled(code', j)) && (HasValue(code, j) <==> HasValue(code', j))
    && (HasValue(code, j) ==> code'[j - 1] == code[j - 1])
  }

  lemma SameBrings(code: seq<Instr>, code': seq<Instr>, j: nat)
    requires SameTest(code, code', j)
    ensures forall t, regs :: Brings(t, code', j, regs) <==> Brings(t, code, j, regs)
    ensures PendingJump(code, j) ==> PendingJump(code', j)
  {
  }

  /** Patching `pj` leaves the other jumps alone. */
  lemma GrownSame(code: seq<Instr>, code': seq<Instr>, pj: set<nat>, js: set<nat>)
    requires Grown(code, code', pj) && AllPending(code, js) && AllPending(code, pj) && js !! pj
    ensures forall j :: j in js ==> SameTest(code, code', j) && code'[j] == code[j]
    ensures AllPending(code', js)
  {
    forall j | j in js
      ensures SameTest(code, code', j) && code'[j] == code[j] && PendingJump(code', j)
    {
      assert PendingJump(code, j) && code'[j] == Settled(code, pj, j);
      if j >= 1 {
        assert code'[j - 1] == Settled(code, pj, j - 1);
        assert j - 1 in pj ==> PendingJump(code, j - 1);
      }
    }
  }

  lemma GrownContinued(code: seq<Instr>, code': seq<Instr>, lo: nat, js: set<nat>, pj: set<nat>, ys: set<nat>)
    requires lo <= |code| && Grown(code, code', pj) && AllPending(code, js) && AllPending(code, pj) && js !! pj
    requires |code| !in ys && forall i :: i < |code| ==> (i in ys <==> i in js)
    ensures Continued(code, code', lo, |code|, js + pj, pj, ys)
  {
    GrownSame(code, code', pj, js);
    forall i | lo <= i < |code| && i !in js + pj
      ensures Alike(code[i], code'[i])
    {
      assert code'[i] == Settled(code, pj, i);
      if i + 1 in pj { assert PendingJump(code, i + 1); }
    }
    forall i | lo <= i < |code| && i + 1 in pj && code[i].TESTSET?
      ensures code[i].a == NO_REG
    {
      assert PendingJump(code, i + 1);
    }
    forall j | j in pj
      ensures j < |code| && code'[j].JMP? && Goal(code', j) == |code|
    {
      assert PendingJump(code, j) && code'[j] == Settled(code, pj, j);
    }
  }

  /** Up to the end of `code`, a run through the grown code takes the jumps that have been patched. */
  lemma GrownExec(code: seq<Instr>, code': seq<Instr>, env: Env, lo: nat, end: nat, regs: Regs, js: set<nat>,
                  pj: set<nat>, ys: set<nat>)
    requires lo <= |code| < end <= |code'| && Grown(code, code', pj) && AllPending(code, js) && AllPending(code, pj)
      && js !! pj
    requires |code| !in ys && forall i :: i < |code| ==> (i in ys <==> i in js)
    requires Proper(Exec(code, env, lo, |code|, regs, js + pj), |code|, js + pj)
    ensures var o := Exec(code, env, lo, |code|, regs, js + pj);
      Exec(code', env, lo, end, regs, ys) == if o.Jump? && o.j in js then o
        else Exec(code', env, |code|, end, o.regs, ys)
  {
    GrownContinued(code, code', lo, js, pj, ys);
    assert |code| !in js + pj;
    ContinueExec(code, code', env, lo, lo, |code|, end, regs, js + pj, pj, ys);
  }

  // ----- goiftrue and goiffalse -----

  /** The lists of a condition that goes on if the value is `b`. */
  function Stays(b: bool, tj: set<nat>, fj: set<nat>): set<nat> {
    if b then tj else fj
  }

  lemma RegisterWay(env: Env, regs: Regs, e: Expr, b: bool, kind: Kind, tok: Token)
    requires Shaped(kind, e) && Through(env, regs, e, tok).Arrive?
    ensures var w, t := GoWay(env, regs, b, e, Through(env, regs, e, tok)), Truthy(Eval(env, regs, e)) == b;
      && (kind.VLocal? || kind.VNonReloc? ==> w == if t then On(Nothing) else Out(Carries(Eval(env, regs, e), false)))
      && (kind.VJmp? || kind.VReloc? ==> w == if t then On(Nothing) else Out(Nothing))
  {
  }

  /** A jump of the old lists, seen from behind the condition. */
  lemma LeaveEnds(code: seq<Instr>, code': seq<Instr>, env: Env, e: Expr, b: bool, kind: Kind, tj: set<nat>,
                  fj: set<nat>, qj: set<nat>,
                  j: nat, regs: Regs, v: Value, r: Route, regs0: Regs)
    requires JumpEnds(code, env, kind, tj, fj, v, j, regs, r) && j in tj + fj && tj !! fj && SameTest(code, code', j)
    requires j in qj <==> j in Stays(!b, tj, fj)
    ensures WayEnds(code', qj, j, regs, GoWay(env, regs0, b, e, r))
  {
    SameBrings(code, code', j);
  }

  /** Behind a value in a register: TESTSET and a jump. */
  lemma GoNonReloc(code: seq<Instr>, code': seq<Instr>, env: Env, lo: nat, e: Expr, x: nat, tj: set<nat>, fj: set<nat>,
                   pj: set<nat>, free: nat, regs: Regs, b: bool)
    requires Layout(code, lo, VNonReloc(x), tj, fj, pj, free) && Shaped(VNonReloc(x), e)
      && Yields(code, env, lo, e, VNonReloc(x), tj, fj, pj, free, regs)
    requires Grown(code, code', pj) && |code'| == |code| + 2 && code'[|code|] == TESTSET(NO_REG, x, !b)
      && code'[|code| + 1] == JMP(NO_JUMP)
    ensures Goes(code', env, lo, e, b, Stays(!b, tj, fj) + {|code| + 1}, Stays(b, tj, fj), free, regs)
  {
    var hi, j, xs := |code|, |code| + 1, tj + fj + pj;
    var qj, oj := Stays(!b, tj, fj) + {j}, Stays(b, tj, fj);
    var o, r := Exec(code, env, lo, hi, regs, xs), Through(env, regs, e, Nothing);
    assert xs == (tj + fj) + pj;
    assert forall i :: i < hi ==> (i in qj + oj <==> i in tj + fj);
    assert hi !in qj + oj by { assert AllPending(code, tj) && AllPending(code, fj); }
    GrownExec(code, code', env, lo, |code'|, regs, tj + fj, pj, qj + oj);
    GrownSame(code, code', pj, tj + fj);
    hide GoWay, Through, Eval, Grown, AllPending;
    if o.Jump? && o.j in tj + fj {
      LeaveEnds(code, code', env, e, b, VNonReloc(x), tj, fj, qj, o.j, o.regs, Eval(env, regs, e), r, regs);
    } else {
      RegisterWay(env, regs, e, b, VNonReloc(x), Nothing);
      assert Exec(code', env, hi, |code'|, o.regs, qj + oj) == if Truthy(Reg(o.regs, x)) == !b then Jump(j, o.regs)
        else Fall(|code'|, o.regs);
    }
  }

  /** Behind OP_NOT: the instruction is dropped and a TEST takes its place. */
  lemma GoReloc(code: seq<Instr>, code': seq<Instr>, env: Env, lo: nat, e: Expr, pc: nat, tj: set<nat>, fj: set<nat>,
                free: nat, regs: Regs, b: bool)
    requires Layout(code, lo, VReloc(pc), tj, fj, {}, free) && Shaped(VReloc(pc), e)
      && Yields(code, env, lo, e, VReloc(pc), tj, fj, {}, free, regs)
    requires |code'| == pc + 2 && code'[..pc] == code[..pc] && code'[pc] == TEST(code[pc].b, b)
      && code'[pc + 1] == JMP(NO_JUMP)
    ensures Goes(code', env, lo, e, b, Stays(!b, tj, fj) + {pc + 1}, Stays(b, tj, fj), free, regs)
  {
    var j, ys := pc + 1, tj + fj + {pc + 1};
    var qj, oj := Stays(!b, tj, fj) + {j}, Stays(b, tj, fj);
    var o, r := Exec(code, env, lo, pc, regs, tj + fj + {}), Through(env, regs, e, Nothing);
    hide GoWay, Through, Eval;
    assert qj + oj == ys;
    assert forall i :: 0 <= i < pc ==> code'[i] == code'[..pc][i] == code[i];
    PrefixSame(code, code', pc, tj + fj);
    hide AllPending, PendingJump;
    TestRun(code, code', env, lo, pc, regs, tj + fj + {}, b);
    assert tj + fj + {} + {j} == ys;
    hide Exec;
    if o.Jump? {
      LeaveEnds(code, code', env, e, b, VReloc(pc), tj, fj, qj, o.j, o.regs, Eval(env, regs, e), r, regs);
    } else {
      RegisterWay(env, regs, e, b, VReloc(pc), Nothing);
    }
  }

  lemma TestRun(code: seq<Instr>, code': seq<Instr>, env: Env, lo: nat, pc: nat, regs: Regs, xs: set<nat>, b: bool)
    requires lo <= pc == |code| - 1 && |code'| == pc + 2 && code[pc].NOT? && code'[pc] == TEST(code[pc].b, b)
    requires (forall i :: 0 <= i < pc ==> code'[i] == code[i]) && forall j :: j in xs ==> j < pc
    requires Proper(Exec(code, env, lo, pc, regs, xs), pc, xs)
    ensures var o := Exec(code, env, lo, pc, regs, xs);
      Exec(code', env, lo, |code'|, regs, xs + {pc + 1}) == if o.Jump? then o
        else if Truthy(Reg(o.regs, code[pc].b)) == b then Jump(pc + 1, o.regs) else Fall(|code'|, o.regs)
  {
    var ys := xs + {pc + 1};
    SimilarExec(code, code', env, lo, lo, pc, regs, xs);
    ExitsExec(code', env, lo, lo, pc, regs, xs, ys);
    SplitExec(code', env, lo, pc, |code'|, regs, ys);
    var o := Exec(code, env, lo, pc, regs, xs);
    if o.Fall? {
      assert Exec(code', env, pc, |code'|, o.regs, ys) == if Truthy(Reg(o.regs, code[pc].b)) == b then Jump(pc + 1,
          o.regs)
        else Fall(|code'|, o.regs);
    }
  }

  /** Below `n` nothing has changed. */
  lemma PrefixSame(code: seq<Instr>, code': seq<Instr>, n: nat, js: set<nat>)
    requires n <= |code| && n <= |code'| && forall i :: 0 <= i < n ==> code'[i] == code[i]
    requires AllPending(code, js) && forall j :: j in js ==> j < n
    ensures forall j :: j in js ==> SameTest(code, code', j) && code'[j] == code[j]
    ensures AllPending(code', js)
    ensures forall i :: 0 <= i < n ==> (Controlled(code, i) <==> Controlled(code', i))
  {
    forall j | j in js
      ensures SameTest(code, code', j) && code'[j] == code[j] && PendingJump(code', j)
    {
      assert PendingJump(code, j);
    }
  }

  /** The run behind a comparison, up to its jump or past it. */
  lemma CompareRun(code: seq<Instr>, code': seq<Instr>, env: Env, lo: nat, pc: nat, js: set<nat>, regs: Regs)
    requires 1 <= pc == |code| - 1 && |code'| == |code| && lo <= pc - 1 && code'[pc - 1].CMP?
      && (forall j :: j in js ==> j < pc - 1)
    requires forall i :: 0 <= i < pc - 1 ==> code'[i] == code[i]
    requires Proper(Exec(code, env, lo, pc - 1, regs, js), pc - 1, js)
    ensures var o := Exec(code, env, lo, pc - 1, regs, js);
      var taken := Compare(env, code'[pc - 1].op, Rk(env, o.regs, code'[pc - 1].x),
                           Rk(env, o.regs, code'[pc - 1].y)) == code'[pc - 1].cond;
      Exec(code', env, lo, |code'|, regs, js + {pc}) == if o.Jump? then o else if taken then Jump(pc, o.regs)
        else Fall(|code'|, o.regs)
  {
    var hi, ys := pc - 1, js + {pc};
    SimilarExec(code, code', env, lo, lo, hi, regs, js);
    ExitsExec(code', env, lo, lo, hi, regs, js, ys);
    SplitExec(code', env, lo, hi, |code'|, regs, ys);
    var o := Exec(code, env, lo, hi, regs, js);
    if o.Fall? { CompareStep(code', env, hi, o.regs, ys); }
  }

  lemma CompareStep(code: seq<Instr>, env: Env, hi: nat, regs: Regs, ys: set<nat>)
    requires hi + 2 == |code| && code[hi].CMP? && hi !in ys && hi + 1 in ys
    ensures var taken := Compare(env, code[hi].op, Rk(env, regs, code[hi].x),
                                 Rk(env, regs, code[hi].y)) == code[hi].cond;
      Exec(code, env, hi, |code|, regs, ys) == if taken then Jump(hi + 1, regs) else Fall(|code|, regs)
  {
  }

  /** Behind a comparison: its jump joins the list, with the condition inverted for `goiftrue`. */
  lemma GoJmp(code: seq<Instr>, code': seq<Instr>, env: Env, lo: nat, e: Expr, pc: nat, tj: set<nat>, fj: set<nat>,
              free: nat, regs: Regs, b: bool)
    requires Layout(code, lo, VJmp(pc), tj, fj, {}, free) && Shaped(VJmp(pc), e)
      && Yields(code, env, lo, e, VJmp(pc), tj, fj, {}, free, regs)
    requires code' == code[pc - 1 := code[pc - 1].(cond := if b then !code[pc - 1].cond else code[pc - 1].cond)]
    ensures Goes(code', env, lo, e, b, Stays(!b, tj, fj) + {pc}, Stays(b, tj, fj), free, regs)
  {
    hide Eval, Keeps, Exec, GoWay, Through;
    var xs, ys := tj + fj + {}, tj + fj + {pc};
    var qj, oj := Stays(!b, tj, fj) + {pc}, Stays(b, tj, fj);
    assert qj + oj == ys && xs == tj + fj && xs + {pc} == ys;
    PrefixSame(code, code', pc - 1, tj + fj);
    CompareRun(code, code', env, lo, pc, xs, regs);
    hide AllPending;
    var o, r := Exec(code, env, lo, pc - 1, regs, xs), Through(env, regs, e, Nothing);
    if o.Jump? {
      LeaveEnds(code, code', env, e, b, VJmp(pc), tj, fj, qj, o.j, o.regs, Eval(env, regs, e), r, regs);
    } else {
      RegisterWay(env, regs, e, b, VJmp(pc), Nothing);
    }
  }

  /** Behind a constant that is `b` nothing is emitted: what waits goes on waiting. */
  lemma GoConst(code: seq<Instr>, env: Env, lo: nat, e: Expr, v: Value, tj: set<nat>, fj: set<nat>, pj: set<nat>,
                free: nat,
                regs: Regs, b: bool)
    requires Layout(code, lo, VConst(v), tj, fj, pj, free) && Shaped(VConst(v), e) && Truthy(v) == b
      && Yields(code, env, lo, e, VConst(v), tj, fj, pj, free, regs)
    ensures Goes(code, env, lo, e, b, Stays(!b, tj, fj), pj + Stays(b, tj, fj), free, regs)
  {
    assert Stays(!b, tj, fj) + (pj + Stays(b, tj, fj)) == tj + fj + pj;
  }

  /** Behind a boolean constant that is not `b`: a jump, which takes over the jumps that wait. */
  lemma GoAlways(code: seq<Instr>, code': seq<Instr>, env: Env, lo: nat, e: Expr, tj: set<nat>, fj: set<nat>,
                 pj: set<nat>, free: nat,
                 regs: Regs, b: bool)
    requires Layout(code, lo, VConst(Bool(!b)), tj, fj, pj, free) && Shaped(VConst(Bool(!b)), e)
      && !Controlled(code, |code|)
      && Yields(code, env, lo, e, VConst(Bool(!b)), tj, fj, pj, free, regs)
    requires |code'| == |code| + 1 && code'[..|code|] == code && code'[|code|].JMP?
    ensures Goes(code', env, lo, e, b, Stays(!b, tj, fj) + {|code|} + pj, Stays(b, tj, fj), free, regs)
  {
    hide Through, Eval;
    var hi, xs := |code|, tj + fj + pj;
    var qj, oj := Stays(!b, tj, fj) + {hi} + pj, Stays(b, tj, fj);
    assert qj + oj == xs + {hi};
    AlwaysRun(code, code', env, lo, xs, regs);
    assert forall i :: 0 <= i < hi ==> code'[i] == code'[..hi][i];
    PendingBelow(code, xs);
    PrefixSame(code, code', hi, xs);
    var o := Exec(code, env, lo, hi, regs, xs);
    hide AllPending, Exec;
    if o.Jump? { SameBrings(code, code', o.j); }
  }

  lemma AlwaysRun(code: seq<Instr>, code': seq<Instr>, env: Env, lo: nat, xs: set<nat>, regs: Regs)
    requires lo <= |code| && AllPending(code, xs) && Proper(Exec(code, env, lo, |code|, regs, xs), |code|, xs)
    requires |code'| == |code| + 1 && code'[..|code|] == code && !Controlled(code, |code|)
    ensures var o := Exec(code, env, lo, |code|, regs, xs);
      Exec(code', env, lo, |code'|, regs, xs + {|code|}) == if o.Jump? then o else Jump(|code|, o.regs)
  {
    var hi, ys := |code|, xs + {|code|};
    PendingBelow(code, xs);
    assert forall i :: 0 <= i < hi ==> code'[i] == code'[..hi][i];
    SimilarExec(code, code', env, lo, lo, hi, regs, xs);
    ContinueSame(code', env, lo, hi, |code'|, regs, xs, ys);
  }

  /** A further exit at the end of the region. */
  lemma ContinueSame(code: seq<Instr>, env: Env, lo: nat, hi: nat, end: nat, regs: Regs, xs: set<nat>, ys: set<nat>)
    requires lo <= hi < end <= |code| && ys == xs + {hi} && (forall j :: j in xs ==> j < hi) && !Controlled(code, hi)
    requires Proper(Exec(code, env, lo, hi, regs, xs), hi, xs)
    ensures var o := Exec(code, env, lo, hi, regs, xs);
      Exec(code, env, lo, end, regs, ys) == if o.Jump? then o else Exec(code, env, hi, end, o.regs, ys)
  {
    AddExit(code, env, lo, hi, regs, xs);
    SplitExec(code, env, lo, hi, end, regs, ys);
  }

  lemma {:induction false} AddExit(code: seq<Instr>, env: Env, pc: nat, hi: nat, regs: Regs, xs: set<nat>)
    requires pc <= hi <= |code| && !Controlled(code, hi) && hi !in xs
    ensures Exec(code, env, pc, hi, regs, xs + {hi}) == Exec(code, env, pc, hi, regs, xs)
    decreases hi - pc
  {
    if pc < hi && pc !in xs {
      if IsTest(code[pc]) && pc + 1 in xs {
        if pc + 2 <= hi { AddExit(code, env, pc + 2, hi, regs, xs); }
      } else {
        var (pc', regs') := Next(code[pc], env, pc, regs);
        if pc < pc' <= hi { AddExit(code, env, pc', hi, regs', xs); }
      }
    }
  }

  /** The instruction that loads a constant. */
  ghost predicate Loads(i: Instr, env: Env, reg: nat, v: Value) {
    forall pc: nat, regs: Regs :: Next(i, env, pc, regs) == (pc + 1, Set(regs, reg, v))
  }

  /** Behind any other constant: it is loaded and tested. */
  lemma GoLoad(code: seq<Instr>, code': seq<Instr>, env: Env, lo: nat, e: Expr, v: Value, reg: nat, tj: set<nat>,
               fj: set<nat>, pj: set<nat>,
               free: nat, regs: Regs, b: bool)
    requires Layout(code, lo, VConst(v), tj, fj, pj, free) && ShapeOf(e) == Constant(v) && Truthy(v) != b && !v.Bool?
      && Yields(code, env, lo, e, VConst(v), tj, fj, pj, free, regs)
    requires Grown(code, code', pj) && |code'| == |code| + 3 && Loads(code'[|code|], env, reg, v)
      && !IsTest(code'[|code|])
    requires code'[|code| + 1] == TESTSET(NO_REG, reg, !b) && code'[|code| + 2] == JMP(NO_JUMP)
    requires free <= reg < |regs| && reg != NO_REG
    ensures Goes(code', env, lo, e, b, Stays(!b, tj, fj) + {|code| + 2}, Stays(b, tj, fj), free, regs)
  {
    hide Through, Eval, GoWay, Loads, ShapeOf;
    var hi, j, xs := |code|, |code| + 2, tj + fj + pj;
    var qj, oj := Stays(!b, tj, fj) + {j}, Stays(b, tj, fj);
    var o, r := Exec(code, env, lo, hi, regs, xs), Through(env, regs, e, Nothing);
    assert xs == (tj + fj) + pj && qj + oj == tj + fj + {j};
    PendingBelow(code, tj + fj);
    GrownExec(code, code', env, lo, |code'|, regs, tj + fj, pj, qj + oj);
    GrownSame(code, code', pj, tj + fj);
    hide AllPending, Grown;
    if o.Jump? && o.j in tj + fj {
      hide Exec;
      LeaveEnds(code, code', env, e, b, VConst(v), tj, fj, qj, o.j, o.regs, Eval(env, regs, e), r, regs);
    } else {
      LoadedRun(code', env, hi, o.regs, reg, v, b, qj + oj);
      LoadedWay(env, regs, e, b, v, r);
      hide Exec;
    }
  }

  lemma LoadedWay(env: Env, regs: Regs, e: Expr, b: bool, v: Value, r: Route)
    requires ShapeOf(e) == Constant(v) && Truthy(v) != b && !v.Bool? && r.Arrive?
    ensures GoWay(env, regs, b, e, r) == Out(Carries(v, false))
  {
  }

  lemma LoadedRun(code: seq<Instr>, env: Env, hi: nat, regs: Regs, reg: nat, v: Value, b: bool, ys: set<nat>)
    requires hi + 3 == |code| && Loads(code[hi], env, reg, v) && !IsTest(code[hi]) && reg < |regs| && reg != NO_REG
    requires code[hi + 1] == TESTSET(NO_REG, reg, !b) && Truthy(v) != b && hi !in ys && hi + 1 !in ys && hi + 2 in ys
    ensures Exec(code, env, hi, |code|, regs, ys) == Jump(hi + 2, Set(regs, reg, v)) && Reg(Set(regs, reg, v), reg) == v
  {
    var r := Set(regs, reg, v);
    assert Next(code[hi], env, hi, regs) == (hi + 1, r);
    assert Exec(code, env, hi + 1, |code|, r, ys) == Jump(hi + 2, r);
  }

  // ----- The jumps that waited, behind a condition -----

  /** Behind a test: a jump that went on waiting leads to it. */
  lemma PassesTested(code0: seq<Instr>, code: seq<Instr>, code': seq<Instr>, env: Env, e: Expr, b: bool, kind: Kind,
                     tj: set<nat>,
                     fj: set<nat>, pj: set<nat>, n: nat, regs: Regs, j: nat, tok: Token)
    requires Passes(code0, code, env, e, kind, tj, fj, pj, regs, j, tok) && Shaped(kind, e) && j != n
    requires kind.VConst? ==> Truthy(kind.v) != b && !kind.v.Bool?
    requires tj !! fj && tj !! pj && fj !! pj && (j in tj + fj ==> SameTest(code, code', j))
    ensures GoPasses(code0, code', env, e, b, Stays(!b, tj, fj) + {n}, Stays(b, tj, fj), regs, j, tok)
  {
    var r, v := Through(env, regs, e, tok), Eval(env, regs, e);
    TokenFree(env, regs, e, tok, Nothing);
    hide Through, Eval;
    if Brings(tok, code0, j, regs) {
      if j in tj + fj {
        LeaveEnds(code, code', env, e, b, kind, tj, fj, Stays(!b, tj, fj) + {n}, j, regs, v, r, regs);
      }
    }
  }

  /** Behind a constant that is `b`: it goes on waiting. */
  lemma PassesConst(code0: seq<Instr>, code: seq<Instr>, env: Env, e: Expr, b: bool, v: Value, tj: set<nat>,
                    fj: set<nat>, pj: set<nat>, regs: Regs, j: nat, tok: Token)
    requires Passes(code0, code, env, e, VConst(v), tj, fj, pj, regs, j, tok) && Shaped(VConst(v), e) && Truthy(v) == b
    requires tj !! fj && tj !! pj && fj !! pj
    ensures GoPasses(code0, code, env, e, b, Stays(!b, tj, fj), pj + Stays(b, tj, fj), regs, j, tok)
  {
    hide Through, Eval;
  }

  /** Behind a boolean constant that is not `b`: it is caught. */
  lemma PassesAlways(code0: seq<Instr>, code: seq<Instr>, code': seq<Instr>, env: Env, e: Expr, b: bool, tj: set<nat>,
                     fj: set<nat>, pj: set<nat>, n: nat, regs: Regs, j: nat, tok: Token)
    requires Passes(code0, code, env, e, VConst(Bool(!b)), tj, fj, pj, regs, j, tok) && Shaped(VConst(Bool(!b)), e)
      && j != n
    requires tj !! fj && tj !! pj && fj !! pj && (j in tj + fj + pj ==> SameTest(code, code', j))
    ensures GoPasses(code0, code', env, e, b, Stays(!b, tj, fj) + {n} + pj, Stays(b, tj, fj), regs, j, tok)
  {
    hide Through, Eval;
    if j in tj + fj + pj { SameBrings(code, code', j); }
  }

  // ----- not -----

  /** Removing the values of jumps does not change which way control goes. */
  ghost predicate ValuesRemoved(code: seq<Instr>, code': seq<Instr>, js: set<nat>) {
    && |code'| == |code|
    && forall i :: 0 <= i < |code| ==> code'[i] == if i + 1 in js && code[i].TESTSET? then TEST(code[i].b, code[i].c)
      else code[i]
  }

  lemma RemovedSame(code: seq<Instr>, code': seq<Instr>, js: set<nat>, pj: set<nat>)
    requires ValuesRemoved(code, code', js) && AllPending(code, js) && AllPending(code, pj) && js !! pj
    ensures forall j :: j in js ==> PendingJump(code', j) && !HasValue(code', j)
    ensures forall j :: j in pj ==> SameTest(code, code', j) && PendingJump(code', j)
    ensures forall i :: 0 <= i <= |code| ==> (Controlled(code, i) <==> Controlled(code', i))
  {
    forall j | j in js
      ensures PendingJump(code', j) && !HasValue(code', j)
    {
      assert PendingJump(code, j);
    }
    forall j | j in pj
      ensures SameTest(code, code', j) && PendingJump(code', j)
    {
      assert PendingJump(code, j);
    }
  }

  lemma RemovedExec(code: seq<Instr>, code': seq<Instr>, env: Env, lo: nat, hi: nat, regs: Regs, js: set<nat>,
                    xs: set<nat>)
    requires ValuesRemoved(code, code', js) && AllPending(code, js) && js <= xs && hi <= |code|
    ensures Exec(code', env, lo, hi, regs, xs) == Exec(code, env, lo, hi, regs, xs)
  {
    forall i | lo <= i < hi && i !in xs
      ensures Alike(code[i], code'[i])
    {
      if i + 1 in js { assert PendingJump(code, i + 1); }
    }
    SimilarExec(code, code', env, lo, lo, hi, regs, xs);
  }

  lemma RemovedArrives(code: seq<Instr>, code': seq<Instr>, env: Env, kind: Kind, js: set<nat>)
    requires ValuesRemoved(code, code', js)
    ensures forall r, v :: Arrives(code, env, kind, r, v) ==> Arrives(code', env, kind, r, v)
  {
  }

  /** The lists change places; what arrives is negated. */
  lemma NotEnds(code: seq<Instr>, code': seq<Instr>, env: Env, kind: Kind, kind': Kind, tj: set<nat>, fj: set<nat>,
                j: nat, regs: Regs,
                e: Expr, regs0: Regs, v: Value, tok: Token)
    requires JumpEnds(code, env, kind, tj, fj, v, j, regs, Through(env, regs0, e, tok)) && tj !! fj && j in tj + fj
    requires !HasValue(code', j)
    ensures JumpEnds(code', env, kind', fj, tj, Bool(!Truthy(v)), j, regs, Through(env, regs0, Not(e), tok))
  {
  }

  /** Swapping the lists and negating what arrives negates the expression. */
  lemma NotYields(code: seq<Instr>, code': seq<Instr>, env: Env, lo: nat, e: Expr, kind: Kind, tj: set<nat>,
                  fj: set<nat>, free: nat, regs: Regs)
    requires 0 <= Stop(code, kind) <= |code| && AllPending(code, tj) && AllPending(code, fj)
      && (kind.VReloc? || kind.VJmp?)
    requires ValuesRemoved(code, code', tj + fj) && !ShapeOf(e).Constant?
    requires var o, r, v := Exec(code, env, lo, Stop(code, kind), regs, tj + fj), Through(env, regs, e,
        Nothing), Eval(env, regs, e);
      && Proper(o, Stop(code, kind), tj + fj) && Keeps(regs, o.regs, free)
      && if o.Jump? then JumpEnds(code, env, kind, tj, fj, v, o.j, o.regs, r)
         else r.Arrive? && Arrives(code, env, kind, o.regs, Bool(!Truthy(v)))
    requires tj !! fj
    ensures Yields(code', env, lo, Not(e), kind, fj, tj, {}, free, regs)
  {
    var hi, xs, v := Stop(code, kind), tj + fj, Eval(env, regs, e);
    assert fj + tj + {} == xs;
    RemovedExec(code, code', env, lo, hi, regs, xs, xs);
    RemovedSame(code, code', xs, {});
    RemovedArrives(code, code', env, kind, xs);
    var o := Exec(code, env, lo, hi, regs, xs);
    hide AllPending, ValuesRemoved, Exec;
    if o.Jump? { NotEnds(code, code', env, kind, kind, tj, fj, o.j, o.regs, e, regs, v, Nothing); }
  }

  /** `not` of a value in a register: an OP_NOT whose target is open. */
  lemma NotNonReloc(code: seq<Instr>, mid: seq<Instr>, code': seq<Instr>, env: Env, lo: nat, e: Expr, x: nat,
                    tj: set<nat>, fj: set<nat>, pj: set<nat>, free: nat, regs: Regs)
    requires Layout(code, lo, VNonReloc(x), tj, fj, pj, free) && Shaped(VNonReloc(x), e)
      && Yields(code, env, lo, e, VNonReloc(x), tj, fj, pj, free, regs)
    requires Grown(code, mid, pj) && |mid| == |code| + 1 && mid[|code|] == NOT(0, x)
      && ValuesRemoved(mid, code', tj + fj)
    ensures Yields(code', env, lo, Not(e), VReloc(|code|), fj, tj, {}, free, regs)
  {
    hide Eval, Keeps, Through;
    var hi := |code|;
    assert tj + fj + pj == (tj + fj) + pj;
    GrownRun(code, mid, env, lo, regs, tj + fj, pj);
    GrownSame(code, mid, pj, tj + fj);
    var o := Exec(code, env, lo, hi, regs, tj + fj + pj);
    if o.Jump? && o.j in tj + fj { SameBrings(code, mid, o.j); }
    hide Grown, ValuesRemoved, Exec;
    assert AllPending(mid, tj) && AllPending(mid, fj);
    hide AllPending;
    NotYields(mid, code', env, lo, e, VReloc(hi), tj, fj, free, regs);
  }

  /** The same run, up to the end of the old code. */
  lemma GrownRun(code: seq<Instr>, code': seq<Instr>, env: Env, lo: nat, regs: Regs, js: set<nat>, pj: set<nat>)
    requires lo <= |code| && Grown(code, code', pj) && AllPending(code, js) && AllPending(code, pj) && js !! pj
    requires Proper(Exec(code, env, lo, |code|, regs, js + pj), |code|, js + pj)
    ensures var o := Exec(code, env, lo, |code|, regs, js + pj);
      Exec(code', env, lo, |code|, regs, js) == if o.Jump? && o.j in pj then Fall(|code|, o.regs) else o
  {
    var hi := |code|;
    var mid := code'[..hi];
    assert forall i :: 0 <= i < hi ==> mid[i] == code'[i] == Settled(code, pj, i);
    PendingBelow(code, js);
    PendingBelow(code, pj);
    GrownContinued(code, mid, lo, js, pj, js);
    assert hi !in js + pj;
    ContinueExec(code, mid, env, lo, lo, hi, hi, regs, js + pj, pj, js);
    var o := Exec(code, env, lo, hi, regs, js + pj);
    assert Exec(mid, env, hi, hi, o.regs, js) == Fall(hi, o.regs);
    SimilarExec(mid, code', env, lo, lo, hi, regs, js);
  }

  /** The run up to an OP_NOT that puts its result into a temporary register. */
  lemma TemporaryRun(code: seq<Instr>, mid: seq<Instr>, env: Env, lo: nat, pc: nat, free: nat, js: set<nat>, regs: Regs)
    requires lo <= pc == |code| - 1 && code[pc].NOT? && mid == code[pc := NOT(free, code[pc].b)] + [NOT(0, free)]
      && (forall j :: j in js ==> j < pc)
    requires Proper(Exec(code, env, lo, pc, regs, js), pc, js)
    ensures var o := Exec(code, env, lo, pc, regs, js);
      Exec(mid, env, lo, pc + 1, regs, js) == if o.Jump? then o
        else Fall(pc + 1, Set(o.regs, free, Bool(!Truthy(Reg(o.regs, code[pc].b)))))
  {
    SimilarExec(code, mid, env, lo, lo, pc, regs, js);
    SplitExec(mid, env, lo, pc, pc + 1, regs, js);
    var o := Exec(code, env, lo, pc, regs, js);
    if o.Fall? {
      var r := Set(o.regs, free, Bool(!Truthy(Reg(o.regs, code[pc].b))));
      assert Exec(mid, env, pc + 1, pc + 1, r, js) == Fall(pc + 1, r);
      assert Exec(mid, env, pc, pc + 1, o.regs, js) == Fall(pc + 1, r);
    }
  }

  /** `not` of an OP_NOT: the first result goes to a temporary register. */
  lemma NotReloc(code: seq<Instr>, mid: seq<Instr>, code': seq<Instr>, env: Env, lo: nat, e: Expr, pc: nat,
                 tj: set<nat>, fj: set<nat>, free: nat, regs: Regs)
    requires Layout(code, lo, VReloc(pc), tj, fj, {}, free) && Shaped(VReloc(pc), e)
      && Yields(code, env, lo, e, VReloc(pc), tj, fj, {}, free, regs)
    requires mid == code[pc := NOT(free, code[pc].b)] + [NOT(0, free)] && ValuesRemoved(mid, code', tj + fj)
      && |regs| == MAXSTACK
    ensures Yields(code', env, lo, Not(e), VReloc(pc + 1), fj, tj, {}, free, regs)
  {
    hide Exec, Eval, Through;
    var xs := tj + fj + {};
    assert xs == tj + fj;
    TemporaryRun(code, mid, env, lo, pc, free, xs, regs);
    PrefixSame(code, mid, pc, xs);
    var o := Exec(code, env, lo, pc, regs, xs);
    if o.Jump? { SameBrings(code, mid, o.j); }
    assert AllPending(mid, tj) && AllPending(mid, fj);
    hide AllPending, ValuesRemoved;
    NotYields(mid, code', env, lo, e, VReloc(pc + 1), tj, fj, free, regs);
  }

  /** `not` of a comparison inverts its condition. */
  lemma NotJmp(code: seq<Instr>, mid: seq<Instr>, code': seq<Instr>, env: Env, lo: nat, e: Expr, pc: nat, tj: set<nat>,
               fj: set<nat>, free: nat, regs: Regs)
    requires Layout(code, lo, VJmp(pc), tj, fj, {}, free) && Shaped(VJmp(pc), e)
      && Yields(code, env, lo, e, VJmp(pc), tj, fj, {}, free, regs)
    requires mid == code[pc - 1 := code[pc - 1].(cond := !code[pc - 1].cond)] && ValuesRemoved(mid, code', tj + fj)
    ensures Yields(code', env, lo, Not(e), VJmp(pc), fj, tj, {}, free, regs)
  {
    hide Eval, Keeps, Exec, Through;
    var xs := tj + fj + {};
    assert xs == tj + fj;
    SimilarExec(code, mid, env, lo, lo, pc - 1, regs, xs);
    PrefixSame(code, mid, pc - 1, xs);
    var o := Exec(code, env, lo, pc - 1, regs, xs);
    InvertedArrives(code, mid, env, pc, o.regs, Eval(env, regs, e));
    if o.Jump? { SameBrings(code, mid, o.j); }
    assert AllPending(mid, tj) && AllPending(mid, fj);
    hide AllPending, ValuesRemoved, Arrives;
    NotYields(mid, code', env, lo, e, VJmp(pc), tj, fj, free, regs);
  }

  lemma InvertedArrives(code: seq<Instr>, mid: seq<Instr>, env: Env, pc: nat, regs: Regs, v: Value)
    requires 1 <= pc < |code| && code[pc - 1].CMP? && mid == code[pc - 1 := code[pc - 1].(cond := !code[pc - 1].cond)]
    ensures Arrives(code, env, VJmp(pc), regs, v) ==> Arrives(mid, env, VJmp(pc), regs, Bool(!Truthy(v)))
  {
  }

  /** `not` of a constant is a constant; the jumps that wait go on waiting. */
  lemma NotConst(code: seq<Instr>, code': seq<Instr>, env: Env, lo: nat, e: Expr, v: Value, tj: set<nat>, fj: set<nat>,
                 pj: set<nat>,
                 free: nat, regs: Regs)
    requires Layout(code, lo, VConst(v), tj, fj, pj, free) && Shaped(VConst(v), e)
      && Yields(code, env, lo, e, VConst(v), tj, fj, pj, free, regs)
    requires ValuesRemoved(code, code', tj + fj)
    ensures Yields(code', env, lo, Not(e), VConst(Bool(!Truthy(v))), fj, tj, pj, free, regs)
  {
    var hi, xs := |code|, tj + fj + pj;
    assert fj + tj + pj == xs;
    RemovedExec(code, code', env, lo, hi, regs, tj + fj, xs);
    RemovedSame(code, code', tj + fj, pj);
    var o := Exec(code, env, lo, hi, regs, xs);
    hide AllPending, ValuesRemoved, Exec;
    if o.Jump? {
      if o.j in tj + fj {
        NotEnds(code, code', env, VConst(v), VConst(Bool(!Truthy(v))), tj, fj, o.j, o.regs, e, regs, Eval(env, regs, e),
                Nothing);
      } else {
        SameBrings(code, code', o.j);
      }
    }
  }

  /** The jumps that waited, where `not` emits an instruction or inverts one. */
  lemma PassesNot(code0: seq<Instr>, code: seq<Instr>, code': seq<Instr>, env: Env, e: Expr, kind: Kind, kind': Kind,
                  tj: set<nat>,
                  fj: set<nat>, pj: set<nat>, regs: Regs, j: nat, tok: Token)
    requires Passes(code0, code, env, e, kind, tj, fj, pj, regs, j, tok) && tj !! fj && tj !! pj && fj !! pj
    requires !ShapeOf(e).Constant? && (j in tj + fj ==> !HasValue(code', j))
    ensures Passes(code0, code', env, Not(e), kind', fj, tj, {}, regs, j, tok)
  {
    var v := Eval(env, regs, e);
    assert Eval(env, regs, Not(e)) == Bool(!Truthy(v));
    TokenFree(env, regs, e, tok, Nothing);
    hide Eval;
    if Brings(tok, code0, j, regs) && j in tj + fj {
      NotEnds(code, code', env, kind, kind', tj, fj, j, regs, e, regs, v, tok);
    }
  }

  lemma PassesNotConst(code0: seq<Instr>, code: seq<Instr>, code': seq<Instr>, env: Env, e: Expr, v: Value,
                       tj: set<nat>,
                       fj: set<nat>, pj: set<nat>, regs: Regs, j: nat, tok: Token)
    requires Passes(code0, code, env, e, VConst(v), tj, fj, pj, regs, j, tok) && tj !! fj && tj !! pj && fj !! pj
    requires Shaped(VConst(v), e) && (j in tj + fj ==> !HasValue(code', j)) && (j in pj ==> SameTest(code, code', j))
    ensures Passes(code0, code', env, Not(e), VConst(Bool(!Truthy(v))), fj, tj, pj, regs, j, tok)
  {
    if Brings(tok, code0, j, regs) {
      if j in tj + fj {
        NotEnds(code, code', env, VConst(v), VConst(Bool(!Truthy(v))), tj, fj, j, regs, e, regs, Eval(env, regs, e),
                tok);
      } else if j in pj {
        SameBrings(code, code', j);
      }
    }
  }

  // ----- and, or -----

  /** The true and false lists of both operands together. */
  function TrueList(b: bool, tj: set<nat>, qj: set<nat>): set<nat> {
    if b then tj else tj + qj
  }

  function FalseList(b: bool, fj: set<nat>, qj: set<nat>): set<nat> {
    if b then fj + qj else fj
  }

  /** The jumps of the first operand that leave are as they were. */
  lemma EnteredSame(code1: seq<Instr>, code2: seq<Instr>, pj: set<nat>, js: set<nat>)
    requires Framed(code1, code2, pj) && AllPending(code1, js) && js !! pj
    ensures forall j :: j in js ==> SameTest(code1, code2, j) && code2[j] == code1[j]
    ensures AllPending(code2, js)
  {
    forall j | j in js
      ensures SameTest(code1, code2, j) && code2[j] == code1[j] && PendingJump(code2, j)
    {
      assert PendingJump(code1, j);
      if j >= 1 { assert j - 1 in pj ==> code1[j - 1].JMP? && code2[j - 1].JMP?; }
    }
  }

  lemma EnteredControl(code1: seq<Instr>, code2: seq<Instr>, pj: set<nat>)
    requires Framed(code1, code2, pj)
    ensures forall i :: 0 <= i <= |code1| ==> (Controlled(code1, i) <==> Controlled(code2, i))
  {
    forall i | 0 <= i <= |code1|
      ensures Controlled(code1, i) <==> Controlled(code2, i)
    {
      if i >= 1 { assert i - 1 in pj ==> code1[i - 1].JMP? && code2[i - 1].JMP?; }
    }
  }

  lemma JoinedContinued(code1: seq<Instr>, code2: seq<Instr>, lo: nat, qj: set<nat>, pj1: set<nat>,
                        kind: Kind, tj: set<nat>, fj: set<nat>, pj2: set<nat>, free: nat)
    requires lo <= |code1| < |code2| && AllPending(code1, qj) && AllPending(code1, pj1) && qj !! pj1
    requires Entered(code1, code2, pj1, tj, fj, pj2) && Layout(code2, |code1|, kind, tj, fj, pj2, free)
    ensures Continued(code1, code2, lo, |code1|, qj + pj1, pj1, tj + fj + pj2 + qj)
  {
    var hi, xs, ys := |code1|, qj + pj1, tj + fj + pj2 + qj;
    forall i | lo <= i < hi && i !in xs
      ensures i !in ys && Alike(code1[i], code2[i])
    {
      if i + 1 in pj1 { assert PendingJump(code1, i + 1); }
    }
    PendingBelow(code1, qj);
    EnteredSame(code1, code2, pj1, qj);
    EnteredControl(code1, code2, pj1);
    forall i | lo <= i < hi && i + 1 in pj1 && code1[i].TESTSET?
      ensures code1[i].a == NO_REG
    {
      assert PendingJump(code1, i + 1);
    }
  }

  /** The run of both operands together. */
  lemma JoinedRun(code1: seq<Instr>, code2: seq<Instr>, env: Env, lo: nat, qj: set<nat>, pj1: set<nat>,
                  kind: Kind, tj: set<nat>, fj: set<nat>, pj2: set<nat>, regs: Regs, free: nat)
    requires lo <= |code1| < |code2| && AllPending(code1, qj) && AllPending(code1, pj1) && qj !! pj1
    requires Proper(Exec(code1, env, lo, |code1|, regs, qj + pj1), |code1|, qj + pj1)
    requires Entered(code1, code2, pj1, tj, fj, pj2) && Layout(code2, |code1|, kind, tj, fj, pj2, free)
    ensures var o := Exec(code1, env, lo, |code1|, regs, qj + pj1);
      0 <= Stop(code2, kind) <= |code2| &&
      Exec(code2, env, lo, Stop(code2, kind), regs, tj + fj + pj2 + qj) ==
        if o.Jump? && (o.j in qj || o.j in tj + fj + pj2) then o
        else Exec(code2, env, |code1|, Stop(code2, kind), o.regs, tj + fj + pj2)
  {
    var mid, hi, ys := |code1|, Stop(code2, kind), tj + fj + pj2 + qj;
    var o := Exec(code1, env, lo, mid, regs, qj + pj1);
    JoinedContinued(code1, code2, lo, qj, pj1, kind, tj, fj, pj2, free);
    PendingBelow(code1, qj);
    PendingBelow(code1, pj1);
    PendingBelow(code2, tj + fj + pj2);
    ContinueExec(code1, code2, env, lo, lo, mid, hi, regs, qj + pj1, pj1, ys);
    if !(o.Jump? && (o.j in qj || o.j in tj + fj + pj2)) {
      ExitsExec(code2, env, mid, mid, hi, o.regs, ys, tj + fj + pj2);
    }
  }

  /** Behind the first operand: the second goes on with what the jump brings. */
  lemma JoinedFacts(env: Env, regs: Regs, r: Regs, b: bool, x: Expr, y: Expr, free: nat)
    requires Keeps(regs, r, free) && Scope(y, free)
    ensures var w := GoWay(env, regs, b, x, Through(env, regs, x, Nothing));
      && Through(env, regs, Joined(b, x, y), Nothing) == (if w.On? then Through(env, r, y, w.tok) else Leave(!b, w.tok))
      && (w.On? ==> Eval(env, regs, Joined(b, x, y)) == Eval(env, r, y))
  {
    var w := GoWay(env, regs, b, x, Through(env, regs, x, Nothing));
    EvalKeeps(env, regs, r, y, free);
    ThroughKeeps(env, regs, r, y, free, w.tok);
    WayRight(env, regs, b, x, Nothing);
    JoinedThrough(env, regs, b, x, y, Nothing);
    EvalJoined(env, regs, b, x, y);
  }

  lemma JoinedYields(code1: seq<Instr>, code2: seq<Instr>, env: Env, lo: nat, x: Expr, y: Expr, b: bool, qj: set<nat>,
                     pj1: set<nat>, kind: Kind, tj: set<nat>, fj: set<nat>, pj2: set<nat>, free: nat, regs: Regs)
    requires lo <= |code1| && AllPending(code1, qj) && AllPending(code1, pj1) && qj !! pj1
    requires Goes(code1, env, lo, x, b, qj, pj1, free, regs) && Entered(code1, code2, pj1, tj, fj, pj2)
    requires Layout(code2, |code1|, kind, tj, fj, pj2, free) && Scope(y, free)
    requires var r := Exec(code1, env, lo, |code1|, regs, qj + pj1).regs;
      && Yields(code2, env, |code1|, y, kind, tj, fj, pj2, free, r)
      && forall j, tok :: j in pj1 ==> Passes(code1, code2, env, y, kind, tj, fj, pj2, r, j, tok)
    ensures Yields(code2, env, lo, Joined(b, x, y), kind, TrueList(b, tj, qj), FalseList(b, fj, qj), pj2, free, regs)
  {
    hide Eval, Through, GoWay, Scope, Yields, Goes, Passes, AllPending, Layout, Exec, Together, Settled;
    if |code2| == |code1| {
      JoinedEmpty(code1, env, lo, x, y, b, qj, pj1, kind, tj, fj, free, regs);
    } else {
      JoinedMore(code1, code2, env, lo, x, y, b, qj, pj1, kind, tj, fj, pj2, free, regs);
    }
  }

  lemma JoinedEmpty(code: seq<Instr>, env: Env, lo: nat, x: Expr, y: Expr, b: bool, qj: set<nat>, pj: set<nat>,
                    kind: Kind, tj: set<nat>, fj: set<nat>, free: nat, regs: Regs)
    requires lo <= |code| && AllPending(code, qj) && tj == {} && fj == {} && qj !! pj
    requires Goes(code, env, lo, x, b, qj, pj, free, regs) && Layout(code, |code|, kind, tj, fj, pj, free)
      && Scope(y, free)
    requires var r := Exec(code, env, lo, |code|, regs, qj + pj).regs;
      && Yields(code, env, |code|, y, kind, tj, fj, pj, free, r)
      && forall j, tok :: j in pj ==> Passes(code, code, env, y, kind, tj, fj, pj, r, j, tok)
    ensures Yields(code, env, lo, Joined(b, x, y), kind, TrueList(b, tj, qj), FalseList(b, fj, qj), pj, free, regs)
  {
    hide Eval, Through, GoWay, Scope, AllPending;
    var o := Exec(code, env, lo, |code|, regs, qj + pj);
    JoinedFacts(env, regs, o.regs, b, x, y, free);
    var w := GoWay(env, regs, b, x, Through(env, regs, x, Nothing));
    var tj', fj' := TrueList(b, tj, qj), FalseList(b, fj, qj);
    assert tj' + fj' + pj == qj + pj && tj + fj + pj == pj;
    assert Stop(code, kind) == |code|;
    if o.Jump? && o.j in pj { assert Passes(code, code, env, y, kind, tj, fj, pj, o.regs, o.j, w.tok); }
    hide Layout;
  }

  lemma JoinedMore(code1: seq<Instr>, code2: seq<Instr>, env: Env, lo: nat, x: Expr, y: Expr, b: bool, qj: set<nat>,
                   pj1: set<nat>, kind: Kind, tj: set<nat>, fj: set<nat>, pj2: set<nat>, free: nat, regs: Regs)
    requires lo <= |code1| < |code2| && AllPending(code1, qj) && AllPending(code1, pj1) && qj !! pj1
    requires Goes(code1, env, lo, x, b, qj, pj1, free, regs) && Entered(code1, code2, pj1, tj, fj, pj2)
    requires Layout(code2, |code1|, kind, tj, fj, pj2, free) && Scope(y, free)
    requires var r := Exec(code1, env, lo, |code1|, regs, qj + pj1).regs;
      && Yields(code2, env, |code1|, y, kind, tj, fj, pj2, free, r)
      && forall j, tok :: j in pj1 ==> Passes(code1, code2, env, y, kind, tj, fj, pj2, r, j, tok)
    ensures Yields(code2, env, lo, Joined(b, x, y), kind, TrueList(b, tj, qj), FalseList(b, fj, qj), pj2, free, regs)
  {
    hide Eval, Through, GoWay, Scope;
    var o := Exec(code1, env, lo, |code1|, regs, qj + pj1);
    JoinedFacts(env, regs, o.regs, b, x, y, free);
    var w := GoWay(env, regs, b, x, Through(env, regs, x, Nothing));
    var tj', fj' := TrueList(b, tj, qj), FalseList(b, fj, qj);
    JoinedSets(b, tj, fj, pj2, qj);
    JoinedRun(code1, code2, env, lo, qj, pj1, kind, tj, fj, pj2, regs, free);
    JoinedApart(code1, code2, qj, pj1, tj, fj, pj2);
    EnteredSame(code1, code2, pj1, qj);
    hide Exec, AllPending, Entered, Layout, Framed, TrueList, FalseList, Arrives;
    if o.Jump? && o.j in qj {
      SameBrings(code1, code2, o.j);
    } else if o.Jump? && o.j in tj + fj + pj2 {
      assert Passes(code1, code2, env, y, kind, tj, fj, pj2, o.regs, o.j, w.tok);
    } else {
      if o.Jump? { assert Passes(code1, code2, env, y, kind, tj, fj, pj2, o.regs, o.j, w.tok); }
    }
  }

  lemma JoinedSets(b: bool, tj: set<nat>, fj: set<nat>, pj: set<nat>, qj: set<nat>)
    ensures TrueList(b, tj, qj) + FalseList(b, fj, qj) + pj == tj + fj + pj + qj
    ensures forall j :: j in qj ==> (j in TrueList(b, tj, qj) || j in FalseList(b, fj, qj))
    ensures forall j :: j !in qj ==> (j in TrueList(b, tj, qj) <==> j in tj) && (j in FalseList(b, fj, qj) <==> j in fj)
    ensures forall j :: j in qj && j !in tj + fj ==>
      (j in TrueList(b, tj, qj) <==> !b) && (j in FalseList(b, fj, qj) <==> b)
  {
  }

  lemma JoinedApart(code1: seq<Instr>, code2: seq<Instr>, qj: set<nat>, pj1: set<nat>, tj: set<nat>, fj: set<nat>,
                    pj2: set<nat>)
    requires Entered(code1, code2, pj1, tj, fj, pj2) && AllPending(code1, qj) && qj !! pj1 && |code1| < |code2|
    ensures qj !! tj + fj + pj2
  {
    PendingBelow(code1, qj);
  }

  lemma EvalJoined(env: Env, regs: Regs, b: bool, x: Expr, y: Expr)
    ensures var v, w := Eval(env, regs, x), Eval(env, regs, y);
      Eval(env, regs, Joined(b, x, y)) == if Truthy(v) == b then w else v
  {
  }

  // ----- Relinking lists -----

  /** Only the links of pending jumps differ. */
  ghost predicate Relinked(code: seq<Instr>, code': seq<Instr>, js: set<nat>) {
    && |code'| == |code|
    && (forall i :: 0 <= i < |code| && i !in js ==> code'[i] == code[i])
    && (forall i :: 0 <= i < |code| && i in js ==> code[i].JMP? && code'[i].JMP?)
  }

  lemma RelinkSame(code: seq<Instr>, code': seq<Instr>, js: set<nat>, qj: set<nat>)
    requires Relinked(code, code', js) && AllPending(code, qj)
    ensures forall j :: j in qj ==> SameTest(code, code', j)
    ensures AllPending(code', qj)
    ensures forall i :: 0 <= i <= |code| ==> (Controlled(code, i) <==> Controlled(code', i))
  {
    forall j | j in qj
      ensures SameTest(code, code', j) && PendingJump(code', j)
    {
      assert PendingJump(code, j);
      if j >= 1 { assert j - 1 in js ==> code[j - 1].JMP? && code'[j - 1].JMP?; }
    }
  }

  lemma RelinkKind(code: seq<Instr>, code': seq<Instr>, lo: nat, kind: Kind, js: set<nat>, pj: set<nat>, free: nat)
    requires KindOk(code, lo, kind, js, pj, free) && Relinked(code, code', js + pj)
    ensures Stop(code', kind) == Stop(code, kind) && KindOk(code', lo, kind, js, pj, free)
  {
  }

  lemma RelinkArrives(code: seq<Instr>, code': seq<Instr>, env: Env, lo: nat, kind: Kind, js: set<nat>, pj: set<nat>,
                      free: nat)
    requires KindOk(code, lo, kind, js, pj, free) && Relinked(code, code', js + pj)
    ensures forall r, v :: Arrives(code, env, kind, r, v) ==> Arrives(code', env, kind, r, v)
    ensures Stop(code', kind) == Stop(code, kind)
  {
  }

  lemma RelinkedMore(code: seq<Instr>, code': seq<Instr>, js: set<nat>, all: set<nat>)
    requires Relinked(code, code', js) && js <= all && AllPending(code, all)
    ensures Relinked(code, code', all)
  {
    PendingBelow(code, all);
  }

  lemma RelinkYields(code: seq<Instr>, code': seq<Instr>, env: Env, lo: nat, e: Expr, kind: Kind, tj: set<nat>,
                     fj: set<nat>, pj: set<nat>, free: nat, regs: Regs)
    requires Layout(code, lo, kind, tj, fj, pj, free) && Yields(code, env, lo, e, kind, tj, fj, pj, free, regs)
    requires Relinked(code, code', tj + fj + pj)
    ensures Yields(code', env, lo, e, kind, tj, fj, pj, free, regs)
  {
    hide Eval, Keeps, Through, Arrives;
    var xs := tj + fj + pj;
    RelinkSame(code, code', xs, xs);
    RelinkArrives(code, code', env, lo, kind, tj + fj, pj, free);
    SimilarExec(code, code', env, lo, lo, Stop(code, kind), regs, xs);
    var o := Exec(code, env, lo, Stop(code, kind), regs, xs);
    hide Exec, Layout, Relinked;
    if o.Jump? { SameBrings(code, code', o.j); }
  }

  lemma RelinkPasses(code0: seq<Instr>, code: seq<Instr>, code': seq<Instr>, env: Env, lo: nat, e: Expr, kind: Kind,
                     tj: set<nat>,
                     fj: set<nat>, pj: set<nat>, free: nat, regs: Regs, j: nat, tok: Token)
    requires Layout(code, lo, kind, tj, fj, pj, free) && Passes(code0, code, env, e, kind, tj, fj, pj, regs, j, tok)
    requires Relinked(code, code', tj + fj + pj)
    ensures Passes(code0, code', env, e, kind, tj, fj, pj, regs, j, tok)
  {
    hide Eval, Through, Arrives;
    var xs := tj + fj + pj;
    RelinkSame(code, code', xs, xs);
    RelinkArrives(code, code', env, lo, kind, tj + fj, pj, free);
    if j in xs { SameBrings(code, code', j); }
  }

  lemma RelinkGoes(code: seq<Instr>, code': seq<Instr>, env: Env, lo: nat, e: Expr, b: bool, qj: set<nat>, pj: set<nat>,
                   free: nat, regs: Regs)
    requires AllPending(code, qj) && AllPending(code, pj) && Goes(code, env, lo, e, b, qj, pj, free, regs)
    requires Relinked(code, code', qj + pj)
    ensures Goes(code', env, lo, e, b, qj, pj, free, regs)
  {
    hide Through, GoWay;
    var xs := qj + pj;
    RelinkSame(code, code', xs, xs);
    SimilarExec(code, code', env, lo, lo, |code|, regs, xs);
    var o := Exec(code, env, lo, |code|, regs, xs);
    if o.Jump? { SameBrings(code, code', o.j); }
  }

  lemma RelinkGoPasses(code0: seq<Instr>, code: seq<Instr>, code': seq<Instr>, env: Env, e: Expr, b: bool, qj: set<nat>,
                       pj: set<nat>,
                       regs: Regs, j: nat, tok: Token)
    requires AllPending(code, qj) && AllPending(code, pj) && GoPasses(code0, code, env, e, b, qj, pj, regs, j, tok)
    requires Relinked(code, code', qj + pj)
    ensures GoPasses(code0, code', env, e, b, qj, pj, regs, j, tok)
  {
    hide Through, GoWay;
    RelinkSame(code, code', qj + pj, qj + pj);
    if j in qj + pj { SameBrings(code, code', j); }
  }

  // ----- The jumps that waited, behind both operands -----

  lemma JoinedPasses(code0: seq<Instr>, code1: seq<Instr>, code2: seq<Instr>, env: Env, x: Expr, y: Expr, b: bool,
                     qj: set<nat>,
                     pj1: set<nat>, kind: Kind, tj: set<nat>, fj: set<nat>, pj2: set<nat>, regs: Regs, j: nat,
                     tok: Token)
    requires GoPasses(code0, code1, env, x, b, qj, pj1, regs, j, tok) && qj !! pj1 && qj !! tj + fj + pj2
    requires forall t :: j in pj1 ==> Passes(code1, code2, env, y, kind, tj, fj, pj2, regs, j, t)
    requires j in qj ==> SameTest(code1, code2, j)
    requires j in tj + fj + pj2 ==> j in pj1
    ensures Passes(code0, code2, env, Joined(b, x, y), kind, TrueList(b, tj, qj), FalseList(b, fj, qj), pj2, regs, j,
                   tok)
  {
    WayUse(env, regs, b, x, tok);
    WayRight(env, regs, b, x, tok);
    JoinedThrough(env, regs, b, x, y, tok);
    JoinedThrough(env, regs, b, x, y, Nothing);
    EvalJoined(env, regs, b, x, y);
    JoinedSets(b, tj, fj, pj2, qj);
    hide Eval, Through, GoWay, Arrives, TrueList, FalseList, Joined;
    if Brings(tok, code0, j, regs) {
      var w := GoWay(env, regs, b, x, Through(env, regs, x, tok));
      if j in qj {
        SameBrings(code1, code2, j);
      } else if j in pj1 {
        assert Passes(code1, code2, env, y, kind, tj, fj, pj2, regs, j, w.tok);
      }
    }
  }

  // ----- Comparisons -----

  /** Operands ready: from `lo` the code only loads constants into registers that are not in use. */
  ghost predicate Ready(code: seq<Instr>, env: Env, lo: nat, free: nat, regs: Regs, r: Regs) {
    lo <= |code| && Exec(code, env, lo, |code|, regs, {}) == Fall(|code|, r) && Keeps(regs, r, free)
  }

  /** The operator and operands that lcode.c `codecomp` puts into the instruction. */
  function CompOp(op: RelOp): CmpOp {
    match op
    case REq => Eq
    case RNe => Eq
    case RLt => Lt
    case RLe => Le
    case RGt => Lt
    case RGe => Le
  }

  predicate Exchanged(op: RelOp) {
    op == RGt || op == RGe
  }

  function CompInstr(op: RelOp, x: Operand, y: Operand): Instr {
    if Exchanged(op) then CMP(CompOp(op), true, y, x) else CMP(CompOp(op), op != RNe, x, y)
  }

  lemma RelYields(code: seq<Instr>, code': seq<Instr>, env: Env, lo: nat, op: RelOp, x: Atom, y: Atom, o1: Operand,
                  o2: Operand, free: nat, regs: Regs, r: Regs)
    requires Ready(code, env, lo, free, regs, r)
    requires code' == code + [CompInstr(op, o1, o2), JMP(NO_JUMP)]
    requires Rk(env, r, o1) == AtomValue(regs, x) && Rk(env, r, o2) == AtomValue(regs, y)
    ensures Yields(code', env, lo, Rel(op, x, y), VJmp(|code| + 1), {}, {}, {}, free, regs)
  {
    SimilarExec(code, code', env, lo, lo, |code|, regs, {});
    var none: set<nat> := {};
    assert none + none + none == {};
  }

  // ----- The code before the expression -----

  /** Emitting an instruction: what waits is patched to it. */
  lemma EnteredGrow(code0: seq<Instr>, code: seq<Instr>, code': seq<Instr>, p0: set<nat>, tj: set<nat>, fj: set<nat>,
                    pj: set<nat>)
    requires Entered(code0, code, p0, tj, fj, pj) && Grown(code, code', pj) && |code| < |code'|
    requires AllPending(code, tj) && AllPending(code, fj) && AllPending(code, pj) && tj !! pj && fj !! pj
      && !Controlled(code, |code0|)
    ensures Entered(code0, code', p0, tj, fj, {})
  {
    if |code| == |code0| {
      GrowStart(code0, code', p0);
    } else {
      GrowFramed(code0, code, code', p0, pj);
      GrowLead(code0, code, code', p0, tj + fj, pj);
    }
  }

  lemma GrowStart(code: seq<Instr>, code': seq<Instr>, pj: set<nat>)
    requires Grown(code, code', pj) && AllPending(code, pj)
    ensures Framed(code, code', pj) && Lead(code', pj, |code|)
  {
    PendingBelow(code, pj);
    forall j | j in pj
      ensures code'[j].JMP? && Goal(code', j) == |code|
    {
      assert code'[j] == Settled(code, pj, j);
    }
  }

  lemma GrowFramed(code0: seq<Instr>, code: seq<Instr>, code': seq<Instr>, p0: set<nat>, pj: set<nat>)
    requires Framed(code0, code, p0) && Grown(code, code', pj) && |code0| < |code| && AllPending(code, pj)
    requires (forall j :: j in pj ==> j in p0 || |code0| <= j) && !Controlled(code, |code0|)
    ensures Framed(code0, code', p0)
  {
    PendingBelow(code, pj);
    forall i | 0 <= i < |code0| && i !in p0
      ensures code'[i] == code0[i] || code'[i] == Settled(code0, p0, i)
    {
      assert code'[i] == Settled(code, pj, i);
      if i + 1 in pj && i + 1 !in p0 { assert i + 1 == |code0|; }
    }
    forall j | j in p0
      ensures code'[j].JMP?
    {
      assert code'[j] == Settled(code, pj, j);
    }
  }

  lemma GrowLead(code0: seq<Instr>, code: seq<Instr>, code': seq<Instr>, p0: set<nat>, js: set<nat>, pj: set<nat>)
    requires Framed(code0, code, p0) && Grown(code, code', pj) && |code0| < |code| && AllPending(code, pj) && js !! pj
    requires Together(p0, |code0|, pj) && Together(p0, |code0|, js) && (|code0| !in js + pj ==> Lead(code, p0, |code0|))
    ensures |code0| !in js ==> Lead(code', p0, |code0|)
  {
    var m := |code0|;
    PendingBelow(code, pj);
    assert code'[m] == Settled(code, pj, m);
    if m in pj {
      forall j | j in p0
        ensures code'[j].JMP? && Goal(code', j) == |code| == Goal(code', m)
      {
        assert code'[j] == Settled(code, pj, j);
      }
    } else if m !in js {
      forall j | j in p0
        ensures code'[j] == code[j]
      {
        assert code'[j] == Settled(code, pj, j);
      }
    }
  }

  /** A change within the current expression, and to pending jumps and their tests. */
  lemma EnteredChange(code0: seq<Instr>, code: seq<Instr>, code': seq<Instr>, p0: set<nat>, tj: set<nat>, fj: set<nat>,
                      pj: set<nat>,
                      tj': set<nat>, fj': set<nat>, pj': set<nat>)
    requires Entered(code0, code, p0, tj, fj, pj) && |code0| < |code| && Framed(code0, code', p0) && |code0| < |code'|
    requires Together(p0, |code0|, tj') && Together(p0, |code0|, fj') && Together(p0, |code0|, pj')
    requires forall j :: j in tj' + fj' + pj' ==> j in p0 || |code0| <= j
    requires |code0| !in tj' + fj' + pj' ==>
      |code0| !in tj + fj + pj && (code'[|code0|] == code[|code0|] || !code[|code0|].JMP?)
    requires |code0| !in tj' + fj' + pj' ==> forall j :: j in p0 ==> code'[j] == code[j]
    ensures Entered(code0, code', p0, tj', fj', pj')
  {
  }

  /** Relinking pending jumps. */
  lemma EnteredRelinked(code0: seq<Instr>, code: seq<Instr>, code': seq<Instr>, p0: set<nat>, tj: set<nat>,
                        fj: set<nat>, pj: set<nat>, js: set<nat>)
    requires Entered(code0, code, p0, tj, fj, pj) && Relinked(code, code', js) && js <= tj + fj + pj && |code0| < |code|
    ensures Entered(code0, code', p0, tj, fj, pj)
  {
    forall i | 0 <= i < |code0| && i !in p0
      ensures code'[i] == code[i]
    {
    }
    assert Framed(code0, code', p0);
    if |code0| !in tj + fj + pj {
      forall j | j in p0
        ensures code'[j] == code[j]
      {
      }
    }
    EnteredChange(code0, code, code', p0, tj, fj, pj, tj, fj, pj);
  }

  /** Taking the values from pending jumps. */
  lemma EnteredRemoved(code0: seq<Instr>, code: seq<Instr>, code': seq<Instr>, p0: set<nat>, tj: set<nat>, fj: set<nat>,
                       pj: set<nat>)
    requires Entered(code0, code, p0, tj, fj, pj) && ValuesRemoved(code, code', tj + fj) && |code0| < |code|
      && !Controlled(code, |code0|)
    ensures Entered(code0, code', p0, fj, tj, pj)
  {
    forall i | 0 <= i < |code0| && i !in p0
      ensures code'[i] == code0[i] || code'[i] == Settled(code0, p0, i)
    {
      if i + 1 in tj + fj && i + 1 !in p0 { assert i + 1 == |code0|; }
    }
    assert Framed(code0, code', p0);
    EnteredChange(code0, code, code', p0, tj, fj, pj, fj, tj, pj);
  }

  /** Both operands, seen from before the first. */
  lemma JoinedEntered(code0: seq<Instr>, p0: set<nat>, code1: seq<Instr>, code2: seq<Instr>, b: bool, qj: set<nat>,
                      pj1: set<nat>,
                      tj: set<nat>, fj: set<nat>, pj2: set<nat>)
    requires Entered(code0, code1, p0, qj, {}, pj1) && Entered(code1, code2, pj1, tj, fj, pj2) && qj !! pj1
    requires AllPending(code1, qj) && AllPending(code1, pj1) && !Controlled(code1, |code0|)
    ensures Entered(code0, code2, p0, TrueList(b, tj, qj), FalseList(b, fj, qj), pj2)
  {
    var tj', fj' := TrueList(b, tj, qj), FalseList(b, fj, qj);
    PendingBelow(code1, qj);
    PendingBelow(code1, pj1);
    if |code1| == |code0| || |code2| == |code1| {
    } else {
      JoinedFramed(code0, p0, code1, code2, qj, pj1);
      JoinedTogether(code0, p0, code1, qj, pj1, tj);
      JoinedTogether(code0, p0, code1, qj, pj1, fj);
      JoinedTogether(code0, p0, code1, qj, pj1, pj2);
      JoinedSets(b, tj, fj, pj2, qj);
      if |code0| !in tj' + fj' + pj2 { JoinedLead(code0, p0, code1, code2, qj, pj1, tj + fj + pj2); }
    }
  }

  lemma JoinedFramed(code0: seq<Instr>, p0: set<nat>, code1: seq<Instr>, code2: seq<Instr>, qj: set<nat>, pj1: set<nat>)
    requires Framed(code0, code1, p0) && Framed(code1, code2, pj1) && |code0| < |code1| && !Controlled(code1, |code0|)
    requires forall j :: j in pj1 ==> j in p0 || |code0| <= j
    ensures Framed(code0, code2, p0)
  {
    forall i | 0 <= i < |code0| && i !in p0
      ensures code2[i] == code0[i] || code2[i] == Settled(code0, p0, i)
    {
      assert i !in pj1;
      assert code2[i] == code1[i] || code2[i] == Settled(code1, pj1, i);
      if i + 1 in pj1 && i + 1 !in p0 { assert i + 1 == |code0|; }
    }
    forall j | j in p0
      ensures code2[j].JMP?
    {
      if j !in pj1 { assert code2[j] == code1[j]; }
    }
  }

  lemma JoinedTogether(code0: seq<Instr>, p0: set<nat>, code1: seq<Instr>, qj: set<nat>, pj1: set<nat>, js: set<nat>)
    requires |code0| < |code1| && Together(p0, |code0|, pj1) && Together(pj1, |code1|, js)
    requires (forall j :: j in p0 ==> j < |code0|) && forall j :: j in js ==> j in pj1 || |code1| <= j
    ensures Together(p0, |code0|, js)
  {
  }

  lemma JoinedLead(code0: seq<Instr>, p0: set<nat>, code1: seq<Instr>, code2: seq<Instr>, qj: set<nat>, pj1: set<nat>,
                   js: set<nat>)
    requires Framed(code0, code1, p0) && Framed(code1, code2, pj1) && |code0| < |code1| < |code2|
    requires Together(p0, |code0|, pj1) && Together(pj1, |code1|, js) && |code0| !in js && |code0| !in qj
    requires |code0| !in qj + pj1 ==> Lead(code1, p0, |code0|)
    requires |code1| !in js ==> Lead(code2, pj1, |code1|)
    ensures Lead(code2, p0, |code0|)
  {
    var m := |code0|;
    if m in pj1 {
      assert forall j :: j in p0 ==> j in pj1;
      assert Goal(code2, m) > m;
    } else {
      assert code1[m].JMP? ==> code2[m] == code1[m];
      forall j | j in p0
        ensures code2[j] == code1[j]
      {
        assert j !in pj1;
      }
    }
  }
}
