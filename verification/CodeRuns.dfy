/** The parts of an expression together: where its jumps are, and what its runs do from every state. */
module CodeRuns {
  import opened CodeVm
  import opened CodeLists
  import opened CodeRoute
  import opened CodeSem

  // ----- Runs from the start and of the jumps that waited -----

  ghost predicate Runs(code0: seq<Instr>, p0: set<nat>, code: seq<Instr>, env: Env, e: Expr, kind: Kind, tj: set<nat>,
                       fj: set<nat>, pj: set<nat>, free: nat, regs: Regs) {
    && Yields(code, env, |code0|, e, kind, tj, fj, pj, free, regs)
    && forall j, tok :: j in p0 ==> Passes(code0, code, env, e, kind, tj, fj, pj, regs, j, tok)
  }

  ghost predicate GoRuns(code0: seq<Instr>, p0: set<nat>, code: seq<Instr>, env: Env, e: Expr, b: bool, qj: set<nat>,
                         pj: set<nat>, free: nat, regs: Regs) {
    && Goes(code, env, |code0|, e, b, qj, pj, free, regs)
    && forall j, tok :: j in p0 ==> GoPasses(code0, code, env, e, b, qj, pj, regs, j, tok)
  }

  ghost predicate Placed(code0: seq<Instr>, p0: set<nat>, code: seq<Instr>, kind: Kind, tj: set<nat>, fj: set<nat>,
                         pj: set<nat>, free: nat) {
    && Layout(code, |code0|, kind, tj, fj, pj, free) && Entered(code0, code, p0, tj, fj, pj)
    && forall j :: j in p0 ==> j < |code0|
  }

  /** What going on after a condition leaves, apart from the meaning. */
  ghost predicate GoPlaced(code0: seq<Instr>, p0: set<nat>, code: seq<Instr>, qj: set<nat>, pj: set<nat>) {
    && |code0| <= |code| && !Controlled(code, |code0|) && AllPending(code, qj) && AllPending(code, pj) && qj !! pj
    && Entered(code0, code, p0, qj, {}, pj)
    && forall j :: j in p0 ==> j < |code0|
  }

  /** The condition that jumps behind a value in a register. */
  lemma TestedRuns(code0: seq<Instr>, p0: set<nat>, code: seq<Instr>, code': seq<Instr>, env: Env, e: Expr, b: bool,
                   kind: Kind,
                   tj: set<nat>, fj: set<nat>, pj: set<nat>, n: nat, free: nat, regs: Regs)
    requires Runs(code0, p0, code, env, e, kind, tj, fj, pj, free, regs) && Shaped(kind, e)
    requires kind.VConst? ==> Truthy(kind.v) != b && !kind.v.Bool?
    requires tj !! fj && tj !! pj && fj !! pj && (forall j :: j in tj + fj ==> SameTest(code, code', j)) && n !in p0
    requires Goes(code', env, |code0|, e, b, Stays(!b, tj, fj) + {n}, Stays(b, tj, fj), free, regs)
    ensures GoRuns(code0, p0, code', env, e, b, Stays(!b, tj, fj) + {n}, Stays(b, tj, fj), free, regs)
  {
    hide Yields, Goes, Passes, GoPasses;
    var qj, oj := Stays(!b, tj, fj) + {n}, Stays(b, tj, fj);
    forall j, tok | j in p0
      ensures GoPasses(code0, code', env, e, b, qj, oj, regs, j, tok)
    {
      PassesTested(code0, code, code', env, e, b, kind, tj, fj, pj, n, regs, j, tok);
    }
  }

  /** The lists of a condition with a new jump `n`. */
  lemma TestedPlaced(code0: seq<Instr>, p0: set<nat>, code: seq<Instr>, b: bool, tj: set<nat>, fj: set<nat>, n: nat)
    requires Entered(code0, code, p0, tj, fj, {}) && |code0| < n < |code| && !Controlled(code, |code0|) && tj !! fj
    requires AllPending(code, tj) && AllPending(code, fj) && PendingJump(code, n) && n !in tj + fj
    requires forall j :: j in p0 ==> j < |code0|
    ensures GoPlaced(code0, p0, code, Stays(!b, tj, fj) + {n}, Stays(b, tj, fj))
  {
    EnteredChange(code0, code, code, p0, tj, fj, {}, Stays(!b, tj, fj) + {n}, {}, Stays(b, tj, fj));
  }

  lemma ConstPlaced(code0: seq<Instr>, p0: set<nat>, code: seq<Instr>, b: bool, v: Value, tj: set<nat>, fj: set<nat>,
                    pj: set<nat>, free: nat)
    requires Placed(code0, p0, code, VConst(v), tj, fj, pj, free)
    ensures GoPlaced(code0, p0, code, Stays(!b, tj, fj), pj + Stays(b, tj, fj))
  {
    if |code0| == |code| {
      assert pj + Stays(b, tj, fj) == pj;
    } else {
      EnteredChange(code0, code, code, p0, tj, fj, pj, Stays(!b, tj, fj), {}, pj + Stays(b, tj, fj));
    }
  }

  lemma ConstRuns(code0: seq<Instr>, p0: set<nat>, code: seq<Instr>, env: Env, e: Expr, b: bool, v: Value, tj: set<nat>,
                  fj: set<nat>, pj: set<nat>, free: nat, regs: Regs)
    requires Runs(code0, p0, code, env, e, VConst(v), tj, fj, pj, free, regs) && Shaped(VConst(v), e) && Truthy(v) == b
    requires Layout(code, |code0|, VConst(v), tj, fj, pj, free)
    ensures GoRuns(code0, p0, code, env, e, b, Stays(!b, tj, fj), pj + Stays(b, tj, fj), free, regs)
  {
    GoConst(code, env, |code0|, e, v, tj, fj, pj, free, regs, b);
    hide Yields, Goes, Passes, GoPasses;
    var qj, oj := Stays(!b, tj, fj), pj + Stays(b, tj, fj);
    forall j, tok | j in p0
      ensures GoPasses(code0, code, env, e, b, qj, oj, regs, j, tok)
    {
      PassesConst(code0, code, env, e, b, v, tj, fj, pj, regs, j, tok);
    }
  }

  /** The always-jump arm: what waits joins the jumps that leave. */
  lemma AlwaysPlaced(code0: seq<Instr>, p0: set<nat>, code: seq<Instr>, code': seq<Instr>, b: bool, tj: set<nat>,
                     fj: set<nat>, pj: set<nat>, free: nat)
    requires Placed(code0, p0, code, VConst(Bool(!b)), tj, fj, pj, free) && !Controlled(code, |code|)
    requires |code'| == |code| + 1 && (forall i :: 0 <= i < |code| && i !in pj ==> code'[i] == code[i])
      && code'[|code|].JMP?
    requires forall i :: 0 <= i < |code| && i in pj ==> code'[i].JMP?
    ensures GoPlaced(code0, p0, code', Stays(!b, tj, fj) + {|code|} + pj, Stays(b, tj, fj))
    ensures forall j :: j in tj + fj + pj ==> SameTest(code, code', j)
  {
    var n, xs := |code|, tj + fj + pj;
    AlwaysSame(code, code', xs, pj);
    PendingBelow(code, xs);
    PendingBelow(code, pj);
    forall i | 0 <= i < |code0| && i !in p0
      ensures code'[i] == code[i]
    {
    }
    assert !Controlled(code', |code0|) && PendingJump(code', n);
    var qj, oj := Stays(!b, tj, fj) + {n} + pj, Stays(b, tj, fj);
    if |code| == |code0| {
      assert Framed(code0, code', p0);
    } else {
      assert Framed(code0, code', p0);
      EnteredChange(code0, code, code', p0, tj, fj, pj, qj, {}, oj);
    }
  }

  lemma AlwaysSame(code: seq<Instr>, code': seq<Instr>, xs: set<nat>, js: set<nat>)
    requires AllPending(code, xs) && |code| <= |code'| && AllPending(code, js)
    requires forall i :: 0 <= i < |code| && i !in js ==> code'[i] == code[i]
    requires forall i :: 0 <= i < |code| && i in js ==> code'[i].JMP?
    ensures forall j :: j in xs ==> SameTest(code, code', j)
    ensures AllPending(code', xs)
    ensures forall i :: 0 <= i <= |code| ==> (Controlled(code, i) <==> Controlled(code', i))
  {
    PendingBelow(code, js);
    forall j | j in xs
      ensures SameTest(code, code', j) && PendingJump(code', j)
    {
      assert PendingJump(code, j);
      if j >= 1 { assert j - 1 in js ==> code[j - 1].JMP? && code'[j - 1].JMP?; }
    }
  }

  lemma AlwaysRuns(code0: seq<Instr>, p0: set<nat>, code: seq<Instr>, code': seq<Instr>, env: Env, e: Expr, b: bool,
                   tj: set<nat>,
                   fj: set<nat>, pj: set<nat>, free: nat, regs: Regs)
    requires Runs(code0, p0, code, env, e, VConst(Bool(!b)), tj, fj, pj, free, regs) && Shaped(VConst(Bool(!b)), e)
    requires Layout(code, |code0|, VConst(Bool(!b)), tj, fj, pj, free) && !Controlled(code, |code|)
    requires |code'| == |code| + 1 && code'[..|code|] == code && code'[|code|].JMP? && |code| !in p0
    ensures GoRuns(code0, p0, code', env, e, b, Stays(!b, tj, fj) + {|code|} + pj, Stays(b, tj, fj), free, regs)
  {
    GoAlways(code, code', env, |code0|, e, tj, fj, pj, free, regs, b);
    assert forall i :: 0 <= i < |code| ==> code'[i] == code'[..|code|][i];
    PrefixSame(code, code', |code|, tj + fj + pj);
    hide Yields, Goes, Passes, GoPasses;
    var qj, oj := Stays(!b, tj, fj) + {|code|} + pj, Stays(b, tj, fj);
    forall j, tok | j in p0
      ensures GoPasses(code0, code', env, e, b, qj, oj, regs, j, tok)
    {
      PassesAlways(code0, code, code', env, e, b, tj, fj, pj, |code|, regs, j, tok);
    }
  }

  /** `not` that emits an instruction or inverts one. */
  lemma NegatedRuns(code0: seq<Instr>, p0: set<nat>, code: seq<Instr>, code': seq<Instr>, env: Env, e: Expr, kind: Kind,
                    kind': Kind,
                    tj: set<nat>, fj: set<nat>, pj: set<nat>, free: nat, regs: Regs)
    requires Runs(code0, p0, code, env, e, kind, tj, fj, pj, free, regs) && tj !! fj && tj !! pj && fj !! pj
    requires !ShapeOf(e).Constant? && forall j :: j in tj + fj ==> !HasValue(code', j)
    requires Yields(code', env, |code0|, Not(e), kind', fj, tj, {}, free, regs)
    ensures Runs(code0, p0, code', env, Not(e), kind', fj, tj, {}, free, regs)
  {
    hide Yields, Passes;
    forall j, tok | j in p0
      ensures Passes(code0, code', env, Not(e), kind', fj, tj, {}, regs, j, tok)
    {
      PassesNot(code0, code, code', env, e, kind, kind', tj, fj, pj, regs, j, tok);
    }
  }

  lemma NotConstRuns(code0: seq<Instr>, p0: set<nat>, code: seq<Instr>, code': seq<Instr>, env: Env, e: Expr, v: Value,
                     tj: set<nat>, fj: set<nat>, pj: set<nat>, free: nat, regs: Regs)
    requires Runs(code0, p0, code, env, e, VConst(v), tj, fj, pj, free, regs) && Shaped(VConst(v), e)
    requires Layout(code, |code0|, VConst(v), tj, fj, pj, free) && ValuesRemoved(code, code', tj + fj)
    ensures Runs(code0, p0, code', env, Not(e), VConst(Bool(!Truthy(v))), fj, tj, pj, free, regs)
  {
    NotConst(code, code', env, |code0|, e, v, tj, fj, pj, free, regs);
    RemovedSame(code, code', tj + fj, pj);
    hide Yields, Passes, ValuesRemoved;
    var kind := VConst(Bool(!Truthy(v)));
    forall j, tok | j in p0
      ensures Passes(code0, code', env, Not(e), kind, fj, tj, pj, regs, j, tok)
    {
      PassesNotConst(code0, code, code', env, e, v, tj, fj, pj, regs, j, tok);
    }
  }

  /** Both operands. */
  lemma JoinedRuns(code0: seq<Instr>, p0: set<nat>, code1: seq<Instr>, code2: seq<Instr>, env: Env, x: Expr, y: Expr,
                   b: bool, qj: set<nat>,
                   pj1: set<nat>, kind: Kind, tj: set<nat>, fj: set<nat>, pj2: set<nat>, free: nat, regs: Regs)
    requires GoPlaced(code0, p0, code1, qj, pj1) && Placed(code1, pj1, code2, kind, tj, fj, pj2, free) && Scope(y, free)
    requires GoRuns(code0, p0, code1, env, x, b, qj, pj1, free, regs) && |regs| == MAXSTACK
    requires forall r: Regs :: |r| == MAXSTACK ==> Runs(code1, pj1, code2, env, y, kind, tj, fj, pj2, free, r)
    ensures Runs(code0, p0, code2, env, Joined(b, x, y), kind, TrueList(b, tj, qj), FalseList(b, fj, qj), pj2, free,
                 regs)
  {
    hide Yields, Passes, GoPasses, Layout, Scope, Framed, Exec, Joined, TrueList, FalseList, Together;
    var r := Exec(code1, env, |code0|, |code1|, regs, qj + pj1).regs;
    assert |r| == MAXSTACK;
    hide Goes;
    JoinedYields(code1, code2, env, |code0|, x, y, b, qj, pj1, kind, tj, fj, pj2, free, regs);
    JoinedTests(code1, code2, qj, pj1, tj, fj, pj2);
    hide Entered, AllPending;
    forall j, tok | j in p0
      ensures Passes(code0, code2, env, Joined(b, x, y), kind, TrueList(b, tj, qj), FalseList(b, fj, qj), pj2, regs, j,
                     tok)
    {
      assert j < |code1|;
      JoinedPasses(code0, code1, code2, env, x, y, b, qj, pj1, kind, tj, fj, pj2, regs, j, tok);
    }
  }

  lemma JoinedTests(code1: seq<Instr>, code2: seq<Instr>, qj: set<nat>, pj1: set<nat>, tj: set<nat>, fj: set<nat>,
                    pj2: set<nat>)
    requires Entered(code1, code2, pj1, tj, fj, pj2) && AllPending(code1, qj) && qj !! pj1
    ensures qj !! tj + fj + pj2
    ensures forall j :: j in qj ==> SameTest(code1, code2, j) && code2[j] == code1[j]
    ensures AllPending(code2, qj)
    ensures forall j :: j in tj + fj + pj2 && j < |code1| ==> j in pj1
  {
    PendingBelow(code1, qj);
    if |code2| > |code1| {
      EnteredSame(code1, code2, pj1, qj);
    } else {
      assert forall j :: j in qj ==> PendingJump(code1, j);
      assert forall j :: j in tj + fj + pj2 ==> j in pj1;
    }
  }

  lemma JoinedPlaced(code0: seq<Instr>, p0: set<nat>, code1: seq<Instr>, code2: seq<Instr>, b: bool, qj: set<nat>,
                     pj1: set<nat>, kind: Kind, tj: set<nat>, fj: set<nat>, pj2: set<nat>, free: nat)
    requires GoPlaced(code0, p0, code1, qj, pj1) && Placed(code1, pj1, code2, kind, tj, fj, pj2, free)
    ensures Placed(code0, p0, code2, kind, TrueList(b, tj, qj), FalseList(b, fj, qj), pj2, free)
  {
    hide TrueList, FalseList, Framed, Lead, Together;
    JoinedEntered(code0, p0, code1, code2, b, qj, pj1, tj, fj, pj2);
    JoinedTests(code1, code2, qj, pj1, tj, fj, pj2);
    JoinedControl(code0, code1, code2, pj1, tj, fj, pj2);
    PendingBelow(code1, qj);
    JoinedSets(b, tj, fj, pj2, qj);
    hide Entered;
    var tj', fj' := TrueList(b, tj, qj), FalseList(b, fj, qj);
    JoinedPending(code2, b, tj, fj, qj);
    assert forall j :: j in tj' + fj' ==> j in tj + fj || j < |code1|;
    hide AllPending;
  }

  lemma JoinedPending(code: seq<Instr>, b: bool, tj: set<nat>, fj: set<nat>, qj: set<nat>)
    requires AllPending(code, tj) && AllPending(code, fj) && AllPending(code, qj)
    ensures AllPending(code, TrueList(b, tj, qj)) && AllPending(code, FalseList(b, fj, qj))
  {
  }

  lemma JoinedControl(code0: seq<Instr>, code1: seq<Instr>, code2: seq<Instr>, pj1: set<nat>, tj: set<nat>,
                      fj: set<nat>, pj2: set<nat>)
    requires Entered(code1, code2, pj1, tj, fj, pj2) && |code0| <= |code1| && !Controlled(code1, |code0|)
    ensures |code0| <= |code2| && !Controlled(code2, |code0|)
  {
    if |code2| != |code1| { EnteredControl(code1, code2, pj1); }
  }

  /** Relinking lists. */
  lemma RelinkPlaced(code0: seq<Instr>, p0: set<nat>, code: seq<Instr>, code': seq<Instr>, kind: Kind, tj: set<nat>,
                     fj: set<nat>, pj: set<nat>, free: nat, js: set<nat>)
    requires Placed(code0, p0, code, kind, tj, fj, pj, free) && Relinked(code, code', js) && js <= tj + fj
    ensures Placed(code0, p0, code', kind, tj, fj, pj, free)
    ensures Relinked(code, code', tj + fj + pj)
  {
    var xs := tj + fj + pj;
    RelinkedMore(code, code', js, xs);
    RelinkSame(code, code', xs, xs);
    RelinkKind(code, code', |code0|, kind, tj + fj, pj, free);
    if js == {} {
      assert code' == code;
    } else {
      EnteredRelinked(code0, code, code', p0, tj, fj, pj, js);
    }
  }
}
