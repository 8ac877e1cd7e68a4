/** Compiled expressions: a descriptor, its two lists, and what the code and the lists mean. */
module CodeDesc {
  import opened CodeVm
  import opened CodeLists
  import opened CodeRoute
  import opened CodeSem
  import opened CodeRuns
  import opened CodeFinal
  import opened CodeExp

  /** lparser.h `expdesc`: the kind of an expression and its two patch lists. */
  datatype ExpDesc = ExpDesc(kind: Kind, t: int, f: int)

  /** The last instruction is not a test, so a jump put behind it is controlled by nothing. */
  predicate Rested(code: seq<Instr>) {
    code == [] || !IsTest(code[|code| - 1])
  }

  ghost predicate Sem(code0: seq<Instr>, p0: set<nat>, code: seq<Instr>, k: seq<Value>, e: Expr, kind: Kind,
                      tj: set<nat>,
                      fj: set<nat>, pj: set<nat>, free: nat) {
    forall env: Env, regs: Regs :: k <= env.k && |regs| == MAXSTACK ==>
      Runs(code0, p0, code, env, e, kind, tj, fj, pj, free, regs)
  }

  ghost predicate GoSem(code0: seq<Instr>, p0: set<nat>, code: seq<Instr>, k: seq<Value>, e: Expr, b: bool,
                        qj: set<nat>,
                        pj: set<nat>, free: nat) {
    forall env: Env, regs: Regs :: k <= env.k && |regs| == MAXSTACK ==>
      GoRuns(code0, p0, code, env, e, b, qj, pj, free, regs)
  }

  /** Everything that has been emitted fits. */
  ghost predicate Fitting(code0: seq<Instr>, code: seq<Instr>) {
    forall i :: |code0| <= i < |code| ==> FitsFields(code[i])
  }

  /** What has been emitted does not start with a jump. */
  ghost predicate Opens(code0: seq<Instr>, code: seq<Instr>) {
    |code0| < |code| ==> !code[|code0|].JMP?
  }

  /** No jump is emitted to leave `e` always when it is not `b`. */
  predicate Tested(e: Expr, b: bool) {
    Unconditional(e) && ShapeOf(e) != Constant(Bool(!b))
  }

  /** An expression that has been compiled behind `code0`, where the jumps `p0` waited, but whose value
      is not in a register yet. */
  ghost predicate Described(code0: seq<Instr>, p0: set<nat>, code: seq<Instr>, k: seq<Value>, e: Expr, d: ExpDesc,
                            tq: seq<nat>, fq: seq<nat>, held: seq<nat>, free: nat) {
    && JumpList(code, d.t, tq) && JumpList(code, d.f, fq) && Rested(code) && Shaped(d.kind, e)
    && Placed(code0, p0, code, d.kind, Elems(tq), Elems(fq), Elems(held), free)
    && Sem(code0, p0, code, k, e, d.kind, Elems(tq), Elems(fq), Elems(held), free)
    && (Unconditional(e) ==> Opens(code0, code)) && Fitting(code0, code)
  }

  /** Compiled so far: `e` as a condition, with the jumps `q` that leave when it is not `b`. */
  ghost predicate GoesOn(code0: seq<Instr>, p0: set<nat>, code: seq<Instr>, k: seq<Value>, e: Expr, b: bool, l: int,
                         q: seq<nat>, held: seq<nat>, free: nat) {
    && JumpList(code, l, q)
    && GoPlaced(code0, p0, code, Elems(q), Elems(held))
    && GoSem(code0, p0, code, k, e, b, Elems(q), Elems(held), free)
    && (Tested(e, b) ==> Opens(code0, code)) && Fitting(code0, code)
  }

  /** The list `l` of the jumps `jq`, which are on no other list yet, is left by if the value of `e` is
      not `b`; the jumps `held` go on waiting. */
  ghost predicate JumpsUnless(code0: seq<Instr>, p0: set<nat>, code: seq<Instr>, k: seq<Value>, e: Expr, b: bool,
                              d: ExpDesc, tq: seq<nat>, fq: seq<nat>, l: int, jq: seq<nat>, held: seq<nat>, free: nat) {
    && JumpList(code, d.t, tq) && JumpList(code, d.f, fq) && JumpList(code, l, jq)
    && Elems(jq) !! Elems(tq) && Elems(jq) !! Elems(fq) && Elems(tq) !! Elems(fq)
    && Elems(held) !! Elems(tq) && Elems(held) !! Elems(fq) && Elems(held) !! Elems(jq)
    && (|code| == |code0| ==> tq == [] && fq == [] && jq == [])
    && GoPlaced(code0, p0, code, Stays(!b, Elems(tq), Elems(fq)) + Elems(jq),
                Elems(held) + Stays(b, Elems(tq), Elems(fq)))
    && GoSem(code0, p0, code, k, e, b, Stays(!b, Elems(tq), Elems(fq)) + Elems(jq),
             Elems(held) + Stays(b, Elems(tq), Elems(fq)), free)
    && (Tested(e, b) ==> Opens(code0, code)) && Fitting(code0, code)
  }

  // ----- Lists -----

  lemma ListJumps(code: seq<Instr>, head: int, q: seq<nat>)
    requires JumpList(code, head, q)
    ensures AllJumps(code, q)
  {
  }

  lemma ListFacts(code: seq<Instr>, head: int, q: seq<nat>)
    requires JumpList(code, head, q)
    ensures head == Head(q) && forall i :: 0 <= i < |q| ==>
      IsJump(code, q[i]) && GetJump(code, q[i]) == Head(q[i + 1..])
  {
  }

  lemma BothStay(code: seq<Instr>, code': seq<Instr>, d: ExpDesc, tq: seq<nat>, fq: seq<nat>)
    requires JumpList(code, d.t, tq) && JumpList(code, d.f, fq) && |code| <= |code'|
    requires forall j :: j in Elems(tq) + Elems(fq) ==> code'[j] == code[j]
    ensures JumpList(code', d.t, tq) && JumpList(code', d.f, fq)
  {
    assert forall j :: j in tq || j in fq ==> j in Elems(tq) + Elems(fq);
    ListStays(code, code', d.t, tq);
    ListStays(code, code', d.f, fq);
  }

  lemma NothingHeld(q: seq<nat>)
    ensures Elems(q) == {} <==> q == []
  {
    assert q != [] ==> q[0] in Elems(q);
  }

  lemma JumpAlone(code: seq<Instr>, j: nat)
    requires IsJump(code, j) && code[j] == JMP(NO_JUMP)
    ensures JumpList(code, j, [j])
  {
  }

  lemma OtherStays(code: seq<Instr>, code': seq<Instr>, head: int, q1: seq<nat>, q: seq<nat>)
    requires Relinked(code, code', Elems(q1)) && JumpList(code, head, q) && Elems(q1) !! Elems(q)
    ensures JumpList(code', head, q)
  {
    ListJumps(code, head, q);
    forall j | j in q
      ensures code'[j] == code[j]
    {
      assert j in Elems(q) && IsJump(code, j);
    }
    ListStays(code, code', head, q);
  }

  lemma NothingPending(code: seq<Instr>)
    ensures JumpList(code, NO_JUMP, []) && Pending(code, [])
  {
  }

  lemma RelinkedRest(code: seq<Instr>, code': seq<Instr>, js: set<nat>)
    requires Relinked(code, code', js)
    ensures Rested(code) ==> Rested(code')
  {
  }

  lemma RestedControl(code: seq<Instr>)
    ensures Rested(code) <==> !Controlled(code, |code|)
  {
  }

  lemma GrownControl(code: seq<Instr>, code': seq<Instr>, pj: set<nat>)
    requires Grown(code, code', pj) && AllPending(code, pj)
    ensures forall i :: 0 <= i <= |code| ==> (Controlled(code, i) <==> Controlled(code', i))
  {
    PendingBelow(code, pj);
    forall i | 0 <= i <= |code|
      ensures Controlled(code, i) <==> Controlled(code', i)
    {
      if i >= 1 { assert code'[i - 1] == Settled(code, pj, i - 1); }
    }
  }

  lemma SemMore(code0: seq<Instr>, p0: set<nat>, code: seq<Instr>, k: seq<Value>, k': seq<Value>, e: Expr, kind: Kind,
                tj: set<nat>,
                fj: set<nat>, pj: set<nat>, free: nat)
    requires Sem(code0, p0, code, k, e, kind, tj, fj, pj, free) && k <= k'
    ensures Sem(code0, p0, code, k', e, kind, tj, fj, pj, free)
  {
    hide Runs;
  }

  // ----- What has been emitted goes on to fit -----

  lemma RelinkedFitting(code0: seq<Instr>, code: seq<Instr>, code': seq<Instr>, js: set<nat>)
    requires Relinked(code, code', js) && Fitting(code0, code)
    ensures Fitting(code0, code')
  {
  }

  lemma GrownFitting(code0: seq<Instr>, code: seq<Instr>, code': seq<Instr>, pj: set<nat>)
    requires Grown(code, code', pj) && Fitting(code0, code)
    requires forall i :: |code| <= i < |code'| ==> FitsFields(code'[i])
    ensures Fitting(code0, code')
  {
    forall i | |code0| <= i < |code'|
      ensures FitsFields(code'[i])
    {
      if i < |code| { assert code'[i] == Settled(code, pj, i); }
    }
  }

  /** From `n` the code is new. */
  lemma ReplacedFitting(code0: seq<Instr>, code: seq<Instr>, code': seq<Instr>, n: nat)
    requires Fitting(code0, code) && n <= |code| && n <= |code'| && forall i :: 0 <= i < n ==> code'[i] == code[i]
    requires forall i :: n <= i < |code'| ==> FitsFields(code'[i])
    ensures Fitting(code0, code')
  {
  }

  lemma DescribedFitting(code0: seq<Instr>, p0: set<nat>, code: seq<Instr>, k: seq<Value>, e: Expr, d: ExpDesc,
                         tq: seq<nat>, fq: seq<nat>, held: seq<nat>, free: nat)
    requires Described(code0, p0, code, k, e, d, tq, fq, held, free)
    ensures Fitting(code0, code) && free < 248 && (d.kind.VNonReloc? ==> d.kind.r < free)
    ensures d.kind.VReloc? ==>
      |code0| <= d.kind.pc && d.kind.pc == |code| - 1 && code[d.kind.pc].NOT? && code[d.kind.pc].b < 250
    ensures d.kind.VJmp? ==>
      (&& |code0| < d.kind.pc && d.kind.pc == |code| - 1 && code[d.kind.pc - 1].CMP?
       && FitsFields(code[d.kind.pc - 1]))
  {
    hide Sem, Entered, JumpList, AllPending, Opens, Shaped, Unconditional;
    if d.kind.VReloc? { assert FitsFields(code[d.kind.pc]); }
    if d.kind.VJmp? { assert FitsFields(code[d.kind.pc - 1]); }
  }

  // ----- goiftrue and goiffalse -----

  /** An instruction that is not final yet is the last one, and then nothing waits for the next. */
  lemma DescribedLast(code0: seq<Instr>, p0: set<nat>, code: seq<Instr>, k: seq<Value>, e: Expr, d: ExpDesc,
                      tq: seq<nat>, fq: seq<nat>, held: seq<nat>, free: nat)
    requires Described(code0, p0, code, k, e, d, tq, fq, held, free)
    ensures d.kind.VReloc? ==> held == [] && d.kind.pc == |code| - 1 && code[d.kind.pc].NOT?
    ensures d.kind.VJmp? ==>
      held == [] && 1 <= d.kind.pc == |code| - 1 && code[d.kind.pc].JMP? && code[d.kind.pc - 1].CMP?
  {
    hide Sem, Entered, JumpList, AllPending;
    if d.kind.VReloc? || d.kind.VJmp? { NothingHeld(held); }
  }

  /** What is emitted behind an expression leaves its lists alone. */
  lemma GrownLists(code0: seq<Instr>, p0: set<nat>, code: seq<Instr>, code': seq<Instr>, k: seq<Value>, e: Expr,
                   d: ExpDesc,
                   tq: seq<nat>, fq: seq<nat>, held: seq<nat>, free: nat)
    requires Described(code0, p0, code, k, e, d, tq, fq, held, free) && Grown(code, code', Elems(held))
      && |code| < |code'|
    ensures JumpList(code', d.t, tq) && JumpList(code', d.f, fq)
    ensures Entered(code0, code', p0, Elems(tq), Elems(fq), {}) && !Controlled(code', |code0|) && |code0| <= |code|
    ensures AllPending(code', Elems(tq)) && AllPending(code', Elems(fq))
    ensures forall j :: j in Elems(tq) + Elems(fq) ==> SameTest(code, code', j) && j < |code|
    ensures forall j :: j in p0 ==> j < |code0|
  {
    hide Sem, JumpList;
    var tj, fj, pj := Elems(tq), Elems(fq), Elems(held);
    EnteredGrow(code0, code, code', p0, tj, fj, pj);
    GrownSame(code, code', pj, tj);
    GrownSame(code, code', pj, fj);
    GrownControl(code, code', pj);
    PendingBelow(code, tj);
    PendingBelow(code, fj);
    hide Entered, Grown;
    BothStay(code, code', d, tq, fq);
  }

  /** A jump behind a test, on no list yet. */
  lemma UnlessTested(code0: seq<Instr>, p0: set<nat>, code: seq<Instr>, code': seq<Instr>, k: seq<Value>, e: Expr,
                     b: bool,
                     d: ExpDesc, tq: seq<nat>, fq: seq<nat>, n: nat, free: nat)
    requires JumpList(code', d.t, tq) && JumpList(code', d.f, fq) && Elems(tq) !! Elems(fq)
    requires Entered(code0, code', p0, Elems(tq), Elems(fq), {}) && |code0| < n < |code'| && !Controlled(code', |code0|)
    requires AllPending(code', Elems(tq)) && AllPending(code', Elems(fq)) && PendingJump(code', n)
      && code'[n] == JMP(NO_JUMP)
    requires (forall j :: j in Elems(tq) + Elems(fq) ==> j < n) && forall j :: j in p0 ==> j < |code0|
    requires (Tested(e, b) ==> Opens(code0, code')) && Fitting(code0, code')
    requires GoSem(code0, p0, code', k, e, b, Stays(!b, Elems(tq), Elems(fq)) + {n}, Stays(b, Elems(tq), Elems(fq)),
                   free)
    ensures JumpsUnless(code0, p0, code', k, e, b, d, tq, fq, n, [n], [], free)
  {
    hide GoSem, JumpList, Entered, AllPending, Stays, Fitting;
    var tj, fj := Elems(tq), Elems(fq);
    assert n !in tj + fj;
    TestedPlaced(code0, p0, code', b, tj, fj, n);
    JumpAlone(code', n);
    assert Elems([n]) == {n} && Elems([]) == {};
    assert Elems([]) + Stays(b, tj, fj) == Stays(b, tj, fj);
  }

  lemma NonRelocGoSem(code0: seq<Instr>, p0: set<nat>, code: seq<Instr>, code': seq<Instr>, k: seq<Value>, e: Expr,
                       b: bool, d: ExpDesc, tq: seq<nat>, fq: seq<nat>, held: seq<nat>, free: nat)
    requires Described(code0, p0, code, k, e, d, tq, fq, held, free) && d.kind.VNonReloc?
    requires Grown(code, code', Elems(held)) && |code'| == |code| + 2
    requires code'[|code|] == TESTSET(NO_REG, d.kind.r, !b) && code'[|code| + 1] == JMP(NO_JUMP)
    ensures GoSem(code0, p0, code', k, e, b, Stays(!b, Elems(tq), Elems(fq)) + {|code| + 1},
                  Stays(b, Elems(tq), Elems(fq)), free)
  {
    hide Fitting, Opens, Unconditional, Tested, FitsFields;
    var n, tj, fj, pj := |code| + 1, Elems(tq), Elems(fq), Elems(held);
    GrownLists(code0, p0, code, code', k, e, d, tq, fq, held, free);
    hide Yields, Goes, Passes, Layout, Entered, JumpList, Grown, Stays;
    forall env: Env, regs: Regs | k <= env.k && |regs| == MAXSTACK
      ensures GoRuns(code0, p0, code', env, e, b, Stays(!b, tj, fj) + {n}, Stays(b, tj, fj), free, regs)
    {
      assert Runs(code0, p0, code, env, e, d.kind, tj, fj, pj, free, regs);
      GoNonReloc(code, code', env, |code0|, e, d.kind.r, tj, fj, pj, free, regs, b);
      TestedRuns(code0, p0, code, code', env, e, b, d.kind, tj, fj, pj, n, free, regs);
    }
  }

  lemma UnlessNonReloc(code0: seq<Instr>, p0: set<nat>, code: seq<Instr>, code': seq<Instr>, k: seq<Value>, e: Expr,
                       b: bool, d: ExpDesc, tq: seq<nat>, fq: seq<nat>, held: seq<nat>, free: nat)
    requires Described(code0, p0, code, k, e, d, tq, fq, held, free) && d.kind.VNonReloc?
    requires Grown(code, code', Elems(held)) && |code'| == |code| + 2
    requires code'[|code|] == TESTSET(NO_REG, d.kind.r, !b) && code'[|code| + 1] == JMP(NO_JUMP)
    ensures JumpsUnless(code0, p0, code', k, e, b, d, tq, fq, |code| + 1, [|code| + 1], [], free)
  {
    NonRelocGoSem(code0, p0, code, code', k, e, b, d, tq, fq, held, free);
    GrownTested(code0, p0, code, code', k, e, b, d, tq, fq, held, free);
    hide Described, Fitting, Opens, Unconditional, Tested, GoSem, Entered, JumpList, Grown;
    UnlessTested(code0, p0, code, code', k, e, b, d, tq, fq, |code| + 1, free);
  }

  /** A test behind an expression, and what it needs. */
  lemma GrownTested(code0: seq<Instr>, p0: set<nat>, code: seq<Instr>, code': seq<Instr>, k: seq<Value>, e: Expr,
                    b: bool, d: ExpDesc, tq: seq<nat>, fq: seq<nat>, held: seq<nat>, free: nat)
    requires Described(code0, p0, code, k, e, d, tq, fq, held, free) && Grown(code, code', Elems(held))
      && |code| < |code'| && !code'[|code|].JMP?
    requires (forall i :: |code| <= i < |code'| ==> FitsFields(code'[i])) || (d.kind.VNonReloc? && |code'| == |code| + 2
      && code'[|code|] == TESTSET(NO_REG, d.kind.r, !b) && code'[|code| + 1].JMP?)
    ensures JumpList(code', d.t, tq) && JumpList(code', d.f, fq) && Elems(tq) !! Elems(fq)
    ensures Entered(code0, code', p0, Elems(tq), Elems(fq), {}) && !Controlled(code', |code0|) && |code0| <= |code|
    ensures AllPending(code', Elems(tq)) && AllPending(code', Elems(fq))
    ensures (forall j :: j in Elems(tq) + Elems(fq) ==> j < |code|) && forall j :: j in p0 ==> j < |code0|
    ensures Fitting(code0, code') && (Tested(e, b) ==> Opens(code0, code'))
  {
    hide Described, Entered, JumpList, AllPending, SameTest, Fitting, Opens, Unconditional, Grown, Elems;
    GrownLists(code0, p0, code, code', k, e, d, tq, fq, held, free);
    DescribedFitting(code0, p0, code, k, e, d, tq, fq, held, free);
    DescribedOpens(code0, p0, code, k, e, d, tq, fq, held, free);
    GrownFitting(code0, code, code', Elems(held));
    GrownOpens(code0, code, code', Elems(held));
  }

  lemma UnlessFitting(code0: seq<Instr>, p0: set<nat>, code: seq<Instr>, code': seq<Instr>, k: seq<Value>, e: Expr,
                      b: bool, d: ExpDesc, tq: seq<nat>, fq: seq<nat>, held: seq<nat>, free: nat, n: nat)
    requires Described(code0, p0, code, k, e, d, tq, fq, held, free) && n <= |code| && n <= |code'|
    requires (forall i :: 0 <= i < n ==> code'[i] == code[i]) && forall i :: n <= i < |code'| ==> FitsFields(code'[i])
    requires |code0| <= n && (n < |code'| ==> !code'[n].JMP? || d.kind == VConst(Bool(!b)))
    ensures Fitting(code0, code') && (Tested(e, b) ==> Opens(code0, code'))
  {
    assert Fitting(code0, code) && (Unconditional(e) ==> Opens(code0, code));
    assert Tested(e, b) ==> d.kind != VConst(Bool(!b)) && Unconditional(e);
    hide Described, Tested, Unconditional;
    ReplacedFitting(code0, code, code', n);
  }

  lemma RelocFitting(code0: seq<Instr>, p0: set<nat>, code: seq<Instr>, code': seq<Instr>, k: seq<Value>, e: Expr,
                     b: bool, d: ExpDesc, tq: seq<nat>, fq: seq<nat>, pc: nat, free: nat)
    requires Described(code0, p0, code, k, e, d, tq, fq, [], free) && d.kind == VReloc(pc) && pc == |code| - 1
      && code[pc].NOT?
    requires |code'| == pc + 2 && code'[..pc] == code[..pc] && code'[pc] == TEST(code[pc].b, b)
      && code'[pc + 1] == JMP(NO_JUMP)
    ensures Fitting(code0, code') && (Tested(e, b) ==> Opens(code0, code'))
  {
    hide Described, Fitting, Opens, Unconditional, Tested;
    DescribedFitting(code0, p0, code, k, e, d, tq, fq, [], free);
    assert forall i :: 0 <= i < pc ==> code'[i] == code'[..pc][i] == code[i];
    UnlessFitting(code0, p0, code, code', k, e, b, d, tq, fq, [], free, pc);
  }

  lemma RelocGoSem(code0: seq<Instr>, p0: set<nat>, code: seq<Instr>, code': seq<Instr>, k: seq<Value>, e: Expr,
                    b: bool, d: ExpDesc, tq: seq<nat>, fq: seq<nat>, pc: nat, free: nat)
    requires Described(code0, p0, code, k, e, d, tq, fq, [], free) && d.kind == VReloc(pc) && pc == |code| - 1
      && code[pc].NOT?
    requires |code'| == pc + 2 && code'[..pc] == code[..pc] && code'[pc] == TEST(code[pc].b, b)
      && code'[pc + 1] == JMP(NO_JUMP)
    ensures GoSem(code0, p0, code', k, e, b, Stays(!b, Elems(tq), Elems(fq)) + {pc + 1},
                  Stays(b, Elems(tq), Elems(fq)), free)
  {
    hide Fitting, Opens, Unconditional, Tested, FitsFields, Entered, JumpList;
    var n, tj, fj := pc + 1, Elems(tq), Elems(fq);
    assert Elems([]) == {};
    assert forall i :: 0 <= i < pc ==> code'[i] == code'[..pc][i] == code[i];
    PrefixSame(code, code', pc, tj);
    PrefixSame(code, code', pc, fj);
    hide Yields, Goes, Passes, Stays;
    forall env: Env, regs: Regs | k <= env.k && |regs| == MAXSTACK
      ensures GoRuns(code0, p0, code', env, e, b, Stays(!b, tj, fj) + {n}, Stays(b, tj, fj), free, regs)
    {
      assert Runs(code0, p0, code, env, e, d.kind, tj, fj, {}, free, regs);
      GoReloc(code, code', env, |code0|, e, pc, tj, fj, free, regs, b);
      TestedRuns(code0, p0, code, code', env, e, b, d.kind, tj, fj, {}, n, free, regs);
    }
  }

  lemma UnlessReloc(code0: seq<Instr>, p0: set<nat>, code: seq<Instr>, code': seq<Instr>, k: seq<Value>, e: Expr,
                    b: bool, d: ExpDesc, tq: seq<nat>, fq: seq<nat>, pc: nat, free: nat)
    requires Described(code0, p0, code, k, e, d, tq, fq, [], free) && d.kind == VReloc(pc) && pc == |code| - 1
      && code[pc].NOT?
    requires |code'| == pc + 2 && code'[..pc] == code[..pc] && code'[pc] == TEST(code[pc].b, b)
      && code'[pc + 1] == JMP(NO_JUMP)
    ensures JumpsUnless(code0, p0, code', k, e, b, d, tq, fq, pc + 1, [pc + 1], [], free)
  {
    hide Fitting, Opens, Unconditional, Tested, FitsFields, Sem, GoSem, JumpList;
    RelocFitting(code0, p0, code, code', k, e, b, d, tq, fq, pc, free);
    RelocGoSem(code0, p0, code, code', k, e, b, d, tq, fq, pc, free);
    var tj, fj := Elems(tq), Elems(fq);
    assert Elems([]) == {};
    assert forall i :: 0 <= i < pc ==> code'[i] == code'[..pc][i] == code[i];
    PrefixSame(code, code', pc, tj);
    PrefixSame(code, code', pc, fj);
    DroppedEntered(code0, p0, code, code', tj, fj, pc);
    hide Entered;
    BothStay(code, code', d, tq, fq);
    UnlessTested(code0, p0, code, code', k, e, b, d, tq, fq, pc + 1, free);
  }

  /** The last instruction changes, or is replaced. */
  lemma DroppedEntered(code0: seq<Instr>, p0: set<nat>, code: seq<Instr>, code': seq<Instr>, tj: set<nat>, fj: set<nat>,
                       n: nat)
    requires Entered(code0, code, p0, tj, fj, {}) && |code0| <= n < |code| && n < |code'| && !code[n].JMP?
      && n !in tj + fj
    requires (forall i :: 0 <= i < n ==> code'[i] == code[i]) && !Controlled(code, |code0|) && AllPending(code, tj)
      && AllPending(code, fj)
    ensures Entered(code0, code', p0, tj, fj, {}) && !Controlled(code', |code0|)
  {
    EnteredChange(code0, code, code', p0, tj, fj, {}, tj, fj, {});
  }

  lemma UnlessJmp(code0: seq<Instr>, p0: set<nat>, code: seq<Instr>, code': seq<Instr>, k: seq<Value>, e: Expr, b: bool,
                  d: ExpDesc, tq: seq<nat>, fq: seq<nat>, pc: nat, free: nat)
    requires Described(code0, p0, code, k, e, d, tq, fq, [], free) && d.kind == VJmp(pc) && 1 <= pc < |code|
      && code[pc - 1].CMP?
    requires code' == code[pc - 1 := code[pc - 1].(cond := if b then !code[pc - 1].cond else code[pc - 1].cond)]
    ensures JumpsUnless(code0, p0, code', k, e, b, d, tq, fq, pc, [pc], [], free)
  {
    hide Sem, GoSem, JumpList;
    var tj, fj := Elems(tq), Elems(fq);
    assert Elems([]) == {};
    DescribedFitting(code0, p0, code, k, e, d, tq, fq, [], free);
    ReplacedFitting(code0, code, code', pc - 1);
    hide Fitting;
    PrefixSame(code, code', pc - 1, tj);
    PrefixSame(code, code', pc - 1, fj);
    DroppedEntered(code0, p0, code, code', tj, fj, pc - 1);
    hide Entered;
    BothStay(code, code', d, tq, fq);
    JmpGoSem(code0, p0, code, code', k, e, b, pc, tj, fj, free);
    UnlessTested(code0, p0, code, code', k, e, b, d, tq, fq, pc, free);
  }

  lemma JmpGoSem(code0: seq<Instr>, p0: set<nat>, code: seq<Instr>, code': seq<Instr>, k: seq<Value>, e: Expr, b: bool,
                 pc: nat, tj: set<nat>, fj: set<nat>, free: nat)
    requires Layout(code, |code0|, VJmp(pc), tj, fj, {}, free) && Shaped(VJmp(pc), e) && pc !in p0
    requires Sem(code0, p0, code, k, e, VJmp(pc), tj, fj, {}, free)
    requires code' == code[pc - 1 := code[pc - 1].(cond := if b then !code[pc - 1].cond else code[pc - 1].cond)]
    ensures GoSem(code0, p0, code', k, e, b, Stays(!b, tj, fj) + {pc}, Stays(b, tj, fj), free)
  {
    PrefixSame(code, code', pc - 1, tj + fj);
    hide Yields, Goes, Passes, Stays, AllPending;
    forall env: Env, regs: Regs | k <= env.k && |regs| == MAXSTACK
      ensures GoRuns(code0, p0, code', env, e, b, Stays(!b, tj, fj) + {pc}, Stays(b, tj, fj), free, regs)
    {
      assert Runs(code0, p0, code, env, e, VJmp(pc), tj, fj, {}, free, regs);
      GoJmp(code, code', env, |code0|, e, pc, tj, fj, free, regs, b);
      TestedRuns(code0, p0, code, code', env, e, b, VJmp(pc), tj, fj, {}, pc, free, regs);
    }
  }

  /** Behind a constant that is `b`. */
  lemma UnlessConst(code0: seq<Instr>, p0: set<nat>, code: seq<Instr>, k: seq<Value>, e: Expr, b: bool, d: ExpDesc,
                    tq: seq<nat>, fq: seq<nat>, held: seq<nat>, free: nat)
    requires Described(code0, p0, code, k, e, d, tq, fq, held, free) && d.kind.VConst? && Truthy(d.kind.v) == b
    ensures JumpsUnless(code0, p0, code, k, e, b, d, tq, fq, NO_JUMP, [], held, free)
  {
    var tj, fj, pj := Elems(tq), Elems(fq), Elems(held);
    assert Elems([]) == {} && Stays(!b, tj, fj) + {} == Stays(!b, tj, fj);
    NothingHeld(tq);
    NothingHeld(fq);
    assert GoSem(code0, p0, code, k, e, b, Stays(!b, tj, fj), pj + Stays(b, tj, fj), free) by {
      hide Yields, Goes, Passes, Entered, JumpList, Layout, Stays;
      forall env: Env, regs: Regs | k <= env.k && |regs| == MAXSTACK
        ensures GoRuns(code0, p0, code, env, e, b, Stays(!b, tj, fj), pj + Stays(b, tj, fj), free, regs)
      {
        assert Runs(code0, p0, code, env, e, d.kind, tj, fj, pj, free, regs);
        ConstRuns(code0, p0, code, env, e, b, d.kind.v, tj, fj, pj, free, regs);
      }
    }
    hide Sem, GoSem, Entered;
    ConstPlaced(code0, p0, code, b, d.kind.v, tj, fj, pj, free);
    NothingPending(code);
  }

  lemma AlwaysFitting(code0: seq<Instr>, p0: set<nat>, code: seq<Instr>, code': seq<Instr>, k: seq<Value>, e: Expr,
                      b: bool, d: ExpDesc, tq: seq<nat>, fq: seq<nat>, held: seq<nat>, free: nat)
    requires Described(code0, p0, code, k, e, d, tq, fq, held, free) && d.kind == VConst(Bool(!b))
    requires |code'| == |code| + 1 && code'[..|code|] == code && code'[|code|].JMP?
    ensures Fitting(code0, code') && (Tested(e, b) ==> Opens(code0, code'))
  {
    hide Described, Fitting, Opens, Unconditional, Tested;
    DescribedOpens(code0, p0, code, k, e, d, tq, fq, held, free);
    assert forall i :: 0 <= i < |code| ==> code'[i] == code'[..|code|][i] == code[i];
    UnlessFitting(code0, p0, code, code', k, e, b, d, tq, fq, held, free, |code|);
  }

  /** Behind a boolean constant that is not `b`: the jump of lcode.c `luaK_jump` and what it has taken over. */
  lemma AlwaysGoSem(code0: seq<Instr>, p0: set<nat>, code: seq<Instr>, code': seq<Instr>, k: seq<Value>, e: Expr,
                     b: bool,
                     d: ExpDesc, tq: seq<nat>, fq: seq<nat>, held: seq<nat>, l: int, free: nat)
    requires Described(code0, p0, code, k, e, d, tq, fq, held, free) && d.kind == VConst(Bool(!b))
    requires |code'| == |code| + 1 && code'[..|code|] == code && code'[|code|].JMP?
      && JumpList(code', l, [|code|] + held)
    ensures GoSem(code0, p0, code', k, e, b, Stays(!b, Elems(tq), Elems(fq)) + {|code|} + Elems(held),
                  Stays(b, Elems(tq), Elems(fq)), free)
  {
    hide Fitting, Opens, Unconditional, Tested, FitsFields, JumpList;
    var tj, fj, pj := Elems(tq), Elems(fq), Elems(held);
    RestedControl(code);
    assert |code0| <= |code| && |code| !in p0;
    hide Yields, Goes, Passes, Entered, Layout, Stays;
    forall env: Env, regs: Regs | k <= env.k && |regs| == MAXSTACK
      ensures GoRuns(code0, p0, code', env, e, b, Stays(!b, tj, fj) + {|code|} + pj, Stays(b, tj, fj), free, regs)
    {
      assert Runs(code0, p0, code, env, e, d.kind, tj, fj, pj, free, regs);
      AlwaysRuns(code0, p0, code, code', env, e, b, tj, fj, pj, free, regs);
    }
  }

  lemma UnlessAlways(code0: seq<Instr>, p0: set<nat>, code: seq<Instr>, code': seq<Instr>, k: seq<Value>, e: Expr,
                     b: bool,
                     d: ExpDesc, tq: seq<nat>, fq: seq<nat>, held: seq<nat>, l: int, free: nat)
    requires Described(code0, p0, code, k, e, d, tq, fq, held, free) && d.kind == VConst(Bool(!b))
    requires |code'| == |code| + 1 && code'[..|code|] == code && code'[|code|].JMP?
      && JumpList(code', l, [|code|] + held)
    ensures JumpsUnless(code0, p0, code', k, e, b, d, tq, fq, l, [|code|] + held, [], free)
  {
    var n, tj, fj, pj := |code|, Elems(tq), Elems(fq), Elems(held);
    var qj, oj := Stays(!b, tj, fj) + {n} + pj, Stays(b, tj, fj);
    hide Fitting, Opens, Unconditional, Tested, FitsFields, Sem, GoSem;
    AlwaysFitting(code0, p0, code, code', k, e, b, d, tq, fq, held, free);
    AlwaysGoSem(code0, p0, code, code', k, e, b, d, tq, fq, held, l, free);
    assert Elems([n] + held) == {n} + pj && Elems([]) == {};
    assert Stays(!b, tj, fj) + ({n} + pj) == qj && {} + oj == oj;
    assert forall i :: 0 <= i < n ==> code'[i] == code'[..n][i] == code[i];
    RestedControl(code);
    BothStay(code, code', d, tq, fq);
    assert AllPending(code, tj) && AllPending(code, fj) && AllPending(code, pj);
    PendingBelow(code, tj);
    PendingBelow(code, fj);
    PendingBelow(code, pj);
    AlwaysPlaced(code0, p0, code, code', b, tj, fj, pj, free);
  }

  /** The instruction loads the constant, whatever is added to the constants `k`. */
  ghost predicate LoadsConst(k: seq<Value>, i: Instr, reg: nat, v: Value) {
    !IsTest(i) && !i.JMP? && FitsFields(i) && forall env: Env :: k <= env.k ==> Loads(i, env, reg, v)
  }

  /** Behind any other constant. */
  lemma LoadGoSem(code0: seq<Instr>, p0: set<nat>, code: seq<Instr>, code': seq<Instr>, k: seq<Value>, e: Expr,
                   b: bool,
                   d: ExpDesc, tq: seq<nat>, fq: seq<nat>, held: seq<nat>, reg: nat, free: nat)
    requires Described(code0, p0, code, k, e, d, tq, fq, held, free) && d.kind.VConst? && Truthy(d.kind.v) != b
      && !d.kind.v.Bool?
    requires Grown(code, code', Elems(held)) && |code'| == |code| + 3 && LoadsConst(k, code'[|code|], reg, d.kind.v)
    requires code'[|code| + 1] == TESTSET(NO_REG, reg, !b) && code'[|code| + 2] == JMP(NO_JUMP)
      && free <= reg < MAXSTACK
    ensures GoSem(code0, p0, code', k, e, b, Stays(!b, Elems(tq), Elems(fq)) + {|code| + 2},
                  Stays(b, Elems(tq), Elems(fq)), free)
  {
    hide Fitting, Opens, Unconditional, Tested, FitsFields;
    var n, tj, fj, pj := |code| + 2, Elems(tq), Elems(fq), Elems(held);
    GrownLists(code0, p0, code, code', k, e, d, tq, fq, held, free);
    hide Yields, Goes, Passes, Layout, Entered, JumpList, Grown, Stays, Loads;
    forall env: Env, regs: Regs | k <= env.k && |regs| == MAXSTACK
      ensures GoRuns(code0, p0, code', env, e, b, Stays(!b, tj, fj) + {n}, Stays(b, tj, fj), free, regs)
    {
      assert Runs(code0, p0, code, env, e, d.kind, tj, fj, pj, free, regs);
      GoLoad(code, code', env, |code0|, e, d.kind.v, reg, tj, fj, pj, free, regs, b);
      TestedRuns(code0, p0, code, code', env, e, b, d.kind, tj, fj, pj, n, free, regs);
    }
  }

  lemma LoadFits(k: seq<Value>, code: seq<Instr>, n: nat, reg: nat, v: Value, b: bool)
    requires |code| == n + 3 && LoadsConst(k, code[n], reg, v) && reg < MAXSTACK
    requires code[n + 1] == TESTSET(NO_REG, reg, b) && code[n + 2] == JMP(NO_JUMP)
    ensures !code[n].JMP? && forall i :: n <= i < |code| ==> FitsFields(code[i])
  {
  }

  lemma UnlessLoad(code0: seq<Instr>, p0: set<nat>, code: seq<Instr>, code': seq<Instr>, k: seq<Value>, e: Expr,
                   b: bool,
                   d: ExpDesc, tq: seq<nat>, fq: seq<nat>, held: seq<nat>, reg: nat, free: nat)
    requires Described(code0, p0, code, k, e, d, tq, fq, held, free) && d.kind.VConst? && Truthy(d.kind.v) != b
      && !d.kind.v.Bool?
    requires Grown(code, code', Elems(held)) && |code'| == |code| + 3 && LoadsConst(k, code'[|code|], reg, d.kind.v)
    requires code'[|code| + 1] == TESTSET(NO_REG, reg, !b) && code'[|code| + 2] == JMP(NO_JUMP)
      && free <= reg < MAXSTACK
    ensures JumpsUnless(code0, p0, code', k, e, b, d, tq, fq, |code| + 2, [|code| + 2], [], free)
  {
    hide Described, Fitting, Opens, Unconditional, Tested, GoSem, Entered, JumpList, Grown, LoadsConst, Loads, Elems,
        AllPending, Stays, FitsFields, Truthy;
    LoadGoSem(code0, p0, code, code', k, e, b, d, tq, fq, held, reg, free);
    LoadFits(k, code', |code|, reg, d.kind.v, !b);
    GrownTested(code0, p0, code, code', k, e, b, d, tq, fq, held, free);
    UnlessTested(code0, p0, code, code', k, e, b, d, tq, fq, |code| + 2, free);
  }

  // ----- The lists of a condition are linked -----

  lemma GoRelinked(code0: seq<Instr>, p0: set<nat>, code: seq<Instr>, code': seq<Instr>, k: seq<Value>, e: Expr,
                   b: bool,
                   qj: set<nat>, pj: set<nat>, js: set<nat>, free: nat)
    requires GoPlaced(code0, p0, code, qj, pj) && GoSem(code0, p0, code, k, e, b, qj, pj, free)
    requires Relinked(code, code', js) && js <= qj + pj && (|code| == |code0| ==> code' == code)
    ensures GoPlaced(code0, p0, code', qj, pj) && GoSem(code0, p0, code', k, e, b, qj, pj, free)
  {
    RelinkedMore(code, code', js, qj + pj);
    RelinkSame(code, code', js, qj);
    RelinkSame(code, code', js, pj);
    if |code0| < |code| { EnteredRelinked(code0, code, code', p0, qj, {}, pj, js); }
    hide Entered;
    GoSemRelinked(code0, p0, code, code', k, e, b, qj, pj, free);
  }

  lemma GoSemRelinked(code0: seq<Instr>, p0: set<nat>, code: seq<Instr>, code': seq<Instr>, k: seq<Value>, e: Expr,
                      b: bool,
                      qj: set<nat>, pj: set<nat>, free: nat)
    requires AllPending(code, qj) && AllPending(code, pj) && GoSem(code0, p0, code, k, e, b, qj, pj, free)
      && Relinked(code, code', qj + pj)
    ensures GoSem(code0, p0, code', k, e, b, qj, pj, free)
  {
    hide AllPending, Relinked, Goes, GoPasses;
    forall env: Env, regs: Regs | k <= env.k && |regs| == MAXSTACK
      ensures GoRuns(code0, p0, code', env, e, b, qj, pj, free, regs)
    {
      assert GoRuns(code0, p0, code, env, e, b, qj, pj, free, regs);
      RelinkGoes(code, code', env, |code0|, e, b, qj, pj, free, regs);
      forall j, tok | j in p0
        ensures GoPasses(code0, code', env, e, b, qj, pj, regs, j, tok)
      {
        RelinkGoPasses(code0, code, code', env, e, b, qj, pj, regs, j, tok);
      }
    }
  }

  /** The jumps that leave are on one list. */
  lemma GoIfLinked(code0: seq<Instr>, p0: set<nat>, code: seq<Instr>, code': seq<Instr>, k: seq<Value>, e: Expr,
                   b: bool, d: ExpDesc, tq: seq<nat>, fq: seq<nat>, l: int, jq: seq<nat>, held: seq<nat>, free: nat)
    requires JumpsUnless(code0, p0, code, k, e, b, d, tq, fq, l, jq, held, free)
    requires Relinked(code, code', Elems(if b then fq else tq)) && (jq == [] ==> code' == code)
    ensures var q1, other := if b then fq else tq, if b then tq else fq;
      && GoPlaced(code0, p0, code', Elems(q1 + jq), Elems(held + other))
        && GoSem(code0, p0, code', k, e, b, Elems(q1 + jq), Elems(held + other), free)
      && JumpList(code', if b then d.t else d.f, other) && Elems(other) !! Elems(held)
      && (|code| == |code0| ==> other == []) && (Tested(e, b) ==> Opens(code0, code')) && Fitting(code0, code')
  {
    RelinkedFitting(code0, code, code', Elems(if b then fq else tq));
    var q1, other := if b then fq else tq, if b then tq else fq;
    assert Elems(q1 + jq) == Elems(q1) + Elems(jq) && Elems(held + other) == Elems(held) + Elems(other);
    hide GoSem, JumpList, AllPending;
    OtherStays(code, code', if b then d.t else d.f, q1, other);
    hide Entered;
    GoRelinked(code0, p0, code, code', k, e, b, Elems(q1) + Elems(jq), Elems(held) + Elems(other), Elems(q1), free);
  }

  // ----- not -----

  /** What lcode.c `codenot` does before it swaps the lists. */
  ghost predicate NotMid(code: seq<Instr>, mid: seq<Instr>, kind: Kind, kind': Kind, pj: set<nat>, free: nat) {
    match kind
    case VLocal(_) => false
    case VConst(v) => mid == code && kind' == VConst(Bool(!Truthy(v)))
    case VNonReloc(x) => Grown(code, mid, pj) && |mid| == |code| + 1 && mid[|code|] == NOT(0,
        x) && kind' == VReloc(|code|)
    case VReloc(pc) =>
      && pc < |code| && code[pc].NOT? && mid == code[pc := NOT(free, code[pc].b)] + [NOT(0, free)]
        && kind' == VReloc(pc + 1)
    case VJmp(pc) =>
      && 1 <= pc <= |code| && code[pc - 1].CMP? && kind' == kind
      && mid == code[pc - 1 := code[pc - 1].(cond := !code[pc - 1].cond)]
  }

  /** The jumps that still wait when an expression of this kind has been negated. */
  function StillHeld(kind: Kind, held: seq<nat>): seq<nat> {
    if kind.VConst? then held else []
  }

  lemma NotMidPlaced(code0: seq<Instr>, p0: set<nat>, code: seq<Instr>, mid: seq<Instr>, kind: Kind, kind': Kind,
                     tj: set<nat>, fj: set<nat>, pj: set<nat>, free: nat)
    requires Placed(code0, p0, code, kind, tj, fj, pj, free) && NotMid(code, mid, kind, kind', pj, free)
    ensures Placed(code0, p0, mid, kind', tj, fj, if kind.VConst? then pj else {}, free)
    ensures forall j :: j in tj + fj ==> mid[j] == code[j]
    ensures !kind.VConst? ==> |code0| < |mid|
  {
    match kind
    case VConst(_) =>
    case VNonReloc(_) =>
      EnteredGrow(code0, code, mid, p0, tj, fj, pj);
      GrownSame(code, mid, pj, tj + fj);
      GrownControl(code, mid, pj);
      PendingBelow(code, tj + fj);
      hide Entered, Grown;
      assert AllPending(mid, tj) && AllPending(mid, fj);
    case VReloc(pc) =>
      PrefixSame(code, mid, pc, tj + fj);
      DroppedEntered(code0, p0, code, mid, tj, fj, pc);
      hide Entered;
      assert AllPending(mid, tj) && AllPending(mid, fj);
    case VJmp(pc) =>
      PrefixSame(code, mid, pc - 1, tj + fj);
      DroppedEntered(code0, p0, code, mid, tj, fj, pc - 1);
      hide Entered;
      assert AllPending(mid, tj) && AllPending(mid, fj);
  }

  lemma RemovedPlaced(code0: seq<Instr>, p0: set<nat>, code: seq<Instr>, code': seq<Instr>, kind: Kind, tj: set<nat>,
                      fj: set<nat>, pj: set<nat>, free: nat)
    requires Placed(code0, p0, code, kind, tj, fj, pj, free) && ValuesRemoved(code, code', tj + fj)
    ensures Placed(code0, p0, code', kind, fj, tj, pj, free)
  {
    RemovedSame(code, code', tj + fj, pj);
    if |code0| < |code| {
      EnteredRemoved(code0, code, code', p0, tj, fj, pj);
    } else {
      assert code' == code;
    }
    assert fj + tj == tj + fj;
    hide Entered;
    assert AllPending(code', tj) && AllPending(code', fj) && AllPending(code', pj);
  }

  lemma NotMidYields(code: seq<Instr>, mid: seq<Instr>, code': seq<Instr>, env: Env, lo: nat, e: Expr, kind: Kind,
                     kind': Kind, tj: set<nat>, fj: set<nat>, pj: set<nat>, free: nat, regs: Regs)
    requires Layout(code, lo, kind, tj, fj, pj, free) && Yields(code, env, lo, e, kind, tj, fj, pj, free, regs)
      && |regs| == MAXSTACK && !kind.VConst? && Shaped(kind, e)
    requires NotMid(code, mid, kind, kind', pj, free) && ValuesRemoved(mid, code', tj + fj)
    ensures Yields(code', env, lo, Not(e), kind', fj, tj, {}, free, regs)
  {
    assert kind.VReloc? || kind.VJmp? ==> pj == {};
    hide Layout, Yields, ValuesRemoved, Grown, ShapeOf;
    match kind
    case VNonReloc(x) => NotNonReloc(code, mid, code', env, lo, e, x, tj, fj, pj, free, regs);
    case VReloc(pc) => NotReloc(code, mid, code', env, lo, e, pc, tj, fj, free, regs);
    case VJmp(pc) => NotJmp(code, mid, code', env, lo, e, pc, tj, fj, free, regs);
  }

  lemma NotSem(code0: seq<Instr>, p0: set<nat>, code: seq<Instr>, mid: seq<Instr>, code': seq<Instr>, k: seq<Value>,
               e: Expr, kind: Kind,
               kind': Kind, tj: set<nat>, fj: set<nat>, pj: set<nat>, free: nat)
    requires Layout(code, |code0|, kind, tj, fj, pj, free) && Sem(code0, p0, code, k, e, kind, tj, fj, pj, free)
      && Shaped(kind, e)
    requires NotMid(code, mid, kind, kind', pj, free) && ValuesRemoved(mid, code', tj + fj) && AllPending(mid, tj + fj)
    ensures Sem(code0, p0, code', k, Not(e), kind', fj, tj, if kind.VConst? then pj else {}, free)
  {
    RemovedSame(mid, code', tj + fj, {});
    assert tj !! fj && tj !! pj && fj !! pj;
    hide Layout, Yields, Passes, NotMid, ValuesRemoved, AllPending;
    forall env: Env, regs: Regs | k <= env.k && |regs| == MAXSTACK
      ensures Runs(code0, p0, code', env, Not(e), kind', fj, tj, if kind.VConst? then pj else {}, free, regs)
    {
      assert Runs(code0, p0, code, env, e, kind, tj, fj, pj, free, regs);
      if kind.VConst? {
        NotMidConst(code, mid, kind, kind', pj, free);
        NotConstRuns(code0, p0, code, code', env, e, kind.v, tj, fj, pj, free, regs);
      } else {
        NotMidYields(code, mid, code', env, |code0|, e, kind, kind', tj, fj, pj, free, regs);
        NegatedRuns(code0, p0, code, code', env, e, kind, kind', tj, fj, pj, free, regs);
      }
    }
  }

  lemma NotMidConst(code: seq<Instr>, mid: seq<Instr>, kind: Kind, kind': Kind, pj: set<nat>, free: nat)
    requires NotMid(code, mid, kind, kind', pj, free) && kind.VConst?
    ensures mid == code && kind' == VConst(Bool(!Truthy(kind.v)))
  {
  }

  lemma NotShaped(code: seq<Instr>, mid: seq<Instr>, e: Expr, kind: Kind, kind': Kind, pj: set<nat>, free: nat)
    requires Shaped(kind, e) && NotMid(code, mid, kind, kind', pj, free)
    ensures Shaped(kind', Not(e))
  {
  }

  lemma WithoutNone(code: seq<Instr>, q: seq<nat>)
    ensures WithoutValues(code, q[..0]) == code
  {
  }

  lemma WithoutOne(code: seq<Instr>, q: seq<nat>, i: nat)
    requires i < |q| && IsJump(code, q[i])
    ensures var c, j := WithoutValues(code, q[..i]), q[i];
      && |c| == |code| && c[j] == code[j]
      && WithoutValues(code, q[..i + 1]) == if HasValue(c, j) then c[j - 1 := PatchReg(c[j - 1], NO_REG)] else c
  {
    assert q[..i + 1] == q[..i] + [q[i]];
  }

  lemma ValuesStay(code: seq<Instr>, r: seq<nat>, q: seq<nat>, head: int)
    requires JumpList(code, head, q)
    ensures JumpList(WithoutValues(code, r), head, q)
  {
    ListJumps(code, head, q);
    ListStays(code, WithoutValues(code, r), head, q);
  }

  lemma WithoutBoth(code: seq<Instr>, tq: seq<nat>, fq: seq<nat>)
    ensures ValuesRemoved(code, WithoutValues(WithoutValues(code, tq), fq), Elems(tq) + Elems(fq))
  {
    assert forall i :: i in tq || i in fq <==> i in Elems(tq) + Elems(fq);
  }

  lemma NotMidLists(code0: seq<Instr>, p0: set<nat>, code: seq<Instr>, mid: seq<Instr>, k: seq<Value>, e: Expr,
                    d: ExpDesc, tq: seq<nat>, fq: seq<nat>, held: seq<nat>, free: nat, kind': Kind)
    requires Described(code0, p0, code, k, e, d, tq, fq, held, free)
      && NotMid(code, mid, d.kind, kind', Elems(held), free)
    ensures JumpList(mid, d.t, tq) && JumpList(mid, d.f, fq)
  {
    hide Sem, JumpList, Entered, AllPending;
    NotMidPlaced(code0, p0, code, mid, d.kind, kind', Elems(tq), Elems(fq), Elems(held), free);
    NotMidLength(code, mid, d.kind, kind', Elems(held), free);
    hide NotMid, Layout;
    BothStay(code, mid, d, tq, fq);
  }

  lemma NotMidLength(code: seq<Instr>, mid: seq<Instr>, kind: Kind, kind': Kind, pj: set<nat>, free: nat)
    requires NotMid(code, mid, kind, kind', pj, free)
    ensures |code| <= |mid|
  {
  }

  lemma NotRested(code: seq<Instr>, mid: seq<Instr>, code': seq<Instr>, kind: Kind, kind': Kind, tj: set<nat>,
                  fj: set<nat>,
                  pj: set<nat>, free: nat, lo: nat)
    requires Layout(code, lo, kind, tj, fj, pj, free) && NotMid(code, mid, kind, kind', pj, free)
      && ValuesRemoved(mid, code', tj + fj) && Rested(code)
    ensures Rested(code')
  {
    hide AllPending, Grown;
  }

  lemma MidFitting(code0: seq<Instr>, code: seq<Instr>, mid: seq<Instr>, kind: Kind, kind': Kind, pj: set<nat>,
                   free: nat)
    requires NotMid(code, mid, kind, kind', pj, free) && Fitting(code0, code) && free < 248 && |code0| <= |code|
    requires (kind.VNonReloc? ==> kind.r < 248) && forall j :: j in pj ==> j < |code| && code[j].JMP?
    requires kind.VReloc? ==> |code0| <= kind.pc == |code| - 1
    requires kind.VJmp? ==> |code0| < kind.pc == |code| - 1
    ensures Fitting(code0, mid) && (Opens(code0, code) ==> Opens(code0, mid))
  {
    match kind
    case VConst(_) =>
    case VNonReloc(_) =>
      hide Fitting, Opens;
      GrownFitting(code0, code, mid, pj);
      GrownOpens(code0, code, mid, pj);
    case VReloc(pc) =>
      assert FitsFields(code[pc]);
    case VJmp(pc) =>
      assert FitsFields(code[pc - 1]);
  }

  lemma NotFitting(code0: seq<Instr>, p0: set<nat>, code: seq<Instr>, mid: seq<Instr>, code': seq<Instr>,
                   k: seq<Value>, e: Expr, d: ExpDesc, tq: seq<nat>, fq: seq<nat>, held: seq<nat>, free: nat,
                   kind': Kind)
    requires Described(code0, p0, code, k, e, d, tq, fq, held, free)
      && NotMid(code, mid, d.kind, kind', Elems(held), free)
    requires code' == WithoutValues(WithoutValues(mid, tq), fq)
    ensures Fitting(code0, code') && (Unconditional(Not(e)) ==> Opens(code0, code'))
  {
    DescribedFitting(code0, p0, code, k, e, d, tq, fq, held, free);
    DescribedOpens(code0, p0, code, k, e, d, tq, fq, held, free);
    hide Described, NotMid, Fitting, Opens, WithoutValues, FitsFields;
    MidFitting(code0, code, mid, d.kind, kind', Elems(held), free);
    WithoutFitting(code0, mid, tq);
    WithoutFitting(code0, WithoutValues(mid, tq), fq);
  }

  lemma WithoutFitting(code0: seq<Instr>, code: seq<Instr>, q: seq<nat>)
    requires Fitting(code0, code)
    ensures Fitting(code0, WithoutValues(code, q)) && (Opens(code0, code) ==> Opens(code0, WithoutValues(code, q)))
  {
  }

  lemma DescribedOpens(code0: seq<Instr>, p0: set<nat>, code: seq<Instr>, k: seq<Value>, e: Expr, d: ExpDesc,
                       tq: seq<nat>, fq: seq<nat>, held: seq<nat>, free: nat)
    requires Described(code0, p0, code, k, e, d, tq, fq, held, free)
    ensures (Unconditional(e) ==> Opens(code0, code)) && |code0| <= |code|
    ensures Elems(tq) !! Elems(fq) && forall j :: j in Elems(held) ==> j < |code| && code[j].JMP?
  {
    hide Sem, Entered, JumpList, Opens;
    ListsApart(code, |code0|, d.kind, Elems(tq), Elems(fq), Elems(held), free);
    LayoutHeld(code, |code0|, d.kind, Elems(tq), Elems(fq), Elems(held), free);
  }

  lemma NotDescribed(code0: seq<Instr>, p0: set<nat>, code: seq<Instr>, mid: seq<Instr>, code': seq<Instr>,
                     k: seq<Value>, e: Expr, d: ExpDesc, tq: seq<nat>, fq: seq<nat>, held: seq<nat>, free: nat,
                     kind': Kind)
    requires Described(code0, p0, code, k, e, d, tq, fq, held, free)
      && NotMid(code, mid, d.kind, kind', Elems(held), free)
    requires code' == WithoutValues(WithoutValues(mid, tq), fq)
    ensures Described(code0, p0, code', k, Not(e), ExpDesc(kind', d.f, d.t), fq, tq, StillHeld(d.kind, held), free)
  {
    var tj, fj, pj := Elems(tq), Elems(fq), Elems(held);
    NotFitting(code0, p0, code, mid, code', k, e, d, tq, fq, held, free, kind');
    hide Fitting, Opens, Unconditional;
    WithoutBoth(mid, tq, fq);
    assert Elems([]) == {};
    hide Sem, JumpList, NotMid, Entered, ValuesRemoved, WithoutValues, Rested, Shaped, AllPending;
    NotMidLists(code0, p0, code, mid, k, e, d, tq, fq, held, free, kind');
    NotMidPlaced(code0, p0, code, mid, d.kind, kind', tj, fj, pj, free);
    RemovedPlaced(code0, p0, mid, code', kind', tj, fj, if d.kind.VConst? then pj else {}, free);
    BothPending(mid, tj, fj);
    NotSem(code0, p0, code, mid, code', k, e, d.kind, kind', tj, fj, pj, free);
    NotRested(code, mid, code', d.kind, kind', tj, fj, pj, free, |code0|);
    NotShaped(code, mid, e, d.kind, kind', pj, free);
    hide Layout;
    ValuesStay(mid, tq, tq, d.t);
    ValuesStay(WithoutValues(mid, tq), fq, tq, d.t);
    ValuesStay(mid, tq, fq, d.f);
    ValuesStay(WithoutValues(mid, tq), fq, fq, d.f);
  }

  lemma BothPending(code: seq<Instr>, tj: set<nat>, fj: set<nat>)
    requires AllPending(code, tj) && AllPending(code, fj)
    ensures AllPending(code, tj + fj)
  {
  }

  /** The jumps that wait survive the removal of values. */
  lemma HeldRemoved(code0: seq<Instr>, p0: set<nat>, code: seq<Instr>, code': seq<Instr>, k: seq<Value>, e: Expr,
                    d: ExpDesc,
                    tq: seq<nat>, fq: seq<nat>, held: seq<nat>, free: nat, jpc: int)
    requires Described(code0, p0, code, k, e, d, tq, fq, held, free) && JumpList(code, jpc, held)
    requires code' == WithoutValues(WithoutValues(code, tq), fq)
    ensures JumpList(code', jpc, held) && Pending(code', held)
  {
    WithoutBoth(code, tq, fq);
    RemovedSame(code, code', Elems(tq) + Elems(fq), Elems(held));
    hide Described;
    ValuesStay(code, tq, held, jpc);
    ValuesStay(WithoutValues(code, tq), fq, held, jpc);
    PendingHeld(code', held);
  }

  lemma PendingHeld(code: seq<Instr>, q: seq<nat>)
    ensures Pending(code, q) <==> AllPending(code, Elems(q))
  {
    if AllPending(code, Elems(q)) {
      forall j | j in q
        ensures IsJump(code, j) && (HasValue(code, j) ==> code[j - 1].a == NO_REG)
      {
        assert j in Elems(q);
        assert PendingJump(code, j);
      }
    }
  }

  // ----- Where nothing is emitted -----

  /** A local variable or a literal. */
  lemma StartDescribed(code: seq<Instr>, k: seq<Value>, e: Expr, kind: Kind, jpc: int, held: seq<nat>, free: nat)
    requires JumpList(code, jpc, held) && Pending(code, held) && Rested(code) && free + 2 < MAXSTACK
    requires match e case Local(r) => kind == VLocal(r) && r < free case Literal(v) => kind == VConst(v) case _ => false
    ensures Described(code, Elems(held), code, k, e, ExpDesc(kind, NO_JUMP, NO_JUMP), [], [], held, free)
  {
    assert Elems([]) == {};
    var pj := Elems(held);
    PendingHeld(code, held);
    PendingBelow(code, pj);
    RestedControl(code);
    NothingPending(code);
    hide JumpList;
    forall env: Env, regs: Regs | k <= env.k && |regs| == MAXSTACK
      ensures Runs(code, pj, code, env, e, kind, {}, {}, pj, free, regs)
    {
      StartRuns(code, env, e, kind, pj, free, regs);
    }
    hide Sem;
  }

  lemma StartRuns(code: seq<Instr>, env: Env, e: Expr, kind: Kind, pj: set<nat>, free: nat, regs: Regs)
    requires match e case Local(r) => kind == VLocal(r) case Literal(v) => kind == VConst(v) case _ => false
    requires forall j :: j in pj ==> j < |code|
    ensures Runs(code, pj, code, env, e, kind, {}, {}, pj, free, regs)
  {
    var none: set<nat> := {};
    assert none + none + pj == pj;
    assert Exec(code, env, |code|, |code|, regs, pj) == Fall(|code|, regs);
  }

  lemma Discharged(code0: seq<Instr>, p0: set<nat>, code: seq<Instr>, k: seq<Value>, e: Expr, d: ExpDesc, tq: seq<nat>,
                   fq: seq<nat>, held: seq<nat>, free: nat)
    requires Described(code0, p0, code, k, e, d, tq, fq, held, free) && d.kind.VLocal?
    ensures Described(code0, p0, code, k, e, d.(kind := VNonReloc(d.kind.r)), tq, fq, held, free)
  {
    hide Entered, JumpList, AllPending;
    var kind, kind', tj, fj, pj := d.kind, VNonReloc(d.kind.r), Elems(tq), Elems(fq), Elems(held);
    forall env: Env, regs: Regs | k <= env.k && |regs| == MAXSTACK
      ensures Runs(code0, p0, code, env, e, kind', tj, fj, pj, free, regs)
    {
      hide Exec, Eval, Through;
      assert Runs(code0, p0, code, env, e, kind, tj, fj, pj, free, regs);
      forall j, tok | j in p0
        ensures Passes(code0, code, env, e, kind', tj, fj, pj, regs, j, tok)
      {
        assert Passes(code0, code, env, e, kind, tj, fj, pj, regs, j, tok);
      }
    }
    hide Sem;
  }

  // ----- Joining the operands of `and` and `or` -----

  lemma JoinedSem(code0: seq<Instr>, p0: set<nat>, code1: seq<Instr>, code2: seq<Instr>, k1: seq<Value>, k2: seq<Value>,
                  x: Expr, y: Expr,
                  b: bool, qj: set<nat>, pj1: set<nat>, kind: Kind, tj: set<nat>, fj: set<nat>, pj2: set<nat>,
                  free: nat)
    requires GoPlaced(code0, p0, code1, qj, pj1) && Placed(code1, pj1, code2, kind, tj, fj, pj2, free) && Scope(y, free)
      && k1 <= k2
    requires GoSem(code0, p0, code1, k1, x, b, qj, pj1, free) && Sem(code1, pj1, code2, k2, y, kind, tj, fj, pj2, free)
    ensures Sem(code0, p0, code2, k2, Joined(b, x, y), kind, TrueList(b, tj, qj), FalseList(b, fj, qj), pj2, free)
  {
    hide GoPlaced, Placed, Scope, Runs, GoRuns, Joined, TrueList, FalseList;
    forall env: Env, regs: Regs | k2 <= env.k && |regs| == MAXSTACK
      ensures Runs(code0, p0, code2, env, Joined(b, x, y), kind, TrueList(b, tj, qj), FalseList(b, fj, qj), pj2, free,
                   regs)
    {
      assert GoRuns(code0, p0, code1, env, x, b, qj, pj1, free, regs);
      JoinedRuns(code0, p0, code1, code2, env, x, y, b, qj, pj1, kind, tj, fj, pj2, free, regs);
    }
  }

  lemma JoinLists(code0: seq<Instr>, p0: set<nat>, code1: seq<Instr>, code2: seq<Instr>, k1: seq<Value>, k2: seq<Value>,
                  x: Expr, y: Expr, b: bool, l: int, d: ExpDesc,
                  q: seq<nat>, pq: seq<nat>, tq: seq<nat>, fq: seq<nat>, held: seq<nat>, free: nat)
    requires GoesOn(code0, p0, code1, k1, x, b, l, q, pq, free)
      && Described(code1, Elems(pq), code2, k2, y, d, tq, fq, held, free)
    ensures JumpList(code2, l, q) && JumpList(code2, d.t, tq) && JumpList(code2, d.f, fq) && Rested(code2)
    ensures forall j :: j in q ==> j !in tq && j !in fq
  {
    hide GoSem, Sem, JumpList;
    JoinedTests(code1, code2, Elems(q), Elems(pq), Elems(tq), Elems(fq), Elems(held));
    assert forall j :: j in q ==> j in Elems(q) && SameTest(code1, code2, j) && code2[j] == code1[j];
    forall j | j in q
      ensures j !in tq && j !in fq
    {
      assert (j in tq ==> j in Elems(tq)) && (j in fq ==> j in Elems(fq));
    }
    JoinedLength(code1, code2, Elems(pq), Elems(tq), Elems(fq), Elems(held));
    hide Entered, AllPending;
    ListStays(code1, code2, l, q);
  }

  lemma JoinedLength(code1: seq<Instr>, code2: seq<Instr>, pj1: set<nat>, tj: set<nat>, fj: set<nat>, pj2: set<nat>)
    requires Entered(code1, code2, pj1, tj, fj, pj2)
    ensures |code1| <= |code2|
  {
  }

  lemma JoinedOpens(code0: seq<Instr>, p0: set<nat>, code1: seq<Instr>, code2: seq<Instr>, k1: seq<Value>,
                    k2: seq<Value>, x: Expr, y: Expr, b: bool, l: int, d: ExpDesc,
                    q: seq<nat>, pq: seq<nat>, tq: seq<nat>, fq: seq<nat>, held: seq<nat>, free: nat)
    requires GoesOn(code0, p0, code1, k1, x, b, l, q, pq, free)
      && Described(code1, Elems(pq), code2, k2, y, d, tq, fq, held, free)
    ensures (Unconditional(Joined(b, x, y)) ==> Opens(code0, code2)) && Fitting(code0, code2)
  {
    hide GoSem, Sem, JumpList, Layout, Lead, Together, Shaped;
    var m := |code0|;
    assert m in Elems(pq) ==> PendingJump(code1, m);
    forall i | m <= i < |code2|
      ensures FitsFields(code2[i])
    {
      if i < |code1| {
        assert FitsFields(code1[i]);
        assert i in Elems(pq) ==> PendingJump(code1, i);
      }
    }
  }

  /** The two operands, before their lists are linked. */
  lemma JoinBefore(code0: seq<Instr>, p0: set<nat>, code1: seq<Instr>, code2: seq<Instr>, k1: seq<Value>,
                   k2: seq<Value>, x: Expr, y: Expr, b: bool, l: int, d: ExpDesc,
                   q: seq<nat>, pq: seq<nat>, tq: seq<nat>, fq: seq<nat>, held: seq<nat>, free: nat)
    requires GoesOn(code0, p0, code1, k1, x, b, l, q, pq, free)
      && Described(code1, Elems(pq), code2, k2, y, d, tq, fq, held, free)
    requires Scope(y, free) && k1 <= k2
    ensures Placed(code0, p0, code2, d.kind, TrueList(b, Elems(tq), Elems(q)), FalseList(b, Elems(fq), Elems(q)),
                   Elems(held), free)
    ensures Sem(code0, p0, code2, k2, Joined(b, x, y), d.kind, TrueList(b, Elems(tq), Elems(q)),
                FalseList(b, Elems(fq), Elems(q)),
                Elems(held), free)
    ensures Shaped(d.kind, Joined(b, x, y))
  {
    assert Shaped(d.kind, Joined(b, x, y));
    hide JumpList, Scope, GoSem, Sem, GoPlaced, Placed, Joined, Shaped, TrueList, FalseList, Unconditional, Opens,
        Tested;
    JoinedPlaced(code0, p0, code1, code2, b, Elems(q), Elems(pq), d.kind, Elems(tq), Elems(fq), Elems(held), free);
    JoinedSem(code0, p0, code1, code2, k1, k2, x, y, b, Elems(q), Elems(pq), d.kind, Elems(tq), Elems(fq), Elems(held),
              free);
  }

  lemma RelinkSem(code0: seq<Instr>, p0: set<nat>, code: seq<Instr>, code': seq<Instr>, k: seq<Value>, e: Expr,
                  kind: Kind, tj: set<nat>,
                  fj: set<nat>, pj: set<nat>, free: nat)
    requires Layout(code, |code0|, kind, tj, fj, pj, free) && Sem(code0, p0, code, k, e, kind, tj, fj, pj, free)
      && Relinked(code, code', tj + fj + pj)
    ensures Sem(code0, p0, code', k, e, kind, tj, fj, pj, free)
  {
    hide Layout, Relinked, Yields, Passes;
    forall env: Env, regs: Regs | k <= env.k && |regs| == MAXSTACK
      ensures Runs(code0, p0, code', env, e, kind, tj, fj, pj, free, regs)
    {
      assert Runs(code0, p0, code, env, e, kind, tj, fj, pj, free, regs);
      RelinkYields(code, code', env, |code0|, e, kind, tj, fj, pj, free, regs);
      forall j, tok | j in p0
        ensures Passes(code0, code', env, e, kind, tj, fj, pj, regs, j, tok)
      {
        RelinkPasses(code0, code, code', env, |code0|, e, kind, tj, fj, pj, free, regs, j, tok);
      }
    }
  }

  lemma JoinHeld(code0: seq<Instr>, p0: set<nat>, code: seq<Instr>, code': seq<Instr>, kind: Kind, tj: set<nat>,
                 fj: set<nat>, free: nat, q1: seq<nat>, jpc: int, held: seq<nat>)
    requires Placed(code0, p0, code, kind, tj, fj, Elems(held), free) && Relinked(code, code', Elems(q1))
      && Elems(q1) <= tj + fj
    requires JumpList(code, jpc, held) && Pending(code, held)
    ensures JumpList(code', jpc, held) && Pending(code', held)
  {
    hide Entered;
    assert Elems(q1) !! Elems(held);
    OtherStays(code, code', jpc, q1, held);
    PendingHeld(code, held);
    PendingHeld(code', held);
    RelinkSame(code, code', Elems(q1), Elems(held));
  }

  lemma JoinDescribed(code0: seq<Instr>, p0: set<nat>, code: seq<Instr>, code': seq<Instr>, k: seq<Value>, e: Expr,
                      b: bool, d: ExpDesc, q: seq<nat>, tq: seq<nat>, fq: seq<nat>, held: seq<nat>, free: nat, l: int)
    requires Placed(code0, p0, code, d.kind, TrueList(b, Elems(tq), Elems(q)), FalseList(b, Elems(fq), Elems(q)),
                    Elems(held), free)
    requires Sem(code0, p0, code, k, e, d.kind, TrueList(b, Elems(tq), Elems(q)), FalseList(b, Elems(fq), Elems(q)),
                 Elems(held), free)
    requires JumpList(code, d.t, tq) && JumpList(code, d.f, fq) && Rested(code) && Shaped(d.kind, e)
      && Relinked(code, code', Elems(if b then fq else tq))
    requires JumpList(code', l, if b then fq + q else tq + q)
    requires (Unconditional(e) ==> Opens(code0, code)) && Fitting(code0, code)
    ensures Described(code0, p0, code', k, e, if b then d.(f := l) else d.(t := l), if b then tq else tq + q,
                      if b then fq + q else fq, held, free)
  {
    RelinkedFitting(code0, code, code', Elems(if b then fq else tq));
    assert Unconditional(e) ==> Opens(code0, code');
    hide Entered, JumpList, Rested, Sem, Shaped, Layout, TrueList, FalseList, Fitting, Opens, Unconditional;
    var tj, fj, pj := TrueList(b, Elems(tq), Elems(q)), FalseList(b, Elems(fq), Elems(q)), Elems(held);
    var q1, q2 := if b then fq else tq, if b then tq else fq;
    JoinedElems(code, |code0|, d.kind, b, q, tq, fq, pj, free);
    RelinkPlaced(code0, p0, code, code', d.kind, tj, fj, pj, free, Elems(q1));
    RelinkedRest(code, code', Elems(q1));
    OtherStays(code, code', if b then d.t else d.f, q1, q2);
    hide Relinked;
    RelinkSem(code0, p0, code, code', k, e, d.kind, tj, fj, pj, free);
  }

  lemma JoinedElems(code: seq<Instr>, lo: nat, kind: Kind, b: bool, q: seq<nat>, tq: seq<nat>, fq: seq<nat>,
                    pj: set<nat>, free: nat)
    requires Layout(code, lo, kind, TrueList(b, Elems(tq), Elems(q)), FalseList(b, Elems(fq), Elems(q)), pj, free)
    ensures Elems(if b then tq else tq + q) == TrueList(b, Elems(tq), Elems(q))
    ensures Elems(if b then fq + q else fq) == FalseList(b, Elems(fq), Elems(q))
    ensures Elems(if b then fq else tq) !! Elems(if b then tq else fq)
    ensures Elems(if b then fq else tq) <= TrueList(b, Elems(tq), Elems(q)) + FalseList(b, Elems(fq), Elems(q))
  {
    assert Elems(tq + q) == Elems(tq) + Elems(q) && Elems(fq + q) == Elems(fq) + Elems(q);
  }

  // ----- Comparisons -----

  ghost predicate Indexed(k: seq<Value>, h: map<Value, nat>) {
    forall v :: v in h ==> h[v] < |k| && k[h[v]] == v
  }

  /** An operand that is a constant or a register below `free`. */
  predicate InUse(o: Operand, free: nat) {
    o.R? ==> o.r < free
  }

  /** From `lo` the code only loads constants, and `o` then is the value of `x`. */
  ghost predicate OperandReady(code: seq<Instr>, k: seq<Value>, lo: nat, free: nat, x: Atom, o: Operand) {
    forall env: Env, regs: Regs :: k <= env.k && |regs| == MAXSTACK && lo <= |code| ==>
      Rk(env, Exec(code, env, lo, |code|, regs, {}).regs, o) == AtomValue(regs, x)
  }

  ghost predicate LoadsOnly(code: seq<Instr>, k: seq<Value>, lo: nat, free: nat) {
    forall env: Env, regs: Regs :: k <= env.k && |regs| == MAXSTACK ==>
      Ready(code, env, lo, free, regs, Exec(code, env, lo, |code|, regs, {}).regs)
  }

  /** The operands of a comparison are being loaded: nothing has been emitted and the same jumps wait, or
      what waited leads to the first load. */
  ghost predicate Loading(code0: seq<Instr>, p0: set<nat>, code: seq<Instr>, k: seq<Value>, held: seq<nat>, free: nat) {
    && Rested(code0) && AllPending(code0, p0)
    && Fitting(code0, code) && (if |code| == |code0| then code == code0 && Elems(held) == p0
        else |code0| < |code| && !code[|code0|].JMP? && held == [] && Framed(code0, code, p0) && Lead(code, p0,
            |code0|) && !Controlled(code,
            |code0|))
    && LoadsOnly(code, k, |code0|, free)
  }

  lemma LoadingStart(code: seq<Instr>, k: seq<Value>, held: seq<nat>, free: nat)
    requires Rested(code) && Pending(code, held)
    ensures Loading(code, Elems(held), code, k, held, free)
  {
    PendingHeld(code, held);
  }

  lemma LocalReady(code0: seq<Instr>, p0: set<nat>, code: seq<Instr>, k: seq<Value>, held: seq<nat>, free: nat, r: nat)
    requires Loading(code0, p0, code, k, held, free) && r < free < MAXSTACK
    ensures OperandReady(code, k, |code0|, free, Loc(r), R(r))
  {
    hide Exec;
  }

  lemma ConstReady(code0: seq<Instr>, p0: set<nat>, code: seq<Instr>, k: seq<Value>, k': seq<Value>, held: seq<nat>,
                   free: nat, n: int, i: nat)
    requires Loading(code0, p0, code, k, held, free) && k <= k' && i < |k'| && k'[i] == Num(n)
    ensures Loading(code0, p0, code, k', held, free) && OperandReady(code, k', |code0|, free, Const(n), K(i))
    ensures forall y, o2 :: OperandReady(code, k, |code0|, free, y, o2) ==> OperandReady(code, k', |code0|, free, y, o2)
  {
    hide Exec;
  }

  /** Emitting an instruction behind the operands. */
  lemma LoadingGrow(code0: seq<Instr>, p0: set<nat>, code: seq<Instr>, code': seq<Instr>, k: seq<Value>, held: seq<nat>,
                    free: nat)
    requires Loading(code0, p0, code, k, held, free) && Grown(code, code', Elems(held)) && |code| < |code'|
    ensures |code0| < |code'| && Framed(code0, code', p0) && Lead(code', p0, |code0|) && !Controlled(code', |code0|)
  {
    hide LoadsOnly;
    RestedControl(code0);
    if |code| == |code0| {
      GrowStart(code0, code', p0);
      GrownControl(code, code', p0);
    } else {
      NothingHeld(held);
      assert forall i :: 0 <= i < |code| ==> code'[i] == Settled(code, {}, i) == code[i];
    }
  }

  lemma LoadRun(code: seq<Instr>, code': seq<Instr>, env: Env, lo: nat, pj: set<nat>, free: nat, regs: Regs, r: Regs,
                reg: nat, i: nat)
    requires Ready(code, env, lo, free, regs, r) && Grown(code, code', pj) && (lo < |code| ==> pj == {})
    requires |code'| == |code| + 1 && code'[|code|] == LOADK(reg, i) && free <= reg
    ensures Exec(code', env, lo, |code'|, regs, {}) == Fall(|code'|, Set(r, reg, Rk(env, r, K(i))))
    ensures Ready(code', env, lo, free, regs, Set(r, reg, Rk(env, r, K(i))))
  {
    var hi, r' := |code|, Set(r, reg, Rk(env, r, K(i)));
    forall n | lo <= n < hi
      ensures Alike(code[n], code'[n])
    {
      assert code'[n] == Settled(code, pj, n);
    }
    SimilarExec(code, code', env, lo, lo, hi, regs, {});
    SplitExec(code', env, lo, hi, hi + 1, regs, {});
    assert Exec(code', env, hi + 1, hi + 1, r', {}) == Fall(hi + 1, r');
    assert Exec(code', env, hi, hi + 1, r, {}) == Fall(hi + 1, r');
  }

  lemma LoadReady(code0: seq<Instr>, p0: set<nat>, code: seq<Instr>, code': seq<Instr>, k: seq<Value>, k': seq<Value>,
                  held: seq<nat>, free: nat, n: int, i: nat, reg: nat)
    requires Loading(code0, p0, code, k, held, free) && k <= k' && i < |k'| && k'[i] == Num(n)
    requires Grown(code, code', Elems(held)) && |code'| == |code| + 1 && code'[|code|] == LOADK(reg, i)
      && free <= reg < MAXSTACK
    ensures Loading(code0, p0, code', k', [], free) && OperandReady(code', k', |code0|, free, Const(n), R(reg))
    ensures forall y, o2 :: InUse(o2, reg) && OperandReady(code, k, |code0|, free, y, o2) ==>
      OperandReady(code', k', |code0|, free, y, o2)
  {
    LoadingGrow(code0, p0, code, code', k, held, free);
    NothingHeld(held);
    hide Exec, Grown, Keeps, Framed, Lead;
    forall env: Env, regs: Regs | k' <= env.k && |regs| == MAXSTACK
      ensures var r := Exec(code, env, |code0|, |code|, regs, {}).regs;
        && Exec(code', env, |code0|, |code'|, regs, {}).regs == Set(r, reg, Num(n)) && |r| == MAXSTACK
        && Ready(code', env, |code0|, free, regs, Exec(code', env, |code0|, |code'|, regs, {}).regs)
    {
      var r := Exec(code, env, |code0|, |code|, regs, {}).regs;
      LoadRun(code, code', env, |code0|, Elems(held), free, regs, r, reg, i);
      KeepsLength(regs, r, free);
    }
  }

  lemma KeepsLength(regs: Regs, r: Regs, free: nat)
    requires Keeps(regs, r, free)
    ensures |r| == |regs|
  {
  }

  lemma RelRun(code: seq<Instr>, code': seq<Instr>, env: Env, lo: nat, pj: set<nat>, free: nat, regs: Regs, r: Regs,
               op: RelOp, x: Atom, y: Atom, o1: Operand, o2: Operand)
    requires Ready(code, env, lo, free, regs, r) && Grown(code, code', pj) && (lo < |code| ==> pj == {})
    requires |code'| == |code| + 2 && code'[|code|] == CompInstr(op, o1, o2) && code'[|code| + 1] == JMP(NO_JUMP)
    requires Rk(env, r, o1) == AtomValue(regs, x) && Rk(env, r, o2) == AtomValue(regs, y)
    ensures Yields(code', env, lo, Rel(op, x, y), VJmp(|code| + 1), {}, {}, {}, free, regs)
  {
    hide Exec, Yields, CompInstr, Rk, AtomValue;
    var hi := |code|;
    var mid := code'[..hi];
    forall n | lo <= n < hi
      ensures Alike(code[n], mid[n])
    {
      assert code'[n] == Settled(code, pj, n);
    }
    SimilarExec(code, mid, env, lo, lo, hi, regs, {});
    assert code' == mid + [code'[hi], code'[hi + 1]];
    RelYields(mid, code', env, lo, op, x, y, o1, o2, free, regs, r);
  }

  lemma RelDescribed(code0: seq<Instr>, p0: set<nat>, code: seq<Instr>, code': seq<Instr>, k: seq<Value>,
                     held: seq<nat>, free: nat, op: RelOp, x: Atom, y: Atom, o1: Operand, o2: Operand)
    requires Loading(code0, p0, code, k, held, free) && OperandReady(code, k, |code0|, free, x, o1)
      && OperandReady(code, k, |code0|, free, y, o2)
    requires Grown(code, code', Elems(held)) && |code'| == |code| + 2 && code'[|code|] == CompInstr(op, o1, o2)
      && code'[|code| + 1] == JMP(NO_JUMP)
    requires free + 2 < MAXSTACK && FitsOperand(o1) && FitsOperand(o2)
    ensures Described(code0, p0, code', k, Rel(op, x, y), ExpDesc(VJmp(|code| + 1), NO_JUMP, NO_JUMP), [], [], [], free)
  {
    LoadingGrow(code0, p0, code, code', k, held, free);
    GrownFitting(code0, code, code', Elems(held));
    hide Fitting;
    RelSem(code0, p0, code, code', k, held, free, op, x, y, o1, o2);
    hide Sem, OperandReady, LoadsOnly, Grown, Lead;
    PendingBelow(code0, p0);
    NothingPending(code');
    assert Elems([]) == {};
  }

  lemma RelSem(code0: seq<Instr>, p0: set<nat>, code: seq<Instr>, code': seq<Instr>, k: seq<Value>, held: seq<nat>,
               free: nat, op: RelOp, x: Atom, y: Atom, o1: Operand, o2: Operand)
    requires Loading(code0, p0, code, k, held, free) && OperandReady(code, k, |code0|, free, x, o1)
      && OperandReady(code, k, |code0|, free, y, o2)
    requires Grown(code, code', Elems(held)) && |code'| == |code| + 2 && code'[|code|] == CompInstr(op, o1, o2)
      && code'[|code| + 1] == JMP(NO_JUMP)
    ensures Sem(code0, p0, code', k, Rel(op, x, y), VJmp(|code| + 1), {}, {}, {}, free)
  {
    NothingHeld(held);
    hide Exec, Grown, Ready, Yields, Rk, AtomValue, Framed, Lead;
    forall env: Env, regs: Regs | k <= env.k && |regs| == MAXSTACK
      ensures Runs(code0, p0, code', env, Rel(op, x, y), VJmp(|code| + 1), {}, {}, {}, free, regs)
    {
      var r := Exec(code, env, |code0|, |code|, regs, {}).regs;
      RelRun(code, code', env, |code0|, Elems(held), free, regs, r, op, x, y, o1, o2);
      var none: set<nat> := {};
      assert none + none + none == {};
    }
  }

  lemma GrownByOne(code: seq<Instr>, code': seq<Instr>)
    requires Grown(code, code', {}) && |code'| == |code| + 1
    ensures code' == code + [code'[|code|]]
  {
    assert forall i :: 0 <= i < |code| ==> code'[i] == Settled(code, {}, i);
  }

  // ----- Values in registers -----

  ghost predicate LandSem(code: seq<Instr>, k: seq<Value>, lo: nat, e: Expr, reg: nat, bare: bool, tj: set<nat>,
                          fj: set<nat>, pj: set<nat>, free: nat) {
    forall env: Env, regs: Regs :: k <= env.k && |regs| == MAXSTACK ==>
      Lands(code, env, lo, Delivered(env, regs, e), reg, bare, tj, fj, pj, free, regs)
  }

  /** Before the end of `code0` only the jumps of `p0` and their tests have changed. */
  ghost predicate Untouched(code0: seq<Instr>, code: seq<Instr>, p0: set<nat>) {
    && |code0| <= |code|
    && forall i :: 0 <= i < |code0| && i !in p0 && i + 1 !in p0 ==> code[i] == code0[i]
  }

  /** What becomes of `j`, a jump that waited at the end of `code0`: it leads to what has been emitted there
      (or where that jumps), and its test leaves the registers alone. Only a jump emitted there can have
      caught it: then it puts the value that it has tested into `reg`, and leads to `end`. */
  ghost predicate RejoinsAt(code0: seq<Instr>, code: seq<Instr>, reg: nat, end: nat, j: nat) {
    var m := |code0|;
    || LeadsTo(code0, code, m, j)
    || (&& m < |code| && code[m].JMP?
        && (|| LeadsTo(code0, code, Goal(code, m), j)
            || (&& j < |code| && code[j].JMP? && HasValue(code0, j) && Goal(code, j) == end
                && code[j - 1] == PatchReg(code0[j - 1], reg))))
  }

  /** The jump `j` leads to `m`, and if a test controls it, that has no register to set. */
  ghost predicate LeadsTo(code0: seq<Instr>, code: seq<Instr>, m: int, j: nat) {
    && j < |code0| <= |code| && code[j].JMP? && Goal(code, j) == m
    && (HasValue(code0, j) ==> code[j - 1] in {code0[j - 1], PatchReg(code0[j - 1], NO_REG)})
  }

  /** All jumps that waited lead to what has been emitted. */
  ghost predicate Straight(code0: seq<Instr>, code: seq<Instr>, p0: set<nat>) {
    forall j :: j in p0 ==> LeadsTo(code0, code, |code0|, j)
  }

  lemma OpensStraight(code0: seq<Instr>, code: seq<Instr>, p0: set<nat>, reg: nat, end: nat)
    requires Rejoins(code0, code, p0, reg, end) && Opens(code0, code)
    ensures Straight(code0, code, p0)
  {
    hide LeadsTo;
    forall j | j in p0
      ensures LeadsTo(code0, code, |code0|, j)
    {
      assert RejoinsAt(code0, code, reg, end, j);
    }
  }

  ghost predicate Rejoins(code0: seq<Instr>, code: seq<Instr>, p0: set<nat>, reg: nat, end: nat) {
    forall j :: j in p0 ==> RejoinsAt(code0, code, reg, end, j)
  }

  /** The code before the expression, once the next instruction has been emitted. */
  ghost predicate Returned(code0: seq<Instr>, code: seq<Instr>, e: Expr, p0: set<nat>, reg: nat, held: seq<nat>) {
    var code' := Landed(code, Elems(held));
    && Untouched(code0, code', p0) && Rejoins(code0, code', p0, reg, |code|)
    && (Unconditional(e) ==> Straight(code0, code', p0)) && Fitting(code0, code')
  }

  lemma RejoinsMore(code0: seq<Instr>, code: seq<Instr>, code': seq<Instr>, p0: set<nat>, reg: nat, end: nat)
    requires Rejoins(code0, code, p0, reg, end) && |code| <= |code'| && forall i :: 0 <= i < |code| ==>
      code'[i] == code[i]
    ensures Rejoins(code0, code', p0, reg, end)
    ensures Straight(code0, code, p0) ==> Straight(code0, code', p0)
  {
    forall j | j in p0
      ensures RejoinsAt(code0, code', reg, end, j)
    {
      assert RejoinsAt(code0, code, reg, end, j);
    }
  }

  /** The jumps that waited, after the lists of the expression have been patched. */
  lemma FinalRejoins(code0: seq<Instr>, code: seq<Instr>, code': seq<Instr>, p0: set<nat>, tj: set<nat>, fj: set<nat>,
                     pj: set<nat>, reg: nat, final: nat, pf: nat, pt: nat)
    requires Entered(code0, code, p0, tj, fj, pj) && Final(code, code', tj, fj, pj, reg, final, pf, pt)
    requires !Controlled(code, |code0|) && forall j :: j in p0 ==> j < |code0|
    requires (|code| == |code0| ==> final == |code|) && tj !! fj && tj !! pj && fj !! pj && AllPending(code, pj)
    requires reg < MAXSTACK
    ensures Rejoins(code0, code', p0, reg, final)
  {
    PendingBelow(code, pj);
    hide Final, AllPending, RejoinsAt;
    forall j | j in p0
      ensures RejoinsAt(code0, code', reg, final, j)
    {
      WaitedAt(code0, code, code', p0, tj, fj, pj, reg, final, pf, pt, j);
    }
  }

  lemma FinalUntouched(code0: seq<Instr>, code: seq<Instr>, code': seq<Instr>, p0: set<nat>, tj: set<nat>,
                       fj: set<nat>, pj: set<nat>, reg: nat, final: nat, pf: nat, pt: nat)
    requires LandPlaced(code0, p0, code, tj, fj, pj) && Final(code, code', tj, fj, pj, reg, final, pf, pt)
    ensures Untouched(code0, code', p0)
  {
    hide Entered, AllPending;
    forall i | 0 <= i < |code0| && i !in p0 && i + 1 !in p0
      ensures code'[i] == code0[i]
    {
      assert i !in tj + fj + pj;
      if i + 1 in tj + fj + pj { assert i + 1 == |code0|; }
    }
  }

  lemma FinalOpens(code0: seq<Instr>, code: seq<Instr>, code': seq<Instr>, p0: set<nat>, tj: set<nat>, fj: set<nat>,
                   pj: set<nat>, reg: nat, final: nat, pf: nat, pt: nat)
    requires LandPlaced(code0, p0, code, tj, fj, pj) && Final(code, code', tj, fj, pj, reg, final, pf, pt)
    requires |code| == |code0| ==> |code'| == |code|
    ensures Opens(code0, code) ==> Opens(code0, code')
  {
    hide Entered;
    PendingBelow(code, tj);
    PendingBelow(code, fj);
    PendingBelow(code, pj);
  }

  lemma WaitedAt(code0: seq<Instr>, code: seq<Instr>, code': seq<Instr>, p0: set<nat>, tj: set<nat>, fj: set<nat>,
                 pj: set<nat>, reg: nat, final: nat, pf: nat, pt: nat, j: nat)
    requires Entered(code0, code, p0, tj, fj, pj) && Final(code, code', tj, fj, pj, reg, final, pf, pt)
    requires !Controlled(code, |code0|) && j in p0 && j < |code0|
    requires reg < MAXSTACK && tj !! fj && tj !! pj && fj !! pj && forall i :: i in p0 ==> i < |code0| && code0[i].JMP?
    requires |code| == |code0| ==> final == |code|
    ensures RejoinsAt(code0, code', reg, final, j)
  {
    var m, xs := |code0|, tj + fj + pj;
    assert j in xs <==> m in xs || |code| == m;
    if HasValue(code0, j) {
      assert j - 1 !in p0 && j - 1 !in xs;
      assert code[j - 1] == code0[j - 1] || code[j - 1] == Settled(code0, p0, j - 1);
      assert code'[j - 1] == FinishedAt(code, xs, tj + fj, reg, j - 1);
    }
    if m < |code| {
      assert !HasValue(code, m);
      assert m !in xs ==> code'[m] == code[m] || !code[m].JMP?;
    }
  }

  ghost predicate LandPlaced(code0: seq<Instr>, p0: set<nat>, code: seq<Instr>, tj: set<nat>, fj: set<nat>,
                             pj: set<nat>) {
    && Entered(code0, code, p0, tj, fj, pj) && Untouched(code0, code, p0) && !Controlled(code, |code0|)
    && AllPending(code, tj) && AllPending(code, fj) && AllPending(code, pj)
    && tj !! fj && tj !! pj && fj !! pj
    && (forall j :: j in tj + fj + pj ==> j in p0 || |code0| <= j) && forall j :: j in p0 ==> j < |code0|
  }

  /** The value is in `reg` unless a jump has been taken; `bare` is a comparison that only jumps. */
  ghost predicate Landing(code0: seq<Instr>, p0: set<nat>, code: seq<Instr>, k: seq<Value>, e: Expr, reg: nat,
                          bare: bool, t: int, f: int, tq: seq<nat>, fq: seq<nat>, held: seq<nat>, free: nat) {
    && JumpList(code, t, tq) && JumpList(code, f, fq) && Rested(code)
    && (bare ==> held == [] && !AllValues(code, Elems(tq)))
    && LandPlaced(code0, p0, code, Elems(tq), Elems(fq), Elems(held))
    && LandSem(code, k, |code0|, e, reg, bare, Elems(tq), Elems(fq), Elems(held), free)
    && (Unconditional(e) ==> Opens(code0, code)) && Fitting(code0, code)
  }

  lemma EnteredUntouched(code0: seq<Instr>, code: seq<Instr>, p0: set<nat>, tj: set<nat>, fj: set<nat>, pj: set<nat>)
    requires Entered(code0, code, p0, tj, fj, pj)
    ensures Untouched(code0, code, p0) && forall j :: j in tj + fj + pj ==> j in p0 || |code0| <= j
  {
  }

  /** The value is brought into `reg` by one more instruction. */
  lemma LandingGrown(code0: seq<Instr>, p0: set<nat>, code: seq<Instr>, code': seq<Instr>, k: seq<Value>, e: Expr,
                     d: ExpDesc, tq: seq<nat>, fq: seq<nat>, held: seq<nat>, free: nat, reg: nat)
    requires Described(code0, p0, code, k, e, d, tq, fq, held, free)
    requires Grown(code, code', Elems(held)) && |code'| == |code| + 1 && !IsTest(code'[|code|])
      && !code'[|code|].JMP? && FitsFields(code'[|code|])
    requires LandSem(code', k, |code0|, e, reg, false, Elems(tq), Elems(fq), {}, free)
    ensures Landing(code0, p0, code', k, e, reg, false, d.t, d.f, tq, fq, [], free)
  {
    hide LandSem, JumpList, Sem, Entered, Layout, Shaped, Grown;
    var tj, fj := Elems(tq), Elems(fq);
    LayoutHeld(code, |code0|, d.kind, tj, fj, Elems(held), free);
    GrownOpens(code0, code, code', Elems(held));
    GrownFitting(code0, code, code', Elems(held));
    hide Fitting;
    GrownLists(code0, p0, code, code', k, e, d, tq, fq, held, free);
    EnteredUntouched(code0, code', p0, tj, fj, {});
    assert tj !! fj by { ListsApart(code, |code0|, d.kind, tj, fj, Elems(held), free); }
    hide Described, AllPending, Untouched;
    assert Elems([]) == {};
    assert AllPending(code', {}) by { hide Landing; NonePending(code'); }
  }

  lemma LayoutHeld(code: seq<Instr>, lo: nat, kind: Kind, tj: set<nat>, fj: set<nat>, pj: set<nat>, free: nat)
    requires Layout(code, lo, kind, tj, fj, pj, free)
    ensures lo <= |code| && forall j :: j in pj ==> j < |code| && code[j].JMP?
  {
    PendingBelow(code, pj);
  }

  lemma GrownOpens(code0: seq<Instr>, code: seq<Instr>, code': seq<Instr>, pj: set<nat>)
    requires Grown(code, code', pj) && |code| < |code'| && !code'[|code|].JMP?
    requires forall j :: j in pj ==> j < |code| && code[j].JMP?
    ensures |code0| <= |code| && Opens(code0, code) ==> Opens(code0, code')
  {
    var m := |code0|;
    if m < |code| { assert code'[m] == Settled(code, pj, m); }
  }

  lemma ListsApart(code: seq<Instr>, lo: nat, kind: Kind, tj: set<nat>, fj: set<nat>, pj: set<nat>, free: nat)
    requires Layout(code, lo, kind, tj, fj, pj, free)
    ensures tj !! fj && tj !! pj && fj !! pj
  {
  }

  lemma NonePending(code: seq<Instr>)
    ensures AllPending(code, {})
  {
  }

  lemma LandingMove(code0: seq<Instr>, p0: set<nat>, code: seq<Instr>, code': seq<Instr>, k: seq<Value>, e: Expr,
                    d: ExpDesc, tq: seq<nat>, fq: seq<nat>, held: seq<nat>, free: nat, reg: nat)
    requires Described(code0, p0, code, k, e, d, tq, fq, held, free) && d.kind.VNonReloc?
    requires Grown(code, code', Elems(held)) && |code'| == |code| + 1 && code'[|code|] == MOVE(reg, d.kind.r)
      && reg <= free
    ensures Landing(code0, p0, code', k, e, reg, false, d.t, d.f, tq, fq, [], free)
  {
    var tj, fj, pj := Elems(tq), Elems(fq), Elems(held);
    assert LandSem(code', k, |code0|, e, reg, false, tj, fj, {}, free) by {
      hide Layout, Lands, Entered, JumpList, Yields, Passes, Grown;
      forall env: Env, regs: Regs | k <= env.k && |regs| == MAXSTACK
        ensures Lands(code', env, |code0|, Delivered(env, regs, e), reg, false, tj, fj, {}, free, regs)
      {
        assert Runs(code0, p0, code, env, e, d.kind, tj, fj, pj, free, regs);
        LandMove(code, code', env, |code0|, e, d.kind.r, tj, fj, pj, free, regs, reg);
      }
    }
    hide LandSem, Described, Grown;
    LandingGrown(code0, p0, code, code', k, e, d, tq, fq, held, free, reg);
  }

  lemma LandingConst(code0: seq<Instr>, p0: set<nat>, code: seq<Instr>, code': seq<Instr>, k: seq<Value>, e: Expr,
                     d: ExpDesc, tq: seq<nat>, fq: seq<nat>, held: seq<nat>, free: nat, reg: nat)
    requires Described(code0, p0, code, k, e, d, tq, fq, held, free) && d.kind.VConst?
    requires Grown(code, code', Elems(held)) && |code'| == |code| + 1 && LoadsConst(k, code'[|code|], reg, d.kind.v)
      && reg <= free
    ensures Landing(code0, p0, code', k, e, reg, false, d.t, d.f, tq, fq, [], free)
  {
    var tj, fj, pj := Elems(tq), Elems(fq), Elems(held);
    assert LandSem(code', k, |code0|, e, reg, false, tj, fj, {}, free) by {
      hide Layout, Lands, Entered, JumpList, Yields, Passes, Grown, Loads;
      forall env: Env, regs: Regs | k <= env.k && |regs| == MAXSTACK
        ensures Lands(code', env, |code0|, Delivered(env, regs, e), reg, false, tj, fj, {}, free, regs)
      {
        assert Runs(code0, p0, code, env, e, d.kind, tj, fj, pj, free, regs);
        LandConst(code, code', env, |code0|, e, d.kind.v, tj, fj, pj, free, regs, reg);
      }
    }
    hide LandSem, Described, Grown, Loads;
    LandingGrown(code0, p0, code, code', k, e, d, tq, fq, held, free, reg);
  }

  lemma LandingSame(code0: seq<Instr>, p0: set<nat>, code: seq<Instr>, k: seq<Value>, e: Expr, d: ExpDesc, tq: seq<nat>,
                    fq: seq<nat>, held: seq<nat>, free: nat)
    requires Described(code0, p0, code, k, e, d, tq, fq, held, free) && d.kind.VNonReloc?
    ensures Landing(code0, p0, code, k, e, d.kind.r, false, d.t, d.f, tq, fq, held, free)
  {
    hide JumpList, AllPending, Lands, Yields, Passes;
    var tj, fj, pj := Elems(tq), Elems(fq), Elems(held);
    EnteredUntouched(code0, code, p0, tj, fj, pj);
    hide Entered;
    forall env: Env, regs: Regs | k <= env.k && |regs| == MAXSTACK
      ensures Lands(code, env, |code0|, Delivered(env, regs, e), d.kind.r, false, tj, fj, pj, free, regs)
    {
      assert Runs(code0, p0, code, env, e, d.kind, tj, fj, pj, free, regs);
      LandSame(code, env, |code0|, e, tj, fj, pj, free, regs, d.kind.r);
    }
  }

  lemma NotLandSem(code0: seq<Instr>, p0: set<nat>, code: seq<Instr>, code': seq<Instr>, k: seq<Value>, e: Expr,
                   d: ExpDesc, tq: seq<nat>, fq: seq<nat>, free: nat, reg: nat)
    requires Described(code0, p0, code, k, e, d, tq, fq, [], free) && d.kind.VReloc? && reg <= free
    requires var pc := d.kind.pc; pc < |code| && code[pc].NOT? && code' == code[pc := NOT(reg, code[pc].b)]
    ensures LandSem(code', k, |code0|, e, reg, false, Elems(tq), Elems(fq), {}, free)
  {
    hide Fitting, Opens, Unconditional, FitsFields;
    var tj, fj, pc := Elems(tq), Elems(fq), d.kind.pc;
    assert Elems([]) == {};
    hide Layout, Lands, Entered, JumpList, Yields, Passes;
    forall env: Env, regs: Regs | k <= env.k && |regs| == MAXSTACK
      ensures Lands(code', env, |code0|, Delivered(env, regs, e), reg, false, tj, fj, {}, free, regs)
    {
      assert Runs(code0, p0, code, env, e, d.kind, tj, fj, {}, free, regs);
      LandNot(code, env, |code0|, e, pc, tj, fj, free, regs, reg);
    }
  }

  lemma NotLandFitting(code0: seq<Instr>, p0: set<nat>, code: seq<Instr>, code': seq<Instr>, k: seq<Value>, e: Expr,
                   d: ExpDesc, tq: seq<nat>, fq: seq<nat>, free: nat, reg: nat)
    requires Described(code0, p0, code, k, e, d, tq, fq, [], free) && d.kind.VReloc? && reg <= free
    requires var pc := d.kind.pc; pc < |code| && code[pc].NOT? && code' == code[pc := NOT(reg, code[pc].b)]
    ensures Fitting(code0, code') && (Unconditional(e) ==> Opens(code0, code'))
  {
    hide Described, Fitting, Unconditional;
    DescribedFitting(code0, p0, code, k, e, d, tq, fq, [], free);
    DescribedOpens(code0, p0, code, k, e, d, tq, fq, [], free);
    ReplacedFitting(code0, code, code', d.kind.pc);
  }

  lemma LandingNot(code0: seq<Instr>, p0: set<nat>, code: seq<Instr>, code': seq<Instr>, k: seq<Value>, e: Expr,
                   d: ExpDesc, tq: seq<nat>, fq: seq<nat>, free: nat, reg: nat)
    requires Described(code0, p0, code, k, e, d, tq, fq, [], free) && d.kind.VReloc? && reg <= free
    requires var pc := d.kind.pc; pc < |code| && code[pc].NOT? && code' == code[pc := NOT(reg, code[pc].b)]
    ensures Landing(code0, p0, code', k, e, reg, false, d.t, d.f, tq, fq, [], free)
  {
    hide Fitting, Opens, Unconditional, FitsFields, LandSem, JumpList, Sem;
    var tj, fj, pc := Elems(tq), Elems(fq), d.kind.pc;
    assert Elems([]) == {};
    NotLandSem(code0, p0, code, code', k, e, d, tq, fq, free, reg);
    NotLandFitting(code0, p0, code, code', k, e, d, tq, fq, free, reg);
    DroppedEntered(code0, p0, code, code', tj, fj, pc);
    EnteredUntouched(code0, code', p0, tj, fj, {});
    PrefixSame(code, code', pc, tj);
    PrefixSame(code, code', pc, fj);
    hide Entered;
    BothStay(code, code', d, tq, fq);
  }

  lemma LandingStart(code0: seq<Instr>, p0: set<nat>, code: seq<Instr>, k: seq<Value>, e: Expr, d: ExpDesc,
                     tq: seq<nat>, fq: seq<nat>, free: nat, reg: nat)
    requires Described(code0, p0, code, k, e, d, tq, fq, [], free) && d.kind.VJmp?
    ensures var pc := d.kind.pc;
      && JumpList(code, d.t, tq) && JumpList(code, d.f, fq) && JumpList(code, pc, [pc]) && pc !in tq && pc !in fq
      && LandPlaced(code0, p0, code, Elems(tq) + {pc}, Elems(fq), {}) && Rested(code) && pc < |code|
        && !HasValue(code, pc) && |code0| < |code|
      && LandSem(code, k, |code0|, e, reg, true, Elems(tq) + {pc}, Elems(fq), {}, free)
  {
    hide JumpList, Sem, LandSem, Entered;
    var tj, fj, pc := Elems(tq), Elems(fq), d.kind.pc;
    assert Elems([]) == {};
    JmpLandSem(code0, p0, code, k, e, pc, tj, fj, free, reg);
    EnteredUntouched(code0, code, p0, tj, fj, {});
    JmpPlaced(code, |code0|, pc, tj, fj, free);
    JmpEntered(code0, code, p0, tj, fj, pc);
    JumpAlone(code, pc);
    assert (pc in tq ==> pc in tj) && (pc in fq ==> pc in fj);
    hide Untouched, AllPending;
  }

  lemma JmpLandSem(code0: seq<Instr>, p0: set<nat>, code: seq<Instr>, k: seq<Value>, e: Expr, pc: nat, tj: set<nat>,
                   fj: set<nat>, free: nat, reg: nat)
    requires Layout(code, |code0|, VJmp(pc), tj, fj, {}, free) && Sem(code0, p0, code, k, e, VJmp(pc), tj, fj, {}, free)
    ensures LandSem(code, k, |code0|, e, reg, true, tj + {pc}, fj, {}, free)
  {
    hide Layout, Lands, Yields, Passes;
    forall env: Env, regs: Regs | k <= env.k && |regs| == MAXSTACK
      ensures Lands(code, env, |code0|, Delivered(env, regs, e), reg, true, tj + {pc}, fj, {}, free, regs)
    {
      assert Runs(code0, p0, code, env, e, VJmp(pc), tj, fj, {}, free, regs);
      LandJmp(code, env, |code0|, e, pc, tj, fj, free, regs, reg);
    }
  }

  lemma JmpPlaced(code: seq<Instr>, lo: nat, pc: nat, tj: set<nat>, fj: set<nat>, free: nat)
    requires Layout(code, lo, VJmp(pc), tj, fj, {}, free)
    ensures pc !in tj + fj && AllPending(code, tj + {pc}) && !HasValue(code, pc) && lo < pc
    ensures pc < |code| && code[pc] == JMP(NO_JUMP) && (forall j :: j in tj + {pc} ==> j in tj || lo <= j)
  {
  }

  lemma JmpEntered(code0: seq<Instr>, code: seq<Instr>, p0: set<nat>, tj: set<nat>, fj: set<nat>, pc: nat)
    requires Entered(code0, code, p0, tj, fj, {}) && |code0| < pc < |code| && forall j :: j in p0 ==> j < |code0|
    ensures Entered(code0, code, p0, tj + {pc}, fj, {})
  {
    EnteredChange(code0, code, code, p0, tj, fj, {}, tj + {pc}, fj, {});
  }

  lemma LandingJmp(code0: seq<Instr>, p0: set<nat>, code: seq<Instr>, code': seq<Instr>, k: seq<Value>, e: Expr,
                   d: ExpDesc, tq: seq<nat>, fq: seq<nat>, free: nat, reg: nat, t: int)
    requires Described(code0, p0, code, k, e, d, tq, fq, [], free) && d.kind.VJmp?
    requires Relinked(code, code', Elems(tq)) && JumpList(code', t, tq + [d.kind.pc])
    ensures Landing(code0, p0, code', k, e, reg, true, t, d.f, tq + [d.kind.pc], fq, [], free)
  {
    var pc := d.kind.pc;
    LandingStart(code0, p0, code, k, e, d, tq, fq, free, reg);
    JmpOpens(code0, p0, code, code', k, e, d, tq, fq, free);
    var tj, fj := Elems(tq) + {pc}, Elems(fq);
    assert Elems(tq + [pc]) == tj && Elems([]) == {};
    hide Described, LandSem, JumpList, LandPlaced, Unconditional, Opens, Fitting;
    JmpRelinked(code0, p0, code, code', Elems(tq), pc, fj);
    RelinkedRest(code, code', Elems(tq));
    assert !AllValues(code', tj);
    OtherStays(code, code', d.f, tq, fq);
    hide Relinked;
    RelinkLandSem(code, code', k, |code0|, e, reg, true, tj, fj, {}, free);
  }

  lemma JmpOpens(code0: seq<Instr>, p0: set<nat>, code: seq<Instr>, code': seq<Instr>, k: seq<Value>, e: Expr,
                 d: ExpDesc, tq: seq<nat>, fq: seq<nat>, free: nat)
    requires Described(code0, p0, code, k, e, d, tq, fq, [], free) && Relinked(code, code', Elems(tq))
    ensures Elems(tq) !! Elems(fq) && (Unconditional(e) ==> Opens(code0, code')) && Fitting(code0, code')
  {
    RelinkedFitting(code0, code, code', Elems(tq));
    hide Sem, JumpList, Entered;
  }

  lemma JmpRelinked(code0: seq<Instr>, p0: set<nat>, code: seq<Instr>, code': seq<Instr>, tj: set<nat>, pc: nat,
                    fj: set<nat>)
    requires LandPlaced(code0, p0, code, tj + {pc}, fj, {}) && Relinked(code, code', tj) && !HasValue(code, pc)
      && pc < |code| && |code0| < |code| && tj !! fj
    ensures LandPlaced(code0, p0, code', tj + {pc}, fj, {}) && !HasValue(code', pc)
    ensures AllPending(code, tj + {pc} + fj + {}) && Relinked(code, code', tj + {pc} + fj + {})
  {
    var xs := tj + {pc} + fj;
    assert xs + {} == xs;
    BothPending(code, tj + {pc}, fj);
    RelinkedMore(code, code', tj, xs);
    RelinkSame(code, code', xs, tj + {pc});
    RelinkSame(code, code', xs, fj);
    assert SameTest(code, code', pc);
    EnteredRelinked(code0, code, code', p0, tj + {pc}, fj, {}, xs);
    hide Entered, AllPending;
    assert forall i :: 0 <= i < |code0| && i !in p0 ==> i !in xs;
  }

  lemma RelinkLandSem(code: seq<Instr>, code': seq<Instr>, k: seq<Value>, lo: nat, e: Expr, reg: nat, bare: bool,
                      tj: set<nat>, fj: set<nat>, pj: set<nat>, free: nat)
    requires AllPending(code, tj + fj + pj) && LandSem(code, k, lo, e, reg, bare, tj, fj, pj, free)
      && Relinked(code, code', tj + fj + pj)
    ensures LandSem(code', k, lo, e, reg, bare, tj, fj, pj, free)
  {
    hide Eval, Exec, Delivered;
    var xs := tj + fj + pj;
    RelinkSame(code, code', xs, xs);
    hide AllPending;
    forall env: Env, regs: Regs | k <= env.k && |regs| == MAXSTACK
      ensures Lands(code', env, lo, Delivered(env, regs, e), reg, bare, tj, fj, pj, free, regs)
    {
      var o := Exec(code, env, lo, |code|, regs, xs);
      assert Lands(code, env, lo, Delivered(env, regs, e), reg, bare, tj, fj, pj, free, regs);
      SimilarExec(code, code', env, lo, lo, |code|, regs, xs);
      assert o.Jump? ==> SameTest(code, code', o.j);
    }
  }

  // ----- The finished expression -----

  /** Once the next instruction has been emitted, running the code from the end of `code0` puts what is
      delivered into `reg`, keeps the other registers in use, and arrives at that instruction. */
  ghost predicate Evaluates(code0: seq<Instr>, code: seq<Instr>, k: seq<Value>, e: Expr, reg: nat, held: seq<nat>,
                            free: nat) {
    forall env: Env, regs: Regs :: k <= env.k && |regs| == MAXSTACK ==>
      Delivers(Landed(code, Elems(held)), env, |code0|, Delivered(env, regs, e), reg, free, regs)
  }

  /** Whatever is emitted next, the code of the expression computes it. */
  lemma NextInstruction(code0: seq<Instr>, code: seq<Instr>, code': seq<Instr>, k: seq<Value>, e: Expr, reg: nat,
                        held: seq<nat>, free: nat)
    requires Evaluates(code0, code, k, e, reg, held, free) && Grown(code, code', Elems(held)) && |code0| <= |code|
      && free < MAXSTACK
    ensures forall env: Env, regs: Regs :: k <= env.k && |regs| == MAXSTACK ==>
      var o := Exec(code', env, |code0|, |code|, regs, {});
      && o.Fall? && o.pc == |code| && Reg(o.regs, reg) == Delivered(env, regs, e)
      && |o.regs| == MAXSTACK && forall r :: 0 <= r < free && r != reg ==> o.regs[r] == regs[r]
  {
    hide Exec, Delivered;
    var mid := Landed(code, Elems(held));
    forall env: Env, regs: Regs | k <= env.k && |regs| == MAXSTACK
      ensures var o := Exec(code', env, |code0|, |code|, regs, {});
        && o.Fall? && o.pc == |code| && Reg(o.regs, reg) == Delivered(env, regs, e)
        && |o.regs| == MAXSTACK && forall r :: 0 <= r < free && r != reg ==> o.regs[r] == regs[r]
    {
      assert Delivers(mid, env, |code0|, Delivered(env, regs, e), reg, free, regs);
      SimilarExec(mid, code', env, |code0|, |code0|, |code|, regs, {});
    }
  }

  lemma NextRejoins(code0: seq<Instr>, code: seq<Instr>, code': seq<Instr>, e: Expr, p0: set<nat>, reg: nat,
                    held: seq<nat>)
    requires Returned(code0, code, e, p0, reg, held) && Grown(code, code', Elems(held))
    ensures Untouched(code0, code', p0) && Rejoins(code0, code', p0, reg, |code|)
    ensures Unconditional(e) ==> Straight(code0, code', p0)
    ensures forall i :: |code0| <= i < |code| ==> FitsFields(code'[i])
  {
    hide Rejoins, Straight, FitsFields;
    assert forall i :: 0 <= i < |code| ==> code'[i] == Landed(code, Elems(held))[i];
    RejoinsMore(code0, Landed(code, Elems(held)), code', p0, reg, |code|);
  }

  lemma SettledIsPatched(code: seq<Instr>, q: seq<nat>)
    requires AllJumps(code, q)
    ensures forall i :: 0 <= i < |code| ==> PatchedAt(code, q, |code|, NO_REG, |code|, i) == Settled(code, Elems(q), i)
  {
    forall i | 0 <= i < |code|
      ensures PatchedAt(code, q, |code|, NO_REG, |code|, i) == Settled(code, Elems(q), i)
    {
      assert i in q <==> i in Elems(q);
      assert i + 1 in q <==> i + 1 in Elems(q);
    }
  }

  lemma LoadsPending(code: seq<Instr>, code1: seq<Instr>, code': seq<Instr>, bare: bool, fj: int, held: seq<nat>,
                     q: seq<nat>)
    requires Rested(code) && Pending(code, held) && |code1| <= |code'| && code'[..|code1|] == code1
    requires if bare then code1 == code && q == [] && fj == NO_JUMP
      else |code1| == |code| + 1 && code1[..|code|] == code && q == [|code|] + held && JumpList(code1, fj, q)
    ensures JumpList(code', fj, q) && Pending(code', q)
  {
    assert forall i :: 0 <= i < |code1| ==> code'[i] == code'[..|code1|][i];
    if !bare {
      assert forall i :: 0 <= i < |code| ==> code1[i] == code1[..|code|][i];
      ListJumps(code1, fj, q);
      ListStays(code1, code', fj, q);
      forall j | j in q
        ensures IsJump(code', j) && (HasValue(code', j) ==> code'[j - 1].a == NO_REG)
      {
        assert IsJump(code1, j);
        if j != |code| {
          assert j in held;
          assert HasValue(code', j) == HasValue(code, j);
        }
      }
    }
  }

  lemma BehindNothing(code: seq<Instr>, reg: nat)
    ensures Behind(code, code, false, false, reg)
  {
  }

  lemma LandingLists(code0: seq<Instr>, p0: set<nat>, code: seq<Instr>, k: seq<Value>, e: Expr, reg: nat, bare: bool,
                     t: int, f: int, tq: seq<nat>, fq: seq<nat>, held: seq<nat>, free: nat)
    requires Landing(code0, p0, code, k, e, reg, bare, t, f, tq, fq, held, free)
    ensures JumpList(code, t, tq) && JumpList(code, f, fq) && Rested(code) && (bare ==> held == [])
    ensures t == f <==> tq == [] && fq == []
    ensures bare ==> !AllValues(code, Elems(tq)) && tq != []
  {
    hide LandSem, AllPending, Untouched;
    NothingHeld(tq);
    NothingHeld(fq);
    assert tq != [] ==> tq[0] in Elems(tq);
    assert fq != [] ==> fq[0] in Elems(fq);
  }

  lemma LandingBehind(code0: seq<Instr>, p0: set<nat>, code: seq<Instr>, code2: seq<Instr>, k: seq<Value>, e: Expr,
                      reg: nat, bare: bool, t: int, f: int, tq: seq<nat>, fq: seq<nat>, held: seq<nat>, free: nat,
                      loads: bool)
    requires Landing(code0, p0, code, k, e, reg, bare, t, f, tq, fq, held, free)
      && Behind(code, code2, loads, bare, reg)
    ensures JumpList(code2, t, tq) && JumpList(code2, f, fq) && NoDup(tq) && NoDup(fq)
    ensures AllPending(code2, Elems(tq)) && AllPending(code2, Elems(fq)) && Elems(tq) !! Elems(fq)
    ensures var q2 := if loads && !bare then [|code|] + held else held; Elems(q2) !! Elems(tq) && Elems(q2) !! Elems(fq)
  {
    hide LandSem, Untouched;
    assert Elems([|code|] + held) == {|code|} + Elems(held);
    PendingBelow(code, Elems(tq) + Elems(fq));
    PrefixSame(code, code2, |code|, Elems(tq));
    PrefixSame(code, code2, |code|, Elems(fq));
    hide AllPending;
    ListJumps(code, t, tq);
    ListJumps(code, f, fq);
    ListStays(code, code2, t, tq);
    ListStays(code, code2, f, fq);
  }

  lemma PatchedOther(code: seq<Instr>, code': seq<Instr>, fq: seq<nat>, final: int, reg: nat, pf: int, t: int,
                     tq: seq<nat>)
    requires AllJumps(code, fq) && NoDup(fq) && code' == Patched(code, fq, final, reg, pf)
    requires JumpList(code, t, tq) && Elems(tq) !! Elems(fq)
    ensures JumpList(code', t, tq)
  {
    PatchedFacts(code, fq, final, reg, pf);
    ListJumps(code, t, tq);
    forall j | j in tq
      ensures code'[j] == code[j]
    {
      assert j in Elems(tq) && IsJump(code, j) && (j in fq ==> j in Elems(fq));
      assert code'[j] == PatchedAt(code, fq, final, reg, pf, j);
    }
    ListStays(code, code', t, tq);
  }

  lemma ExpEvaluates(code0: seq<Instr>, p0: set<nat>, code: seq<Instr>, code2: seq<Instr>, code': seq<Instr>,
                     k: seq<Value>, e: Expr, reg: nat, bare: bool, t: int, f: int,
                     tq: seq<nat>, fq: seq<nat>, held: seq<nat>, held': seq<nat>, free: nat, loads: bool, pf: int,
                     pt: int)
    requires Landing(code0, p0, code, k, e, reg, bare, t, f, tq, fq, held, free)
      && Behind(code, code2, loads, bare, reg) && reg <= free < MAXSTACK
    requires BothPatched(code2, code', Elems(tq), Elems(fq), reg, |code2|, pf, pt)
    requires if loads then pf == LoadAt(|code|, bare, false) && pt == LoadAt(|code|, bare, true)
      else AllValues(code, Elems(tq)) && AllValues(code, Elems(fq))
    requires held' == if loads && !bare then [|code|] + held else held
    ensures Evaluates(code0, code', k, e, reg, held', free)
  {
    var tj, fj, pj := Elems(tq), Elems(fq), Elems(held);
    var final, lf, lt := |code2|, LoadAt(|code|, bare, false), LoadAt(|code|, bare, true);
    var code5 := Landed(code', Elems(held'));
    assert Elems(held') == if loads && !bare then pj + {|code|} else pj;
    hide JumpList, AllPending, Behind, BothPatched, LandSem, Untouched;
    NothingHeld(held);
    SettleFinal(code, code2, code', tj, fj, pj, reg, loads, bare, pf, pt);
    SettleTail(code, code2, code', tj, fj, pj, reg, loads, bare, pf, pt);
    hide Final, Tail, Delivers, Lands, Landed, AllValues, LoadAt;
    LandSemDelivers(code0, code, code5, k, e, reg, bare, loads, tj, fj, pj, free, final, lf, lt);
  }

  lemma LandSemDelivers(code0: seq<Instr>, code: seq<Instr>, code5: seq<Instr>, k: seq<Value>, e: Expr, reg: nat,
                        bare: bool, loads: bool,
                        tj: set<nat>, fj: set<nat>, pj: set<nat>, free: nat, final: nat, pf: nat, pt: nat)
    requires |code0| <= |code| && LandSem(code, k, |code0|, e, reg, bare, tj, fj, pj, free)
    requires AllPending(code, tj) && AllPending(code, fj) && AllPending(code, pj) && tj !! fj && tj !! pj
      && fj !! pj
    requires Final(code, code5, tj, fj, pj, reg, final, pf, pt) && Tail(code, code5, loads, bare, reg, final, pf, pt)
    requires (!loads ==> AllValues(code, tj) && AllValues(code, fj)) && (bare ==> pj == {}) && reg < MAXSTACK
    ensures forall env: Env, regs: Regs :: k <= env.k && |regs| == MAXSTACK ==>
      Delivers(code5, env, |code0|, Delivered(env, regs, e), reg, free, regs)
  {
    hide AllPending, Final, Tail, AllValues, Lands, Delivers;
    forall env: Env, regs: Regs | k <= env.k && |regs| == MAXSTACK
      ensures Delivers(code5, env, |code0|, Delivered(env, regs, e), reg, free, regs)
    {
      FinalDelivers(code, code5, env, |code0|, Delivered(env, regs, e), reg, bare, loads, tj, fj, pj, free, regs, final,
                    pf, pt);
    }
  }

  lemma ExpUntouched(code0: seq<Instr>, p0: set<nat>, code: seq<Instr>, code2: seq<Instr>, code': seq<Instr>,
                     tj: set<nat>, fj: set<nat>, pj: set<nat>, reg: nat, loads: bool, bare: bool, pf: int, pt: int)
    requires LandPlaced(code0, p0, code, tj, fj, pj) && Behind(code, code2, loads, bare, reg)
    requires BothPatched(code2, code', tj, fj, reg, |code2|, pf, pt)
    ensures Untouched(code0, code', p0)
  {
    hide AllPending;
    forall i | 0 <= i < |code0| && i !in p0 && i + 1 !in p0
      ensures code'[i] == code0[i]
    {
      assert code'[i] == FinalAt(code2, tj, fj, reg, |code2|, pf, pt, i);
      if i + 1 in tj + fj { assert i + 1 == |code0|; }
    }
  }

  lemma ExpRejoins(code0: seq<Instr>, p0: set<nat>, code: seq<Instr>, code2: seq<Instr>, code': seq<Instr>, reg: nat,
                   bare: bool, tj: set<nat>, fj: set<nat>, held: seq<nat>, held': seq<nat>, loads: bool, pf: int,
                   pt: int)
    requires LandPlaced(code0, p0, code, tj, fj, Elems(held)) && Behind(code, code2, loads, bare, reg)
      && BothPatched(code2, code', tj, fj, reg, |code2|, pf, pt) && reg < MAXSTACK && Rested(code)
    requires if loads then pf == LoadAt(|code|, bare, false) && pt == LoadAt(|code|, bare, true)
      else AllValues(code, tj) && AllValues(code, fj)
    requires held' == (if loads && !bare then [|code|] + held else held) && (bare ==> held == [])
    requires |code| == |code0| ==> !loads
    ensures Rejoins(code0, Landed(code', Elems(held')), p0, reg, |code'|)
    ensures Untouched(code0, Landed(code', Elems(held')), p0)
    ensures Opens(code0, code) ==> Straight(code0, Landed(code', Elems(held')), p0)
  {
    var pj := Elems(held);
    assert Elems(held') == if loads && !bare then pj + {|code|} else pj;
    NothingHeld(held);
    assert |code2| == |code'| && (!loads ==> |code2| == |code|);
    hide Rejoins, Behind, BothPatched, Final, AllValues, Elems, Landed, AllPending, Entered, Untouched;
    SettleFinal(code, code2, code', tj, fj, pj, reg, loads, bare, pf, pt);
    var lf, lt := LoadAt(|code|, bare, false), LoadAt(|code|, bare, true);
    FinalRejoins(code0, code, Landed(code', Elems(held')), p0, tj, fj, pj, reg, |code2|, lf, lt);
    FinalUntouched(code0, code, Landed(code', Elems(held')), p0, tj, fj, pj, reg, |code2|, lf, lt);
    FinalOpens(code0, code, Landed(code', Elems(held')), p0, tj, fj, pj, reg, |code2|, lf, lt);
    if Opens(code0, Landed(code', Elems(held'))) { OpensStraight(code0, Landed(code', Elems(held')), p0, reg,
                                                                 |code2|); }
  }

  /** Loads are only needed where a list has jumps. */
  lemma LoadsBehind(code0: seq<Instr>, p0: set<nat>, code: seq<Instr>, tq: seq<nat>, fq: seq<nat>, pj: set<nat>)
    requires LandPlaced(code0, p0, code, Elems(tq), Elems(fq), pj) && (tq != [] || fq != [])
    ensures |code0| < |code|
  {
    NothingHeld(tq);
    NothingHeld(fq);
  }

  lemma ExpFitting(code0: seq<Instr>, code: seq<Instr>, code2: seq<Instr>, code': seq<Instr>, reg: nat, bare: bool,
                   tj: set<nat>, fj: set<nat>, pj: set<nat>, loads: bool, pf: int, pt: int)
    requires Fitting(code0, code) && Behind(code, code2, loads, bare, reg)
      && BothPatched(code2, code', tj, fj, reg, |code2|, pf, pt) && reg < MAXSTACK
    ensures Fitting(code0, Landed(code', pj))
  {
    assert Fitting(code0, code2) by {
      hide BothPatched, Landed;
      ReplacedFitting(code0, code, code2, |code|);
    }
    hide Behind;
    forall i | |code0| <= i < |code'|
      ensures FitsFields(Landed(code', pj)[i])
    {
      assert FitsFields(code2[i]) && code'[i] == FinalAt(code2, tj, fj, reg, |code2|, pf, pt, i);
      assert Landed(code', pj)[i] == Settled(code', pj, i);
    }
  }

  lemma ExpDone(code0: seq<Instr>, p0: set<nat>, code: seq<Instr>, code2: seq<Instr>, code': seq<Instr>, k: seq<Value>,
                e: Expr, reg: nat, bare: bool, t: int, f: int,
                tq: seq<nat>, fq: seq<nat>, held: seq<nat>, held': seq<nat>, free: nat, loads: bool, pf: int, pt: int)
    requires Landing(code0, p0, code, k, e, reg, bare, t, f, tq, fq, held, free)
      && Behind(code, code2, loads, bare, reg) && reg <= free < MAXSTACK
    requires BothPatched(code2, code', Elems(tq), Elems(fq), reg, |code2|, pf, pt)
    requires if loads then pf == LoadAt(|code|, bare, false) && pt == LoadAt(|code|, bare, true)
      else AllValues(code, Elems(tq)) && AllValues(code, Elems(fq))
    requires held' == (if loads && !bare then [|code|] + held else held) && (loads ==> tq != [] || fq != [])
    ensures Untouched(code0, code', p0) && Evaluates(code0, code', k, e, reg, held', free)
    ensures Returned(code0, code', e, p0, reg, held')
  {
    hide LandPlaced, LandSem, AllValues, Behind, BothPatched, Evaluates, Untouched, Rejoins, JumpList;
    ExpUntouched(code0, p0, code, code2, code', Elems(tq), Elems(fq), Elems(held), reg, loads, bare, pf, pt);
    if loads { LoadsBehind(code0, p0, code, tq, fq, Elems(held)); }
    ExpFitting(code0, code, code2, code', reg, bare, Elems(tq), Elems(fq), Elems(held'), loads, pf, pt);
    hide Fitting;
    ExpRejoins(code0, p0, code, code2, code', reg, bare, Elems(tq), Elems(fq), held, held', loads, pf, pt);
    hide Landing;
    ExpEvaluates(code0, p0, code, code2, code', k, e, reg, bare, t, f, tq, fq, held, held', free, loads, pf, pt);
  }

  lemma ExpPlain(code0: seq<Instr>, p0: set<nat>, code: seq<Instr>, k: seq<Value>, e: Expr, reg: nat, t: int, f: int,
                 tq: seq<nat>, fq: seq<nat>, held: seq<nat>, free: nat)
    requires Landing(code0, p0, code, k, e, reg, false, t, f, tq, fq, held, free) && tq == [] && fq == []
      && reg <= free < MAXSTACK
    ensures Untouched(code0, code, p0) && Evaluates(code0, code, k, e, reg, held, free)
    ensures Returned(code0, code, e, p0, reg, held)
  {
    NothingHeld(tq);
    NothingHeld(fq);
    assert BothPatched(code, code, {}, {}, reg, |code|, 0, 0);
    assert AllValues(code, {});
    BehindNothing(code, reg);
    hide Landing, Behind, BothPatched, AllValues, Evaluates, Untouched, Returned;
    ExpDone(code0, p0, code, code, code, k, e, reg, false, t, f, tq, fq, held, held, free, false, 0, 0);
  }

  // ----- Conditions -----

  /** Behind a condition, whatever is emitted next: control arrives there exactly if the value is `b`,
      and leaves by the returned list otherwise. */
  lemma NextAfterCondition(code0: seq<Instr>, p0: set<nat>, code: seq<Instr>, code': seq<Instr>, k: seq<Value>, e: Expr,
                           b: bool,
                           l: int, q: seq<nat>, held: seq<nat>, free: nat)
    requires GoesOn(code0, p0, code, k, e, b, l, q, held, free) && Grown(code, code', Elems(held)) && |code| < |code'|
    ensures JumpList(code', l, q)
    ensures forall env: Env, regs: Regs :: k <= env.k && |regs| == MAXSTACK ==>
      var o := Exec(code', env, |code0|, |code|, regs, Elems(q));
      && Keeps(regs, o.regs, free)
      && if Truthy(Eval(env, regs, e)) == b then o == Fall(|code|, o.regs) else o.Jump? && o.j in Elems(q)
  {
    var qj, pj := Elems(q), Elems(held);
    GrownSame(code, code', pj, qj);
    ListJumps(code, l, q);
    assert forall j :: j in q ==> j in qj;
    ListStays(code, code', l, q);
    hide JumpList, GoPasses, Goes, Entered, Grown;
    forall env: Env, regs: Regs | k <= env.k && |regs| == MAXSTACK
      ensures var o := Exec(code', env, |code0|, |code|, regs, qj);
        && Keeps(regs, o.regs, free)
        && if Truthy(Eval(env, regs, e)) == b then o == Fall(|code|, o.regs) else o.Jump? && o.j in qj
    {
      assert GoRuns(code0, p0, code, env, e, b, qj, pj, free, regs);
      ConditionRun(code, code', env, |code0|, e, b, qj, pj, free, regs);
    }
  }

  lemma ConditionRun(code: seq<Instr>, code': seq<Instr>, env: Env, lo: nat, e: Expr, b: bool, qj: set<nat>,
                     pj: set<nat>, free: nat, regs: Regs)
    requires lo <= |code| < |code'| && Grown(code, code', pj) && AllPending(code, qj) && AllPending(code, pj)
      && qj !! pj
    requires Goes(code, env, lo, e, b, qj, pj, free, regs)
    ensures var o := Exec(code', env, lo, |code|, regs, qj);
      && Keeps(regs, o.regs, free)
      && if Truthy(Eval(env, regs, e)) == b then o == Fall(|code|, o.regs) else o.Jump? && o.j in qj
  {
    WayRight(env, regs, b, e, Nothing);
    hide Eval, Through, GoWay;
    GrownRun(code, code', env, lo, regs, qj, pj);
  }

  // ----- Steps of the code generator -----

  lemma GrownByTwo(code: seq<Instr>, code': seq<Instr>)
    requires Grown(code, code', {}) && |code'| == |code| + 2
    ensures code' == code + [code'[|code|], code'[|code| + 1]] && code'[..|code|] == code
  {
    assert forall i :: 0 <= i < |code| ==> code'[i] == Settled(code, {}, i);
  }

  lemma LoadedGrown(code: seq<Instr>, mid: seq<Instr>, code': seq<Instr>, pj: set<nat>)
    requires Grown(code, mid, pj) && |mid| <= |code'| && code'[..|mid|] == mid
    ensures Grown(code, code', pj)
    ensures |code| < |mid| ==> code'[|code|] == mid[|code|]
  {
    assert forall i :: 0 <= i < |mid| ==> code'[i] == code'[..|mid|][i];
    assert forall i :: 0 <= i < |code| ==> mid[i] == Settled(code, pj, i);
  }

  lemma DescribedMore(code0: seq<Instr>, p0: set<nat>, code: seq<Instr>, k: seq<Value>, k': seq<Value>, e: Expr,
                      d: ExpDesc,
                      tq: seq<nat>, fq: seq<nat>, held: seq<nat>, free: nat)
    requires Described(code0, p0, code, k, e, d, tq, fq, held, free) && k <= k'
    ensures Described(code0, p0, code, k', e, d, tq, fq, held, free)
  {
    hide Sem, Placed, JumpList;
    SemMore(code0, p0, code, k, k', e, d.kind, Elems(tq), Elems(fq), Elems(held), free);
  }

  lemma PatchedHere(code: seq<Instr>, code': seq<Instr>, held: seq<nat>, q: seq<nat>)
    requires Pending(code, held) && Pending(code, q) && Relinked(code, code', Elems(held))
    ensures Pending(code', held + q)
  {
    assert Elems(held + q) == Elems(held) + Elems(q);
    PendingHeld(code, held);
    PendingHeld(code, q);
    PendingHeld(code', held + q);
    RelinkSame(code, code', Elems(held), Elems(held));
    RelinkSame(code, code', Elems(held), Elems(q));
  }

  lemma UnlessLists(code0: seq<Instr>, p0: set<nat>, code: seq<Instr>, k: seq<Value>, e: Expr, b: bool, d: ExpDesc,
                    tq: seq<nat>, fq: seq<nat>, l: int, jq: seq<nat>, held: seq<nat>, free: nat)
    requires JumpsUnless(code0, p0, code, k, e, b, d, tq, fq, l, jq, held, free)
    ensures JumpList(code, d.t, tq) && JumpList(code, d.f, fq) && JumpList(code, l, jq)
    ensures forall j :: j in (if b then fq else tq) ==> j !in jq
  {
    hide GoSem, GoPlaced, JumpList;
    forall j | j in (if b then fq else tq)
      ensures j !in jq
    {
      assert j in Elems(if b then fq else tq);
      assert j in jq ==> j in Elems(jq);
    }
  }

  /** What waits is not touched when the jumps that leave are linked. */
  lemma GoIfHeld(code0: seq<Instr>, p0: set<nat>, code: seq<Instr>, code': seq<Instr>, k: seq<Value>, e: Expr, b: bool,
                 d: ExpDesc,
                 tq: seq<nat>, fq: seq<nat>, l: int, jq: seq<nat>, held: seq<nat>, free: nat, jpc: int)
    requires JumpsUnless(code0, p0, code, k, e, b, d, tq, fq, l, jq, held, free)
      && Relinked(code, code', Elems(if b then fq else tq))
    requires JumpList(code, jpc, held) && Pending(code, held)
    ensures JumpList(code', jpc, held) && Pending(code', held) && Pending(code', if b then tq else fq)
  {
    hide GoSem, JumpList, Entered;
    var q1, other := if b then fq else tq, if b then tq else fq;
    OtherStays(code, code', jpc, q1, held);
    PendingHeld(code, held);
    PendingHeld(code', held);
    assert AllPending(code, Elems(other));
    PendingHeld(code', other);
    RelinkSame(code, code', Elems(q1), Elems(held));
    RelinkSame(code, code', Elems(q1), Elems(other));
  }

  lemma GoIfDone(code0: seq<Instr>, p0: set<nat>, code: seq<Instr>, code': seq<Instr>, k: seq<Value>, e: Expr, b: bool,
                 l: int,
                 q: seq<nat>, held: seq<nat>, other: seq<nat>, free: nat)
    requires GoPlaced(code0, p0, code, Elems(q), Elems(held + other))
      && GoSem(code0, p0, code, k, e, b, Elems(q), Elems(held + other), free)
    requires JumpList(code, l, q) && Relinked(code, code', Elems(held)) && (other == [] ==> code' == code)
    requires (|code| == |code0| ==> other == []) && (Tested(e, b) ==> Opens(code0, code)) && Fitting(code0, code)
    ensures GoesOn(code0, p0, code', k, e, b, l, q, held + other, free)
  {
    RelinkedFitting(code0, code, code', Elems(held));
    hide GoSem, JumpList, Entered;
    assert Elems(held + other) == Elems(held) + Elems(other);
    OtherStays(code, code', l, held, q);
    GoRelinked(code0, p0, code, code', k, e, b, Elems(q), Elems(held + other), Elems(held), free);
  }

  /** A value in a register is that of a local variable. */
  predicate OnlyLocals(kind: Kind, nactvar: nat) {
    kind.VLocal? || kind.VNonReloc? ==> kind.r < nactvar
  }

  lemma {:induction false} ScopeMore(e: Expr, n: nat, m: nat)
    requires Scope(e, n) && n <= m
    ensures Scope(e, m)
  {
    match e
    case Local(_) =>
    case Literal(_) =>
    case Rel(_, _, _) =>
    case Not(a) => ScopeMore(a, n, m);
    case And(a, b) => ScopeMore(a, n, m); ScopeMore(b, n, m);
    case Or(a, b) => ScopeMore(a, n, m); ScopeMore(b, n, m);
  }

  lemma UntouchedLength(code0: seq<Instr>, code: seq<Instr>, p0: set<nat>)
    requires Untouched(code0, code, p0)
    ensures |code0| <= |code|
  {
  }

  lemma GoneFitting(code0: seq<Instr>, code: seq<Instr>, code': seq<Instr>, pj: set<nat>)
    requires Fitting(code0, code) && Grown(code, code', pj)
    ensures forall i :: |code0| <= i < |code| ==> FitsFields(code'[i])
  {
    forall i | |code0| <= i < |code|
      ensures FitsFields(code'[i])
    {
      assert code'[i] == Settled(code, pj, i);
    }
  }

  /** The jumps that waited before the condition leave with the jump at its start, or lead there. */
  lemma ConditionEntered(code0: seq<Instr>, p0: set<nat>, code: seq<Instr>, code': seq<Instr>, k: seq<Value>, e: Expr,
                         b: bool, l: int, q: seq<nat>, held: seq<nat>, free: nat)
    requires GoesOn(code0, p0, code, k, e, b, l, q, held, free) && Grown(code, code', Elems(held)) && |code| < |code'|
    ensures Entered(code0, code', p0, Elems(q), {}, {})
    ensures forall i :: |code0| <= i < |code| ==> FitsFields(code'[i])
  {
    NonePending(code);
    GoneFitting(code0, code, code', Elems(held));
    hide GoSem, AllPending, Entered, Grown;
    EnteredGrow(code0, code, code', p0, Elems(q), {}, Elems(held));
  }

  lemma GoesOnLength(code0: seq<Instr>, p0: set<nat>, code: seq<Instr>, k: seq<Value>, e: Expr, b: bool, l: int,
                     q: seq<nat>, held: seq<nat>, free: nat)
    requires GoesOn(code0, p0, code, k, e, b, l, q, held, free)
    ensures |code0| <= |code|
  {
  }
}
