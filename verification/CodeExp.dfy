/** Bringing the value of a compiled expression into a register: what the lists become. */
module CodeExp {
  import opened CodeVm
  import opened CodeLists
  import opened CodeRoute
  import opened CodeSem
  import opened CodeFinal

  /** The code once the next instruction has been emitted: the held jumps lead to it. */
  function Landed(code: seq<Instr>, pj: set<nat>): (r: seq<Instr>)
    ensures |r| == |code| && forall i :: 0 <= i < |code| ==> r[i] == Settled(code, pj, i)
  {
    seq(|code|, i requires 0 <= i < |code| => Settled(code, pj, i))
  }

  /** What the two calls of `patchlistaux` make of position `i`. */
  function FinalAt(code: seq<Instr>, tj: set<nat>, fj: set<nat>, reg: nat, final: int, pf: int, pt: int, i: nat): Instr
    requires i < |code|
  {
    if i in tj then JMP((if HasValue(code, i) then final else pt) - (i + 1))
    else if i in fj then JMP((if HasValue(code, i) then final else pf) - (i + 1))
    else if i + 1 in tj + fj && code[i].TESTSET? then PatchReg(code[i], reg)
    else code[i]
  }

  ghost predicate BothPatched(code: seq<Instr>, code': seq<Instr>, tj: set<nat>, fj: set<nat>, reg: nat, final: int,
                              pf: int, pt: int) {
    |code'| == |code| && forall i :: 0 <= i < |code| ==> code'[i] == FinalAt(code, tj, fj, reg, final, pf, pt, i)
  }

  lemma PatchBoth(code: seq<Instr>, mid: seq<Instr>, code': seq<Instr>, tq: seq<nat>, fq: seq<nat>, reg: nat,
                  final: int, pf: int, pt: int)
    requires AllPending(code, Elems(tq)) && AllPending(code, Elems(fq)) && Elems(tq) !! Elems(fq) && NoDup(tq)
      && NoDup(fq)
    requires AllJumps(code, fq) && mid == Patched(code, fq, final, reg, pf)
    requires AllJumps(mid, tq) && code' == Patched(mid, tq, final, reg, pt)
    ensures BothPatched(code, code', Elems(tq), Elems(fq), reg, final, pf, pt)
  {
    PatchedFacts(code, fq, final, reg, pf);
    PatchedFacts(mid, tq, final, reg, pt);
    hide AllPending, NoDup;
    forall i | 0 <= i < |code|
      ensures code'[i] == FinalAt(code, Elems(tq), Elems(fq), reg, final, pf, pt, i)
    {
      assert code'[i] == PatchedAt(mid, tq, final, reg, pt, i);
      PatchBothAt(code, mid, tq, fq, reg, final, pf, pt, i);
    }
  }

  lemma PatchBothAt(code: seq<Instr>, mid: seq<Instr>, tq: seq<nat>, fq: seq<nat>, reg: nat, final: int, pf: int,
                    pt: int, i: nat)
    requires AllPending(code, Elems(tq)) && AllPending(code, Elems(fq)) && Elems(tq) !! Elems(fq) && i < |code| == |mid|
    requires forall n :: 0 <= n < |code| ==> mid[n] == PatchedAt(code, fq, final, reg, pf, n)
    ensures PatchedAt(mid, tq, final, reg, pt, i) == FinalAt(code, Elems(tq), Elems(fq), reg, final, pf, pt, i)
  {
    assert mid[i] == PatchedAt(code, fq, final, reg, pf, i);
    assert (i in tq <==> i in Elems(tq)) && (i in fq <==> i in Elems(fq));
    assert (i + 1 in tq <==> i + 1 in Elems(tq)) && (i + 1 in fq <==> i + 1 in Elems(fq));
    if i in tq && i >= 1 {
      assert mid[i - 1] == PatchedAt(code, fq, final, reg, pf, i - 1);
      assert i - 1 in fq ==> i - 1 in Elems(fq) && PendingJump(code, i - 1);
    }
    hide Elems;
    assert i in fq ==> PendingJump(code, i);
  }

  /** The jumps that were not patched, and what controls them, are as before. */
  lemma PatchBothKeeps(code: seq<Instr>, code': seq<Instr>, tj: set<nat>, fj: set<nat>, reg: nat, final: int,
                       pf: int, pt: int, q: seq<nat>, head: int)
    requires BothPatched(code, code', tj, fj, reg, final, pf, pt) && AllPending(code, tj) && AllPending(code, fj)
    requires JumpList(code, head, q) && Pending(code, q) && Elems(q) !! tj && Elems(q) !! fj
    ensures JumpList(code', head, q) && Pending(code', q)
  {
    forall j | j in q
      ensures IsJump(code', j) && code'[j] == code[j] && (HasValue(code', j) ==> code'[j - 1].a == NO_REG)
    {
      assert j in Elems(q) && IsJump(code, j);
      if j >= 1 {
        var n := j - 1;
        assert n in tj + fj ==> PendingJump(code, n);
        assert HasValue(code', j) ==> code'[n] == code[n];
      }
    }
    ListStays(code, code', head, q);
  }

  /** The code behind the expression while its lists are still open. */
  ghost predicate Behind(code: seq<Instr>, code2: seq<Instr>, loads: bool, bare: bool, reg: nat) {
    && |code| <= |code2| && (forall i :: 0 <= i < |code| ==> code2[i] == code[i])
    && if !loads then !bare && |code2| == |code|
       else if bare then code2 == code + [LOADBOOL(reg, false, true), LOADBOOL(reg, true, false)]
       else |code2| == |code| + 3 && code2[|code|].JMP? && code2[|code| + 1] == LOADBOOL(reg, false,
           true) && code2[|code| + 2] == LOADBOOL(reg, true, false)
  }

  /** Where the boolean `b` is loaded. */
  function LoadAt(hi: nat, bare: bool, b: bool): nat {
    hi + (if bare then 0 else 1) + (if b then 1 else 0)
  }

  /** Position `i` is what Final says. */
  ghost predicate SettledRight(code: seq<Instr>, code5: seq<Instr>, tj: set<nat>, fj: set<nat>, pj: set<nat>, reg: nat,
                               final: nat, pf: nat, pt: nat, i: nat)
    requires i < |code| && i < |code5|
  {
    && (i in tj ==> code5[i] == JMP(Target(code, i, final, pt) as int - (i + 1)))
    && (i in fj ==> code5[i] == JMP(Target(code, i, final, pf) as int - (i + 1)))
    && (i in pj ==> code5[i] == JMP(final as int - (i + 1)))
    && (i !in tj + fj + pj ==> code5[i] == FinishedAt(code, tj + fj + pj, tj + fj, reg, i))
  }

  lemma SettleOne(code: seq<Instr>, code2: seq<Instr>, code4: seq<Instr>, tj: set<nat>, fj: set<nat>,
                  pj: set<nat>, reg: nat, loads: bool, bare: bool, pf: int, pt: int, i: nat)
    requires Behind(code, code2, loads, bare, reg) && AllPending(code, tj) && AllPending(code, fj)
      && AllPending(code, pj)
      && tj !! fj && tj !! pj && fj !! pj
    requires BothPatched(code2, code4, tj, fj, reg, |code2|, pf, pt) && reg < MAXSTACK
    requires if loads then pf == LoadAt(|code|, bare, false) && pt == LoadAt(|code|, bare, true)
      else AllValues(code, tj) && AllValues(code, fj)
    requires code == [] || !IsTest(code[|code| - 1])
    requires i < |code|
    ensures var pj2 := if loads && !bare then pj + {|code|} else pj;
      SettledRight(code, Landed(code4, pj2), tj, fj, pj, reg, |code2|, LoadAt(|code|, bare, false),
                   LoadAt(|code|, bare, true), i)
  {
    var pj2 := if loads && !bare then pj + {|code|} else pj;
    assert Landed(code4, pj2)[i] == Settled(code4, pj2, i);
    assert code4[i] == FinalAt(code2, tj, fj, reg, |code2|, pf, pt, i);
    assert HasValue(code2, i) == HasValue(code, i);
    assert i in pj ==> PendingJump(code, i);
    hide AllPending, BothPatched, PendingJump, Landed;
  }

  lemma SizesGrow(code: seq<Instr>, code2: seq<Instr>, code4: seq<Instr>, tj: set<nat>, fj: set<nat>,
                  pj: set<nat>, reg: nat, loads: bool, bare: bool, pf: int, pt: int)
    requires Behind(code, code2, loads, bare, reg) && BothPatched(code2, code4, tj, fj, reg, |code2|, pf, pt)
    requires AllPending(code, tj) && AllPending(code, fj) && AllPending(code, pj)
    ensures |code| <= |code4| && (forall j :: j in tj ==> j < |code|) && (forall j :: j in fj ==> j < |code|)
      && (forall j :: j in pj ==> j < |code|)
  {
    hide FinalAt;
    forall j | j in pj
      ensures j < |code|
    {
      assert PendingJump(code, j);
    }
  }

  lemma SettleFinal(code: seq<Instr>, code2: seq<Instr>, code4: seq<Instr>, tj: set<nat>, fj: set<nat>,
                    pj: set<nat>, reg: nat, loads: bool, bare: bool, pf: int, pt: int)
    requires Behind(code, code2, loads, bare, reg) && AllPending(code, tj) && AllPending(code, fj)
      && AllPending(code, pj)
      && tj !! fj && tj !! pj && fj !! pj
    requires BothPatched(code2, code4, tj, fj, reg, |code2|, pf, pt) && reg < MAXSTACK
    requires if loads then pf == LoadAt(|code|, bare, false) && pt == LoadAt(|code|, bare, true)
      else AllValues(code, tj) && AllValues(code, fj)
    requires code == [] || !IsTest(code[|code| - 1])
    requires bare ==> pj == {}
    ensures var pj2 := if loads && !bare then pj + {|code|} else pj;
      Final(code, Landed(code4, pj2), tj, fj, pj, reg, |code2|, LoadAt(|code|, bare, false), LoadAt(|code|, bare, true))
  {
    hide Behind, BothPatched, AllValues, PendingJump, Settled, FinishedAt, LoadAt, Target, Landed;
    var hi, final, pf', pt' := |code|, |code2|, LoadAt(|code|, bare, false), LoadAt(|code|, bare, true);
    var pj2 := if loads && !bare then pj + {hi} else pj;
    var code5 := Landed(code4, pj2);
    SizesGrow(code, code2, code4, tj, fj, pj, reg, loads, bare, pf, pt);
    hide AllPending;
    forall i | 0 <= i < hi
      ensures i in tj ==> code5[i] == JMP(Target(code, i, final, pt') as int - (i + 1))
      ensures i in fj ==> code5[i] == JMP(Target(code, i, final, pf') as int - (i + 1))
      ensures i in pj ==> code5[i] == JMP(final as int - (i + 1))
      ensures i !in tj + fj + pj ==> code5[i] == FinishedAt(code, tj + fj + pj, tj + fj, reg, i)
    {
      SettleOne(code, code2, code4, tj, fj, pj, reg, loads, bare, pf, pt, i);
    }
  }

  lemma SettleTail(code: seq<Instr>, code2: seq<Instr>, code4: seq<Instr>, tj: set<nat>, fj: set<nat>,
                   pj: set<nat>, reg: nat, loads: bool, bare: bool, pf: int, pt: int)
    requires Behind(code, code2, loads, bare, reg) && AllPending(code, tj) && AllPending(code, fj)
      && AllPending(code, pj)
    requires BothPatched(code2, code4, tj, fj, reg, |code2|, pf, pt)
    ensures var pj2 := if loads && !bare then pj + {|code|} else pj;
      Tail(code, Landed(code4, pj2), loads, bare, reg, |code2|, LoadAt(|code|, bare, false), LoadAt(|code|, bare, true))
  {
    var hi, pj2 := |code|, if loads && !bare then pj + {|code|} else pj;
    assert forall i :: i in pj ==> PendingJump(code, i);
    forall i | hi <= i < |code2|
      ensures code4[i] == code2[i] && i !in tj && i !in fj && i !in pj && i + 1 !in pj2
      ensures Landed(code4, pj2)[i] == Settled(code4, pj2, i)
    {
      assert code4[i] == FinalAt(code2, tj, fj, reg, |code2|, pf, pt, i);
    }
  }
}
