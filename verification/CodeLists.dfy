/** Jump lists: pending jumps threaded through the operands of their own instructions. */
module CodeLists {
  import opened CodeVm

  ghost predicate NoDup(q: seq<nat>) {
    forall i, j :: 0 <= i < j < |q| ==> q[i] != q[j]
  }

  function Elems(q: seq<nat>): set<nat> {
    set j | j in q
  }

  predicate IsJump(code: seq<Instr>, j: nat) {
    j < |code| && code[j].JMP?
  }

  /** lcode.c `getjump`. */
  function GetJump(code: seq<Instr>, j: nat): int
    requires IsJump(code, j)
  {
    if code[j].sbx == NO_JUMP then NO_JUMP else j + 1 + code[j].sbx
  }

  function Head(q: seq<nat>): int {
    if q == [] then NO_JUMP else q[0]
  }

  /** `q` are the jumps of the list that starts at `head`. */
  ghost predicate JumpList(code: seq<Instr>, head: int, q: seq<nat>) {
    && NoDup(q) && head == Head(q)
    && forall i :: 0 <= i < |q| ==> IsJump(code, q[i]) && GetJump(code, q[i]) == Head(q[i + 1..])
  }

  lemma ListStays(code: seq<Instr>, code': seq<Instr>, head: int, q: seq<nat>)
    requires JumpList(code, head, q) && |code| <= |code'| && forall j :: j in q ==> code'[j] == code[j]
    ensures JumpList(code', head, q)
  {
    forall i | 0 <= i < |q|
      ensures IsJump(code', q[i]) && GetJump(code', q[i]) == Head(q[i + 1..])
    {
      assert q[i] in q;
    }
  }

  lemma JoinNoDup(p: seq<nat>, q: seq<nat>)
    requires NoDup(p) && NoDup(q) && forall j :: j in p ==> j !in q
    ensures NoDup(p + q)
  {
    var r := p + q;
    forall i, j | 0 <= i < j < |r|
      ensures r[i] != r[j]
    {
      if i < |p| <= j {
        assert r[i] in p && r[j] in q;
      }
    }
  }

  lemma DistinctLast(p: seq<nat>)
    requires NoDup(p) && p != []
    ensures forall i :: 0 <= i < |p| - 1 ==> p[i] != p[|p| - 1]
  {
  }

  /** Linking the last jump of `p` to the first of `q`. */
  lemma ListJoin(code: seq<Instr>, p: seq<nat>, q: seq<nat>)
    requires p != [] && q != [] && JumpList(code, Head(p), p) && JumpList(code, Head(q), q)
    requires forall j :: j in p ==> j !in q
    ensures var l := p[|p| - 1]; JumpList(code[l := JMP(q[0] as int - (l + 1))], Head(p), p + q)
  {
    var l := p[|p| - 1];
    var code', r := code[l := JMP(q[0] as int - (l + 1))], p + q;
    assert q[0] in q && l in p;
    JoinNoDup(p, q);
    hide NoDup;
    assert forall i :: 0 <= i < |p| - 1 ==> p[i] != l by { DistinctLast(p); }
    forall i | 0 <= i < |r|
      ensures IsJump(code', r[i]) && GetJump(code', r[i]) == Head(r[i + 1..])
    {
      if i < |p| - 1 {
        assert r[i] == p[i] && p[i] != l;
        assert r[i + 1..][0] == p[i + 1..][0];
      } else if i == |p| - 1 {
        assert r[i + 1..] == q;
      } else {
        assert r[i] == q[i - |p|] && r[i] in q;
        assert r[i + 1..] == q[i - |p| + 1..];
      }
    }
  }

  // ----- Patching -----

  /** The jump is controlled by a TESTSET, so it can deliver a value. */
  predicate HasValue(code: seq<Instr>, j: nat) {
    1 <= j <= |code| && code[j - 1].TESTSET?
  }

  /** lcode.c `patchtestreg` on a TESTSET. */
  function PatchReg(i: Instr, reg: nat): Instr
    requires i.TESTSET?
  {
    if reg != NO_REG && reg != i.b then TESTSET(reg, i.b, i.c) else TEST(i.b, i.c)
  }

  function PatchOne(code: seq<Instr>, j: nat, vtarget: int, reg: nat, dtarget: int): seq<Instr>
    requires IsJump(code, j)
  {
    if HasValue(code, j) then code[j - 1 := PatchReg(code[j - 1], reg)][j := JMP(vtarget - (j + 1))]
    else code[j := JMP(dtarget - (j + 1))]
  }

  ghost predicate AllJumps(code: seq<Instr>, q: seq<nat>) {
    forall j :: j in q ==> IsJump(code, j)
  }

  lemma PatchOneJumps(code: seq<Instr>, j: nat, vtarget: int, reg: nat, dtarget: int)
    requires IsJump(code, j)
    ensures var code' := PatchOne(code, j, vtarget, reg, dtarget);
      |code'| == |code| && forall i :: IsJump(code, i) ==> IsJump(code', i)
  {
  }

  /** lcode.c `patchlistaux`. */
  function Patched(code: seq<Instr>, q: seq<nat>, vtarget: int, reg: nat, dtarget: int): seq<Instr>
    requires AllJumps(code, q)
    decreases |q|
  {
    if q == [] then code else
      var code' := PatchOne(code, q[0], vtarget, reg, dtarget);
      assert AllJumps(code', q[1..]) by { PatchOneJumps(code, q[0], vtarget, reg, dtarget); }
      Patched(code', q[1..], vtarget, reg, dtarget)
  }

  /** What position `i` becomes when the jumps `q` are patched. */
  function PatchedAt(code: seq<Instr>, q: seq<nat>, vtarget: int, reg: nat, dtarget: int, i: nat): Instr
    requires i < |code|
  {
    if i in q then JMP((if HasValue(code, i) then vtarget else dtarget) - (i + 1))
    else if i + 1 in q && code[i].TESTSET? then PatchReg(code[i], reg)
    else code[i]
  }

  lemma {:induction false} PatchedFacts(code: seq<Instr>, q: seq<nat>, vtarget: int, reg: nat, dtarget: int)
    requires AllJumps(code, q) && NoDup(q)
    ensures var code' := Patched(code, q, vtarget, reg, dtarget);
      |code'| == |code| && forall i :: 0 <= i < |code| ==> code'[i] == PatchedAt(code, q, vtarget, reg, dtarget, i)
    decreases |q|
  {
    if q != [] {
      var j, rest := q[0], q[1..];
      var code1 := PatchOne(code, j, vtarget, reg, dtarget);
      PatchOneJumps(code, j, vtarget, reg, dtarget);
      assert q == [j] + rest;
      assert j !in rest;
      PatchedFacts(code1, rest, vtarget, reg, dtarget);
      forall i | 0 <= i < |code|
        ensures PatchedAt(code1, rest, vtarget, reg, dtarget, i) == PatchedAt(code, q, vtarget, reg, dtarget, i)
      {
        if i in rest {
          assert i != j && i in q && IsJump(code, i);
          assert HasValue(code1, i) == HasValue(code, i);
        } else if i == j {
          assert code1[j].JMP?;
        }
      }
    }
  }

  /** lcode.c `removevalues`. */
  function WithoutValues(code: seq<Instr>, q: seq<nat>): (r: seq<Instr>)
    ensures |r| == |code|
    ensures forall i :: 0 <= i < |code| ==> r[i] == if i + 1 in q && code[i].TESTSET? then PatchReg(code[i], NO_REG)
      else code[i]
  {
    seq(|code|, i requires 0 <= i < |code| => if i + 1 in q && code[i].TESTSET? then PatchReg(code[i], NO_REG)
        else code[i])
  }

  /** Pending jumps: a TESTSET that controls one has no target register yet. */
  ghost predicate Pending(code: seq<Instr>, q: seq<nat>) {
    forall j :: j in q ==> IsJump(code, j) && (HasValue(code, j) ==> code[j - 1].a == NO_REG)
  }
}
