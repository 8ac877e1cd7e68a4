/** Reading a chunk, and what comes back of one that was written. In every method the ghost
    parameters name a value and the bytes behind it: if the input is what writing that value gives,
    followed by those bytes, then exactly that value is read and exactly those bytes remain. */
module Undump {
  import opened DumpFormat
  import D = Dump

  lemma Cut(a: Bytes, rest: Bytes)
    ensures (a + rest)[..|a|] == a && (a + rest)[|a|..] == rest
  {
  }

  lemma Assoc(a: Bytes, b: Bytes, c: Bytes)
    ensures a + b + c == a + (b + c)
  {
  }

  lemma ConstsHead(fmt: Format, ks: seq<Const>, i: nat)
    requires i < |ks|
    ensures EncConsts(fmt, ks[i..]) == EncConst(fmt, ks[i]) + EncConsts(fmt, ks[i + 1..])
  {
    assert ks[i..][0] == ks[i] && ks[i..][1..] == ks[i + 1..];
  }

  lemma ConstsEnd(fmt: Format, ks: seq<Const>)
    ensures EncConsts(fmt, ks[|ks|..]) == []
  {
  }

  lemma LocVarsHead(fmt: Format, vs: seq<LocVar>, i: nat)
    requires i < |vs| && LocVarsOk(fmt, vs)
    ensures EncLocVars(fmt, vs[i..]) == EncLocVar(fmt, vs[i]) + EncLocVars(fmt, vs[i + 1..])
  {
    assert vs[i..][0] == vs[i] && vs[i..][1..] == vs[i + 1..];
  }

  lemma LocVarsEnd(fmt: Format, vs: seq<LocVar>)
    ensures EncLocVars(fmt, vs[|vs|..]) == []
  {
  }

  lemma NamesHead(fmt: Format, ns: seq<Option<Bytes>>, i: nat)
    requires i < |ns|
    ensures EncNames(fmt, ns[i..]) == EncString(fmt, ns[i]) + EncNames(fmt, ns[i + 1..])
  {
    assert ns[i..][0] == ns[i] && ns[i..][1..] == ns[i + 1..];
  }

  lemma NamesEnd(fmt: Format, ns: seq<Option<Bytes>>)
    ensures EncNames(fmt, ns[|ns|..]) == []
  {
  }

  /** The code checker accepts every function of the tree. */
  predicate Accepted(check: Proto -> bool, f: Proto) {
    check(f) && forall i :: 0 <= i < |f.p| ==> Accepted(check, f.p[i])
  }

  class LoadState {
    var input: Bytes
    const fmt: Format
    /** `luaG_checkcode` is a parameter. */
    const check: Proto -> bool

    constructor (fmt: Format, input: Bytes, check: Proto -> bool)
      ensures this.fmt == fmt && this.input == input && this.check == check
    {
      this.fmt, this.input, this.check := fmt, input, check;
    }

    method LoadBlock(n: nat, ghost b: Bytes, ghost rest: Bytes) returns (ok: bool, r: Bytes)
      modifies `input
      ensures ok ==> |r| == n && |input| == |old(input)| - n
      ensures |input| <= |old(input)|
      ensures |b| == n && old(input) == b + rest ==> ok && r == b && input == rest
      ensures ok ==> r == old(input)[..n] && input == old(input)[n..]
    {
      Cut(b, rest);
      if |input| < n {
        return false, [];
      }
      r := input[..n];
      input := input[n..];
      ok := true;
    }

    method LoadChar(ghost c: Byte, ghost rest: Bytes) returns (ok: bool, r: Byte)
      modifies `input
      ensures |input| <= |old(input)|
      ensures old(input) == [c] + rest ==> ok && r == c && input == rest
    {
      var b;
      ok, b := LoadBlock(1, [c], rest);
      r := if ok then b[0] else 0;
    }

    method LoadInt(ghost x: int, ghost rest: Bytes) returns (ok: bool, r: int)
      modifies `input
      ensures |input| <= |old(input)| && (ok ==> r >= 0)
      ensures Count(x) && old(input) == EncInt(x) + rest ==> ok && r == x && input == rest
    {
      if Count(x) { IntDec(x); }
      var b;
      ok, b := LoadBlock(4, if Count(x) then EncInt(x) else [], rest);
      if !ok { return false, 0; }
      r := DecInt(b);
      ok := r >= 0;
    }

    method LoadString(ghost s: Option<Bytes>, ghost rest: Bytes) returns (ok: bool, r: Option<Bytes>)
      modifies `input
      ensures |input| <= |old(input)| && (ok && fmt.szt > 0 ==> |input| < |old(input)|)
      ensures NameOk(fmt, s) && old(input) == EncString(fmt, s) + rest ==> ok && r == s && input == rest
    {
      ghost var n := if s.None? then 0 else |s.value| + 1;
      ghost var text := if s.None? then [] else s.value + [0];
      assert EncString(fmt, s) + rest == Enc(fmt.szt, n) + (text + rest);
      if NameOk(fmt, s) { EncDec(fmt.szt, n); }
      var b;
      ok, b := LoadBlock(fmt.szt, Enc(fmt.szt, n), text + rest);
      if !ok { return false, None; }
      var size := Dec(b);
      if size == 0 {
        return true, None;
      }
      ok, b := LoadBlock(size, text, rest);
      if !ok { return false, None; }
      r := Some(b[..size - 1]);
    }

    method LoadConst(ghost c: Const, ghost rest: Bytes) returns (ok: bool, r: Const)
      modifies `input
      ensures |input| <= |old(input)|
      ensures ConstOk(fmt, c) && Pow256(fmt.szt) > 0 && old(input) == EncConst(fmt, c) + rest ==>
        ok && r == c && input == rest
    {
      ghost var body := match c
        case Nil => []
        case Boolean(b) => [EncBool(b)]
        case Number(bits) => bits
        case String(s) => EncString(fmt, Some(s));
      assert EncConst(fmt, c) + rest == [EncConst(fmt, c)[0]] + (body + rest);
      var t;
      ok, t := LoadChar(EncConst(fmt, c)[0], body + rest);
      if !ok { return false, Nil; }
      if t == 0 {
        r := Nil;
      } else if t == 1 {
        var b;
        ok, b := LoadChar(if c.Boolean? then EncBool(c.b) else 0, rest);
        r := Boolean(b != 0);
      } else if t == 3 {
        var bits;
        ok, bits := LoadBlock(fmt.nsz, if c.Number? then c.bits else [], rest);
        r := Number(bits);
      } else if t == 4 {
        var s;
        ok, s := LoadString(if c.String? then Some(c.s) else None, rest);
        r := if s.Some? then String(s.value) else Nil;
      } else {
        ok, r := false, Nil;
      }
    }

    method LoadCode(ghost code: seq<int>, ghost rest: Bytes) returns (ok: bool, r: seq<int>)
      modifies `input
      ensures |input| <= |old(input)|
      ensures Words(code) && old(input) == EncInt(|code|) + EncWords(code) + rest ==> ok && r == code && input == rest
    {
      ghost var good := Words(code) && input == EncInt(|code|) + EncWords(code) + rest;
      if good { assert input == EncInt(|code|) + (EncWords(code) + rest); }
      var n;
      r := [];
      ok, n := LoadInt(|code|, if good then EncWords(code) + rest else []);
      if !ok { return; }
      var i := 0;
      assert code[0..] == code;
      while i < n
        invariant 0 <= i <= n && |r| == i && |input| <= |old(input)|
        invariant good ==> n == |code| && r == code[..i] && input == EncWords(code[i..]) + rest
      {
        if good { assert code[i..][0] == code[i]
                 && code[i..][1..] == code[i + 1..]; WordDec(code[i]); assert input == Enc(4,
                     code[i]) + (EncWords(code[i + 1..]) + rest); }
        var b;
        ok, b := LoadBlock(4, if good then Enc(4, code[i]) else [],
                           if good then EncWords(code[i + 1..]) + rest else []);
        if !ok { return; }
        r := r + [Dec(b)];
        i := i + 1;
      }
      ok := true;
    }

    method LoadLines(ghost xs: seq<int>, ghost rest: Bytes) returns (ok: bool, r: seq<int>)
      modifies `input
      ensures |input| <= |old(input)|
      ensures Ints(xs) && old(input) == EncInt(|xs|) + EncInts(xs) + rest ==> ok && r == xs && input == rest
    {
      ghost var good := Ints(xs) && input == EncInt(|xs|) + EncInts(xs) + rest;
      if good { assert input == EncInt(|xs|) + (EncInts(xs) + rest); }
      var n;
      r := [];
      ok, n := LoadInt(|xs|, if good then EncInts(xs) + rest else []);
      if !ok { return; }
      var i := 0;
      assert xs[0..] == xs;
      while i < n
        invariant 0 <= i <= n && |r| == i && |input| <= |old(input)|
        invariant good ==> n == |xs| && r == xs[..i] && input == EncInts(xs[i..]) + rest
      {
        if good { assert xs[i..][0] == xs[i]
                 && xs[i..][1..] == xs[i + 1..]; IntDec(xs[i]); assert input ==
                     EncInt(xs[i]) + (EncInts(xs[i + 1..]) + rest); }
        var b;
        ok, b := LoadBlock(4, if good then EncInt(xs[i]) else [], if good then EncInts(xs[i + 1..]) + rest else []);
        if !ok { return; }
        r := r + [DecInt(b)];
        i := i + 1;
      }
      ok := true;
    }

    method LoadConsts(ghost ks: seq<Const>, ghost rest: Bytes) returns (ok: bool, r: seq<Const>)
      modifies `input
      ensures |input| <= |old(input)|
      ensures Consts(fmt, ks) && old(input) == EncInt(|ks|) + EncConsts(fmt, ks) + rest ==>
        ok && r == ks && input == rest
    {
      hide EncConst, EncConsts, EncInt, ConstOk;
      ghost var good := Consts(fmt, ks) && input == EncInt(|ks|) + EncConsts(fmt, ks) + rest;
      if good { Assoc(EncInt(|ks|), EncConsts(fmt, ks), rest); }
      var n;
      r := [];
      ok, n := LoadInt(|ks|, EncConsts(fmt, ks) + rest);
      if !ok { return; }
      var i := 0;
      assert ks[0..] == ks;
      while i < n
        invariant 0 <= i <= n && |r| == i && |input| <= |old(input)|
        invariant good ==> n == |ks| && r == ks[..i] && input == EncConsts(fmt, ks[i..]) + rest
      {
        if good { ConstsHead(fmt, ks, i); Assoc(EncConst(fmt, ks[i]), EncConsts(fmt, ks[i + 1..]), rest); }
        var c;
        ok, c := LoadConst(if good then ks[i] else Nil, if good then EncConsts(fmt, ks[i + 1..]) + rest else []);
        if !ok { return; }
        r := r + [c];
        i := i + 1;
      }
      ConstsEnd(fmt, ks);
      ok := true;
    }

    method LoadLocVar(ghost v: LocVar, ghost rest: Bytes) returns (ok: bool, r: LocVar)
      modifies `input
      ensures |input| <= |old(input)|
      ensures LocVarOk(fmt, v) && old(input) == EncLocVar(fmt, v) + rest ==> ok && r == v && input == rest
    {
      ghost var good := LocVarOk(fmt, v) && input == EncLocVar(fmt, v) + rest;
      r := LocVar(None, 0, 0);
      if good { assert input == EncString(fmt, v.name) + (EncInt(v.startpc) + (EncInt(v.endpc) + rest)); }
      var name, startpc, endpc;
      ok, name := LoadString(v.name, if good then EncInt(v.startpc) + (EncInt(v.endpc) + rest) else []);
      if !ok { return; }
      ok, startpc := LoadInt(v.startpc, if good then EncInt(v.endpc) + rest else []);
      if !ok { return; }
      ok, endpc := LoadInt(v.endpc, rest);
      r := LocVar(name, startpc, endpc);
    }

    method LoadLocVars(ghost vs: seq<LocVar>, ghost rest: Bytes) returns (ok: bool, r: seq<LocVar>)
      modifies `input
      ensures |input| <= |old(input)|
      ensures LocVarsOk(fmt, vs) && old(input) == EncInt(|vs|) + EncLocVars(fmt, vs) + rest ==>
        ok && r == vs && input == rest
    {
      hide EncLocVar, EncLocVars, EncInt, LocVarOk;
      ghost var good := LocVarsOk(fmt, vs) && input == EncInt(|vs|) + EncLocVars(fmt, vs) + rest;
      if good { Assoc(EncInt(|vs|), EncLocVars(fmt, vs), rest); }
      var n;
      r := [];
      ok, n := LoadInt(|vs|, if good then EncLocVars(fmt, vs) + rest else []);
      if !ok { return; }
      var i := 0;
      assert vs[0..] == vs;
      while i < n
        invariant 0 <= i <= n && |r| == i && |input| <= |old(input)|
        invariant good ==> n == |vs| && r == vs[..i] && input == EncLocVars(fmt, vs[i..]) + rest
      {
        if good { LocVarsHead(fmt, vs, i); Assoc(EncLocVar(fmt, vs[i]), EncLocVars(fmt, vs[i + 1..]), rest); }
        var v;
        ok, v := LoadLocVar(if good then vs[i] else LocVar(None, 0, 0),
                            if good then EncLocVars(fmt, vs[i + 1..]) + rest else []);
        if !ok { return; }
        r := r + [v];
        i := i + 1;
      }
      LocVarsEnd(fmt, vs);
      ok := true;
    }

    method LoadNames(ghost ns: seq<Option<Bytes>>, ghost rest: Bytes) returns (ok: bool, r: seq<Option<Bytes>>)
      modifies `input
      ensures |input| <= |old(input)|
      ensures NamesOk(fmt, ns) && old(input) == EncInt(|ns|) + EncNames(fmt, ns) + rest ==>
        ok && r == ns && input == rest
    {
      hide EncString, EncNames, EncInt, NameOk;
      ghost var good := NamesOk(fmt, ns) && input == EncInt(|ns|) + EncNames(fmt, ns) + rest;
      if good { Assoc(EncInt(|ns|), EncNames(fmt, ns), rest); }
      var n;
      r := [];
      ok, n := LoadInt(|ns|, EncNames(fmt, ns) + rest);
      if !ok { return; }
      var i := 0;
      assert ns[0..] == ns;
      while i < n
        invariant 0 <= i <= n && |r| == i && |input| <= |old(input)|
        invariant good ==> n == |ns| && r == ns[..i] && input == EncNames(fmt, ns[i..]) + rest
      {
        if good { NamesHead(fmt, ns, i); Assoc(EncString(fmt, ns[i]), EncNames(fmt, ns[i + 1..]), rest); }
        var s;
        ok, s := LoadString(if good then ns[i] else None, if good then EncNames(fmt, ns[i + 1..]) + rest else []);
        if !ok { return; }
        r := r + [s];
        i := i + 1;
      }
      NamesEnd(fmt, ns);
      ok := true;
    }

    method LoadDebug(ghost f: Proto, ghost rest: Bytes)
      returns (ok: bool, lineinfo: seq<int>, locvars: seq<LocVar>, upvalues: seq<Option<Bytes>>)
      modifies `input
      ensures |input| <= |old(input)|
      ensures ProtoOk(fmt, f) && old(input) == EncDebug(fmt, f) + rest ==>
        ok && lineinfo == f.lineinfo && locvars == f.locvars && upvalues == f.upvalues && input == rest
    {
      ghost var good := ProtoOk(fmt, f) && input == EncDebug(fmt, f) + rest;
      ghost var a, b, c: Bytes := [], [], [];
      if good {
        a, b, c := EncInt(|f.lineinfo|) + EncInts(f.lineinfo), EncInt(|f.locvars|) + EncLocVars(fmt,
            f.locvars), EncInt(|f.upvalues|) + EncNames(fmt, f.upvalues);
        Debugged(fmt, f, rest);
      }
      hide EncInt, EncInts, EncLocVars, EncNames, EncDebug;
      lineinfo, locvars, upvalues := [], [], [];
      ok, lineinfo := LoadLines(f.lineinfo, b + (c + rest));
      if !ok { return; }
      ok, locvars := LoadLocVars(f.locvars, c + rest);
      if !ok { return; }
      ok, upvalues := LoadNames(f.upvalues, rest);
    }

    method LoadFirst(lp: Option<Bytes>, ghost f: Proto, ghost fp: Option<Bytes>, ghost strip: bool, ghost rest: Bytes)
      returns (ok: bool, r: Proto)
      requires fmt.szt > 0
      modifies `input
      ensures |input| <= |old(input)| && (ok ==> |input| < |old(input)|)
      ensures ProtoOk(fmt, f) && old(input) == EncFirst(fmt, f, fp, strip) + rest ==>
        ok && input == rest && r == Proto(LoadedSource(f, fp, lp, strip), f.linedefined, f.lastlinedefined, f.nups,
                                          f.numparams, f.isVararg, f.maxstacksize, [], [], [], [], [], [])
    {
      ghost var name := if f.source == fp || strip then None else f.source;
      ghost var good := ProtoOk(fmt, f) && input == EncFirst(fmt, f, fp, strip) + rest;
      ghost var tail := [f.nups] + ([f.numparams] + ([f.isVararg] + ([f.maxstacksize] + rest)));
      if good { assert input == EncString(fmt, name) + (EncInt(f.linedefined) + (EncInt(f.lastlinedefined) + tail)); }
      hide EncString, EncFirst;
      r := Proto(None, 0, 0, 0, 0, 0, 0, [], [], [], [], [], []);
      var src, line, last, nups, numparams, isVararg, maxstack;
      ok, src := LoadString(name, if good then EncInt(f.linedefined) + (EncInt(f.lastlinedefined) + tail) else []);
      if !ok { return; }
      if src.None? { src := lp; }
      ok, line := LoadInt(f.linedefined, if good then EncInt(f.lastlinedefined) + tail else []);
      if !ok { return; }
      ok, last := LoadInt(f.lastlinedefined, tail);
      if !ok { return; }
      ok, nups := LoadChar(f.nups, [f.numparams] + ([f.isVararg] + ([f.maxstacksize] + rest)));
      if !ok { return; }
      ok, numparams := LoadChar(f.numparams, [f.isVararg] + ([f.maxstacksize] + rest));
      if !ok { return; }
      ok, isVararg := LoadChar(f.isVararg, [f.maxstacksize] + rest);
      if !ok { return; }
      ok, maxstack := LoadChar(f.maxstacksize, rest);
      if !ok { return; }
      r := Proto(src, line, last, nups, numparams, isVararg, maxstack, [], [], [], [], [], []);
    }

    /** The nested functions in lundump.c `LoadConstants`. */
    method LoadProtos(src: Option<Bytes>, ghost f: Proto, ghost strip: bool, ghost rest: Bytes)
      returns (ok: bool, r: seq<Proto>)
      requires fmt.szt > 0
      modifies `input
      ensures |input| <= |old(input)|
      ensures ProtosNext(check, fmt, f, src, strip, old(input), rest) ==>
        ok && input == rest && |r| == |f.p| && forall i :: 0 <= i < |f.p| ==> r[i] == Loaded(f.p[i], f.source, src,
            strip)
      ensures ok ==> forall i :: 0 <= i < |r| ==> Accepted(check, r[i])
      decreases |input|, 3
    {
      hide ProtosNext, EncInt, ProtoOk, EncFunction, EncProtos, Loaded, Accepted, ChildrenAccepted;
      ghost var good := ProtosNext(check, fmt, f, src, strip, input, rest);
      if good { ProtosFacts(check, fmt, f, src, strip, input, rest); }
      var n;
      r := [];
      ok, n := LoadInt(|f.p|, if good then EncProtos(fmt, f, 0, strip) + rest else []);
      if !ok { return; }
      var i := 0;
      while i < n
        invariant 0 <= i <= n && |r| == i && |input| <= |old(input)|
        invariant good ==> ProtoOk(fmt, f) && n == |f.p| && input == EncProtos(fmt, f, i, strip) + rest
        invariant good ==> forall j :: 0 <= j < i ==> r[j] == Loaded(f.p[j], f.source, src, strip)
        invariant forall j :: 0 <= j < i ==> Accepted(check, r[j])
      {
        ghost var hint, left := f, rest;
        if good {
          hint, left := f.p[i], EncProtos(fmt, f, i + 1, strip) + rest;
          ChildNext(check, fmt, f, src, strip, i, rest);
        }
        var g;
        ok, g := LoadFunction(src, hint, f.source, strip, left);
        if !ok { return; }
        r := r + [g];
        i := i + 1;
      }
      if good { ProtosEnd(fmt, f, strip); }
      ok := true;
    }

    /** lundump.c `LoadFunction`. */
    method LoadFunction(lp: Option<Bytes>, ghost f: Proto, ghost fp: Option<Bytes>, ghost strip: bool,
                        ghost rest: Bytes) returns (ok: bool, r: Proto)
      requires fmt.szt > 0
      modifies `input
      ensures |input| <= |old(input)| && (ok ==> |input| < |old(input)|)
      ensures (&& ProtoOk(fmt, f) && Accepted(check, Loaded(f, fp, lp, strip))
               && old(input) == EncFunction(fmt, f, fp, strip) + rest) ==>
        ok && r == Loaded(f, fp, lp, strip) && input == rest
      ensures ok ==> Accepted(check, r)
      decreases |input|, 2
    {
      ghost var good := ProtoOk(fmt, f) && Accepted(check, Loaded(f, fp, lp, strip)) && input == EncFunction(fmt, f, fp,
          strip) + rest;
      ghost var b, ks, ps, d: Bytes := [], [], [], [];
      if good {
        BareOk(fmt, f, strip);
        b, ks, ps, d := EncCode(fmt, f), EncInt(|f.k|) + EncConsts(fmt, f.k), EncInt(|f.p|) + EncProtos(fmt, f, 0,
            strip), EncDebug(fmt, Bare(f, strip));
        FunctionParts(fmt, f, fp, strip, rest);
        PartsOk(fmt, f);
        AcceptedParts(check, f, fp, lp, strip);
      }
      hide EncFirst, EncInt, EncConsts, EncProtos, EncDebug, EncFunction, EncWords, Accepted, ProtoOk;
      ok, r := LoadFirst(lp, f, fp, strip, b + (ks + (ps + (d + rest))));
      if !ok { return; }
      var code, k, p, lineinfo, locvars, upvalues;
      ok, code := LoadCode(f.code, ks + (ps + (d + rest)));
      if !ok { return; }
      ok, k := LoadConsts(f.k, ps + (d + rest));
      if !ok { return; }
      ok, p := LoadProtos(r.source, f, strip, d + rest);
      if !ok { return; }
      ok, lineinfo, locvars, upvalues := LoadDebug(Bare(f, strip), rest);
      if !ok { return; }
      r := r.(code := code, k := k, p := p, lineinfo := lineinfo, locvars := locvars, upvalues := upvalues);
      if good { Assembled(f, fp, lp, strip, r); }
      ok := check(r);
      if ok { AllAccepted(check, r); }
    }

    /** lundump.c `luaU_undump`: a chunk with another header, or with a function that the code checker does not
        accept, is refused. */
    method UndumpChunk(ghost f: Proto, ghost strip: bool) returns (ok: bool, r: Proto)
      requires 0 < fmt.szt < 256 && fmt.nsz < 256
      modifies `input
      ensures (&& ProtoOk(fmt, f) && Accepted(check, Loaded(f, None, Some(Unknown), strip))
               && old(input) == Header(fmt) + EncFunction(fmt, f, None, strip)) ==>
        ok && r == Loaded(f, None, Some(Unknown), strip)
      ensures ok ==> |old(input)| > 12 && old(input)[..12] == Header(fmt) && Accepted(check, r)
    {
      ghost var body := if ProtoOk(fmt, f) then EncFunction(fmt, f, None, strip) else [];
      var h;
      ok, h := LoadBlock(|Header(fmt)|, Header(fmt), body);
      r := Proto(None, 0, 0, 0, 0, 0, 0, [], [], [], [], [], []);
      if !ok || h != Header(fmt) { return false, r; }
      assert body + [] == body;
      ok, r := LoadFunction(Some(Unknown), f, None, strip, []);
    }
  }

  // ----- Parts -----

  predicate ChildrenAccepted(check: Proto -> bool, f: Proto, src: Option<Bytes>, strip: bool) {
    forall i :: 0 <= i < |f.p| ==> Accepted(check, Loaded(f.p[i], f.source, src, strip))
  }

  /** The input holds the nested functions of `f`. */
  ghost predicate ProtosNext(check: Proto -> bool, fmt: Format, f: Proto, src: Option<Bytes>, strip: bool, input: Bytes,
                             rest: Bytes) {
    ProtoOk(fmt, f) && ChildrenAccepted(check, f, src, strip) && input == EncInt(|f.p|) + EncProtos(fmt, f, 0,
        strip) + rest
  }

  lemma ProtosFacts(check: Proto -> bool, fmt: Format, f: Proto, src: Option<Bytes>, strip: bool, input: Bytes,
                    rest: Bytes)
    requires ProtosNext(check, fmt, f, src, strip, input, rest)
    ensures ProtoOk(fmt, f) && Count(|f.p|) && ChildrenAccepted(check, f, src, strip)
      && input == EncInt(|f.p|) + (EncProtos(fmt, f, 0, strip) + rest)
  {
    assert Count(|f.p|);
    hide ProtoOk, EncProtos, EncInt;
    Assoc(EncInt(|f.p|), EncProtos(fmt, f, 0, strip), rest);
  }

  lemma ChildNext(check: Proto -> bool, fmt: Format, f: Proto, src: Option<Bytes>, strip: bool, i: nat, rest: Bytes)
    requires ProtoOk(fmt, f) && ChildrenAccepted(check, f, src, strip) && i < |f.p|
    ensures ProtoOk(fmt, f.p[i]) && Accepted(check, Loaded(f.p[i], f.source, src, strip))
    ensures EncProtos(fmt, f, i, strip) + rest == EncFunction(fmt, f.p[i], f.source,
                                                              strip) + (EncProtos(fmt, f, i + 1, strip) + rest)
  {
    hide EncFunction, Loaded, Accepted;
    ChildOk(fmt, f, i);
    ProtosHead(fmt, f, i, strip);
    hide EncProtos, ProtoOk;
    Assoc(EncFunction(fmt, f.p[i], f.source, strip), EncProtos(fmt, f, i + 1, strip), rest);
  }

  lemma Debugged(fmt: Format, f: Proto, rest: Bytes)
    requires ProtoOk(fmt, f)
    ensures Ints(f.lineinfo) && LocVarsOk(fmt, f.locvars) && NamesOk(fmt, f.upvalues)
    ensures var a, b, c := EncInt(|f.lineinfo|) + EncInts(f.lineinfo), EncInt(|f.locvars|) + EncLocVars(fmt,
        f.locvars), EncInt(|f.upvalues|) + EncNames(fmt, f.upvalues);
      EncDebug(fmt, f) + rest == a + (b + (c + rest))
  {
    var a, b, c := EncInt(|f.lineinfo|) + EncInts(f.lineinfo), EncInt(|f.locvars|) + EncLocVars(fmt,
        f.locvars), EncInt(|f.upvalues|) + EncNames(fmt, f.upvalues);
    assert EncDebug(fmt, f) == a + b + c;
    hide EncInt, EncInts, EncLocVars, EncNames, EncDebug, ProtoOk;
    Assoc(a + b, c, rest);
    Assoc(a, b, c + rest);
  }

  lemma FunctionParts(fmt: Format, f: Proto, fp: Option<Bytes>, strip: bool, rest: Bytes)
    requires ProtoOk(fmt, f) && ProtoOk(fmt, Bare(f, strip))
    ensures var b, ks, ps, d := EncCode(fmt, f), EncInt(|f.k|) + EncConsts(fmt, f.k), EncInt(|f.p|) + EncProtos(fmt, f,
        0, strip), EncDebug(fmt, Bare(f, strip));
      EncFunction(fmt, f, fp, strip) + rest == EncFirst(fmt, f, fp, strip) + (b + (ks + (ps + (d + rest))))
  {
    assert Count(|f.k|) && Count(|f.p|);
    hide EncFirst, EncInt, EncConsts, EncProtos, EncDebug, EncWords, ProtoOk, EncCode, Bare;
    Assoc(EncInt(|f.k|) + EncConsts(fmt, f.k), EncInt(|f.p|), EncProtos(fmt, f, 0, strip));
    Regroup(EncFirst(fmt, f, fp, strip), EncCode(fmt, f), EncInt(|f.k|) + EncConsts(fmt, f.k),
            EncInt(|f.p|) + EncProtos(fmt, f, 0, strip), EncDebug(fmt, Bare(f, strip)), rest);
  }

  lemma Regroup(a: Bytes, b: Bytes, ks: Bytes, ps: Bytes, d: Bytes, rest: Bytes)
    ensures a + b + (ks + ps) + d + rest == a + (b + (ks + (ps + (d + rest))))
  {
    Assoc(a + b + (ks + ps), d, rest);
    Assoc(a + b, ks + ps, d + rest);
    Assoc(ks, ps, d + rest);
    Assoc(a, b, ks + (ps + (d + rest)));
  }

  lemma PartsOk(fmt: Format, f: Proto)
    requires ProtoOk(fmt, f)
    ensures Words(f.code) && Consts(fmt, f.k) && EncCode(fmt, f) == EncInt(|f.code|) + EncWords(f.code)
  {
  }

  lemma AcceptedParts(check: Proto -> bool, f: Proto, fp: Option<Bytes>, lp: Option<Bytes>, strip: bool)
    requires Accepted(check, Loaded(f, fp, lp, strip))
    ensures check(Loaded(f, fp, lp, strip)) && ChildrenAccepted(check, f, LoadedSource(f, fp, lp, strip), strip)
  {
    var g := Loaded(f, fp, lp, strip);
    forall i | 0 <= i < |f.p|
      ensures Accepted(check, Loaded(f.p[i], f.source, LoadedSource(f, fp, lp, strip), strip))
    {
      assert g.p[i] == Loaded(f.p[i], f.source, LoadedSource(f, fp, lp, strip), strip);
    }
  }

  lemma AllAccepted(check: Proto -> bool, f: Proto)
    requires check(f) && forall i :: 0 <= i < |f.p| ==> Accepted(check, f.p[i])
    ensures Accepted(check, f)
  {
  }

  lemma Assembled(f: Proto, fp: Option<Bytes>, lp: Option<Bytes>, strip: bool, r: Proto)
    requires var src := LoadedSource(f, fp, lp, strip);
      && r == Proto(src, f.linedefined, f.lastlinedefined, f.nups, f.numparams, f.isVararg, f.maxstacksize, f.code, f.k,
                    r.p,
                    Bare(f, strip).lineinfo, Bare(f, strip).locvars, Bare(f, strip).upvalues)
      && |r.p| == |f.p| && forall i :: 0 <= i < |f.p| ==> r.p[i] == Loaded(f.p[i], f.source, src, strip)
    ensures r == Loaded(f, fp, lp, strip)
  {
    assert r.p == Loaded(f, fp, lp, strip).p;
  }

  predicate Words(ws: seq<int>) {
    Count(|ws|) && forall i :: 0 <= i < |ws| ==> 0 <= ws[i] < WORD
  }

  predicate Ints(xs: seq<int>) {
    Count(|xs|) && forall i :: 0 <= i < |xs| ==> IsInt(xs[i])
  }

  predicate Consts(fmt: Format, ks: seq<Const>) {
    Pow256(fmt.szt) > 0 && Count(|ks|) && forall i :: 0 <= i < |ks| ==> ConstOk(fmt, ks[i])
  }

  predicate LocVarsOk(fmt: Format, vs: seq<LocVar>) {
    Count(|vs|) && forall i :: 0 <= i < |vs| ==> LocVarOk(fmt, vs[i])
  }

  predicate NamesOk(fmt: Format, ns: seq<Option<Bytes>>) {
    Count(|ns|) && forall i :: 0 <= i < |ns| ==> NameOk(fmt, ns[i])
  }

  /** Writing a chunk and reading it back: a tree in which every function is named comes back the
      same, and exactly such a tree; a stripped one comes back without what was stripped. */
  method RoundTrip(fmt: Format, f: Proto, strip: bool, check: Proto -> bool) returns (ok: bool, r: Proto)
    requires ProtoOk(fmt, f) && 0 < fmt.szt < 256 && fmt.nsz < 256
      && Accepted(check, Loaded(f, None, Some(Unknown), strip))
    ensures ok && r == Loaded(f, None, Some(Unknown), strip)
    ensures !strip ==> (r == f <==> Named(f))
    ensures strip ==> r == Stripped(f, Some(Unknown))
  {
    var d := new D.DumpState(fmt, strip, _ => 0);
    d.DumpChunk(f);
    var l := new LoadState(fmt, d.out, check);
    ok, r := l.UndumpChunk(f, strip);
    if strip {
      LoadedStripped(f, None, Some(Unknown));
    } else {
      LoadedSame(f, None, Some(Unknown));
    }
  }
}
