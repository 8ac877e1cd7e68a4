/** Writing a chunk. */
module Dump {
  import opened DumpFormat

  class DumpState {
    var out: Bytes
    var status: int
    /** Calls of the writer so far; the writer is a parameter that may fail at any call. */
    var calls: nat
    const writer: nat -> int
    const strip: bool
    const fmt: Format

    constructor (fmt: Format, strip: bool, writer: nat -> int)
      ensures this.writer == writer && this.fmt == fmt && this.strip == strip && status == 0 && out == []
    {
      this.fmt, this.strip, this.writer := fmt, strip, writer;
      out, status, calls := [], 0, 0;
    }

    /** After a step that wrote `b` unless the writer failed. */
    twostate predicate Wrote(b: Bytes)
      reads this
    {
      && old(out) <= out && (old(status) != 0 ==> out == old(out) && status == old(status))
      && (status == 0 ==> old(status) == 0 && out == old(out) + b)
      && (old(status) == 0 && (forall n :: writer(n) == 0) ==> status == 0)
    }

    method DumpBlock(b: Bytes)
      modifies `out, `status, `calls
      ensures Wrote(b)
    {
      if status == 0 {
        out := out + b;
        status := writer(calls);
        calls := calls + 1;
      }
    }

    method DumpChar(y: Byte)
      modifies `out, `status, `calls
      ensures Wrote([y])
    {
      DumpBlock([y]);
    }

    method DumpInt(x: int)
      requires IsInt(x)
      modifies `out, `status, `calls
      ensures Wrote(EncInt(x))
    {
      DumpBlock(EncInt(x));
    }

    method DumpString(s: Option<Bytes>)
      modifies `out, `status, `calls
      ensures Wrote(EncString(fmt, s))
    {
      if s.None? {
        DumpBlock(Enc(fmt.szt, 0));
      } else {
        DumpBlock(Enc(fmt.szt, |s.value| + 1));
        DumpBlock(s.value + [0]);
      }
    }

    method DumpConst(c: Const)
      modifies `out, `status, `calls
      ensures Wrote(EncConst(fmt, c))
    {
      hide EncString;
      match c
      case Nil =>
        DumpChar(0);
      case Boolean(b) =>
        DumpChar(1);
        DumpChar(EncBool(b));
      case Number(bits) =>
        Tagged(out, 3, bits);
        DumpChar(3);
        DumpBlock(bits);
      case String(s) =>
        Tagged(out, 4, EncString(fmt, Some(s)));
        DumpChar(4);
        DumpString(Some(s));
    }

    method DumpCode(f: Proto)
      requires ProtoOk(fmt, f)
      modifies `out, `status, `calls
      ensures Wrote(EncCode(fmt, f))
    {
      DumpInt(|f.code|);
      DumpBlock(EncWords(f.code));
    }

    method DumpConsts(ks: seq<Const>)
      modifies `out, `status, `calls
      ensures Wrote(EncConsts(fmt, ks))
    {
      var i := 0;
      assert ks[0..] == ks;
      while i < |ks|
        invariant 0 <= i <= |ks| && Progress(writer, old(out), old(status), out, status, EncConsts(fmt, ks),
                                             EncConsts(fmt, ks[i..]))
      {
        ghost var before := out;
        assert ks[i..] == [ks[i]] + ks[i + 1..];
        DumpConst(ks[i]);
        Step(before, out, EncConst(fmt, ks[i]), EncConsts(fmt, ks[i + 1..]));
        i := i + 1;
      }
    }

    method DumpProtos(f: Proto)
      requires ProtoOk(fmt, f)
      modifies `out, `status, `calls
      ensures Wrote(EncProtos(fmt, f, 0, strip))
      decreases f, 1
    {
      hide ProtoOk, EncFunction, EncProtos;
      ProtosEnd(fmt, f, strip);
      var i := 0;
      while i < |f.p|
        invariant 0 <= i <= |f.p| && Progress(writer, old(out), old(status), out, status, EncProtos(fmt, f, 0, strip),
                                              EncProtos(fmt, f, i, strip))
      {
        ghost var before := out;
        ChildOk(fmt, f, i);
        ProtosHead(fmt, f, i, strip);
        DumpFunction(f.p[i], f.source);
        Step(before, out, EncFunction(fmt, f.p[i], f.source, strip), EncProtos(fmt, f, i + 1, strip));
        i := i + 1;
      }
    }

    method DumpConstants(f: Proto)
      requires ProtoOk(fmt, f)
      modifies `out, `status, `calls
      ensures Wrote(EncConstants(fmt, f, strip))
      decreases f, 2
    {
      ghost var o0, a, b, c, d := out, EncInt(|f.k|), EncConsts(fmt, f.k), EncInt(|f.p|), EncProtos(fmt, f, 0, strip);
      assert EncConstants(fmt, f, strip) == a + b + c + d;
      assert Count(|f.k|) && Count(|f.p|);
      hide EncConsts, EncProtos, EncConstants, ProtoOk, EncInt;
      DumpInt(|f.k|);
      DumpConsts(f.k);
      assert status == 0 ==> out == o0 + (a + b) by { Join3(o0, a, b); }
      DumpInt(|f.p|);
      assert status == 0 ==> out == o0 + (a + b + c) by { Join3(o0, a + b, c); }
      DumpProtos(f);
      assert status == 0 ==> out == o0 + (a + b + c + d) by { Join3(o0, a + b + c, d); }
    }

    method DumpLocVars(vs: seq<LocVar>)
      requires forall i :: 0 <= i < |vs| ==> LocVarOk(fmt, vs[i])
      modifies `out, `status, `calls
      ensures Wrote(EncLocVars(fmt, vs))
    {
      var i := 0;
      assert vs[0..] == vs;
      while i < |vs|
        invariant 0 <= i <= |vs| && Progress(writer, old(out), old(status), out, status, EncLocVars(fmt, vs),
                                             EncLocVars(fmt, vs[i..]))
      {
        ghost var before := out;
        assert vs[i..] == [vs[i]] + vs[i + 1..];
        DumpLocVar(vs[i]);
        Step(before, out, EncLocVar(fmt, vs[i]), EncLocVars(fmt, vs[i + 1..]));
        i := i + 1;
      }
    }

    method DumpLocVar(v: LocVar)
      requires LocVarOk(fmt, v)
      modifies `out, `status, `calls
      ensures Wrote(EncLocVar(fmt, v))
    {
      DumpString(v.name);
      DumpInt(v.startpc);
      DumpInt(v.endpc);
    }

    method DumpNames(ns: seq<Option<Bytes>>)
      modifies `out, `status, `calls
      ensures Wrote(EncNames(fmt, ns))
    {
      var i := 0;
      assert ns[0..] == ns;
      while i < |ns|
        invariant 0 <= i <= |ns| && Progress(writer, old(out), old(status), out, status, EncNames(fmt, ns),
                                             EncNames(fmt, ns[i..]))
      {
        ghost var before := out;
        assert ns[i..] == [ns[i]] + ns[i + 1..];
        DumpString(ns[i]);
        Step(before, out, EncString(fmt, ns[i]), EncNames(fmt, ns[i + 1..]));
        i := i + 1;
      }
    }

    method DumpLines(lineinfo: seq<int>)
      requires Count(|lineinfo|) && forall i :: 0 <= i < |lineinfo| ==> IsInt(lineinfo[i])
      modifies `out, `status, `calls
      ensures Wrote(EncInt(|lineinfo|) + EncInts(lineinfo))
    {
      hide EncInts, EncInt;
      Join3(out, EncInt(|lineinfo|), EncInts(lineinfo));
      DumpInt(|lineinfo|);
      DumpBlock(EncInts(lineinfo));
    }

    method DumpLocals(locvars: seq<LocVar>)
      requires Count(|locvars|) && forall i :: 0 <= i < |locvars| ==> LocVarOk(fmt, locvars[i])
      modifies `out, `status, `calls
      ensures Wrote(EncInt(|locvars|) + EncLocVars(fmt, locvars))
    {
      hide EncLocVars, EncInt;
      Join3(out, EncInt(|locvars|), EncLocVars(fmt, locvars));
      DumpInt(|locvars|);
      DumpLocVars(locvars);
    }

    method DumpUpvalues(upvalues: seq<Option<Bytes>>)
      requires Count(|upvalues|)
      modifies `out, `status, `calls
      ensures Wrote(EncInt(|upvalues|) + EncNames(fmt, upvalues))
    {
      hide EncNames, EncInt;
      Join3(out, EncInt(|upvalues|), EncNames(fmt, upvalues));
      DumpInt(|upvalues|);
      DumpNames(upvalues);
    }

    method DumpDebug(f: Proto)
      requires ProtoOk(fmt, f)
      modifies `out, `status, `calls
      ensures ProtoOk(fmt, Bare(f, strip)) && Wrote(EncDebug(fmt, Bare(f, strip)))
    {
      BareOk(fmt, f, strip);
      var lineinfo, locvars, upvalues := f.lineinfo, f.locvars, f.upvalues;
      if strip { lineinfo, locvars, upvalues := [], [], []; }
      ghost var o0, a, b, c := out, EncInt(|lineinfo|) + EncInts(lineinfo), EncInt(|locvars|) + EncLocVars(fmt,
          locvars), EncInt(|upvalues|) + EncNames(fmt, upvalues);
      DebugParts(fmt, Bare(f, strip));
      hide EncInts, EncLocVars, EncNames, EncDebug, ProtoOk, EncInt;
      DumpLines(lineinfo);
      DumpLocals(locvars);
      assert status == 0 ==> out == o0 + (a + b) by { Join3(o0, a, b); }
      DumpUpvalues(upvalues);
      assert status == 0 ==> out == o0 + (a + b + c) by { Join3(o0, a + b, c); }
    }

    method DumpBytes(f: Proto)
      modifies `out, `status, `calls
      ensures Wrote([f.nups, f.numparams, f.isVararg, f.maxstacksize])
    {
      DumpChar(f.nups);
      DumpChar(f.numparams);
      DumpChar(f.isVararg);
      DumpChar(f.maxstacksize);
    }

    method DumpFirst(f: Proto, p: Option<Bytes>)
      requires ProtoOk(fmt, f)
      modifies `out, `status, `calls
      ensures Wrote(EncFirst(fmt, f, p, strip))
    {
      ghost var name := if f.source == p || strip then None else f.source;
      ghost var o0, a, b, c := out, EncString(fmt, name), EncInt(f.linedefined), EncInt(f.lastlinedefined);
      assert EncFirst(fmt, f, p, strip) == a + b + c + [f.nups, f.numparams, f.isVararg, f.maxstacksize];
      hide EncString, EncInt, EncFirst, ProtoOk;
      DumpString(if f.source == p || strip then None else f.source);
      DumpInt(f.linedefined);
      assert status == 0 ==> out == o0 + (a + b) by { Join3(o0, a, b); }
      DumpInt(f.lastlinedefined);
      assert status == 0 ==> out == o0 + (a + b + c) by { Join3(o0, a + b, c); }
      DumpBytes(f);
      assert status == 0 ==> out == o0 + (a + b + c + [f.nups, f.numparams, f.isVararg, f.maxstacksize]) by { Join3(o0,
          a + b + c, [f.nups, f.numparams, f.isVararg, f.maxstacksize]); }
    }

    /** ldump.c `DumpFunction`. */
    method DumpFunction(f: Proto, p: Option<Bytes>)
      requires ProtoOk(fmt, f)
      modifies `out, `status, `calls
      ensures Wrote(EncFunction(fmt, f, p, strip))
      decreases f, 3
    {
      BareOk(fmt, f, strip);
      hide EncFirst, EncCode, EncConstants, EncDebug, ProtoOk, Bare;
      ghost var o0, a, b := out, EncFirst(fmt, f, p, strip), EncCode(fmt, f);
      ghost var c, d := EncConstants(fmt, f, strip), EncDebug(fmt, Bare(f, strip));
      assert EncFunction(fmt, f, p, strip) == a + b + c + d;
      DumpFirst(f, p);
      DumpCode(f);
      assert status == 0 ==> out == o0 + (a + b) by { Join3(o0, a, b); }
      DumpConstants(f);
      assert status == 0 ==> out == o0 + (a + b + c) by { Join3(o0, a + b, c); }
      DumpDebug(f);
      assert status == 0 ==> out == o0 + (a + b + c + d) by { Join3(o0, a + b + c, d); }
    }

    /** ldump.c `luaU_dump`. */
    method DumpChunk(f: Proto)
      requires ProtoOk(fmt, f) && fmt.szt < 256 && fmt.nsz < 256 && status == 0 && out == []
      modifies `out, `status, `calls
      ensures status == 0 ==> out == Header(fmt) + EncFunction(fmt, f, None, strip)
      ensures (forall n :: writer(n) == 0) ==> status == 0
    {
      DumpBlock(Header(fmt));
      DumpFunction(f, None);
    }
  }

  /** In a loop: what has been written and what is left make up the whole. */
  ghost predicate Progress(writer: nat -> int, out0: Bytes, status0: int, out: Bytes, status: int, all: Bytes,
                           left: Bytes) {
    && out0 <= out && (status0 != 0 ==> out == out0 && status == status0)
    && (status == 0 ==> status0 == 0 && out + left == out0 + all)
    && (status0 == 0 && (forall n :: writer(n) == 0) ==> status == 0)
  }

  lemma Step(before: Bytes, out: Bytes, b: Bytes, left: Bytes)
    ensures out == before + b ==> out + left == before + (b + left)
  {
  }

  lemma DebugParts(fmt: Format, f: Proto)
    requires ProtoOk(fmt, f)
    ensures EncDebug(fmt, f) == (EncInt(|f.lineinfo|) + EncInts(f.lineinfo)) + (EncInt(|f.locvars|) + EncLocVars(fmt,
        f.locvars)) + (EncInt(|f.upvalues|) + EncNames(fmt, f.upvalues))
  {
    hide EncInts, EncLocVars, EncNames, EncInt;
  }

  lemma Tagged(out: Bytes, tag: Byte, b: Bytes)
    ensures out + [tag] + b == out + ([tag] + b)
  {
  }

  lemma Join3(a: Bytes, b: Bytes, c: Bytes)
    ensures a + b + c == a + (b + c)
  {
  }
}
