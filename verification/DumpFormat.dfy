/** Precompiled chunks: function prototypes and the bytes they are written as. */
module DumpFormat {

  type Byte = x: int | 0 <= x < 256
  type Bytes = seq<Byte>

  datatype Option<T> = None | Some(value: T)

  /** Constants; a number is kept as its bytes. */
  datatype Const = Nil | Boolean(b: bool) | Number(bits: Bytes) | String(s: Bytes)

  datatype LocVar = LocVar(name: Option<Bytes>, startpc: int, endpc: int)

  datatype Proto = Proto(
    source: Option<Bytes>, linedefined: int, lastlinedefined: int,
    nups: Byte, numparams: Byte, isVararg: Byte, maxstacksize: Byte,
    code: seq<int>, k: seq<Const>, p: seq<Proto>,
    lineinfo: seq<int>, locvars: seq<LocVar>, upvalues: seq<Option<Bytes>>)

  /** Sizes that depend on the platform: of size_t and of lua_Number. */
  datatype Format = Format(szt: nat, nsz: nat)

  const MAX_INT: nat := 0x7fff_ffff
  const WORD: nat := 0x1_0000_0000

  // ----- Little-endian numbers -----

  function Pow256(n: nat): nat {
    if n == 0 then 1 else 256 * Pow256(n - 1)
  }

  function Enc(n: nat, x: nat): (r: Bytes)
    ensures |r| == n
  {
    if n == 0 then [] else [x % 256] + Enc(n - 1, x / 256)
  }

  function Dec(b: Bytes): nat {
    if b == [] then 0 else b[0] + 256 * Dec(b[1..])
  }

  lemma {:induction false} EncDec(n: nat, x: nat)
    requires x < Pow256(n)
    ensures Dec(Enc(n, x)) == x
  {
    if n > 0 {
      EncDec(n - 1, x / 256);
      assert Enc(n, x)[1..] == Enc(n - 1, x / 256);
    }
  }

  predicate IsInt(x: int) {
    -0x8000_0000 <= x <= MAX_INT
  }

  function EncInt(x: int): (r: Bytes)
    requires IsInt(x)
    ensures |r| == 4
  {
    Enc(4, if x < 0 then x + WORD else x)
  }

  function DecInt(b: Bytes): int {
    var v := Dec(b);
    if v > MAX_INT then v - WORD else v
  }

  lemma IntDec(x: int)
    requires IsInt(x)
    ensures DecInt(EncInt(x)) == x
  {
    assert Pow256(4) == WORD;
    EncDec(4, if x < 0 then x + WORD else x);
  }

  lemma WordDec(x: nat)
    requires x < WORD
    ensures Dec(Enc(4, x)) == x
  {
    assert Pow256(4) == WORD;
    EncDec(4, x);
  }

  // ----- What can be written -----

  predicate Count(n: int) {
    0 <= n <= MAX_INT
  }

  predicate StringOk(fmt: Format, s: Bytes) {
    |s| + 1 < Pow256(fmt.szt)
  }

  predicate NameOk(fmt: Format, s: Option<Bytes>) {
    Pow256(fmt.szt) > 0 && (s.Some? ==> StringOk(fmt, s.value))
  }

  predicate ConstOk(fmt: Format, c: Const) {
    match c
    case Nil => true
    case Boolean(_) => true
    case Number(bits) => |bits| == fmt.nsz
    case String(s) => StringOk(fmt, s)
  }

  predicate LocVarOk(fmt: Format, v: LocVar) {
    NameOk(fmt, v.name) && Count(v.startpc) && Count(v.endpc)
  }

  /** The fields have the widths that C gives them. */
  predicate ProtoOk(fmt: Format, f: Proto)
    decreases f
  {
    && NameOk(fmt, f.source) && Count(f.linedefined) && Count(f.lastlinedefined)
    && Count(|f.code|) && (forall i :: 0 <= i < |f.code| ==> 0 <= f.code[i] < WORD)
    && Count(|f.k|) && (forall i :: 0 <= i < |f.k| ==> ConstOk(fmt, f.k[i]))
    && Count(|f.lineinfo|) && (forall i :: 0 <= i < |f.lineinfo| ==> IsInt(f.lineinfo[i]))
    && Count(|f.locvars|) && (forall i :: 0 <= i < |f.locvars| ==> LocVarOk(fmt, f.locvars[i]))
    && Count(|f.upvalues|) && (forall i :: 0 <= i < |f.upvalues| ==> NameOk(fmt, f.upvalues[i]))
    && Count(|f.p|) && (forall i :: 0 <= i < |f.p| ==> ProtoOk(fmt, f.p[i]))
  }

  // ----- The bytes -----

  /** ldump.c `DumpString`. */
  function EncString(fmt: Format, s: Option<Bytes>): Bytes {
    if s.None? then Enc(fmt.szt, 0) else Enc(fmt.szt, |s.value| + 1) + s.value + [0]
  }

  function EncBool(b: bool): Byte {
    if b then 1 else 0
  }

  function EncConst(fmt: Format, c: Const): Bytes {
    match c
    case Nil => [0]
    case Boolean(b) => [1, EncBool(b)]
    case Number(bits) => [3] + bits
    case String(s) => [4] + EncString(fmt, Some(s))
  }

  function EncLocVar(fmt: Format, v: LocVar): Bytes
    requires LocVarOk(fmt, v)
  {
    EncString(fmt, v.name) + EncInt(v.startpc) + EncInt(v.endpc)
  }

  function EncWords(ws: seq<int>): (r: Bytes)
    requires forall i :: 0 <= i < |ws| ==> 0 <= ws[i] < WORD
    ensures |r| == 4 * |ws|
  {
    if ws == [] then [] else Enc(4, ws[0]) + EncWords(ws[1..])
  }

  function EncInts(xs: seq<int>): (r: Bytes)
    requires forall i :: 0 <= i < |xs| ==> IsInt(xs[i])
    ensures |r| == 4 * |xs|
  {
    if xs == [] then [] else EncInt(xs[0]) + EncInts(xs[1..])
  }

  function EncConsts(fmt: Format, ks: seq<Const>): Bytes {
    if ks == [] then [] else EncConst(fmt, ks[0]) + EncConsts(fmt, ks[1..])
  }

  function EncLocVars(fmt: Format, vs: seq<LocVar>): Bytes
    requires forall i :: 0 <= i < |vs| ==> LocVarOk(fmt, vs[i])
  {
    if vs == [] then [] else EncLocVar(fmt, vs[0]) + EncLocVars(fmt, vs[1..])
  }

  function EncNames(fmt: Format, ns: seq<Option<Bytes>>): Bytes {
    if ns == [] then [] else EncString(fmt, ns[0]) + EncNames(fmt, ns[1..])
  }

  function EncDebug(fmt: Format, f: Proto): Bytes
    requires ProtoOk(fmt, f)
  {
    EncInt(|f.lineinfo|) + EncInts(f.lineinfo) + EncInt(|f.locvars|) + EncLocVars(fmt,
        f.locvars) + EncInt(|f.upvalues|) + EncNames(fmt, f.upvalues)
  }

  /** What stripping leaves out of the debug information. */
  function Bare(f: Proto, strip: bool): Proto {
    if strip then f.(lineinfo := [], locvars := [], upvalues := []) else f
  }

  function EncFirst(fmt: Format, f: Proto, p: Option<Bytes>, strip: bool): Bytes
    requires ProtoOk(fmt, f)
  {
    EncString(fmt, if f.source == p || strip then None
              else f.source) + EncInt(f.linedefined) + EncInt(f.lastlinedefined)
    + [f.nups, f.numparams, f.isVararg, f.maxstacksize]
  }

  function EncCode(fmt: Format, f: Proto): Bytes
    requires ProtoOk(fmt, f)
  {
    EncInt(|f.code|) + EncWords(f.code)
  }

  lemma BareOk(fmt: Format, f: Proto, strip: bool)
    requires ProtoOk(fmt, f)
    ensures ProtoOk(fmt, Bare(f, strip))
  {
  }

  /** ldump.c `DumpFunction`; `p` is the source of the enclosing function. */
  function EncFunction(fmt: Format, f: Proto, p: Option<Bytes>, strip: bool): Bytes
    requires ProtoOk(fmt, f)
    decreases f, |f.p| + 2
  {
    BareOk(fmt, f, strip);
    EncFirst(fmt, f, p, strip) + EncCode(fmt, f) + EncConstants(fmt, f, strip) + EncDebug(fmt, Bare(f, strip))
  }

  /** ldump.c `DumpConstants`: the constants and the nested functions. */
  function EncConstants(fmt: Format, f: Proto, strip: bool): Bytes
    requires ProtoOk(fmt, f)
    decreases f, |f.p| + 1
  {
    EncInt(|f.k|) + EncConsts(fmt, f.k) + EncInt(|f.p|) + EncProtos(fmt, f, 0, strip)
  }

  /** The nested functions from the i-th on. */
  function EncProtos(fmt: Format, f: Proto, i: nat, strip: bool): Bytes
    requires ProtoOk(fmt, f) && i <= |f.p|
    decreases f, |f.p| - i
  {
    if i == |f.p| then [] else EncFunction(fmt, f.p[i], f.source, strip) + EncProtos(fmt, f, i + 1, strip)
  }

  lemma ChildOk(fmt: Format, f: Proto, i: nat)
    requires ProtoOk(fmt, f) && i < |f.p|
    ensures ProtoOk(fmt, f.p[i])
  {
  }

  lemma ProtosHead(fmt: Format, f: Proto, i: nat, strip: bool)
    requires ProtoOk(fmt, f) && i < |f.p| && ProtoOk(fmt, f.p[i])
    ensures EncProtos(fmt, f, i, strip) == EncFunction(fmt, f.p[i], f.source, strip) + EncProtos(fmt, f, i + 1, strip)
  {
  }

  lemma ProtosEnd(fmt: Format, f: Proto, strip: bool)
    requires ProtoOk(fmt, f)
    ensures EncProtos(fmt, f, |f.p|, strip) == []
  {
  }

  function Header(fmt: Format): Bytes
    requires fmt.szt < 256 && fmt.nsz < 256
  {
    [27, 'L' as int, 'u' as int, 'a' as int, 0x51, 0, 1, 4, fmt.szt, 4, fmt.nsz, 0]
  }

  /** lundump.c: the source of an unnamed main function. */
  const Unknown: Bytes := ['=' as int, '?' as int]

  // ----- The format, byte by byte -----

  lemma SmallInt(x: nat)
    requires x < 256
    ensures EncInt(x) == [x, 0, 0, 0] && Enc(4, x) == [x, 0, 0, 0]
  {
    assert Enc(4, x) == [x] + Enc(3, 0) && Enc(3, 0) == [0] + Enc(2, 0) && Enc(2, 0) == [0] + Enc(1, 0);
  }

  lemma OneString(fmt: Format, c: Byte)
    requires fmt.szt == 4
    ensures EncString(fmt, Some([c])) == [2, 0, 0, 0, c, 0]
  {
    SmallInt(2);
  }

  /** A function with one of everything, on a machine with words of four bytes. */
  function Sample(): Proto {
    Proto(Some([65]), 1, 2, 3, 4, 5, 6, [0x01020304], [Nil, Boolean(true), String([66])], [], [7],
          [LocVar(Some([67]), 8, 9)], [Some([68])])
  }

  /** How it is written: the source, the two lines, the four counts, the code with its low byte first, the
      constants behind their type tags, the nested functions, and the debug information. */
  lemma SampleBytes(fmt: Format)
    requires fmt.szt == 4 && ProtoOk(fmt, Sample())
    ensures EncFunction(fmt, Sample(), None, false) ==
      ([2, 0, 0, 0, 65, 0] + [1, 0, 0, 0] + [2, 0, 0, 0] + [3, 4, 5, 6]) + [1, 0, 0, 0, 4, 3, 2, 1]
      + [3, 0, 0, 0, 0, 1, 1, 4, 2, 0, 0, 0, 66, 0, 0, 0, 0, 0]
      + ([1, 0, 0, 0, 7, 0, 0, 0] + [1, 0, 0, 0, 2, 0, 0, 0, 67, 0, 8, 0, 0, 0, 9, 0, 0, 0]
         + [1, 0, 0, 0, 2, 0, 0, 0, 68, 0])
  {
    var f := Sample();
    assert Bare(f, false) == f;
    SampleFirst(fmt);
    SampleCode(fmt);
    SampleConstants(fmt);
    SampleDebug(fmt);
    hide EncFirst, EncCode, EncConstants, EncDebug, ProtoOk, Sample, Bare;
    assert EncFunction(fmt, f, None, false) ==
      EncFirst(fmt, f, None, false) + EncCode(fmt, f) + EncConstants(fmt, f, false) + EncDebug(fmt, f);
  }

  lemma SampleConstants(fmt: Format)
    requires fmt.szt == 4 && ProtoOk(fmt, Sample())
    ensures EncConstants(fmt, Sample(), false) == [3, 0, 0, 0, 0, 1, 1, 4, 2, 0, 0, 0, 66, 0, 0, 0, 0, 0]
  {
    var f := Sample();
    SampleConsts(fmt);
    hide EncConsts, EncInt, ProtoOk;
    assert EncProtos(fmt, f, 0, false) == [];
  }

  lemma SampleFirst(fmt: Format)
    requires fmt.szt == 4 && ProtoOk(fmt, Sample())
    ensures EncFirst(fmt, Sample(), None, false) == [2, 0, 0, 0, 65, 0] + [1, 0, 0, 0] + [2, 0, 0, 0] + [3, 4, 5, 6]
  {
    OneString(fmt, 65);
    SmallInt(1);
    SmallInt(2);
  }

  lemma SampleCode(fmt: Format)
    requires fmt.szt == 4 && ProtoOk(fmt, Sample())
    ensures EncCode(fmt, Sample()) == [1, 0, 0, 0, 4, 3, 2, 1]
  {
    SmallInt(1);
    var w := 0x01020304;
    assert Enc(4, w) == [4] + Enc(3, 0x010203) && Enc(3, 0x010203) == [3] + Enc(2, 0x0102);
    assert Enc(2, 0x0102) == [2] + Enc(1, 1) && Enc(1, 1) == [1] + Enc(0, 0);
    assert EncWords([w]) == Enc(4, w) + EncWords([]);
  }

  lemma SampleConsts(fmt: Format)
    requires fmt.szt == 4
    ensures EncInt(3) + EncConsts(fmt, Sample().k) == [3, 0, 0, 0, 0, 1, 1, 4, 2, 0, 0, 0, 66, 0]
    ensures EncInt(0) == [0, 0, 0, 0]
  {
    SmallInt(3);
    SmallInt(0);
    OneString(fmt, 66);
    var ks := Sample().k;
    assert ks[1..] == [Boolean(true), String([66])] && ks[1..][1..] == [String([66])] && ks[1..][1..][1..] == [];
    assert EncConsts(fmt, ks[1..][1..]) == EncConst(fmt, String([66])) + EncConsts(fmt, ks[1..][1..][1..]);
    assert EncConsts(fmt, ks[1..]) == [1, 1] + EncConsts(fmt, ks[1..][1..]);
    assert EncConsts(fmt, ks) == [0] + EncConsts(fmt, ks[1..]);
  }

  lemma SampleDebug(fmt: Format)
    requires fmt.szt == 4 && ProtoOk(fmt, Sample())
    ensures EncDebug(fmt, Sample()) == [1, 0, 0, 0, 7, 0, 0, 0]
      + [1, 0, 0, 0, 2, 0, 0, 0, 67, 0, 8, 0, 0, 0, 9, 0, 0, 0] + [1, 0, 0, 0, 2, 0, 0, 0, 68, 0]
  {
    hide EncInt, EncInts, EncLocVars, EncNames, EncLocVar, EncString, ProtoOk;
    SmallInt(1);
    SampleLines();
    SampleLocVars(fmt);
    SampleNames(fmt);
  }

  lemma SampleLines()
    ensures EncInts(Sample().lineinfo) == [7, 0, 0, 0]
  {
    SmallInt(7);
    assert EncInts([7]) == EncInt(7) + EncInts([]);
  }

  lemma SampleLocVars(fmt: Format)
    requires fmt.szt == 4 && forall i :: 0 <= i < |Sample().locvars| ==> LocVarOk(fmt, Sample().locvars[i])
    ensures EncLocVars(fmt, Sample().locvars) == [2, 0, 0, 0, 67, 0, 8, 0, 0, 0, 9, 0, 0, 0]
  {
    SmallInt(8);
    SmallInt(9);
    OneString(fmt, 67);
    var vs := Sample().locvars;
    hide EncInt;
    assert EncLocVars(fmt, vs) == EncLocVar(fmt, vs[0]) + EncLocVars(fmt, []);
  }

  lemma SampleNames(fmt: Format)
    requires fmt.szt == 4
    ensures EncNames(fmt, Sample().upvalues) == [2, 0, 0, 0, 68, 0]
  {
    OneString(fmt, 68);
    assert EncNames(fmt, [Some([68])]) == EncString(fmt, Some([68])) + EncNames(fmt, []);
  }

  // ----- What loading gives back -----

  /** The tree that is loaded: a function whose source was not written gets the one of the
      enclosing function, as loaded (`lp`). */
  function Loaded(f: Proto, p: Option<Bytes>, lp: Option<Bytes>, strip: bool): Proto {
    var src := LoadedSource(f, p, lp, strip);
    Bare(f, strip).(source := src, p := seq(|f.p|, i requires 0 <= i < |f.p| => Loaded(f.p[i], f.source, src, strip)))
  }

  function LoadedSource(f: Proto, p: Option<Bytes>, lp: Option<Bytes>, strip: bool): Option<Bytes> {
    if f.source == p || strip || f.source.None? then lp else f.source
  }

  /** Every function of the tree has a source name. */
  predicate Named(f: Proto) {
    f.source.Some? && forall i :: 0 <= i < |f.p| ==> Named(f.p[i])
  }

  /** The tree without line information, names of local variables, upvalues and sources. */
  function Stripped(f: Proto, name: Option<Bytes>): Proto {
    Bare(f, true).(source := name, p := seq(|f.p|, i requires 0 <= i < |f.p| => Stripped(f.p[i], name)))
  }

  /** Without stripping a named tree comes back unchanged; in fact exactly a named tree does. */
  lemma {:induction false} LoadedSame(f: Proto, p: Option<Bytes>, lp: Option<Bytes>)
    requires p.None? || p == lp
    requires lp.Some?
    ensures Loaded(f, p, lp, false) == f <==> Named(f)
    decreases f
  {
    var src := LoadedSource(f, p, lp, false);
    var f' := Loaded(f, p, lp, false);
    assert src.Some?;
    if f.source.Some? {
      assert src == f.source;
      forall i | 0 <= i < |f.p|
        ensures Loaded(f.p[i], f.source, src, false) == f.p[i] <==> Named(f.p[i])
      {
        LoadedSame(f.p[i], f.source, src);
      }
      if Named(f) {
        assert f'.p == f.p;
      } else if f' == f {
        forall i | 0 <= i < |f.p|
          ensures Named(f.p[i])
        {
          assert f'.p[i] == f.p[i];
        }
      }
    }
  }

  lemma {:induction false} LoadedStripped(f: Proto, p: Option<Bytes>, lp: Option<Bytes>)
    ensures Loaded(f, p, lp, true) == Stripped(f, lp)
    decreases f
  {
    forall i | 0 <= i < |f.p|
      ensures Loaded(f.p[i], f.source, lp, true) == Stripped(f.p[i], lp)
    {
      LoadedStripped(f.p[i], f.source, lp);
    }
    assert Loaded(f, p, lp, true).p == Stripped(f, lp).p;
  }
}
