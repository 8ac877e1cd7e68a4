/** The MD5 context and its three operations, on machines of either byte order. */
module Md5Stream {
  import opened Md5

  /** A word as the machine reads it from memory. */
  function Native(big: bool, b: Bytes): int
    requires |b| == 4
  {
    if big then Big(b) else Little(b)
  }

  /** A word as the machine writes it to memory. */
  function Stored(big: bool, w: nat): (b: Bytes)
    ensures |b| == 4
  {
    var e := Encode(w);
    if big then [e[3], e[2], e[1], e[0]] else e
  }

  lemma StoredNative(big: bool, w: nat)
    requires w < W32
    ensures Native(big, Stored(big, w)) == w
  {
    LittleEncode(w);
  }

  function Reversed(b: Bytes): Bytes
    requires |b| == 4
  {
    [b[3], b[2], b[1], b[0]]
  }

  lemma StoredOrder(big: bool, w: nat)
    ensures (if big then Reversed(Stored(big, w)) else Stored(big, w)) == Encode(w)
  {
  }

  lemma DigestOf(f: Transform, m: Bytes)
    ensures var s := Chained(f, m); Digest(f, m) == Encode(s[0]) + Encode(s[1]) + Encode(s[2]) + Encode(s[3])
  {
  }

  /** The first `n` words of a block are reversed. */
  ghost predicate WordsReversed(a: Bytes, b: Bytes, n: nat) {
    && |a| == |b| == 64 && n <= 16
    && (forall i :: 0 <= i < n ==> b[4 * i..4 * i + 4] == Reversed(a[4 * i..4 * i + 4]))
    && (forall k :: 4 * n <= k < 64 ==> b[k] == a[k])
  }

  lemma OneMoreBlock(f: Transform, m: Bytes, block: Bytes)
    requires |m| % 64 == 0 && |block| == 64
    ensures Fold(f, Initial, m + block) == f(Fold(f, Initial, m), BlockWords(block))
  {
    FoldAppend(f, Initial, m, block);
    FoldOne(f, Fold(f, Initial, m), block);
  }

  lemma ReverseStep(a: Bytes, b: Bytes, c: Bytes, i: nat)
    requires WordsReversed(a, b, i) && i < 16 && |c| == 64
    requires c == b[..4 * i] + [b[4 * i + 3], b[4 * i + 2], b[4 * i + 1], b[4 * i]] + b[4 * i + 4..]
    ensures WordsReversed(a, c, i + 1)
  {
    forall n | 0 <= n < i + 1
      ensures c[4 * n..4 * n + 4] == Reversed(a[4 * n..4 * n + 4])
    {
      if n < i {
        assert c[4 * n..4 * n + 4] == b[4 * n..4 * n + 4];
      } else {
        assert b[4 * i] == a[4 * i] && b[4 * i + 1] == a[4 * i + 1] && b[4 * i + 2] == a[4 * i + 2]
          && b[4 * i + 3] == a[4 * i + 3];
      }
    }
  }

  /** The words read, from a buffer that was reversed where the machine needs it. */
  lemma WordsRead(big: bool, a: Bytes, b: Bytes, n: nat, ws: Words)
    requires |a| == |b| == 64 && n <= 16 && (if big then WordsReversed(a, b, n) else b == a)
    requires |ws| == 16 && forall i :: 0 <= i < 16 ==> ws[i] == Native(big, b[4 * i..4 * i + 4])
    ensures forall i :: 0 <= i < n ==> ws[i] == Little(a[4 * i..4 * i + 4])
    ensures n == 16 ==> ws == BlockWords(a)
  {
    forall i | 0 <= i < n
      ensures ws[i] == Little(a[4 * i..4 * i + 4])
    {
      if big {
        assert b[4 * i..4 * i + 4] == Reversed(a[4 * i..4 * i + 4]);
      }
    }
  }

  lemma SameWord(b: Bytes, mid: Bytes, i: nat)
    requires |b| == |mid| == 64 && b[..56] == mid[..56] && i < 14
    ensures b[4 * i..4 * i + 4] == mid[4 * i..4 * i + 4]
  {
    forall k | 4 * i <= k < 4 * i + 4
      ensures b[k] == mid[k]
    {
      assert b[..56][k] == mid[..56][k];
    }
  }

  lemma LengthRead(big: bool, a: Bytes, mid: Bytes, b: Bytes, ws: Words, w0: nat, w1: nat)
    requires |a| == |mid| == |b| == 64 && w0 < W32 && w1 < W32 && b[..56] == mid[..56]
    requires if big then WordsReversed(a, mid, 14) else mid == a
    requires b[56..60] == Stored(big, w0) && b[60..64] == Stored(big, w1)
    requires |ws| == 16 && forall i :: 0 <= i < 16 ==> ws[i] == Native(big, b[4 * i..4 * i + 4])
    ensures ws == BlockWords(a[..56] + Encode(w0) + Encode(w1))
  {
    var block := a[..56] + Encode(w0) + Encode(w1);
    StoredNative(big, w0);
    StoredNative(big, w1);
    LittleEncode(w0);
    LittleEncode(w1);
    hide Encode, Stored;
    forall i | 0 <= i < 16
      ensures ws[i] == Little(block[4 * i..4 * i + 4])
    {
      if i < 14 {
        assert block[4 * i..4 * i + 4] == a[4 * i..4 * i + 4];
        SameWord(b, mid, i);
      } else if i == 14 {
        assert block[56..60] == Encode(w0);
      } else {
        assert block[60..64] == Encode(w1);
      }
    }
  }

  // ----- Pieces of the message -----

  lemma FirstBlock(m: Bytes, data: Bytes, k: nat)
    requires k <= |data| && k == 64 - |m| % 64 && |m| % 64 != 0
    ensures |m + data[..k]| % 64 == 0 && |Left(m) + data[..k]| == 64
      && m + data[..k] == Whole(m) + (Left(m) + data[..k])
  {
    assert m == Whole(m) + Left(m);
  }

  lemma FirstFold(f: Transform, m: Bytes, data: Bytes, k: nat)
    requires k <= |data| && k == 64 - |m| % 64 && |m| % 64 != 0 && |Left(m) + data[..k]| == 64
    ensures Fold(f, Initial, m + data[..k]) == f(Fold(f, Initial, m), BlockWords(Left(m) + data[..k]))
  {
    FirstBlock(m, data, k);
    FoldWhole(f, Initial, m);
    OneMoreBlock(f, Whole(m), Left(m) + data[..k]);
  }

  /** A piece that does not fill the block. */
  lemma PieceFits(f: Transform, m: Bytes, data: Bytes)
    requires |m| % 64 + |data| < 64
    ensures Fold(f, Initial, m + data) == Fold(f, Initial, m) && Left(m + data) == Left(m) + data
      && |m + data| % 64 == |m| % 64 + |data|
  {
    assert |m + data| / 64 == |m| / 64;
    assert Whole(m + data) == Whole(m);
    FoldWhole(f, Initial, m);
    FoldWhole(f, Initial, m + data);
  }

  lemma LastPiece(f: Transform, m: Bytes, data: Bytes, k: nat)
    requires k <= |data| < k + 64 && |m + data[..k]| % 64 == 0
    ensures Fold(f, Initial, m + data) == Fold(f, Initial, m + data[..k]) && Left(m + data) == data[k..]
      && |m + data| % 64 == |data| - k
  {
    assert m + data == (m + data[..k]) + data[k..];
    PieceFits(f, m + data[..k], data[k..]);
    assert Left(m + data[..k]) == [];
  }

  // ----- The padding -----

  lemma PaddedFold(f: Transform, m: Bytes, first: Bytes)
    requires |first| == 56
    requires var left := Left(m); var count := 63 - |left|;
      if count < 8 then first == Zeros(56) else first == left + [0x80] + Zeros(count - 8)
    ensures var left := Left(m); var count := 63 - |left|;
      var last := first + Encode(8 * |m| % W32) + Encode(8 * |m| % W64 / W32);
      Chained(f, m) == if count < 8 then f(f(Fold(f, Initial, m), BlockWords(left + [0x80] + Zeros(count))),
                                          BlockWords(last)) else f(Fold(f, Initial, m), BlockWords(last))
  {
    var left := Left(m);
    var count, lo, hi := 63 - |left|, Encode(8 * |m| % W32), Encode(8 * |m| % W64 / W32);
    hide Encode, Fold, Left, Whole;
    if count < 8 {
      PaddedTwo(f, m, lo, hi);
    } else {
      PaddedOne(f, m, lo, hi);
    }
  }

  lemma PaddedTwo(f: Transform, m: Bytes, lo: Bytes, hi: Bytes)
    requires |lo| == |hi| == 4 && |Left(m)| > 55
    requires lo == Encode(8 * |m| % W32) && hi == Encode(8 * |m| % W64 / W32)
    ensures Chained(f, m) == f(f(Fold(f, Initial, m), BlockWords(Left(m) + [0x80] + Zeros(63 - |Left(m)|))),
                              BlockWords(Zeros(56) + lo + hi))
  {
    hide Encode, Fold, Padding, BlockWords;
    var block, last := Left(m) + [0x80] + Zeros(63 - |Left(m)|), Zeros(56) + lo + hi;
    PaddingTwo(m, lo, hi);
    FoldWhole(f, Initial, m);
    Parts(m);
    hide Left, Whole;
    OneMoreBlock(f, Whole(m), block);
    OneMoreBlock(f, Whole(m) + block, last);
  }

  lemma PaddingTwo(m: Bytes, lo: Bytes, hi: Bytes)
    requires |lo| == |hi| == 4 && |Left(m)| > 55
    requires lo == Encode(8 * |m| % W32) && hi == Encode(8 * |m| % W64 / W32)
    ensures m + Padding(|m|) == Whole(m) + (Left(m) + [0x80] + Zeros(63 - |Left(m)|)) + (Zeros(56) + lo + hi)
  {
    hide Encode;
    var count := 63 - |Left(m)|;
    assert (119 - |m| % 64) % 64 == count + 56;
    assert Zeros(count + 56) == Zeros(count) + Zeros(56);
    Parts(m);
    hide Left, Whole, Zeros;
    Regroup(Whole(m), Left(m), Zeros(count), Zeros(56), lo, hi);
  }

  lemma PaddedOne(f: Transform, m: Bytes, lo: Bytes, hi: Bytes)
    requires |lo| == |hi| == 4 && |Left(m)| <= 55
    requires lo == Encode(8 * |m| % W32) && hi == Encode(8 * |m| % W64 / W32)
    ensures Chained(f, m) == f(Fold(f, Initial, m), BlockWords(Left(m) + [0x80] + Zeros(55 - |Left(m)|) + lo + hi))
  {
    hide Encode, Fold, Padding, BlockWords;
    PaddingOne(m, lo, hi);
    FoldWhole(f, Initial, m);
    Parts(m);
    hide Left, Whole;
    OneMoreBlock(f, Whole(m), Left(m) + [0x80] + Zeros(55 - |Left(m)|) + lo + hi);
  }

  lemma PaddingOne(m: Bytes, lo: Bytes, hi: Bytes)
    requires |lo| == |hi| == 4 && |Left(m)| <= 55
    requires lo == Encode(8 * |m| % W32) && hi == Encode(8 * |m| % W64 / W32)
    ensures m + Padding(|m|) == Whole(m) + (Left(m) + [0x80] + Zeros(55 - |Left(m)|) + lo + hi)
  {
    hide Encode;
    var count := 55 - |Left(m)|;
    assert (119 - |m| % 64) % 64 == count;
    Parts(m);
    hide Left, Whole, Zeros;
    Regroup(Whole(m), Left(m), Zeros(count), [], lo, hi);
  }

  lemma Parts(m: Bytes)
    ensures m == Whole(m) + Left(m) && |Whole(m)| % 64 == 0
  {
  }

  lemma Regroup(w: Bytes, left: Bytes, z: Bytes, y: Bytes, lo: Bytes, hi: Bytes)
    ensures w + left + ([0x80] + (z + y) + lo + hi) == w + (left + [0x80] + z) + (y + lo + hi)
    ensures y == [] ==> w + left + ([0x80] + z + lo + hi) == w + (left + [0x80] + z + lo + hi)
  {
    assert y == [] ==> z + y == z;
  }

  lemma Carried(hi: nat, x: nat)
    ensures ((hi + 1) % W32 + x) % W32 == (hi + 1 + x) % W32
  {
  }

  class Context {
    var buf: State
    var bits0: nat
    var bits1: nat
    const inb: array<Byte>
    const big: bool
    const transform: Transform
    /** The message so far. */
    ghost var msg: Bytes

    ghost predicate Counted()
      reads this
    {
      bits0 == 8 * |msg| % W32 && bits1 == 8 * |msg| % W64 / W32
    }

    ghost predicate Valid()
      reads this, inb
    {
      && inb.Length == 64 && Counted()
      && buf == Fold(transform, Initial, msg) && inb[..|msg| % 64] == Left(msg)
    }

    /** md5.c `MD5_Init`. */
    constructor (transform: Transform, big: bool)
      ensures Valid() && fresh(inb) && msg == [] && this.transform == transform && this.big == big
    {
      buf, bits0, bits1, msg := Initial, 0, 0, [];
      inb := new Byte[64];
      this.big, this.transform := big, transform;
    }

    /** memcpy into the buffer. */
    method Copy(off: nat, d: Bytes)
      requires inb.Length == 64 && off + |d| <= 64
      modifies inb
      ensures inb[..] == old(inb[..off]) + d + old(inb[off + |d|..])
    {
      forall k | 0 <= k < |d| { inb[off + k] := d[k]; }
    }

    /** md5.c `byteReverse` on the first words of the buffer. */
    method ByteReverse(longs: nat)
      requires inb.Length == 64 && longs <= 16
      modifies inb
      ensures WordsReversed(old(inb[..]), inb[..], longs)
    {
      ghost var a := inb[..];
      var i := 0;
      while i < longs
        invariant 0 <= i <= longs && WordsReversed(a, inb[..], i)
      {
        ghost var b := inb[..];
        var b0, b1, b2, b3 := inb[4 * i], inb[4 * i + 1], inb[4 * i + 2], inb[4 * i + 3];
        Copy(4 * i, [b3, b2, b1, b0]);
        ReverseStep(a, b, inb[..], i);
        i := i + 1;
      }
    }

    /** The buffer as sixteen words of the machine. */
    method ReadWords() returns (ws: Words)
      requires inb.Length == 64
      ensures |ws| == 16 && forall i :: 0 <= i < 16 ==> ws[i] == Native(big, inb[4 * i..4 * i + 4])
    {
      ws := [];
      var i := 0;
      while i < 16
        invariant 0 <= i <= 16 && |ws| == i && forall k :: 0 <= k < i ==> ws[k] == Native(big, inb[4 * k..4 * k + 4])
      {
        ws := ws + [Native(big, inb[4 * i..4 * i + 4])];
        i := i + 1;
      }
    }

    /** A full buffer is transformed: its words are read low byte first on every machine. */
    method TransformBuffer()
      requires inb.Length == 64
      modifies `buf, inb
      ensures buf == transform(old(buf), BlockWords(old(inb[..])))
    {
      ghost var a := inb[..];
      if big {
        ByteReverse(16);
      }
      var ws := ReadWords();
      assert ws == BlockWords(a) by { WordsRead(big, a, inb[..], 16, ws); }
      buf := transform(buf, ws);
    }

    /** The count of bits in two words. */
    method Count(len: nat, ghost data: Bytes)
      requires Counted() && len == |data| < W32
      modifies `bits0, `bits1
      ensures bits0 == 8 * (|msg| + len) % W32 && bits1 == 8 * (|msg| + len) % W64 / W32
    {
      assert bits1 < W32 by { TwoWords(8 * |msg|); }
      BitCount(bits0, bits1, |msg|, len);
      var t := bits0;
      bits0 := (t + 8 * len % W32) % W32;
      if bits0 < t {
        bits1 := (bits1 + 1) % W32;
      }
      Carried(old(bits1), len / 0x2000_0000);
      bits1 := (bits1 + len / 0x2000_0000) % W32;
    }

    /** md5.c `MD5_Update`: the message grows by `data`. */
    method Update(data: Bytes)
      requires Valid() && |data| < W32
      modifies this, inb
      ensures Valid() && msg == old(msg) + data
    {
      hide Fold, Left, BlockWords;
      ghost var m0 := msg;
      var t := bits0 / 8 % 64;
      BufferIndex(|msg|);
      Count(|data|, data);
      var k := 0;
      if t != 0 {
        if |data| < 64 - t {
          Copy(t, data);
          msg := msg + data;
          PieceFits(transform, m0, data);
          return;
        }
        k := 64 - t;
        FillBuffer(t, data[..k], m0);
        FirstBlock(m0, data, k);
        FirstFold(transform, m0, data, k);
      } else {
        assert m0 + data[..0] == m0;
      }
      k := Blocks(data, k, m0);
      Copy(0, data[k..]);
      msg := m0 + data;
      LastPiece(transform, m0, data, k);
    }

    /** The buffer is filled up and transformed. */
    method FillBuffer(t: nat, d: Bytes, ghost m0: Bytes)
      requires inb.Length == 64 && t == |m0| % 64 && t + |d| == 64 && inb[..t] == Left(m0)
      modifies `buf, inb
      ensures buf == transform(old(buf), BlockWords(Left(m0) + d))
    {
      hide BlockWords;
      Copy(t, d);
      assert inb[..] == Left(m0) + d;
      TransformBuffer();
    }

    /** The loop over 64-byte chunks. */
    method Blocks(data: Bytes, start: nat, ghost m0: Bytes) returns (k: nat)
      requires inb.Length == 64 && start <= |data| && |m0 + data[..start]| % 64 == 0
        && buf == Fold(transform, Initial, m0 + data[..start])
      modifies `buf, inb
      ensures k <= |data| < k + 64 && |m0 + data[..k]| % 64 == 0 && buf == Fold(transform, Initial, m0 + data[..k])
    {
      k := start;
      while |data| - k >= 64
        invariant k <= |data| && |m0 + data[..k]| % 64 == 0 && buf == Fold(transform, Initial, m0 + data[..k])
      {
        Copy(0, data[k..k + 64]);
        assert inb[..] == data[k..k + 64];
        OneMoreBlock(transform, m0 + data[..k], data[k..k + 64]);
        assert m0 + data[..k] + data[k..k + 64] == m0 + data[..k + 64];
        TransformBuffer();
        k := k + 64;
      }
    }

    /** md5.c `MD5_Final`: the digest is the fold over the padded message, as sixteen bytes that are
        the same on every machine. */
    method Final() returns (digest: Bytes)
      requires Valid()
      modifies this, inb
      ensures digest == Digest(transform, old(msg))
    {
      hide Digest;
      ghost var m := msg;
      var used := bits0 / 8 % 64;
      BufferIndex(|msg|);
      Copy(used, [0x80]);
      var count := 63 - used;
      if count < 8 {
        Copy(used + 1, Zeros(count));
        assert inb[..] == Left(m) + [0x80] + Zeros(count);
        TransformBuffer();
        Copy(0, Zeros(56));
        assert inb[..56] == Zeros(56);
      } else {
        Copy(used + 1, Zeros(count - 8));
        assert inb[..56] == Left(m) + [0x80] + Zeros(count - 8);
      }
      ghost var first := inb[..56];
      AppendLength(first);
      TwoWords(8 * |m|);
      PaddedFold(transform, m, first);
      digest := Output();
      DigestOf(transform, m);
    }

    /** The last step of `MD5_Final`: the memory of the state, with its words reversed where the machine
        stores the high byte first. */
    method Output() returns (digest: Bytes)
      ensures digest == Encode(buf[0]) + Encode(buf[1]) + Encode(buf[2]) + Encode(buf[3])
    {
      hide Encode, Stored;
      digest := [];
      ghost var done: seq<Bytes> := [[], Encode(buf[0]), Encode(buf[0]) + Encode(buf[1]),
        Encode(buf[0]) + Encode(buf[1]) + Encode(buf[2]),
        Encode(buf[0]) + Encode(buf[1]) + Encode(buf[2]) + Encode(buf[3])];
      var i := 0;
      while i < 4
        invariant 0 <= i <= 4 && digest == done[i]
      {
        var b := Stored(big, buf[i]);
        StoredOrder(big, buf[i]);
        digest := digest + if big then Reversed(b) else b;
        i := i + 1;
      }
    }

    /** The length goes into the last two words. */
    method AppendLength(ghost first: Bytes)
      requires inb.Length == 64 && first == inb[..56] && bits0 < W32 && bits1 < W32
      modifies `buf, inb
      ensures buf == transform(old(buf), BlockWords(first + Encode(bits0) + Encode(bits1)))
    {
      ghost var a := inb[..];
      if big {
        ByteReverse(14);
      }
      ghost var mid := inb[..];
      hide WordsReversed, Stored, Encode;
      Copy(56, Stored(big, bits0));
      Copy(60, Stored(big, bits1));
      ghost var b := inb[..];
      assert b[..56] == mid[..56] && b[56..60] == Stored(big, bits0) && b[60..64] == Stored(big, bits1);
      var ws := ReadWords();
      assert ws == BlockWords(first + Encode(bits0) + Encode(bits1)) by { LengthRead(big, a, mid, b, ws, bits0,
          bits1); }
      buf := transform(buf, ws);
    }
  }

  function Concat(pieces: seq<Bytes>): Bytes {
    if pieces == [] then [] else Concat(pieces[..|pieces| - 1]) + pieces[|pieces| - 1]
  }

  /** However a message is split into pieces, the digest is that of the whole message. */
  method SumPieces(transform: Transform, big: bool, pieces: seq<Bytes>) returns (digest: Bytes)
    requires forall i :: 0 <= i < |pieces| ==> |pieces[i]| < W32
    ensures digest == Digest(transform, Concat(pieces))
  {
    hide Digest, Fold;
    var ctx := new Context(transform, big);
    var i := 0;
    assert pieces[..0] == [];
    while i < |pieces|
      invariant 0 <= i <= |pieces| && ctx.Valid() && fresh(ctx) && fresh(ctx.inb)
      invariant ctx.msg == Concat(pieces[..i]) && ctx.transform == transform
    {
      ctx.Update(pieces[i]);
      assert pieces[..i + 1][..i] == pieces[..i];
      i := i + 1;
    }
    assert pieces[..i] == pieces;
    digest := ctx.Final();
  }
}
