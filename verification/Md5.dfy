/** MD5 over a message that arrives in pieces. The block transform is a parameter. */
module Md5 {

  type Byte = x: int | 0 <= x < 256
  type Bytes = seq<Byte>

  const W32: nat := 0x1_0000_0000

  type Word = x: int | 0 <= x < 0x1_0000_0000

  /** The four words of the state. */
  type State = s: seq<Word> | |s| == 4 witness [0, 0, 0, 0]

  /** A block as sixteen words. */
  type Words = seq<int>
  type Transform = (State, Words) -> State

  const W64: nat := 0x1_0000_0000_0000_0000

  // ----- Words and bytes -----

  function Little(b: Bytes): int
    requires |b| == 4
  {
    b[0] as int + 256 * (b[1] as int + 256 * (b[2] as int + 256 * (b[3] as int)))
  }

  function Big(b: Bytes): int
    requires |b| == 4
  {
    Little([b[3], b[2], b[1], b[0]])
  }

  /** The four bytes of a word, low byte first. */
  function Encode(w: nat): (b: Bytes)
    ensures |b| == 4
  {
    [w % 256, w / 256 % 256, w / 65536 % 256, w / 16777216 % 256]
  }

  lemma LittleEncode(w: nat)
    requires w < W32
    ensures Little(Encode(w)) == w
  {
    assert w / 65536 == w / 256 / 256 && w / 16777216 == w / 256 / 256 / 256;
  }

  /** A block read as little-endian words. */
  function BlockWords(block: Bytes): (r: Words)
    requires |block| == 64
    ensures |r| == 16
  {
    seq(16, i requires 0 <= i < 16 => Little(block[4 * i..4 * i + 4]))
  }

  /** Word `i` of a block is its bytes from `4 * i`, low byte first. */
  lemma BlockBytes(block: Bytes, i: nat)
    requires |block| == 64 && i < 16
    ensures BlockWords(block)[i] >= 0 && Encode(BlockWords(block)[i]) == block[4 * i..4 * i + 4]
  {
    EncodeLittle(block[4 * i..4 * i + 4]);
  }

  lemma EncodeLittle(b: Bytes)
    requires |b| == 4
    ensures Little(b) >= 0 && Encode(Little(b)) == b
  {
    var w := Little(b);
    var h := b[2] as int + 256 * b[3] as int;
    assert w == b[0] as int + 256 * (b[1] as int + 256 * h) && w / 256 == b[1] as int + 256 * h;
    assert w / 65536 == h;
    assert w / 16777216 == b[3] as int;
  }

  // ----- The specification: section 3 of RFC 1321 -----

  const Initial: State := [0x67452301, 0xefcdab89, 0x98badcfe, 0x10325476]

  /** Section 3.3 of RFC 1321 gives the four words by their sixteen bytes, low byte first: they count up from 01
      to ef, and down again. */
  lemma InitialBytes()
    ensures Encode(Initial[0]) + Encode(Initial[1]) + Encode(Initial[2]) + Encode(Initial[3])
      == [0x01, 0x23, 0x45, 0x67, 0x89, 0xab, 0xcd, 0xef, 0xfe, 0xdc, 0xba, 0x98, 0x76, 0x54, 0x32, 0x10]
  {
    assert Encode(Initial[0]) == [0x01, 0x23, 0x45, 0x67] && Encode(Initial[1]) == [0x89, 0xab, 0xcd, 0xef];
    assert Encode(Initial[2]) == [0xfe, 0xdc, 0xba, 0x98] && Encode(Initial[3]) == [0x76, 0x54, 0x32, 0x10];
  }

  /** Sections 3.1 and 3.2 of RFC 1321: the padding begins with a one bit, zero bits follow up to 56 bytes modulo
      64, fewer than a block of them, and the number of bits of the message ends it, low byte first. */
  lemma PaddingLaw(n: nat, i: nat)
    requires i < |Padding(n)|
    ensures (n + |Padding(n)|) % 64 == 0 && 9 <= |Padding(n)| <= 72
    ensures i == 0 ==> Padding(n)[i] == 0x80
    ensures 0 < i < |Padding(n)| - 8 ==> Padding(n)[i] == 0
    ensures var p := Padding(n); var k := |p| - 8;
      Little(p[k..k + 4]) + W32 * Little(p[k + 4..k + 8]) == 8 * n % W64
  {
    hide Little, Encode;
    var z := (119 - n % 64) % 64;
    PaddingSize(n, z);
    var lo, hi := 8 * n % W32, 8 * n % W64 / W32;
    PaddingEnd(n, z, [0x80] + Zeros(z), Encode(lo), Encode(hi));
    LittleEncode(lo);
    LittleEncode(hi);
    TwoWords(8 * n);
  }

  lemma PaddingSize(n: nat, z: nat)
    requires z == (119 - n % 64) % 64
    ensures (n + z + 9) % 64 == 0
  {
    assert n == n / 64 * 64 + n % 64;
  }

  lemma PaddingEnd(n: nat, z: nat, a: Bytes, lo: Bytes, hi: Bytes)
    requires |lo| == 4 && |hi| == 4 && Padding(n) == a + lo + hi
    ensures var p := Padding(n); p[|p| - 8..|p| - 4] == lo && p[|p| - 4..] == hi && p[|p| - 8 + 4..|p| - 8 + 8] == hi
    ensures |Padding(n)| == |a| + 8 && Padding(n)[..|a|] == a
  {
    hide Padding;
  }

  /** Fold the transform over all complete blocks. */
  function Fold(f: Transform, state: State, m: Bytes): State
    decreases |m|
  {
    if |m| < 64 then state else Fold(f, f(state, BlockWords(m[..64])), m[64..])
  }

  function Zeros(n: nat): (r: Bytes)
    ensures |r| == n && forall i :: 0 <= i < n ==> r[i] == 0
  {
    seq(n, _ => 0)
  }

  /** Sections 3.1 and 3.2: a one bit, zero bits up to 56 bytes modulo 64, and the length in bits
      modulo 2^64, low-order word first. */
  function Padding(n: nat): Bytes {
    [0x80] + Zeros((119 - n % 64) % 64) + Encode(8 * n % W32) + Encode(8 * n % W64 / W32)
  }

  /** The whole blocks of a message, and what is left. */
  function Whole(m: Bytes): Bytes {
    m[..|m| / 64 * 64]
  }

  function Left(m: Bytes): (r: Bytes)
    ensures |r| == |m| % 64
  {
    m[|m| / 64 * 64..]
  }

  lemma {:induction false} FoldAppend(f: Transform, state: State, a: Bytes, b: Bytes)
    requires |a| % 64 == 0
    ensures Fold(f, state, a + b) == Fold(f, Fold(f, state, a), b)
    decreases |a|
  {
    if |a| == 0 {
      assert a + b == b;
    } else {
      assert (a + b)[..64] == a[..64] && (a + b)[64..] == a[64..] + b;
      FoldAppend(f, f(state, BlockWords(a[..64])), a[64..], b);
    }
  }

  lemma FoldOne(f: Transform, state: State, b: Bytes)
    requires |b| == 64
    ensures Fold(f, state, b) == f(state, BlockWords(b))
  {
    assert b[..64] == b && Fold(f, f(state, BlockWords(b)), b[64..]) == f(state, BlockWords(b));
  }

  /** Only the whole blocks count. */
  lemma FoldWhole(f: Transform, state: State, m: Bytes)
    ensures Fold(f, state, m) == Fold(f, state, Whole(m))
  {
    assert m == Whole(m) + Left(m);
    FoldAppend(f, state, Whole(m), Left(m));
  }

  /** The state behind the padded message. */
  function Chained(f: Transform, m: Bytes): State {
    Fold(f, Initial, m + Padding(|m|))
  }

  /** Section 3.5: the digest of a message is its last state as bytes, low byte of each word first. */
  function Digest(f: Transform, m: Bytes): (r: Bytes)
    ensures |r| == 16
  {
    var s := Chained(f, m);
    Encode(s[0]) + Encode(s[1]) + Encode(s[2]) + Encode(s[3])
  }

  // ----- The bit count -----

  /** MD5_Update's two-word addition is addition modulo 2^64. */
  lemma BitCount(lo: nat, hi: nat, n: nat, len: nat)
    requires lo == 8 * n % W32 && hi == 8 * n % W64 / W32 && len < W32
    ensures var shifted := 8 * len % W32;
      var lo' := (lo + shifted) % W32;
      var hi' := (hi + (if lo' < lo then 1 else 0) + len / 0x2000_0000) % W32;
      lo' == 8 * (n + len) % W32 && hi' == 8 * (n + len) % W64 / W32
  {
    var shifted := 8 * len % W32;
    var lo' := (lo + shifted) % W32;
    var carry := if lo' < lo then 1 else 0;
    var hi' := (hi + carry + len / 0x2000_0000) % W32;
    assert 8 * len == shifted + W32 * (len / 0x2000_0000);
    assert lo + shifted == lo' + W32 * carry;
    assert 8 * n % W64 == lo + W32 * hi by { TwoWords(8 * n); }
    var total := lo + W32 * hi + 8 * len;
    assert total == lo' + W32 * (hi + carry + len / 0x2000_0000);
    assert total % W64 == 8 * (n + len) % W64 by { SameMod(8 * n, 8 * len); }
    TwoWordsOf(total, lo', hi + carry + len / 0x2000_0000);
    TwoWords(8 * (n + len));
  }

  lemma TwoWords(x: nat)
    ensures x % W64 == x % W32 + W32 * (x % W64 / W32)
    ensures x % W64 % W32 == x % W32
  {
  }

  lemma SameMod(x: nat, y: nat)
    ensures (x % W64 + y) % W64 == (x + y) % W64
  {
  }

  lemma TwoWordsOf(total: nat, lo: nat, h: nat)
    requires total == lo + W32 * h && lo < W32
    ensures total % W64 % W32 == lo && total % W64 / W32 == h % W32
  {
    assert h == W32 * (h / W32) + h % W32;
    assert total == lo + W32 * (h % W32) + W64 * (h / W32);
    assert lo + W32 * (h % W32) < W64;
  }

  /** Where the next byte goes in the buffer. */
  lemma BufferIndex(n: nat)
    ensures 8 * n % W32 / 8 % 64 == n % 64
  {
    var q, r := n / 0x2000_0000, n % 0x2000_0000;
    assert n == 0x2000_0000 * q + r && 8 * n == W32 * q + 8 * r;
    Remainder(W32, q, 8 * r);
    assert n == 64 * (0x80_0000 * q + r / 64) + r % 64;
    Remainder(64, 0x80_0000 * q + r / 64, r % 64);
  }

  lemma Remainder(m: nat, q: nat, r: nat)
    requires r < m
    ensures (m * q + r) % m == r
  {
    var x := m * q + r;
    assert x == m * (x / m) + x % m;
    if x / m < q {
      MulStep(m, x / m + 1, q);
    } else if x / m > q {
      MulStep(m, q + 1, x / m);
    }
  }

  lemma MulStep(m: nat, a: nat, b: nat)
    requires a <= b
    ensures m * a <= m * b
  {
    assert m * b == m * a + m * (b - a);
  }
}
