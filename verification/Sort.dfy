/** Quicksort in place, as table.sort does it. */
module Sort {

  type Less<!T> = (T, T) -> bool

  /** A strict weak order. */
  ghost predicate WeakOrder<T(!new)>(lt: Less<T>) {
    && (forall x :: !lt(x, x))
    && (forall x, y, z :: lt(x, y) ==> lt(x, z) || lt(z, y))
    && (forall x, y, z :: lt(x, y) && lt(y, z) ==> lt(x, z))
  }

  /** `x` may stand before `y`. */
  predicate Le<T>(lt: Less<T>, x: T, y: T) {
    !lt(y, x)
  }

  lemma LeTrans<T(!new)>(lt: Less<T>, x: T, y: T, z: T)
    requires WeakOrder(lt) && Le(lt, x, y) && Le(lt, y, z)
    ensures Le(lt, x, z)
  {
  }

  lemma LtLe<T(!new)>(lt: Less<T>, x: T, y: T)
    requires WeakOrder(lt) && lt(x, y)
    ensures Le(lt, x, y)
  {
  }

  // ----- Permutations of a part -----

  /** `t` is a permutation of `s` that only moves elements within l..u. */
  ghost predicate Permuted<T>(s: seq<T>, t: seq<T>, l: int, u: int) {
    && |t| == |s| && multiset(t) == multiset(s)
    && forall k :: 0 <= k < |s| && (k < l || k > u) ==> t[k] == s[k]
  }

  lemma PermutedTrans<T>(s: seq<T>, t: seq<T>, r: seq<T>, l: int, u: int, l': int, u': int)
    requires Permuted(s, t, l, u) && Permuted(t, r, l', u') && l <= l' && u' <= u
    ensures Permuted(s, r, l, u)
  {
  }

  /** Every element of the part was in the part before. */
  lemma PartOf<T>(s: seq<T>, t: seq<T>, l: int, u: int, k: int) returns (j: int)
    requires Permuted(s, t, l, u) && 0 <= l <= k <= u < |s|
    ensures l <= j <= u && s[j] == t[k]
  {
    assert s == s[..l] + s[l..u + 1] + s[u + 1..];
    assert t == t[..l] + t[l..u + 1] + t[u + 1..];
    assert s[..l] == t[..l] && s[u + 1..] == t[u + 1..];
    assert multiset(s) == multiset(s[..l]) + multiset(s[l..u + 1]) + multiset(s[u + 1..]);
    assert multiset(t) == multiset(t[..l]) + multiset(t[l..u + 1]) + multiset(t[u + 1..]);
    Cancel(multiset(s[..l]), multiset(s[l..u + 1]), multiset(t[l..u + 1]), multiset(s[u + 1..]));
    assert t[l..u + 1][k - l] in multiset(t[l..u + 1]);
    assert t[k] in s[l..u + 1];
    var i :| 0 <= i < |s[l..u + 1]| && s[l..u + 1][i] == t[k];
    j := l + i;
  }

  lemma Cancel<T>(a: multiset<T>, m: multiset<T>, m': multiset<T>, c: multiset<T>)
    requires a + m + c == a + m' + c
    ensures m == m'
  {
    assert m == (a + m + c) - a - c;
    assert m' == (a + m' + c) - a - c;
  }

  function Swapped<T>(s: seq<T>, i: nat, j: nat): seq<T>
    requires i < |s| && j < |s|
  {
    s[i := s[j]][j := s[i]]
  }

  lemma SwapPermutes<T>(s: seq<T>, i: nat, j: nat, l: int, u: int)
    requires i < |s| && j < |s| && l <= i <= u && l <= j <= u
    ensures Permuted(s, Swapped(s, i, j), l, u)
  {
  }

  // ----- Order -----

  /** All pairs of l0..u0 are in order but for those within l..u. */
  ghost predicate OrderedBut<T>(lt: Less<T>, s: seq<T>, l0: int, u0: int, l: int, u: int)
    requires 0 <= l0 && u0 < |s|
  {
    forall p, q :: l0 <= p < q <= u0 && !(l <= p && q <= u) ==> Le(lt, s[p], s[q])
  }

  ghost predicate Ordered<T>(lt: Less<T>, s: seq<T>, l: int, u: int)
    requires 0 <= l && u < |s|
  {
    forall p, q :: l <= p < q <= u ==> Le(lt, s[p], s[q])
  }

  /** Nothing before `i` is greater, nothing behind it is less. */
  ghost predicate Split<T>(lt: Less<T>, s: seq<T>, l: int, u: int, i: int)
    requires 0 <= l <= i <= u < |s|
  {
    (forall k :: l <= k < i ==> Le(lt, s[k], s[i])) && (forall k :: i < k <= u ==> Le(lt, s[i], s[k]))
  }

  lemma PermuteBut<T>(lt: Less<T>, s: seq<T>, t: seq<T>, l0: int, u0: int, l: int, u: int)
    requires 0 <= l0 <= l && u <= u0 < |s| && l <= u + 1 && OrderedBut(lt, s, l0, u0, l, u) && Permuted(s, t, l, u)
    ensures OrderedBut(lt, t, l0, u0, l, u)
  {
    forall p, q | l0 <= p < q <= u0 && !(l <= p && q <= u)
      ensures Le(lt, t[p], t[q])
    {
      var p', q' := p, q;
      if l <= p <= u { p' := PartOf(s, t, l, u, p); }
      if l <= q <= u { q' := PartOf(s, t, l, u, q); }
      assert Le(lt, s[p'], s[q']);
    }
  }

  /** Sorting the part on one side of the pivot leaves only the other side to do. */
  lemma SplitBut<T(!new)>(lt: Less<T>, s: seq<T>, l0: int, u0: int, l: int, u: int, i: int)
    requires WeakOrder(lt) && 0 <= l0 <= l <= i <= u <= u0 < |s| && OrderedBut(lt, s, l0, u0, l, u)
      && Split(lt, s, l, u, i)
    ensures Ordered(lt, s, l, i - 1) ==> OrderedBut(lt, s, l0, u0, i + 1, u)
    ensures Ordered(lt, s, i + 1, u) ==> OrderedBut(lt, s, l0, u0, l, i - 1)
  {
    forall p, q | l <= p < i && i < q <= u
      ensures Le(lt, s[p], s[q])
    {
      LeTrans(lt, s[p], s[i], s[q]);
    }
    hide WeakOrder;
  }

  lemma PermuteSplit<T>(lt: Less<T>, s: seq<T>, t: seq<T>, l: int, u: int, i: int, l': int, u': int)
    requires 0 <= l <= i <= u < |s| && Split(lt, s, l, u, i) && Permuted(s, t, l', u')
    requires (l' == l && u' == i - 1) || (l' == i + 1 && u' == u)
    ensures Split(lt, t, l, u, i)
  {
    forall k | l <= k <= u && k != i
      ensures if k < i then Le(lt, t[k], t[i]) else Le(lt, t[i], t[k])
    {
      if l' <= k <= u' {
        var j := PartOf(s, t, l', u', k);
      }
    }
  }

  // ----- The scans -----

  function Pow2(n: nat): (r: nat)
    ensures r >= 1
  {
    if n == 0 then 1 else 2 * Pow2(n - 1)
  }

  method Swap<T>(a: array<T>, i: nat, j: nat)
    requires i < a.Length && j < a.Length
    modifies a
    ensures a[..] == Swapped(old(a[..]), i, j)
    ensures a[i] == old(a[j]) && a[j] == old(a[i]) && forall k :: 0 <= k < a.Length && k != i && k != j ==>
      a[k] == old(a[k])
  {
    a[i], a[j] := a[j], a[i];
  }

  /** The first three comparisons of ltablib.c `auxsort`: a[l], a[m] and a[u] in order, m in the
      middle; with two elements these are in order. */
  method Three<T(!new)>(lt: Less<T>, a: array<T>, l: nat, u: nat) returns (i: nat)
    requires WeakOrder(lt) && l < u < a.Length
    modifies a
    ensures Permuted(old(a[..]), a[..], l, u) && i == (l + u) / 2
    ensures Le(lt, a[l], a[i]) && Le(lt, a[i], a[u])
  {
    hide WeakOrder, Permuted, Swapped;
    i := (l + u) / 2;
    FirstTwo(lt, a, l, u);
    if u - l == 1 {
      Irreflexive(lt, a[l]);
      return;
    }
    ghost var s, t := old(a[..]), a[..];
    if lt(a[i], a[l]) {
      SwapPermutes(t, i, l, l, u);
      Lower(lt, a[i], a[l], a[u]);
      Swap(a, i, l);
      PermutedTrans(s, t, a[..], l, u, l, u);
    } else if lt(a[u], a[i]) {
      SwapPermutes(t, i, u, l, u);
      Upper(lt, a[l], a[u], a[i]);
      Swap(a, i, u);
      PermutedTrans(s, t, a[..], l, u, l, u);
    }
  }

  method FirstTwo<T(!new)>(lt: Less<T>, a: array<T>, l: nat, u: nat)
    requires WeakOrder(lt) && l < u < a.Length
    modifies a
    ensures Permuted(old(a[..]), a[..], l, u) && Le(lt, a[l], a[u])
  {
    hide WeakOrder, Permuted, Swapped;
    SameSeq(lt, a[..], l, u);
    if lt(a[u], a[l]) {
      SwapPermutes(a[..], l, u, l, u);
      LtLe(lt, a[u], a[l]);
      Swap(a, l, u);
    }
  }

  lemma Upper<T(!new)>(lt: Less<T>, x: T, y: T, z: T)
    requires WeakOrder(lt) && Le(lt, x, y) && lt(y, z)
    ensures Le(lt, y, z) && Le(lt, x, y)
  {
  }

  lemma Irreflexive<T(!new)>(lt: Less<T>, x: T)
    requires WeakOrder(lt)
    ensures !lt(x, x)
  {
  }

  lemma Lower<T(!new)>(lt: Less<T>, x: T, y: T, z: T)
    requires WeakOrder(lt) && lt(x, y) && Le(lt, y, z)
    ensures Le(lt, x, y) && Le(lt, x, z)
  {
  }

  ghost predicate Low<T>(lt: Less<T>, s: seq<T>, l: int, i: int, p: T)
    requires 0 <= l && i < |s|
  {
    forall k :: l <= k <= i ==> Le(lt, s[k], p)
  }

  ghost predicate High<T>(lt: Less<T>, s: seq<T>, j: int, u: int, p: T)
    requires 0 <= j && u < |s|
  {
    forall k :: j <= k <= u ==> Le(lt, p, s[k])
  }

  /** Repeat ++i until a[i] >= p: it stops before u, at the latest at what is known to be high. */
  method ScanUp<T(!new)>(lt: Less<T>, a: array<T>, l: nat, i: nat, j: nat, u: nat, p: T) returns (r: nat)
    requires WeakOrder(lt) && l <= i <= j < u < a.Length && i < u - 1 && Low(lt, a[..], l, i, p)
      && High(lt, a[..], j, u, p)
    ensures i < r <= u - 1 && (r <= j || r == i + 1) && Low(lt, a[..], l, r - 1, p) && Le(lt, p, a[r])
  {
    r := i + 1;
    while lt(a[r], p)
      invariant i < r <= u - 1 && (r <= j || r == i + 1) && Low(lt, a[..], l, r - 1, p)
      decreases u - r
    {
      assert r < j by { assert r >= j ==> Le(lt, p, a[..][r]); }
      LtLe(lt, a[r], p);
      r := r + 1;
    }
  }

  /** Repeat --j until a[j] <= p: it stops at l or above. */
  method ScanDown<T(!new)>(lt: Less<T>, a: array<T>, l: nat, i: nat, j: nat, u: nat, p: T) returns (r: nat)
    requires WeakOrder(lt) && l <= i <= j <= u < a.Length && l < j && Low(lt, a[..], l, i, p)
      && High(lt, a[..], j, u, p)
    ensures l <= r < j && High(lt, a[..], r + 1, u, p) && Le(lt, a[r], p)
  {
    r := j - 1;
    while lt(p, a[r])
      invariant l <= r < j && High(lt, a[..], r + 1, u, p)
      decreases r
    {
      assert r > i by { assert r <= i ==> Le(lt, a[..][r], p); }
      LtLe(lt, p, a[r]);
      r := r - 1;
    }
  }

  lemma Exchange<T>(lt: Less<T>, s: seq<T>, l: nat, u: nat, i: nat, j: nat, p: T)
    requires l < i <= j < u - 1 && u < |s| && Low(lt, s, l, i - 1, p) && High(lt, s, j + 1, u, p) && Le(lt, s[j], p)
      && Le(lt, p, s[i])
    ensures var t := Swapped(s, i, j);
      Low(lt, t, l, i, p) && High(lt, t, j, u, p) && t[u - 1] == s[u - 1] && Permuted(s, t, l, u)
  {
    SwapPermutes(s, i, j, l, u);
  }

  lemma Finish<T>(lt: Less<T>, s: seq<T>, l: nat, u: nat, i: nat, j: nat, p: T)
    requires l < i <= u - 1 && u < |s| && j < i && Low(lt, s, l, i - 1, p) && High(lt, s, j + 1, u, p) && s[u - 1] == p
    ensures var t := Swapped(s, u - 1, i); Split(lt, t, l, u, i) && Permuted(s, t, l, u)
  {
    hide Permuted;
    SwapPermutes(s, u - 1, i, l, u);
    var t := Swapped(s, u - 1, i);
    assert t[i] == p && t[u - 1] == s[i] && forall k :: 0 <= k < |s| && k != i && k != u - 1 ==> t[k] == s[k];
    hide Swapped;
  }

  lemma AtEnds<T>(lt: Less<T>, s: seq<T>, l: nat, u: nat, p: T)
    requires l + 3 <= u < |s| && Le(lt, s[l], p) && Le(lt, p, s[u]) && s[u - 1] == p && Le(lt, p, p)
    ensures Low(lt, s, l, l, p) && High(lt, s, u - 1, u, p)
  {
  }

  lemma LowLess<T>(lt: Less<T>, s: seq<T>, l: int, i: int, k: int, p: T)
    requires 0 <= l && i < |s| && Low(lt, s, l, i, p) && k <= i
    ensures Low(lt, s, l, k, p)
  {
  }

  /** The loop of ltablib.c `auxsort` around the pivot, which waits at u - 1. */
  method Partition<T(!new)>(lt: Less<T>, a: array<T>, l: nat, u: nat) returns (i: nat)
    requires WeakOrder(lt) && l + 3 <= u < a.Length && Le(lt, a[l], a[u - 1]) && Le(lt, a[u - 1], a[u])
    modifies a
    ensures l < i < u && Permuted(old(a[..]), a[..], l, u) && Split(lt, a[..], l, u, i)
  {
    hide WeakOrder, Permuted, Low, High;
    var p := a[u - 1];
    var j := u - 1;
    i := l;
    ghost var s := a[..];
    SameSeq(lt, s, l, u);
    Irreflexive(lt, p);
    AtEnds(lt, s, l, u, p);
    while true
      invariant l <= i <= j <= u - 1 && (i == j ==> l < i && j < u - 1) && a[u - 1] == p
      invariant Low(lt, a[..], l, i, p) && High(lt, a[..], j, u, p)
      invariant Permuted(s, a[..], l, u)
      decreases j
    {
      ghost var t := a[..];
      i := ScanUp(lt, a, l, i, j, u, p);
      LowLess(lt, t, l, i - 1, if i > j then j else i - 1, p);
      j := ScanDown(lt, a, l, if i > j then j else i - 1, j, u, p);
      if j < i {
        Finish(lt, t, l, u, i, j, p);
        Swap(a, u - 1, i);
        PermutedTrans(s, t, a[..], l, u, l, u);
        return;
      }
      Exchange(lt, t, l, u, i, j, p);
      Swap(a, i, j);
      PermutedTrans(s, t, a[..], l, u, l, u);
    }
  }

  /** The body of the loop of ltablib.c `auxsort` up to the recursive call. */
  method Divide<T(!new)>(lt: Less<T>, a: array<T>, l: nat, u: nat) returns (done: bool, i: nat)
    requires WeakOrder(lt) && l < u < a.Length
    modifies a
    ensures Permuted(old(a[..]), a[..], l, u)
    ensures if done then Ordered(lt, a[..], l, u) else u - l >= 3 && l < i < u && Split(lt, a[..], l, u, i)
  {
    hide WeakOrder, Permuted, Ordered, Split;
    ghost var s := a[..];
    i := Three(lt, a, l, u);
    ghost var t := a[..];
    if u - l <= 2 {
      Small(lt, t, l, u, i);
      return true, i;
    }
    SwapPermutes(t, i, u - 1, l, u);
    Swap(a, i, u - 1);
    PermutedTrans(s, t, a[..], l, u, l, u);
    t := a[..];
    i := Partition(lt, a, l, u);
    PermutedTrans(s, t, a[..], l, u, l, u);
    done := false;
  }

  /** ltablib.c `auxsort`: sorts l..u in place. `depth` is how deep the calls nest: only the smaller
      part is sorted by a call, so it is logarithmic. */
  method AuxSort<T(!new)>(lt: Less<T>, a: array<T>, l0: int, u0: int) returns (ghost depth: nat)
    requires WeakOrder(lt) && 0 <= l0 && u0 < a.Length
    modifies a
    ensures Permuted(old(a[..]), a[..], l0, u0) && Ordered(lt, a[..], l0, u0)
    ensures depth >= 1 && Pow2(depth - 1) <= (if u0 < l0 then 1 else u0 - l0 + 1)
    decreases u0 - l0
  {
    hide WeakOrder, Permuted, OrderedBut, Ordered, Split, Pow2;
    var l, u := l0, u0;
    ghost var s0 := a[..];
    depth := 1;
    SameSeq(lt, s0, l0, u0);
    Deeper(0);
    while l < u
      invariant l0 > u0 || (l0 <= l && u <= u0 && l <= u + 1)
      invariant l0 > u0 ==> l == l0 && u == u0
      invariant Permuted(s0, a[..], l0, u0) && OrderedBut(lt, a[..], l0, u0, l, u)
      invariant depth >= 1 && Pow2(depth - 1) <= (if u0 < l0 then 1 else u0 - l0 + 1)
      decreases u - l
    {
      ghost var s := a[..];
      var done, i := Divide(lt, a, l, u);
      Divided(lt, s0, s, a[..], l0, u0, l, u, done);
      if done {
        return;
      }
      ghost var t := a[..];
      ghost var d;
      if i - l < u - i {
        d := AuxSort(lt, a, l, i - 1);
        Sorted(lt, s0, t, a[..], l0, u0, l, u, i, l, i - 1);
        l := i + 1;
      } else {
        d := AuxSort(lt, a, i + 1, u);
        Sorted(lt, s0, t, a[..], l0, u0, l, u, i, i + 1, u);
        u := i - 1;
      }
      Deeper(d - 1);
      if d + 1 > depth { depth := d + 1; }
    }
    Done(lt, a[..], l0, u0, l, u);
  }

  lemma SameSeq<T>(lt: Less<T>, s: seq<T>, l: int, u: int)
    requires 0 <= l && u < |s|
    ensures Permuted(s, s, l, u) && OrderedBut(lt, s, l, u, l, u)
  {
  }

  lemma Divided<T>(lt: Less<T>, s0: seq<T>, s: seq<T>, t: seq<T>, l0: int, u0: int, l: int, u: int, done: bool)
    requires 0 <= l0 <= l < u <= u0 < |s| && Permuted(s0, s, l0, u0) && OrderedBut(lt, s, l0, u0, l, u)
      && Permuted(s, t, l, u)
    ensures Permuted(s0, t, l0, u0) && OrderedBut(lt, t, l0, u0, l, u)
    ensures Ordered(lt, t, l, u) ==> Ordered(lt, t, l0, u0)
  {
    PermutedTrans(s0, s, t, l0, u0, l, u);
    PermuteBut(lt, s, t, l0, u0, l, u);
    hide Permuted;
  }

  /** Two or three elements are in order. */
  lemma Small<T(!new)>(lt: Less<T>, s: seq<T>, l: int, u: int, i: int)
    requires 0 <= l < u < |s| && u - l <= 2 && i == (l + u) / 2
    requires Le(lt, s[l], s[i]) && Le(lt, s[i], s[u]) && WeakOrder(lt)
    ensures Ordered(lt, s, l, u)
  {
    LeTrans(lt, s[l], s[i], s[u]);
    hide WeakOrder;
  }

  lemma Done<T>(lt: Less<T>, s: seq<T>, l0: int, u0: int, l: int, u: int)
    requires 0 <= l0 && u0 < |s| && l >= u && OrderedBut(lt, s, l0, u0, l, u)
    ensures Ordered(lt, s, l0, u0)
  {
  }

  lemma Sorted<T(!new)>(lt: Less<T>, s0: seq<T>, s: seq<T>, t: seq<T>, l0: int, u0: int, l: int, u: int, i: int,
                        l': int, u': int)
    requires WeakOrder(lt) && 0 <= l0 <= l < i < u <= u0 < |s| && Permuted(s0, s, l0, u0)
      && OrderedBut(lt, s, l0, u0, l, u) && Split(lt, s, l, u, i)
    requires Permuted(s, t, l', u') && ((l' == l && u' == i - 1) || (l' == i + 1 && u' == u)) && Ordered(lt, t, l', u')
    ensures Permuted(s0, t, l0, u0)
    ensures if l' == l then OrderedBut(lt, t, l0, u0, i + 1, u) else OrderedBut(lt, t, l0, u0, l, i - 1)
  {
    hide WeakOrder, OrderedBut, Ordered, Split;
    PermutedTrans(s0, s, t, l0, u0, l', u');
    Within(s, t, l, u, l', u');
    PermuteBut(lt, s, t, l0, u0, l, u);
    PermuteSplit(lt, s, t, l, u, i, l', u');
    SplitBut(lt, t, l0, u0, l, u, i);
  }

  lemma Within<T>(s: seq<T>, t: seq<T>, l: int, u: int, l': int, u': int)
    requires Permuted(s, t, l', u') && l <= l' && u' <= u
    ensures Permuted(s, t, l, u)
  {
  }

  lemma Deeper(d: nat)
    ensures Pow2(0) == 1 && Pow2(d + 1) == 2 * Pow2(d)
  {
  }
}
