/** Counting integer keys to choose the size of the array part. */
module TableCount {
  import opened TableChains

  const MAXBITS: nat := 26
  const MAXASIZE: nat := 0x400_0000

  function Pow2(n: nat): (r: nat)
    ensures r >= 1
  {
    if n == 0 then 1 else 2 * Pow2(n - 1)
  }

  lemma {:induction false} Pow2Monotone(a: nat, b: nat)
    requires a <= b
    ensures Pow2(a) <= Pow2(b) && (a < b ==> 2 * Pow2(a) <= Pow2(b))
  {
    if a < b { Pow2Monotone(a, b - 1); }
  }

  lemma Pow2Max()
    ensures Pow2(MAXBITS) == MAXASIZE
  {
    assert Pow2(8) == 256;
    assert Pow2(16) == 65536;
    assert Pow2(24) == 16777216;
  }

  /** lobject.h `ceillog2`. */
  function CeilLog2(x: nat): (r: nat)
    requires x >= 1
    ensures x <= Pow2(r) && (r > 0 ==> Pow2(r - 1) < x)
  {
    if x == 1 then 0 else CeilLog2((x + 1) / 2) + 1
  }

  function Low(lg: nat): nat {
    if lg == 0 then 0 else Pow2(lg - 1)
  }

  /** The integers in (2^(lg-1), 2^lg]. */
  ghost function InSlice(s: set<int>, lg: nat): set<int> {
    set k | k in s && Low(lg) < k <= Pow2(lg)
  }

  ghost function UpTo(s: set<int>, n: int): set<int> {
    set k | k in s && 1 <= k <= n
  }

  /** `nums` counts the elements of `s` slice by slice. */
  ghost predicate Counts(nums: seq<nat>, s: set<int>) {
    |nums| == MAXBITS + 1 && forall lg :: 0 <= lg <= MAXBITS ==> nums[lg] == |InSlice(s, lg)|
  }

  lemma SliceBefore(k: int, a: nat, b: nat)
    requires a < b
    ensures k <= Pow2(a) ==> k <= Low(b)
  {
    Pow2Monotone(a, b - 1);
  }

  /** Counting one more element. */
  lemma CountOne(nums: seq<nat>, s: set<int>, k: int, lg: nat)
    requires Counts(nums, s) && k !in s && Low(lg) < k <= Pow2(lg) && lg <= MAXBITS
    ensures Counts(nums[lg := nums[lg] + 1], s + {k})
  {
    forall l | 0 <= l <= MAXBITS
      ensures nums[lg := nums[lg] + 1][l] == |InSlice(s + {k}, l)|
    {
      if l == lg {
        assert InSlice(s + {k}, l) == InSlice(s, l) + {k};
      } else {
        if l < lg { SliceBefore(k, l, lg); } else { SliceBefore(k, lg, l); }
        assert InSlice(s + {k}, l) == InSlice(s, l);
      }
    }
  }

  /** At most `n` distinct integers lie in 1..n. */
  lemma {:induction false} IntervalSize(s: set<int>, n: nat)
    ensures |UpTo(s, n)| <= n
  {
    if n == 0 {
      assert UpTo(s, 0) == {};
    } else {
      IntervalSize(s, n - 1);
      assert UpTo(s, n) <= UpTo(s, n - 1) + {n};
      SubsetSize(UpTo(s, n), UpTo(s, n - 1) + {n});
    }
  }

  lemma {:induction false} SubsetSize<T>(a: set<T>, b: set<T>)
    requires a <= b
    ensures |a| <= |b| && (|a| == |b| ==> a == b)
  {
    if a != {} {
      var x :| x in a;
      SubsetSize(a - {x}, b - {x});
    }
  }

  lemma UpToSlice(s: set<int>, lg: nat)
    ensures |UpTo(s, Pow2(lg))| == |UpTo(s, Low(lg))| + |InSlice(s, lg)|
  {
    assert Low(lg) <= Pow2(lg) by { if lg > 0 { Pow2Monotone(lg - 1, lg); } }
    assert UpTo(s, Pow2(lg)) == UpTo(s, Low(lg)) + InSlice(s, lg);
    assert UpTo(s, Low(lg)) !! InSlice(s, lg);
  }

  /** More than half of the slots 1..n would be in use. */
  ghost predicate Dense(s: set<int>, n: nat) {
    |UpTo(s, n)| > n / 2
  }

  ghost predicate Power(n: nat) {
    exists p: nat :: n == Pow2(p)
  }

  /** The size `computesizes` chooses: the largest power of two that would be more than half full. */
  ghost predicate BestSize(s: set<int>, n: nat) {
    && (n == 0 || (Power(n) && Dense(s, n)))
    && forall p: nat :: Dense(s, Pow2(p)) ==> Pow2(p) <= n
  }

  /** Beyond a size that no further element can fill by half, nothing is dense. */
  lemma NotDense(s: set<int>, p: nat, total: nat)
    requires |s| <= total <= Pow2(p) / 2
    ensures !Dense(s, Pow2(p))
  {
    SubsetSize(UpTo(s, Pow2(p)), s);
  }

  lemma LowHalf(p: nat)
    ensures Low(p) == Pow2(p) / 2
  {
  }

  /** ltable.c `computesizes`. */
  method ComputeSizes(nums: array<nat>, narray: nat, ghost s: set<int>) returns (n: nat, na: nat)
    requires Counts(nums[..], s) && narray == |s| && forall k :: k in s ==> 1 <= k <= MAXASIZE
    ensures BestSize(s, n) && na == |UpTo(s, n)| && n <= MAXASIZE
  {
    var i, twotoi, a := 0, 1, 0;
    n, na := 0, 0;
    Pow2Max();
    assert UpTo(s, 0) == {};
    assert UpTo(s, MAXASIZE) == s;
    IntervalSize(s, MAXASIZE);
    while twotoi / 2 < narray
      invariant 0 <= i && twotoi == Pow2(i) && a == |UpTo(s, Low(i))| && n <= MAXASIZE
      invariant na == |UpTo(s, n)| && (n == 0 || (Power(n) && Dense(s, n)))
      invariant forall p: nat :: p < i && Dense(s, Pow2(p)) ==> Pow2(p) <= n
      decreases MAXASIZE + 1 - twotoi
    {
      ghost var n0 := n;
      LowHalf(i);
      if i > MAXBITS { Pow2Monotone(MAXBITS, i - 1); assert false; }
      Pow2Monotone(i, MAXBITS);
      UpToSlice(s, i);
      assert nums[..][i] == nums[i];
      IntervalSize(s, Low(i));
      if nums[i] > 0 {
        a := a + nums[i];
        if a > twotoi / 2 {
          n, na := twotoi, a;
        }
      }
      BestSoFar(s, i, n0, n);
      if a == narray {
        AllCounted(s, i, n);
        return;
      }
      i, twotoi := i + 1, twotoi * 2;
    }
    NothingLeft(s, i, n);
  }

  lemma BestSoFar(s: set<int>, i: nat, n: nat, n': nat)
    requires forall p: nat :: p < i && Dense(s, Pow2(p)) ==> Pow2(p) <= n
    requires n' == if Dense(s, Pow2(i)) then Pow2(i) else n
    ensures forall p: nat :: p < i + 1 && Dense(s, Pow2(p)) ==> Pow2(p) <= n'
  {
    forall p: nat | p < i + 1 && Dense(s, Pow2(p))
      ensures Pow2(p) <= n'
    {
      Pow2Monotone(p, i);
    }
  }

  /** All elements are counted: a larger size would be at most half full. */
  lemma AllCounted(s: set<int>, i: nat, n: nat)
    requires |UpTo(s, Pow2(i))| == |s| && forall p: nat :: p < i + 1 && Dense(s, Pow2(p)) ==> Pow2(p) <= n
    ensures forall p: nat :: Dense(s, Pow2(p)) ==> Pow2(p) <= n
  {
    IntervalSize(s, Pow2(i));
    forall p: nat | p > i
      ensures !Dense(s, Pow2(p))
    {
      Pow2Monotone(i, p);
      NotDense(s, p, |s|);
    }
  }

  lemma NothingLeft(s: set<int>, i: nat, n: nat)
    requires Pow2(i) / 2 >= |s| && forall p: nat :: p < i && Dense(s, Pow2(p)) ==> Pow2(p) <= n
    ensures forall p: nat :: Dense(s, Pow2(p)) ==> Pow2(p) <= n
  {
    forall p: nat | p >= i
      ensures !Dense(s, Pow2(p))
    {
      Pow2Monotone(i, p);
      NotDense(s, p, |s|);
    }
  }
}
