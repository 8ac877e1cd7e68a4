/** The dependency graph printer: priorities of packages and the layout of its arrows. */
module Dependency {

  type Name = string

  // ----- Priorities -----

  function Max(a: int, b: int): int {
    if a < b then b else a
  }

  /** The greatest value of `h` on the names, 0 for none. */
  function MaxOf(ns: seq<Name>, h: Name -> nat): nat {
    if ns == [] then 0 else Max(MaxOf(ns[..|ns| - 1], h), h(ns[|ns| - 1]))
  }

  /** `h` is the length of the longest chain of dependencies below each package, itself included;
      packages that are not known count 0. Such an `h` exists if there are no cycles. */
  ghost predicate IsHeight(deps: map<Name, seq<Name>>, h: Name -> nat) {
    && (forall n :: n in deps ==> h(n) == 1 + MaxOf(deps[n], h))
    && (forall n :: n !in deps ==> h(n) == 0)
  }

  lemma {:induction false} MaxOfBounds(ns: seq<Name>, h: Name -> nat, i: nat)
    requires i < |ns|
    ensures h(ns[i]) <= MaxOf(ns, h)
  {
    if i < |ns| - 1 { MaxOfBounds(ns[..|ns| - 1], h, i); }
  }

  /** No cycles: every dependency has a lower rank. */
  ghost predicate Ranked(deps: map<Name, seq<Name>>, rk: Name -> nat) {
    forall n, i :: n in deps && 0 <= i < |deps[n]| ==> rk(deps[n][i]) < rk(n)
  }

  function Height(deps: map<Name, seq<Name>>, rk: Name -> nat, n: Name): nat
    decreases rk(n), if n in deps then |deps[n]| + 1 else 0
  {
    if n in deps then 1 + HeightBelow(deps, rk, n, |deps[n]|) else 0
  }

  function HeightBelow(deps: map<Name, seq<Name>>, rk: Name -> nat, n: Name, i: nat): nat
    requires n in deps && i <= |deps[n]|
    decreases rk(n), i
  {
    if i == 0 then 0
    else
      var d := deps[n][i - 1];
      Max(HeightBelow(deps, rk, n, i - 1), if rk(d) < rk(n) then Height(deps, rk, d) else 0)
  }

  lemma {:induction false} HeightPrefix(deps: map<Name, seq<Name>>, rk: Name -> nat, n: Name, i: nat)
    requires Ranked(deps, rk) && n in deps && i <= |deps[n]|
    ensures MaxOf(deps[n][..i], m => Height(deps, rk, m)) == HeightBelow(deps, rk, n, i)
  {
    if i > 0 {
      assert deps[n][..i][..i - 1] == deps[n][..i - 1];
      HeightPrefix(deps, rk, n, i - 1);
    }
  }

  /** Without cycles there are heights. */
  lemma HeightsExist(deps: map<Name, seq<Name>>, rk: Name -> nat)
    requires Ranked(deps, rk)
    ensures IsHeight(deps, m => Height(deps, rk, m))
  {
    var h := m => Height(deps, rk, m);
    forall n | n in deps
      ensures h(n) == 1 + MaxOf(deps[n], h)
    {
      assert deps[n][..|deps[n]|] == deps[n];
      HeightPrefix(deps, rk, n, |deps[n]|);
    }
  }

  function Unvisited(prio: map<Name, int>): set<Name> {
    set n | n in prio && prio[n] == -1
  }

  /** Every package has its height, or has not been visited, or is being visited and higher than
      `bound`. */
  ghost predicate Good(prio: map<Name, int>, h: Name -> nat, bound: nat) {
    forall n :: n in prio ==> prio[n] == -1 || prio[n] == h(n) || (prio[n] == -2 && h(n) > bound)
  }

  lemma SubsetSize(a: set<Name>, b: set<Name>)
    requires a <= b
    ensures |a| <= |b|
  {
    if a != {} {
      var x :| x in a;
      SubsetSize(a - {x}, b - {x});
    }
  }

  class PkgGraph {
    const deps: map<Name, seq<Name>>
    /** -1: not visited, -2: being visited. */
    var prio: map<Name, int>

    ghost predicate Valid()
      reads this
    {
      prio.Keys == deps.Keys && forall n :: n in prio ==> prio[n] >= -2
    }

    constructor (deps: map<Name, seq<Name>>)
      ensures Valid() && this.deps == deps && forall n :: n in deps ==> prio[n] == -1
    {
      this.deps := deps;
      prio := map n | n in deps :: -1;
    }

    /** dependency.cc `PkgGraph::GetPriority`. It ends on every graph; without cycles the priority is
        the length of the longest chain of dependencies. */
    method GetPriority(name: Name, ghost h: Name -> nat) returns (r: int)
      requires Valid()
      modifies this
      ensures Valid() && r >= 0 && Unvisited(prio) <= Unvisited(old(prio))
      ensures name in deps ==> name !in Unvisited(prio)
      ensures IsHeight(deps, h) && Good(old(prio), h, h(name)) ==>
        r == h(name) && Keeps(old(prio), prio, h) && Good(prio, h, h(name))
      decreases |Unvisited(prio)|
    {
      if name !in deps {
        return 0;
      }
      if prio[name] == -2 {
        prio := prio[name := 0];
      } else if prio[name] == -1 {
        r := Visit(name, h);
        return;
      }
      r := prio[name];
    }

    method Visit(name: Name, ghost h: Name -> nat) returns (r: int)
      requires Valid() && name in deps && prio[name] == -1
      modifies this
      ensures Valid() && r >= 0 && Unvisited(prio) <= Unvisited(old(prio)) && name !in Unvisited(prio)
      ensures IsHeight(deps, h) && Good(old(prio), h, h(name)) ==>
        r == h(name) && Keeps(old(prio), prio, h) && Good(prio, h, h(name))
      decreases |Unvisited(prio)|, 0
    {
      ghost var good := IsHeight(deps, h) && Good(prio, h, h(name));
      ghost var before := prio;
      hide IsHeight;
      prio := prio[name := -2];
      Marked(before, name);
      var newPriority := 0;
      var ns := deps[name];
      var i := 0;
      assert ns[..0] == [];
      if good { HeightOf(deps, h, name); }
      while i < |ns|
        invariant 0 <= i <= |ns| && Valid() && newPriority >= 0 && |Unvisited(prio)| < |Unvisited(before)|
          && Unvisited(prio) <= Unvisited(before)
        invariant good ==> newPriority == MaxOf(ns[..i], h) && InProgress(before, prio, name, h)
      {
        if good { MaxOfBounds(ns, h, i); Descend(before, prio, name, h, h(ns[i])); }
        ghost var mid := prio;
        var p := GetPriority(ns[i], h);
        SubsetSize(Unvisited(prio), Unvisited(mid));
        if good { Returned(before, mid, prio, name, h); }
        newPriority := Max(newPriority, p);
        assert ns[..i + 1][..i] == ns[..i];
        i := i + 1;
      }
      assert ns[..i] == ns;
      if good { Finished(before, prio, name, h); }
      ghost var last := prio;
      prio := prio[name := newPriority + 1];
      assert Unvisited(prio) <= Unvisited(last);
      r := prio[name];
    }
  }

  /** What a visit leaves of the priorities: those that were set or being set are as they were, new
      ones are heights. */
  ghost predicate Keeps(prio: map<Name, int>, prio': map<Name, int>, h: Name -> nat) {
    prio'.Keys == prio.Keys && forall n :: n in prio ==> prio'[n] == prio[n] || (prio[n] == -1 && prio'[n] == h(n))
  }

  /** While the dependencies of `name` are visited. */
  ghost predicate InProgress(before: map<Name, int>, prio: map<Name, int>, name: Name, h: Name -> nat) {
    && prio.Keys == before.Keys && name in prio && before[name] == -1 && prio[name] == -2
    && forall n :: n in prio && n != name ==> prio[n] == before[n] || (before[n] == -1 && prio[n] == h(n))
  }

  lemma Marked(prio: map<Name, int>, name: Name)
    requires name in prio && prio[name] == -1
    ensures var p := prio[name := -2]; Unvisited(p) == Unvisited(prio) - {name} && |Unvisited(p)| < |Unvisited(prio)|
  {
    assert Unvisited(prio[name := -2]) == Unvisited(prio) - {name};
    assert name in Unvisited(prio);
  }

  lemma HeightOf(deps: map<Name, seq<Name>>, h: Name -> nat, name: Name)
    requires IsHeight(deps, h) && name in deps
    ensures h(name) == 1 + MaxOf(deps[name], h)
  {
  }

  lemma Descend(before: map<Name, int>, prio: map<Name, int>, name: Name, h: Name -> nat, lower: nat)
    requires InProgress(before, prio, name, h) && Good(before, h, h(name)) && lower < h(name)
    ensures Good(prio, h, lower)
  {
  }

  lemma Returned(before: map<Name, int>, mid: map<Name, int>, prio: map<Name, int>, name: Name, h: Name -> nat)
    requires InProgress(before, mid, name, h) && Keeps(mid, prio, h)
    ensures InProgress(before, prio, name, h)
  {
  }

  lemma Finished(before: map<Name, int>, prio: map<Name, int>, name: Name, h: Name -> nat)
    requires InProgress(before, prio, name, h) && Good(before, h, h(name))
    ensures Keeps(before, prio[name := h(name)], h) && Good(prio[name := h(name)], h, h(name))
  {
  }

  // ----- Arrows -----

  datatype Pkg = Pkg(name: Name, deps: seq<Name>)

  ghost predicate Unique(needed: seq<Pkg>) {
    forall i, j :: 0 <= i < j < |needed| ==> needed[i].name != needed[j].name
  }

  predicate DependsOn(needed: seq<Pkg>, i: nat, k: nat)
    requires i < |needed| && k < |needed|
  {
    needed[k].name in needed[i].deps
  }

  /** The arrow of row `k` ends at the last row so far, up to `n`, that depends on it. */
  ghost predicate ArrowEnd(needed: seq<Pkg>, k: nat, n: nat, e: nat)
    requires k < n <= |needed|
  {
    && k <= e < n && (e == k || DependsOn(needed, e, k))
    && forall i :: k <= i < n && DependsOn(needed, i, k) ==> i <= e
  }

  /** dependency.cc `PrintGraph`, the loop that computes the lengths of the arrows. */
  method ArrowLengths(needed: seq<Pkg>) returns (end: array<nat>)
    requires Unique(needed)
    ensures fresh(end) && end.Length == |needed|
    ensures forall k :: 0 <= k < |needed| ==> ArrowEnd(needed, k, |needed|, end[k])
  {
    end := new nat[|needed|];
    var rows: map<Name, nat> := map[];
    var i := 0;
    while i < |needed|
      invariant 0 <= i <= |needed| && Rows(needed, rows, i)
      invariant forall k :: 0 <= k < i ==> ArrowEnd(needed, k, i, end[k])
    {
      rows := rows[needed[i].name := i];
      end[i] := i;
      AddNeeds(needed, i, rows, end);
      i := i + 1;
    }
  }

  /** The names of the arrows that exist. */
  ghost predicate Rows(needed: seq<Pkg>, rows: map<Name, nat>, n: nat)
    requires n <= |needed|
  {
    && (forall k :: 0 <= k < n ==> needed[k].name in rows && rows[needed[k].name] == k)
    && (forall x :: x in rows ==> rows[x] < n && needed[rows[x]].name == x)
  }

  /** Row `i` needs the arrows of its dependencies. */
  method AddNeeds(needed: seq<Pkg>, i: nat, rows: map<Name, nat>, end: array<nat>)
    requires i < |needed| == end.Length && Rows(needed, rows, i + 1) && end[i] == i
    requires forall k :: 0 <= k < i ==> ArrowEnd(needed, k, i, end[k])
    modifies end
    ensures forall k :: 0 <= k <= i ==> ArrowEnd(needed, k, i + 1, end[k])
  {
    assert forall k :: 0 <= k <= i ==> end[k] <= i;
    hide ArrowEnd, DependsOn;
    var d := 0;
    var ds := needed[i].deps;
    ghost var was := end[..];
    while d < |ds|
      invariant 0 <= d <= |ds|
      invariant forall k :: 0 <= k <= i ==> end[k] == if needed[k].name in ds[..d] then i else was[k]
    {
      assert ds[..d + 1] == ds[..d] + [ds[d]];
      if ds[d] in rows {
        var k := rows[ds[d]];
        end[k] := if end[k] < i then i else end[k];
      }
      d := d + 1;
    }
    assert ds[..d] == ds;
    NeedsAdded(needed, i, was, end[..]);
  }

  lemma NeedsAdded(needed: seq<Pkg>, i: nat, was: seq<nat>, end: seq<nat>)
    requires i < |needed| == |was| == |end| && was[i] == i && forall k :: 0 <= k < i ==> ArrowEnd(needed, k, i, was[k])
    requires forall k :: 0 <= k <= i ==> end[k] == if needed[k].name in needed[i].deps then i else was[k]
    ensures forall k :: 0 <= k <= i ==> ArrowEnd(needed, k, i + 1, end[k])
  {
  }

  // ----- Columns -----

  /** Arrows of rows j < i share a row. */
  predicate Overlap(end: seq<nat>, j: nat, i: nat)
    requires j < |end| && i < |end|
  {
    !(i > end[j] || end[i] < j)
  }

  predicate Long(end: seq<nat>) {
    forall k :: 0 <= k < |end| ==> k <= end[k] < |end|
  }

  /** Column `h` is taken for row `i` by an earlier arrow. */
  ghost predicate Taken(end: seq<nat>, pos: seq<nat>, i: nat, h: nat)
    requires i < |end| && i <= |pos| <= |end|
  {
    exists j :: 0 <= j < i && pos[j] == h && Overlap(end, j, i)
  }

  /** Each of the first `n` arrows has the first column that no earlier overlapping arrow has. */
  ghost predicate Greedy(end: seq<nat>, pos: seq<nat>, n: nat)
    requires n <= |pos| <= |end|
  {
    forall i :: 0 <= i < n ==> !Taken(end, pos, i, pos[i]) && forall h: nat :: h < pos[i] ==> Taken(end, pos, i, h)
  }

  /** dependency.cc `PrintGraph`, the greedy loop. */
  method AssignColumns(end: seq<nat>) returns (pos: seq<nat>)
    requires Long(end)
    ensures |pos| == |end| && Greedy(end, pos, |end|)
  {
    pos := [];
    var i := 0;
    while i < |end|
      invariant 0 <= i <= |end| && |pos| == i && Greedy(end, pos, i)
    {
      var h := FirstColumn(end, pos, i);
      GreedyStep(end, pos, i, h);
      pos := pos + [h];
      i := i + 1;
    }
  }

  /** The do-while loop: try columns until one is free. */
  method FirstColumn(end: seq<nat>, pos: seq<nat>, i: nat) returns (h: nat)
    requires Long(end) && i < |end| && |pos| == i
    ensures !Taken(end, pos, i, h) && forall g: nat :: g < h ==> Taken(end, pos, i, g)
  {
    h := 0;
    while true
      invariant forall g: nat :: g < h ==> Taken(end, pos, i, g)
      decreases i + 1 - h
    {
      var found := true;
      var j := 0;
      while j < i
        invariant 0 <= j <= i && (found <==> forall m :: 0 <= m < j ==> !(pos[m] == h && Overlap(end, m, i)))
      {
        if pos[j] == h && Overlap(end, j, i) { found := false; }
        j := j + 1;
      }
      if found {
        return;
      }
      TakenBound(end, pos, i, h);
      h := h + 1;
    }
  }

  lemma GreedyStep(end: seq<nat>, pos: seq<nat>, i: nat, h: nat)
    requires i < |end| && |pos| == i && Greedy(end, pos, i) && !Taken(end, pos, i, h) && forall g: nat :: g < h ==>
      Taken(end, pos, i, g)
    ensures Greedy(end, pos + [h], i + 1)
  {
    var pos' := pos + [h];
    forall k, g: nat | 0 <= k <= i
      ensures Taken(end, pos', k, g) <==> Taken(end, pos, k, g)
    {
    }
  }

  /** The columns below `h + 1` are taken by different arrows, so there are at most `i` of them. */
  lemma TakenBound(end: seq<nat>, pos: seq<nat>, i: nat, h: nat)
    requires i < |end| && |pos| == i && (forall g: nat :: g <= h ==> Taken(end, pos, i, g))
    ensures h < i
  {
    var js := Takers(end, pos, i, h + 1);
    Bounded(js, i);
  }

  /** An arrow for each of the columns below `n`. */
  lemma {:induction false} Takers(end: seq<nat>, pos: seq<nat>, i: nat, n: nat) returns (js: set<nat>)
    requires i < |end| && i <= |pos| <= |end| && (forall g: nat :: g < n ==> Taken(end, pos, i, g))
    ensures |js| == n && forall j :: j in js ==> j < i && pos[j] < n && Overlap(end, j, i)
  {
    if n == 0 {
      js := {};
    } else {
      js := Takers(end, pos, i, n - 1);
      assert Taken(end, pos, i, n - 1);
      var j :| 0 <= j < i && pos[j] == n - 1 && Overlap(end, j, i);
      js := js + {j};
    }
  }

  lemma {:induction false} Bounded(js: set<nat>, n: nat)
    requires forall j :: j in js ==> j < n
    ensures |js| <= n
  {
    if n == 0 {
      assert js == {};
    } else {
      Bounded(js - {n - 1}, n - 1);
      assert js == js - {n - 1} || js == (js - {n - 1}) + {n - 1};
    }
  }

  // ----- The layout is right and as narrow as possible -----

  /** The arrows that cross a row. */
  function Crossing(end: seq<nat>, row: nat): set<nat> {
    set k | 0 <= k < |end| && k <= row <= end[k]
  }

  /** Overlapping arrows are in different columns. */
  lemma NoOverlap(end: seq<nat>, pos: seq<nat>, j: nat, i: nat)
    requires |pos| == |end| && Greedy(end, pos, |end|) && j < i < |end| && Overlap(end, j, i)
    ensures pos[j] != pos[i]
  {
    assert !Taken(end, pos, i, pos[i]);
  }

  /** Columns in use. */
  function Columns(pos: seq<nat>): set<nat> {
    set i | 0 <= i < |pos| :: pos[i]
  }

  /** At some row as many arrows cross as the column of any given arrow requires. */
  lemma Needed(end: seq<nat>, pos: seq<nat>, i: nat)
    requires |pos| == |end| && Greedy(end, pos, |end|) && Long(end) && i < |end|
    ensures |Crossing(end, i)| >= pos[i] + 1
  {
    var js := Takers(end, pos, i, pos[i]);
    assert i !in js;
    forall j | j in js + {i}
      ensures j in Crossing(end, i)
    {
    }
    SetSize(js + {i}, Crossing(end, i));
  }

  lemma {:induction false} SetSize(a: set<nat>, b: set<nat>)
    requires a <= b
    ensures |a| <= |b|
  {
    if a != {} {
      var x :| x in a;
      SetSize(a - {x}, b - {x});
    }
  }

  /** No row is crossed by more arrows than there are columns. */
  lemma Enough(end: seq<nat>, pos: seq<nat>, row: nat, width: nat)
    requires |pos| == |end| && Greedy(end, pos, |end|) && Long(end) && forall i :: 0 <= i < |end| ==> pos[i] < width
    ensures |Crossing(end, row)| <= width
  {
    Distinct(end, pos, row, Crossing(end, row), width);
  }

  lemma {:induction false} Distinct(end: seq<nat>, pos: seq<nat>, row: nat, ks: set<nat>, width: nat)
    requires |pos| == |end| && Greedy(end, pos, |end|) && ks <= Crossing(end, row) && forall k :: k in ks ==>
      pos[k] < width
    ensures |ks| <= width
    decreases width
  {
    if width == 0 {
      assert ks == {};
    } else if k0 :| k0 in ks && pos[k0] == width - 1 {
      forall k | k in ks && k != k0
        ensures pos[k] < width - 1
      {
        if k < k0 { NoOverlap(end, pos, k, k0); } else { NoOverlap(end, pos, k0, k); }
      }
      Distinct(end, pos, row, ks - {k0}, width - 1);
    } else {
      Distinct(end, pos, row, ks, width - 1);
    }
  }

  function Upto(n: nat): (r: set<nat>)
    ensures |r| == n && forall h: nat :: h in r <==> h < n
  {
    if n == 0 then {} else Upto(n - 1) + {n - 1}
  }

  /** Every column up to the last is in use. */
  lemma AllUsed(end: seq<nat>, pos: seq<nat>, width: nat, last: nat)
    requires |pos| == |end| && Greedy(end, pos, |end|) && last < |end| && width == pos[last] + 1
      && forall i :: 0 <= i < |end| ==> pos[i] < width
    ensures Columns(pos) == Upto(width)
  {
    forall h: nat | h < width
      ensures h in Columns(pos)
    {
      assert h < pos[last] ==> Taken(end, pos, last, h);
    }
  }

  /** A layout: overlapping arrows are in different columns. */
  ghost predicate Separates(end: seq<nat>, pos: seq<nat>) {
    |pos| == |end| && forall i, j :: 0 <= j < i < |end| && Overlap(end, j, i) ==> pos[j] != pos[i]
  }

  /** In any layout the arrows that cross a row have a column each. */
  lemma {:induction false} ColumnEach(end: seq<nat>, pos: seq<nat>, row: nat, ks: set<nat>)
    requires Separates(end, pos) && ks <= Crossing(end, row)
    ensures |ks| == |set k | k in ks :: pos[k]|
  {
    if ks != {} {
      var k0 :| k0 in ks;
      ColumnEach(end, pos, row, ks - {k0});
      var rest := set k | k in ks - {k0} :: pos[k];
      forall k | k in ks - {k0}
        ensures pos[k] != pos[k0]
      {
        assert k in Crossing(end, row) && k0 in Crossing(end, row);
        assert if k < k0 then Overlap(end, k, k0) else Overlap(end, k0, k);
      }
      assert pos[k0] !in rest;
      assert (set k | k in ks :: pos[k]) == rest + {pos[k0]};
    }
  }

  /** No layout has fewer columns than arrows that cross one row. */
  lemma NoFewer(end: seq<nat>, pos: seq<nat>, row: nat)
    requires Separates(end, pos)
    ensures |Columns(pos)| >= |Crossing(end, row)|
  {
    var ks := Crossing(end, row);
    ColumnEach(end, pos, row, ks);
    SetSize(set k | k in ks :: pos[k], Columns(pos));
  }

  /** The number of columns is exactly the greatest number of arrows that cross one row, and no layout
      has fewer. */
  lemma Optimal(end: seq<nat>, pos: seq<nat>, width: nat, last: nat)
    requires |pos| == |end| && Greedy(end, pos, |end|) && Long(end)
    requires last < |end| && width == pos[last] + 1 && forall i :: 0 <= i < |end| ==> pos[i] < width
    ensures |Columns(pos)| == width && |Crossing(end, last)| == width && forall row :: |Crossing(end, row)| <= width
    ensures Separates(end, pos) && forall pos' :: Separates(end, pos') ==> |Columns(pos)| <= |Columns(pos')|
  {
    AllUsed(end, pos, width, last);
    Needed(end, pos, last);
    forall row: nat
      ensures |Crossing(end, row)| <= width
    {
      Enough(end, pos, row, width);
    }
    forall i, j | 0 <= j < i < |end| && Overlap(end, j, i)
      ensures pos[j] != pos[i]
    {
      NoOverlap(end, pos, j, i);
    }
    forall pos' | Separates(end, pos')
      ensures |Columns(pos)| <= |Columns(pos')|
    {
      NoFewer(end, pos', last);
    }
  }

  // ----- The order of the rows -----

  /** The rows are the known packages, sorted by priority. */
  ghost predicate ByPriority(needed: seq<Pkg>, deps: map<Name, seq<Name>>, h: Name -> nat) {
    && (forall i :: 0 <= i < |needed| ==> needed[i].name in deps && deps[needed[i].name] == needed[i].deps)
    && forall i, k :: 0 <= i <= k < |needed| ==> h(needed[i].name) <= h(needed[k].name)
  }

  /** Sorted by priority, a package comes behind everything it depends on, and is reached by the arrow of
      each of these. */
  lemma EveryArrow(needed: seq<Pkg>, deps: map<Name, seq<Name>>, h: Name -> nat, end: seq<nat>, i: nat, k: nat)
    requires IsHeight(deps, h) && ByPriority(needed, deps, h) && |end| == |needed|
    requires forall n :: 0 <= n < |needed| ==> ArrowEnd(needed, n, |needed|, end[n])
    requires i < |needed| && k < |needed| && DependsOn(needed, i, k)
    ensures k < i <= end[k]
  {
    var ns := needed[i].deps;
    var n :| 0 <= n < |ns| && ns[n] == needed[k].name;
    MaxOfBounds(ns, h, n);
  }

  /** Both loops: arrows reach the last row that needs them, overlapping arrows are in different
      columns, and no layout could do with fewer. */
  method Layout(needed: seq<Pkg>) returns (end: seq<nat>, pos: seq<nat>)
    requires Unique(needed)
    ensures |end| == |pos| == |needed|
    ensures forall k :: 0 <= k < |needed| ==> ArrowEnd(needed, k, |needed|, end[k])
    ensures forall i, j :: 0 <= j < i < |needed| && j <= end[i] && i <= end[j] ==> pos[j] != pos[i]
    ensures needed != [] ==>
      exists row :: |Columns(pos)| == |Crossing(end, row)| && forall r :: |Crossing(end, r)| <= |Crossing(end, row)|
    ensures Separates(end, pos) && forall pos' :: Separates(end, pos') ==> |Columns(pos)| <= |Columns(pos')|
  {
    var ends := ArrowLengths(needed);
    end := ends[..];
    assert Long(end) by {
      forall k | 0 <= k < |end|
        ensures k <= end[k] < |end|
      {
        assert ArrowEnd(needed, k, |needed|, ends[k]);
      }
    }
    pos := AssignColumns(end);
    forall i, j | 0 <= j < i < |needed| && j <= end[i] && i <= end[j]
      ensures pos[j] != pos[i]
    {
      NoOverlap(end, pos, j, i);
    }
    if needed != [] {
      ghost var last := Rightmost(pos);
      Optimal(end, pos, pos[last] + 1, last);
    }
  }

  lemma {:induction false} Rightmost(pos: seq<nat>) returns (last: nat)
    requires pos != []
    ensures last < |pos| && forall i :: 0 <= i < |pos| ==> pos[i] <= pos[last]
  {
    if |pos| == 1 {
      last := 0;
    } else {
      last := Rightmost(pos[..|pos| - 1]);
      assert forall i :: 0 <= i < |pos| - 1 ==> pos[..|pos| - 1][i] == pos[i];
      if pos[|pos| - 1] > pos[last] { last := |pos| - 1; }
    }
  }
}
