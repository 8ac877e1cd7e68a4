/** Lua patterns: their syntax, what they match, and which match comes first. */
module PatternSem {

  const ESC: char := '%'
  const NUL: char := '\0'

  const MAXCAPTURES: nat := 32
  const CAP_UNFINISHED: int := -1
  const CAP_POSITION: int := -2

  datatype Option<T> = None | Some(value: T)

  /** The `isalpha` family is a parameter: a letter names the test. */
  type Ctype = (char, char) -> bool

  /** C strings end with a zero. */
  function At(s: string, i: nat): char {
    if i < |s| then s[i] else NUL
  }

  // ----- Character classes -----

  datatype Elem = Escaped(cl: char) | Range(lo: char, hi: char) | Plain(c: char)

  datatype Class = Any | Letter(cl: char) | Set(negated: bool, elems: seq<Elem>) | Exactly(c: char)

  predicate IsLower(c: char) {
    'a' <= c <= 'z'
  }

  function ToLower(c: char): char {
    if 'A' <= c <= 'Z' then c + ' ' else c
  }

  /** lstrlib.c `match_class`. */
  predicate MatchClass(ctype: Ctype, c: char, cl: char) {
    var l := ToLower(cl);
    if l in "acdlpsuwx" then ctype(l, c) == IsLower(cl)
    else if l == 'z' then (c == NUL) == IsLower(cl)
    else cl == c
  }

  predicate InElem(ctype: Ctype, e: Elem, c: char) {
    match e
    case Escaped(cl) => MatchClass(ctype, c, cl)
    case Range(lo, hi) => lo <= c <= hi
    case Plain(d) => d == c
  }

  predicate Member(ctype: Ctype, cls: Class, c: char) {
    match cls
    case Any => true
    case Letter(cl) => MatchClass(ctype, c, cl)
    case Set(negated, elems) => (exists i :: 0 <= i < |elems| && InElem(ctype, elems[i], c)) != negated
    case Exactly(d) => d == c
  }

  // ----- Syntax -----

  datatype Rep = One | Opt | Star | Plus | Minus

  datatype Item =
    | Single(cls: Class, rep: Rep)
    | Open
    | Position
    | Close
    | Back(l: int)
    | Balance(b: char, e: char)
    | Frontier(cls: Class)
    | End

  /** The closing `]` of a set whose contents start at `p`; the first character never closes it. */
  function SetEnd(pat: string, p: nat): (r: Option<nat>)
    ensures r.Some? ==> p < r.value < |pat| && pat[r.value] == ']'
    decreases |pat| - p
  {
    if At(pat, p) == NUL then None
    else
      var q := if At(pat, p) == ESC && At(pat, p + 1) != NUL then p + 2 else p + 1;
      if q < |pat| && pat[q] == ']' then Some(q) else if q >= |pat| then None else SetEnd(pat, q)
  }

  /** Where the contents of a set start. */
  function SetStart(pat: string, p: nat): nat {
    if At(pat, p + 1) == '^' then p + 2 else p + 1
  }

  /** The end of the single-character class at `p`. */
  function ClassEnd(pat: string, p: nat): (r: Option<nat>)
    requires p < |pat|
    ensures r.Some? ==> p < r.value <= |pat|
  {
    if pat[p] == ESC then if At(pat, p + 1) == NUL then None else Some(p + 2)
    else if pat[p] == '[' then
      var e := SetEnd(pat, SetStart(pat, p));
      if e.None? then None else Some(e.value + 1)
    else Some(p + 1)
  }

  /** The elements of a set, from `q` up to its closing bracket. */
  function Elems(pat: string, q: nat, ec: nat): seq<Elem>
    decreases if q < ec then ec - q else 0
  {
    if q >= ec then []
    else if At(pat, q) == ESC then [Escaped(At(pat, q + 1))] + Elems(pat, q + 2, ec)
    else if At(pat, q + 1) == '-' && q + 2 < ec then [Range(At(pat, q), At(pat, q + 2))] + Elems(pat, q + 3, ec)
    else [Plain(At(pat, q))] + Elems(pat, q + 1, ec)
  }

  function ClassAt(pat: string, p: nat, ep: nat): Class
    requires p < ep <= |pat|
  {
    if pat[p] == '.' then Any
    else if pat[p] == ESC then Letter(At(pat, p + 1))
    else if pat[p] == '[' then Set(At(pat, p + 1) == '^', Elems(pat, SetStart(pat, p), ep - 1))
    else Exactly(pat[p])
  }

  function RepOf(c: char): Rep {
    if c == '?' then Opt else if c == '*' then Star else if c == '+' then Plus else if c == '-' then Minus else One
  }

  predicate IsDigit(c: char) {
    '0' <= c <= '9'
  }

  /** The first item at `p` and where the pattern goes on; none at the end or if it is malformed. */
  datatype Head = Malformed | Finished | Next(item: Item, rest: nat)

  function HeadAt(pat: string, p: nat): (h: Head)
    requires p <= |pat|
    ensures h.Next? ==> p < h.rest <= |pat|
  {
    if At(pat, p) == NUL then Finished
    else if pat[p] == '(' then if At(pat, p + 1) == ')' then Next(Position, p + 2) else Next(Open, p + 1)
    else if pat[p] == ')' then Next(Close, p + 1)
    else if pat[p] == ESC && At(pat, p + 1) == 'b' then
      if At(pat, p + 2) == NUL || At(pat, p + 3) == NUL then Malformed else Next(Balance(pat[p + 2], pat[p + 3]), p + 4)
    else if pat[p] == ESC && At(pat, p + 1) == 'f' then
      if At(pat, p + 2) != '[' then Malformed
      else
        var ep := ClassEnd(pat, p + 2);
        if ep.None? then Malformed else Next(Frontier(ClassAt(pat, p + 2, ep.value)), ep.value)
    else if pat[p] == ESC && IsDigit(At(pat, p + 1)) then Next(Back(At(pat, p + 1) as int - '1' as int), p + 2)
    else if pat[p] == '$' && At(pat, p + 1) == NUL then Next(End, p + 1)
    else
      var ep := ClassEnd(pat, p);
      if ep.None? then Malformed
      else
        var rep := RepOf(At(pat, ep.value));
        Next(Single(ClassAt(pat, p, ep.value), rep), if rep == One then ep.value else ep.value + 1)
  }

  /** The items of a well-formed pattern. */
  function Parse(pat: string, p: nat): Option<seq<Item>>
    requires p <= |pat|
    decreases |pat| - p
  {
    match HeadAt(pat, p)
    case Malformed => None
    case Finished => Some([])
    case Next(item, rest) =>
      var r := Parse(pat, rest);
      if r.None? then None else Some([item] + r.value)
  }

  /** Captures are opened, closed and referred to properly; `open` says which are open so far. */
  predicate Balanced(items: seq<Item>, open: seq<bool>)
    decreases |items|
  {
    items == [] ||
    match items[0]
    case Open => |open| < MAXCAPTURES && Balanced(items[1..], open + [true])
    case Position => |open| < MAXCAPTURES && Balanced(items[1..], open + [false])
    case Close => LastOpen(open) >= 0 && Balanced(items[1..], open[LastOpen(open) := false])
    case Back(l) => 0 <= l < |open| && !open[l] && Balanced(items[1..], open)
    case _ => Balanced(items[1..], open)
  }

  function LastOpen(open: seq<bool>): (l: int)
    ensures -1 <= l < |open|
    ensures l >= 0 ==> open[l]
    ensures forall i :: l < i < |open| ==> !open[i]
  {
    if open == [] then -1 else if open[|open| - 1] then |open| - 1 else LastOpen(open[..|open| - 1])
  }

  // ----- Meaning -----

  datatype Cap = Cap(init: nat, len: int)

  /** A position in the subject and the captures so far. */
  datatype State = State(s: nat, caps: seq<Cap>)

  function Flags(caps: seq<Cap>): (r: seq<bool>)
    ensures |r| == |caps| && forall i :: 0 <= i < |caps| ==> r[i] == (caps[i].len == CAP_UNFINISHED)
  {
    seq(|caps|, i requires 0 <= i < |caps| => caps[i].len == CAP_UNFINISHED)
  }

  predicate CapOk(c: Cap, s: nat) {
    c.init <= s && (c.len == CAP_UNFINISHED || c.len == CAP_POSITION || (c.len >= 0 && c.init + c.len <= s))
  }

  predicate StateOk(src: string, st: State) {
    st.s <= |src| && forall i :: 0 <= i < |st.caps| ==> CapOk(st.caps[i], st.s)
  }

  /** `n` characters from `s` on belong to the class. */
  predicate Repeats(ctype: Ctype, src: string, cls: Class, s: nat, n: nat) {
    s + n <= |src| && forall i :: s <= i < s + n ==> Member(ctype, cls, src[i])
  }

  /** Nesting depth of src[s..i], which starts with `b`; a character that is both closes. */
  function Depth(src: string, s: nat, i: nat, b: char, e: char): int
    requires s <= i <= |src|
    decreases i
  {
    if i <= s + 1 then 1
    else Depth(src, s, i - 1, b, e) + (if src[i - 1] == e then -1 else if src[i - 1] == b then 1 else 0)
  }

  /** `t` is where the balanced string that starts at `s` ends. */
  ghost predicate BalancedTo(src: string, s: nat, t: nat, b: char, e: char) {
    && s + 2 <= t <= |src| && src[s] == b && Depth(src, s, t, b, e) == 0
    && forall i :: s + 1 <= i < t ==> Depth(src, s, i, b, e) != 0
  }

  predicate RepAllows(rep: Rep, n: nat) {
    match rep
    case One => n == 1
    case Opt => n <= 1
    case Star => true
    case Plus => n >= 1
    case Minus => true
  }

  /** What item `item`, repeated `n` times, does: at most one outcome. */
  ghost function Step(ctype: Ctype, src: string, item: Item, n: nat, st: State): Option<State> {
    match item
    case Single(cls, rep) =>
      if RepAllows(rep, n) && Repeats(ctype, src, cls, st.s, n) then Some(State(st.s + n, st.caps)) else None
    case _ => if n == 0 then Effect(ctype, src, item, st) else None
  }

  /** The items that do not repeat. */
  ghost function Effect(ctype: Ctype, src: string, item: Item, st: State): Option<State>
    requires !item.Single?
  {
    match item
    case Open => Some(State(st.s, st.caps + [Cap(st.s, CAP_UNFINISHED)]))
    case Position => Some(State(st.s, st.caps + [Cap(st.s, CAP_POSITION)]))
    case Close =>
      var l := LastOpen(Flags(st.caps));
      if l >= 0 && st.caps[l].init <= st.s then Some(State(st.s,
                                                           st.caps[l := Cap(st.caps[l].init, st.s - st.caps[l].init)]))
                                                             else None
    case Back(l) =>
      if 0 <= l < |st.caps| && st.caps[l].len >= 0
        && Again(src, st.caps[l], st.s) then Some(State(st.s + st.caps[l].len, st.caps)) else None
    case Balance(b, e) =>
      if exists t :: BalancedTo(src, st.s, t, b, e) then var t :| BalancedTo(src, st.s, t, b,
          e); Some(State(t, st.caps)) else None
    case Frontier(cls) =>
      if !Member(ctype, cls, if st.s == 0 then NUL else At(src, st.s - 1))
        && Member(ctype, cls, At(src, st.s)) then Some(st) else None
    case End => if st.s == |src| then Some(st) else None
  }

  /** The captured text occurs again at `s`. */
  predicate Again(src: string, c: Cap, s: nat)
    requires c.len >= 0
  {
    c.init + c.len <= |src| && s + c.len <= |src| && src[c.init..c.init + c.len] == src[s..s + c.len]
  }

  /** What the whole pattern does with the repetition counts `c`. */
  ghost function Follow(ctype: Ctype, src: string, items: seq<Item>, c: seq<nat>, st: State): Option<State>
    requires |c| == |items|
    decreases |items|
  {
    if items == [] then Some(st)
    else
      var st' := Step(ctype, src, items[0], c[0], st);
      if st'.None? then None else Follow(ctype, src, items[1..], c[1..], st'.value)
  }

  /** Count `m` is tried before `n`: the longest first, but for `-` the shortest. */
  predicate Before(item: Item, m: nat, n: nat) {
    if item.Single? && item.rep == Minus then m < n else m > n
  }

  /** The counts `c` come before `d`: at the first item where they differ. */
  ghost predicate Preferred(items: seq<Item>, c: seq<nat>, d: seq<nat>)
    requires |c| == |items| == |d|
  {
    exists k: nat :: FirstDiff(items, c, d, k)
  }

  predicate FirstDiff(items: seq<Item>, c: seq<nat>, d: seq<nat>, k: nat)
    requires |c| == |items| == |d|
  {
    k < |items| && c[..k] == d[..k] && Before(items[k], c[k], d[k])
  }

  ghost predicate NoMatch(ctype: Ctype, src: string, items: seq<Item>, st: State) {
    forall c: seq<nat> :: |c| == |items| ==> Follow(ctype, src, items, c, st).None?
  }

  /** `c` matches with outcome `r` and is preferred to every other way to match. */
  ghost predicate BestMatch(ctype: Ctype, src: string, items: seq<Item>, st: State, c: seq<nat>, r: State) {
    && |c| == |items| && Follow(ctype, src, items, c, st) == Some(r)
    && forall d: seq<nat> :: |d| == |items| && d != c && Follow(ctype, src, items, d, st).Some? ==>
      Preferred(items, c, d)
  }

  // ----- Searching in order -----

  /** The longest repetition at `s`. */
  ghost function RunLength(ctype: Ctype, src: string, cls: Class, s: nat): (n: nat)
    requires s <= |src|
    ensures Repeats(ctype, src, cls, s, n) && !Repeats(ctype, src, cls, s, n + 1)
    decreases |src| - s
  {
    if s < |src| && Member(ctype, cls, src[s]) then RunLength(ctype, src, cls, s + 1) + 1 else 0
  }

  function MinCount(rep: Rep): nat {
    if rep == One || rep == Plus then 1 else 0
  }

  function MaxCount(rep: Rep, n: nat): nat {
    if rep == One || rep == Opt then (if n > 1 then 1 else n) else n
  }

  lemma RepeatsLess(ctype: Ctype, src: string, cls: Class, s: nat, n: nat, k: nat)
    requires k <= n
    ensures Repeats(ctype, src, cls, s, n) ==> Repeats(ctype, src, cls, s, k)
  {
  }

  lemma RepeatsIff(ctype: Ctype, src: string, cls: Class, s: nat, n: nat)
    requires s <= |src|
    ensures Repeats(ctype, src, cls, s, n) <==> n <= RunLength(ctype, src, cls, s)
  {
    var m := RunLength(ctype, src, cls, s);
    if n > m { RepeatsLess(ctype, src, cls, s, n, m + 1); } else { RepeatsLess(ctype, src, cls, s, m, n); }
  }

  /** The first success, trying the choices in order. */
  ghost function Search(ctype: Ctype, src: string, items: seq<Item>, st: State): Option<State>
    requires StateOk(src, st)
    decreases |items|, 0
  {
    if items == [] then Some(st)
    else
      match items[0]
      case Single(cls, rep) =>
        var n := RunLength(ctype, src, cls, st.s);
        var hi, lo := MaxCount(rep, n), MinCount(rep);
        if hi < lo then None
        else if rep == Minus then TryUp(ctype, src, items[1..], st, lo, hi)
        else TryDown(ctype, src, items[1..], st, hi, lo)
      case _ =>
        var st' := Effect(ctype, src, items[0], st);
        if st'.None? || !StateOk(src, st'.value) then None else Search(ctype, src, items[1..], st'.value)
  }

  ghost function Advance(st: State, n: nat): State {
    State(st.s + n, st.caps)
  }

  ghost function TryDown(ctype: Ctype, src: string, rest: seq<Item>, st: State, i: nat, lo: nat): Option<State>
    requires StateOk(src, st) && st.s + i <= |src| && lo <= i
    decreases |rest|, i + 1
  {
    var r := Search(ctype, src, rest, Advance(st, i));
    if r.Some? then r else if i == lo then None else TryDown(ctype, src, rest, st, i - 1, lo)
  }

  ghost function TryUp(ctype: Ctype, src: string, rest: seq<Item>, st: State, i: nat, hi: nat): Option<State>
    requires StateOk(src, st) && st.s + hi <= |src| && i <= hi
    decreases |rest|, hi - i + 1
  {
    var r := Search(ctype, src, rest, Advance(st, i));
    if r.Some? then r else if i == hi then None else TryUp(ctype, src, rest, st, i + 1, hi)
  }

  // ----- The search finds the preferred match -----

  lemma EffectOk(ctype: Ctype, src: string, item: Item, st: State)
    requires StateOk(src, st) && !item.Single?
    ensures var r := Effect(ctype, src, item, st); r.Some? ==> StateOk(src, r.value) && r.value.s >= st.s
  {
  }

  lemma {:induction false} DownFirst(ctype: Ctype, src: string, rest: seq<Item>, st: State, i: nat, lo: nat)
    returns (k: nat)
    requires StateOk(src, st) && st.s + i <= |src| && lo <= i
    ensures var r := TryDown(ctype, src, rest, st, i, lo);
      && (r.Some? ==> lo <= k <= i && Search(ctype, src, rest, Advance(st, k)) == r && forall m :: k < m <= i ==>
          Search(ctype, src, rest, Advance(st, m)).None?)
      && (r.None? ==> forall m :: lo <= m <= i ==> Search(ctype, src, rest, Advance(st, m)).None?)
    decreases i
  {
    k := i;
    if Search(ctype, src, rest, Advance(st, i)).None? && i > lo {
      k := DownFirst(ctype, src, rest, st, i - 1, lo);
    }
  }

  lemma {:induction false} UpFirst(ctype: Ctype, src: string, rest: seq<Item>, st: State, i: nat, hi: nat)
    returns (k: nat)
    requires StateOk(src, st) && st.s + hi <= |src| && i <= hi
    ensures var r := TryUp(ctype, src, rest, st, i, hi);
      && (r.Some? ==> i <= k <= hi && Search(ctype, src, rest, Advance(st, k)) == r && forall m :: i <= m < k ==>
          Search(ctype, src, rest, Advance(st, m)).None?)
      && (r.None? ==> forall m :: i <= m <= hi ==> Search(ctype, src, rest, Advance(st, m)).None?)
    decreases hi - i
  {
    k := i;
    if Search(ctype, src, rest, Advance(st, i)).None? && i < hi {
      k := UpFirst(ctype, src, rest, st, i + 1, hi);
    }
  }

  /** The counts that an item can have at `st`. */
  ghost predicate Possible(ctype: Ctype, src: string, item: Item, st: State, n: nat)
    requires item.Single? && st.s <= |src|
  {
    MinCount(item.rep) <= n <= MaxCount(item.rep, RunLength(ctype, src, item.cls, st.s))
  }

  lemma StepSingle(ctype: Ctype, src: string, item: Item, st: State, n: nat)
    requires item.Single? && StateOk(src, st)
    ensures Step(ctype, src, item, n, st) == if Possible(ctype, src, item, st, n) then Some(Advance(st, n)) else None
    ensures Possible(ctype, src, item, st, n) ==> StateOk(src, Advance(st, n))
  {
    RepeatsIff(ctype, src, item.cls, st.s, n);
  }

  /** A match of the rest behind one step is a match of the whole. */
  lemma FollowCons(ctype: Ctype, src: string, items: seq<Item>, st: State, k: nat, c: seq<nat>)
    requires items != [] && |c| == |items| - 1
    ensures var st' := Step(ctype, src, items[0], k, st);
      Follow(ctype, src, items, [k] + c, st) == if st'.None? then None else Follow(ctype, src, items[1..], c, st'.value)
  {
    assert ([k] + c)[1..] == c;
  }

  lemma PreferredCons(items: seq<Item>, c: seq<nat>, d: seq<nat>, k: nat)
    requires |items| >= 1 && |c| == |d| == |items| - 1 && Preferred(items[1..], c, d)
    ensures Preferred(items, [k] + c, [k] + d)
  {
    var j: nat :| FirstDiff(items[1..], c, d, j);
    assert FirstDiff(items, [k] + c, [k] + d, j + 1) by {
      assert ([k] + c)[..j + 1] == [k] + c[..j];
      assert ([k] + d)[..j + 1] == [k] + d[..j];
    }
  }

  /** The best match of the rest, behind the first count for which there is one. */
  lemma BestCons(ctype: Ctype, src: string, items: seq<Item>, st: State, k: nat, c: seq<nat>, st': State, r: State)
    requires items != [] && Step(ctype, src, items[0], k, st) == Some(st')
      && BestMatch(ctype, src, items[1..], st', c, r)
    requires forall n: nat :: n != k && !Before(items[0], k, n) ==> Hopeless(ctype, src, items, st, n)
    ensures BestMatch(ctype, src, items, st, [k] + c, r)
  {
    FollowCons(ctype, src, items, st, k, c);
    forall d: seq<nat> | |d| == |items| && d != [k] + c && Follow(ctype, src, items, d, st).Some?
      ensures Preferred(items, [k] + c, d)
    {
      assert d == [d[0]] + d[1..];
      FollowCons(ctype, src, items, st, d[0], d[1..]);
      if d[0] == k {
        PreferredCons(items, c, d[1..], k);
      } else {
        assert !Hopeless(ctype, src, items, st, d[0]);
        assert FirstDiff(items, [k] + c, d, 0);
      }
    }
  }

  /** With count `n` at the first item there is no match. */
  ghost predicate Hopeless(ctype: Ctype, src: string, items: seq<Item>, st: State, n: nat)
    requires items != []
  {
    var st' := Step(ctype, src, items[0], n, st);
    st'.None? || NoMatch(ctype, src, items[1..], st'.value)
  }

  lemma NoMatchCons(ctype: Ctype, src: string, items: seq<Item>, st: State)
    requires items != [] && forall n: nat :: Hopeless(ctype, src, items, st, n)
    ensures NoMatch(ctype, src, items, st)
  {
    forall c: seq<nat> | |c| == |items|
      ensures Follow(ctype, src, items, c, st).None?
    {
      assert c == [c[0]] + c[1..];
      FollowCons(ctype, src, items, st, c[0], c[1..]);
      assert Hopeless(ctype, src, items, st, c[0]);
    }
  }

  /** The search in order returns the preferred match, and none exactly when there is none. */
  lemma {:induction false} SearchCorrect(ctype: Ctype, src: string, items: seq<Item>, st: State) returns (c: seq<nat>)
    requires StateOk(src, st)
    ensures var r := Search(ctype, src, items, st);
      if r.None? then NoMatch(ctype, src, items, st) else BestMatch(ctype, src, items, st, c, r.value)
    decreases |items|
  {
    c := [];
    if items != [] {
      if items[0].Single? {
        c := SingleCorrect(ctype, src, items, st);
      } else {
        c := EffectCorrect(ctype, src, items, st);
      }
    }
  }

  lemma {:induction false} EffectCorrect(ctype: Ctype, src: string, items: seq<Item>, st: State) returns (c: seq<nat>)
    requires StateOk(src, st) && items != [] && !items[0].Single?
    ensures var r := Search(ctype, src, items, st);
      if r.None? then NoMatch(ctype, src, items, st) else BestMatch(ctype, src, items, st, c, r.value)
    decreases |items|, 0
  {
    EffectOk(ctype, src, items[0], st);
    var st' := Effect(ctype, src, items[0], st);
    var r := Search(ctype, src, items, st);
    assert forall n: nat :: n != 0 ==> Hopeless(ctype, src, items, st, n);
    c := [];
    if st'.None? {
      NoMatchCons(ctype, src, items, st);
    } else {
      var c' := SearchCorrect(ctype, src, items[1..], st'.value);
      c := [0] + c';
      if r.None? {
        NoMatchCons(ctype, src, items, st);
      } else {
        BestCons(ctype, src, items, st, 0, c', st'.value, r.value);
      }
    }
  }

  lemma {:induction false} SingleCorrect(ctype: Ctype, src: string, items: seq<Item>, st: State) returns (c: seq<nat>)
    requires StateOk(src, st) && items != [] && items[0].Single?
    ensures var r := Search(ctype, src, items, st);
      if r.None? then NoMatch(ctype, src, items, st) else BestMatch(ctype, src, items, st, c, r.value)
    decreases |items|, 0
  {
    var r, rest, item := Search(ctype, src, items, st), items[1..], items[0];
    c := [];
    var k := FirstCount(ctype, src, items, st);
    forall n: nat
      ensures Untried(ctype, src, items, st, n) ==> Hopeless(ctype, src, items, st, n)
    {
      StepSingle(ctype, src, item, st, n);
      if Possible(ctype, src, item, st, n) {
        var c' := SearchCorrect(ctype, src, rest, Advance(st, n));
      }
    }
    if r.None? {
      NoMatchCons(ctype, src, items, st);
    } else {
      StepSingle(ctype, src, item, st, k);
      var c' := SearchCorrect(ctype, src, rest, Advance(st, k));
      c := [k] + c';
      BestCons(ctype, src, items, st, k, c', Advance(st, k), r.value);
    }
  }

  /** The search of the rest fails with count `n`. */
  ghost predicate Untried(ctype: Ctype, src: string, items: seq<Item>, st: State, n: nat)
    requires StateOk(src, st) && items != [] && items[0].Single?
  {
    Possible(ctype, src, items[0], st, n) ==>
      StateOk(src, Advance(st, n)) && Search(ctype, src, items[1..], Advance(st, n)).None?
  }

  lemma FirstCount(ctype: Ctype, src: string, items: seq<Item>, st: State) returns (k: nat)
    requires StateOk(src, st) && items != [] && items[0].Single?
    ensures var r := Search(ctype, src, items, st);
      if r.None? then forall n: nat :: Untried(ctype, src, items, st, n)
      else
        && Possible(ctype, src, items[0], st, k) && StateOk(src, Advance(st, k))
          && Search(ctype, src, items[1..], Advance(st, k)) == r
        && forall n: nat :: n != k && !Before(items[0], k, n) ==> Untried(ctype, src, items, st, n)
  {
    var item, rest := items[0], items[1..];
    var n := RunLength(ctype, src, item.cls, st.s);
    var hi, lo := MaxCount(item.rep, n), MinCount(item.rep);
    k := 0;
    if lo <= hi {
      if item.rep == Minus {
        k := UpFirst(ctype, src, rest, st, lo, hi);
      } else {
        k := DownFirst(ctype, src, rest, st, hi, lo);
      }
    }
  }
}
