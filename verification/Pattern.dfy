/** The backtracking matcher. */
module PatternMatch {
  import opened PatternSem

  /** What a matching function returns: NULL, a position, or an error raised for the pattern. */
  datatype Res = Null | Found(s: nat) | Err

  ghost function Items(pat: string, p: nat): seq<Item>
    requires p <= |pat| && Parse(pat, p).Some?
  {
    Parse(pat, p).value
  }

  /** From `p` on the pattern is well formed, given the captures so far. */
  ghost predicate Wf(pat: string, p: nat, caps: seq<Cap>) {
    p <= |pat| && Parse(pat, p).Some? && Balanced(Items(pat, p), Flags(caps))
  }

  ghost predicate Agrees(r: Res, caps: seq<Cap>, o: Option<State>) {
    if o.None? then r.Null? else r == Found(o.value.s) && caps == o.value.caps
  }

  /** The captures with the innermost open one closed at `s`. */
  ghost function WithClosed(caps: seq<Cap>, s: nat): seq<Cap>
    requires LastOpen(Flags(caps)) >= 0
  {
    var l := LastOpen(Flags(caps));
    caps[l := Cap(caps[l].init, s - caps[l].init)]
  }

  class MatchState {
    const src: string
    const pat: string
    const ctype: Ctype
    var level: nat
    const capture: array<Cap>

    ghost predicate Valid()
      reads this
    {
      capture.Length == MAXCAPTURES && level <= MAXCAPTURES
    }

    ghost function Caps(): seq<Cap>
      reads this, capture
      requires Valid()
    {
      capture[..level]
    }

    constructor (src: string, pat: string, ctype: Ctype)
      ensures Valid() && fresh(capture) && this.src == src && this.pat == pat && this.ctype == ctype && Caps() == []
    {
      this.src, this.pat, this.ctype := src, pat, ctype;
      level := 0;
      capture := new Cap[MAXCAPTURES](_ => Cap(0, 0));
    }

    // ----- Classes -----

    /** lstrlib.c `classend`. */
    method ClassEndAt(p: nat) returns (r: Option<nat>)
      requires p < |pat|
      ensures r == ClassEnd(pat, p)
    {
      if pat[p] == ESC {
        return if At(pat, p + 1) == NUL then None else Some(p + 2);
      }
      if pat[p] != '[' {
        return Some(p + 1);
      }
      var q := p + 1;
      if At(pat, q) == '^' { q := q + 1; }
      while true
        invariant q <= |pat| + 1 && SetEnd(pat, q) == SetEnd(pat, SetStart(pat, p))
        decreases |pat| + 1 - q
      {
        if At(pat, q) == NUL {
          return None;
        }
        var c := At(pat, q);
        q := q + 1;
        if c == ESC && At(pat, q) != NUL { q := q + 1; }
        if At(pat, q) == ']' {
          return Some(q + 1);
        }
      }
    }

    /** lstrlib.c `matchbracketclass`, with `ec` at the closing bracket. */
    method MatchBracketClass(c: char, p0: nat, ec: nat) returns (r: bool)
      requires p0 < ec < |pat| && pat[p0] == '['
      ensures r == Member(ctype, ClassAt(pat, p0, ec + 1), c)
    {
      var sig := true;
      var p := p0;
      if At(pat, p + 1) == '^' {
        sig := false;
        p := p + 1;
      }
      var found := InSet(c, p + 1, ec);
      r := found == sig;
    }

    /** The loop of lstrlib.c `matchbracketclass`. */
    method InSet(c: char, start: nat, ec: nat) returns (found: bool)
      requires ec < |pat|
      ensures found == exists i :: 0 <= i < |Elems(pat, start, ec)| && InElem(ctype, Elems(pat, start, ec)[i], c)
    {
      hide InElem, Elems;
      ghost var all := Elems(pat, start, ec);
      ghost var done: seq<Elem> := [];
      var p := start;
      assert all == done + Elems(pat, p, ec);
      while p < ec
        invariant all == done + Elems(pat, p, ec)
        invariant forall i :: 0 <= i < |done| ==> !InElem(ctype, done[i], c)
        decreases ec - p
      {
        ElemsHead(pat, p, ec);
        var e: Elem;
        if At(pat, p) == ESC {
          p := p + 1;
          e := Escaped(At(pat, p));
        } else if At(pat, p + 1) == '-' && p + 2 < ec {
          p := p + 2;
          e := Range(At(pat, p - 2), At(pat, p));
        } else {
          e := Plain(At(pat, p));
        }
        p := p + 1;
        OneMore(all, done, e, Elems(pat, p, ec));
        if InElem(ctype, e, c) {
          return true;
        }
        done := done + [e];
      }
      ElemsHead(pat, p, ec);
      assert all == done;
      found := false;
    }

    /** lstrlib.c `singlematch`. */
    method SingleMatch(c: char, p: nat, ep: nat) returns (r: bool)
      requires p < |pat| && ClassEnd(pat, p) == Some(ep)
      ensures r == Member(ctype, ClassAt(pat, p, ep), c)
    {
      if pat[p] == '.' {
        r := true;
      } else if pat[p] == ESC {
        r := MatchClass(ctype, c, At(pat, p + 1));
      } else if pat[p] == '[' {
        r := MatchBracketClass(c, p, ep - 1);
      } else {
        r := pat[p] == c;
      }
    }

    // ----- Items that do not repeat -----

    /** lstrlib.c `matchbalance`. */
    method MatchBalance(s0: nat, b: char, e: char) returns (r: Res)
      requires s0 <= |src| && b != NUL && e != NUL
      ensures !r.Err? && (r.Null? ==> forall t :: !BalancedTo(src, s0, t, b, e))
        && (r.Found? ==> BalancedTo(src, s0, r.s, b, e))
    {
      if At(src, s0) != b {
        return Null;
      }
      var cont := 1;
      var s := s0 + 1;
      while s < |src|
        invariant s0 + 1 <= s <= |src| && cont == Depth(src, s0, s, b, e) && cont > 0
        invariant forall i :: s0 + 1 <= i <= s ==> Depth(src, s0, i, b, e) != 0
      {
        if src[s] == e {
          cont := cont - 1;
          if cont == 0 {
            return Found(s + 1);
          }
        } else if src[s] == b {
          cont := cont + 1;
        }
        s := s + 1;
      }
      r := Null;
    }

    /** lstrlib.c `match_capture`, with the digit already turned into an index. */
    method MatchCapture(s: nat, l: int) returns (r: Res)
      requires Valid() && StateOk(src, State(s, Caps()))
      ensures r.Err? <==> !(0 <= l < level) || capture[l].len == CAP_UNFINISHED
      ensures !r.Err? ==> Agrees(r, Caps(), Effect(ctype, src, Back(l), State(s, Caps())))
    {
      if l < 0 || l >= level || capture[l].len == CAP_UNFINISHED {
        return Err;
      }
      var c := capture[l];
      assert Caps()[l] == c && CapOk(c, s);
      if c.len >= 0 && |src| - s >= c.len && src[c.init..c.init + c.len] == src[s..s + c.len] {
        r := Found(s + c.len);
      } else {
        r := Null;
      }
    }

    /** lstrlib.c `capture_to_close`: -1 where it raises an error. */
    method CaptureToClose() returns (l: int)
      requires Valid()
      ensures l == LastOpen(Flags(Caps()))
    {
      ghost var flags := Flags(Caps());
      l := level - 1;
      while l >= 0
        invariant -1 <= l < level && forall i :: l < i < level ==> !flags[i]
      {
        if capture[l].len == CAP_UNFINISHED { return; }
        l := l - 1;
      }
    }

    // ----- match -----

    /** lstrlib.c `start_capture`. */
    method StartCapture(s: nat, p: nat, what: int) returns (r: Res)
      requires Valid() && p <= |pat| && StateOk(src, State(s, Caps()))
        && (what == CAP_UNFINISHED || what == CAP_POSITION)
      modifies `level, capture
      ensures Valid() && (r.Null? ==> Caps() == old(Caps()))
      ensures old(level) < MAXCAPTURES && Wf(pat, p, old(Caps()) + [Cap(s, what)]) ==>
        Agrees(r, Caps(), Search(ctype, src, Items(pat, p), State(s, old(Caps()) + [Cap(s, what)])))
      decreases |pat| - p, 3
    {
      if level >= MAXCAPTURES {
        return Err;
      }
      ghost var caps := Caps();
      capture[level] := Cap(s, what);
      level := level + 1;
      assert Caps() == caps + [Cap(s, what)];
      r := Match(s, p);
      if r.Null? {
        level := level - 1;
        assert Caps() == (caps + [Cap(s, what)])[..|caps|];
      }
    }

    /** lstrlib.c `end_capture`. */
    method EndCapture(s: nat, p: nat) returns (r: Res)
      requires Valid() && p <= |pat| && StateOk(src, State(s, Caps()))
      modifies `level, capture
      ensures Valid() && (r.Null? ==> Caps() == old(Caps()))
      ensures LastOpen(Flags(old(Caps()))) >= 0 && Wf(pat, p, WithClosed(old(Caps()), s)) ==>
        Agrees(r, Caps(), Search(ctype, src, Items(pat, p), State(s, WithClosed(old(Caps()), s))))
      decreases |pat| - p, 3
    {
      var l := CaptureToClose();
      if l < 0 {
        return Err;
      }
      ghost var caps := Caps();
      assert CapOk(caps[l], s);
      ghost var closed := WithClosed(caps, s);
      capture[l] := Cap(capture[l].init, s - capture[l].init);
      assert Caps() == closed;
      r := Match(s, p);
      if r.Null? {
        assert capture[l] == closed[l];
        capture[l] := Cap(capture[l].init, CAP_UNFINISHED);
        assert Caps() == caps;
      }
    }

    /** lstrlib.c `max_expand`. */
    method MaxExpand(s: nat, p: nat, ep: nat) returns (r: Res)
      requires Valid() && p < |pat| && ClassEnd(pat, p) == Some(ep) && ep < |pat| && StateOk(src, State(s, Caps()))
      modifies `level, capture
      ensures Valid() && (r.Null? ==> Caps() == old(Caps()))
      ensures Wf(pat, ep + 1, old(Caps())) ==>
        var n := RunLength(ctype, src, ClassAt(pat, p, ep), s);
        Agrees(r, Caps(), TryDown(ctype, src, Items(pat, ep + 1), State(s, old(Caps())), n, 0))
      decreases |pat| - ep, 1
    {
      hide Search, TryDown, Wf, StateOk, RunLength, ClassAt, ClassEnd, Agrees, DownGoal;
      ghost var st := State(s, Caps());
      StateBound(src, st);
      var i: int := CountRun(s, p, ep);
      ghost var goal := DownGoal(ctype, src, pat, ep + 1, st, i);
      DownStart(ctype, src, pat, ep + 1, st, i);
      while i >= 0
        invariant -1 <= i && s + i <= |src| && Valid() && Caps() == st.caps
        invariant DownGoal(ctype, src, pat, ep + 1, st, i) == goal
        decreases i
      {
        var t: nat := s + i;
        AdvanceOk(src, st, i);
        r := Match(t, ep + 1);
        DownStep(ctype, src, pat, ep + 1, st, i, r, Caps());
        if !r.Null? { return; }
        i := i - 1;
      }
      DownEnd(ctype, src, pat, ep + 1, st);
      r := Null;
    }

    /** The first loop of lstrlib.c `max_expand`. */
    method CountRun(s: nat, p: nat, ep: nat) returns (i: nat)
      requires p < |pat| && ClassEnd(pat, p) == Some(ep) && s <= |src|
      ensures i == RunLength(ctype, src, ClassAt(pat, p, ep), s) && s + i <= |src|
    {
      hide Member;
      ghost var cls := ClassAt(pat, p, ep);
      i := 0;
      while s + i < |src|
        invariant s + i <= |src| && Repeats(ctype, src, cls, s, i)
      {
        var m := SingleMatch(src[s + i], p, ep);
        if !m { break; }
        i := i + 1;
      }
      RepeatsIff(ctype, src, cls, s, i);
      RepeatsIff(ctype, src, cls, s, i + 1);
    }

    /** lstrlib.c `min_expand`. */
    method MinExpand(s0: nat, p: nat, ep: nat) returns (r: Res)
      requires Valid() && p < |pat| && ClassEnd(pat, p) == Some(ep) && ep < |pat| && StateOk(src, State(s0, Caps()))
      modifies `level, capture
      ensures Valid() && (r.Null? ==> Caps() == old(Caps()))
      ensures Wf(pat, ep + 1, old(Caps())) ==>
        var n := RunLength(ctype, src, ClassAt(pat, p, ep), s0);
        Agrees(r, Caps(), TryUp(ctype, src, Items(pat, ep + 1), State(s0, old(Caps())), 0, n))
      decreases |pat| - ep, 1
    {
      hide Search, TryUp, Wf, StateOk, RunLength, ClassAt, ClassEnd, Agrees, UpGoal, Member, Repeats;
      ghost var st := State(s0, Caps());
      StateBound(src, st);
      ghost var cls := ClassAt(pat, p, ep);
      ghost var n := RunLength(ctype, src, cls, s0);
      RunBound(ctype, src, cls, s0);
      var s := s0;
      ghost var goal := UpGoal(ctype, src, pat, ep + 1, st, 0, n);
      UpStart(ctype, src, pat, ep + 1, st, n);
      while true
        invariant s0 <= s <= s0 + n && Valid() && Caps() == st.caps
        invariant UpGoal(ctype, src, pat, ep + 1, st, s - s0, n) == goal
        decreases |src| - s
      {
        AdvanceOk(src, st, s - s0);
        r := Match(s, ep + 1);
        UpStep(ctype, src, pat, ep + 1, st, s - s0, n, r, Caps());
        if !r.Null? { return; }
        RunEnds(ctype, src, cls, s0, s);
        if s >= |src| { return Null; }
        var m := SingleMatch(src[s], p, ep);
        if !m { return Null; }
        s := s + 1;
      }
    }

    /** lstrlib.c `match`. */
    method Match(s: nat, p: nat) returns (r: Res)
      requires Valid() && p <= |pat| && StateOk(src, State(s, Caps()))
      modifies `level, capture
      ensures Valid() && (r.Null? ==> Caps() == old(Caps()))
      ensures Wf(pat, p, old(Caps())) ==> Agrees(r, Caps(), Search(ctype, src, Items(pat, p), State(s, old(Caps()))))
      decreases |pat| - p, 2
    {
      hide Search, Wf, SearchBehind, StateOk;
      ghost var st := State(s, Caps());
      if At(pat, p) == NUL {
        HeadFinished(ctype, src, pat, p, st);
        return Found(s);
      }
      if pat[p] == '(' {
        if At(pat, p + 1) == ')' {
          HeadCapture(ctype, src, pat, p, st, Position);
          r := StartCapture(s, p + 2, CAP_POSITION);
        } else {
          HeadCapture(ctype, src, pat, p, st, Open);
          r := StartCapture(s, p + 1, CAP_UNFINISHED);
        }
      } else if pat[p] == ')' {
        HeadClose(ctype, src, pat, p, st);
        r := EndCapture(s, p + 1);
      } else if pat[p] == ESC && (At(pat, p + 1) == 'b' || At(pat, p + 1) == 'f' || IsDigit(At(pat, p + 1))) {
        r := MatchEscape(s, p);
      } else if pat[p] == '$' && At(pat, p + 1) == NUL {
        HeadEnd(ctype, src, pat, p, st);
        r := if s == |src| then Found(s) else Null;
      } else {
        r := MatchDefault(s, p);
      }
    }

    /** The cases of lstrlib.c `match` for `%b`, `%f` and `%0` to `%9`. */
    method MatchEscape(s: nat, p: nat) returns (r: Res)
      requires Valid() && p < |pat| && StateOk(src, State(s, Caps())) && pat[p] == ESC
      requires At(pat, p + 1) == 'b' || At(pat, p + 1) == 'f' || IsDigit(At(pat, p + 1))
      modifies `level, capture
      ensures Valid() && (r.Null? ==> Caps() == old(Caps()))
      ensures Wf(pat, p, old(Caps())) ==> Agrees(r, Caps(), Search(ctype, src, Items(pat, p), State(s, old(Caps()))))
      decreases |pat| - p, 1
    {
      ghost var st := State(s, Caps());
      assert s <= |src|;
      HeadBad(pat, p, st.caps);
      hide Search, Wf, SearchBehind, Effect, StateOk, ClassAt, ClassEnd;
      if At(pat, p + 1) == 'b' {
        if At(pat, p + 2) == NUL || At(pat, p + 3) == NUL {
          return Err;
        }
        HeadEffect(ctype, src, pat, p, st);
        var t := MatchBalance(s, pat[p + 2], pat[p + 3]);
        BalanceEffect(ctype, src, pat[p + 2], pat[p + 3], st, t);
        r := Continue(t, p + 4, s, Balance(pat[p + 2], pat[p + 3]));
      } else if At(pat, p + 1) == 'f' {
        if At(pat, p + 2) != '[' {
          return Err;
        }
        var ep := ClassEndAt(p + 2);
        if ep.None? {
          return Err;
        }
        HeadEffect(ctype, src, pat, p, st);
        var t := MatchFrontier(s, p + 2, ep.value);
        r := Continue(t, ep.value, s, Frontier(ClassAt(pat, p + 2, ep.value)));
      } else {
        HeadEffect(ctype, src, pat, p, st);
        var t := MatchCapture(s, At(pat, p + 1) as int - '1' as int);
        if t.Err? {
          return Err;
        }
        r := Continue(t, p + 2, s, Back(At(pat, p + 1) as int - '1' as int));
      }
    }

    /** Go on behind an item that matched up to `t`, if it did. */
    method Continue(t: Res, rest: nat, ghost s: nat, ghost item: Item) returns (r: Res)
      requires Valid() && rest <= |pat| && StateOk(src, State(s, Caps())) && !t.Err?
        && (item.Balance? || item.Frontier? || item.Back?)
      requires Agrees(t, Caps(), Effect(ctype, src, item, State(s, Caps())))
      modifies `level, capture
      ensures Valid() && (r.Null? ==> Caps() == old(Caps()))
      ensures Wf(pat, rest, old(Caps())) ==>
        Agrees(r, Caps(), SearchBehind(ctype, src, Items(pat, rest), Effect(ctype, src, item, State(s, old(Caps())))))
      decreases |pat| - rest, 3
    {
      EffectOk(ctype, src, item, State(s, Caps()));
      if t.Null? {
        return Null;
      }
      r := Match(t.s, rest);
    }

    /** The test of a frontier: before and at `s`. */
    method MatchFrontier(s: nat, p: nat, ep: nat) returns (r: Res)
      requires Valid() && s <= |src| && p < |pat| && pat[p] == '[' && ClassEnd(pat, p) == Some(ep)
      ensures !r.Err? && Agrees(r, Caps(), Effect(ctype, src, Frontier(ClassAt(pat, p, ep)), State(s, Caps())))
    {
      var previous := if s == 0 then NUL else At(src, s - 1);
      var before := MatchBracketClass(previous, p, ep - 1);
      if before {
        return Null;
      }
      var here := MatchBracketClass(At(src, s), p, ep - 1);
      r := if here then Found(s) else Null;
    }

    /** The default case of lstrlib.c `match`: a single-character class and its repetition. */
    method MatchDefault(s: nat, p: nat) returns (r: Res)
      requires Valid() && p < |pat| && StateOk(src, State(s, Caps())) && IsDefault(pat, p)
      modifies `level, capture
      ensures Valid() && (r.Null? ==> Caps() == old(Caps()))
      ensures Wf(pat, p, old(Caps())) ==> Agrees(r, Caps(), Search(ctype, src, Items(pat, p), State(s, old(Caps()))))
      decreases |pat| - p, 1
    {
      ghost var caps := Caps();
      ghost var st := State(s, caps);
      var end := ClassEndAt(p);
      if end.None? {
        return Err;
      }
      var ep := end.value;
      var m := false;
      if s < |src| {
        m := SingleMatch(src[s], p, ep);
      }
      ghost var cls := ClassAt(pat, p, ep);
      HeadSingle(ctype, src, pat, p, st, ep);
      RunStart(ctype, src, cls, s);
      hide Search, Wf, TryUp, TryDown, Member, ClassAt, ClassEnd, StateOk;
      match At(pat, ep) {
        case '?' => r := MatchOptional(s, ep, m);
        case '*' => r := MaxExpand(s, p, ep);
        case '+' => r := MatchPlus(s, p, ep, m);
        case '-' => r := MinExpand(s, p, ep);
        case _ => r := MatchOne(s, ep, m);
      }
    }

    method MatchOptional(s: nat, ep: nat, m: bool) returns (r: Res)
      requires Valid() && ep < |pat| && StateOk(src, State(s, Caps())) && (m ==> s < |src|)
      modifies `level, capture
      ensures Valid() && (r.Null? ==> Caps() == old(Caps()))
      ensures Wf(pat, ep + 1, old(Caps())) ==>
        Agrees(r, Caps(), TryDown(ctype, src, Items(pat, ep + 1), State(s, old(Caps())), if m then 1 else 0, 0))
      decreases |pat| - ep, 0
    {
      ghost var st := State(s, Caps());
      if Wf(pat, ep + 1, st.caps) { TryOneThenNone(ctype, src, Items(pat, ep + 1), st); }
      hide Search, TryDown, Wf;
      if m {
        r := Match(s + 1, ep + 1);
        if !r.Null? { return; }
      }
      r := Match(s, ep + 1);
    }

    method MatchPlus(s: nat, p: nat, ep: nat, m: bool) returns (r: Res)
      requires Valid() && p < |pat| && ClassEnd(pat, p) == Some(ep) && ep < |pat| && StateOk(src, State(s, Caps()))
      requires m == (RunLength(ctype, src, ClassAt(pat, p, ep), s) > 0)
      modifies `level, capture
      ensures Valid() && (r.Null? ==> Caps() == old(Caps()))
      ensures Wf(pat, ep + 1, old(Caps())) ==>
        var n := RunLength(ctype, src, ClassAt(pat, p, ep), s);
        Agrees(r, Caps(), if n < 1 then None else TryDown(ctype, src, Items(pat, ep + 1), State(s, old(Caps())), n, 1))
      decreases |pat| - ep, 2
    {
      ghost var st, cls := State(s, Caps()), ClassAt(pat, p, ep);
      RunStart(ctype, src, cls, s);
      hide Wf, Search, TryDown, ClassAt, ClassEnd, Member;
      if m {
        if Wf(pat, ep + 1, st.caps) { DownShift(ctype, src, Items(pat, ep + 1), st, RunLength(ctype, src, cls, s + 1),
                                                0); }
        r := MaxExpand(s + 1, p, ep);
      } else {
        r := Null;
      }
    }

    method MatchOne(s: nat, ep: nat, m: bool) returns (r: Res)
      requires Valid() && ep <= |pat| && StateOk(src, State(s, Caps())) && (m ==> s < |src|)
      modifies `level, capture
      ensures Valid() && (r.Null? ==> Caps() == old(Caps()))
      ensures Wf(pat, ep, old(Caps())) ==>
        Agrees(r, Caps(), if !m then None else TryDown(ctype, src, Items(pat, ep), State(s, old(Caps())), 1, 1))
      decreases |pat| - ep, 3
    {
      if m {
        r := Match(s + 1, ep);
      } else {
        r := Null;
      }
    }

    /** The search loop of lstrlib.c `str_find_aux`: the leftmost position with a match, and there
        the preferred one; only `init` is tried behind an anchor. */
    method Find(init: nat) returns (r: Res, start: nat)
      requires Valid() && init <= |src|
      modifies `level, capture
      ensures Valid()
      ensures var anchor := At(pat, 0) == '^'; var p := if anchor then 1 else 0;
        Wf(pat, p, []) ==>
          && !r.Err?
          && (r.Null? ==> forall s :: init <= s <= (if anchor then init else |src|) ==>
              NoMatch(ctype, src, Items(pat, p), State(s, [])))
          && (r.Found? ==>
                && init <= start <= (if anchor then init else |src|)
                && (forall s :: init <= s < start ==> NoMatch(ctype, src, Items(pat, p), State(s, [])))
                && exists c :: BestMatch(ctype, src, Items(pat, p), State(start, []), c, State(r.s, Caps())))
    {
      hide Balanced, Parse, Search, NoMatch, BestMatch;
      var anchor := At(pat, 0) == '^';
      var p := if anchor then 1 else 0;
      start := init;
      while true
        invariant Valid() && init <= start <= |src| && (anchor ==> start == init)
        invariant Wf(pat, p, []) ==> forall s :: init <= s < start ==> NoMatch(ctype, src, Items(pat, p), State(s, []))
        decreases |src| - start
      {
        level := 0;
        assert Caps() == [];
        r := Match(start, p);
        if Wf(pat, p, []) {
          ghost var c := SearchCorrect(ctype, src, Items(pat, p), State(start, []));
        }
        if !r.Null? || anchor || start == |src| {
          return;
        }
        start := start + 1;
      }
    }
  }

  /** The first element of a set, and where the next one starts. */
  lemma ElemsHead(pat: string, p: nat, ec: nat)
    ensures p >= ec ==> Elems(pat, p, ec) == []
    ensures p < ec && At(pat, p) == ESC ==> Elems(pat, p, ec) == [Escaped(At(pat, p + 1))] + Elems(pat, p + 2, ec)
    ensures p < ec && At(pat, p) != ESC && At(pat, p + 1) == '-' && p + 2 < ec ==>
      Elems(pat, p, ec) == [Range(At(pat, p), At(pat, p + 2))] + Elems(pat, p + 3, ec)
    ensures p < ec && At(pat, p) != ESC && !(At(pat, p + 1) == '-' && p + 2 < ec) ==>
      Elems(pat, p, ec) == [Plain(At(pat, p))] + Elems(pat, p + 1, ec)
  {
  }

  lemma OneMore(all: seq<Elem>, done: seq<Elem>, e: Elem, rest: seq<Elem>)
    ensures all == done + ([e] + rest) ==> all == done + [e] + rest && all[|done|] == e
  {
  }

  // ----- The first item of a pattern -----

  predicate IsDefault(pat: string, p: nat)
    requires p < |pat|
  {
    && pat[p] != NUL && pat[p] != '(' && pat[p] != ')' && !(pat[p] == '$' && At(pat, p + 1) == NUL)
    && !(pat[p] == ESC && (At(pat, p + 1) == 'b' || At(pat, p + 1) == 'f' || IsDigit(At(pat, p + 1))))
  }

  ghost function SearchBehind(ctype: Ctype, src: string, rest: seq<Item>, o: Option<State>): Option<State> {
    if o.None? || !StateOk(src, o.value) then None else Search(ctype, src, rest, o.value)
  }

  /** A pattern that is malformed right here is not well formed. */
  lemma HeadBad(pat: string, p: nat, caps: seq<Cap>)
    requires p <= |pat|
    ensures HeadAt(pat, p).Malformed? ==> !Wf(pat, p, caps)
  {
  }

  lemma HeadItems(pat: string, p: nat, caps: seq<Cap>)
    requires Wf(pat, p, caps) && HeadAt(pat, p).Next?
    ensures var h := HeadAt(pat, p);
      Parse(pat, h.rest).Some? && Items(pat, p) == [h.item] + Items(pat, h.rest) && Items(pat, p)[1..] == Items(pat,
          h.rest)
  {
  }

  lemma HeadCapture(ctype: Ctype, src: string, pat: string, p: nat, st: State, item: Item)
    requires p <= |pat| && StateOk(src, st) && HeadAt(pat, p).Next? && HeadAt(pat, p).item == item
      && (item == Open || item == Position)
    ensures var rest, caps := HeadAt(pat,
                                     p).rest, st.caps + [Cap(st.s, if item == Open then CAP_UNFINISHED
                                                             else CAP_POSITION)];
      Wf(pat, p, st.caps) ==>
        && |st.caps| < MAXCAPTURES && Wf(pat, rest, caps) && StateOk(src, State(st.s, caps))
        && Search(ctype, src, Items(pat, p), st) == Search(ctype, src, Items(pat, rest), State(st.s, caps))
  {
    if Wf(pat, p, st.caps) {
      HeadItems(pat, p, st.caps);
      var caps := st.caps + [Cap(st.s, if item == Open then CAP_UNFINISHED else CAP_POSITION)];
      assert Flags(caps) == Flags(st.caps) + [item == Open];
    }
  }

  lemma HeadClose(ctype: Ctype, src: string, pat: string, p: nat, st: State)
    requires p <= |pat| && StateOk(src, st) && HeadAt(pat, p).Next? && HeadAt(pat, p).item == Close
    ensures var rest := HeadAt(pat, p).rest;
      Wf(pat, p, st.caps) ==>
        && LastOpen(Flags(st.caps)) >= 0 && Wf(pat, rest, WithClosed(st.caps, st.s))
          && StateOk(src, State(st.s, WithClosed(st.caps, st.s)))
        && Search(ctype, src, Items(pat, p), st) == Search(ctype, src, Items(pat, rest),
                                                           State(st.s, WithClosed(st.caps, st.s)))
  {
    hide HeadAt;
    if Wf(pat, p, st.caps) {
      HeadItems(pat, p, st.caps);
      hide Parse;
      var l := LastOpen(Flags(st.caps));
      assert CapOk(st.caps[l], st.s);
      assert Flags(WithClosed(st.caps, st.s)) == Flags(st.caps)[l := false];
    }
  }

  lemma HeadEffect(ctype: Ctype, src: string, pat: string, p: nat, st: State)
    requires p <= |pat| && StateOk(src, st) && HeadAt(pat, p).Next?
    requires var item := HeadAt(pat, p).item; item.Back? || item.Balance? || item.Frontier? || item.End?
    ensures var h := HeadAt(pat, p);
      Wf(pat, p, st.caps) ==>
        && Wf(pat, h.rest, st.caps) && (h.item.Back? ==>
          0 <= h.item.l < |st.caps| && st.caps[h.item.l].len != CAP_UNFINISHED)
        && Search(ctype, src, Items(pat, p), st) == SearchBehind(ctype, src, Items(pat, h.rest),
                                                                 Effect(ctype, src, h.item, st))
        && (h.item.End? ==> Items(pat, h.rest) == [])
  {
    if Wf(pat, p, st.caps) {
      HeadItems(pat, p, st.caps);
    }
  }

  lemma HeadSingle(ctype: Ctype, src: string, pat: string, p: nat, st: State, ep: nat)
    requires p < |pat| && StateOk(src, st) && IsDefault(pat, p) && ClassEnd(pat, p) == Some(ep)
    ensures var rep, cls := RepOf(At(pat, ep)), ClassAt(pat, p, ep);
      var rest := if rep == One then ep else ep + 1;
      var n := RunLength(ctype, src, cls, st.s);
      var hi, lo := MaxCount(rep, n), MinCount(rep);
      Wf(pat, p, st.caps) ==>
        && Wf(pat, rest, st.caps)
        && Search(ctype, src, Items(pat, p), st) ==
             if hi < lo then None
             else if rep == Minus then TryUp(ctype, src, Items(pat, rest), st, lo, hi)
             else TryDown(ctype, src, Items(pat, rest), st, hi, lo)
  {
    if Wf(pat, p, st.caps) {
      HeadItems(pat, p, st.caps);
    }
  }

  function OrElse(a: Option<State>, b: Option<State>): Option<State> {
    if a.Some? then a else b
  }

  lemma TryOneThenNone(ctype: Ctype, src: string, rest: seq<Item>, st: State)
    requires StateOk(src, st)
    ensures TryDown(ctype, src, rest, st, 0, 0) == Search(ctype, src, rest, State(st.s, st.caps))
    ensures st.s < |src| ==> StateOk(src, State(st.s + 1, st.caps))
    ensures st.s < |src| ==> TryDown(ctype, src, rest, st, 1,
                                     0) == OrElse(Search(ctype, src, rest, State(st.s + 1, st.caps)),
                                                  Search(ctype, src, rest, State(st.s, st.caps)))
  {
    hide Search;
    assert Advance(st, 0) == State(st.s, st.caps) && Advance(st, 1) == State(st.s + 1, st.caps);
  }

  lemma RunStart(ctype: Ctype, src: string, cls: Class, s: nat)
    requires s <= |src|
    ensures RunLength(ctype, src, cls, s) == if s < |src|
      && Member(ctype, cls, src[s]) then RunLength(ctype, src, cls, s + 1) + 1 else 0
  {
  }

  lemma BalanceEffect(ctype: Ctype, src: string, b: char, e: char, st: State, t: Res)
    requires !t.Err? && (t.Null? ==> forall i :: !BalancedTo(src, st.s, i, b, e))
      && (t.Found? ==> BalancedTo(src, st.s, t.s, b, e))
    ensures Agrees(t, st.caps, Effect(ctype, src, Balance(b, e), st))
  {
    if t.Found? {
      forall j: nat
        ensures BalancedTo(src, st.s, j, b, e) ==> j == t.s
      {
        if j < t.s { FirstBalance(src, st.s, j, t.s, b, e); } else if j > t.s { FirstBalance(src, st.s, t.s, j, b, e); }
      }
    }
  }

  lemma FirstBalance(src: string, s: nat, i: nat, j: nat, b: char, e: char)
    requires i < j
    ensures !(BalancedTo(src, s, i, b, e) && BalancedTo(src, s, j, b, e))
  {
  }

  lemma HeadFinished(ctype: Ctype, src: string, pat: string, p: nat, st: State)
    requires p <= |pat| && StateOk(src, st) && At(pat, p) == NUL
    ensures Wf(pat, p, st.caps) ==> Search(ctype, src, Items(pat, p), st) == Some(st)
  {
  }

  lemma HeadEnd(ctype: Ctype, src: string, pat: string, p: nat, st: State)
    requires p < |pat| && StateOk(src, st) && pat[p] == '$' && At(pat, p + 1) == NUL
    ensures Wf(pat, p, st.caps) ==> Search(ctype, src, Items(pat, p), st) == if st.s == |src| then Some(st) else None
  {
    HeadEffect(ctype, src, pat, p, st);
  }

  /** One repetition taken beforehand. */
  lemma {:induction false} DownShift(ctype: Ctype, src: string, rest: seq<Item>, st: State, i: nat, lo: nat)
    requires StateOk(src, st) && st.s + 1 + i <= |src| && lo <= i
    ensures StateOk(src, Advance(st, 1))
      && TryDown(ctype, src, rest, Advance(st, 1), i, lo) == TryDown(ctype, src, rest, st, i + 1, lo + 1)
    decreases i
  {
    assert Advance(Advance(st, 1), i) == Advance(st, i + 1);
    if i > lo { DownShift(ctype, src, rest, st, i - 1, lo); }
  }

  lemma StateBound(src: string, st: State)
    requires StateOk(src, st)
    ensures st.s <= |src|
  {
  }

  lemma RunBound(ctype: Ctype, src: string, cls: Class, s: nat)
    requires s <= |src|
    ensures s + RunLength(ctype, src, cls, s) <= |src|
  {
  }

  lemma AdvanceOk(src: string, st: State, n: nat)
    requires StateOk(src, st) && st.s + n <= |src|
    ensures StateOk(src, State(st.s + n, st.caps))
  {
  }

  /** What is left of a downward search from count `i`; nothing is claimed of a malformed pattern. */
  ghost function DownGoal(ctype: Ctype, src: string, pat: string, p: nat, st: State, i: int): Option<State> {
    if Wf(pat, p, st.caps) && StateOk(src, st) && 0 <= i
      && st.s + i <= |src| then TryDown(ctype, src, Items(pat, p), st, i, 0) else None
  }

  lemma DownStart(ctype: Ctype, src: string, pat: string, p: nat, st: State, n: nat)
    requires StateOk(src, st) && st.s + n <= |src|
    ensures Wf(pat, p, st.caps) ==> TryDown(ctype, src, Items(pat, p), st, n, 0) == DownGoal(ctype, src, pat, p, st, n)
  {
  }

  lemma DownEnd(ctype: Ctype, src: string, pat: string, p: nat, st: State)
    ensures DownGoal(ctype, src, pat, p, st, -1) == None
    ensures Agrees(Null, st.caps, None)
  {
  }

  lemma DownStep(ctype: Ctype, src: string, pat: string, p: nat, st: State, i: nat, r: Res, caps: seq<Cap>)
    requires StateOk(src, st) && st.s + i <= |src| && StateOk(src, State(st.s + i, st.caps))
    requires Wf(pat, p, st.caps) ==> Agrees(r, caps, Search(ctype, src, Items(pat, p), State(st.s + i, st.caps)))
    ensures Wf(pat, p, st.caps) && !r.Null? ==> Agrees(r, caps, DownGoal(ctype, src, pat, p, st, i))
    ensures r.Null? ==> DownGoal(ctype, src, pat, p, st, i - 1) == DownGoal(ctype, src, pat, p, st, i)
  {
    hide Search, Parse, Balanced;
    assert Advance(st, i) == State(st.s + i, st.caps);
  }

  ghost function UpGoal(ctype: Ctype, src: string, pat: string, p: nat, st: State, i: nat, n: nat): Option<State> {
    if Wf(pat, p, st.caps) && StateOk(src, st) && i <= n
      && st.s + n <= |src| then TryUp(ctype, src, Items(pat, p), st, i, n) else None
  }

  lemma UpStart(ctype: Ctype, src: string, pat: string, p: nat, st: State, n: nat)
    requires StateOk(src, st) && st.s + n <= |src|
    ensures Wf(pat, p, st.caps) ==> TryUp(ctype, src, Items(pat, p), st, 0, n) == UpGoal(ctype, src, pat, p, st, 0, n)
    ensures Agrees(Null, st.caps, None)
  {
  }

  lemma UpStep(ctype: Ctype, src: string, pat: string, p: nat, st: State, i: nat, n: nat, r: Res, caps: seq<Cap>)
    requires StateOk(src, st) && i <= n && st.s + n <= |src| && StateOk(src, State(st.s + i, st.caps))
    requires Wf(pat, p, st.caps) ==> Agrees(r, caps, Search(ctype, src, Items(pat, p), State(st.s + i, st.caps)))
    ensures Wf(pat, p, st.caps) && !r.Null? ==> Agrees(r, caps, UpGoal(ctype, src, pat, p, st, i, n))
    ensures r.Null? && i == n ==> UpGoal(ctype, src, pat, p, st, i, n) == None
    ensures r.Null? && i < n ==> UpGoal(ctype, src, pat, p, st, i + 1, n) == UpGoal(ctype, src, pat, p, st, i, n)
  {
    hide Search, Parse, Balanced;
    assert Advance(st, i) == State(st.s + i, st.caps);
  }

  lemma RunEnds(ctype: Ctype, src: string, cls: Class, s0: nat, s: nat)
    requires s0 <= |src| && s0 <= s <= s0 + RunLength(ctype, src, cls, s0)
    ensures s <= |src| && (s == s0 + RunLength(ctype, src, cls, s0) <==> s == |src| || !Member(ctype, cls, src[s]))
  {
    RepeatsIff(ctype, src, cls, s0, s + 1 - s0);
  }
}
