/** How patterns are written: the characters of every item, and what the text of a pattern then matches. */
module PatternText {
  import opened PatternSem
  import opened PatternMatch

  // ----- The text of a pattern -----

  function ElemText(e: Elem): string {
    match e
    case Escaped(cl) => ['%', cl]
    case Range(lo, hi) => [lo, '-', hi]
    case Plain(c) => [c]
  }

  function ElemsText(es: seq<Elem>): string {
    if es == [] then "" else ElemText(es[0]) + ElemsText(es[1..])
  }

  function ClassText(cls: Class): string {
    match cls
    case Any => "."
    case Letter(cl) => ['%', cl]
    case Set(negated, elems) => (if negated then "[^" else "[") + ElemsText(elems) + "]"
    case Exactly(c) => [c]
  }

  function RepText(rep: Rep): string {
    match rep
    case One => ""
    case Opt => "?"
    case Star => "*"
    case Plus => "+"
    case Minus => "-"
  }

  function ItemText(item: Item): string {
    match item
    case Single(cls, rep) => ClassText(cls) + RepText(rep)
    case Open => "("
    case Position => "()"
    case Close => ")"
    case Back(l) => if -1 <= l <= 8 then ['%', "0123456789"[l + 1]] else ""
    case Balance(b, e) => ['%', 'b', b, e]
    case Frontier(cls) => "%f" + ClassText(cls)
    case End => "$"
  }

  function Text(items: seq<Item>): string {
    if items == [] then "" else ItemText(items[0]) + Text(items[1..])
  }

  // ----- Which items have a text of their own -----

  predicate Bare(c: char, first: bool) {
    c != NUL && c != '%' && (c == ']' ==> first)
  }

  /** The elements of a set, read from the left; a hyphen stands for itself where it cannot mean a range. */
  predicate Legible(es: seq<Elem>, first: bool) {
    if es == [] then !first
    else
      && Legible(es[1..], false)
      && match es[0]
         case Escaped(cl) => cl != NUL
         case Range(lo, hi) => Bare(lo, first) && Bare(hi, false)
         case Plain(c) => Bare(c, first) && (At(ElemsText(es[1..]), 0) == '-' ==> es[1..] == [Plain('-')])
  }

  predicate ClassLegible(cls: Class) {
    match cls
    case Any => true
    case Letter(cl) => cl != NUL
    case Set(negated, elems) => Legible(elems, true) && (!negated ==> At(ElemsText(elems), 0) != '^')
    case Exactly(c) => c != NUL && c != '%' && c != '.' && c != '['
  }

  /** The item can be told apart from what follows it, which starts with `next` (zero at the end). */
  predicate ItemLegible(item: Item, next: char) {
    match item
    case Single(cls, rep) =>
      && ClassLegible(cls) && (rep == One ==> next !in "?*+-")
      && (cls.Letter? ==> cls.cl != 'b' && cls.cl != 'f' && cls.cl !in "0123456789")
      && (cls.Exactly? ==> cls.c != '(' && cls.c != ')' && (cls.c == '$' && rep == One ==> next != NUL))
    case Open => next != ')'
    case Position => true
    case Close => true
    case Back(l) => -1 <= l <= 8
    case Balance(b, e) => b != NUL && e != NUL
    case Frontier(cls) => cls.Set? && ClassLegible(cls)
    case End => next == NUL
  }

  predicate ItemsLegible(items: seq<Item>) {
    items == [] || (ItemLegible(items[0], At(Text(items[1..]), 0)) && ItemsLegible(items[1..]))
  }

  // ----- Reading the text -----

  /** The rest of the pattern is `t`. */
  predicate From(pat: string, p: nat, t: string) {
    p <= |pat| && pat[p..] == t
  }

  predicate Starts(pat: string, p: nat, t: string) {
    p + |t| <= |pat| && pat[p..p + |t|] == t
  }

  lemma Split(pat: string, p: nat, a: string, b: string)
    requires From(pat, p, a + b)
    ensures p + |a| <= |pat|
    ensures Starts(pat, p, a) && From(pat, p + |a|, b) && At(pat, p + |a|) == At(b, 0)
  {
    assert pat[p..p + |a|] == pat[p..][..|a|];
    assert pat[p + |a|..] == pat[p..][|a|..];
    assert b != [] ==> pat[p + |a|..][0] == b[0];
  }

  /** The first four characters, one by one. */
  lemma Spelled(pat: string, p: nat, t: string)
    requires Starts(pat, p, t)
    ensures |t| > 0 ==> pat[p] == t[0]
    ensures |t| > 1 ==> pat[p + 1] == t[1]
    ensures |t| > 2 ==> pat[p + 2] == t[2]
    ensures |t| > 3 ==> pat[p + 3] == t[3]
  {
    assert forall k :: 0 <= k < |t| ==> pat[p..p + |t|][k] == t[k];
  }

  predicate ElemFits(e: Elem, first: bool) {
    match e
    case Escaped(cl) => cl != NUL
    case Range(lo, hi) => Bare(lo, first) && Bare(hi, false)
    case Plain(c) => Bare(c, first)
  }

  /** The elements stand at `q`, and the closing bracket at `ec`. */
  predicate Written(pat: string, q: nat, es: seq<Elem>, first: bool, ec: nat)
    decreases |es|
  {
    if es == [] then q == ec < |pat| && pat[ec] == ']' && !first
    else
      && Starts(pat, q, ElemText(es[0])) && ElemFits(es[0], first)
      && (es[0].Plain? && At(pat, q + 1) == '-' ==> ec <= q + 2)
      && Written(pat, q + |ElemText(es[0])|, es[1..], false, ec)
  }

  lemma Group(a: string, b: string, c: string)
    ensures a + b + c == a + (b + c)
  {
  }

  lemma {:induction false} SetWritten(pat: string, q: nat, es: seq<Elem>, first: bool, rest: string)
    requires From(pat, q, ElemsText(es) + ("]" + rest)) && Legible(es, first)
    ensures Written(pat, q, es, first, q + |ElemsText(es)|)
    decreases |es|
  {
    hide *;
    if es == [] {
      NoneWritten(pat, q, first, rest);
    } else {
      var e, es' := es[0], es[1..];
      var u, t := ElemsText(es'), ElemsText(es') + ("]" + rest);
      LegibleHead(es, first);
      Group(ElemText(e), u, "]" + rest);
      Split(pat, q, ElemText(e), t);
      SetWritten(pat, q + |ElemText(e)|, es', false, rest);
      AtJoin(u, rest);
      OneHyphen(es');
      WrittenCons(pat, q, es, first, q + |ElemText(e)| + |u|);
    }
  }

  lemma NoneWritten(pat: string, q: nat, first: bool, rest: string)
    requires From(pat, q, ElemsText([]) + ("]" + rest)) && Legible([], first)
    ensures Written(pat, q, [], first, q + |ElemsText([])|)
  {
    assert ElemsText([]) + ("]" + rest) == "]" + rest;
    Split(pat, q, "]", rest);
    Spelled(pat, q, "]");
  }

  lemma AtJoin(u: string, rest: string)
    ensures At(u + ("]" + rest), 0) == if u == "" then ']' else At(u, 0)
  {
  }

  lemma LegibleHead(es: seq<Elem>, first: bool)
    requires es != [] && Legible(es, first)
    ensures ElemFits(es[0], first) && Legible(es[1..], false) && ElemsText(es) == ElemText(es[0]) + ElemsText(es[1..])
    ensures es[0].Plain? ==> |ElemText(es[0])| == 1 && (At(ElemsText(es[1..]), 0) == '-' ==> es[1..] == [Plain('-')])
  {
  }

  lemma WrittenCons(pat: string, q: nat, es: seq<Elem>, first: bool, ec: nat)
    requires es != [] && Starts(pat, q, ElemText(es[0])) && ElemFits(es[0], first)
    requires es[0].Plain? && At(pat, q + 1) == '-' ==> ec <= q + 2
    requires Written(pat, q + |ElemText(es[0])|, es[1..], false, ec)
    ensures Written(pat, q, es, first, ec)
  {
  }

  lemma OneHyphen(es: seq<Elem>)
    ensures es == [Plain('-')] ==> ElemsText(es) == "-"
  {
  }

  /** The characters behind an element. */
  lemma WrittenNext(pat: string, q: nat, es: seq<Elem>, ec: nat)
    requires Written(pat, q, es, false, ec)
    ensures q <= ec < |pat| && pat[ec] == ']'
      && (if es == [] then q == ec else q < ec && pat[q] != ']' && pat[q] != NUL)
    decreases |es|
  {
    if es != [] {
      Spelled(pat, q, ElemText(es[0]));
      WrittenNext(pat, q + |ElemText(es[0])|, es[1..], ec);
    }
  }

  /** The contents of a set are read up to the closing bracket. */
  lemma {:induction false} SetRead(pat: string, q: nat, es: seq<Elem>, first: bool, ec: nat)
    requires Written(pat, q, es, first, ec) && es != []
    ensures q < ec < |pat| && Elems(pat, q, ec) == es && SetEnd(pat, q) == Some(ec)
    decreases |es|
  {
    var e, es' := es[0], es[1..];
    var q' := q + |ElemText(e)|;
    hide *;
    WrittenHead(pat, q, es, first, ec);
    if es' != [] { SetRead(pat, q', es', false, ec); }
    WrittenNext(pat, q', es', ec);
    Spelled(pat, q, ElemText(e));
    NoElems(pat, ec);
    assert es == [e] + es';
    assert |ElemText(e)| == if e.Plain? then 1 else if e.Escaped? then 2 else 3 by { ElemLength(e); }
    ElemRead(pat, q, ec, e, es', first);
  }

  lemma WrittenHead(pat: string, q: nat, es: seq<Elem>, first: bool, ec: nat)
    requires Written(pat, q, es, first, ec) && es != []
    ensures Starts(pat, q, ElemText(es[0])) && ElemFits(es[0], first)
      && (es[0].Plain? && At(pat, q + 1) == '-' ==> ec <= q + 2)
      && Written(pat, q + |ElemText(es[0])|, es[1..], false, ec) && q + |ElemText(es[0])| <= |pat|
  {
  }

  lemma NoElems(pat: string, ec: nat)
    ensures Elems(pat, ec, ec) == []
  {
  }

  lemma ElemLength(e: Elem)
    ensures |ElemText(e)| == if e.Plain? then 1 else if e.Escaped? then 2 else 3
  {
  }

  lemma ElemRead(pat: string, q: nat, ec: nat, e: Elem, es': seq<Elem>, first: bool)
    requires var q' := q + |ElemText(e)|;
      && q' <= ec < |pat| && Elems(pat, q', ec) == es'
      && if q' == ec then pat[q'] == ']' else pat[q'] != ']' && SetEnd(pat, q') == Some(ec)
    requires ElemFits(e, first) && pat[q] == ElemText(e)[0]
    requires !e.Plain? ==> pat[q + 1] == ElemText(e)[1]
    requires e.Range? ==> pat[q + 2] == ElemText(e)[2]
    requires e.Plain? && pat[q + 1] == '-' ==> ec <= q + 2
    ensures Elems(pat, q, ec) == [e] + es' && SetEnd(pat, q) == Some(ec)
  {
    if e.Range? { assert SetEnd(pat, q) == SetEnd(pat, q + 1) == SetEnd(pat, q + 2); }
  }

  /** A class is read up to its end, whatever follows. */
  lemma ClassRead(pat: string, p: nat, cls: Class, rest: string)
    requires From(pat, p, ClassText(cls) + rest) && ClassLegible(cls)
    ensures var ep := p + |ClassText(cls)|;
      p < ep <= |pat| && ClassEnd(pat, p) == Some(ep) && ClassAt(pat, p, ep) == cls
  {
    if cls.Set? {
      BracketRead(pat, p, cls.negated, cls.elems, rest);
    } else {
      Split(pat, p, ClassText(cls), rest);
      Spelled(pat, p, ClassText(cls));
    }
  }

  lemma BracketText(negated: bool, elems: seq<Elem>, rest: string)
    ensures var open := if negated then "[^" else "[";
      && ClassText(Set(negated, elems)) + rest == open + (ElemsText(elems) + ("]" + rest))
      && |ClassText(Set(negated, elems))| == |open| + |ElemsText(elems)| + 1
  {
    var open := if negated then "[^" else "[";
    var body := ElemsText(elems);
    assert ClassText(Set(negated, elems)) == open + body + "]";
    assert open + body + "]" + rest == open + (body + ("]" + rest));
  }

  lemma BracketRead(pat: string, p: nat, negated: bool, elems: seq<Elem>, rest: string)
    requires From(pat, p, ClassText(Set(negated, elems)) + rest) && ClassLegible(Set(negated, elems))
    ensures var ep := p + |ClassText(Set(negated, elems))|;
      p < ep <= |pat| && ClassEnd(pat, p) == Some(ep) && ClassAt(pat, p, ep) == Set(negated, elems)
  {
    FirstChar(elems);
    BracketText(negated, elems, rest);
    hide ElemsText, Legible, ClassText, ClassEnd, ClassAt, Written, Elems, SetEnd, Starts, From;
    var open := if negated then "[^" else "[";
    var body := ElemsText(elems);
    Split(pat, p, open, body + ("]" + rest));
    Spelled(pat, p, open);
    assert At(body + ("]" + rest), 0) == body[0];
    SetWritten(pat, p + |open|, elems, true, rest);
    var ec := p + |open| + |body|;
    SetRead(pat, p + |open|, elems, true, ec);
    BracketAt(pat, p, negated, elems, ec);
  }

  lemma FirstChar(elems: seq<Elem>)
    requires Legible(elems, true)
    ensures elems != [] && ElemsText(elems) != ""
  {
  }

  lemma BracketAt(pat: string, p: nat, negated: bool, elems: seq<Elem>, ec: nat)
    requires p + 1 < ec < |pat| && pat[p] == '[' && (if negated then pat[p + 1] == '^' else pat[p + 1] != '^')
    requires var q := if negated then p + 2 else p + 1; SetEnd(pat, q) == Some(ec) && Elems(pat, q, ec) == elems
    ensures ClassEnd(pat, p) == Some(ec + 1) && ClassAt(pat, p, ec + 1) == Set(negated, elems)
  {
  }

  lemma ItemRead(pat: string, p: nat, item: Item, rest: string)
    requires From(pat, p, ItemText(item) + rest) && ItemLegible(item, At(rest, 0))
    ensures p <= |pat| && HeadAt(pat, p) == Next(item, p + |ItemText(item)|)
  {
    hide ItemText, HeadAt;
    match item
    case Single(cls, rep) => SingleRead(pat, p, cls, rep, rest);
    case Frontier(cls) => FrontierRead(pat, p, cls, rest);
    case _ => ShortRead(pat, p, item, rest);
  }

  lemma ShortRead(pat: string, p: nat, item: Item, rest: string)
    requires !item.Single? && !item.Frontier?
    requires From(pat, p, ItemText(item) + rest) && ItemLegible(item, At(rest, 0))
    ensures HeadAt(pat, p) == Next(item, p + |ItemText(item)|)
  {
    hide ClassEnd, ClassAt;
    Split(pat, p, ItemText(item), rest);
    Spelled(pat, p, ItemText(item));
    if item.Back? {
      var d := "0123456789"[item.l + 1];
      assert IsDigit(d) && d as int - '1' as int == item.l;
    }
  }

  lemma SetStarts(cls: Class)
    requires cls.Set?
    ensures |ClassText(cls)| > 0 && ClassText(cls)[0] == '['
  {
  }

  lemma FrontierRead(pat: string, p: nat, cls: Class, rest: string)
    requires From(pat, p, ItemText(Frontier(cls)) + rest) && cls.Set? && ClassLegible(cls)
    ensures HeadAt(pat, p) == Next(Frontier(cls), p + |ItemText(Frontier(cls))|)
  {
    hide ClassEnd, ClassAt, ClassLegible, ClassText, Starts, HeadAt, From;
    var t := ClassText(cls);
    SetStarts(cls);
    Group("%f", t, rest);
    Split(pat, p, "%f", t + rest);
    Spelled(pat, p, "%f");
    ClassRead(pat, p + 2, cls, rest);
    Split(pat, p + 2, t, rest);
    Spelled(pat, p + 2, t);
    FrontierHead(pat, p, p + 2 + |t|, cls);
  }

  lemma FrontierHead(pat: string, p: nat, ep: nat, cls: Class)
    requires p + 2 < |pat| && pat[p] == '%' && pat[p + 1] == 'f' && pat[p + 2] == '['
    requires p + 2 < ep <= |pat| && ClassEnd(pat, p + 2) == Some(ep) && ClassAt(pat, p + 2, ep) == cls
    ensures HeadAt(pat, p) == Next(Frontier(cls), ep)
  {
    hide ClassEnd, ClassAt;
  }

  lemma SingleRead(pat: string, p: nat, cls: Class, rep: Rep, rest: string)
    requires From(pat, p, ItemText(Single(cls, rep)) + rest) && ItemLegible(Single(cls, rep), At(rest, 0))
    ensures HeadAt(pat, p) == Next(Single(cls, rep), p + |ItemText(Single(cls, rep))|)
  {
    hide ClassEnd, ClassAt, Starts, HeadAt, ClassText, From;
    var t := ClassText(cls);
    Group(t, RepText(rep), rest);
    Split(pat, p, t, RepText(rep) + rest);
    ClassRead(pat, p, cls, RepText(rep) + rest);
    Spelled(pat, p, t);
    SingleStarts(cls, rep, At(rest, 0));
    assert |t| > 1 ==> At(pat, p + 1) == t[1];
    assert |t| == 1 ==> At(pat, p + 1) == At(RepText(rep) + rest, 0);
    SingleHead(pat, p, p + |t|, cls, rep);
  }

  /** No other item starts like a single-character class. */
  lemma SingleStarts(cls: Class, rep: Rep, next: char)
    requires ItemLegible(Single(cls, rep), next)
    ensures var t := ClassText(cls);
      && |t| > 0 && t[0] != NUL && t[0] != '(' && t[0] != ')' && (t[0] == '%' <==> cls.Letter?)
      && (cls.Letter? ==> |t| == 2 && t[1] == cls.cl) && (t[0] == '$' ==> |t| == 1 && (rep == One ==> next != NUL))
  {
  }

  lemma SingleHead(pat: string, p: nat, ep: nat, cls: Class, rep: Rep)
    requires p < ep <= |pat| && ClassEnd(pat, p) == Some(ep) && ClassAt(pat, p, ep) == cls
    requires pat[p] != NUL && pat[p] != '(' && pat[p] != ')' && !(pat[p] == '$' && At(pat, p + 1) == NUL)
    requires pat[p] == '%' ==> At(pat, p + 1) != 'b' && At(pat, p + 1) != 'f' && !IsDigit(At(pat, p + 1))
    requires if rep == One then At(pat, ep) !in "?*+-" else At(pat, ep) == RepText(rep)[0]
    ensures HeadAt(pat, p) == Next(Single(cls, rep), ep + |RepText(rep)|)
  {
    hide ClassEnd, ClassAt;
  }

  lemma TextCons(items: seq<Item>)
    requires items != [] && ItemsLegible(items)
    ensures Text(items) == ItemText(items[0]) + Text(items[1..])
    ensures ItemLegible(items[0], At(Text(items[1..]), 0)) && ItemsLegible(items[1..])
  {
    hide ItemText, ItemLegible;
  }

  lemma ParseCons(pat: string, p: nat, item: Item, q: nat, items: seq<Item>)
    requires p <= q <= |pat| && HeadAt(pat, p) == Next(item, q) && Parse(pat, q) == Some(items)
    ensures Parse(pat, p) == Some([item] + items)
  {
    hide HeadAt;
  }

  /** Every legible sequence of items is read back from its text. */
  lemma {:induction false} TextRead(pat: string, p: nat, items: seq<Item>)
    requires From(pat, p, Text(items)) && ItemsLegible(items)
    ensures p <= |pat| && Parse(pat, p) == Some(items)
    decreases |items|
  {
    hide *;
    if items == [] {
      NothingRead(pat, p);
    } else {
      var item, rest := items[0], Text(items[1..]);
      TextCons(items);
      ItemRead(pat, p, item, rest);
      Split(pat, p, ItemText(item), rest);
      TextRead(pat, p + |ItemText(item)|, items[1..]);
      ParseCons(pat, p, item, p + |ItemText(item)|, items[1..]);
      assert items == [item] + items[1..];
    }
  }

  lemma NothingRead(pat: string, p: nat)
    requires From(pat, p, Text([]))
    ensures p <= |pat| && Parse(pat, p) == Some([])
  {
    assert |pat| == p && HeadAt(pat, p) == Finished;
  }

  // ----- What the characters mean -----

  /** A lower-case letter stands for the test of that name, an upper-case one for its opposite, any other
      character behind the escape for itself. */
  lemma LetterLaw(ctype: Ctype, c: char)
    ensures forall i :: 0 <= i < 9 ==> (MatchClass(ctype, c, "acdlpsuwx"[i]) <==> ctype("acdlpsuwx"[i], c))
    ensures forall i :: 0 <= i < 9 ==> (MatchClass(ctype, c, "ACDLPSUWX"[i]) <==> !ctype("acdlpsuwx"[i], c))
    ensures (MatchClass(ctype, c, 'z') <==> c == '\0') && (MatchClass(ctype, c, 'Z') <==> c != '\0')
    ensures forall cl :: cl !in "acdlpsuwxzACDLPSUWXZ" ==> (MatchClass(ctype, c, cl) <==> cl == c)
  {
    forall i | 0 <= i < 9
      ensures MatchClass(ctype, c, "acdlpsuwx"[i]) <==> ctype("acdlpsuwx"[i], c)
      ensures MatchClass(ctype, c, "ACDLPSUWX"[i]) <==> !ctype("acdlpsuwx"[i], c)
    {
      assert ToLower("ACDLPSUWX"[i]) == "acdlpsuwx"[i];
    }
    forall cl | cl !in "acdlpsuwxzACDLPSUWXZ"
      ensures MatchClass(ctype, c, cl) <==> cl == c
    {
      OtherLetter(ctype, c, cl);
    }
  }

  lemma OtherLetter(ctype: Ctype, c: char, cl: char)
    requires cl !in "acdlpsuwxzACDLPSUWXZ"
    ensures MatchClass(ctype, c, cl) <==> cl == c
  {
    assert ToLower(cl) !in "acdlpsuwxz";
  }

  /** A set has the members of its elements, and one that starts with '^' all other characters. */
  lemma SetLaw(ctype: Ctype, c: char, e: Elem, es: seq<Elem>)
    ensures Member(ctype, Set(true, es), c) <==> !Member(ctype, Set(false, es), c)
    ensures !Member(ctype, Set(false, []), c)
    ensures Member(ctype, Set(false, [e] + es), c) <==>
      Member(ctype, Set(false, es), c) ||
      (match e
       case Plain(d) => c == d
       case Range(lo, hi) => lo <= c <= hi
       case Escaped(cl) => Member(ctype, Letter(cl), c))
  {
    var all := [e] + es;
    assert all[0] == e && forall i :: 0 <= i < |es| ==> all[i + 1] == es[i];
    hide MatchClass;
    if i :| 0 <= i < |es| && InElem(ctype, es[i], c) { assert InElem(ctype, all[i + 1], c); }
    if i :| 0 <= i < |all| && InElem(ctype, all[i], c) { assert i > 0 ==> all[i] == es[i - 1]; }
  }

  /** `cls` repeated `n` times, and the rest of the pattern behind it. */
  ghost predicate MatchesAfter(ctype: Ctype, src: string, cls: Class, rest: seq<Item>, st: State, n: nat)
    requires StateOk(src, st)
  {
    && st.s + n <= |src| && (forall i :: st.s <= i < st.s + n ==> Member(ctype, cls, src[i]))
    && After(ctype, src, rest, st, n).Some?
  }

  ghost function After(ctype: Ctype, src: string, rest: seq<Item>, st: State, n: nat): Option<State>
    requires StateOk(src, st) && st.s + n <= |src|
  {
    assert StateOk(src, State(st.s + n, st.caps));
    Search(ctype, src, rest, State(st.s + n, st.caps))
  }

  /** What a class with the repetition character `c` does in front of `rest`: '*' takes the greatest number of
      repetitions behind which the rest matches, '+' the greatest from 1, '-' the least, '?' one or else none. */
  ghost predicate Takes(ctype: Ctype, src: string, cls: Class, c: char, rest: seq<Item>, st: State, n: nat)
    requires StateOk(src, st)
  {
    && MatchesAfter(ctype, src, cls, rest, st, n)
    && (c == '*' ==> forall m :: m > n ==> !MatchesAfter(ctype, src, cls, rest, st, m))
    && (c == '+' ==> n >= 1 && forall m :: m > n ==> !MatchesAfter(ctype, src, cls, rest, st, m))
    && (c == '-' ==> forall m :: 0 <= m < n ==> !MatchesAfter(ctype, src, cls, rest, st, m))
    && (c == '?' ==> n == 1 || (n == 0 && !MatchesAfter(ctype, src, cls, rest, st, 1)))
  }

  function RepNamed(c: char): Rep {
    if c == '*' then Star else if c == '+' then Plus else if c == '-' then Minus else Opt
  }

  lemma TakesFirst(ctype: Ctype, src: string, cls: Class, c: char, rest: seq<Item>, st: State) returns (n: nat)
    requires StateOk(src, st) && c in "*+-?"
    ensures var r := Search(ctype, src, [Single(cls, RepNamed(c))] + rest, st);
      if r.Some? then Takes(ctype, src, cls, c, rest, st, n) && r == After(ctype, src, rest, st, n)
      else forall m :: Allowed(c, m) ==> !MatchesAfter(ctype, src, cls, rest, st, m)
  {
    var item := Single(cls, RepNamed(c));
    var items := [item] + rest;
    assert items[1..] == rest && items[0] == item;
    n := FirstCount(ctype, src, items, st);
    forall m: nat
      ensures MatchesAfter(ctype, src, cls, rest, st, m) && Allowed(c, m) <==>
        Possible(ctype, src, item, st, m) && !Untried(ctype, src, items, st, m)
    {
      RepeatsIff(ctype, src, cls, st.s, m);
      hide Search, RunLength;
      if st.s + m <= |src| { assert Advance(st, m) == State(st.s + m, st.caps); }
    }
    hide Search, RunLength, MatchesAfter, Untried, Possible;
  }

  predicate Allowed(c: char, n: nat) {
    (c == '+' ==> n >= 1) && (c == '?' ==> n <= 1)
  }

  /** A class that can be followed by a repetition character. */
  predicate Repeatable(cls: Class) {
    && ClassLegible(cls) && (cls.Letter? ==> cls.cl != 'b' && cls.cl != 'f' && cls.cl !in "0123456789")
    && (cls.Exactly? ==> cls.c != '(' && cls.c != ')')
  }

  lemma RepeatedText(cls: Class, c: char, rest: seq<Item>)
    requires Repeatable(cls) && c in "*+-?" && ItemsLegible(rest)
    ensures var items := [Single(cls, RepNamed(c))] + rest;
      ItemsLegible(items) && Text(items) == ClassText(cls) + [c] + Text(rest)
  {
    var items := [Single(cls, RepNamed(c))] + rest;
    assert items[1..] == rest && items[0] == Single(cls, RepNamed(c));
    assert RepText(RepNamed(c)) == [c];
    hide ClassText, ClassLegible;
  }

  /** The matcher on the text of a class, a repetition character and the rest of a pattern. */
  method MatchRepeated(ctype: Ctype, src: string, s: nat, cls: Class, c: char, rest: seq<Item>)
    returns (r: Res, ghost n: nat)
    requires s <= |src| && Repeatable(cls) && c in "*+-?" && ItemsLegible(rest) && Balanced(rest, [])
    ensures r.Found? ==>
      Takes(ctype, src, cls, c, rest, State(s, []), n) && r.s == After(ctype, src, rest, State(s, []), n).value.s
    ensures !r.Found? ==>
      r.Null? && forall m :: Allowed(c, m) ==> !MatchesAfter(ctype, src, cls, rest, State(s, []), m)
  {
    hide ClassText, ItemsLegible, Text, Repeatable, Search, Takes, MatchesAfter, After, Parse;
    var pat := ClassText(cls) + [c] + Text(rest);
    ghost var items := [Single(cls, RepNamed(c))] + rest;
    RepeatedText(cls, c, rest);
    assert From(pat, 0, Text(items));
    TextRead(pat, 0, items);
    assert Balanced(items, Flags([])) by { assert items[1..] == rest && Flags([]) == []; }
    n := TakesFirst(ctype, src, cls, c, rest, State(s, []));
    var ms := new MatchState(src, pat, ctype);
    r := ms.Match(s, 0);
  }

  // ----- Balanced strings -----

  /** How often `c` occurs from `lo` up to `hi`. */
  function Occurs(src: string, lo: nat, hi: nat, c: char): nat
    requires hi <= |src|
  {
    if hi <= lo then 0 else Occurs(src, lo, hi - 1, c) + (if src[hi - 1] == c then 1 else 0)
  }

  lemma {:induction false} DepthCounts(src: string, s: nat, i: nat, b: char, e: char)
    requires s < i <= |src| && src[s] == b && b != e
    ensures Depth(src, s, i, b, e) == Occurs(src, s, i, b) - Occurs(src, s, i, e)
    decreases i
  {
    if i > s + 1 {
      DepthCounts(src, s, i - 1, b, e);
    } else {
      assert Occurs(src, s, s, b) == 0 && Occurs(src, s, s, e) == 0;
    }
  }

  ghost predicate FirstEven(src: string, s: nat, t: nat, x: char, y: char) {
    && s < t <= |src| && src[s] == x && Occurs(src, s, t, x) == Occurs(src, s, t, y)
    && forall i :: s < i < t ==> Occurs(src, s, i, x) != Occurs(src, s, i, y)
  }

  /** `%bxy` goes from an `x` to the first place up to which there are as many `y` as `x`. */
  lemma BalanceLaw(src: string, s: nat, t: nat, x: char, y: char)
    requires x != y
    ensures BalancedTo(src, s, t, x, y) <==> FirstEven(src, s, t, x, y)
  {
    if s < t <= |src| && src[s] == x {
      DepthCounts(src, s, t, x, y);
      forall i: nat | s < i < t
        ensures Depth(src, s, i, x, y) != 0 <==> Occurs(src, s, i, x) != Occurs(src, s, i, y)
      {
        DepthCounts(src, s, i, x, y);
      }
      if BalancedTo(src, s, t, x, y) {
        forall i: nat | s < i < t
          ensures Occurs(src, s, i, x) != Occurs(src, s, i, y)
        {
          assert Depth(src, s, i, x, y) != 0;
        }
      }
      if FirstEven(src, s, t, x, y) {
        OneApart(src, s, x, y);
        forall i: nat | s + 1 <= i < t
          ensures Depth(src, s, i, x, y) != 0
        {
          assert Occurs(src, s, i, x) != Occurs(src, s, i, y);
        }
      }
    }
  }

  lemma OneApart(src: string, s: nat, x: char, y: char)
    requires s < |src| && src[s] == x && x != y
    ensures Occurs(src, s, s + 1, x) == 1 && Occurs(src, s, s + 1, y) == 0
  {
    assert Occurs(src, s, s, x) == 0 && Occurs(src, s, s, y) == 0;
  }
}
