/** The precedence parser, building trees. */
module ExprParser {
  import opened ExprSyntax

  datatype Option<T> = None | Some(value: T)

  function Current(toks: seq<Token>): Token {
    if toks == [] then TOther(0) else toks[0]
  }

  /** lparser.c `getunopr`. */
  function UnOpr(t: Token): Option<UnOp> {
    match t
    case TNot => Some(Not)
    case TOp(Sub) => Some(Neg)
    case THash => Some(Len)
    case _ => None
  }

  /** lparser.c `getbinopr`. */
  function BinOpr(t: Token): Option<BinOp> {
    if t.TOp? then Some(t.op) else None
  }

  /** What follows is an operator of left priority `next`, or no operator (0). */
  predicate Followed(rest: seq<Token>, next: nat) {
    var op := BinOpr(Current(rest));
    if op.Some? then Left(op.value) == next else next == 0
  }

  /** The input is the printed expression, and it is read with a limit that stops behind it. */
  predicate Reads(toks: seq<Token>, e: Expr, limit: nat, next: nat, rest: seq<Token>) {
    toks == Print(e, limit, next) + rest && Followed(rest, next)
  }

  class LexState {
    var toks: seq<Token>
    var nCcalls: nat

    constructor (toks: seq<Token>, nCcalls: nat)
      ensures this.toks == toks && this.nCcalls == nCcalls
    {
      this.toks, this.nCcalls := toks, nCcalls;
    }

    /** lparser.c `simpleexp` on an opaque simple expression or an expression in parentheses. */
    method SimpleExp(ghost f: Expr, ghost limit: nat, ghost next: nat, ghost rest: seq<Token>)
      returns (ok: bool, v: Expr)
      requires nCcalls <= MAXCCALLS
      modifies this
      ensures |toks| <= |old(toks)| && (ok ==> nCcalls == old(nCcalls))
      ensures Reads(old(toks), f, limit, next, rest) && Simple(f, limit, next) ==>
        (ok <==> old(nCcalls) + Depth(f, limit, next) <= MAXCCALLS) && (ok ==> v == Tree(f) && toks == rest)
      decreases |toks|, 0
    {
      ghost var good := Reads(toks, f, limit, next, rest) && Simple(f, limit, next);
      v := Atom(0);
      if Current(toks).TAtom? {
        v := Atom(Current(toks).id);
        toks := toks[1..];
        ok := true;
        if good { AtomRead(f, limit, next, rest, old(toks)); }
      } else if Current(toks) == TOpen {
        toks := toks[1..];
        ghost var close := [TClose] + rest;
        if good { ParenRead(f, limit, next, rest, old(toks)); }
        hide Reads, Print, Depth, Fits;
        var op;
        ok, v, op := Subexpr(0, Inside(f), 0, close);
        if !ok { return; }
        assert good ==> toks == close && close[0] == TClose && close[1..] == rest;
        if Current(toks) != TClose {
          return false, v;
        }
        toks := toks[1..];
      } else {
        ok := false;
        if good { SimpleStart(f, limit, next, rest); }
      }
    }

    /** The first operand of lparser.c `subexpr`. */
    method Operand(ghost f: Expr, ghost limit: nat, ghost next: nat, ghost rest: seq<Token>) returns (ok: bool, v: Expr)
      requires nCcalls <= MAXCCALLS
      modifies this
      ensures |toks| <= |old(toks)| && (ok ==> nCcalls == old(nCcalls))
      ensures Reads(old(toks), f, limit, next, rest) && (f.Bin? ==> !Fits(f, limit, next)) ==>
        (ok <==> old(nCcalls) + Depth(f, limit, next) <= MAXCCALLS) && (ok ==> v == Tree(f) && toks == rest)
      decreases |toks|, 1
    {
      ghost var good := Reads(toks, f, limit, next, rest) && (f.Bin? ==> !Fits(f, limit, next));
      if good { OperandStart(f, limit, next, rest); }
      var uop := UnOpr(Current(toks));
      if uop.Some? {
        toks := toks[1..];
        if good { UnaryRead(f, limit, next, rest, old(toks)); }
        hide Reads, Print, Depth, Fits;
        var op;
        ok, v, op := Subexpr(UNARY_PRIORITY, if good then f.e else f, next, rest);
        v := Un(uop.value, v);
      } else {
        hide Reads, Print, Depth, Fits;
        ok, v := SimpleExp(f, limit, next, rest);
      }
    }

    /** lparser.c `subexpr`. A printed tree is read back as the same tree, exactly if it is within
        the nesting limit. */
    method Subexpr(limit: nat, ghost e: Expr, ghost next: nat, ghost rest: seq<Token>)
      returns (ok: bool, v: Expr, op: Option<BinOp>)
      modifies this
      ensures |toks| <= |old(toks)| && (ok ==> nCcalls == old(nCcalls) && op == BinOpr(Current(toks)))
      ensures Reads(old(toks), e, limit, next, rest) && next <= limit ==>
        (ok <==> old(nCcalls) + 1 + Depth(e, limit, next) <= MAXCCALLS) && (ok ==> v == Tree(e) && toks == rest)
      decreases |toks|, 2
    {
      ghost var good := Reads(toks, e, limit, next, rest) && next <= limit;
      ghost var f, ps := First(e, limit, next), Rest(e, limit, next);
      ghost var behind := PrintRest(ps, 0, next) + rest;
      Spine(e, limit, next);
      if good { SpineReads(toks, e, limit, next, rest, f, ps); }
      hide Reads, Print, Depth, Fits, PrintRest, RestDepth, Fold, Readable, First, Rest;
      v, op := Atom(0), None;
      nCcalls := nCcalls + 1;
      if nCcalls > MAXCCALLS {
        return false, v, op;
      }
      ok, v := Operand(f, limit, NextAt(ps, 0, next), behind);
      if !ok { return; }
      op := BinOpr(Current(toks));
      ghost var i: nat := 0;
      FoldNone(f, ps);
      while op.Some? && Left(op.value) > limit
        invariant i <= |ps| && nCcalls == old(nCcalls) + 1 && |toks| <= |old(toks)| && op == BinOpr(Current(toks))
        invariant good ==> toks == PrintRest(ps, i, next) + rest && v == Tree(Fold(f, ps[..i]))
        invariant good ==> (nCcalls + Depth(e, limit, next) <= MAXCCALLS <==>
                            nCcalls + RestDepth(ps, i, next) <= MAXCCALLS)
        decreases |toks|
      {
        ghost var hint, n, left := e, 0, rest;
        if good {
          LoopGoesOn(ps, i, limit, next, rest, toks);
          hint, n, left := ps[i].r, NextAt(ps, i + 1, next), PrintRest(ps, i + 1, next) + rest;
        }
        toks := toks[1..];
        var v2, nextop;
        ok, v2, nextop := Subexpr(Right(op.value), hint, n, left);
        if !ok { return; }
        v := Bin(op.value, v, v2);
        op := nextop;
        if good {
          FoldNext(f, ps, i);
          i := i + 1;
        }
      }
      if good { LoopEnds(ps, i, limit, next, rest, toks); }
      nCcalls := nCcalls - 1;
      ok := true;
    }

    /** lparser.c `expr`, from outside any other expression: what is printed is read back. */
    method Expression(ghost e: Expr, ghost rest: seq<Token>) returns (ok: bool, v: Expr)
      modifies this
      ensures old(toks) == Print(e, 0, 0) + rest && !Current(rest).TOp? && Current(rest) != TOpen ==>
        (ok <==> old(nCcalls) + 1 + Depth(e, 0, 0) <= MAXCCALLS)
          && (ok ==> v == Tree(e) && toks == rest && nCcalls == old(nCcalls))
    {
      hide Print, Depth;
      var op;
      ok, v, op := Subexpr(0, e, 0, rest);
    }
  }

  /** An operand that does not start with a unary operator of its own. */
  predicate Simple(f: Expr, limit: nat, next: nat) {
    f.Atom? || f.Group? || !Fits(f, limit, next)
  }

  /** What stands between the parentheses. */
  function Inside(f: Expr): (r: Expr)
    ensures Tree(r) == Tree(f)
  {
    if f.Group? then f.a else f
  }

  lemma AtomRead(f: Expr, limit: nat, next: nat, rest: seq<Token>, toks: seq<Token>)
    requires Reads(toks, f, limit, next, rest) && Simple(f, limit, next) && Current(toks).TAtom?
    ensures f == Atom(toks[0].id) && toks[1..] == rest && Depth(f, limit, next) == 0
  {
    PrintStart(f, limit, next, rest);
    assert f.Atom? && Print(f, limit, next) == [TAtom(f.id)];
    assert toks[1..] == rest;
  }

  lemma PrintStart(f: Expr, limit: nat, next: nat, rest: seq<Token>)
    ensures Print(f, limit, next) != [] && Current(Print(f, limit, next) + rest) == Print(f, limit, next)[0]
    ensures f.Atom? ==> Print(f, limit, next)[0] == TAtom(f.id)
    ensures f.Group? ==> Print(f, limit, next)[0] == TOpen
    ensures !Fits(f, limit, next) ==> Print(f, limit, next)[0] == TOpen
    ensures f.Un? && Fits(f, limit, next) ==> Print(f, limit, next)[0] == UnToken(f.u)
  {
    if !Fits(f, limit, next) {
      assert Print(f, limit, next)[0] == TOpen;
    } else {
      assert Print(f, limit, next) == Bare(f, limit, next);
      match f
      case Atom(id) =>
      case Un(u, a) => assert Bare(f, limit, next)[0] == UnToken(u);
      case Bin(op, l, r) =>
        PrintStart(l, limit, Left(op), []);
        assert Bare(f, limit, next)[0] == Print(l, limit, Left(op))[0];
      case Group(a) => assert Bare(f, limit, next)[0] == TOpen;
    }
    assert (Print(f, limit, next) + rest)[0] == Print(f, limit, next)[0];
  }

  lemma ParenRead(f: Expr, limit: nat, next: nat, rest: seq<Token>, toks: seq<Token>)
    requires Reads(toks, f, limit, next, rest) && Simple(f, limit, next) && Current(toks) == TOpen
    ensures Reads(toks[1..], Inside(f), 0, 0, [TClose] + rest) && Depth(f, limit, next) == 1 + Depth(Inside(f), 0, 0)
  {
    PrintStart(f, limit, next, rest);
    assert f.Group? || (Fits(f, 0, 0) && !Fits(f, limit, next));
    assert Print(f, limit, next) == [TOpen] + Print(Inside(f), 0, 0) + [TClose];
    assert toks == [TOpen] + (Print(Inside(f), 0, 0) + ([TClose] + rest));
  }

  lemma SimpleStart(f: Expr, limit: nat, next: nat, rest: seq<Token>)
    requires Simple(f, limit, next)
    ensures Current(Print(f, limit, next) + rest).TAtom? || Current(Print(f, limit, next) + rest) == TOpen
  {
    PrintStart(f, limit, next, rest);
  }

  lemma OperandStart(f: Expr, limit: nat, next: nat, rest: seq<Token>)
    requires f.Bin? ==> !Fits(f, limit, next)
    ensures UnOpr(Current(Print(f, limit, next) + rest)) == if Simple(f, limit, next) then None else Some(f.u)
    ensures !Simple(f, limit, next) ==> f.Un?
  {
    PrintStart(f, limit, next, rest);
  }

  lemma UnaryRead(f: Expr, limit: nat, next: nat, rest: seq<Token>, toks: seq<Token>)
    requires Reads(toks, f, limit, next, rest) && !Simple(f, limit, next) && f.Un? && toks != []
    ensures Reads(toks[1..], f.e, UNARY_PRIORITY, next, rest) && next <= UNARY_PRIORITY
      && Depth(f, limit, next) == 1 + Depth(f.e, UNARY_PRIORITY, next)
  {
    PrintStart(f, limit, next, rest);
    assert Print(f, limit, next) == [UnToken(f.u)] + Print(f.e, UNARY_PRIORITY, next);
    assert toks == [UnToken(f.u)] + (Print(f.e, UNARY_PRIORITY, next) + rest);
  }

  lemma SpineReads(toks: seq<Token>, e: Expr, limit: nat, next: nat, rest: seq<Token>, f: Expr, ps: seq<Pair>)
    requires Reads(toks, e, limit, next, rest) && SpineOf(e, limit, next, f, ps)
    ensures Reads(toks, f, limit, NextAt(ps, 0, next), PrintRest(ps, 0, next) + rest)
  {
    hide Print, Depth, Fits, Fold, Readable;
    assert toks == Print(f, limit, NextAt(ps, 0, next)) + (PrintRest(ps, 0, next) + rest);
    BehindFollowed(ps, 0, next, rest);
  }

  lemma BehindFollowed(ps: seq<Pair>, i: nat, next: nat, rest: seq<Token>)
    requires i <= |ps| && Followed(rest, next)
    ensures Followed(PrintRest(ps, i, next) + rest, NextAt(ps, i, next))
  {
    hide Print, Left, Right;
    if i < |ps| {
      assert Current(PrintRest(ps, i, next) + rest) == TOp(ps[i].op);
    } else {
      assert PrintRest(ps, i, next) + rest == rest;
    }
  }

  lemma FoldNone(f: Expr, ps: seq<Pair>)
    ensures Fold(f, ps[..0]) == f
  {
  }

  lemma FoldNext(f: Expr, ps: seq<Pair>, i: nat)
    requires i < |ps|
    ensures Fold(f, ps[..i + 1]) == Bin(ps[i].op, Fold(f, ps[..i]), ps[i].r)
  {
    assert ps[..i + 1] == ps[..i] + [ps[i]];
    FoldAppend(f, ps[..i], ps[i]);
  }

  /** The loop goes on only while there are pairs left. */
  lemma LoopGoesOn(ps: seq<Pair>, i: nat, limit: nat, next: nat, rest: seq<Token>, toks: seq<Token>)
    requires i <= |ps| && Readable(ps, limit, next) && Followed(rest, next) && next <= limit
      && toks == PrintRest(ps, i, next) + rest
    requires BinOpr(Current(toks)).Some? && Left(BinOpr(Current(toks)).value) > limit
    ensures i < |ps| && BinOpr(Current(toks)) == Some(ps[i].op)
    ensures Reads(toks[1..], ps[i].r, Right(ps[i].op), NextAt(ps, i + 1, next), PrintRest(ps, i + 1, next) + rest)
      && NextAt(ps, i + 1, next) <= Right(ps[i].op)
    ensures RestDepth(ps, i, next) == Max(1 + Depth(ps[i].r, Right(ps[i].op), NextAt(ps, i + 1, next)),
                                          RestDepth(ps, i + 1, next))
  {
    BehindFollowed(ps, i, next, rest);
    hide Print, Depth, Left, Right;
    BehindFollowed(ps, i + 1, next, rest);
    assert toks == [TOp(ps[i].op)] + (Print(ps[i].r, Right(ps[i].op),
                                            NextAt(ps, i + 1, next)) + (PrintRest(ps, i + 1, next) + rest));
  }

  lemma LoopEnds(ps: seq<Pair>, i: nat, limit: nat, next: nat, rest: seq<Token>, toks: seq<Token>)
    requires i <= |ps| && Readable(ps, limit, next) && Followed(rest, next) && toks == PrintRest(ps, i, next) + rest
    requires BinOpr(Current(toks)).None? || Left(BinOpr(Current(toks)).value) <= limit
    ensures i == |ps| && ps[..i] == ps && toks == rest && RestDepth(ps, i, next) == 0
  {
    BehindFollowed(ps, i, next, rest);
    hide Print, Depth;
  }
}
