/** What the priorities mean for the text: which operand an operator takes. */
module ExprPriority {
  import opened ExprSyntax
  import opened ExprParser

  /** The operators from the loosest to the tightest, as the manual lists them. */
  const LADDER: seq<set<BinOp>> := [
    {Or}, {And}, {Lt, Gt, Le, Ge, Ne, Eq}, {Concat}, {Add, Sub}, {Mul, Div, Mod}, {Pow}]

  function Rung(op: BinOp): (i: nat)
    ensures i < |LADDER| && op in LADDER[i]
  {
    match op
    case Or => 0
    case And => 1
    case Lt => 2 case Gt => 2 case Le => 2 case Ge => 2 case Ne => 2 case Eq => 2
    case Concat => 3
    case Add => 4 case Sub => 4
    case Mul => 5 case Div => 5 case Mod => 5
    case Pow => 6
  }

  /** `o2` stands higher on the ladder than `o1`. */
  predicate Tighter(o2: BinOp, o1: BinOp) {
    exists i, j :: 0 <= i < j < |LADDER| && o1 in LADDER[i] && o2 in LADDER[j]
  }

  lemma TighterRung(o2: BinOp, o1: BinOp)
    ensures Tighter(o2, o1) <==> Rung(o1) < Rung(o2)
  {
    if Rung(o1) < Rung(o2) {
      assert o1 in LADDER[Rung(o1)] && o2 in LADDER[Rung(o2)];
    }
    if Tighter(o2, o1) {
      var i, j :| 0 <= i < j < |LADDER| && o1 in LADDER[i] && o2 in LADDER[j];
      OneRung(o1, i);
      OneRung(o2, j);
    }
  }

  lemma OneRung(op: BinOp, i: nat)
    requires i < |LADDER| && op in LADDER[i]
    ensures i == Rung(op)
  {
  }

  /** Only concatenation and exponentiation associate to the right. */
  predicate ToTheRight(o1: BinOp, o2: BinOp) {
    (o1 == Concat && o2 == Concat) || (o1 == Pow && o2 == Pow)
  }

  function Chosen(x: int, o1: BinOp, y: int, o2: BinOp, z: int): Expr {
    if Tighter(o2, o1) || ToTheRight(o1, o2) then Bin(o1, Atom(x), Bin(o2, Atom(y), Atom(z)))
    else Bin(o2, Bin(o1, Atom(x), Atom(y)), Atom(z))
  }

  /** Two operators in a row: the tighter one takes the operand between them; of two alike the left one
      does, unless they associate to the right. */
  method ReadTwo(x: int, o1: BinOp, y: int, o2: BinOp, z: int) returns (ok: bool, v: Expr)
    ensures ok && v == if Tighter(o2, o1) || ToTheRight(o1, o2) then Bin(o1, Atom(x), Bin(o2, Atom(y), Atom(z)))
      else Bin(o2, Bin(o1, Atom(x), Atom(y)), Atom(z))
  {
    TwoText(x, o1, y, o2, z);
    var ls := new LexState([TAtom(x), TOp(o1), TAtom(y), TOp(o2), TAtom(z)], 0);
    hide Print, Depth, Chosen;
    ok, v := ls.Expression(Chosen(x, o1, y, o2, z), []);
    assert v == Chosen(x, o1, y, o2, z);
    ChosenMeans(x, o1, y, o2, z);
  }

  lemma ChosenMeans(x: int, o1: BinOp, y: int, o2: BinOp, z: int)
    ensures Chosen(x, o1, y, o2, z) == if Tighter(o2, o1) || ToTheRight(o1, o2) then
        Bin(o1, Atom(x), Bin(o2, Atom(y), Atom(z)))
      else Bin(o2, Bin(o1, Atom(x), Atom(y)), Atom(z))
  {
  }

  lemma AtomText(x: int, limit: nat, next: nat)
    ensures Print(Atom(x), limit, next) == [TAtom(x)] && Depth(Atom(x), limit, next) == 0 && Tree(Atom(x)) == Atom(x)
  {
  }

  lemma PairText(o: BinOp, x: int, y: int, limit: nat, next: nat)
    requires limit < Left(o) && next <= Right(o)
    ensures Print(Bin(o, Atom(x), Atom(y)), limit, next) == [TAtom(x), TOp(o), TAtom(y)]
    ensures Depth(Bin(o, Atom(x), Atom(y)), limit, next) == 1
    ensures Tree(Bin(o, Atom(x), Atom(y))) == Bin(o, Atom(x), Atom(y))
  {
    PrintBin(Bin(o, Atom(x), Atom(y)), limit, next);
    AtomText(x, limit, Left(o));
    AtomText(y, Right(o), next);
  }

  /** The table of the priorities says what the ladder says. */
  lemma LadderLeft(o1: BinOp, o2: BinOp)
    ensures Tighter(o2, o1) || ToTheRight(o1, o2) <==> Right(o1) < Left(o2)
  {
    TighterRung(o2, o1);
    hide Tighter;
  }

  lemma TwoText(x: int, o1: BinOp, y: int, o2: BinOp, z: int)
    ensures var e := Chosen(x, o1, y, o2, z);
      [TAtom(x), TOp(o1), TAtom(y), TOp(o2), TAtom(z)] == Print(e, 0, 0) + [] && Depth(e, 0, 0) <= 2 && Tree(e) == e
  {
    LadderLeft(o1, o2);
    hide Tighter, ToTheRight, Print, Depth, Left, Right;
    if Tighter(o2, o1) || ToTheRight(o1, o2) {
      PrintBin(Bin(o1, Atom(x), Bin(o2, Atom(y), Atom(z))), 0, 0);
      AtomText(x, 0, Left(o1));
      PairText(o2, y, z, Right(o1), 0);
    } else {
      PrintBin(Bin(o2, Bin(o1, Atom(x), Atom(y)), Atom(z)), 0, 0);
      PairText(o1, x, y, 0, Left(o2));
      AtomText(z, Right(o2), 0);
    }
  }

  /** With parentheses the operators do not matter. */
  method ReadGroups(x: int, o1: BinOp, y: int, o2: BinOp, z: int) returns (ok: bool, l: Expr, r: Expr)
    ensures ok && l == Bin(o2, Bin(o1, Atom(x), Atom(y)), Atom(z)) && r == Bin(o1, Atom(x), Bin(o2, Atom(y), Atom(z)))
  {
    GroupTexts(x, o1, y, o2, z);
    var ls := new LexState([TOpen, TAtom(x), TOp(o1), TAtom(y), TClose, TOp(o2), TAtom(z)], 0);
    var rs := new LexState([TAtom(x), TOp(o1), TOpen, TAtom(y), TOp(o2), TAtom(z), TClose], 0);
    hide Print, Depth;
    ok, l := ls.Expression(Bin(o2, Group(Bin(o1, Atom(x), Atom(y))), Atom(z)), []);
    var ok2;
    ok2, r := rs.Expression(Bin(o1, Atom(x), Group(Bin(o2, Atom(y), Atom(z)))), []);
    ok := ok && ok2;
  }

  lemma GroupText(o: BinOp, x: int, y: int, limit: nat, next: nat)
    ensures Print(Group(Bin(o, Atom(x), Atom(y))), limit, next) == [TOpen, TAtom(x), TOp(o), TAtom(y), TClose]
    ensures Depth(Group(Bin(o, Atom(x), Atom(y))), limit, next) == 2
    ensures Tree(Group(Bin(o, Atom(x), Atom(y)))) == Bin(o, Atom(x), Atom(y))
  {
    PairText(o, x, y, 0, 0);
    assert Print(Group(Bin(o, Atom(x), Atom(y))), limit, next)
        == [TOpen] + Print(Bin(o, Atom(x), Atom(y)), 0, 0) + [TClose];
  }

  lemma GroupTexts(x: int, o1: BinOp, y: int, o2: BinOp, z: int)
    ensures var e := Bin(o2, Group(Bin(o1, Atom(x), Atom(y))), Atom(z));
      && [TOpen, TAtom(x), TOp(o1), TAtom(y), TClose, TOp(o2), TAtom(z)] == Print(e, 0, 0) + []
      && Depth(e, 0, 0) <= 3 && Tree(e) == Bin(o2, Bin(o1, Atom(x), Atom(y)), Atom(z))
    ensures var e := Bin(o1, Atom(x), Group(Bin(o2, Atom(y), Atom(z))));
      && [TAtom(x), TOp(o1), TOpen, TAtom(y), TOp(o2), TAtom(z), TClose] == Print(e, 0, 0) + []
      && Depth(e, 0, 0) <= 3 && Tree(e) == Bin(o1, Atom(x), Bin(o2, Atom(y), Atom(z)))
  {
    hide Print, Depth, Left, Right;
    PrintBin(Bin(o2, Group(Bin(o1, Atom(x), Atom(y))), Atom(z)), 0, 0);
    GroupText(o1, x, y, 0, Left(o2));
    AtomText(z, Right(o2), 0);
    PrintBin(Bin(o1, Atom(x), Group(Bin(o2, Atom(y), Atom(z)))), 0, 0);
    AtomText(x, 0, Left(o1));
    GroupText(o2, y, z, Right(o1), 0);
  }

  /** A unary operator before an operand takes it from every operator but exponentiation. */
  method ReadUnary(u: UnOp, x: int, o: BinOp, y: int) returns (ok: bool, v: Expr)
    ensures ok && v == if o == Pow then Un(u, Bin(Pow, Atom(x), Atom(y))) else Bin(o, Un(u, Atom(x)), Atom(y))
  {
    var ls := new LexState([UnToken(u), TAtom(x), TOp(o), TAtom(y)], 0);
    ghost var e := if o == Pow then Un(u, Bin(Pow, Atom(x), Atom(y))) else Bin(o, Un(u, Atom(x)), Atom(y));
    UnaryText(u, x, o, y);
    hide Print, Depth;
    ok, v := ls.Expression(e, []);
  }

  lemma UnaryText(u: UnOp, x: int, o: BinOp, y: int)
    ensures var e := if o == Pow then Un(u, Bin(Pow, Atom(x), Atom(y))) else Bin(o, Un(u, Atom(x)), Atom(y));
      [UnToken(u), TAtom(x), TOp(o), TAtom(y)] == Print(e, 0, 0) + [] && Depth(e, 0, 0) <= 2 && Tree(e) == e
  {
    if o == Pow {
      PairText(o, x, y, UNARY_PRIORITY, 0);
    } else {
      var e := Bin(o, Un(u, Atom(x)), Atom(y));
      PrintBin(e, 0, 0);
      AtomText(x, UNARY_PRIORITY, Left(o));
      assert Tree(e.l) == e.l;
      AtomText(y, Right(o), 0);
      assert Print(e.l, 0, Left(o)) == [UnToken(u)] + Print(Atom(x), UNARY_PRIORITY, Left(o));
    }
  }

  /** Behind a binary operator a unary one starts the right operand, whatever the operators are. */
  method ReadUnaryRight(x: int, o: BinOp, u: UnOp, y: int) returns (ok: bool, v: Expr)
    ensures ok && v == Bin(o, Atom(x), Un(u, Atom(y)))
  {
    var ls := new LexState([TAtom(x), TOp(o), UnToken(u), TAtom(y)], 0);
    ghost var e := Bin(o, Atom(x), Un(u, Atom(y)));
    PrintBin(e, 0, 0);
    AtomText(x, 0, Left(o));
    AtomText(y, UNARY_PRIORITY, 0);
    assert Tree(e) == e by { assert Tree(e.r) == e.r; }
    assert Print(e.r, Right(o), 0) == [UnToken(u)] + Print(Atom(y), UNARY_PRIORITY, 0);
    hide Print;
    ok, v := ls.Expression(e, []);
  }
}
