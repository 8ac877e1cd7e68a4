/** The parentheses that Print writes around an operand of the outermost operator of an expression are needed:
    without them another tree is read. */
module ExprMinimal {
  import opened ExprSyntax

  lemma Assoc(a: seq<Token>, b: seq<Token>, c: seq<Token>)
    ensures a + b + c == a + (b + c)
  {
  }

  /** Whether a child is put in parentheses depends on its parent alone. */
  lemma ChildFits(e: Expr, limit: nat, next: nat)
    requires Fits(e, limit, next) && next != 9
    ensures e.Bin? ==> (Fits(e.l, limit, Left(e.op)) <==> Fits(e.l, 0, Left(e.op)))
    ensures e.Bin? ==> (Fits(e.r, Right(e.op), next) <==> Fits(e.r, Right(e.op), 0))
    ensures e.Un? ==> (Fits(e.e, UNARY_PRIORITY, next) <==> Fits(e.e, UNARY_PRIORITY, 0))
  {
    if e.Bin? {
      LeftFits(e.l, limit, e.op);
      RightFits(e.r, e.op, next);
    }
  }

  lemma LeftFits(l: Expr, limit: nat, op: BinOp)
    requires limit < Left(op)
    ensures Fits(l, limit, Left(op)) <==> Fits(l, 0, Left(op))
  {
    if l.Bin? { assert Right(l.op) <= Left(l.op); }
  }

  lemma RightFits(r: Expr, op: BinOp, next: nat)
    requires next <= Right(op) && next != 9
    ensures Fits(r, Right(op), next) <==> Fits(r, Right(op), 0)
  {
    if r.Bin? && Right(op) < Left(r.op) { assert Left(r.op) - 1 <= Right(r.op); }
  }

  /** Without its own parentheses an expression is written the same wherever it fits. */
  lemma {:induction false} BareSame(e: Expr, limit: nat, next: nat)
    requires Fits(e, limit, next) && next != 9
    ensures Bare(e, limit, next) == Bare(e, 0, 0)
    decreases e, 0
  {
    ChildFits(e, limit, next);
    hide Left, Right;
    match e
    case Atom(_) =>
    case Un(_, a) => PrintSame(a, UNARY_PRIORITY, next, UNARY_PRIORITY, 0);
    case Bin(op, l, r) =>
      PrintSame(l, limit, Left(op), 0, Left(op));
      PrintSame(r, Right(op), next, Right(op), 0);
    case Group(_) =>
  }

  lemma {:induction false} PrintSame(e: Expr, limit: nat, next: nat, limit': nat, next': nat)
    requires (Fits(e, limit, next) <==> Fits(e, limit', next')) && next != 9 && next' != 9
    ensures Print(e, limit, next) == Print(e, limit', next')
    decreases e, 1
  {
    if Fits(e, limit, next) {
      BareSame(e, limit, next);
      BareSame(e, limit', next');
    }
  }

  function Size(e: Expr): nat {
    match e
    case Atom(_) => 1
    case Un(_, a) => 1 + Size(a)
    case Bin(_, l, r) => 1 + Size(l) + Size(r)
    case Group(a) => Size(a)
  }

  /** No operand is the whole expression. */
  lemma Bigger(e: Expr)
    requires e.Bin?
    ensures Tree(e.l) != Tree(e) && Tree(e.r) != Tree(e)
  {
    TreeSize(e.l);
    TreeSize(e.r);
    TreeSize(e);
  }

  lemma {:induction false} TreeSize(e: Expr)
    ensures Size(Tree(e)) == Size(e)
  {
    match e
    case Atom(_) =>
    case Un(_, a) => TreeSize(a);
    case Bin(_, l, r) =>
      TreeSize(l);
      TreeSize(r);
    case Group(a) => TreeSize(a);
  }

  // ----- A left operand without its parentheses -----

  /** What is read when `o x` is written behind `e`. */
  function Attach(e: Expr, limit: nat, o: BinOp, x: Expr): Expr {
    if Fits(e, limit, Left(o)) || !Fits(e, limit, 0) then Bin(o, e, x)
    else
      match e
      case Atom(_) => Bin(o, e, x)
      case Un(u, a) => Un(u, Attach(a, UNARY_PRIORITY, o, x))
      case Bin(op, l, r) => Bin(op, l, Attach(r, Right(op), o, x))
      case Group(_) => Bin(o, e, x)
  }

  lemma {:induction false} AttachPrint(e: Expr, limit: nat, o: BinOp, x: Expr)
    requires limit < Left(o)
    ensures Print(e, limit, 0) + [TOp(o)] + Print(x, Right(o), 0) == Print(Attach(e, limit, o, x), limit, 0)
    decreases e
  {
    if Fits(e, limit, Left(o)) || !Fits(e, limit, 0) {
      PrintSame(e, limit, 0, limit, Left(o));
    } else {
      AttachInside(e, limit, o, x);
    }
  }

  lemma {:induction false} AttachInside(e: Expr, limit: nat, o: BinOp, x: Expr)
    requires limit < Left(o) && Fits(e, limit, 0) && !Fits(e, limit, Left(o))
    ensures Print(e, limit, 0) + [TOp(o)] + Print(x, Right(o), 0) == Print(Attach(e, limit, o, x), limit, 0)
    decreases e, 0
  {
    match e
    case Un(u, a) =>
      AttachPrint(a, UNARY_PRIORITY, o, x);
      hide Left, Right;
      assert Print(e, limit, 0) == [UnToken(u)] + Print(a, UNARY_PRIORITY, 0);
      assert Print(Attach(e, limit, o, x), limit, 0) == [UnToken(u)] + Print(Attach(a, UNARY_PRIORITY, o, x),
          UNARY_PRIORITY, 0);
      hide Print, Attach;
      Assoc([UnToken(u)], Print(a, UNARY_PRIORITY, 0), [TOp(o)]);
      Assoc([UnToken(u)], Print(a, UNARY_PRIORITY, 0) + [TOp(o)], Print(x, Right(o), 0));
    case Bin(op, l, r) =>
      AttachPrint(r, Right(op), o, x);
      PrintBin(e, limit, 0);
      PrintBin(Attach(e, limit, o, x), limit, 0);
      hide Left, Right;
      assert Attach(e, limit, o, x) == Bin(op, l, Attach(r, Right(op), o, x));
      hide Print, Attach;
      Assoc(Print(l, limit, Left(op)) + [TOp(op)], Print(r, Right(op), 0), [TOp(o)]);
      Assoc(Print(l, limit, Left(op)) + [TOp(op)], Print(r, Right(op), 0) + [TOp(o)], Print(x, Right(o), 0));
  }

  /** Parentheses around a left operand are demanded: without them another tree is read. */
  lemma LeftNeeded(o: BinOp, e: Expr, x: Expr) returns (t: Expr)
    requires !Fits(e, 0, Left(o))
    ensures Tree(t) != Tree(Bin(o, e, x)) && Print(e, 0, 0) + [TOp(o)] + Print(x, Right(o), 0) == Print(t, 0, 0)
  {
    t := Attach(e, 0, o, x);
    AttachPrint(e, 0, o, x);
    if e.Bin? { Bigger(e); }
  }

  // ----- A right operand without its parentheses -----

  /** What is read when `l op` is written before `e`. */
  function Graft(l: Expr, op: BinOp, e: Expr, next: nat): Expr {
    if e.Bin? && Fits(e, 0, next) && Left(e.op) <= Right(op) then Bin(e.op, Graft(l, op, e.l, Left(e.op)), e.r)
      else Bin(op, l, e)
  }

  lemma {:induction false} GraftPrint(l: Expr, op: BinOp, e: Expr, next: nat)
    requires next <= Right(op) && next != 9
    ensures Print(l, 0, Left(op)) + [TOp(op)] + Print(e, 0, next) == Print(Graft(l, op, e, next), 0, next)
    decreases e
  {
    if e.Bin? && Fits(e, 0, next) && Left(e.op) <= Right(op) {
      GraftPrint(l, op, e.l, Left(e.op));
      PrintBin(e, 0, next);
      PrintBin(Graft(l, op, e, next), 0, next);
      hide Left, Right;
      assert Graft(l, op, e, next) == Bin(e.op, Graft(l, op, e.l, Left(e.op)), e.r);
      hide Print, Graft;
      Assoc(Print(l, 0, Left(op)) + [TOp(op)], Print(e.l, 0, Left(e.op)), [TOp(e.op)]);
      Assoc(Print(l, 0, Left(op)) + [TOp(op)], Print(e.l, 0, Left(e.op)) + [TOp(e.op)], Print(e.r, Right(e.op), next));
    } else {
      PrintSame(e, 0, next, Right(op), next);
      PrintBin(Bin(op, l, e), 0, next);
    }
  }

  lemma RightNeeded(op: BinOp, l: Expr, e: Expr) returns (t: Expr)
    requires !Fits(e, Right(op), 0)
    ensures Tree(t) != Tree(Bin(op, l, e)) && Print(l, 0, Left(op)) + [TOp(op)] + Print(e, 0, 0) == Print(t, 0, 0)
  {
    t := Graft(l, op, e, 0);
    GraftPrint(l, op, e, 0);
    Bigger(e);
  }

  // ----- The operand of a unary operator without its parentheses -----

  function GraftUnary(u: UnOp, e: Expr, next: nat): Expr {
    if e.Bin? && Fits(e, 0, next) && Left(e.op) <= UNARY_PRIORITY then Bin(e.op, GraftUnary(u, e.l, Left(e.op)), e.r)
      else Un(u, e)
  }

  lemma {:induction false} GraftUnaryPrint(u: UnOp, e: Expr, next: nat)
    requires next <= UNARY_PRIORITY
    ensures [UnToken(u)] + Print(e, 0, next) == Print(GraftUnary(u, e, next), 0, next)
    decreases e
  {
    if e.Bin? && Fits(e, 0, next) && Left(e.op) <= UNARY_PRIORITY {
      GraftUnaryPrint(u, e.l, Left(e.op));
      PrintBin(e, 0, next);
      PrintBin(GraftUnary(u, e, next), 0, next);
      hide Left, Right;
      assert GraftUnary(u, e, next) == Bin(e.op, GraftUnary(u, e.l, Left(e.op)), e.r);
      hide Print, GraftUnary;
      Assoc([UnToken(u)], Print(e.l, 0, Left(e.op)), [TOp(e.op)]);
      Assoc([UnToken(u)], Print(e.l, 0, Left(e.op)) + [TOp(e.op)], Print(e.r, Right(e.op), next));
    } else {
      PrintSame(e, 0, next, UNARY_PRIORITY, next);
    }
  }

  lemma UnaryNeeded(u: UnOp, e: Expr) returns (t: Expr)
    requires !Fits(e, UNARY_PRIORITY, 0)
    ensures Tree(t) != Tree(Un(u, e)) && [UnToken(u)] + Print(e, 0, 0) == Print(t, 0, 0)
  {
    t := GraftUnary(u, e, 0);
    GraftUnaryPrint(u, e, 0);
  }
}
