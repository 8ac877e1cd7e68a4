/** Expressions, their operators' priorities, and how to print them with the fewest parentheses. */
module ExprSyntax {

  datatype BinOp = Add | Sub | Mul | Div | Mod | Pow | Concat | Ne | Eq | Lt | Le | Gt | Ge | And | Or

  datatype UnOp = Not | Neg | Len

  /** Simple expressions are opaque. `Group` is an expression that somebody has put in parentheses. */
  datatype Expr = Atom(id: int) | Un(u: UnOp, e: Expr) | Bin(op: BinOp, l: Expr, r: Expr) | Group(a: Expr)

  /** The tree that an expression stands for. */
  function Tree(e: Expr): Expr {
    match e
    case Atom(_) => e
    case Un(u, a) => Un(u, Tree(a))
    case Bin(op, l, r) => Bin(op, Tree(l), Tree(r))
    case Group(a) => Tree(a)
  }

  /** The minus sign is one token for two operators. */
  datatype Token = TAtom(id: int) | TOp(op: BinOp) | TNot | THash | TOpen | TClose | TOther(n: int)

  const UNARY_PRIORITY: nat := 8
  const MAXCCALLS: nat := 200

  function Left(op: BinOp): (p: nat)
    ensures 1 <= p <= 10 && p != 9
  {
    match op
    case Add => 6 case Sub => 6 case Mul => 7 case Div => 7 case Mod => 7
    case Pow => 10 case Concat => 5
    case Ne => 3 case Eq => 3 case Lt => 3 case Le => 3 case Gt => 3 case Ge => 3
    case And => 2 case Or => 1
  }

  function Right(op: BinOp): (p: nat)
    ensures 1 <= p <= 9 && Left(op) - 1 <= p <= Left(op)
  {
    match op
    case Add => 6 case Sub => 6 case Mul => 7 case Div => 7 case Mod => 7
    case Pow => 9 case Concat => 4
    case Ne => 3 case Eq => 3 case Lt => 3 case Le => 3 case Gt => 3 case Ge => 3
    case And => 2 case Or => 1
  }

  function UnToken(u: UnOp): Token {
    match u
    case Not => TNot
    case Neg => TOp(Sub)
    case Len => THash
  }

  // ----- Printing -----

  /** `e` can stand without parentheses where it is read with `limit` and what follows it is an
      operator of left priority `next`, or none (0). */
  predicate Fits(e: Expr, limit: nat, next: nat) {
    match e
    case Atom(_) => true
    case Un(_, _) => next <= UNARY_PRIORITY
    case Bin(op, _, _) => limit < Left(op) && next <= Right(op)
    case Group(_) => true
  }

  /** Parentheses where the priorities demand them, and around groups. */
  function Print(e: Expr, limit: nat, next: nat): seq<Token>
    decreases e, 1
  {
    if Fits(e, limit, next) then Bare(e, limit, next) else [TOpen] + Bare(e, 0, 0) + [TClose]
  }

  function Bare(e: Expr, limit: nat, next: nat): seq<Token>
    decreases e, 0
  {
    match e
    case Atom(id) => [TAtom(id)]
    case Un(u, a) => [UnToken(u)] + Print(a, UNARY_PRIORITY, next)
    case Bin(op, l, r) => Print(l, limit, Left(op)) + [TOp(op)] + Print(r, Right(op), next)
    case Group(a) => [TOpen] + Print(a, 0, 0) + [TClose]
  }

  function Max(a: nat, b: nat): nat {
    if a < b then b else a
  }

  /** Levels of `subexpr` below the one that reads the printed expression. */
  function Depth(e: Expr, limit: nat, next: nat): nat
    decreases e, 1
  {
    if Fits(e, limit, next) then BareDepth(e, limit, next) else 1 + BareDepth(e, 0, 0)
  }

  function BareDepth(e: Expr, limit: nat, next: nat): nat
    decreases e, 0
  {
    match e
    case Atom(_) => 0
    case Un(_, a) => 1 + Depth(a, UNARY_PRIORITY, next)
    case Bin(op, l, r) => Max(Depth(l, limit, Left(op)), 1 + Depth(r, Right(op), next))
    case Group(a) => 1 + Depth(a, 0, 0)
  }

  // ----- The operands that one call of subexpr reads -----

  datatype Pair = Pair(op: BinOp, r: Expr)

  /** The leftmost operand that one call reads, and the operators and operands behind it. */
  function First(e: Expr, limit: nat, next: nat): Expr {
    if e.Bin? && Fits(e, limit, next) then First(e.l, limit, Left(e.op)) else e
  }

  /** What follows the leftmost operand. */
  function FirstNext(e: Expr, limit: nat, next: nat): nat {
    if e.Bin? && Fits(e, limit, next) then FirstNext(e.l, limit, Left(e.op)) else next
  }

  function Rest(e: Expr, limit: nat, next: nat): seq<Pair> {
    if e.Bin? && Fits(e, limit, next) then Rest(e.l, limit, Left(e.op)) + [Pair(e.op, e.r)] else []
  }

  function Fold(e: Expr, ps: seq<Pair>): Expr
    decreases |ps|
  {
    if ps == [] then e else Bin(ps[|ps| - 1].op, Fold(e, ps[..|ps| - 1]), ps[|ps| - 1].r)
  }

  /** The priority of the operator that follows the first `i` pairs. */
  function NextAt(ps: seq<Pair>, i: nat, next: nat): nat {
    if i < |ps| then Left(ps[i].op) else next
  }

  function PrintRest(ps: seq<Pair>, i: nat, next: nat): seq<Token>
    requires i <= |ps|
    decreases |ps| - i
  {
    if i == |ps| then [] else [TOp(ps[i].op)] + Print(ps[i].r, Right(ps[i].op), NextAt(ps, i + 1, next)) + PrintRest(ps,
        i + 1, next)
  }

  function RestDepth(ps: seq<Pair>, i: nat, next: nat): nat
    requires i <= |ps|
    decreases |ps| - i
  {
    if i == |ps| then 0 else Max(1 + Depth(ps[i].r, Right(ps[i].op), NextAt(ps, i + 1, next)),
                                 RestDepth(ps, i + 1, next))
  }

  /** The operators are read by the same call, and each operand stops before the next operator. */
  ghost predicate Readable(ps: seq<Pair>, limit: nat, next: nat) {
    forall i :: 0 <= i < |ps| ==> Left(ps[i].op) > limit && NextAt(ps, i + 1, next) <= Right(ps[i].op)
  }

  /** One pair more at the end. */
  lemma {:induction false} RestAppend(ps: seq<Pair>, p: Pair, i: nat, next: nat)
    requires i <= |ps|
    ensures PrintRest(ps + [p], i, next) == PrintRest(ps, i, Left(p.op)) + ([TOp(p.op)] + Print(p.r, Right(p.op), next))
    ensures RestDepth(ps + [p], i, next) == Max(RestDepth(ps, i, Left(p.op)), 1 + Depth(p.r, Right(p.op), next))
    decreases |ps| - i
  {
    var qs := ps + [p];
    if i < |ps| {
      RestAppend(ps, p, i + 1, next);
      assert NextAt(qs, i + 1, next) == NextAt(ps, i + 1, Left(p.op));
    } else {
      assert PrintRest(qs, i + 1, next) == [];
    }
  }

  /** The printed `e` is its leftmost operand `f` followed by the pairs `ps`. */
  ghost predicate SpineOf(e: Expr, limit: nat, next: nat, f: Expr, ps: seq<Pair>) {
    && Fold(f, ps) == e && Readable(ps, limit, next)
    && (f.Bin? ==> !Fits(f, limit, NextAt(ps, 0, next)))
    && Print(e, limit, next) == Print(f, limit, NextAt(ps, 0, next)) + PrintRest(ps, 0, next)
    && Depth(e, limit, next) == Max(Depth(f, limit, NextAt(ps, 0, next)), RestDepth(ps, 0, next))
  }

  lemma {:induction false} Spine(e: Expr, limit: nat, next: nat)
    ensures SpineOf(e, limit, next, First(e, limit, next), Rest(e, limit, next))
    decreases e
  {
    if e.Bin? && Fits(e, limit, next) {
      Spine(e.l, limit, Left(e.op));
      SpineStep(e, limit, next, First(e.l, limit, Left(e.op)), Rest(e.l, limit, Left(e.op)));
    } else {
      hide Print, Depth;
    }
  }

  lemma SpineStep(e: Expr, limit: nat, next: nat, f: Expr, qs: seq<Pair>)
    requires e.Bin? && Fits(e, limit, next) && SpineOf(e.l, limit, Left(e.op), f, qs)
    ensures SpineOf(e, limit, next, f, qs + [Pair(e.op, e.r)])
  {
    hide Print, Depth, PrintRest, RestDepth, Readable, Fold, Left, Right;
    var p := Pair(e.op, e.r);
    PrintBin(e, limit, next);
    RestAppend(qs, p, 0, next);
    SpineReadable(qs, p, limit, next);
    FoldAppend(f, qs, p);
    hide Fits;
    Regroup(Print(f, limit, NextAt(qs, 0, Left(e.op))), PrintRest(qs, 0, Left(e.op)), [TOp(e.op)],
            Print(e.r, Right(e.op), next));
  }

  lemma FoldAppend(f: Expr, qs: seq<Pair>, p: Pair)
    ensures Fold(f, qs + [p]) == Bin(p.op, Fold(f, qs), p.r)
  {
    assert (qs + [p])[..|qs|] == qs;
  }

  lemma PrintBin(e: Expr, limit: nat, next: nat)
    requires e.Bin? && Fits(e, limit, next)
    ensures Print(e, limit, next) == Print(e.l, limit, Left(e.op)) + [TOp(e.op)] + Print(e.r, Right(e.op), next)
    ensures Depth(e, limit, next) == Max(Depth(e.l, limit, Left(e.op)), 1 + Depth(e.r, Right(e.op), next))
  {
  }

  lemma Regroup(a: seq<Token>, b: seq<Token>, c: seq<Token>, d: seq<Token>)
    ensures a + b + c + d == a + (b + (c + d))
  {
  }

  lemma SpineReadable(qs: seq<Pair>, p: Pair, limit: nat, next: nat)
    requires Readable(qs, limit, Left(p.op)) && limit < Left(p.op) && next <= Right(p.op)
    ensures Readable(qs + [p], limit, next) && NextAt(qs + [p], 0, next) == NextAt(qs, 0, Left(p.op))
  {
    var ps := qs + [p];
    forall i | 0 <= i < |ps|
      ensures Left(ps[i].op) > limit && NextAt(ps, i + 1, next) <= Right(ps[i].op)
    {
      if i < |qs| { assert NextAt(ps, i + 1, next) == NextAt(qs, i + 1, Left(p.op)); }
    }
  }
}
