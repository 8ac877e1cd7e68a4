/** Boolean expressions: their values, and the way that control takes through their code. */
module CodeRoute {
  import opened CodeVm

  /** Operands of comparisons. */
  datatype Atom = Loc(r: nat) | Const(n: int)

  datatype RelOp = REq | RNe | RLt | RLe | RGt | RGe

  datatype Expr =
    | Local(r: nat)
    | Literal(v: Value)
    | Rel(op: RelOp, x: Atom, y: Atom)
    | Not(e: Expr)
    | And(a: Expr, b: Expr)
    | Or(a: Expr, b: Expr)

  predicate AtomScope(x: Atom, n: nat) {
    x.Loc? ==> x.r < n
  }

  /** Local variables are below `n`; literals are nil, booleans and numbers. */
  predicate Scope(e: Expr, n: nat) {
    match e
    case Local(r) => r < n
    case Literal(v) => !v.Other?
    case Rel(_, x, y) => AtomScope(x, n) && AtomScope(y, n)
    case Not(a) => Scope(a, n)
    case And(a, b) => Scope(a, n) && Scope(b, n)
    case Or(a, b) => Scope(a, n) && Scope(b, n)
  }

  function AtomValue(regs: Regs, x: Atom): Value {
    match x
    case Loc(r) => Reg(regs, r)
    case Const(n) => Num(n)
  }

  predicate Relate(env: Env, op: RelOp, v: Value, w: Value) {
    match op
    case REq => env.eq(v, w)
    case RNe => !env.eq(v, w)
    case RLt => env.lt(v, w)
    case RLe => env.le(v, w)
    case RGt => env.lt(w, v)
    case RGe => env.le(w, v)
  }

  /** The value of an expression in Lua. */
  function Eval(env: Env, regs: Regs, e: Expr): Value {
    match e
    case Local(r) => Reg(regs, r)
    case Literal(v) => v
    case Rel(op, x, y) => Bool(Relate(env, op, AtomValue(regs, x), AtomValue(regs, y)))
    case Not(a) => Bool(!Truthy(Eval(env, regs, a)))
    case And(a, b) => var v := Eval(env, regs, a); if Truthy(v) then Eval(env, regs, b) else v
    case Or(a, b) => var v := Eval(env, regs, a); if Truthy(v) then v else Eval(env, regs, b)
  }

  function Joined(b: bool, x: Expr, y: Expr): Expr {
    if b then And(x, y) else Or(x, y)
  }

  // ----- The way through the code -----

  /** Where the value of an expression is when its code has run to the end. */
  datatype Shape = Register | Compared | Negated | Constant(v: Value)

  function ShapeOf(e: Expr): Shape {
    match e
    case Local(_) => Register
    case Literal(v) => Constant(v)
    case Rel(_, _, _) => Compared
    case Not(a) =>
      (match ShapeOf(a)
       case Constant(v) => Constant(Bool(!Truthy(v)))
       case Compared => Compared
       case _ => Negated)
    case And(_, b) => ShapeOf(b)
    case Or(_, b) => ShapeOf(b)
  }

  /** What a jump has with it: nothing, or the value that its TESTSET has tested. A jump is `caught`
      once the jump behind a constant has taken it over. */
  datatype Token = Nothing | Carries(v: Value, caught: bool)

  /** The code of an expression ends behind it, or by a jump of its true or false list. */
  datatype Route = Arrive(tok: Token) | Leave(b: bool, tok: Token)

  /** A condition goes on, or is left. */
  datatype Way = On(tok: Token) | Out(tok: Token)

  /** Through the code of `e`, entered by a jump that brings `tok`. */
  function Through(env: Env, regs: Regs, e: Expr, tok: Token): Route {
    match e
    case Local(_) => Arrive(tok)
    case Literal(_) => Arrive(tok)
    case Rel(_, _, _) => Arrive(Nothing)
    case Not(a) =>
      (match Through(env, regs, a, tok)
       case Leave(b, _) => Leave(!b, Nothing)
       case Arrive(t) => Arrive(if ShapeOf(a).Constant? then t else Nothing))
    case And(a, b) =>
      (match GoWay(env, regs, true, a, Through(env, regs, a, tok))
       case On(t) => Through(env, regs, b, t)
       case Out(t) => Leave(false, t))
    case Or(a, b) =>
      (match GoWay(env, regs, false, a, Through(env, regs, a, tok))
       case On(t) => Through(env, regs, b, t)
       case Out(t) => Leave(true, t))
  }

  /** Behind the code of `x` control goes on if the value is `b`. Behind a constant there is nothing, a
      jump that takes over the jumps that wait, or the constant is loaded and tested. */
  function GoWay(env: Env, regs: Regs, b: bool, x: Expr, r: Route): Way {
    match r
    case Leave(b', t) => if b' == b then On(t) else Out(t)
    case Arrive(t) =>
      match ShapeOf(x)
      case Constant(v) =>
        if Truthy(v) == b then On(t)
        else if v == Bool(!b) then Out(if t.Carries? then Carries(t.v, true) else Nothing)
        else Out(Carries(v, false))
      case Register => if Truthy(Eval(env, regs, x)) == b then On(Nothing) else Out(Carries(Eval(env, regs, x), false))
      case _ => if Truthy(Eval(env, regs, x)) == b then On(Nothing) else Out(Nothing)
  }

  function ThroughJoined(env: Env, regs: Regs, b: bool, y: Expr, w: Way): Route {
    match w
    case On(t) => Through(env, regs, y, t)
    case Out(t) => Leave(!b, t)
  }

  lemma JoinedThrough(env: Env, regs: Regs, b: bool, x: Expr, y: Expr, tok: Token)
    ensures Through(env, regs, Joined(b, x, y), tok) == ThroughJoined(env, regs, b, y,
                                                                      GoWay(env, regs, b, x, Through(env, regs, x,
                                                                          tok)))
  {
  }

  // ----- Control is always right -----

  predicate SameWay(r: Route, s: Route) {
    (r.Arrive? <==> s.Arrive?) && (r.Leave? ==> r.b == s.b)
  }

  /** What a jump brings does not change where control goes. */
  lemma {:induction false} TokenFree(env: Env, regs: Regs, e: Expr, t: Token, t': Token)
    ensures SameWay(Through(env, regs, e, t), Through(env, regs, e, t'))
    decreases e, 1
  {
    match e
    case Local(_) =>
    case Literal(_) =>
    case Rel(_, _, _) =>
    case Not(a) => TokenFree(env, regs, a, t, t');
    case And(a, b) => TokenFreeJoined(env, regs, true, a, b, t, t');
    case Or(a, b) => TokenFreeJoined(env, regs, false, a, b, t, t');
  }

  lemma {:induction false} TokenFreeJoined(env: Env, regs: Regs, b: bool, x: Expr, y: Expr, t: Token, t': Token)
    ensures SameWay(Through(env, regs, Joined(b, x, y), t), Through(env, regs, Joined(b, x, y), t'))
    decreases Joined(b, x, y), 0
  {
    TokenFree(env, regs, x, t, t');
    JoinedThrough(env, regs, b, x, y, t);
    JoinedThrough(env, regs, b, x, y, t');
    var w := GoWay(env, regs, b, x, Through(env, regs, x, t));
    var w' := GoWay(env, regs, b, x, Through(env, regs, x, t'));
    assert w.On? <==> w'.On?;
    if w.On? { TokenFree(env, regs, y, w.tok, w'.tok); }
  }

  /** What a jump brings is passed on or forgotten. */
  lemma {:induction false} TokenUse(env: Env, regs: Regs, e: Expr, t: Token)
    ensures Through(env, regs, e, t) == Through(env, regs, e, Nothing) || Through(env, regs, e, Nothing).tok == Nothing
    decreases e, 1
  {
    match e
    case Local(_) =>
    case Literal(_) =>
    case Rel(_, _, _) =>
    case Not(a) =>
      TokenUse(env, regs, a, t);
      TokenFree(env, regs, a, t, Nothing);
    case And(a, b) => TokenUseJoined(env, regs, true, a, b, t);
    case Or(a, b) => TokenUseJoined(env, regs, false, a, b, t);
  }

  lemma {:induction false} TokenUseJoined(env: Env, regs: Regs, b: bool, x: Expr, y: Expr, t: Token)
    ensures var e := Joined(b, x, y);
      Through(env, regs, e, t) == Through(env, regs, e, Nothing) || Through(env, regs, e, Nothing).tok == Nothing
    decreases Joined(b, x, y), 0
  {
    JoinedThrough(env, regs, b, x, y, t);
    JoinedThrough(env, regs, b, x, y, Nothing);
    WayUse(env, regs, b, x, t);
    var w := GoWay(env, regs, b, x, Through(env, regs, x, t));
    if w.On? { TokenUse(env, regs, y, w.tok); }
  }

  lemma WayUse(env: Env, regs: Regs, b: bool, x: Expr, t: Token)
    ensures var w, w' := GoWay(env, regs, b, x, Through(env, regs, x, t)), GoWay(env, regs, b, x,
        Through(env, regs, x, Nothing));
      (w.On? <==> w'.On?) && (w == w' || w'.tok == Nothing)
    decreases x, 2
  {
    TokenUse(env, regs, x, t);
    TokenFree(env, regs, x, t, Nothing);
  }

  /** A constant, or a boolean where the code ends in a comparison or in OP_NOT. */
  lemma {:induction false} ShapeValue(env: Env, regs: Regs, e: Expr, tok: Token)
    requires Through(env, regs, e, tok).Arrive?
    ensures ShapeOf(e).Constant? ==> Eval(env, regs, e) == ShapeOf(e).v
    ensures ShapeOf(e).Compared? || ShapeOf(e).Negated? ==> Eval(env, regs, e).Bool?
    decreases e, 1
  {
    match e
    case Local(_) =>
    case Literal(_) =>
    case Rel(_, _, _) =>
    case Not(a) => ShapeValue(env, regs, a, tok);
    case And(a, b) => ShapeJoined(env, regs, true, a, b, tok);
    case Or(a, b) => ShapeJoined(env, regs, false, a, b, tok);
  }

  lemma {:induction false} ShapeJoined(env: Env, regs: Regs, b: bool, x: Expr, y: Expr, tok: Token)
    requires Through(env, regs, Joined(b, x, y), tok).Arrive?
    ensures ShapeOf(y).Constant? ==> Eval(env, regs, Joined(b, x, y)) == ShapeOf(y).v
    ensures ShapeOf(y).Compared? || ShapeOf(y).Negated? ==> Eval(env, regs, Joined(b, x, y)).Bool?
    decreases Joined(b, x, y), 0
  {
    JoinedThrough(env, regs, b, x, y, tok);
    var w := GoWay(env, regs, b, x, Through(env, regs, x, tok));
    WayRight(env, regs, b, x, tok);
    ShapeValue(env, regs, y, w.tok);
  }

  /** A jump of the true list is taken if the value is true, one of the false list if it is false. */
  lemma {:induction false} ControlRight(env: Env, regs: Regs, e: Expr, tok: Token)
    requires Through(env, regs, e, tok).Leave?
    ensures Truthy(Eval(env, regs, e)) == Through(env, regs, e, tok).b
    decreases e, 1
  {
    match e
    case Not(a) => ControlRight(env, regs, a, tok);
    case And(a, b) => ControlJoined(env, regs, true, a, b, tok);
    case Or(a, b) => ControlJoined(env, regs, false, a, b, tok);
  }

  lemma {:induction false} ControlJoined(env: Env, regs: Regs, b: bool, x: Expr, y: Expr, tok: Token)
    requires Through(env, regs, Joined(b, x, y), tok).Leave?
    ensures Truthy(Eval(env, regs, Joined(b, x, y))) == Through(env, regs, Joined(b, x, y), tok).b
    decreases Joined(b, x, y), 0
  {
    JoinedThrough(env, regs, b, x, y, tok);
    var w := GoWay(env, regs, b, x, Through(env, regs, x, tok));
    WayRight(env, regs, b, x, tok);
    if w.On? { ControlRight(env, regs, y, w.tok); }
  }

  /** A condition goes on exactly if the value is `b`. */
  lemma {:induction false} WayRight(env: Env, regs: Regs, b: bool, x: Expr, tok: Token)
    ensures GoWay(env, regs, b, x, Through(env, regs, x, tok)).On? <==> Truthy(Eval(env, regs, x)) == b
    decreases x, 2
  {
    if Through(env, regs, x, tok).Leave? {
      ControlRight(env, regs, x, tok);
    } else {
      ShapeValue(env, regs, x, tok);
    }
  }

  // ----- Which value is delivered -----

  /** The value that the finished code leaves: a jump brings the value along or stands for a boolean. */
  function Delivered(env: Env, regs: Regs, e: Expr): Value {
    match Through(env, regs, e, Nothing)
    case Arrive(_) => Eval(env, regs, e)
    case Leave(b, Nothing) => Bool(b)
    case Leave(_, Carries(v, _)) => v
  }

  /** The code is left by a jump that has been caught with another value than the constant's. */
  predicate Misled(env: Env, regs: Regs, e: Expr) {
    var r := Through(env, regs, e, Nothing);
    r.Leave? && r.tok.Carries? && r.tok.caught && r.tok.v != Bool(r.b)
  }

  /** Only a caught jump brings anything but the value. */
  lemma {:induction false} Honest(env: Env, regs: Regs, e: Expr, tok: Token)
    requires Through(env, regs, e, tok).Leave?
    ensures var r := Through(env, regs, e, tok);
      Eval(env, regs, e) == if r.tok.Carries? && !r.tok.caught then r.tok.v else Bool(r.b)
    decreases e, 1
  {
    match e
    case Not(a) => ControlRight(env, regs, a, tok);
    case And(a, b) => HonestJoined(env, regs, true, a, b, tok);
    case Or(a, b) => HonestJoined(env, regs, false, a, b, tok);
  }

  lemma {:induction false} HonestJoined(env: Env, regs: Regs, b: bool, x: Expr, y: Expr, tok: Token)
    requires Through(env, regs, Joined(b, x, y), tok).Leave?
    ensures var r := Through(env, regs, Joined(b, x, y), tok);
      Eval(env, regs, Joined(b, x, y)) == if r.tok.Carries? && !r.tok.caught then r.tok.v else Bool(r.b)
    decreases Joined(b, x, y), 0
  {
    JoinedThrough(env, regs, b, x, y, tok);
    var s := Through(env, regs, x, tok);
    var w := GoWay(env, regs, b, x, s);
    WayRight(env, regs, b, x, tok);
    if w.On? {
      Honest(env, regs, y, w.tok);
    } else if s.Leave? {
      Honest(env, regs, x, tok);
    } else {
      ShapeValue(env, regs, x, tok);
    }
  }

  /** The delivered value is that of the expression exactly if no caught jump has misled the run. */
  lemma DeliveredRight(env: Env, regs: Regs, e: Expr)
    ensures Delivered(env, regs, e) == Eval(env, regs, e) <==> !Misled(env, regs, e)
  {
    if Through(env, regs, e, Nothing).Leave? { Honest(env, regs, e, Nothing); }
  }

  /** `((1 or false) and true) or false` is true, but 1 is delivered. */
  lemma DeliveredWrong()
    ensures var e := Or(And(Or(Literal(Num(1)), Literal(Bool(false))), Literal(Bool(true))), Literal(Bool(false)));
      forall env, regs :: Eval(env, regs, e) == Bool(true) && Delivered(env, regs, e) == Num(1)
  {
    var one := Or(Literal(Num(1)), Literal(Bool(false)));
    var and := And(one, Literal(Bool(true)));
    forall env, regs
      ensures Eval(env, regs, Or(and, Literal(Bool(false)))) == Bool(true)
      ensures Delivered(env, regs, Or(and, Literal(Bool(false)))) == Num(1)
    {
      assert Eval(env, regs, one) == Num(1) && Eval(env, regs, and) == Bool(true);
      assert Through(env, regs, one, Nothing) == Leave(true, Carries(Num(1), false));
      assert Through(env, regs, and, Nothing) == Arrive(Carries(Num(1), false));
    }
  }

  /** Even the truth value can be lost: `((1 or x) and false) and y` is false, but 1 is delivered. */
  lemma DeliveredTruthy(x: Expr, y: Expr)
    ensures var e := And(And(Or(Literal(Num(1)), x), Literal(Bool(false))), y);
      forall env, regs :: Eval(env, regs, e) == Bool(false) && Delivered(env, regs, e) == Num(1)
  {
    var one := Or(Literal(Num(1)), x);
    var and := And(one, Literal(Bool(false)));
    forall env, regs
      ensures Eval(env, regs, And(and, y)) == Bool(false) && Delivered(env, regs, And(and, y)) == Num(1)
    {
      assert Eval(env, regs, one) == Num(1) && Eval(env, regs, and) == Bool(false);
      assert Through(env, regs, one, Nothing) == Leave(true, Carries(Num(1), false));
      assert Through(env, regs, and, Nothing) == Arrive(Carries(Num(1), false));
      assert ShapeOf(Literal(Bool(false))) == Constant(Bool(false)) && ShapeOf(and) == Constant(Bool(false));
      assert Through(env, regs, And(and, y), Nothing) == Leave(false, Carries(Num(1), true));
    }
  }

  /** No and stands behind a constant false, no or behind a constant true. */
  predicate Unconditional(e: Expr) {
    match e
    case Not(a) => Unconditional(a)
    case And(a, b) => Unconditional(a) && Unconditional(b) && ShapeOf(a) != Constant(Bool(false))
    case Or(a, b) => Unconditional(a) && Unconditional(b) && ShapeOf(a) != Constant(Bool(true))
    case _ => true
  }

  predicate Free(t: Token) {
    t.Carries? ==> !t.caught
  }

  lemma {:induction false} NeverCaught(env: Env, regs: Regs, e: Expr, tok: Token)
    requires Unconditional(e) && Free(tok)
    ensures Free(Through(env, regs, e, tok).tok)
  {
    match e
    case Local(_) =>
    case Literal(_) =>
    case Rel(_, _, _) =>
    case Not(a) => NeverCaught(env, regs, a, tok);
    case And(a, b) =>
      NeverCaught(env, regs, a, tok);
      var w := GoWay(env, regs, true, a, Through(env, regs, a, tok));
      if w.On? { NeverCaught(env, regs, b, w.tok); }
    case Or(a, b) =>
      NeverCaught(env, regs, a, tok);
      var w := GoWay(env, regs, false, a, Through(env, regs, a, tok));
      if w.On? { NeverCaught(env, regs, b, w.tok); }
  }

  /** Such expressions always deliver their value. */
  lemma UnconditionalRight(env: Env, regs: Regs, e: Expr)
    requires Unconditional(e)
    ensures Delivered(env, regs, e) == Eval(env, regs, e)
  {
    NeverCaught(env, regs, e, Nothing);
    DeliveredRight(env, regs, e);
  }

  // ----- Registers -----

  ghost predicate Keeps(regs: Regs, r: Regs, free: nat) {
    |r| == |regs| && forall i :: 0 <= i < free && i < |regs| ==> r[i] == regs[i]
  }

  lemma {:induction false} EvalKeeps(env: Env, regs: Regs, r: Regs, e: Expr, free: nat)
    requires Keeps(regs, r, free) && Scope(e, free)
    ensures Eval(env, r, e) == Eval(env, regs, e)
  {
    match e
    case Local(_) =>
    case Literal(_) =>
    case Rel(_, _, _) =>
    case Not(a) => EvalKeeps(env, regs, r, a, free);
    case And(a, b) => EvalKeeps(env, regs, r, a, free); EvalKeeps(env, regs, r, b, free);
    case Or(a, b) => EvalKeeps(env, regs, r, a, free); EvalKeeps(env, regs, r, b, free);
  }

  lemma {:induction false} ThroughKeeps(env: Env, regs: Regs, r: Regs, e: Expr, free: nat, tok: Token)
    requires Keeps(regs, r, free) && Scope(e, free)
    ensures Through(env, r, e, tok) == Through(env, regs, e, tok)
    decreases e, 1
  {
    match e
    case Local(_) =>
    case Literal(_) =>
    case Rel(_, _, _) =>
    case Not(a) => ThroughKeeps(env, regs, r, a, free, tok);
    case And(a, b) => ThroughKeepsJoined(env, regs, r, true, a, b, free, tok);
    case Or(a, b) => ThroughKeepsJoined(env, regs, r, false, a, b, free, tok);
  }

  lemma {:induction false} ThroughKeepsJoined(env: Env, regs: Regs, r: Regs, b: bool, x: Expr, y: Expr, free: nat,
                                              tok: Token)
    requires Keeps(regs, r, free) && Scope(x, free) && Scope(y, free)
    ensures Through(env, r, Joined(b, x, y), tok) == Through(env, regs, Joined(b, x, y), tok)
    decreases Joined(b, x, y), 0
  {
    JoinedThrough(env, regs, b, x, y, tok);
    JoinedThrough(env, r, b, x, y, tok);
    ThroughKeeps(env, regs, r, x, free, tok);
    EvalKeeps(env, regs, r, x, free);
    var w := GoWay(env, regs, b, x, Through(env, regs, x, tok));
    if w.On? { ThroughKeeps(env, regs, r, y, free, w.tok); }
  }
}
