/** A counting semaphore from a mutex and a condition variable, over all interleavings. */
module SemaphoreProtocol {

  type Tid = nat

  /** Where a thread is. `woken` tells whether it has been waiting in this call of Down. */
  datatype Pc =
    | Idle
    | UpStart | UpLocked | UpRaised | UpSignal
    | DownStart | DownTest(woken: bool) | DownTake(woken: bool) | DownUnlock
    | Waiting | Woken

  datatype Owner = Free | Held(t: Tid)

  datatype State = State(value: int, owner: Owner, pcs: map<Tid, Pc>)

  /** A thread takes its next step; signalling wakes `w` if it waits, or else some thread that does;
      any waiting thread may wake up without a signal. */
  datatype Action = CallUp(t: Tid) | CallDown(t: Tid) | Go(t: Tid, w: Tid) | Spurious(t: Tid)

  function At(s: State, t: Tid): Pc {
    if t in s.pcs then s.pcs[t] else Idle
  }

  function Move(s: State, t: Tid, p: Pc): State {
    s.(pcs := s.pcs[t := p])
  }

  predicate Holding(p: Pc) {
    p.UpLocked? || p.UpRaised? || p.DownTest? || p.DownTake? || p.DownUnlock?
  }

  predicate AnyWaiting(s: State) {
    exists t :: t in s.pcs && s.pcs[t] == Waiting
  }

  /** One atomic step; an action that is not possible changes nothing. */
  function Step(s: State, a: Action): State {
    match a
    case CallUp(t) => if At(s, t) == Idle then Move(s, t, UpStart) else s
    case CallDown(t) => if At(s, t) == Idle then Move(s, t, DownStart) else s
    case Spurious(t) => if At(s, t) == Waiting then Move(s, t, Woken) else s
    case Go(t, w) =>
      match At(s, t)
      case Idle => s
      case Waiting => s
      case UpStart => if s.owner == Free then Move(s, t, UpLocked).(owner := Held(t)) else s
      case UpLocked => Move(s, t, UpRaised).(value := s.value + 1)
      case UpRaised => Move(s, t, UpSignal).(owner := Free)
      case UpSignal => if AnyWaiting(s) then (if At(s, w) == Waiting then Move(Move(s, w, Woken), t, Idle) else s)
        else Move(s, t, Idle)
      case DownStart => if s.owner == Free then Move(s, t, DownTest(false)).(owner := Held(t)) else s
      case DownTest(woken) => if s.value < 1 then Move(s, t, Waiting).(owner := Free) else Move(s, t, DownTake(woken))
      case Woken => if s.owner == Free then Move(s, t, DownTest(true)).(owner := Held(t)) else s
      case DownTake(_) => Move(s, t, DownUnlock).(value := s.value - 1)
      case DownUnlock => Move(s, t, Idle).(owner := Free)
  }

  // ----- What every step keeps -----

  /** Threads that have raised the value and still have to signal. */
  function Owed(s: State): set<Tid> {
    set t | t in s.pcs && (s.pcs[t] == UpRaised || s.pcs[t] == UpSignal)
  }

  /** Threads that have been woken and still have to take the value or wait again. */
  function Running(s: State): set<Tid> {
    set t | t in s.pcs && (s.pcs[t] == Woken || s.pcs[t] == DownTest(true) || s.pcs[t] == DownTake(true))
  }

  /** The mutex is held by exactly the thread that is inside. */
  ghost predicate Exclusive(s: State) {
    forall t :: Holding(At(s, t)) <==> s.owner == Held(t)
  }

  ghost predicate Inv(s: State) {
    && Exclusive(s) && s.value >= 0
    && (forall t :: At(s, t).DownTake? ==> s.value >= 1)
    && (AnyWaiting(s) ==> s.value <= |Owed(s)| + |Running(s)|)
  }

  function Start(start: nat): State {
    State(start, Free, map[])
  }

  lemma InitInv(start: nat)
    ensures Inv(Start(start))
  {
  }

  /** How moving one thread changes the two sets. */
  lemma MoveSets(s: State, t: Tid, p: Pc)
    ensures Owed(Move(s, t, p)) == if p == UpRaised || p == UpSignal then Owed(s) + {t} else Owed(s) - {t}
    ensures Running(Move(s, t, p)) == if p == Woken || p == DownTest(true) || p == DownTake(true) then Running(s) + {t}
      else Running(s) - {t}
    ensures forall u :: At(Move(s, t, p), u) == if u == t then p else At(s, u)
    ensures AnyWaiting(Move(s, t, p)) ==> p == Waiting || AnyWaiting(s)
  {
    if AnyWaiting(Move(s, t, p)) {
      var u :| u in Move(s, t, p).pcs && Move(s, t, p).pcs[u] == Waiting;
      assert u == t || s.pcs[u] == Waiting;
    }
  }

  predicate InOwed(p: Pc) {
    p == UpRaised || p == UpSignal
  }

  predicate InRunning(p: Pc) {
    p == Woken || p == DownTest(true) || p == DownTake(true)
  }

  function Count(b: bool): nat {
    if b then 1 else 0
  }

  /** The sizes of the two sets when one thread moves. */
  lemma MoveSizes(s: State, t: Tid, p: Pc)
    ensures |Owed(Move(s, t, p))| == |Owed(s)| - Count(InOwed(At(s, t))) + Count(InOwed(p))
    ensures |Running(Move(s, t, p))| == |Running(s)| - Count(InRunning(At(s, t))) + Count(InRunning(p))
    ensures forall u :: At(Move(s, t, p), u) == if u == t then p else At(s, u)
    ensures AnyWaiting(Move(s, t, p)) ==> p == Waiting || AnyWaiting(s)
  {
    MoveSets(s, t, p);
    assert t in Owed(s) <==> InOwed(At(s, t));
    assert t in Running(s) <==> InRunning(At(s, t));
    SizeWith(Owed(s), t);
    SizeWith(Running(s), t);
  }

  lemma SizeWith(a: set<Tid>, t: Tid)
    ensures |a + {t}| == |a| + Count(t !in a) && |a - {t}| == |a| - Count(t in a)
  {
    assert t in a ==> a + {t} == a;
    assert t !in a ==> a - {t} == a;
  }

  /** The sets do not depend on the other fields. */
  lemma OnlyPcs(s: State, r: State)
    requires r.pcs == s.pcs
    ensures Owed(r) == Owed(s) && Running(r) == Running(s) && AnyWaiting(r) == AnyWaiting(s)
      && forall u :: At(r, u) == At(s, u)
  {
  }

  /** A thread that is inside is alone there. */
  lemma Alone(s: State, t: Tid)
    requires Inv(s) && Holding(At(s, t))
    ensures forall u :: u != t ==> !Holding(At(s, u))
  {
    hide Owed, Running, AnyWaiting, Holding;
    assert s.owner == Held(t);
  }

  lemma StepKeeps(s: State, a: Action)
    requires Inv(s)
    ensures Inv(Step(s, a))
  {
    if a.Go? {
      GoKeeps(s, a.t, a.w);
    } else {
      MoveSizes(s, a.t, if a.CallUp? then UpStart else if a.CallDown? then DownStart else Woken);
      assert At(s, a.t) == Waiting ==> a.t in s.pcs;
      assert At(s, a.t) == Waiting ==> AnyWaiting(s);
      hide AnyWaiting, Owed, Running;
    }
  }

  lemma GoKeeps(s: State, t: Tid, w: Tid)
    requires Inv(s)
    ensures Inv(Step(s, Go(t, w)))
  {
    var p := At(s, t);
    if p == UpSignal {
      SignalKeeps(s, t, w);
    } else if p != Idle && p != Waiting {
      var q := match p
        case UpStart => UpLocked
        case UpLocked => UpRaised
        case UpRaised => UpSignal
        case DownStart => DownTest(false)
        case DownTest(woken) => if s.value < 1 then Waiting else DownTake(woken)
        case Woken => DownTest(true)
        case DownTake(_) => DownUnlock
        case _ => Idle;
      if Holding(p) { Alone(s, t); }
      MoveSizes(s, t, q);
      OnlyPcs(Move(s, t, q), Step(s, Go(t, w)).(pcs := Move(s, t, q).pcs));
      hide AnyWaiting, Owed, Running;
    }
  }

  lemma SignalKeeps(s: State, t: Tid, w: Tid)
    requires Inv(s) && At(s, t) == UpSignal
    ensures Inv(Step(s, Go(t, w)))
  {
    if AnyWaiting(s) {
      if At(s, w) == Waiting {
        MoveSizes(s, w, Woken);
        MoveSizes(Move(s, w, Woken), t, Idle);
        hide AnyWaiting, Owed, Running;
      }
    } else {
      MoveSizes(s, t, Idle);
      hide AnyWaiting, Owed, Running;
    }
  }

  // ----- Whole runs -----

  /** The state after any interleaving of steps. */
  function After(s: State, actions: seq<Action>): State
    decreases |actions|
  {
    if actions == [] then s else After(Step(s, actions[0]), actions[1..])
  }

  lemma {:induction false} RunKeeps(s: State, actions: seq<Action>)
    requires Inv(s)
    ensures Inv(After(s, actions))
    decreases |actions|
  {
    if actions != [] {
      StepKeeps(s, actions[0]);
      RunKeeps(Step(s, actions[0]), actions[1..]);
    }
  }

  // ----- What the calls amount to -----

  /** The calls of Up in a run: a thread that is already inside a call does not call. */
  function UpCalls(s: State, actions: seq<Action>): nat
    decreases |actions|
  {
    if actions == [] then 0
    else Count(actions[0].CallUp? && At(s, actions[0].t) == Idle) + UpCalls(Step(s, actions[0]), actions[1..])
  }

  function DownCalls(s: State, actions: seq<Action>): nat
    decreases |actions|
  {
    if actions == [] then 0
    else Count(actions[0].CallDown? && At(s, actions[0].t) == Idle) + DownCalls(Step(s, actions[0]), actions[1..])
  }

  predicate ToRaise(p: Pc) {
    p == UpStart || p == UpLocked
  }

  predicate ToTake(p: Pc) {
    p == DownStart || p.DownTest? || p.DownTake? || p == Waiting || p == Woken
  }

  /** Threads in Up that have not raised the value yet. */
  function Raising(s: State): set<Tid> {
    set t | t in s.pcs && ToRaise(s.pcs[t])
  }

  /** Threads in Down that have not taken from the value yet. */
  function Taking(s: State): set<Tid> {
    set t | t in s.pcs && ToTake(s.pcs[t])
  }

  lemma MoveRaising(s: State, t: Tid, p: Pc)
    ensures |Raising(Move(s, t, p))| == |Raising(s)| - Count(ToRaise(At(s, t))) + Count(ToRaise(p))
  {
    assert Raising(Move(s, t, p)) == if ToRaise(p) then Raising(s) + {t} else Raising(s) - {t};
    assert t in Raising(s) <==> ToRaise(At(s, t));
    hide Raising, ToRaise;
    SizeWith(Raising(s), t);
  }

  lemma MoveTaking(s: State, t: Tid, p: Pc)
    ensures |Taking(Move(s, t, p))| == |Taking(s)| - Count(ToTake(At(s, t))) + Count(ToTake(p))
  {
    assert Taking(Move(s, t, p)) == if ToTake(p) then Taking(s) + {t} else Taking(s) - {t};
    assert t in Taking(s) <==> ToTake(At(s, t));
    hide Taking, ToTake;
    SizeWith(Taking(s), t);
  }

  /** What the value will be when every call that is under way has done its part. */
  function Due(s: State): int {
    s.value + |Raising(s)| - |Taking(s)|
  }

  lemma DueMove(s: State, t: Tid, p: Pc, r: State)
    requires r.pcs == Move(s, t, p).pcs
    ensures Due(r) - r.value == Due(s) - s.value - Count(ToRaise(At(s, t))) + Count(ToRaise(p))
      + Count(ToTake(At(s, t))) - Count(ToTake(p))
  {
    MoveRaising(s, t, p);
    MoveTaking(s, t, p);
    assert Raising(r) == Raising(Move(s, t, p)) && Taking(r) == Taking(Move(s, t, p));
  }

  /** Only a call changes it. */
  lemma DueStep(s: State, a: Action)
    ensures Due(Step(s, a))
      == Due(s) + Count(a.CallUp? && At(s, a.t) == Idle) - Count(a.CallDown? && At(s, a.t) == Idle)
  {
    var r := Step(s, a);
    hide Due;
    if a.Go? && At(s, a.t) == UpSignal && AnyWaiting(s) {
      if At(s, a.w) == Waiting {
        DueMove(s, a.w, Woken, Move(s, a.w, Woken));
        DueMove(Move(s, a.w, Woken), a.t, Idle, r);
      }
    } else if r != s {
      hide AnyWaiting;
      DueMove(s, a.t, At(r, a.t), r);
    }
  }

  lemma {:induction false} DueRun(s: State, actions: seq<Action>)
    ensures Due(After(s, actions)) == Due(s) + UpCalls(s, actions) - DownCalls(s, actions)
    decreases |actions|
  {
    hide Due;
    if actions != [] {
      DueStep(s, actions[0]);
      DueRun(Step(s, actions[0]), actions[1..]);
    }
  }

  /** In every run the value is what the calls of Up have put in minus what those of Down have taken, but for
      calls that have not come to it yet; when no thread is inside a call it is exactly that. */
  lemma ValueOfCalls(start: nat, actions: seq<Action>)
    ensures var s := After(Start(start), actions);
      && s.value + |Raising(s)| - |Taking(s)|
        == start + UpCalls(Start(start), actions) - DownCalls(Start(start), actions)
      && ((forall t :: At(s, t) == Idle) ==>
        s.value == start + UpCalls(Start(start), actions) - DownCalls(Start(start), actions))
  {
    var s := After(Start(start), actions);
    DueRun(Start(start), actions);
    assert Raising(Start(start)) == {} && Taking(Start(start)) == {};
    if forall t :: At(s, t) == Idle {
      assert forall t :: t in s.pcs ==> At(s, t) == s.pcs[t];
      assert Raising(s) == {} && Taking(s) == {};
    }
  }

  // ----- Calls come to their end -----

  /** Thread `t` takes `n` steps; its signal goes to `w`. */
  function Steps(t: Tid, w: Tid, n: nat): seq<Action> {
    seq(n, _ => Go(t, w))
  }

  lemma {:induction false} StepsOne(s: State, t: Tid, w: Tid, n: nat)
    requires n > 0
    ensures After(s, Steps(t, w, n)) == After(Step(s, Go(t, w)), Steps(t, w, n - 1))
  {
    assert Steps(t, w, n)[1..] == Steps(t, w, n - 1);
  }

  /** Up, alone with the mutex free: it raises the value, wakes `w` if that waits, and returns. */
  lemma UpReturns(s: State, t: Tid, w: Tid)
    requires At(s, t) == UpStart && s.owner == Free && (AnyWaiting(s) ==> At(s, w) == Waiting)
    ensures var r := After(s, Steps(t, w, 4));
      && r.value == s.value + 1 && r.owner == Free && At(r, t) == Idle
      && forall u :: u != t ==> At(r, u) == if u == w && AnyWaiting(s) then Woken else At(s, u)
  {
    var s1 := Step(s, Go(t, w));
    var s2 := Step(s1, Go(t, w));
    var s3 := Step(s2, Go(t, w));
    StepsOne(s, t, w, 4);
    StepsOne(s1, t, w, 3);
    StepsOne(s2, t, w, 2);
    StepsOne(s3, t, w, 1);
    SameWaiting(s, s3, t);
  }

  lemma SameWaiting(s: State, r: State, t: Tid)
    requires At(s, t) != Waiting && At(r, t) != Waiting && forall u :: u != t ==> At(r, u) == At(s, u)
    ensures AnyWaiting(r) <==> AnyWaiting(s)
  {
    if AnyWaiting(s) {
      var u :| u in s.pcs && s.pcs[u] == Waiting;
      assert At(s, u) == Waiting && At(r, u) == Waiting;
    }
    if AnyWaiting(r) {
      var u :| u in r.pcs && r.pcs[u] == Waiting;
      assert At(r, u) == Waiting && At(s, u) == Waiting;
    }
  }

  /** Down, alone with the mutex free and at a positive value: it takes one and returns, whether it has just
      been called or just been woken. */
  lemma DownReturns(s: State, t: Tid, w: Tid)
    requires (At(s, t) == DownStart || At(s, t) == Woken) && s.owner == Free && s.value >= 1
    ensures var r := After(s, Steps(t, w, 4));
      r.value == s.value - 1 && r.owner == Free && At(r, t) == Idle && forall u :: u != t ==> At(r, u) == At(s, u)
  {
    var s1 := Step(s, Go(t, w));
    var s2 := Step(s1, Go(t, w));
    var s3 := Step(s2, Go(t, w));
    StepsOne(s, t, w, 4);
    StepsOne(s1, t, w, 3);
    StepsOne(s2, t, w, 2);
    StepsOne(s3, t, w, 1);
  }

  /** At value 0 it waits and lets the mutex go. */
  lemma DownWaits(s: State, t: Tid, w: Tid)
    requires (At(s, t) == DownStart || At(s, t) == Woken) && s.owner == Free && s.value < 1
    ensures var r := After(s, Steps(t, w, 2));
      r.value == s.value && r.owner == Free && At(r, t) == Waiting && forall u :: u != t ==> At(r, u) == At(s, u)
  {
    var s1 := Step(s, Go(t, w));
    StepsOne(s, t, w, 2);
    StepsOne(s1, t, w, 1);
  }

  /** A whole Up of another thread releases a thread that waits. */
  lemma UpReleases(s: State, t: Tid, u: Tid)
    requires At(s, t) == Waiting && At(s, u) == Idle && s.owner == Free && s.value >= 0
    ensures var r := After(After(Step(s, CallUp(u)), Steps(u, t, 4)), Steps(t, t, 4));
      r.value == s.value && At(r, t) == Idle && At(r, u) == Idle
  {
    var s1 := Step(s, CallUp(u));
    assert At(s1, t) == Waiting && t in s1.pcs;
    UpReturns(s1, u, t);
    DownReturns(After(s1, Steps(u, t, 4)), t, t);
  }

  /** In every run the value is never negative, at most one thread is inside, and no wake-up is lost. */
  lemma NoLostWakeup(start: nat, actions: seq<Action>)
    ensures var s := After(Start(start), actions);
      && s.value >= 0
      && (forall t, u :: Holding(At(s, t)) && Holding(At(s, u)) ==> t == u)
      && (AnyWaiting(s) && Owed(s) == {} && Running(s) == {} ==> s.value == 0)
  {
    InitInv(start);
    RunKeeps(Start(start), actions);
  }

  /** A thread that holds the mutex can go on. */
  lemma HolderMoves(s: State, t: Tid, w: Tid)
    requires Holding(At(s, t))
    ensures Step(s, Go(t, w)) != s
  {
    assert At(Step(s, Go(t, w)), t) != At(s, t);
  }

  /** While a thread waits although the value is positive, some thread can take a step. */
  lemma NoDeadlock(s: State) returns (t: Tid, w: Tid)
    requires Inv(s) && s.value >= 1 && AnyWaiting(s)
    ensures Step(s, Go(t, w)) != s
  {
    w :| w in s.pcs && s.pcs[w] == Waiting;
    t := Someone(s);
    if At(s, t) == UpSignal {
      assert At(Step(s, Go(t, w)), t) == Idle;
    } else if Holding(At(s, t)) {
      HolderMoves(s, t, w);
    } else if s.owner == Free {
      assert At(Step(s, Go(t, w)), t) == DownTest(true);
    } else {
      t := s.owner.t;
      HolderMoves(s, t, w);
    }
  }

  lemma Someone(s: State) returns (t: Tid)
    requires |Owed(s)| + |Running(s)| >= 1
    ensures t in Owed(s) || t in Running(s)
  {
    if Owed(s) != {} {
      t :| t in Owed(s);
    } else {
      assert |Owed(s)| == 0;
      t :| t in Running(s);
    }
  }

  // ----- The object -----

  class Semaphore {
    var value: int
    var owner: Owner
    var pcs: map<Tid, Pc>

    function View(): State
      reads this
    {
      State(value, owner, pcs)
    }

    constructor (start: nat)
      ensures View() == Start(start)
    {
      value, owner, pcs := start, Free, map[];
    }

    function Where(t: Tid): Pc
      reads this
    {
      if t in pcs then pcs[t] else Idle
    }

    /** The next step of a thread inside `Up`. */
    method StepUp(t: Tid, w: Tid)
      requires Where(t).UpStart? || Where(t).UpLocked? || Where(t).UpRaised? || Where(t).UpSignal?
      modifies this
      ensures View() == Step(old(View()), Go(t, w))
    {
      match Where(t)
      case UpStart =>
        if owner == Free {
          owner := Held(t);
          pcs := pcs[t := UpLocked];
        }
      case UpLocked =>
        value := value + 1;
        pcs := pcs[t := UpRaised];
      case UpRaised =>
        owner := Free;
        pcs := pcs[t := UpSignal];
      case UpSignal =>
        if exists u :: u in pcs && pcs[u] == Waiting {
          if Where(w) == Waiting {
            pcs := pcs[w := Woken];
            pcs := pcs[t := Idle];
          }
        } else {
          pcs := pcs[t := Idle];
        }
    }

    /** The next step of a thread inside `Down`. */
    method StepDown(t: Tid, ghost w: Tid)
      requires Where(t).DownStart? || Where(t).DownTest? || Where(t).DownTake? || Where(t).DownUnlock?
        || Where(t).Woken?
      modifies this
      ensures View() == Step(old(View()), Go(t, w))
    {
      match Where(t)
      case DownStart =>
        if owner == Free {
          owner := Held(t);
          pcs := pcs[t := DownTest(false)];
        }
      case DownTest(woken) =>
        if value < 1 {
          owner := Free;
          pcs := pcs[t := Waiting];
        } else {
          pcs := pcs[t := DownTake(woken)];
        }
      case Woken =>
        if owner == Free {
          owner := Held(t);
          pcs := pcs[t := DownTest(true)];
        }
      case DownTake(_) =>
        value := value - 1;
        pcs := pcs[t := DownUnlock];
      case DownUnlock =>
        owner := Free;
        pcs := pcs[t := Idle];
    }

    method Perform(a: Action)
      modifies this
      ensures View() == Step(old(View()), a)
    {
      match a
      case CallUp(t) =>
        if Where(t) == Idle { pcs := pcs[t := UpStart]; }
      case CallDown(t) =>
        if Where(t) == Idle { pcs := pcs[t := DownStart]; }
      case Spurious(t) =>
        if Where(t) == Waiting { pcs := pcs[t := Woken]; }
      case Go(t, w) =>
        var p := Where(t);
        if p.UpStart? || p.UpLocked? || p.UpRaised? || p.UpSignal? {
          StepUp(t, w);
        } else if p != Idle && p != Waiting {
          StepDown(t, w);
        }
    }

    /** Any schedule. */
    method Run(actions: seq<Action>)
      requires Inv(View())
      modifies this
      ensures View() == After(old(View()), actions) && Inv(View())
    {
      ghost var s := View();
      RunKeeps(s, actions);
      hide Inv;
      var i := 0;
      assert actions[0..] == actions;
      while i < |actions|
        invariant 0 <= i <= |actions| && After(View(), actions[i..]) == After(s, actions)
      {
        assert actions[i..][0] == actions[i] && actions[i..][1..] == actions[i + 1..];
        Perform(actions[i]);
        i := i + 1;
      }
    }
  }
}
