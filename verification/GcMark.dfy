/** What marking does to a collector state, as a relation that composes, and what
    it keeps. `reallymarkobject` and every traversal are proved to be such steps. */
module GcMark {
  import opened GcState

  ghost predicate AllMarked(h: Heap, col: map<Id, Colour>, x: Id)
    requires x in h
  {
    forall y :: Points(h, x, y) ==> y in h && y in col && !col[y].White?
  }

  /** The state in which `reallymarkobject` leaves an object that was white. */
  ghost predicate Settled(h: Heap, col: map<Id, Colour>, gray: seq<Id>, x: Id)
    requires x in col
  {
    && x in h
    && match h[x]
       case Str(_) => col[x] == Gray
       case Udata(_, _) => col[x] == Black && AllMarked(h, col, x)
       case Upval(Open(_, _)) => col[x] == Gray && AllMarked(h, col, x)
       case Upval(Closed(_)) => col[x] == Black && AllMarked(h, col, x)
       case _ => col[x] == Gray && x in gray
  }

  /** Objects pushed on the gray list are distinct containers that were white. */
  ghost predicate GrayGrew(s: State, t: State) {
    var k := |t.gray| - |s.gray|;
    && k >= 0
    && t.gray[k..] == s.gray
    && NoDup(t.gray[..k])
    && forall i :: 0 <= i < k ==>
         && t.gray[i] in s.col && s.col[t.gray[i]].White?
         && t.gray[i] in t.col && t.col[t.gray[i]] == Gray
         && t.gray[i] in s.heap && Container(s.heap[t.gray[i]])
  }

  /** `t` is `s` after marking some white objects. */
  ghost predicate MarkStep(s: State, t: State) {
    && t == s.(col := t.col, gray := t.gray)
    && t.col.Keys == s.col.Keys
    && (forall x :: x in s.col && !s.col[x].White? ==> t.col[x] == s.col[x])
    && (forall x :: x in s.col && s.col[x].White? && t.col[x] != s.col[x] ==> Settled(t.heap, t.col, t.gray, x))
    && GrayGrew(s, t)
  }

  lemma MarkStepRefl(s: State)
    ensures MarkStep(s, s)
  {
    assert s.gray[0..] == s.gray;
  }

  lemma Prefixes(a: seq<Id>, b: seq<Id>, c: seq<Id>)
    requires |a| <= |b| <= |c| && b[|b| - |a|..] == a && c[|c| - |b|..] == b
    ensures c[|c| - |a|..] == a && (forall i :: |c| - |b| <= i < |c| ==> c[i] == b[i - (|c| - |b|)])
      && forall x :: x in b ==> x in c
  {
    forall i | |c| - |b| <= i < |c|
      ensures c[i] == b[i - (|c| - |b|)]
    {
      assert c[|c| - |b|..][i - (|c| - |b|)] == c[i];
    }
  }

  lemma DistinctParts(b: seq<Id>, c: seq<Id>, k1: nat, k2: nat, col: map<Id, Colour>)
    requires k1 <= |b| && k1 + k2 <= |c| && NoDup(b[..k1]) && NoDup(c[..k2])
    requires forall i :: 0 <= i < k1 + k2 ==> c[i] in col && if i < k2 then col[c[i]].White? else col[c[i]] == Gray
    requires forall i :: k2 <= i < k1 + k2 ==> c[i] == b[i - k2]
    ensures NoDup(c[..k1 + k2])
  {
    forall i, j | 0 <= i < j < k1 + k2
      ensures c[i] != c[j]
    {
      if j < k2 {
        assert c[..k2][i] != c[..k2][j];
      } else if i >= k2 {
        assert b[..k1][i - k2] != b[..k1][j - k2];
      }
    }
  }

  lemma GrayGrewTrans(s: State, m: State, t: State)
    requires MarkStep(s, m) && MarkStep(m, t)
    ensures GrayGrew(s, t)
    ensures forall x :: x in m.gray ==> x in t.gray
  {
    hide Settled, NoDup;
    var k1, k2 := |m.gray| - |s.gray|, |t.gray| - |m.gray|;
    var k := k1 + k2;
    Prefixes(s.gray, m.gray, t.gray);
    forall i | 0 <= i < k
      ensures t.gray[i] in s.col && s.col[t.gray[i]].White?
      ensures t.gray[i] in t.col && t.col[t.gray[i]] == Gray
      ensures t.gray[i] in s.heap && Container(s.heap[t.gray[i]])
      ensures t.gray[i] in m.col && (if i < k2 then m.col[t.gray[i]].White? else m.col[t.gray[i]] == Gray)
    {
    }
    hide MarkStep;
    DistinctParts(m.gray, t.gray, k1, k2, m.col);
  }

  lemma SettledStays(m: State, t: State, x: Id)
    requires MarkStep(m, t) && x in m.col && Settled(m.heap, m.col, m.gray, x)
    requires forall z :: z in m.gray ==> z in t.gray
    ensures x in t.col && Settled(t.heap, t.col, t.gray, x)
  {
    if m.heap[x].Udata? || m.heap[x].Upval? {
      assert AllMarked(t.heap, t.col, x);
    }
  }

  lemma MarkStepTrans(s: State, m: State, t: State)
    requires MarkStep(s, m) && MarkStep(m, t)
    ensures MarkStep(s, t)
  {
    GrayGrewTrans(s, m, t);
    forall x | x in s.col && s.col[x].White? && t.col[x] != s.col[x]
      ensures Settled(t.heap, t.col, t.gray, x)
    {
      if m.col[x] != s.col[x] {
        SettledStays(m, t, x);
      }
    }
  }

  lemma MarkedStays(s: State, t: State, x: Id)
    requires MarkStep(s, t) && Marked(s, x)
    ensures Marked(t, x)
  {
  }

  /** Marking leaves everything but colours and the gray list. */
  lemma MarkFrame(s1: State, t: State)
    requires MarkStep(s1, t)
    ensures t == s1.(col := t.col, gray := t.gray) && forall z :: Marked(s1, z) ==> Marked(t, z)
  {
    forall z | Marked(s1, z)
      ensures Marked(t, z)
    {
      MarkedStays(s1, t, z);
    }
  }

  /** Changing the colour of one marked object on both sides keeps a step a step. */
  lemma Recolour(s: State, t: State, o: Id, c: Colour)
    requires MarkStep(s, t) && Marked(s, o) && !c.White?
    ensures MarkStep(s.(col := s.col[o := c]), t.(col := t.col[o := c]))
  {
    var s', t' := s.(col := s.col[o := c]), t.(col := t.col[o := c]);
    forall x | x in s'.col && s'.col[x].White? && t'.col[x] != s'.col[x]
      ensures Settled(t'.heap, t'.col, t'.gray, x)
    {
      assert Settled(t.heap, t.col, t.gray, x);
      if t.heap[x].Udata? || t.heap[x].Upval? {
        assert AllMarked(t'.heap, t'.col, x);
      }
    }
    assert t'.col.Keys == s'.col.Keys;
    assert GrayGrew(s', t');
  }

  // ----- What marking keeps -----

  lemma MarkKeepsShape(s: State, t: State)
    requires MarkStep(s, t) && Shape(s) && Owned(s)
    ensures Shape(t) && Owned(t)
  {
  }

  lemma MarkKeepsSurvivors(s: State, t: State)
    requires MarkStep(s, t) && Shape(s) && NoDead(s) && Survivors(s)
    ensures NoDead(t) && Survivors(t)
  {
    forall x | x in t.col
      ensures t.col[x] != White(!t.cw)
    {
      if t.col[x] != s.col[x] {
        assert Settled(t.heap, t.col, t.gray, x);
      }
    }
    forall x | x in t.heap
      ensures Live(s, x) && Live(t, x)
    {
    }
    forall x, y | x in t.heap && Live(t, x) && Points(t.heap, x, y)
      ensures Live(t, y)
    {
      assert Live(s, x) && Points(s.heap, x, y);
      assert Live(s, y);
    }
    forall x | Root(t, x)
      ensures Live(t, x)
    {
      assert Root(s, x);
    }
  }

  lemma MarkKeepsPalette(s: State, t: State)
    requires MarkStep(s, t) && Shape(s) && Palette(s)
    ensures Palette(t)
  {
    forall x | x in t.heap && x in t.col && t.col[x] != s.col[x]
      ensures Settled(t.heap, t.col, t.gray, x)
    {
    }
  }

  lemma MarkKeepsLists(s: State, t: State)
    requires MarkStep(s, t) && Shape(s) && Lists(s)
    ensures Lists(t)
  {
    hide Settled, Shape, NoDup, Lists, GrayGrew;
    GrayGrewFacts(s, t);
    NewGray(s, t);
    GrayListed(s, t);
    DistinctGrown(s.gray, t.gray);
    hide MarkStep;
    JoinLists(s, t);
  }

  /** What joins the gray list was white, so it was on no list. */
  lemma NewGray(s: State, t: State)
    requires GrayGrew(s, t) && Lists(s) && |s.gray| <= |t.gray|
    ensures NoDup(s.gray) && forall i :: 0 <= i < |t.gray| - |s.gray| ==> !Listed(s, t.gray[i])
    ensures forall x :: x in t.gray && x !in s.gray ==>
      x in t.col && t.col[x] == Gray && x in s.heap && Container(s.heap[x]) && !Listed(s, x)
    ensures forall x :: x in s.gray ==> x in t.gray
  {
    hide NoDup;
    Prefixes(s.gray, s.gray, t.gray);
    forall i | 0 <= i < |t.gray| - |s.gray|
      ensures !Listed(s, t.gray[i])
    {
    }
    forall x | x in t.gray && x !in s.gray
      ensures x in t.col && t.col[x] == Gray && x in s.heap && Container(s.heap[x]) && !Listed(s, x)
    {
      var i :| 0 <= i < |t.gray| && t.gray[i] == x;
      assert i < |t.gray| - |s.gray|;
    }
  }

  lemma GrayGrewFacts(s: State, t: State)
    requires GrayGrew(s, t)
    ensures |s.gray| <= |t.gray| && t.gray[|t.gray| - |s.gray|..] == s.gray && NoDup(t.gray[..|t.gray| - |s.gray|])
  {
  }

  /** Every gray container is listed. */
  lemma GrayListed(s: State, t: State)
    requires MarkStep(s, t) && Lists(s) && forall x :: x in s.gray ==> x in t.gray
    ensures forall x :: x in t.heap && x in t.col && t.col[x] == Gray && Container(t.heap[x]) ==> Listed(t, x)
  {
    hide NoDup, GrayGrew;
    forall x | x in t.heap && x in t.col && t.col[x] == Gray && Container(t.heap[x])
      ensures Listed(t, x)
    {
      if s.col[x] == Gray {
        assert Listed(s, x);
      } else {
        assert Settled(t.heap, t.col, t.gray, x);
      }
    }
  }

  lemma DistinctGrown(a: seq<Id>, c: seq<Id>)
    requires |a| <= |c| && c[|c| - |a|..] == a && NoDup(a) && NoDup(c[..|c| - |a|])
    requires forall i :: 0 <= i < |c| - |a| ==> c[i] !in a
    ensures NoDup(c)
  {
    var k := |c| - |a|;
    Prefixes(a, a, c);
    forall i, j | 0 <= i < j < |c|
      ensures c[i] != c[j]
    {
      if j < k {
        assert c[..k][i] != c[..k][j];
      } else if i >= k {
        assert a[i - k] != a[j - k];
      } else {
        assert c[j] == a[j - k];
      }
    }
  }

  lemma JoinLists(s: State, t: State)
    requires Lists(s) && t == s.(col := t.col, gray := t.gray) && t.col.Keys == s.col.Keys && NoDup(t.gray)
    requires forall x :: x in s.col && !s.col[x].White? ==> t.col[x] == s.col[x]
    requires forall x :: x in t.gray && x !in s.gray ==>
      x in t.col && t.col[x] == Gray && x in s.heap && Container(s.heap[x]) && !Listed(s, x)
    requires forall x :: x in t.heap && x in t.col && t.col[x] == Gray && Container(t.heap[x]) ==> Listed(t, x)
    ensures Lists(t)
  {
    hide NoDup;
    forall x | Listed(t, x)
      ensures x in t.heap && x in t.col && t.col[x] == Gray && Container(t.heap[x])
    {
      if x !in t.gray || x in s.gray { assert Listed(s, x); }
    }
    assert forall x :: x in t.gray ==> x !in t.grayagain && x !in t.weak;
  }

  lemma MarkKeepsTraced(s: State, t: State, x: Id)
    requires MarkStep(s, t) && x in s.heap && Traced(s, x)
    ensures Traced(t, x)
  {
  }

  lemma MarkKeepsPending(s: State, t: State, todo: set<Id>)
    requires MarkStep(s, t) && Shape(s) && Lists(s) && Pending(s, todo)
    ensures Pending(t, todo)
  {
    var k := |t.gray| - |s.gray|;
    assert t.gray == t.gray[..k] + s.gray;
    forall x | x in t.heap && Marked(t, x) && x !in t.gray && x !in todo
      ensures Traced(t, x)
    {
      if Marked(s, x) {
        MarkKeepsTraced(s, t, x);
      } else {
        assert Settled(t.heap, t.col, t.gray, x);
        assert !Listed(s, x);
      }
    }
  }
}
