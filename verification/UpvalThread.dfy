/** A thread's stack and the operations on its open upvalues. */
module UpvalThread {
  import opened Upvals

  ghost predicate Subset(q: seq<Id>, r: seq<Id>) {
    forall x :: x in q ==> x in r
  }

  /** Upvalues in the ring are open, all others are closed. */
  ghost predicate Kinds(uvs: Heap, r: seq<Id>) {
    && (forall x :: x in r ==> x in uvs && uvs[x].v.Stack? && uvs[x].u.Links?)
    && (forall x :: x in uvs && x != HEAD && x !in r ==> uvs[x].v == Own && uvs[x].u.Val?)
  }

  ghost predicate Ok(uvs: Heap, head: int, base: int, size: nat, open: seq<Id>, ring: seq<Id>) {
    && List(uvs, head, open) && Ordered(uvs, open, base, size) && Ring(uvs, ring) && Subset(open, ring)
      && Kinds(uvs, ring)
  }

  /** The upvalue belongs to this thread or is closed, so its value can be seen. */
  ghost predicate Visible(uvs: Heap, open: seq<Id>, x: Id) {
    x in uvs && x != HEAD && (x in open || uvs[x].u.Val?)
  }

  /** The value seen through an upvalue. */
  function Seen(uvs: Heap, stack: seq<Value>, base: int, x: Id): Value {
    if x !in uvs then 0
    else if uvs[x].v == Own then if uvs[x].u.Val? then uvs[x].u.value else 0
    else if base <= uvs[x].v.a < base + |stack| then stack[uvs[x].v.a - base] else 0
  }

  // ----- findupval -----

  /** All at or above `level` in front, all below it behind. */
  ghost predicate SplitAt(uvs: Heap, q: seq<Id>, n: nat, level: int) {
    && n <= |q|
    && (forall i :: 0 <= i < |q| ==> q[i] in uvs && uvs[q[i]].v.Stack?)
    && (forall i :: 0 <= i < n ==> uvs[q[i]].v.a > level)
    && (n < |q| ==> uvs[q[n]].v.a < level)
  }

  function Placed(q: seq<Id>, n: nat, id: Id): seq<Id>
    requires n <= |q|
  {
    q[..n] + [id] + q[n..]
  }

  /** The heap with the new upvalue linked into the list behind `n` others. */
  ghost function Spliced(uvs: Heap, q: seq<Id>, n: nat, id: Id, uv: UpVal): Heap
    requires n <= |q| && forall i :: 0 <= i < |q| ==> q[i] in uvs
  {
    if n == 0 then uvs[id := uv] else uvs[id := uv][q[n - 1] := uvs[q[n - 1]].(next := id)]
  }

  lemma SpliceList(uvs: Heap, head: int, q: seq<Id>, n: nat, id: Id, uv: UpVal)
    requires List(uvs, head, q) && NoDup(q) && n <= |q| && id !in uvs && uv.next == First(q[n..])
    ensures List(Spliced(uvs, q, n, id, uv), if n == 0 then id else head, Placed(q, n, id))
  {
    var uvs', q' := Spliced(uvs, q, n, id, uv), Placed(q, n, id);
    forall i | 0 <= i < |q'|
      ensures q'[i] in uvs' && uvs'[q'[i]].next == First(q'[i + 1..])
    {
      if i < n - 1 {
        assert q'[i] == q[i] && q'[i + 1..][0] == q[i + 1] && q[i + 1..][0] == q[i + 1];
      } else if i == n - 1 {
        assert q'[i + 1..][0] == id;
      } else if i == n {
        assert q'[i + 1..] == q[n..];
      } else {
        assert q'[i] == q[i - 1] && q'[i + 1..] == q[i..];
      }
    }
  }

  lemma SpliceOrdered(uvs: Heap, q: seq<Id>, n: nat, id: Id, uv: UpVal, base: int, size: nat)
    requires uv.v.Stack? && base <= uv.v.a < base + size && Ordered(uvs, q, base, size) && SplitAt(uvs, q, n, uv.v.a)
      && id !in uvs
    ensures Ordered(Spliced(uvs, q, n, id, uv), Placed(q, n, id), base, size)
  {
    var uvs', q' := Spliced(uvs, q, n, id, uv), Placed(q, n, id);
    forall i | 0 <= i < |q'|
      ensures q'[i] in uvs' && uvs'[q'[i]].v == if i < n then uvs[q[i]].v else if i == n then uv.v else uvs[q[i - 1]].v
    {
    }
  }

  lemma OrderedNoDup(uvs: Heap, q: seq<Id>, base: int, size: nat)
    requires Ordered(uvs, q, base, size)
    ensures NoDup(q)
  {
  }

  /** Links of the ring do not concern the list. */
  lemma ListStays(uvs: Heap, uvs': Heap, head: int, q: seq<Id>, base: int, size: nat)
    requires List(uvs, head, q) && Ordered(uvs, q, base, size)
    requires forall x :: x in q ==> x in uvs' && uvs'[x].next == uvs[x].next && uvs'[x].v == uvs[x].v
    ensures List(uvs', head, q) && Ordered(uvs', q, base, size)
  {
    assert forall i :: 0 <= i < |q| ==> q[i] in q;
  }

  /** The new upvalue in both structures. */
  lemma NewOk(uvs: Heap, head: int, base: int, size: nat, open: seq<Id>, ring: seq<Id>, n: nat, id: Id, level: int)
    requires Ok(uvs, head, base, size, open, ring) && SplitAt(uvs, open, n, level) && base <= level < base + size
      && id !in uvs && HEAD in uvs && uvs[HEAD].u.Links? && n <= |open|
    ensures var uv := NewUpVal(uvs, open, n, level);
      && CanLink(Spliced(uvs, open, n, id, uv), uvs[HEAD].u.next, id)
      && Ok(LinkedIn(Spliced(uvs, open, n, id, uv), uvs[HEAD].u.next, id), if n == 0 then id else head, base, size,
            Placed(open, n, id), [id] + ring)
      && Frame(uvs, LinkedIn(Spliced(uvs, open, n, id, uv), uvs[HEAD].u.next, id))
  {
    var uv := NewUpVal(uvs, open, n, level);
    var mid, h := Spliced(uvs, open, n, id, uv), uvs[HEAD].u.next;
    hide Ring, Ordered, List, SplitAt;
    OrderedNoDup(uvs, open, base, size);
    hide NoDup;
    NewRing(uvs, ring, open, n, id, uv);
    SpliceList(uvs, head, open, n, id, uv);
    SpliceOrdered(uvs, open, n, id, uv, base, size);
    LinkedFacts(mid, h, id);
    hide Spliced, LinkedIn, CanLink;
    NewLists(uvs, mid, LinkedIn(mid, h, id), if n == 0 then id else head, base, size, open, ring, n, id, uv);
  }

  lemma NewLists(uvs: Heap, mid: Heap, uvs': Heap, head: int, base: int, size: nat, open: seq<Id>, ring: seq<Id>,
                 n: nat, id: Id, uv: UpVal)
    requires n <= |open| && List(mid, head, Placed(open, n, id)) && Ordered(mid, Placed(open, n, id), base, size)
      && Kinds(uvs, ring) && Subset(open, ring) && Ring(uvs', [id] + ring)
    requires uvs'.Keys == mid.Keys == uvs.Keys + {id} && id !in uvs && mid[id] == uv && uv.v.Stack? && uv.u.Links?
    requires forall x :: x in uvs ==> mid[x].v == uvs[x].v && mid[x].u == uvs[x].u && mid[x].dead == uvs[x].dead
    requires forall x :: x in mid ==> SameButLinks(mid[x], uvs'[x])
    ensures Ok(uvs', head, base, size, Placed(open, n, id), [id] + ring) && Frame(uvs, uvs')
  {
    hide Ring, Kinds, Subset;
    ListStays(mid, uvs', head, Placed(open, n, id), base, size);
    hide Ordered, List;
    NewKinds(uvs, ring, open, n, id, uv, uvs');
  }

  function NewUpVal(uvs: Heap, open: seq<Id>, n: nat, level: int): UpVal
    requires HEAD in uvs && uvs[HEAD].u.Links? && n <= |open|
  {
    UpVal(Stack(level), Links(HEAD, uvs[HEAD].u.next), First(open[n..]), false)
  }

  predicate SameButLinks(x: UpVal, y: UpVal) {
    y.v == x.v && y.next == x.next && y.dead == x.dead && (if x.u.Val? then y.u == x.u else y.u.Links?)
  }

  predicate CanLink(uvs: Heap, h: Id, id: Id) {
    h in uvs && uvs[h].u.Links? && HEAD in uvs && uvs[HEAD].u.Links?
  }

  /** The new upvalue becomes the neighbour of the head and of its former neighbour. */
  function LinkedIn(uvs: Heap, h: Id, id: Id): Heap
    requires CanLink(uvs, h, id)
  {
    SetNext(SetPrev(uvs, h, id), HEAD, id)
  }

  lemma LinkedFacts(uvs: Heap, h: Id, id: Id)
    requires CanLink(uvs, h, id)
    ensures LinkedIn(uvs, h, id).Keys == uvs.Keys && forall x :: x in uvs ==>
      SameButLinks(uvs[x], LinkedIn(uvs, h, id)[x])
  {
  }

  lemma NewRing(uvs: Heap, ring: seq<Id>, open: seq<Id>, n: nat, id: Id, uv: UpVal)
    requires Ring(uvs, ring) && Kinds(uvs, ring) && Subset(open, ring) && n <= |open| && id !in uvs
      && uv.u == Links(HEAD, uvs[HEAD].u.next)
    ensures forall i :: 0 <= i < |open| ==> open[i] in uvs
    ensures var mid := Spliced(uvs, open, n, id, uv);
      var h := uvs[HEAD].u.next;
      && CanLink(mid, h, id) && Ring(LinkedIn(mid, h, id), [id] + ring)
      && mid.Keys == uvs.Keys + {id} && mid[id] == uv
      && forall x :: x in uvs ==> mid[x].v == uvs[x].v && mid[x].u == uvs[x].u && mid[x].dead == uvs[x].dead
  {
    assert forall i :: 0 <= i < |open| ==> open[i] in open;
    var spliced := if n == 0 then uvs else uvs[open[n - 1] := uvs[open[n - 1]].(next := id)];
    RingStays(uvs, spliced, ring);
    assert Spliced(uvs, open, n, id, uv) == spliced[id := uv];
    RingInsert(spliced, ring, id, uv);
  }

  /** What finding an upvalue leaves as it was: where the values live, and the closed ones. */
  ghost predicate Frame(uvs: Heap, uvs': Heap) {
    forall x :: x in uvs && x != HEAD ==>
      x in uvs' && uvs'[x].v == uvs[x].v && (uvs[x].u.Val? ==> uvs'[x].u == uvs[x].u) && uvs'[x].dead == uvs[x].dead
  }

  lemma NewKinds(uvs: Heap, ring: seq<Id>, open: seq<Id>, n: nat, id: Id, uv: UpVal, uvs': Heap)
    requires Kinds(uvs, ring) && id !in uvs && n <= |open| && Subset(open, ring) && uv.v.Stack?
    requires uvs'.Keys == uvs.Keys + {id} && uvs'[id].v == uv.v && uvs'[id].u.Links?
    requires forall x :: x in uvs ==> uvs'[x].v == uvs[x].v && if uvs[x].u.Val? then uvs'[x].u == uvs[x].u
      else uvs'[x].u.Links?
    ensures Kinds(uvs', [id] + ring) && Subset(Placed(open, n, id), [id] + ring)
  {
    forall x | x in Placed(open, n, id)
      ensures x in [id] + ring
    {
      assert x == id || x in open;
    }
  }

  // ----- close -----

  /** lfunc.c `luaF_close` on the first upvalue of the list. */
  function ClosedOne(uvs: Heap, x: Id, value: Value): Heap
    requires x in uvs && uvs[x].u.Links? && x != HEAD
    requires Joined(uvs, uvs[x].u.prev, x) && Joined(uvs, x, uvs[x].u.next)
  {
    if uvs[x].dead then Unlinked(uvs, x) - {x} else Unlinked(uvs, x)[x := UpVal(Own, Val(value), NULL, false)]
  }

  lemma RingPlace(uvs: Heap, open: seq<Id>, ring: seq<Id>) returns (k: nat)
    requires open != [] && Subset(open, ring)
    ensures k < |ring| && ring[k] == open[0]
  {
    assert open[0] in open;
    k :| 0 <= k < |ring| && ring[k] == open[0];
  }

  lemma UnlinkedFacts(uvs: Heap, x: Id)
    requires x in uvs && uvs[x].u.Links? && x != HEAD && Joined(uvs, uvs[x].u.prev, x) && Joined(uvs, x, uvs[x].u.next)
    ensures Unlinked(uvs, x).Keys == uvs.Keys && forall y :: y in uvs ==> SameButLinks(uvs[y], Unlinked(uvs, x)[y])
  {
  }

  lemma WithoutIn(r: seq<Id>, k: nat)
    requires k < |r| && NoDup(r)
    ensures forall x :: x in Without(r, k) <==> x in r && x != r[k]
  {
    forall x | x in r && x != r[k]
      ensures x in Without(r, k)
    {
      var i :| 0 <= i < |r| && r[i] == x;
      assert Without(r, k)[if i < k then i else i - 1] == x;
    }
    assert forall i :: 0 <= i < |Without(r, k)| ==> Without(r, k)[i] == r[if i < k then i else i + 1];
  }

  lemma CloseOneOk(uvs: Heap, head: int, base: int, size: nat, open: seq<Id>, ring: seq<Id>, k: nat, value: Value)
    requires Ok(uvs, head, base, size, open, ring) && open != [] && k < |ring| && ring[k] == open[0]
    ensures var x := open[0];
      && x in uvs && uvs[x].u.Links? && x != HEAD && Joined(uvs, uvs[x].u.prev, x) && Joined(uvs, x, uvs[x].u.next)
      && Ok(ClosedOne(uvs, x, value), First(open[1..]), base, size, open[1..], Without(ring, k))
      && OthersStay(uvs, ClosedOne(uvs, x, value), x)
  {
    hide List, Ordered, Ring, Kinds, Subset;
    var x := open[0];
    RingRemove(uvs, ring, k);
    UnlinkedFacts(uvs, x);
    OpenFacts(uvs, head, base, size, open, ring);
    RingFacts(uvs, ring, k);
    WithoutIn(ring, k);
    hide Without, NoDup;
    ListTail(uvs, head, open, base, size);
    assert x !in open[1..] by { assert forall i :: 0 <= i < |open[1..]| ==>
                               open[1..][i] == open[i + 1]; NoDupFirst(open); }
    hide Unlinked;
    ClosedRest(uvs, Unlinked(uvs, x), ClosedOne(uvs, x, value), x, base, size, open, ring, Without(ring, k));
  }

  lemma NoDupFirst(q: seq<Id>)
    requires NoDup(q) && q != []
    ensures q[0] !in q[1..]
  {
  }

  lemma RingFacts(uvs: Heap, r: seq<Id>, k: nat)
    requires Ring(uvs, r) && k < |r|
    ensures NoDup(r) && HEAD !in r && HEAD in uvs && r[k] in uvs && uvs[r[k]].u.Links?
  {
  }

  lemma ClosedRest(uvs: Heap, mid: Heap, uvs': Heap, x: Id, base: int, size: nat, open: seq<Id>, ring: seq<Id>,
                   ring': seq<Id>)
    requires open != [] && x == open[0] && x !in open[1..] && x in uvs && HEAD in uvs && x != HEAD && HEAD !in ring
    requires List(uvs, First(open[1..]), open[1..]) && Ordered(uvs, open[1..], base, size) && Subset(open, ring)
      && Kinds(uvs, ring) && Ring(mid, ring')
    requires mid.Keys == uvs.Keys && forall y :: y in uvs ==> SameButLinks(uvs[y], mid[y])
    requires forall y :: y in ring' <==> y in ring && y != x
    requires forall y :: y in uvs && y != x ==> y in uvs' && uvs'[y] == mid[y]
    requires x in uvs' ==> uvs'[x].v == Own && uvs'[x].u.Val?
    requires forall y :: y in uvs' ==> y in uvs
    ensures Ok(uvs', First(open[1..]), base, size, open[1..], ring') && OthersStay(uvs, uvs', x)
  {
    assert Subset(open[1..], ring') by {
      forall y | y in open[1..]
        ensures y in ring'
      {
        assert y in open;
      }
    }
    assert forall y :: y in ring' ==> y in uvs' && uvs'[y].u == mid[y].u;
    hide List, Ordered, Ring;
    RingStays(mid, uvs', ring');
    assert Kinds(uvs', ring');
    ListStays(uvs, uvs', First(open[1..]), open[1..], base, size);
  }

  /** Closing one upvalue changes no other but for its links. */
  ghost predicate OthersStay(uvs: Heap, uvs': Heap, x: Id) {
    forall y :: y in uvs && y != x ==> y in uvs' && SameButLinks(uvs[y], uvs'[y])
  }

  lemma ListTail(uvs: Heap, head: int, q: seq<Id>, base: int, size: nat)
    requires List(uvs, head, q) && Ordered(uvs, q, base, size) && q != []
    ensures List(uvs, First(q[1..]), q[1..]) && Ordered(uvs, q[1..], base, size) && uvs[q[0]].next == First(q[1..])
  {
    forall i | 0 <= i < |q[1..]|
      ensures q[1..][i] in uvs && uvs[q[1..][i]].next == First(q[1..][i + 1..])
    {
      assert q[1..][i] == q[i + 1] && q[1..][i + 1..] == q[i + 2..];
    }
  }

  // ----- Moving the stack -----

  /** The upvalues `q` point by `delta` further. */
  function Shifted(uvs: Heap, q: seq<Id>, delta: int): Heap {
    map x | x in uvs :: if x in q && uvs[x].v.Stack? then uvs[x].(v := Stack(uvs[x].v.a + delta)) else uvs[x]
  }

  lemma ShiftOk(uvs: Heap, head: int, base: int, size: nat, open: seq<Id>, ring: seq<Id>, base': int, size': nat)
    requires Ok(uvs, head, base, size, open, ring) && forall i :: 0 <= i < |open| ==>
      open[i] in uvs && uvs[open[i]].v.Stack? && uvs[open[i]].v.a - base < size'
    ensures Ok(Shifted(uvs, open, base' - base), head, base', size', open, ring)
  {
    hide Ring, List, Ordered, Kinds, Subset;
    var uvs' := Shifted(uvs, open, base' - base);
    HeadIn(uvs, ring);
    RingIn(uvs, ring);
    assert forall y :: y in uvs ==>
      y in uvs' && uvs'[y].u == uvs[y].u && uvs'[y].next == uvs[y].next && uvs'[y].v.Stack? == uvs[y].v.Stack?;
    RingStays(uvs, uvs', ring);
    ShiftKinds(uvs, uvs', ring);
    assert forall i :: 0 <= i < |open| ==>
      open[i] in open && uvs'[open[i]].v == Stack(uvs[open[i]].v.a + (base' - base));
    ShiftList(uvs, uvs', head, open, base, size, base', size');
  }

  lemma RingIn(uvs: Heap, r: seq<Id>)
    requires Ring(uvs, r)
    ensures forall x :: x in r ==> x in uvs
  {
  }

  lemma ShiftKinds(uvs: Heap, uvs': Heap, ring: seq<Id>)
    requires Kinds(uvs, ring) && uvs'.Keys == uvs.Keys && forall y :: y in uvs ==>
      uvs'[y].u == uvs[y].u && uvs'[y].v.Stack? == uvs[y].v.Stack?
    ensures Kinds(uvs', ring)
  {
  }

  lemma ShiftList(uvs: Heap, uvs': Heap, head: int, q: seq<Id>, base: int, size: nat, base': int, size': nat)
    requires List(uvs, head, q) && Ordered(uvs, q, base, size) && uvs'.Keys == uvs.Keys && forall y :: y in uvs ==>
      uvs'[y].next == uvs[y].next
    requires forall i :: 0 <= i < |q| ==>
      uvs'[q[i]].v == Stack(uvs[q[i]].v.a + (base' - base)) && uvs[q[i]].v.a - base < size'
    ensures List(uvs', head, q) && Ordered(uvs', q, base', size')
  {
  }

  function Resized(stack: seq<Value>, size: nat): (r: seq<Value>)
    ensures |r| == size && forall i :: 0 <= i < size && i < |stack| ==> r[i] == stack[i]
  {
    seq(size, i requires 0 <= i < size => if i < |stack| then stack[i] else 0)
  }

  lemma OpenFacts(uvs: Heap, head: int, base: int, size: nat, open: seq<Id>, ring: seq<Id>)
    requires Ok(uvs, head, base, size, open, ring)
    ensures NoDup(open) && HEAD !in open
  {
    OrderedNoDup(uvs, open, base, size);
  }

  lemma SplicedNew(uvs: Heap, open: seq<Id>, n: nat, id: Id, uv: UpVal)
    requires n <= |open| && (forall i :: 0 <= i < |open| ==> open[i] in uvs) && id !in uvs
    ensures id in Spliced(uvs, open, n, id, uv) && Spliced(uvs, open, n, id, uv)[id] == uv && id in Placed(open, n, id)
    ensures Spliced(uvs, open, n, id, uv).Keys == uvs.Keys + {id}
  {
    assert Placed(open, n, id)[n] == id;
  }

  lemma HeadIn(uvs: Heap, ring: seq<Id>)
    requires Ring(uvs, ring)
    ensures HEAD in uvs && uvs[HEAD].u.Links?
  {
  }

  lemma OpenIn(uvs: Heap, open: seq<Id>, ring: seq<Id>)
    requires Subset(open, ring) && Kinds(uvs, ring)
    ensures forall i :: 0 <= i < |open| ==> open[i] in uvs
  {
    assert forall i :: 0 <= i < |open| ==> open[i] in open;
  }

  lemma ReviveOk(uvs: Heap, head: int, base: int, size: nat, open: seq<Id>, ring: seq<Id>, x: Id)
    requires Ok(uvs, head, base, size, open, ring) && x in uvs
    ensures Ok(uvs[x := uvs[x].(dead := false)], head, base, size, open, ring)
  {
    var uvs' := uvs[x := uvs[x].(dead := false)];
    assert forall y :: y in uvs ==>
      y in uvs' && uvs'[y].u == uvs[y].u && uvs'[y].v == uvs[y].v && uvs'[y].next == uvs[y].next;
    hide List, Ordered, Subset;
    RingStays(uvs, uvs', ring);
    hide Ring;
    OpenIn(uvs, open, ring);
    ListStays(uvs, uvs', head, open, base, size);
  }

  lemma NotOpen(uvs: Heap, open: seq<Id>, n: nat, level: int, base: int, size: nat)
    requires SplitAt(uvs, open, n, level) && Ordered(uvs, open, base, size)
    ensures forall x :: x in open ==> uvs[x].v != Stack(level)
  {
    forall i | 0 <= i < |open|
      ensures uvs[open[i]].v.a != level
    {
      assert i > n ==> uvs[open[n]].v.a > uvs[open[i]].v.a;
    }
  }

  // ----- A closing under way -----

  /** The first `i` upvalues of the list have been closed. */
  ghost predicate Closing(uvs0: Heap, open0: seq<Id>, uvs: Heap, stack: seq<Value>, base: int, i: nat) {
    && i <= |open0| && uvs.Keys <= uvs0.Keys
    && (forall j :: 0 <= j < |open0| ==> open0[j] in uvs0 && uvs0[open0[j]].v.Stack?)
    && (forall j :: 0 <= j < i ==> ClosedRight(uvs0, uvs, stack, base, open0[j]))
    && (forall x :: x in uvs0 && x !in open0[..i] ==> x in uvs && SameButLinks(uvs0[x], uvs[x]))
  }

  ghost predicate ClosedRight(uvs0: Heap, uvs: Heap, stack: seq<Value>, base: int, x: Id) {
    && x in uvs0 && (x in uvs <==> !uvs0[x].dead)
    && (x in uvs ==> uvs[x].v == Own && uvs[x].u == Val(Seen(uvs0, stack, base, x)) && !uvs[x].dead)
  }

  lemma ClosingStart(uvs: Heap, head: int, base: int, stack: seq<Value>, open: seq<Id>, ring: seq<Id>)
    requires Ok(uvs, head, base, |stack|, open, ring)
    ensures forall j :: 0 <= j < |open| ==> open[j] in uvs && uvs[open[j]].v.Stack?
    ensures Closing(uvs, open, uvs, stack, base, 0) && (head != NULL ==> head >= 0 && head in uvs && uvs[head].v.Stack?)
  {
    hide Ring;
  }

  lemma FirstOpen(uvs: Heap, head: int, base: int, size: nat, open: seq<Id>, ring: seq<Id>)
    requires Ok(uvs, head, base, size, open, ring)
    ensures head == First(open) && (head != NULL ==> head >= 0 && head in uvs && uvs[head].v.Stack?)
      && Subset(open, ring)
  {
    hide Ring;
  }

  lemma FirstSlot(uvs: Heap, head: int, base: int, size: nat, open: seq<Id>, ring: seq<Id>)
    requires Ok(uvs, head, base, size, open, ring) && open != []
    ensures var x := open[0];
      head == x && x in uvs && uvs[x].v.Stack? && base <= uvs[x].v.a < base + size && uvs[x].next == First(open[1..])
  {
    hide Ring, Kinds, Subset, List, Ordered;
    ListTail(uvs, head, open, base, size);
    ListHead(uvs, head, open, base, size);
  }

  lemma CloseOneStep(uvs0: Heap, open0: seq<Id>, uvs: Heap, stack: seq<Value>, base: int, i: nat, value: Value)
    requires Closing(uvs0, open0, uvs, stack, base, i) && i < |open0| && NoDup(open0)
    requires var x := open0[i];
      && x in uvs && uvs[x].v.Stack? && base <= uvs[x].v.a < base + |stack| && value == stack[uvs[x].v.a - base]
      && uvs[x].u.Links? && x != HEAD && Joined(uvs, uvs[x].u.prev, x) && Joined(uvs, x, uvs[x].u.next)
      && OthersStay(uvs, ClosedOne(uvs, x, value), x)
    ensures Closing(uvs0, open0, ClosedOne(uvs, open0[i], value), stack, base, i + 1)
    ensures uvs0[open0[i]].v == uvs[open0[i]].v
  {
    var x := open0[i];
    hide NoDup, Closing, OthersStay;
    KeptSoFar(uvs0, open0, uvs, stack, base, i);
    UnlinkedFacts(uvs, x);
    hide Unlinked, Joined;
    ClosingStep(uvs0, open0, uvs, ClosedOne(uvs, x, value), stack, base, i);
  }

  lemma KeptSoFar(uvs0: Heap, open0: seq<Id>, uvs: Heap, stack: seq<Value>, base: int, i: nat)
    requires Closing(uvs0, open0, uvs, stack, base, i) && i < |open0| && NoDup(open0)
    ensures var x := open0[i]; x in uvs0 && uvs0[x].v.Stack? && x in uvs && SameButLinks(uvs0[x], uvs[x])
  {
    NoDupPrefix(open0, i);
  }

  lemma NoDupPrefix(q: seq<Id>, i: nat)
    requires NoDup(q) && i < |q|
    ensures q[i] !in q[..i]
  {
  }

  lemma ListHead(uvs: Heap, head: int, q: seq<Id>, base: int, size: nat)
    requires List(uvs, head, q) && Ordered(uvs, q, base, size) && q != []
    ensures head == q[0] && q[0] in uvs && uvs[q[0]].v.Stack? && base <= uvs[q[0]].v.a < base + size
  {
  }

  lemma ClosingStep(uvs0: Heap, open0: seq<Id>, uvs: Heap, uvs': Heap, stack: seq<Value>, base: int, i: nat)
    requires Closing(uvs0, open0, uvs, stack, base, i) && i < |open0| && NoDup(open0)
    requires var x := open0[i];
      && x in uvs && base <= uvs0[x].v.a < base + |stack|
      && OthersStay(uvs, uvs', x) && (x in uvs' <==> !uvs[x].dead)
        && (x in uvs' ==> uvs'[x] == UpVal(Own, Val(stack[uvs0[x].v.a - base]), NULL, false))
      && (forall y :: y in uvs' ==> y in uvs)
    ensures Closing(uvs0, open0, uvs', stack, base, i + 1)
  {
    var x := open0[i];
    assert x !in open0[..i];
    assert open0[..i + 1] == open0[..i] + [x];
    assert SameButLinks(uvs0[x], uvs[x]);
    forall j | 0 <= j < i + 1
      ensures ClosedRight(uvs0, uvs', stack, base, open0[j])
    {
      if j < i { assert ClosedRight(uvs0, uvs, stack, base, open0[j]); assert open0[j] != x; }
    }
  }

  lemma ClosingDone(uvs0: Heap, open0: seq<Id>, uvs: Heap, head: int, base: int, stack: seq<Value>, open: seq<Id>,
                    ring: seq<Id>, i: nat, level: int)
    requires Closing(uvs0, open0, uvs, stack, base, i) && Ok(uvs, head, base, |stack|, open, ring) && open == open0[i..]
      && NoDup(open0) && HEAD !in open0
    requires forall j :: 0 <= j < i ==> uvs0[open0[j]].v.a >= level
    requires head != NULL ==> head in uvs && uvs[head].v.Stack? && uvs[head].v.a < level
    ensures forall x :: x in open0 && uvs0[x].v.a < level ==>
      x in open && x in uvs && uvs[x].v == uvs0[x].v && uvs[x].dead == uvs0[x].dead
    ensures forall x :: x in open0 && uvs0[x].v.a >= level ==>
      x !in open && (x in uvs <==> !uvs0[x].dead) && (x in uvs ==> uvs[x].v == Own && !uvs[x].dead)
    ensures forall x :: x in uvs && x != HEAD && Visible(uvs0, open0, x) ==>
      Visible(uvs, open, x) && Seen(uvs, stack, base, x) == Seen(uvs0, stack, base, x)
    ensures forall x :: x in uvs0 && x !in open0 ==> x in uvs && uvs[x].v == uvs0[x].v && uvs[x].dead == uvs0[x].dead
    ensures uvs.Keys <= uvs0.Keys && forall x :: x in open ==> x in open0
  {
    hide Ok;
    LowerRest(uvs, head, base, |stack|, open, ring, level);
    forall j | 0 <= j < |open0|
      ensures ClosedOrKept(uvs0, open0, uvs, stack, base, open, i, j, level)
    {
      NoDupPrefix(open0, j);
      hide ClosedRight;
      if j >= i {
        assert open0[j] == open[j - i];
        assert open0[j] !in open0[..i] by { assert open0[..i] == open0[..j][..i]; }
      } else {
        assert open0[j] !in open0[i..];
      }
    }
    assert uvs.Keys <= uvs0.Keys;
    hide NoDup, Closing;
    ClosingCases(uvs0, open0, uvs, stack, base, open, i, level);
    forall x | x in uvs0 && x !in open0
      ensures x in uvs && SameButLinks(uvs0[x], uvs[x])
    {
      OutsideKept(uvs0, open0, uvs, stack, base, i, x);
    }
    forall x | x in uvs && x != HEAD && Visible(uvs0, open0, x)
      ensures Visible(uvs, open, x) && Seen(uvs, stack, base, x) == Seen(uvs0, stack, base, x)
    {
      if x in open0 {
        var j :| 0 <= j < |open0| && open0[j] == x;
        assert ClosedOrKept(uvs0, open0, uvs, stack, base, open, i, j, level);
      }
    }
  }

  lemma OutsideKept(uvs0: Heap, open0: seq<Id>, uvs: Heap, stack: seq<Value>, base: int, i: nat, x: Id)
    requires Closing(uvs0, open0, uvs, stack, base, i) && x in uvs0 && x !in open0
    ensures x in uvs && SameButLinks(uvs0[x], uvs[x])
  {
    assert x !in open0[..i];
  }

  /** What has become of the upvalue at place `j` of the list. */
  ghost predicate ClosedOrKept(uvs0: Heap, open0: seq<Id>, uvs: Heap, stack: seq<Value>, base: int, open: seq<Id>,
                               i: nat, j: nat, level: int)
    requires j < |open0|
  {
    var x := open0[j];
    && x in uvs0 && uvs0[x].v.Stack?
    && if j < i then ClosedRight(uvs0, uvs, stack, base, x) && x !in open && uvs0[x].v.a >= level
       else x in open && x in uvs && SameButLinks(uvs0[x], uvs[x]) && uvs0[x].v.a < level
  }

  lemma ClosingCases(uvs0: Heap, open0: seq<Id>, uvs: Heap, stack: seq<Value>, base: int, open: seq<Id>, i: nat,
                     level: int)
    requires forall j :: 0 <= j < |open0| ==> ClosedOrKept(uvs0, open0, uvs, stack, base, open, i, j, level)
    requires forall x :: x in open0 ==> x in uvs0 && uvs0[x].v.Stack?
    ensures forall x :: x in open0 && uvs0[x].v.a < level ==>
      x in open && x in uvs && uvs[x].v == uvs0[x].v && uvs[x].dead == uvs0[x].dead
    ensures forall x :: x in open0 && uvs0[x].v.a >= level ==>
      x !in open && (x in uvs <==> !uvs0[x].dead) && (x in uvs ==> uvs[x].v == Own && !uvs[x].dead)
  {
    forall x | x in open0
      ensures if uvs0[x].v.a < level then
        x in open && x in uvs && uvs[x].v == uvs0[x].v && uvs[x].dead == uvs0[x].dead
        else x !in open && (x in uvs <==> !uvs0[x].dead) && (x in uvs ==> uvs[x].v == Own && !uvs[x].dead)
    {
      var j :| 0 <= j < |open0| && open0[j] == x;
      assert ClosedOrKept(uvs0, open0, uvs, stack, base, open, i, j, level);
    }
  }

  lemma LowerRest(uvs: Heap, head: int, base: int, size: nat, open: seq<Id>, ring: seq<Id>, level: int)
    requires Ok(uvs, head, base, size, open, ring)
      && (head != NULL ==> head in uvs && uvs[head].v.Stack? && uvs[head].v.a < level)
    ensures forall j :: 0 <= j < |open| ==> open[j] in uvs && uvs[open[j]].v.Stack? && uvs[open[j]].v.a < level
  {
    hide Ring, Kinds, Subset;
  }

  class Thread {
    var uvs: Heap
    var openupval: int
    /** The address of the first slot. */
    var base: int
    var stack: seq<Value>
    ghost var open: seq<Id>
    ghost var ring: seq<Id>

    ghost predicate Valid()
      reads this
    {
      Ok(uvs, openupval, base, |stack|, open, ring)
    }

    constructor (base: int, stack: seq<Value>)
      ensures Valid() && this.base == base && this.stack == stack && open == []
    {
      this.base, this.stack := base, stack;
      uvs := map[HEAD := UpVal(Own, Links(HEAD, HEAD), NULL, false)];
      openupval, open, ring := NULL, [], [];
    }

    /** The walk of lfunc.c `luaF_findupval`: the upvalue of `level`, or the place for a new one. */
    method Locate(level: int) returns (found: bool, pp: int, cur: int, ghost n: nat)
      requires Valid()
      ensures n <= |open| && cur == First(open[n..]) && pp == (if n == 0 then NULL else open[n - 1])
      ensures found ==> n < |open| && cur == open[n] && cur in uvs && uvs[cur].v == Stack(level)
      ensures !found ==> SplitAt(uvs, open, n, level)
    {
      hide Ring, Kinds, Subset;
      pp, cur, n := NULL, openupval, 0;
      assert open[0..] == open;
      while cur != NULL && uvs[cur].v.a >= level
        invariant n <= |open| && cur == First(open[n..]) && pp == (if n == 0 then NULL else open[n - 1])
        invariant cur != NULL ==> n < |open| && cur == open[n] && cur in uvs && uvs[cur].v.Stack?
        invariant forall i :: 0 <= i < n ==> uvs[open[i]].v.a > level
        decreases |open| - n
      {
        if uvs[cur].v.a == level {
          return true, pp, cur, n;
        }
        pp := cur;
        cur := uvs[cur].next;
        n := n + 1;
      }
      found := false;
    }

    /** lfunc.c `luaF_findupval`: the one open upvalue of a stack slot, and never a dead one. */
    method FindUpval(level: int, id: Id) returns (r: Id)
      requires Valid() && base <= level < base + |stack| && id !in uvs
      modifies `uvs, `openupval, `open, `ring
      ensures Valid() && r in open && r in uvs && uvs[r].v == Stack(level) && !uvs[r].dead
      ensures forall x :: x in old(uvs) && x != HEAD ==>
        x in uvs && uvs[x].v == old(uvs)[x].v && (old(uvs)[x].u.Val? ==> uvs[x].u == old(uvs)[x].u)
          && (x != r ==> uvs[x].dead == old(uvs)[x].dead)
      ensures r in old(uvs) ==> uvs.Keys == old(uvs).Keys && open == old(open)
      ensures r !in old(uvs) ==>
        r == id && uvs.Keys == old(uvs).Keys + {id} && forall x :: x in old(open) ==> old(uvs)[x].v != Stack(level)
    {
      hide Ring, List, Ordered, Kinds, SplitAt, Spliced, Joined, First;
      var found, pp, cur;
      ghost var n;
      found, pp, cur, n := Locate(level);
      if found {
        r := cur;
        assert open[n] in open;
        if uvs[r].dead {
          ReviveOk(uvs, openupval, base, |stack|, open, ring, r);
          hide Ok;
          uvs := uvs[r := uvs[r].(dead := false)];
        }
        return;
      }
      NotOpen(uvs, open, n, level, base, |stack|);
      HeadIn(uvs, ring);
      OpenIn(uvs, open, ring);
      NewOk(uvs, openupval, base, |stack|, open, ring, n, id, level);
      hide Ok;
      r := id;
      var h := uvs[HEAD].u.next;
      LinkNew(pp, UpVal(Stack(level), Links(HEAD, h), cur, false), id, n);
      LinkedFacts(uvs, h, id);
      SplicedNew(old(uvs), open, n, id, NewUpVal(old(uvs), open, n, level));
      uvs := SetPrev(uvs, h, id);
      uvs := SetNext(uvs, HEAD, id);
      open := Placed(open, n, id);
      ring := [id] + ring;
    }

    /** Chain the new upvalue into the list in its proper position. */
    method LinkNew(pp: int, uv: UpVal, id: Id, ghost n: nat)
      requires n <= |open| && pp == (if n == 0 then NULL else open[n - 1])
        && (forall i :: 0 <= i < |open| ==> open[i] in uvs) && id !in uvs
      modifies `uvs, `openupval
      ensures uvs == Spliced(old(uvs), open, n, id, uv) && openupval == if n == 0 then id else old(openupval)
    {
      uvs := uvs[id := uv];
      if pp == NULL {
        openupval := id;
      } else {
        uvs := uvs[pp := uvs[pp].(next := id)];
      }
    }

    /** lfunc.c `luaF_close`: exactly the upvalues at or above `level` are closed, the dead ones among
        them freed, and each keeps the value seen through it. */
    method Close(level: int)
      requires Valid()
      modifies `uvs, `openupval, `open, `ring
      ensures Valid()
      ensures forall x :: x in old(open) && old(uvs)[x].v.a < level ==>
        x in open && x in uvs && uvs[x].v == old(uvs)[x].v && uvs[x].dead == old(uvs)[x].dead
      ensures forall x :: x in old(open) && old(uvs)[x].v.a >= level ==>
        x !in open && (x in uvs <==> !old(uvs)[x].dead) && (x in uvs ==> uvs[x].v == Own && !uvs[x].dead)
      ensures forall x :: x in uvs && x != HEAD && Visible(old(uvs), old(open), x) ==>
        Visible(uvs, open, x) && Seen(uvs, stack, base, x) == Seen(old(uvs), stack, base, x)
      ensures forall x :: x in old(uvs) && x !in old(open) ==>
        x in uvs && uvs[x].v == old(uvs)[x].v && uvs[x].dead == old(uvs)[x].dead
      ensures uvs.Keys <= old(uvs).Keys
      ensures forall x :: x in open ==> x in old(open)
    {
      hide Ok, Closing, NoDup, Joined, ClosedOne, OthersStay, Subset, Without, SameButLinks, Seen, Visible;
      ghost var uvs0, open0 := uvs, open;
      ghost var i: nat := 0;
      assert open0[0..] == open0;
      OpenFacts(uvs, openupval, base, |stack|, open, ring);
      ClosingStart(uvs, openupval, base, stack, open, ring);
      while openupval != NULL && uvs[openupval].v.a >= level
        invariant Valid() && i <= |open0| && open == open0[i..]
        invariant Closing(uvs0, open0, uvs, stack, base, i)
        invariant forall j :: 0 <= j < |open0| ==> open0[j] in uvs0 && uvs0[open0[j]].v.Stack?
        invariant forall j :: 0 <= j < i ==> uvs0[open0[j]].v.a >= level
        invariant openupval != NULL ==> openupval >= 0 && openupval in uvs && uvs[openupval].v.Stack?
        decreases |open0| - i
      {
        FirstOpen(uvs, openupval, base, |stack|, open, ring);
        ghost var k := RingPlace(uvs, open, ring);
        var uv: Id := openupval;
        assert uv == open0[i];
        FirstSlot(uvs, openupval, base, |stack|, open, ring);
        ghost var value := stack[uvs[uv].v.a - base];
        CloseOneOk(uvs, openupval, base, |stack|, open, ring, k, value);
        CloseOneStep(uvs0, open0, uvs, stack, base, i, value);
        CloseFirst(uv);
        open := open[1..];
        ring := Without(ring, k);
        assert open == open0[i + 1..];
        i := i + 1;
        FirstOpen(uvs, openupval, base, |stack|, open, ring);
      }
      ClosingDone(uvs0, open0, uvs, openupval, base, stack, open, ring, i, level);
    }

    /** One round of `luaF_close`. */
    method CloseFirst(uv: Id)
      requires uv in uvs && uvs[uv].v.Stack? && base <= uvs[uv].v.a < base + |stack| && uvs[uv].u.Links? && uv != HEAD
      requires Joined(uvs, uvs[uv].u.prev, uv) && Joined(uvs, uv, uvs[uv].u.next)
      modifies `uvs, `openupval
      ensures uvs == ClosedOne(old(uvs), uv, old(stack[uvs[uv].v.a - base])) && openupval == old(uvs)[uv].next
    {
      openupval := uvs[uv].next;
      var value := stack[uvs[uv].v.a - base];
      if uvs[uv].dead {
        uvs := Unlinked(uvs, uv);
        uvs := uvs - {uv};
      } else {
        uvs := Unlinked(uvs, uv);
        uvs := uvs[uv := UpVal(Own, Val(value), NULL, false)];
      }
    }

    /** ldo.c `luaD_reallocstack` and `correctstack`: the stack moves, and every upvalue still shows
        the same value. */
    method ReallocStack(newsize: nat, newbase: int)
      requires Valid() && forall x :: x in open ==> x in uvs && uvs[x].v.Stack? && uvs[x].v.a - base < newsize
      modifies `uvs, `base, `stack
      ensures Valid() && base == newbase && |stack| == newsize
      ensures forall i :: 0 <= i < newsize && i < |old(stack)| ==> stack[i] == old(stack)[i]
      ensures forall x :: Visible(old(uvs), open, x) ==>
        Visible(uvs, open, x) && Seen(uvs, stack, base, x) == old(Seen(uvs, stack, base, x))
    {
      hide Ok, Shifted, Seen, Visible, Resized;
      assert forall i :: 0 <= i < |open| ==> open[i] in open;
      ShiftOk(uvs, openupval, base, |stack|, open, ring, newbase, newsize);
      ShiftSeen(uvs, openupval, base, stack, open, ring, newbase, newsize);
      var heap := CorrectStack(newbase - base);
      uvs := heap;
      stack := Resized(stack, newsize);
      base := newbase;
    }

    method CorrectStack(delta: int) returns (heap: Heap)
      requires Valid()
      ensures heap == Shifted(uvs, open, delta)
    {
      hide Ring, Kinds, Subset, List, Ordered, Shifted;
      OrderedNoDup(uvs, open, base, |stack|);
      hide NoDup;
      heap := uvs;
      var up := openupval;
      ghost var i: nat := 0;
      assert open[0..] == open;
      ShiftNone(uvs, open, delta);
      ListHas(uvs, openupval, open, base, |stack|);
      while up != NULL
        invariant i <= |open| && up == First(open[i..]) && heap == Shifted(uvs, open[..i], delta)
        decreases |open| - i
      {
        assert up == open[i];
        ShiftOne(uvs, open, i, delta);
        heap := heap[up := heap[up].(v := Stack(heap[up].v.a + delta))];
        up := uvs[up].next;
        i := i + 1;
      }
      assert open[..i] == open;
    }
  }

  lemma ShiftNone(uvs: Heap, q: seq<Id>, delta: int)
    ensures Shifted(uvs, q[..0], delta) == uvs
  {
  }

  lemma ListHas(uvs: Heap, head: int, q: seq<Id>, base: int, size: nat)
    requires List(uvs, head, q) && Ordered(uvs, q, base, size)
    ensures head == First(q) && forall i :: 0 <= i < |q| ==>
      q[i] in uvs && uvs[q[i]].v.Stack? && uvs[q[i]].next == First(q[i + 1..])
  {
  }

  lemma ShiftOne(uvs: Heap, q: seq<Id>, i: nat, delta: int)
    requires i < |q| && NoDup(q) && q[i] in uvs && uvs[q[i]].v.Stack?
    ensures var heap := Shifted(uvs, q[..i], delta);
      q[i] in heap && heap[q[i]] == uvs[q[i]] && Shifted(uvs, q[..i + 1],
                                                         delta) == heap[q[i] := heap[q[i]].(v :=
                                                             Stack(heap[q[i]].v.a + delta))]
  {
    assert q[..i + 1] == q[..i] + [q[i]];
    assert q[i] !in q[..i];
  }

  lemma ShiftSeen(uvs: Heap, head: int, base: int, stack: seq<Value>, open: seq<Id>, ring: seq<Id>, base': int,
                  size': nat)
    requires Ok(uvs, head, base, |stack|, open, ring) && forall x :: x in open ==>
      x in uvs && uvs[x].v.Stack? && uvs[x].v.a - base < size'
    ensures var uvs' := Shifted(uvs, open, base' - base);
      forall x :: Visible(uvs, open, x) ==>
        Visible(uvs', open, x) && Seen(uvs', Resized(stack, size'), base', x) == Seen(uvs, stack, base, x)
  {
    var uvs' := Shifted(uvs, open, base' - base);
    hide Ring, List;
    forall x | Visible(uvs, open, x)
      ensures Visible(uvs', open, x) && Seen(uvs', Resized(stack, size'), base', x) == Seen(uvs, stack, base, x)
    {
      if x in open {
        var i :| 0 <= i < |open| && open[i] == x;
        assert uvs'[x].v == Stack(uvs[x].v.a + (base' - base));
      } else {
        assert x !in ring;
      }
    }
  }
}
