/** Open upvalues: the list of a thread, ordered by stack slot, and the ring that links all open
    upvalues of the program. */
module Upvals {

  type Id = nat
  type Value = int

  /** The head of the ring, `uvhead`. */
  const HEAD: Id := 0
  const NULL: int := -1

  /** Where the value lives: at an address in the stack, or in the upvalue itself. */
  datatype Ptr = Stack(a: int) | Own

  /** The union in lobject.h: the value of a closed upvalue or the links of an open one. */
  datatype Union = Val(value: Value) | Links(prev: Id, next: Id)

  datatype UpVal = UpVal(v: Ptr, u: Union, next: int, dead: bool)

  type Heap = map<Id, UpVal>

  // ----- The list of a thread -----

  function First(q: seq<Id>): int {
    if q == [] then NULL else q[0]
  }

  /** `q` is the list that starts at `head`. */
  ghost predicate List(uvs: Heap, head: int, q: seq<Id>) {
    head == First(q) && forall i :: 0 <= i < |q| ==> q[i] in uvs && uvs[q[i]].next == First(q[i + 1..])
  }

  /** Each upvalue of the list is open on a slot of its own, the highest slot first. */
  ghost predicate Ordered(uvs: Heap, q: seq<Id>, base: int, size: nat) {
    && (forall i :: 0 <= i < |q| ==> q[i] in uvs && uvs[q[i]].v.Stack? && base <= uvs[q[i]].v.a < base + size)
    && (forall i, j :: 0 <= i < j < |q| ==> uvs[q[i]].v.a > uvs[q[j]].v.a)
  }

  // ----- The ring -----

  predicate NoDup(q: seq<Id>) {
    forall i, j :: 0 <= i < j < |q| ==> q[i] != q[j]
  }

  function Before(r: seq<Id>, i: nat): Id
    requires i <= |r|
  {
    if i == 0 then HEAD else r[i - 1]
  }

  function Behind(r: seq<Id>, i: nat): Id {
    if i < |r| then r[i] else HEAD
  }

  /** `r` are the members of the doubly linked ring behind its head. */
  ghost predicate Ring(uvs: Heap, r: seq<Id>) {
    && NoDup(r) && HEAD !in r && HEAD in uvs && uvs[HEAD].u.Links?
    && (forall i :: 0 <= i < |r| ==> r[i] in uvs && uvs[r[i]].u.Links?)
    && (forall i :: 0 <= i <= |r| ==> Joined(uvs, Before(r, i), Behind(r, i)))
  }

  predicate Joined(uvs: Heap, x: Id, y: Id) {
    x in uvs && y in uvs && uvs[x].u.Links? && uvs[y].u.Links? && uvs[x].u.next == y && uvs[y].u.prev == x
  }

  function SetPrev(uvs: Heap, x: Id, y: Id): Heap
    requires x in uvs && uvs[x].u.Links?
  {
    uvs[x := uvs[x].(u := uvs[x].u.(prev := y))]
  }

  function SetNext(uvs: Heap, x: Id, y: Id): Heap
    requires x in uvs && uvs[x].u.Links?
  {
    uvs[x := uvs[x].(u := uvs[x].u.(next := y))]
  }

  /** lfunc.c `unlinkupval`. */
  function Unlinked(uvs: Heap, x: Id): Heap
    requires x in uvs && uvs[x].u.Links? && x != HEAD
    requires Joined(uvs, uvs[x].u.prev, x) && Joined(uvs, x, uvs[x].u.next)
  {
    SetNext(SetPrev(uvs, uvs[x].u.next, uvs[x].u.prev), uvs[x].u.prev, uvs[x].u.next)
  }

  function Without(r: seq<Id>, k: nat): seq<Id>
    requires k < |r|
  {
    r[..k] + r[k + 1..]
  }

  lemma RingNeighbours(uvs: Heap, r: seq<Id>, k: nat)
    requires Ring(uvs, r) && k < |r|
    ensures var x := r[k]; Joined(uvs, Before(r, k), x) && Joined(uvs, x, Behind(r, k + 1)) && x != HEAD
  {
    assert Behind(r, k) == r[k] && Before(r, k + 1) == r[k];
  }

  lemma RingRemove(uvs: Heap, r: seq<Id>, k: nat)
    requires Ring(uvs, r) && k < |r|
    ensures var x := r[k]; Joined(uvs, uvs[x].u.prev, x) && Joined(uvs, x,
                                                                   uvs[x].u.next) && x != HEAD && Ring(Unlinked(uvs, x),
                                                                       Without(r, k))
  {
    var x, r' := r[k], Without(r, k);
    RingNeighbours(uvs, r, k);
    var uvs' := Unlinked(uvs, x);
    assert forall i :: 0 <= i < |r'| ==> r'[i] == r[if i < k then i else i + 1];
    forall i | 0 <= i <= |r'|
      ensures Joined(uvs', Before(r', i), Behind(r', i))
    {
      if i == k {
        assert Before(r', i) == Before(r, k) && Behind(r', i) == Behind(r, k + 1);
      } else {
        var i0 := if i < k then i else i + 1;
        assert Before(r', i) == Before(r, i0) && Behind(r', i) == Behind(r, i0);
        assert Joined(uvs, Before(r, i0), Behind(r, i0));
        RingApart(uvs, r, k, i0);
      }
    }
  }

  /** The links around position `k` are not those at another place of the ring. */
  lemma RingApart(uvs: Heap, r: seq<Id>, k: nat, i: nat)
    requires Ring(uvs, r) && k < |r| && i <= |r| && i != k && i != k + 1
    ensures Before(r, i) != Before(r, k) && Behind(r, i) != Behind(r, k + 1)
  {
  }

  /** A new member goes right behind the head. */
  lemma RingInsert(uvs: Heap, r: seq<Id>, id: Id, uv: UpVal)
    requires Ring(uvs, r) && id !in uvs && uv.u == Links(HEAD, uvs[HEAD].u.next)
    ensures var h := uvs[HEAD].u.next;
      h in uvs && uvs[h].u.Links? && Ring(SetNext(SetPrev(uvs[id := uv], h, id), HEAD, id), [id] + r)
  {
    var h := uvs[HEAD].u.next;
    assert Joined(uvs, Before(r, 0), Behind(r, 0));
    var uvs', r' := SetNext(SetPrev(uvs[id := uv], h, id), HEAD, id), [id] + r;
    assert forall i :: 0 <= i < |r| ==> r'[i + 1] == r[i];
    forall i | 0 <= i <= |r'|
      ensures Joined(uvs', Before(r', i), Behind(r', i))
    {
      if i >= 2 {
        assert Before(r', i) == Before(r, i - 1) && Behind(r', i) == Behind(r, i - 1);
        assert Joined(uvs, Before(r, i - 1), Behind(r, i - 1));
      }
    }
  }

  /** Changes that leave the links alone leave the ring alone. */
  lemma RingStays(uvs: Heap, uvs': Heap, r: seq<Id>)
    requires Ring(uvs, r) && HEAD in uvs' && uvs'[HEAD].u == uvs[HEAD].u && forall x :: x in r ==>
      x in uvs' && uvs'[x].u == uvs[x].u
    ensures Ring(uvs', r)
  {
    forall i | 0 <= i <= |r|
      ensures Joined(uvs', Before(r, i), Behind(r, i))
    {
      assert Joined(uvs, Before(r, i), Behind(r, i));
      assert i < |r| ==> r[i] in r;
      assert i > 0 ==> r[i - 1] in r;
    }
  }
}
