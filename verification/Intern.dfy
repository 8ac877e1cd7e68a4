/** The table of interned strings, while a sweep may be under way. */
module Intern {

  type Id = nat
  type Bytes = seq<bv8>

  /** Colour of a string: one of the two whites, or marked in this cycle. */
  datatype Mark = White(w: bool) | Marked

  datatype Str = Str(content: Bytes, mark: Mark, fixed: bool)

  type Heap = map<Id, Str>

  const MAX_INT: nat := 0x7fff_fffd

  predicate NoDup(q: seq<Id>) {
    forall i, j :: 0 <= i < j < |q| ==> q[i] != q[j]
  }

  /** The string has the white of the cycle that is ending. */
  predicate Dead(s: Str, cw: bool) {
    s.mark == White(!cw)
  }

  function Bucket(hash: Bytes -> nat, size: nat, content: Bytes): (b: nat)
    requires size > 0
    ensures b < size
  {
    hash(content) % size
  }

  /** Each string is in the chain of its hash, once, and nothing else is. */
  ghost predicate Filed(hash: Bytes -> nat, strs: Heap, tb: seq<seq<Id>>) {
    && |tb| > 0
    && (forall b :: 0 <= b < |tb| ==> NoDup(tb[b]))
    && (forall b, x :: 0 <= b < |tb| && x in tb[b] ==> x in strs && Bucket(hash, |tb|, strs[x].content) == b)
    && (forall x :: x in strs ==> x in tb[Bucket(hash, |tb|, strs[x].content)])
  }

  /** At most one string per content. */
  ghost predicate Canonical(strs: Heap) {
    forall x, y :: x in strs && y in strs && strs[x].content == strs[y].content ==> x == y
  }

  /** The chains before `n` have been swept: nothing dead is left there. */
  ghost predicate SweptBelow(strs: Heap, tb: seq<seq<Id>>, cw: bool, n: nat) {
    forall b, x :: 0 <= b < n && b < |tb| && x in tb[b] && x in strs ==> strs[x].mark == White(cw)
  }

  ghost predicate Ok(hash: Bytes -> nat, strs: Heap, tb: seq<seq<Id>>, nuse: nat, cw: bool, sweeping: bool,
                     sweep: nat) {
    && Filed(hash, strs, tb) && Canonical(strs) && nuse == |strs|
    && (sweeping ==> sweep < |tb| && SweptBelow(strs, tb, cw, sweep))
  }

  // ----- Effects -----

  /** A new string at the head of its chain. */
  function Linked(hash: Bytes -> nat, tb: seq<seq<Id>>, id: Id, content: Bytes): seq<seq<Id>>
    requires |tb| > 0
  {
    var b := Bucket(hash, |tb|, content);
    tb[b := [id] + tb[b]]
  }

  lemma LinkOk(hash: Bytes -> nat, strs: Heap, tb: seq<seq<Id>>, nuse: nat, cw: bool, sweeping: bool, sweep: nat,
               id: Id, content: Bytes)
    requires Ok(hash, strs, tb, nuse, cw, sweeping, sweep) && id !in strs && forall x :: x in strs ==>
      strs[x].content != content
    ensures Ok(hash, strs[id := Str(content, White(cw), false)], Linked(hash, tb, id, content), nuse + 1, cw, sweeping,
               sweep)
  {
    hide Filed, Canonical, SweptBelow;
    var strs' := strs[id := Str(content, White(cw), false)];
    assert strs'.Keys == strs.Keys + {id};
    assert |strs'| == |strs'.Keys| && |strs| == |strs.Keys|;
    LinkFiled(hash, strs, tb, cw, id, content);
    LinkCanonical(strs, cw, id, content);
    LinkSwept(hash, strs, tb, cw, sweep, id, content);
  }

  lemma LinkCanonical(strs: Heap, cw: bool, id: Id, content: Bytes)
    requires Canonical(strs) && forall x :: x in strs ==> strs[x].content != content
    ensures Canonical(strs[id := Str(content, White(cw), false)])
  {
  }

  lemma LinkSwept(hash: Bytes -> nat, strs: Heap, tb: seq<seq<Id>>, cw: bool, sweep: nat, id: Id, content: Bytes)
    requires |tb| > 0
    ensures SweptBelow(strs, tb, cw, sweep) ==>
      SweptBelow(strs[id := Str(content, White(cw), false)], Linked(hash, tb, id, content), cw, sweep)
  {
  }

  lemma LinkFiled(hash: Bytes -> nat, strs: Heap, tb: seq<seq<Id>>, cw: bool, id: Id, content: Bytes)
    requires Filed(hash, strs, tb) && id !in strs
    ensures Filed(hash, strs[id := Str(content, White(cw), false)], Linked(hash, tb, id, content))
  {
    var b := Bucket(hash, |tb|, content);
    var strs', tb' := strs[id := Str(content, White(cw), false)], Linked(hash, tb, id, content);
    assert id !in tb[b];
    assert NoDup(tb'[b]);
    forall c, x | 0 <= c < |tb'| && x in tb'[c]
      ensures x in strs' && Bucket(hash, |tb'|, strs'[x].content) == c
    {
      assert x == id || x in tb[c];
    }
    forall x | x in strs'
      ensures x in tb'[Bucket(hash, |tb'|, strs'[x].content)]
    {
      if x != id { assert x in tb[Bucket(hash, |tb|, strs[x].content)]; }
    }
  }

  lemma RecolourFiled(hash: Bytes -> nat, strs: Heap, strs': Heap, tb: seq<seq<Id>>)
    requires Filed(hash, strs, tb) && Canonical(strs) && strs'.Keys == strs.Keys && forall x :: x in strs ==>
      strs'[x].content == strs[x].content
    ensures Filed(hash, strs', tb) && Canonical(strs')
  {
    hide NoDup;
  }

  lemma RecolourSwept(strs: Heap, tb: seq<seq<Id>>, cw: bool, sweep: nat, x: Id)
    requires SweptBelow(strs, tb, cw, sweep) && x in strs
    ensures SweptBelow(strs[x := strs[x].(mark := White(cw))], tb, cw, sweep)
  {
  }

  lemma RecolourOk(hash: Bytes -> nat, strs: Heap, tb: seq<seq<Id>>, nuse: nat, cw: bool, sweeping: bool, sweep: nat,
                   x: Id, m: Mark)
    requires Ok(hash, strs, tb, nuse, cw, sweeping, sweep) && x in strs && (sweeping ==> m == White(cw))
    ensures Ok(hash, strs[x := strs[x].(mark := m)], tb, nuse, cw, sweeping, sweep)
  {
    hide Filed, Canonical, SweptBelow;
    var strs' := strs[x := strs[x].(mark := m)];
    assert strs'.Keys == strs.Keys;
    assert |strs'| == |strs'.Keys| && |strs| == |strs.Keys|;
    RecolourFiled(hash, strs, strs', tb);
    if sweeping { RecolourSwept(strs, tb, cw, sweep, x); }
  }

  // ----- Sweeping a chain -----

  predicate Erased(s: Str, cw: bool) {
    Dead(s, cw) && !s.fixed
  }

  function Survivors(strs: Heap, cw: bool, chain: seq<Id>): (r: seq<Id>)
    ensures forall x :: x in r <==> x in chain && x in strs && !Erased(strs[x], cw)
  {
    if chain == [] then []
    else
      var rest := Survivors(strs, cw, chain[1..]);
      if chain[0] in strs && !Erased(strs[chain[0]], cw) then [chain[0]] + rest else rest
  }

  /** The heap after sweeping a chain: the dead are gone, the others are ready for the next cycle. */
  function SweptHeap(strs: Heap, cw: bool, chain: seq<Id>): Heap {
    map x | x in strs && (x in chain ==> !Erased(strs[x], cw)) :: if x in chain then strs[x].(mark := White(cw))
      else strs[x]
  }

  lemma SweptStrings(strs: Heap, cw: bool, chain: seq<Id>)
    ensures forall x :: x in strs && x in chain ==>
      if strs[x].mark == White(!cw) && !strs[x].fixed then x !in SweptHeap(strs, cw, chain)
      else (x in SweptHeap(strs, cw, chain)
            && SweptHeap(strs, cw, chain)[x] == Str(strs[x].content, White(cw), strs[x].fixed))
    ensures forall x :: x in strs && x !in chain ==>
      x in SweptHeap(strs, cw, chain) && SweptHeap(strs, cw, chain)[x] == strs[x]
  {
  }

  lemma {:induction false} SurvivorsNoDup(strs: Heap, cw: bool, chain: seq<Id>)
    requires NoDup(chain)
    ensures NoDup(Survivors(strs, cw, chain))
  {
    if chain != [] {
      SurvivorsNoDup(strs, cw, chain[1..]);
      assert chain[0] !in chain[1..];
    }
  }

  lemma SweepOk(hash: Bytes -> nat, strs: Heap, tb: seq<seq<Id>>, nuse: nat, cw: bool, sweep: nat, left: nat)
    requires Ok(hash, strs, tb, nuse, cw, true, sweep) && left == |SweptHeap(strs, cw, tb[sweep])|
    ensures var strs', tb' := SweptHeap(strs, cw, tb[sweep]), tb[sweep := Survivors(strs, cw, tb[sweep])];
      Ok(hash, strs', tb', left, cw, sweep + 1 < |tb|, sweep + 1) && SweptBelow(strs', tb', cw, sweep + 1)
  {
    var strs', tb' := SweptHeap(strs, cw, tb[sweep]), tb[sweep := Survivors(strs, cw, tb[sweep])];
    SweepFiled(hash, strs, tb, cw, sweep);
    assert Canonical(strs');
    hide Canonical;
    assert SweptBelow(strs', tb', cw, sweep + 1) by {
      hide Filed, Ok, Bucket;
      forall b, x | 0 <= b < sweep + 1 && b < |tb'| && x in tb'[b] && x in strs'
        ensures strs'[x].mark == White(cw)
      {
        assert x in tb[b] && x in strs;
      }
    }
    hide Filed;
  }

  lemma SweepFiled(hash: Bytes -> nat, strs: Heap, tb: seq<seq<Id>>, cw: bool, sweep: nat)
    requires Filed(hash, strs, tb) && sweep < |tb|
    ensures Filed(hash, SweptHeap(strs, cw, tb[sweep]), tb[sweep := Survivors(strs, cw, tb[sweep])])
  {
    var strs', tb' := SweptHeap(strs, cw, tb[sweep]), tb[sweep := Survivors(strs, cw, tb[sweep])];
    SurvivorsNoDup(strs, cw, tb[sweep]);
    hide NoDup, Survivors;
    forall b, x | 0 <= b < |tb'| && x in tb'[b]
      ensures x in strs' && Bucket(hash, |tb'|, strs'[x].content) == b
    {
      assert x in tb[b];
      assert b != sweep ==> x !in tb[sweep];
    }
    forall x | x in strs'
      ensures x in tb'[Bucket(hash, |tb'|, strs'[x].content)]
    {
      assert x in strs && x in tb[Bucket(hash, |tb|, strs[x].content)];
    }
  }

  // ----- Resizing -----

  /** The new chains hold exactly the strings of `done`. */
  ghost predicate Rehashed(hash: Bytes -> nat, strs: Heap, tb: seq<seq<Id>>, done: set<Id>) {
    && |tb| > 0
    && (forall b :: 0 <= b < |tb| ==> NoDup(tb[b]))
    && (forall b, x :: 0 <= b < |tb| && x in tb[b] ==>
          x in done && x in strs && Bucket(hash, |tb|, strs[x].content) == b)
    && (forall x :: x in done && x in strs ==> x in tb[Bucket(hash, |tb|, strs[x].content)])
  }

  lemma RehashStep(hash: Bytes -> nat, strs: Heap, tb: seq<seq<Id>>, done: set<Id>, x: Id)
    requires Rehashed(hash, strs, tb, done) && x in strs && x !in done
    ensures Rehashed(hash, strs, Linked(hash, tb, x, strs[x].content), done + {x})
  {
  }

  function Elems(q: seq<Id>): set<Id> {
    set x | x in q
  }

  /** The strings of the first `n` chains. */
  function Chained(tb: seq<seq<Id>>, n: nat): set<Id>
    requires n <= |tb|
  {
    if n == 0 then {} else Chained(tb, n - 1) + Elems(tb[n - 1])
  }

  lemma {:induction false} ChainedIn(tb: seq<seq<Id>>, n: nat, x: Id)
    requires n <= |tb|
    ensures x in Chained(tb, n) <==> exists b :: 0 <= b < n && x in tb[b]
  {
    if n > 0 { ChainedIn(tb, n - 1, x); }
  }

  /** A string is met only once when the chains are walked. */
  lemma NotYet(hash: Bytes -> nat, strs: Heap, tb: seq<seq<Id>>, i: nat, j: nat)
    requires Filed(hash, strs, tb) && i < |tb| && j < |tb[i]|
    ensures tb[i][j] in strs && tb[i][j] !in Chained(tb, i) && tb[i][j] !in tb[i][..j]
  {
    assert tb[i][j] in tb[i];
    ChainedIn(tb, i, tb[i][j]);
  }

  lemma RehashDone(hash: Bytes -> nat, strs: Heap, tb: seq<seq<Id>>, newhash: seq<seq<Id>>, done: set<Id>)
    requires Filed(hash, strs, tb) && Rehashed(hash, strs, newhash, done) && done == Chained(tb, |tb|)
    ensures Filed(hash, strs, newhash)
  {
    forall x | x in strs
      ensures x in done
    {
      ChainedIn(tb, |tb|, x);
      assert x in tb[Bucket(hash, |tb|, strs[x].content)];
    }
  }

  lemma {:induction false} SurvivorsAppend(strs: Heap, cw: bool, chain: seq<Id>, x: Id)
    ensures Survivors(strs, cw, chain + [x]) == Survivors(strs, cw,
                                                          chain) + (if x in strs && !Erased(strs[x], cw) then [x]
                                                                    else [])
  {
    if chain != [] {
      assert (chain + [x])[1..] == chain[1..] + [x];
      SurvivorsAppend(strs, cw, chain[1..], x);
    }
  }

  lemma SurvivorsStart(strs: Heap, cw: bool, chain: seq<Id>)
    ensures Survivors(strs, cw, chain[..0]) == [] && SweptHeap(strs, cw, chain[..0]) == strs
  {
  }

  lemma SweepOne(hash: Bytes -> nat, strs: Heap, tb: seq<seq<Id>>, cw: bool, chain: seq<Id>, i: nat)
    requires NoDup(chain) && i < |chain| && chain[i] in strs
    ensures var x, heap := chain[i], SweptHeap(strs, cw, chain[..i]);
      && x in heap && heap[x] == strs[x]
      && Survivors(strs, cw, chain[..i + 1]) == Survivors(strs, cw, chain[..i]) + (if Erased(strs[x], cw) then []
                                                                                   else [x])
      && (Erased(strs[x], cw) ==> SweptHeap(strs, cw, chain[..i + 1]) == heap - {x} && |heap - {x}| == |heap| - 1)
      && (!Erased(strs[x], cw) ==>
            SweptHeap(strs, cw, chain[..i + 1]) == heap[x := strs[x].(mark := White(cw))]
            && |heap[x := strs[x].(mark := White(cw))]| == |heap|)
  {
    var x, heap := chain[i], SweptHeap(strs, cw, chain[..i]);
    assert chain[..i + 1] == chain[..i] + [x];
    assert x !in chain[..i];
    SurvivorsAppend(strs, cw, chain[..i], x);
    SweptOneHeap(strs, cw, chain[..i], x);
  }

  lemma SweptOneHeap(strs: Heap, cw: bool, done: seq<Id>, x: Id)
    requires x in strs && x !in done
    ensures var heap := SweptHeap(strs, cw, done);
      && x in heap && heap[x] == strs[x]
      && (Erased(strs[x], cw) ==> SweptHeap(strs, cw, done + [x]) == heap - {x} && |heap - {x}| == |heap| - 1)
      && (!Erased(strs[x], cw) ==>
            SweptHeap(strs, cw, done + [x]) == heap[x := strs[x].(mark := White(cw))]
            && |heap[x := strs[x].(mark := White(cw))]| == |heap|)
  {
    var heap := SweptHeap(strs, cw, done);
    RemoveSize(heap, x, strs[x].(mark := White(cw)));
    if Erased(strs[x], cw) {
      assert SweptHeap(strs, cw, done + [x]) == heap - {x};
    } else {
      assert SweptHeap(strs, cw, done + [x]) == heap[x := strs[x].(mark := White(cw))];
    }
  }

  lemma RemoveSize(heap: Heap, x: Id, v: Str)
    requires x in heap
    ensures |heap - {x}| == |heap| - 1 && |heap[x := v]| == |heap|
  {
    assert (heap - {x}).Keys == heap.Keys - {x};
    assert |heap - {x}| == |(heap - {x}).Keys| && |heap| == |heap.Keys|;
    assert heap[x := v].Keys == heap.Keys && |heap[x := v]| == |heap[x := v].Keys|;
  }

  lemma SweepAt(hash: Bytes -> nat, strs: Heap, tb: seq<seq<Id>>, nuse: nat, cw: bool, sweep: nat)
    requires Ok(hash, strs, tb, nuse, cw, true, sweep)
    ensures sweep < |tb|
  {
  }

  /** What the program and the collector do with the table. */
  datatype Op = New(str: Bytes, id: Id) | Sweep | MarkOne(x: Id) | Begin | Resized(n: nat)

  lemma TableSize(hash: Bytes -> nat, strs: Heap, tb: seq<seq<Id>>)
    requires Filed(hash, strs, tb)
    ensures |tb| > 0
  {
  }

  lemma RehashStart(hash: Bytes -> nat, strs: Heap, tb: seq<seq<Id>>)
    requires |tb| > 0 && forall b :: 0 <= b < |tb| ==> tb[b] == []
    ensures Rehashed(hash, strs, tb, {})
  {
  }

  /** A string with this content can only be in the chain that is searched. */
  lemma ChainComplete(hash: Bytes -> nat, strs: Heap, tb: seq<seq<Id>>, str: Bytes)
    requires Filed(hash, strs, tb)
    ensures var chain := tb[Bucket(hash, |tb|, str)];
      (forall x :: x in chain ==> x in strs) && (forall x :: x in strs && strs[x].content == str ==> x in chain)
  {
  }

  lemma ChainStrings(hash: Bytes -> nat, strs: Heap, tb: seq<seq<Id>>, b: nat)
    requires Filed(hash, strs, tb) && b < |tb|
    ensures NoDup(tb[b]) && forall x :: x in tb[b] ==> x in strs
  {
  }

  class StringTable {
    var strs: Heap
    var tb: seq<seq<Id>>
    var nuse: nat
    var currentwhite: bool
    /** The collector is in GCSsweepstring. */
    var sweeping: bool
    var sweepstrgc: nat
    const hash: Bytes -> nat

    ghost predicate Valid()
      reads this
    {
      Ok(hash, strs, tb, nuse, currentwhite, sweeping, sweepstrgc)
    }

    constructor (hash: Bytes -> nat, size: nat)
      requires size > 0
      ensures Valid() && strs == map[] && |tb| == size && this.hash == hash && !sweeping
    {
      this.hash := hash;
      strs, nuse, currentwhite, sweeping, sweepstrgc := map[], 0, false, false, 0;
      tb := seq(size, _ => []);
    }

    /** The loops of lstring.c `luaS_resize`. */
    method Rehash(newsize: nat) returns (newhash: seq<seq<Id>>)
      requires Filed(hash, strs, tb) && newsize > 0
      ensures Filed(hash, strs, newhash) && |newhash| == newsize
    {
      hide Filed, Rehashed, NoDup;
      TableSize(hash, strs, tb);
      ghost var done: set<Id> := {};
      newhash := seq(newsize, _ => []);
      RehashStart(hash, strs, newhash);
      var i := 0;
      while i < |tb|
        invariant 0 <= i <= |tb| && |newhash| == newsize && done == Chained(tb, i)
        invariant Rehashed(hash, strs, newhash, done)
      {
        var j := 0;
        ghost var start := done;
        while j < |tb[i]|
          invariant 0 <= j <= |tb[i]| && |newhash| == newsize
          invariant done == start + Elems(tb[i][..j])
          invariant Rehashed(hash, strs, newhash, done)
        {
          var p := tb[i][j];
          NotYet(hash, strs, tb, i, j);
          assert tb[i][..j + 1] == tb[i][..j] + [p];
          RehashStep(hash, strs, newhash, done, p);
          newhash := Linked(hash, newhash, p, strs[p].content);
          done := done + {p};
          j := j + 1;
        }
        assert tb[i][..j] == tb[i];
        i := i + 1;
      }
      RehashDone(hash, strs, tb, newhash, done);
    }

    /** lstring.c `luaS_resize`: nothing happens while the table is being swept. */
    method Resize(newsize: nat)
      requires Valid() && newsize > 0
      modifies `tb
      ensures Valid() && if sweeping then tb == old(tb) else |tb| == newsize
    {
      hide Filed, Canonical, SweptBelow;
      if sweeping {
        return;
      }
      tb := Rehash(newsize);
    }

    /** The search loop of lstring.c `luaS_newlstr`. */
    method Search(str: Bytes) returns (found: bool, r: Id)
      requires Filed(hash, strs, tb)
      ensures found ==> r in strs && strs[r].content == str
      ensures !found ==> forall x :: x in strs ==> strs[x].content != str
    {
      hide Filed, Bucket;
      TableSize(hash, strs, tb);
      ChainComplete(hash, strs, tb, str);
      var chain := tb[Bucket(hash, |tb|, str)];
      var i := 0;
      while i < |chain|
        invariant 0 <= i <= |chain| && forall j :: 0 <= j < i ==> strs[chain[j]].content != str
      {
        r := chain[i];
        if strs[r].content == str {
          return true, r;
        }
        i := i + 1;
      }
      found, r := false, 0;
    }

    /** lstring.c `luaS_newlstr`: the one string with this content, never a dead one. */
    method NewLstr(str: Bytes, newId: Id) returns (r: Id)
      requires Valid() && newId !in strs
      modifies `strs, `tb, `nuse
      ensures Valid() && r in strs && strs[r].content == str && !Dead(strs[r], currentwhite)
      ensures forall x :: x in old(strs) ==>
        x in strs && strs[x].content == old(strs)[x].content && strs[x].fixed == old(strs)[x].fixed
          && (x != r || !Dead(old(strs)[x], currentwhite) ==> strs[x] == old(strs)[x])
      ensures (exists x :: x in old(strs) && old(strs)[x].content == str) ==>
        r in old(strs) && strs.Keys == old(strs).Keys
      ensures r !in old(strs) ==> r == newId && strs.Keys == old(strs).Keys + {newId}
      ensures r in old(strs) ==>
        strs.Keys == old(strs).Keys && exists x :: x in old(strs) && old(strs)[x].content == str
    {
      hide Filed, SweptBelow, Canonical;
      var found;
      found, r := Search(str);
      if found {
        if Dead(strs[r], currentwhite) {
          RecolourOk(hash, strs, tb, nuse, currentwhite, sweeping, sweepstrgc, r, White(currentwhite));
          hide Ok;
          strs := strs[r := strs[r].(mark := White(currentwhite))];
        }
        return;
      }
      hide Ok;
      NewStr(str, newId);
      r := newId;
    }

    /** lstring.c `newlstr`. */
    method NewStr(str: Bytes, newId: Id)
      requires Valid() && newId !in strs && forall x :: x in strs ==> strs[x].content != str
      modifies `strs, `tb, `nuse
      ensures Valid() && strs == old(strs)[newId := Str(str, White(currentwhite), false)]
    {
      hide Filed, SweptBelow, Canonical;
      TableSize(hash, strs, tb);
      LinkOk(hash, strs, tb, nuse, currentwhite, sweeping, sweepstrgc, newId, str);
      hide Ok;
      strs := strs[newId := Str(str, White(currentwhite), false)];
      tb := Linked(hash, tb, newId, str);
      nuse := nuse + 1;
      if nuse > |tb| && |tb| <= MAX_INT / 2 {
        Resize(|tb| * 2);
      }
    }

    /** lgc.c `sweepwholelist` on a chain of strings. */
    method SweepChain(chain: seq<Id>) returns (heap: Heap, kept: seq<Id>, n: nat)
      requires NoDup(chain) && nuse == |strs| && forall x :: x in chain ==> x in strs
      ensures heap == SweptHeap(strs, currentwhite, chain) && kept == Survivors(strs, currentwhite, chain)
        && n == |heap|
    {
      hide SweptHeap, Survivors, NoDup, Erased;
      SurvivorsStart(strs, currentwhite, chain);
      var i := 0;
      kept := [];
      heap, n := strs, nuse;
      while i < |chain|
        invariant 0 <= i <= |chain| && kept == Survivors(strs, currentwhite, chain[..i])
        invariant heap == SweptHeap(strs, currentwhite, chain[..i]) && n == |heap|
      {
        var x := chain[i];
        SweepOne(hash, strs, tb, currentwhite, chain, i);
        if Erased(strs[x], currentwhite) {
          heap := heap - {x};
          n := n - 1;
        } else {
          heap := heap[x := heap[x].(mark := White(currentwhite))];
          kept := kept + [x];
        }
        i := i + 1;
      }
      assert chain[..i] == chain;
    }

    /** lgc.c GCSsweepstring: sweep one chain. The dead strings in it that are not fixed are freed and no others,
        and the white of its strings is the one of the next cycle. */
    method SweepStep()
      requires Valid() && sweeping && sweepstrgc < |tb|
      modifies `strs, `tb, `nuse, `sweeping, `sweepstrgc
      ensures Valid() && strs == SweptHeap(old(strs), currentwhite, old(tb)[old(sweepstrgc)])
      ensures sweeping <==> old(sweepstrgc) + 1 < |tb|
      ensures |tb| == |old(tb)| && sweepstrgc == old(sweepstrgc) + 1
      ensures forall x :: x in old(strs) && x in old(tb)[old(sweepstrgc)] ==>
        if old(strs)[x].mark == White(!currentwhite) && !old(strs)[x].fixed then x !in strs
        else (x in strs && strs[x] == Str(old(strs)[x].content, White(currentwhite), old(strs)[x].fixed))
      ensures forall x :: x in old(strs) && x !in old(tb)[old(sweepstrgc)] ==> x in strs && strs[x] == old(strs)[x]
    {
      hide Filed, SweptHeap, Survivors, SweptBelow, NoDup, Canonical;
      ChainStrings(hash, strs, tb, sweepstrgc);
      var heap, kept, n := SweepChain(tb[sweepstrgc]);
      SweepOk(hash, strs, tb, nuse, currentwhite, sweepstrgc, n);
      SweptStrings(strs, currentwhite, tb[sweepstrgc]);
      hide Ok;
      tb := tb[sweepstrgc := kept];
      strs := heap;
      nuse := n;
      sweepstrgc := sweepstrgc + 1;
      if sweepstrgc >= |tb| {
        sweeping := false;
      }
    }

    /** The collector marks a string; not while strings are swept. */
    method MarkString(x: Id)
      requires Valid() && !sweeping && x in strs
      modifies `strs
      ensures Valid() && strs == old(strs)[x := old(strs)[x].(mark := Marked)]
    {
      RecolourOk(hash, strs, tb, nuse, currentwhite, sweeping, sweepstrgc, x, Marked);
      hide Ok;
      strs := strs[x := strs[x].(mark := Marked)];
    }

    /** The end of lgc.c `atomic`: the whites change and the sweep of strings begins. */
    method BeginSweep()
      requires Valid() && !sweeping
      modifies `currentwhite, `sweeping, `sweepstrgc
      ensures Valid() && sweeping && sweepstrgc == 0 && currentwhite == !old(currentwhite)
    {
      currentwhite := !currentwhite;
      sweepstrgc := 0;
      sweeping := true;
    }

    /** Any run: each operation does what it should, the table stays canonical throughout, and a
        string that luaS_newlstr has returned is there with its content, and is not dead, until a
        new sweep begins. */
    method Run(ops: seq<Op>) returns (results: seq<Result>, ghost trace: seq<State>)
      requires Valid()
      modifies this
      ensures |results| == |ops| && |trace| == |ops| + 1 && trace[0] == old(View()) && trace[|ops|] == View()
      ensures forall i :: 0 <= i <= |ops| ==> StateOk(hash, trace[i])
      ensures forall i :: 0 <= i < |ops| ==> Stepped(hash, trace[i], ops[i], results[i], trace[i + 1])
      ensures forall i, j :: 0 <= i < j <= |ops| && results[i].Interned? && Quiet(trace, ops, i + 1, j) ==>
        Kept(trace[j], results[i].id, ops[i])
    {
      hide Ok, Stepped, Kept, StateOk;
      results, trace := [], [View()];
      var n := 0;
      assert StateOk(hash, View()) by { ViewOk(hash, View()); }
      while n < |ops|
        invariant 0 <= n <= |ops| && Valid() && |results| == n && |trace| == n + 1 && trace[0] == old(View())
          && trace[n] == View()
        invariant forall i :: 0 <= i <= n ==> StateOk(hash, trace[i])
        invariant forall i :: 0 <= i < n ==> Stepped(hash, trace[i], ops[i], results[i], trace[i + 1])
        invariant forall i, j :: 0 <= i < j <= n && results[i].Interned? && Quiet(trace, ops, i + 1, j) ==>
          Kept(trace[j], results[i].id, ops[i])
      {
        ghost var before := trace;
        var r := Perform(ops[n]);
        ViewOk(hash, View());
        results, trace := results + [r], trace + [View()];
        forall i, j | 0 <= i < j <= n + 1 && results[i].Interned? && Quiet(trace, ops, i + 1, j)
          ensures Kept(trace[j], results[i].id, ops[i])
        {
          if j <= n {
            QuietBefore(before, trace, ops, i + 1, j);
          } else if i == n {
            KeptFirst(hash, trace[n], ops[n], r, trace[n + 1]);
          } else {
            QuietBefore(before, trace, ops, i + 1, n);
            KeptOn(hash, trace[n], ops[n], r, trace[n + 1], results[i].id, ops[i]);
          }
        }
        n := n + 1;
      }
    }

    ghost function View(): State
      reads this
    {
      State(strs, tb, nuse, currentwhite, sweeping, sweepstrgc)
    }

    method Perform(op: Op) returns (r: Result)
      requires Valid()
      modifies this
      ensures Valid() && Stepped(hash, old(View()), op, r, View())
    {
      hide Ok, SweptHeap;
      r := Nothing;
      match op
      case New(str, id) =>
        if id !in strs {
          var x := NewLstr(str, id);
          r := Interned(x);
        }
      case Sweep =>
        if sweeping {
          SweepAt(hash, strs, tb, nuse, currentwhite, sweepstrgc);
          SweepStep();
        }
      case MarkOne(x) =>
        if !sweeping && x in strs { MarkString(x); }
      case Begin =>
        if !sweeping { BeginSweep(); }
      case Resized(n) =>
        if n > 0 { Resize(n); }
    }
  }

  /** What a call returned. */
  datatype Result = Interned(id: Id) | Nothing

  datatype State = State(strs: Heap, tb: seq<seq<Id>>, nuse: nat, cw: bool, sweeping: bool, sweep: nat)

  ghost predicate StateOk(hash: Bytes -> nat, s: State) {
    Ok(hash, s.strs, s.tb, s.nuse, s.cw, s.sweeping, s.sweep)
  }

  lemma ViewOk(hash: Bytes -> nat, s: State)
    requires Ok(hash, s.strs, s.tb, s.nuse, s.cw, s.sweeping, s.sweep)
    ensures StateOk(hash, s)
  {
  }

  /** The one string with the content, brought back if it was dead; all others as they were. */
  ghost predicate NewDone(s: State, str: Bytes, id: Id, r: Id, t: State) {
    && r in t.strs && t.strs[r].content == str && !Dead(t.strs[r], t.cw) && t.cw == s.cw && t.sweeping == s.sweeping
    && (forall x :: x in s.strs ==>
          x in t.strs && t.strs[x].content == s.strs[x].content && t.strs[x].fixed == s.strs[x].fixed
            && (x != r || !Dead(s.strs[x], s.cw) ==> t.strs[x] == s.strs[x]))
    && (if exists x :: x in s.strs && s.strs[x].content == str then r in s.strs && t.strs.Keys == s.strs.Keys
        else r == id && t.strs.Keys == s.strs.Keys + {id})
  }

  /** What one operation does; one that is not possible does nothing. */
  ghost predicate Stepped(hash: Bytes -> nat, s: State, op: Op, r: Result, t: State) {
    match op
    case New(str, id) => if id in s.strs then t == s && r == Nothing else r.Interned? && NewDone(s, str, id, r.id, t)
    case Sweep =>
      r == Nothing && if !s.sweeping then t == s
        else s.sweep < |s.tb| && t.strs == SweptHeap(s.strs, s.cw,
                                                     s.tb[s.sweep]) && t.cw == s.cw && t.sweep == s.sweep + 1
                                                       && (t.sweeping <==> t.sweep < |s.tb|)
    case MarkOne(x) => r == Nothing && t ==
        if !s.sweeping && x in s.strs then s.(strs := s.strs[x := s.strs[x].(mark := Marked)]) else s
    case Begin => r == Nothing && t == if Begins(s, op) then s.(cw := !s.cw, sweeping := true, sweep := 0) else s
    case Resized(n) => r == Nothing && t == s.(tb := t.tb) && |t.tb| == if s.sweeping || n == 0 then |s.tb| else n
  }

  /** A sweep begins. */
  predicate Begins(s: State, op: Op) {
    op.Begin? && !s.sweeping
  }

  /** No sweep begins in the operations from `i` up to `j`. */
  ghost predicate Quiet(trace: seq<State>, ops: seq<Op>, i: nat, j: nat) {
    j <= |trace| && j <= |ops| && forall k :: i <= k < j ==> !Begins(trace[k], ops[k])
  }

  /** The string is there with the content it was asked for, and is not dead. */
  ghost predicate Kept(s: State, x: Id, op: Op) {
    op.New? && x in s.strs && s.strs[x].content == op.str && !Dead(s.strs[x], s.cw)
  }

  lemma QuietBefore(before: seq<State>, trace: seq<State>, ops: seq<Op>, i: nat, j: nat)
    requires before <= trace && j <= |before|
    ensures Quiet(trace, ops, i, j) ==> Quiet(before, ops, i, j)
  {
  }

  lemma KeptFirst(hash: Bytes -> nat, s: State, op: Op, r: Result, t: State)
    requires Stepped(hash, s, op, r, t) && r.Interned?
    ensures Kept(t, r.id, op)
  {
  }

  /** Only the beginning of a sweep makes strings dead, and only dead ones are freed. */
  lemma KeptOn(hash: Bytes -> nat, s: State, op: Op, r: Result, t: State, x: Id, was: Op)
    requires Stepped(hash, s, op, r, t) && Kept(s, x, was) && !Begins(s, op)
    ensures Kept(t, x, was)
  {
  }

  // ----- What is dead when a sweep begins is gone when it ends -----

  /** A run as `Run` records it. */
  ghost predicate Recorded(hash: Bytes -> nat, trace: seq<State>, ops: seq<Op>, results: seq<Result>) {
    && |trace| == |ops| + 1 && |results| == |ops|
    && (forall i :: 0 <= i <= |ops| ==> StateOk(hash, trace[i]))
    && (forall i :: 0 <= i < |ops| ==> Stepped(hash, trace[i], ops[i], results[i], trace[i + 1]))
  }

  /** The string is gone, or its sweep is still to come. */
  predicate Leaving(s: State, x: Id) {
    x in s.strs ==> s.sweeping && s.strs[x].mark == White(!s.cw) && !s.strs[x].fixed
  }

  /** A string that is not fixed and has the white of the cycle that ends when a sweep begins, and that no
      luaS_newlstr has returned since, is not in the table once no sweep is under way: whatever else the program
      does meanwhile, and however the table is resized. */
  lemma {:induction false} DeadGoes(hash: Bytes -> nat, trace: seq<State>, ops: seq<Op>, results: seq<Result>,
                                    i: nat, j: nat, x: Id)
    requires Recorded(hash, trace, ops, results) && i < j <= |ops| && Begins(trace[i], ops[i])
    requires x in trace[i].strs && trace[i].strs[x].mark == White(trace[i].cw) && !trace[i].strs[x].fixed
    requires forall k :: i < k < j ==> results[k] != Interned(x)
    ensures trace[j].sweeping || x !in trace[j].strs
  {
    LeavingAt(hash, trace, ops, results, i, j, x);
  }

  lemma {:induction false} LeavingAt(hash: Bytes -> nat, trace: seq<State>, ops: seq<Op>, results: seq<Result>,
                                     i: nat, j: nat, x: Id)
    requires Recorded(hash, trace, ops, results) && i < j <= |ops| && Begins(trace[i], ops[i])
    requires x in trace[i].strs && trace[i].strs[x].mark == White(trace[i].cw) && !trace[i].strs[x].fixed
    requires forall k :: i < k < j ==> results[k] != Interned(x)
    ensures Leaving(trace[j], x)
    decreases j
  {
    assert Stepped(hash, trace[j - 1], ops[j - 1], results[j - 1], trace[j - 1 + 1]);
    if j == i + 1 {
    } else {
      LeavingAt(hash, trace, ops, results, i, j - 1, x);
      assert results[j - 1] != Interned(x) && StateOk(hash, trace[j - 1]);
      LeavingOn(hash, trace[j - 1], ops[j - 1], results[j - 1], trace[j], x);
    }
  }

  lemma LeavingOn(hash: Bytes -> nat, s: State, op: Op, r: Result, t: State, x: Id)
    requires StateOk(hash, s) && Stepped(hash, s, op, r, t) && Leaving(s, x) && r != Interned(x)
    ensures Leaving(t, x)
  {
    hide Filed, Canonical, SweptBelow, NoDup;
    if op.Sweep? && s.sweeping && x in s.strs {
      LeavingSwept(hash, s, r, t, x);
    } else {
      hide Ok, StateOk, SweptHeap;
    }
  }

  lemma LeavingSwept(hash: Bytes -> nat, s: State, r: Result, t: State, x: Id)
    requires StateOk(hash, s) && s.sweeping && Stepped(hash, s, Sweep, r, t) && x in s.strs && Leaving(s, x)
    ensures Leaving(t, x)
  {
    SweptStrings(s.strs, s.cw, s.tb[s.sweep]);
    hide NoDup, Canonical, SweptHeap;
    assert x in s.tb[Bucket(hash, |s.tb|, s.strs[x].content)];
  }
}
