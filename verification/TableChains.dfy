/** The hash part of a Lua table: a chained scatter table with Brent's variation. */
module TableChains {

  /** Keys: numbers that convert to an integer exactly, and all others by identity. */
  datatype Key = KNil | KNaN | KInt(i: int) | KOther(id: int)

  datatype Value = VNil | Val(v: int)

  datatype Node = Node(key: Key, val: Value, next: int)

  const NONE: int := -1

  /** The hash function is a parameter: any function of the key and the size. */
  type Hash = (Key, nat) -> nat

  function MainPos(hash: Hash, size: nat, key: Key): (m: nat)
    requires size > 0
    ensures m < size
  {
    hash(key, size) % size
  }

  // ----- Chains -----

  /** `q` follows the links. */
  ghost predicate Path(nodes: seq<Node>, q: seq<nat>) {
    && |q| > 0 && (forall k :: 0 <= k < |q| ==> q[k] < |nodes|)
    && forall k :: 0 <= k < |q| - 1 ==> nodes[q[k]].next == q[k + 1]
  }

  ghost predicate PathTo(nodes: seq<Node>, q: seq<nat>, i: nat, j: nat) {
    Path(nodes, q) && q[0] == i && q[|q| - 1] == j
  }

  ghost predicate Reaches(nodes: seq<Node>, i: nat, j: nat) {
    exists q :: PathTo(nodes, q, i, j)
  }

  /** The chain from `i` ends. */
  ghost predicate Ends(nodes: seq<Node>, i: nat) {
    exists q :: Chain(nodes, q, i)
  }

  ghost predicate Chain(nodes: seq<Node>, q: seq<nat>, i: nat) {
    Path(nodes, q) && q[0] == i && nodes[q[|q| - 1]].next == NONE
  }

  predicate Keyed(nodes: seq<Node>, i: nat) {
    i < |nodes| && nodes[i].key != KNil
  }

  ghost predicate InRange(nodes: seq<Node>) {
    forall i :: 0 <= i < |nodes| ==> NONE <= nodes[i].next < |nodes|
  }

  /** At most one link leads to each node. */
  ghost predicate OneIn(nodes: seq<Node>) {
    forall i, j :: 0 <= i < j < |nodes| ==> nodes[i].next != nodes[j].next || nodes[i].next == NONE
  }

  ghost predicate AllEnd(nodes: seq<Node>) {
    forall i :: 0 <= i < |nodes| ==> Ends(nodes, i)
  }

  ghost predicate Distinct(nodes: seq<Node>) {
    forall i, j :: 0 <= i < j < |nodes| && Keyed(nodes, i) ==> nodes[i].key != nodes[j].key
  }

  ghost predicate AllFound(hash: Hash, nodes: seq<Node>) {
    forall j :: 0 <= j < |nodes| && Keyed(nodes, j) ==> Reaches(nodes, MainPos(hash, |nodes|, nodes[j].key), j)
  }

  /** A free node has no value and is in no chain. */
  ghost predicate FreeAlone(nodes: seq<Node>) {
    && (forall i :: 0 <= i < |nodes| && nodes[i].key == KNil ==> nodes[i].val == VNil && nodes[i].next == NONE)
    && (forall i :: 0 <= i < |nodes| && nodes[i].next != NONE ==>
          Keyed(nodes, i) && 0 <= nodes[i].next && Keyed(nodes, nodes[i].next))
  }

  predicate AtHome(hash: Hash, nodes: seq<Node>, i: nat) {
    i < |nodes| && nodes[i].key != KNil && MainPos(hash, |nodes|, nodes[i].key) == i
  }

  /** An element outside its main position implies that that position's occupant is in its own. */
  ghost predicate Brent(hash: Hash, nodes: seq<Node>) {
    forall j :: 0 <= j < |nodes| && Keyed(nodes, j) ==> AtHome(hash, nodes, MainPos(hash, |nodes|, nodes[j].key))
  }

  ghost predicate NoNaN(nodes: seq<Node>) {
    forall i :: 0 <= i < |nodes| ==> nodes[i].key != KNaN
  }

  ghost predicate Scatter(hash: Hash, nodes: seq<Node>) {
    && |nodes| > 0 && InRange(nodes) && OneIn(nodes) && AllEnd(nodes) && Distinct(nodes) && AllFound(hash, nodes)
    && FreeAlone(nodes) && Brent(hash, nodes) && NoNaN(nodes)
  }

  // ----- Following links -----

  lemma ReachesSelf(nodes: seq<Node>, i: nat)
    requires i < |nodes|
    ensures Reaches(nodes, i, i)
  {
    assert PathTo(nodes, [i], i, i);
  }

  lemma ReachesStep(nodes: seq<Node>, i: nat, j: nat)
    requires i < |nodes| && InRange(nodes) && nodes[i].next != NONE && Reaches(nodes, nodes[i].next, j)
    ensures Reaches(nodes, i, j)
  {
    var q :| PathTo(nodes, q, nodes[i].next, j);
    assert PathTo(nodes, [i] + q, i, j);
  }

  lemma PathTail(nodes: seq<Node>, q: seq<nat>, i: nat, j: nat)
    requires PathTo(nodes, q, i, j) && |q| > 1
    ensures i < |nodes| && nodes[i].next == q[1] && PathTo(nodes, q[1..], q[1], j)
  {
    assert nodes[q[0]].next == q[0 + 1];
    assert forall k :: 0 <= k < |q[1..]| ==> q[1..][k] == q[k + 1];
  }

  /** A node that is reached is the node itself or reached from the next one. */
  lemma ReachesNext(nodes: seq<Node>, i: nat, j: nat)
    requires Reaches(nodes, i, j) && i != j
    ensures i < |nodes| && nodes[i].next >= 0 && Reaches(nodes, nodes[i].next, j)
  {
    var q :| PathTo(nodes, q, i, j);
    PathTail(nodes, q, i, j);
  }

  lemma ChainTail(nodes: seq<Node>, q: seq<nat>, i: nat)
    requires Chain(nodes, q, i) && nodes[i].next != NONE
    ensures |q| > 1 && nodes[i].next == q[1] && Chain(nodes, q[1..], q[1])
  {
    assert |q| > 1;
    assert nodes[q[0]].next == q[0 + 1];
    assert forall k :: 0 <= k < |q[1..]| ==> q[1..][k] == q[k + 1];
  }

  lemma EndsHere(nodes: seq<Node>, i: nat)
    requires i < |nodes| && nodes[i].next == NONE
    ensures Ends(nodes, i)
  {
    assert Chain(nodes, [i], i);
  }

  lemma EndsStep(nodes: seq<Node>, i: nat)
    requires i < |nodes| && InRange(nodes) && nodes[i].next != NONE && Ends(nodes, nodes[i].next)
    ensures Ends(nodes, i)
  {
    var q :| Chain(nodes, q, nodes[i].next);
    assert Chain(nodes, [i] + q, i);
  }

  lemma ChainNext(nodes: seq<Node>, q: seq<nat>, i: nat)
    requires Chain(nodes, q, i)
    ensures nodes[i].next == if |q| > 1 then q[1] else NONE
  {
    if |q| > 1 { assert nodes[q[0]].next == q[0 + 1]; }
  }

  /** A chain that ends is the only one from its node. */
  lemma {:induction false} ChainUnique(nodes: seq<Node>, q: seq<nat>, r: seq<nat>, i: nat)
    requires Chain(nodes, q, i) && Chain(nodes, r, i)
    ensures q == r
    decreases |q|
  {
    if nodes[i].next == NONE {
      ChainNext(nodes, q, i);
      ChainNext(nodes, r, i);
      assert q == [i] && r == [i];
    } else {
      ChainTail(nodes, q, i);
      ChainTail(nodes, r, i);
      ChainUnique(nodes, q[1..], r[1..], nodes[i].next);
      assert q == [i] + q[1..] && r == [i] + r[1..];
    }
  }

  /** A chain never returns to one of its nodes. */
  lemma NoLoop(nodes: seq<Node>, q: seq<nat>, i: nat)
    requires Chain(nodes, q, i)
    ensures forall a, b :: 0 <= a < b < |q| ==> q[a] != q[b]
    ensures nodes[i].next != i
  {
    forall a, b | 0 <= a < b < |q|
      ensures q[a] != q[b]
    {
      ChainSuffix(nodes, q, i, a);
      ChainSuffix(nodes, q, i, b);
      assert |q[a..]| != |q[b..]|;
      if q[a] == q[b] { ChainUnique(nodes, q[a..], q[b..], q[a]); }
    }
    ChainNext(nodes, q, i);
  }

  lemma ChainSuffix(nodes: seq<Node>, q: seq<nat>, i: nat, a: nat)
    requires Chain(nodes, q, i) && a < |q|
    ensures Chain(nodes, q[a..], q[a])
  {
    assert forall k :: 0 <= k < |q[a..]| ==> q[a..][k] == q[a + k];
    forall k | 0 <= k < |q[a..]| - 1
      ensures nodes[q[a..][k]].next == q[a..][k + 1]
    {
      assert nodes[q[a + k]].next == q[a + k + 1];
    }
  }

  // ----- Changes that keep the links -----

  ghost predicate SameLinks(nodes: seq<Node>, nodes': seq<Node>) {
    |nodes'| == |nodes| && forall i :: 0 <= i < |nodes| ==> nodes'[i].next == nodes[i].next
  }

  lemma SameReach(nodes: seq<Node>, nodes': seq<Node>)
    requires SameLinks(nodes, nodes')
    ensures forall i, j :: Reaches(nodes, i, j) ==> Reaches(nodes', i, j)
    ensures forall i :: Ends(nodes, i) ==> Ends(nodes', i)
  {
    forall i, j | Reaches(nodes, i, j)
      ensures Reaches(nodes', i, j)
    {
      var q :| PathTo(nodes, q, i, j);
      assert PathTo(nodes', q, i, j);
    }
    forall i | Ends(nodes, i)
      ensures Ends(nodes', i)
    {
      var q :| Chain(nodes, q, i);
      assert Chain(nodes', q, i);
    }
  }

  /** Storing a value. */
  lemma StoreKeeps(hash: Hash, nodes: seq<Node>, i: nat, v: Value)
    requires Scatter(hash, nodes) && Keyed(nodes, i)
    ensures Scatter(hash, nodes[i := nodes[i].(val := v)])
  {
    hide Reaches, Ends, FreeAlone, OneIn, Distinct, Brent, AllFound, AllEnd;
    var nodes' := nodes[i := nodes[i].(val := v)];
    assert forall j :: 0 <= j < |nodes| ==> nodes'[j].key == nodes[j].key && nodes'[j].next == nodes[j].next;
    SameReach(nodes, nodes');
    StoreChains(nodes, nodes', i);
    SameKeys(hash, nodes, nodes');
  }

  lemma StoreChains(nodes: seq<Node>, nodes': seq<Node>, i: nat)
    requires |nodes'| == |nodes| && Keyed(nodes, i) && AllEnd(nodes) && FreeAlone(nodes) && Distinct(nodes)
      && OneIn(nodes)
    requires forall j :: 0 <= j < |nodes| ==>
      nodes'[j].key == nodes[j].key && nodes'[j].next == nodes[j].next && (j != i ==> nodes'[j].val == nodes[j].val)
    requires forall j :: Ends(nodes, j) ==> Ends(nodes', j)
    ensures AllEnd(nodes') && FreeAlone(nodes') && Distinct(nodes') && OneIn(nodes')
  {
    hide Ends;
    StoreFree(nodes, nodes', i);
    hide FreeAlone;
    assert AllEnd(nodes') && Distinct(nodes');
    hide AllEnd, Distinct;
    assert OneIn(nodes');
  }

  lemma StoreFree(nodes: seq<Node>, nodes': seq<Node>, i: nat)
    requires |nodes'| == |nodes| && Keyed(nodes, i) && FreeAlone(nodes)
    requires forall j :: 0 <= j < |nodes| ==>
      nodes'[j].key == nodes[j].key && nodes'[j].next == nodes[j].next && (j != i ==> nodes'[j].val == nodes[j].val)
    ensures FreeAlone(nodes')
  {
    forall j | 0 <= j < |nodes| && nodes'[j].next != NONE
      ensures Keyed(nodes', j) && 0 <= nodes'[j].next && Keyed(nodes', nodes'[j].next)
    {
      assert Keyed(nodes, j) && Keyed(nodes, nodes[j].next);
    }
  }

  lemma SameKeys(hash: Hash, nodes: seq<Node>, nodes': seq<Node>)
    requires |nodes| > 0 && |nodes'| == |nodes| && Brent(hash, nodes) && AllFound(hash, nodes)
    requires forall j :: 0 <= j < |nodes| ==> nodes'[j].key == nodes[j].key
    requires forall i, j :: Reaches(nodes, i, j) ==> Reaches(nodes', i, j)
    ensures Brent(hash, nodes') && AllFound(hash, nodes')
  {
    hide Reaches;
    forall j | 0 <= j < |nodes| && Keyed(nodes', j)
      ensures AtHome(hash, nodes', MainPos(hash, |nodes'|, nodes'[j].key))
        && Reaches(nodes', MainPos(hash, |nodes'|, nodes'[j].key), j)
    {
      assert Keyed(nodes, j);
    }
  }

  // ----- newkey -----

  ghost predicate NoKey(nodes: seq<Node>, key: Key) {
    forall i :: 0 <= i < |nodes| ==> nodes[i].key != key
  }

  lemma PlaceChains(nodes: seq<Node>, key: Key, m: nat)
    requires m < |nodes| && AllEnd(nodes) && FreeAlone(nodes) && Distinct(nodes) && OneIn(nodes) && NoKey(nodes, key)
      && key != KNil
    requires forall j :: Ends(nodes, j) ==> Ends(nodes[m := nodes[m].(key := key)], j)
    ensures var nodes' := nodes[m := nodes[m].(key := key)];
      AllEnd(nodes') && FreeAlone(nodes') && Distinct(nodes') && OneIn(nodes')
  {
    hide Ends;
    var nodes' := nodes[m := nodes[m].(key := key)];
    assert FreeAlone(nodes') by {
      forall i | 0 <= i < |nodes| && nodes'[i].next != NONE
        ensures Keyed(nodes', i) && 0 <= nodes'[i].next && Keyed(nodes', nodes'[i].next)
      {
        assert Keyed(nodes, i) && Keyed(nodes, nodes[i].next);
      }
    }
    hide FreeAlone;
    forall i | 0 <= i < |nodes'|
      ensures Ends(nodes', i)
    {
      assert Ends(nodes, i);
    }
    hide AllEnd;
    assert Distinct(nodes');
    hide Distinct;
    assert OneIn(nodes');
  }

  lemma PlaceHomes(hash: Hash, nodes: seq<Node>, key: Key)
    requires |nodes| > 0 && Brent(hash, nodes) && AllFound(hash, nodes) && key != KNil
    requires var m := MainPos(hash, |nodes|, key); var nodes' := nodes[m := nodes[m].(key := key)];
      Reaches(nodes', m, m) && forall i, j :: Reaches(nodes, i, j) ==> Reaches(nodes', i, j)
    ensures var m := MainPos(hash, |nodes|, key);
      var nodes' := nodes[m := nodes[m].(key := key)]; Brent(hash, nodes') && AllFound(hash, nodes')
  {
    hide Reaches;
    var m := MainPos(hash, |nodes|, key);
    var nodes' := nodes[m := nodes[m].(key := key)];
    forall j | 0 <= j < |nodes| && Keyed(nodes', j)
      ensures AtHome(hash, nodes', MainPos(hash, |nodes'|, nodes'[j].key))
        && Reaches(nodes', MainPos(hash, |nodes'|, nodes'[j].key), j)
    {
      if j != m { assert Keyed(nodes, j); }
    }
  }

  /** The main position holds no value: the key goes there. */
  lemma PlaceKeeps(hash: Hash, nodes: seq<Node>, key: Key)
    requires Scatter(hash, nodes) && key != KNil && key != KNaN && NoKey(nodes, key)
    requires nodes[MainPos(hash, |nodes|, key)].val == VNil
    ensures var m := MainPos(hash, |nodes|, key); Scatter(hash, nodes[m := nodes[m].(key := key)])
  {
    hide Reaches, Ends, FreeAlone, OneIn, Distinct, Brent, AllFound, AllEnd, NoKey;
    var m := MainPos(hash, |nodes|, key);
    var nodes' := nodes[m := nodes[m].(key := key)];
    SameReach(nodes, nodes');
    ReachesSelf(nodes', m);
    PlaceChains(nodes, key, m);
    PlaceHomes(hash, nodes, key);
  }

  // ----- The occupant of the main position is at home: the key goes to a free node behind it -----

  function Inserted(nodes: seq<Node>, m: nat, n: nat, key: Key): seq<Node>
    requires m < |nodes| && n < |nodes|
  {
    nodes[n := Node(key, VNil, nodes[m].next)][m := nodes[m].(next := n)]
  }

  lemma {:induction false} InsertPath(nodes: seq<Node>, m: nat, n: nat, key: Key, q: seq<nat>, i: nat, j: nat)
    requires InRange(nodes) && FreeAlone(nodes) && m < |nodes| && n < |nodes| && m != n && nodes[n].key == KNil
    requires PathTo(nodes, q, i, j)
    ensures Reaches(Inserted(nodes, m, n, key), i, j)
    decreases |q|
  {
    var nodes' := Inserted(nodes, m, n, key);
    if |q| == 1 {
      ReachesSelf(nodes', i);
    } else {
      PathTail(nodes, q, i, j);
      InsertPath(nodes, m, n, key, q[1..], q[1], j);
      assert i != n;
      hide Reaches;
      if i == m {
        ReachesStep(nodes', n, j);
      }
      ReachesStep(nodes', i, j);
    }
  }

  lemma {:induction false} InsertEnds(nodes: seq<Node>, m: nat, n: nat, key: Key, q: seq<nat>, i: nat)
    requires InRange(nodes) && FreeAlone(nodes) && m < |nodes| && n < |nodes| && m != n && nodes[n].key == KNil
    requires Chain(nodes, q, i) && i != n
    ensures Ends(Inserted(nodes, m, n, key), i)
    decreases |q|
  {
    var nodes' := Inserted(nodes, m, n, key);
    if nodes[i].next != NONE {
      ChainTail(nodes, q, i);
      assert q[1] != n by { assert Keyed(nodes, nodes[i].next); }
      InsertEnds(nodes, m, n, key, q[1..], q[1]);
      hide Ends;
      if i == m { EndsStep(nodes', n); }
      EndsStep(nodes', i);
    } else if i == m {
      EndsHere(nodes', n);
      EndsStep(nodes', i);
    } else {
      EndsHere(nodes', i);
    }
  }

  lemma InsertAllEnd(nodes: seq<Node>, m: nat, n: nat, key: Key)
    requires InRange(nodes) && FreeAlone(nodes) && AllEnd(nodes) && m < |nodes| && n < |nodes| && m != n
      && nodes[n].key == KNil
    ensures AllEnd(Inserted(nodes, m, n, key))
  {
    var nodes' := Inserted(nodes, m, n, key);
    forall i | 0 <= i < |nodes| && i != n
      ensures Ends(nodes', i)
    {
      assert Ends(nodes, i);
      var q :| Chain(nodes, q, i);
      InsertEnds(nodes, m, n, key, q, i);
    }
    assert Ends(nodes', m);
    var q :| Chain(nodes', q, m);
    ChainTail(nodes', q, m);
  }

  lemma InsertKeeps(hash: Hash, nodes: seq<Node>, n: nat, key: Key)
    requires Scatter(hash, nodes) && key != KNil && key != KNaN && NoKey(nodes, key)
    requires n < |nodes| && nodes[n].key == KNil && AtHome(hash, nodes, MainPos(hash, |nodes|, key))
    ensures Scatter(hash, Inserted(nodes, MainPos(hash, |nodes|, key), n, key))
  {
    var m := MainPos(hash, |nodes|, key);
    InsertAllEnd(nodes, m, n, key);
    InsertFound(hash, nodes, n, key);
    InsertOneIn(nodes, m, n, key);
    hide AllEnd, AllFound, OneIn;
    InsertBrent(hash, nodes, n, key);
    InsertFree(nodes, m, n, key);
    hide Brent, FreeAlone;
    assert Distinct(Inserted(nodes, m, n, key));
  }

  lemma InsertBrent(hash: Hash, nodes: seq<Node>, n: nat, key: Key)
    requires |nodes| > 0 && Brent(hash, nodes) && n < |nodes| && nodes[n].key == KNil
      && AtHome(hash, nodes, MainPos(hash, |nodes|, key))
    ensures Brent(hash, Inserted(nodes, MainPos(hash, |nodes|, key), n, key))
  {
    var nodes' := Inserted(nodes, MainPos(hash, |nodes|, key), n, key);
    forall j | 0 <= j < |nodes| && Keyed(nodes', j)
      ensures AtHome(hash, nodes', MainPos(hash, |nodes'|, nodes'[j].key))
    {
      if j != n { assert Keyed(nodes, j); }
    }
  }

  lemma InsertFree(nodes: seq<Node>, m: nat, n: nat, key: Key)
    requires FreeAlone(nodes) && m < |nodes| && n < |nodes| && m != n && nodes[n].key == KNil && nodes[m].key != KNil
      && key != KNil
    ensures FreeAlone(Inserted(nodes, m, n, key))
  {
    var nodes' := Inserted(nodes, m, n, key);
    forall i | 0 <= i < |nodes| && nodes'[i].next != NONE
      ensures Keyed(nodes', i) && 0 <= nodes'[i].next && Keyed(nodes', nodes'[i].next)
    {
      var i0 := if i == n then m else i;
      assert nodes[i0].next != NONE ==> Keyed(nodes, i0) && Keyed(nodes, nodes[i0].next);
    }
  }

  lemma InsertFound(hash: Hash, nodes: seq<Node>, n: nat, key: Key)
    requires |nodes| > 0 && InRange(nodes) && FreeAlone(nodes) && AllFound(hash, nodes) && key != KNil
    requires n < |nodes| && nodes[n].key == KNil && AtHome(hash, nodes, MainPos(hash, |nodes|, key))
    ensures AllFound(hash, Inserted(nodes, MainPos(hash, |nodes|, key), n, key))
  {
    var m := MainPos(hash, |nodes|, key);
    var nodes' := Inserted(nodes, m, n, key);
    forall j | 0 <= j < |nodes| && Keyed(nodes', j)
      ensures Reaches(nodes', MainPos(hash, |nodes'|, nodes'[j].key), j)
    {
      if j == n {
        ReachesSelf(nodes', n);
        ReachesStep(nodes', m, n);
      } else {
        assert Keyed(nodes, j);
        var q :| PathTo(nodes, q, MainPos(hash, |nodes|, nodes[j].key), j);
        InsertPath(nodes, m, n, key, q, q[0], j);
      }
    }
  }

  lemma InsertOneIn(nodes: seq<Node>, m: nat, n: nat, key: Key)
    requires InRange(nodes) && OneIn(nodes) && FreeAlone(nodes) && m < |nodes| && n < |nodes| && m != n
      && nodes[n].key == KNil
    ensures OneIn(Inserted(nodes, m, n, key))
  {
    assert forall i :: 0 <= i < |nodes| && nodes[i].next != NONE ==> Keyed(nodes, nodes[i].next);
  }

  // ----- The occupant is not at home: it moves to the free node, and the key takes its place -----

  function Moved(nodes: seq<Node>, m: nat, n: nat, prev: nat, key: Key): seq<Node>
    requires m < |nodes| && n < |nodes| && prev < |nodes|
  {
    nodes[prev := nodes[prev].(next := n)][n := nodes[m]][m := Node(key, VNil, NONE)]
  }

  ghost predicate Movable(nodes: seq<Node>, m: nat, n: nat, prev: nat) {
    && |nodes| > 0 && InRange(nodes) && FreeAlone(nodes) && OneIn(nodes) && AllEnd(nodes)
    && m < |nodes| && n < |nodes| && prev < |nodes| && nodes[n].key == KNil && nodes[m].key != KNil
      && nodes[prev].next == m
  }

  function Renamed(m: nat, n: nat, i: nat): nat {
    if i == m then n else i
  }

  lemma MovableFacts(nodes: seq<Node>, m: nat, n: nat, prev: nat)
    requires Movable(nodes, m, n, prev)
    ensures prev != m && prev != n && m != n && nodes[m].next != m && nodes[m].next != n
    ensures forall i :: 0 <= i < |nodes| && nodes[i].next == m ==> i == prev
    ensures forall i :: 0 <= i < |nodes| ==> nodes[i].next != n
  {
    assert Ends(nodes, m);
    var q :| Chain(nodes, q, m);
    NoLoop(nodes, q, m);
    assert forall i :: 0 <= i < |nodes| && nodes[i].next != NONE ==> Keyed(nodes, nodes[i].next);
  }

  lemma {:induction false} MovePath(nodes: seq<Node>, m: nat, n: nat, prev: nat, key: Key, q: seq<nat>, i: nat, j: nat)
    requires Movable(nodes, m, n, prev) && PathTo(nodes, q, i, j)
    ensures Reaches(Moved(nodes, m, n, prev, key), Renamed(m, n, i), Renamed(m, n, j))
    decreases |q|
  {
    var nodes' := Moved(nodes, m, n, prev, key);
    MovableFacts(nodes, m, n, prev);
    if |q| == 1 {
      ReachesSelf(nodes', Renamed(m, n, i));
    } else {
      PathTail(nodes, q, i, j);
      MovePath(nodes, m, n, prev, key, q[1..], q[1], j);
      assert i != n;
      assert nodes'[Renamed(m, n, i)].next == Renamed(m, n, q[1]);
      hide Reaches;
      ReachesStep(nodes', Renamed(m, n, i), Renamed(m, n, j));
    }
  }

  lemma {:induction false} MoveEnds(nodes: seq<Node>, m: nat, n: nat, prev: nat, key: Key, q: seq<nat>, i: nat)
    requires Movable(nodes, m, n, prev) && Chain(nodes, q, i) && i != n
    ensures Ends(Moved(nodes, m, n, prev, key), Renamed(m, n, i))
    decreases |q|
  {
    var nodes' := Moved(nodes, m, n, prev, key);
    MovableFacts(nodes, m, n, prev);
    if nodes[i].next == NONE {
      EndsHere(nodes', Renamed(m, n, i));
    } else {
      ChainTail(nodes, q, i);
      MoveEnds(nodes, m, n, prev, key, q[1..], q[1]);
      assert nodes'[Renamed(m, n, i)].next == Renamed(m, n, q[1]);
      hide Ends;
      EndsStep(nodes', Renamed(m, n, i));
    }
  }

  lemma MoveAllEnd(nodes: seq<Node>, m: nat, n: nat, prev: nat, key: Key)
    requires Movable(nodes, m, n, prev)
    ensures AllEnd(Moved(nodes, m, n, prev, key))
  {
    var nodes' := Moved(nodes, m, n, prev, key);
    MovableFacts(nodes, m, n, prev);
    forall i | 0 <= i < |nodes|
      ensures Ends(nodes', i)
    {
      if i == m {
        EndsHere(nodes', m);
      } else {
        var i0 := if i == n then m else i;
        assert Ends(nodes, i0);
        var q :| Chain(nodes, q, i0);
        MoveEnds(nodes, m, n, prev, key, q, i0);
      }
    }
  }

  lemma MoveFound(hash: Hash, nodes: seq<Node>, n: nat, prev: nat, key: Key)
    requires Scatter(hash, nodes) && Movable(nodes, MainPos(hash, |nodes|, key), n, prev)
    requires !AtHome(hash, nodes, MainPos(hash, |nodes|, key))
    ensures AllFound(hash, Moved(nodes, MainPos(hash, |nodes|, key), n, prev, key))
    ensures forall j :: 0 <= j < |nodes| && Keyed(nodes, j) ==>
      MainPos(hash, |nodes|, nodes[j].key) != MainPos(hash, |nodes|, key)
  {
    var m := MainPos(hash, |nodes|, key);
    var nodes' := Moved(nodes, m, n, prev, key);
    MovableFacts(nodes, m, n, prev);
    forall j | 0 <= j < |nodes| && Keyed(nodes', j)
      ensures Reaches(nodes', MainPos(hash, |nodes'|, nodes'[j].key), j)
    {
      if j == m {
        ReachesSelf(nodes', m);
      } else {
        var j0 := if j == n then m else j;
        assert Keyed(nodes, j0) && nodes'[j].key == nodes[j0].key;
        var home := MainPos(hash, |nodes|, nodes[j0].key);
        assert AtHome(hash, nodes, home);
        var q :| PathTo(nodes, q, home, j0);
        MovePath(nodes, m, n, prev, key, q, home, j0);
      }
    }
  }

  lemma MoveBrent(hash: Hash, nodes: seq<Node>, n: nat, prev: nat, key: Key)
    requires |nodes| > 0 && Brent(hash, nodes) && n < |nodes| && prev < |nodes| && nodes[n].key == KNil && key != KNil
    requires var m := MainPos(hash, |nodes|, key); m != n && prev != m && prev != n && nodes[m].key != KNil
    requires forall j :: 0 <= j < |nodes| && Keyed(nodes, j) ==>
      MainPos(hash, |nodes|, nodes[j].key) != MainPos(hash, |nodes|, key)
    ensures Brent(hash, Moved(nodes, MainPos(hash, |nodes|, key), n, prev, key))
  {
    var m := MainPos(hash, |nodes|, key);
    var nodes' := Moved(nodes, m, n, prev, key);
    forall j | 0 <= j < |nodes| && Keyed(nodes', j)
      ensures AtHome(hash, nodes', MainPos(hash, |nodes'|, nodes'[j].key))
    {
      if j != m {
        var j0 := if j == n then m else j;
        assert Keyed(nodes, j0) && AtHome(hash, nodes, MainPos(hash, |nodes|, nodes[j0].key));
      }
    }
  }

  lemma MoveKeeps(hash: Hash, nodes: seq<Node>, n: nat, prev: nat, key: Key)
    requires Scatter(hash, nodes) && key != KNil && key != KNaN && NoKey(nodes, key)
    requires Movable(nodes, MainPos(hash, |nodes|, key), n, prev) && !AtHome(hash, nodes, MainPos(hash, |nodes|, key))
    ensures Scatter(hash, Moved(nodes, MainPos(hash, |nodes|, key), n, prev, key))
  {
    hide Ends, Reaches, AllEnd, AllFound, FreeAlone, Brent, OneIn, Distinct, NoKey;
    var m := MainPos(hash, |nodes|, key);
    MovableFacts(nodes, m, n, prev);
    MoveAllEnd(nodes, m, n, prev, key);
    MoveFound(hash, nodes, n, prev, key);
    MoveFree(nodes, m, n, prev, key);
    MoveBrent(hash, nodes, n, prev, key);
    MoveOneIn(nodes, m, n, prev, key);
    MoveDistinct(nodes, m, n, prev, key);
  }

  lemma MoveOneIn(nodes: seq<Node>, m: nat, n: nat, prev: nat, key: Key)
    requires Movable(nodes, m, n, prev)
    ensures OneIn(Moved(nodes, m, n, prev, key))
  {
    MovableFacts(nodes, m, n, prev);
    hide AllEnd, FreeAlone;
  }

  lemma MoveDistinct(nodes: seq<Node>, m: nat, n: nat, prev: nat, key: Key)
    requires m < |nodes| && n < |nodes| && prev < |nodes| && m != n && prev != m && prev != n
    requires Distinct(nodes) && NoKey(nodes, key) && key != KNil && nodes[n].key == KNil
    ensures Distinct(Moved(nodes, m, n, prev, key))
  {
  }

  lemma MoveFree(nodes: seq<Node>, m: nat, n: nat, prev: nat, key: Key)
    requires Movable(nodes, m, n, prev) && key != KNil
    ensures FreeAlone(Moved(nodes, m, n, prev, key))
  {
    var nodes' := Moved(nodes, m, n, prev, key);
    MovableFacts(nodes, m, n, prev);
    forall i | 0 <= i < |nodes| && nodes'[i].next != NONE
      ensures Keyed(nodes', i) && 0 <= nodes'[i].next && Keyed(nodes', nodes'[i].next)
    {
      var i0 := if i == n then m else i;
      assert nodes[i0].next != NONE ==> Keyed(nodes, i0) && Keyed(nodes, nodes[i0].next);
    }
  }
}
