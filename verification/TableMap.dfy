/** What a table stands for: a finite map from keys to values. */
module TableMap {
  import opened TableChains
  import opened TableCount

  predicate InArray(n: nat, key: Key) {
    key.KInt? && 1 <= key.i <= n
  }

  ghost function NodeVal(nodes: seq<Node>, key: Key): Value {
    if key != KNil && exists i :: 0 <= i < |nodes| && nodes[i].key == key then
      var i :| 0 <= i < |nodes| && nodes[i].key == key;
      nodes[i].val
    else VNil
  }

  /** The value of a key, `VNil` if it has none. */
  ghost function Lookup(arr: seq<Value>, nodes: seq<Node>, key: Key): Value {
    if InArray(|arr|, key) then arr[key.i - 1] else NodeVal(nodes, key)
  }

  /** No key of the hash part belongs to the array part. */
  ghost predicate Apart(n: nat, nodes: seq<Node>) {
    forall i :: 0 <= i < |nodes| ==> !InArray(n, nodes[i].key)
  }

  ghost function Keys(nodes: seq<Node>): set<Key> {
    set i | 0 <= i < |nodes| && Keyed(nodes, i) :: nodes[i].key
  }

  /** The keys with a value in the nodes below `n`. */
  ghost function LiveBelow(nodes: seq<Node>, n: nat): set<Key> {
    set i | 0 <= i < |nodes| && i < n && nodes[i].val != VNil :: nodes[i].key
  }

  /** The keys with a value in the array part above the first `n`. */
  ghost function LiveFrom(arr: seq<Value>, n: nat): set<Key> {
    set i | 0 <= i < |arr| && n <= i && arr[i] != VNil :: KInt(i + 1)
  }

  ghost function LiveKeys(arr: seq<Value>, nodes: seq<Node>): set<Key> {
    LiveFrom(arr, 0) + LiveBelow(nodes, |nodes|)
  }

  // ----- Moving to new parts -----

  /** The new parts stand for the same as the old ones but for the keys still to be moved. */
  ghost predicate Partial(arr0: seq<Value>, nodes0: seq<Node>, arr: seq<Value>, nodes: seq<Node>, pending: set<Key>) {
    forall k :: Lookup(arr, nodes, k) == if k in pending then VNil else Lookup(arr0, nodes0, k)
  }

  predicate Fresh(nodes: seq<Node>) {
    forall i :: 0 <= i < |nodes| ==> nodes[i] == Node(KNil, VNil, NONE)
  }

  function Fitted(arr: seq<Value>, n: nat): (r: seq<Value>)
    ensures |r| == n
  {
    if n <= |arr| then arr[..n] else arr + seq(n - |arr|, _ => VNil)
  }

  lemma PartialStart(arr: seq<Value>, nodes: seq<Node>, n: nat, blank: seq<Node>)
    requires Apart(|arr|, nodes) && Distinct(nodes) && Fresh(blank)
    requires forall i :: 0 <= i < |nodes| && nodes[i].val != VNil ==> Keyed(nodes, i)
    ensures Partial(arr, nodes, Fitted(arr, n), blank, LiveFrom(arr, n) + LiveBelow(nodes, |nodes|))
  {
    var pending := LiveFrom(arr, n) + LiveBelow(nodes, |nodes|);
    forall k
      ensures Lookup(Fitted(arr, n), blank, k) == if k in pending then VNil else Lookup(arr, nodes, k)
    {
      if k != KNil { NodeValNone(blank, k); }
      if !InArray(|arr|, k) && NodeVal(nodes, k) != VNil {
        var i := NodeValSome(nodes, k);
        assert k in pending;
      } else if InArray(|arr|, k) && n < k.i && arr[k.i - 1] != VNil {
        assert k == KInt((k.i - 1) + 1) && k in LiveFrom(arr, n);
      }
    }
  }

  lemma PartialStep(arr0: seq<Value>, nodes0: seq<Node>, arr: seq<Value>, nodes: seq<Node>, pending: set<Key>, key: Key,
                    arr': seq<Value>, nodes': seq<Node>)
    requires Partial(arr0, nodes0, arr, nodes, pending) && key in pending
    requires forall k :: Lookup(arr', nodes', k) == if k == key then Lookup(arr0, nodes0, key)
      else Lookup(arr, nodes, k)
    ensures Partial(arr0, nodes0, arr', nodes', pending - {key})
  {
    hide Lookup;
  }

  lemma FreshScatter(hash: Hash, nodes: seq<Node>)
    requires Fresh(nodes) && |nodes| > 0
    ensures Scatter(hash, nodes) && Keys(nodes) == {}
  {
    forall i | 0 <= i < |nodes|
      ensures Ends(nodes, i)
    {
      EndsHere(nodes, i);
    }
  }

  lemma LiveBelowStep(nodes: seq<Node>, n: nat)
    requires n < |nodes| && Distinct(nodes) && forall i :: 0 <= i < |nodes| && nodes[i].val != VNil ==> Keyed(nodes, i)
    ensures LiveBelow(nodes, n) == if nodes[n].val != VNil then LiveBelow(nodes, n + 1) - {nodes[n].key}
      else LiveBelow(nodes, n + 1)
    ensures nodes[n].val != VNil ==> nodes[n].key in LiveBelow(nodes, n + 1)
  {
  }

  lemma LiveFromStep(arr: seq<Value>, n: nat)
    requires n < |arr|
    ensures LiveFrom(arr, n + 1) == if arr[n] != VNil then LiveFrom(arr, n) - {KInt(n + 1)} else LiveFrom(arr, n)
    ensures arr[n] != VNil ==> KInt(n + 1) in LiveFrom(arr, n)
  {
  }

  lemma NodeValAt(nodes: seq<Node>, i: nat)
    requires Distinct(nodes) && Keyed(nodes, i)
    ensures NodeVal(nodes, nodes[i].key) == nodes[i].val
  {
  }

  lemma NodeValNone(nodes: seq<Node>, key: Key)
    requires NoKey(nodes, key)
    ensures NodeVal(nodes, key) == VNil
  {
  }

  /** A key with a value is in some node. */
  lemma NodeValSome(nodes: seq<Node>, key: Key) returns (i: nat)
    requires NodeVal(nodes, key) != VNil
    ensures Keyed(nodes, i) && nodes[i].key == key && nodes[i].val == NodeVal(nodes, key)
  {
    i :| 0 <= i < |nodes| && nodes[i].key == key && nodes[i].val == NodeVal(nodes, key);
  }

  // ----- The three ways to add a key do not change what the table stands for -----

  /** `key` is now in node `i`, still without a value; all else means what it did. */
  ghost predicate Added(hash: Hash, nodes: seq<Node>, nodes': seq<Node>, key: Key, i: nat) {
    && Scatter(hash, nodes') && |nodes'| == |nodes| && i < |nodes'| && nodes'[i].key == key && nodes'[i].val == VNil
    && Keys(nodes') <= Keys(nodes) + {key} && SameValues(nodes, nodes')
  }

  ghost predicate SameValues(nodes: seq<Node>, nodes': seq<Node>) {
    forall k :: NodeVal(nodes', k) == NodeVal(nodes, k)
  }

  /** Nodes with values keep them, up to the position `m` that went to `n`. */
  lemma SameValuesIf(nodes: seq<Node>, nodes': seq<Node>, m: nat, n: nat, key: Key)
    requires Distinct(nodes) && Distinct(nodes') && |nodes'| == |nodes| && m < |nodes| && n < |nodes|
    requires forall i :: 0 <= i < |nodes| && nodes[i].val != VNil && i != m ==>
      nodes'[i].key == nodes[i].key && nodes'[i].val == nodes[i].val
    requires nodes[m].val != VNil ==> nodes'[n].key == nodes[m].key && nodes'[n].val == nodes[m].val
    requires forall i :: 0 <= i < |nodes| && nodes'[i].val != VNil && i != n ==>
      nodes'[i].key == nodes[i].key && nodes'[i].val == nodes[i].val
    requires nodes'[n].val != VNil ==> nodes'[n].key == nodes[m].key && nodes'[n].val == nodes[m].val
    ensures SameValues(nodes, nodes')
  {
    forall k
      ensures NodeVal(nodes', k) == NodeVal(nodes, k)
    {
      if NodeVal(nodes, k) != VNil {
        var i := NodeValSome(nodes, k);
        NodeValAt(nodes', if i == m then n else i);
      } else if NodeVal(nodes', k) != VNil {
        var i := NodeValSome(nodes', k);
        NodeValAt(nodes, if i == n then m else i);
      }
    }
  }

  lemma PlaceAdds(hash: Hash, nodes: seq<Node>, key: Key)
    requires Scatter(hash, nodes) && key != KNil && key != KNaN && NoKey(nodes, key)
    requires nodes[MainPos(hash, |nodes|, key)].val == VNil
    ensures var m := MainPos(hash, |nodes|, key); Added(hash, nodes, nodes[m := nodes[m].(key := key)], key, m)
  {
    var m := MainPos(hash, |nodes|, key);
    var nodes' := nodes[m := nodes[m].(key := key)];
    PlaceKeeps(hash, nodes, key);
    hide InRange, OneIn, AllEnd, AllFound, FreeAlone, Brent, NoNaN;
    SameValuesIf(nodes, nodes', m, m, key);
    hide Distinct, Scatter, SameValues;
    forall i | 0 <= i < |nodes| && Keyed(nodes', i)
      ensures nodes'[i].key in Keys(nodes) + {key}
    {
      if i != m { assert Keyed(nodes, i); }
    }
  }

  lemma InsertAdds(hash: Hash, nodes: seq<Node>, n: nat, key: Key)
    requires Scatter(hash, nodes) && key != KNil && key != KNaN && NoKey(nodes, key)
    requires n < |nodes| && nodes[n].key == KNil && AtHome(hash, nodes, MainPos(hash, |nodes|, key))
    ensures Added(hash, nodes, Inserted(nodes, MainPos(hash, |nodes|, key), n, key), key, n)
  {
    var nodes' := Inserted(nodes, MainPos(hash, |nodes|, key), n, key);
    InsertKeeps(hash, nodes, n, key);
    assert nodes[n].val == VNil;
    hide InRange, OneIn, AllEnd, AllFound, FreeAlone, Brent, NoNaN;
    SameValuesIf(nodes, nodes', n, n, key);
    hide Distinct, Scatter, SameValues;
    forall i | 0 <= i < |nodes| && Keyed(nodes', i)
      ensures nodes'[i].key in Keys(nodes) + {key}
    {
      if i != n { assert Keyed(nodes, i); }
    }
  }

  lemma MoveAdds(hash: Hash, nodes: seq<Node>, n: nat, prev: nat, key: Key)
    requires Scatter(hash, nodes) && key != KNil && key != KNaN && NoKey(nodes, key)
    requires Movable(nodes, MainPos(hash, |nodes|, key), n, prev) && !AtHome(hash, nodes, MainPos(hash, |nodes|, key))
    ensures Added(hash, nodes, Moved(nodes, MainPos(hash, |nodes|, key), n, prev, key), key,
                  MainPos(hash, |nodes|, key))
  {
    var m := MainPos(hash, |nodes|, key);
    var nodes' := Moved(nodes, m, n, prev, key);
    MoveKeeps(hash, nodes, n, prev, key);
    MovableFacts(nodes, m, n, prev);
    assert nodes[n].val == VNil;
    hide InRange, OneIn, AllEnd, AllFound, FreeAlone, Brent, NoNaN, Movable;
    MoveSame(nodes, m, n, prev, key);
    hide Distinct, Scatter, SameValues;
    forall i | 0 <= i < |nodes| && Keyed(nodes', i)
      ensures nodes'[i].key in Keys(nodes) + {key}
    {
      if i != m {
        var i0 := if i == n then m else i;
        assert nodes'[i].key == nodes[i0].key && Keyed(nodes, i0);
      }
    }
  }

  lemma MoveSame(nodes: seq<Node>, m: nat, n: nat, prev: nat, key: Key)
    requires m < |nodes| && n < |nodes| && prev < |nodes| && m != n && prev != m && prev != n && nodes[n].val == VNil
    requires Distinct(nodes) && Distinct(Moved(nodes, m, n, prev, key))
    ensures SameValues(nodes, Moved(nodes, m, n, prev, key))
  {
    SameValuesIf(nodes, Moved(nodes, m, n, prev, key), m, n, key);
  }

  // ----- Storing a value -----

  lemma StoreNode(arr: seq<Value>, nodes: seq<Node>, i: nat, v: Value)
    requires Distinct(nodes) && Keyed(nodes, i) && !InArray(|arr|, nodes[i].key)
    ensures var nodes' := nodes[i := nodes[i].(val := v)];
      && Distinct(nodes') && Keys(nodes') == Keys(nodes)
      && forall k :: Lookup(arr, nodes', k) == if k == nodes[i].key then v else Lookup(arr, nodes, k)
  {
    var nodes' := nodes[i := nodes[i].(val := v)];
    assert forall j :: Keyed(nodes', j) <==> Keyed(nodes, j);
    forall k
      ensures NodeVal(nodes', k) == if k == nodes[i].key then v else NodeVal(nodes, k)
    {
      if k == nodes[i].key {
        NodeValAt(nodes', i);
      } else if NodeVal(nodes, k) != VNil {
        var j := NodeValSome(nodes, k);
        NodeValAt(nodes', j);
      } else if NodeVal(nodes', k) != VNil {
        var j := NodeValSome(nodes', k);
        NodeValAt(nodes, j);
      }
    }
    hide NodeVal;
    assert Keys(nodes') <= Keys(nodes) by {
      forall j | 0 <= j < |nodes| && Keyed(nodes', j) ensures nodes'[j].key in Keys(nodes) { assert Keyed(nodes, j); }
    }
    assert Keys(nodes) <= Keys(nodes') by {
      forall j | 0 <= j < |nodes| && Keyed(nodes,
                                           j) ensures nodes[j].key in Keys(nodes') { assert Keyed(nodes',
                                               j); assert nodes'[j].key == nodes[j].key; }
    }
  }

  lemma StoreArray(arr: seq<Value>, nodes: seq<Node>, i: nat, v: Value)
    requires i < |arr|
    ensures forall k :: Lookup(arr[i := v], nodes, k) == if k == KInt(i + 1) then v else Lookup(arr, nodes, k)
  {
    forall k
      ensures Lookup(arr[i := v], nodes, k) == if k == KInt(i + 1) then v else Lookup(arr, nodes, k)
    {
      if InArray(|arr|, k) { assert k == KInt(k.i); }
    }
  }

  // ----- Room -----

  /** If no node is free there are as many keys as nodes. */
  lemma {:induction false} AllKeyed(nodes: seq<Node>)
    requires Distinct(nodes) && forall i :: 0 <= i < |nodes| ==> Keyed(nodes, i)
    ensures |Keys(nodes)| == |nodes|
  {
    if |nodes| > 0 {
      var n := |nodes| - 1;
      var rest := nodes[..n];
      assert forall i :: 0 <= i < n ==> Keyed(nodes, i) && rest[i] == nodes[i];
      AllKeyed(rest);
      assert Keys(nodes) == Keys(rest) + {nodes[n].key} by {
        assert nodes[n].key in Keys(nodes);
        forall k | k in Keys(nodes) ensures k in Keys(rest) + {nodes[n].key} {
          var i :| 0 <= i < |nodes| && Keyed(nodes, i) && nodes[i].key == k;
          if i < n { assert Keyed(rest, i); }
        }
        forall k | k in Keys(rest) ensures k in Keys(nodes) {
          var i :| 0 <= i < |rest| && Keyed(rest, i) && rest[i].key == k;
          assert Keyed(nodes, i) && nodes[i].key == k;
        }
      }
      assert nodes[n].key !in Keys(rest);
    } else {
      assert Keys(nodes) == {};
    }
  }

  lemma NoKeyIff(nodes: seq<Node>, key: Key)
    requires key != KNil
    ensures NoKey(nodes, key) <==> key !in Keys(nodes)
  {
    if key !in Keys(nodes) {
      forall i | 0 <= i < |nodes|
        ensures nodes[i].key != key
      {
        assert Keyed(nodes, i) ==> nodes[i].key in Keys(nodes);
      }
    }
  }
}
