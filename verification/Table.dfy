/** Lua tables: an array part and a hash part, and the migrations between them. */
module LuaTable {
  import opened TableChains
  import opened TableCount
  import opened TableMap

  /** Where the value of a key is: what luaH_get and luaH_set return. */
  datatype Slot = ArraySlot(i: nat) | NodeSlot(i: nat) | NilObject

  datatype SetResult = Found(s: Slot) | NilIndex | NanIndex | Overflow

  ghost predicate SlotOf(arr: seq<Value>, nodes: seq<Node>, key: Key, s: Slot) {
    match s
    case ArraySlot(i) => i < |arr| && key == KInt(i + 1)
    case NodeSlot(i) => Keyed(nodes, i) && nodes[i].key == key && !InArray(|arr|, key)
    case NilObject => key == KNil || (NoKey(nodes, key) && !InArray(|arr|, key))
  }

  /** No free node at or above `lastfree`. */
  ghost predicate UsedAbove(nodes: seq<Node>, lastfree: int) {
    lastfree <= |nodes| && forall i :: 0 <= i < |nodes| && lastfree <= i ==> Keyed(nodes, i)
  }

  /** The shared node that stands for an empty hash part. */
  const DummyNode: Node := Node(KNil, VNil, NONE)

  ghost predicate WellFormed(hash: Hash, arr: seq<Value>, nodes: seq<Node>, lsize: nat, lastfree: int, dummy: bool) {
    && Scatter(hash, nodes) && Apart(|arr|, nodes) && |arr| <= MAXASIZE
    && |nodes| == Pow2(lsize) && lsize <= MAXBITS
    && if dummy then nodes == [DummyNode] && lastfree <= 0 else UsedAbove(nodes, lastfree)
  }

  class Table {
    var arr: seq<Value>
    var node: seq<Node>
    var lsizenode: nat
    var lastfree: int
    /** The hash part is `dummynode`. */
    var dummy: bool
    const hash: Hash

    ghost predicate Valid()
      reads this
    {
      WellFormed(hash, arr, node, lsizenode, lastfree, dummy)
    }

    /** The value of a key. */
    ghost function At(key: Key): Value
      reads this
    {
      Lookup(arr, node, key)
    }

    // ----- Lookups -----

    /** The chain walk of ltable.c `luaH_get`, `luaH_getnum` and `luaH_getstr`. */
    method Search(key: Key) returns (s: Slot)
      requires Valid() && key != KNil && !InArray(|arr|, key)
      ensures SlotOf(arr, node, key, s)
    {
      hide Scatter;
      NodesExist(hash, node);
      var n := MainPos(hash, |node|, key);
      ChainFrom(hash, node, n);
      KeyFromHome(hash, node, key);
      var i := Walk(node, n, key);
      s := if i == NONE then NilObject else NodeSlot(i);
    }

    static method Walk(nodes: seq<Node>, start: nat, key: Key) returns (i: int)
      requires start < |nodes| && InRange(nodes) && Ends(nodes, start) && key != KNil
      requires forall j :: 0 <= j < |nodes| && nodes[j].key == key ==> Reaches(nodes, start, j)
      ensures if i == NONE then NoKey(nodes, key) else 0 <= i && Keyed(nodes, i) && nodes[i].key == key
    {
      hide Reaches;
      var n: nat := start;
      ghost var q :| Chain(nodes, q, n);
      while nodes[n].key != key
        invariant n < |nodes| && Chain(nodes, q, n)
        invariant forall j :: 0 <= j < |nodes| && nodes[j].key == key ==> Reaches(nodes, n, j)
        decreases |q|
      {
        KeyFurther(nodes, n, key);
        assert NONE <= nodes[n].next;
        if nodes[n].next == NONE {
          return NONE;
        }
        ChainTail(nodes, q, n);
        n, q := nodes[n].next, q[1..];
      }
      i := n;
    }

    /** ltable.c `luaH_getnum`. */
    method GetNum(k: int) returns (s: Slot)
      requires Valid()
      ensures SlotOf(arr, node, KInt(k), s)
    {
      if 0 <= k - 1 < |arr| {
        s := ArraySlot(k - 1);
      } else {
        s := Search(KInt(k));
      }
    }

    /** ltable.c `luaH_get`. */
    method Get(key: Key) returns (s: Slot)
      requires Valid()
      ensures SlotOf(arr, node, key, s)
    {
      match key
      case KNil => s := NilObject;
      case KInt(k) => s := GetNum(k);
      case _ => s := Search(key);
    }

    /** The value in a slot. */
    method Read(s: Slot, ghost key: Key) returns (v: Value)
      requires Valid() && SlotOf(arr, node, key, s)
      ensures v == At(key)
    {
      match s
      case ArraySlot(i) => v := arr[i];
      case NodeSlot(i) =>
        v := node[i].val;
        NodeValAt(node, i);
      case NilObject =>
        v := VNil;
        if key != KNil { NodeValNone(node, key); }
    }

    /** Store a value through a slot. */
    method Store(s: Slot, v: Value, ghost key: Key)
      requires Valid() && SlotOf(arr, node, key, s) && !s.NilObject?
      modifies `arr, `node
      ensures Valid() && |arr| == |old(arr)| && |node| == |old(node)| && Keys(node) == Keys(old(node))
      ensures StoredMap(old(arr), old(node), arr, node, key, v)
    {
      match s
      case ArraySlot(i) =>
        StoreArray(arr, node, i, v);
        hide Scatter;
        arr := arr[i := v];
      case NodeSlot(i) =>
        StoreKeeps(hash, node, i, v);
        StoreNode(arr, node, i, v);
        StoreWellFormed(hash, arr, node, lsizenode, lastfree, dummy, i, v);
        hide Scatter, WellFormed;
        node := node[i := node[i].(val := v)];
    }

    // ----- Adding keys -----

    /** ltable.c `getfreepos`. */
    method GetFreePos() returns (n: int)
      requires Valid()
      modifies `lastfree
      ensures n < |node|
      ensures n >= 0 ==> lastfree == n && node[n].key == KNil && !dummy && WellFormed(hash, arr, node, lsizenode, n + 1,
          dummy)
      ensures n < 0 ==> Valid() && (dummy || forall i :: 0 <= i < |node| ==> Keyed(node, i))
    {
      hide Scatter;
      while lastfree > 0
        invariant Valid()
        decreases lastfree
      {
        lastfree := lastfree - 1;
        if node[lastfree].key == KNil {
          return lastfree;
        }
      }
      lastfree := lastfree - 1;
      n := NONE;
    }

    /** The node whose link leads to `mp`. */
    method Previous(start: nat, mp: nat) returns (othern: nat)
      requires start != mp && Reaches(node, start, mp)
      ensures othern < |node| && node[othern].next == mp
    {
      othern := start;
      ghost var q :| PathTo(node, q, othern, mp);
      PathTail(node, q, othern, mp);
      while node[othern].next != mp
        invariant PathTo(node, q, othern, mp) && |q| > 1 && othern < |node| && node[othern].next == q[1]
        decreases |q|
      {
        PathTail(node, q, othern, mp);
        othern, q := node[othern].next, q[1..];
        PathTail(node, q, othern, mp);
      }
    }

    /** ltable.c `newkey` where there is a free node. The slot is that of the new key. */
    method AddKey(key: Key, n: nat) returns (i: nat)
      requires n < |node| && lastfree == n && node[n].key == KNil && !dummy
        && WellFormed(hash, arr, node, lsizenode, n + 1, dummy)
      requires key != KNil && key != KNaN && NoKey(node, key) && !InArray(|arr|, key)
      requires node[MainPos(hash, |node|, key)].val != VNil
      modifies `node
      ensures Valid() && Added(hash, old(node), node, key, i)
    {
      ghost var nodes := node;
      hide Scatter, SameValues, Movable, Reaches;
      NodesExist(hash, node);
      var mp := MainPos(hash, |node|, key);
      MainKeyed(hash, node, mp);
      var othern := MainPos(hash, |node|, node[mp].key);
      if othern != mp {
        othern := Previous(othern, mp);
        IsMovable(hash, nodes, mp, n, othern);
        MovableFacts(nodes, mp, n, othern);
        MoveAdds(hash, nodes, n, othern, key);
        MovedFill(hash, arr, nodes, lsizenode, n, othern, key);
        MoveColliding(mp, n, othern, key);
        i := mp;
      } else {
        InsertAdds(hash, nodes, n, key);
        InsertFill(hash, arr, nodes, lsizenode, n, key);
        ChainBehind(mp, n, key);
        i := n;
      }
    }

    /** There is room for `key` without growing. */
    ghost predicate Room(key: Key)
      reads this
    {
      InArray(|arr|, key) || key in Keys(node) || (!dummy && |Keys(node)| < |node|)
    }

    /** ltable.c `newkey`. With `level` 0 the table must not, and does not, grow. */
    method NewKey(key: Key, ghost level: nat) returns (ok: bool, s: Slot)
      requires Valid() && key != KNil && key != KNaN && NoKey(node, key) && !InArray(|arr|, key)
      requires level <= 1 && (level == 0 ==> Room(key))
      modifies this
      ensures ok ==> Valid() && SlotOf(arr, node, key, s) && !s.NilObject? && SameMap(old(arr), old(node), arr, node)
      ensures level == 0 ==> ok && Kept(old(arr), old(node), old(dummy), arr, node, dummy, key)
      ensures !ok ==> |LiveKeys(old(arr), old(node))| >= MAXASIZE
      decreases level, 2
    {
      hide Scatter, SameValues, Distinct, LiveKeys;
      NodesExist(hash, node);
      var mp := MainPos(hash, |node|, key);
      if node[mp].val != VNil || dummy {
        var n := GetFreePos();
        if n < 0 {
          NoRoom(hash, arr, node, lsizenode, lastfree, dummy, key);
          ok := Rehash(key);
          s := NilObject;
          if ok {
            var r := SetSlot(key, 0);
            s := r.s;
          }
        } else {
          ghost var nodes := node;
          var i := AddKey(key, n);
          AddedSlot(hash, arr, nodes, node, key, i);
          ok, s := true, NodeSlot(i);
        }
      } else {
        PlaceAdds(hash, node, key);
        PlaceFill(hash, arr, node, lsizenode, lastfree, key);
        AddedSlot(hash, arr, node, node[mp := node[mp].(key := key)], key, mp);
        hide WellFormed;
        node := node[mp := node[mp].(key := key)];
        ok, s := true, NodeSlot(mp);
      }
    }

    /** ltable.c `luaH_set`: a slot to store the value of `key` through. */
    method SetSlot(key: Key, ghost level: nat) returns (r: SetResult)
      requires Valid() && level <= 1 && (level == 0 ==> key != KNil && key != KNaN && Room(key))
      modifies this
      ensures r.NilIndex? <==> key == KNil
      ensures r.NanIndex? <==> key == KNaN
      ensures !r.Overflow? ==> Valid() && SameMap(old(arr), old(node), arr, node)
      ensures r.Found? ==> SlotOf(arr, node, key, r.s) && !r.s.NilObject?
      ensures level == 0 ==> r.Found? && Kept(old(arr), old(node), old(dummy), arr, node, dummy, key)
      ensures r.Overflow? ==> |LiveKeys(old(arr), old(node))| >= MAXASIZE
      decreases level, 3
    {
      hide WellFormed, LiveKeys;
      var p := Get(key);
      if !p.NilObject? {
        SlotKeyed(hash, arr, node, lsizenode, lastfree, dummy, key, p);
        return Found(p);
      }
      if key == KNil { return NilIndex; }
      if key == KNaN { return NanIndex; }
      var ok, s := NewKey(key, level);
      r := if ok then Found(s) else Overflow;
    }

    /** ltable.c `luaH_setnum`. */
    method SetNum(k: int, ghost level: nat) returns (r: SetResult)
      requires Valid() && level <= 1 && (level == 0 ==> Room(KInt(k)))
      modifies this
      ensures !r.Overflow? ==> Valid() && r.Found? && SlotOf(arr, node, KInt(k),
                                                             r.s) && !r.s.NilObject? && SameMap(old(arr), old(node),
                                                                 arr, node)
      ensures level == 0 ==> r.Found? && Kept(old(arr), old(node), old(dummy), arr, node, dummy, KInt(k))
      ensures r.Overflow? ==> |LiveKeys(old(arr), old(node))| >= MAXASIZE
      decreases level, 3
    {
      hide WellFormed, LiveKeys;
      var p := GetNum(k);
      if !p.NilObject? {
        return Found(p);
      }
      var ok, s := NewKey(KInt(k), level);
      r := if ok then Found(s) else Overflow;
    }

    /** luaH_set and the assignment through its result: a table refines a finite map. */
    method Put(key: Key, v: Value) returns (r: SetResult)
      requires Valid()
      modifies this
      ensures r.NilIndex? <==> key == KNil
      ensures r.NanIndex? <==> key == KNaN
      ensures !r.Overflow? ==> Valid() && forall k :: At(k) == if k == key && r.Found? then v else old(At(k))
      ensures r.Overflow? ==> |LiveKeys(old(arr), old(node))| >= MAXASIZE
    {
      hide WellFormed, LiveKeys, SlotOf;
      r := SetSlot(key, 1);
      if r.Found? {
        Store(r.s, v, key);
      }
      if !r.Overflow? {
        forall k
          ensures At(k) == if k == key && r.Found? then v else old(At(k))
        {
          hide Lookup;
        }
      }
    }

    // ----- Growing -----

    /** ltable.c `setnodevector`. */
    method SetNodeVector(size: nat) returns (ok: bool)
      modifies `node, `lsizenode, `lastfree, `dummy
      ensures ok <==> size == 0 || CeilLog2(size) <= MAXBITS
      ensures !ok ==>
        node == old(node) && lsizenode == old(lsizenode) && lastfree == old(lastfree) && dummy == old(dummy)
      ensures ok ==> Fresh(node) && |node| >= size && |node| == Pow2(lsizenode) && lsizenode <= MAXBITS && (dummy <==>
          size == 0)
      ensures ok ==> if dummy then node == [DummyNode] && lastfree <= 0 else lastfree == |node|
    {
      if size == 0 {
        node := [DummyNode];
        lsizenode := 0;
        lastfree := 0;
        dummy := true;
        ok := true;
      } else {
        var lsize := CeilLog2(size);
        if lsize > MAXBITS {
          return false;
        }
        node := seq(Pow2(lsize), _ => Node(KNil, VNil, NONE));
        lsizenode := lsize;
        lastfree := |node|;
        dummy := false;
        ok := true;
      }
    }

    /** Put back one element of the old parts. */
    method Reinsert(key: Key, v: Value, ghost all: set<Key>, ghost arr0: seq<Value>, ghost node0: seq<Node>,
                    ghost pending: set<Key>, ghost size: nat)
      requires Valid() && Moving(arr0, node0, arr, node, dummy, all, pending, size)
      requires key in pending && key != KNil && key != KNaN && v == Lookup(arr0, node0, key) != VNil
        && (InArray(|arr|, key) || key in all)
      modifies this
      ensures Valid() && |arr| == |old(arr)| && Moving(arr0, node0, arr, node, dummy, all, pending - {key}, size)
      decreases 0, 4
    {
      hide Lookup, Keys, WellFormed;
      MovingRoom(arr0, node0, arr, node, dummy, all, pending, size, key);
      var r := SetSlot(key, 0);
      hide SlotOf;
      Store(r.s, v, key);
      PartialStep(arr0, node0, old(arr), old(node), pending, key, arr, node);
    }

    /** ltable.c `resize`. Everything is put back without growing again: the keys that go to the
        hash part are among `all`. */
    method Resize(nasize: nat, nhsize: nat, ghost all: set<Key>) returns (ok: bool)
      requires Valid() && nasize <= MAXASIZE && |all| <= nhsize && KNil !in all && KNaN !in all
      requires forall k :: k in LiveKeys(arr, node) && !InArray(nasize, k) ==> k in all
      modifies this
      ensures ok <==> nhsize == 0 || CeilLog2(nhsize) <= MAXBITS
      ensures ok ==> Valid() && |arr| == nasize && Moving(old(arr), old(node), arr, node, dummy, all, {}, nhsize)
      decreases 0, 5
    {
      ghost var arr0, node0 := arr, node;
      hide WellFormed, Scatter, Moving, Lookup, Partial, LiveFrom, LiveBelow;
      var oldarr, nold := arr, node;
      Facts(hash, arr, node, lsizenode, lastfree, dummy);
      if nasize > |arr| {
        arr := Fitted(arr, nasize);
      }
      ok := SetNodeVector(nhsize);
      if !ok { return; }
      if nasize < |oldarr| {
        arr := arr[..nasize];
      }
      MovingStart(hash, arr0, node0, old(lsizenode), old(lastfree), old(dummy), arr, node, lsizenode, lastfree, dummy,
                  nasize, nhsize, all);
      var i: nat := nasize;
      while i < |oldarr|
        invariant nasize <= i && Valid() && |arr| == nasize
        invariant Moving(arr0, node0, arr, node, dummy, all, LiveFrom(arr0, i) + LiveBelow(node0, |node0|), nhsize)
      {
        LiveFromStep(arr0, i);
        ArrayElement(arr0, node0, i);
        ArrayOnly(arr0, node0, i);
        if oldarr[i] != VNil {
          Reinsert(KInt(i + 1), oldarr[i], all, arr0, node0, LiveFrom(arr0, i) + LiveBelow(node0, |node0|), nhsize);
          assert LiveFrom(arr0, i) + LiveBelow(node0, |node0|) - {KInt(i + 1)} == LiveFrom(arr0,
              i + 1) + LiveBelow(node0, |node0|);
        }
        i := i + 1;
      }
      NothingFrom(arr0, i);
      assert LiveFrom(arr0, i) + LiveBelow(node0, |node0|) == LiveBelow(node0, |node0|);
      i := |nold|;
      while i > 0
        invariant i <= |nold| && Valid() && |arr| == nasize
        invariant Moving(arr0, node0, arr, node, dummy, all, LiveBelow(node0, i), nhsize)
      {
        i := i - 1;
        NodeElement(hash, arr0, node0, i);
        if nold[i].val != VNil {
          Reinsert(nold[i].key, nold[i].val, all, arr0, node0, LiveBelow(node0, i + 1), nhsize);
        }
      }
      NothingBelow(node0);
    }

    /** The inner loop of `numusearray`: the elements of one slice, from `start` up to `lim`. */
    method CountSlice(start: nat, lim: nat, ghost nums: seq<nat>, ghost lg: nat, ghost ause: nat)
      returns (lc: nat, i: nat)
      requires 1 <= start && start == 1 + Min(Low(lg), |arr|) <= lim + 1 && lim == Min(Pow2(lg), |arr|) && lg <= MAXBITS
      requires Counts(nums, ArrayInts(arr, start - 1)) && ause == |ArrayInts(arr, start - 1)|
      ensures Counts(nums[lg := nums[lg] + lc], ArrayInts(arr, lim)) && ause + lc == |ArrayInts(arr, lim)|
        && i == lim + 1
    {
      hide Counts, ArrayInts;
      i, lc := start, 0;
      CountsLength(nums, ArrayInts(arr, start - 1));
      assert nums[lg := nums[lg] + 0] == nums;
      while i <= lim
        invariant start <= i <= lim + 1
        invariant Counts(nums[lg := nums[lg] + lc], ArrayInts(arr, i - 1)) && ause + lc == |ArrayInts(arr, i - 1)|
      {
        IntsStep(arr, i);
        if arr[i - 1] != VNil {
          CountOne(nums[lg := nums[lg] + lc], ArrayInts(arr, i - 1), i, lg);
          assert nums[lg := nums[lg] + lc][lg := nums[lg] + lc + 1] == nums[lg := nums[lg] + (lc + 1)];
          lc := lc + 1;
        }
        i := i + 1;
      }
    }

    /** ltable.c `numusearray`. */
    method NumUseArray(nums: array<nat>) returns (ause: nat)
      requires nums.Length == MAXBITS + 1 && |arr| <= MAXASIZE && forall i :: 0 <= i <= MAXBITS ==> nums[i] == 0
      modifies nums
      ensures Counts(nums[..], ArrayInts(arr, |arr|)) && ause == |ArrayInts(arr, |arr|)|
    {
      hide Counts, ArrayInts, Scatter;
      var lg, ttlg := 0, 1;
      var i: nat := 1;
      ause := 0;
      NoInts(arr, nums[..]);
      Pow2Max();
      while lg <= MAXBITS
        invariant 0 <= lg <= MAXBITS + 1 && ttlg == Pow2(lg) && i == 1 + Min(Low(lg), |arr|)
        invariant Counts(nums[..], ArrayInts(arr, i - 1)) && ause == |ArrayInts(arr, i - 1)|
      {
        var lim := ttlg;
        if lim > |arr| {
          lim := |arr|;
          if i > lim {
            break;
          }
        }
        LowHalf(lg);
        var lc;
        lc, i := CountSlice(i, lim, nums[..], lg, ause);
        ghost var before := nums[..];
        nums[lg] := nums[lg] + lc;
        assert nums[..] == before[lg := before[lg] + lc];
        ause := ause + lc;
        lg, ttlg := lg + 1, ttlg * 2;
      }
      assert i - 1 == |arr|;
    }

    /** ltable.c `countint`. */
    method CountInt(key: Key, nums: array<nat>, ghost s: set<int>) returns (c: nat)
      requires nums.Length == MAXBITS + 1 && Counts(nums[..], s) && (Countable(key) ==> key.i !in s)
      modifies nums
      ensures Counts(nums[..], s + IntOf(key)) && c == |IntOf(key)|
    {
      if key.KInt? && 0 < key.i <= MAXASIZE {
        var lg := CeilLog2(key.i);
        Pow2Max();
        if lg > MAXBITS {
          Pow2Monotone(MAXBITS, lg - 1);
          assert false;
        }
        ghost var before := nums[..];
        CountOne(before, s, key.i, lg);
        nums[lg] := nums[lg] + 1;
        assert nums[..] == before[lg := before[lg] + 1];
        assert IntOf(key) == {key.i};
        c := 1;
      } else {
        assert s + IntOf(key) == s;
        c := 0;
      }
    }

    /** ltable.c `numusehash`. */
    method NumUseHash(nums: array<nat>, ghost s: set<int>) returns (totaluse: nat, ause: nat)
      requires Valid() && nums.Length == MAXBITS + 1 && Counts(nums[..], s) && forall k :: k in s ==> 1 <= k <= |arr|
      modifies nums
      ensures Counts(nums[..], s + NodeInts(node, 0)) && ause == |NodeInts(node, 0)|
        && totaluse == |LiveBelow(node, |node|)|
    {
      hide Scatter, Counts, NodeInts, LiveAbove, IntOf, Countable;
      Facts(hash, arr, node, lsizenode, lastfree, dummy);
      hide WellFormed;
      totaluse, ause := 0, 0;
      var i: nat := |node|;
      NoNodeInts(node);
      assert s + NodeInts(node, i) == s;
      while i > 0
        invariant i <= |node| && Counts(nums[..], s + NodeInts(node, i)) && ause == |NodeInts(node, i)|
          && totaluse == |LiveAbove(node, i)|
      {
        i := i - 1;
        NodeIntsStep(hash, node, i);
        if node[i].val != VNil {
          NotCounted(arr, node, i, s);
          var c := CountInt(node[i].key, nums, s + NodeInts(node, i + 1));
          ause := ause + c;
          totaluse := totaluse + 1;
          assert s + NodeInts(node, i + 1) + IntOf(node[i].key) == s + NodeInts(node, i);
        }
      }
      AboveBelow(node);
    }

    /** ltable.c `rehash`: choose new sizes, counting the extra key `ek`, and move everything. */
    method Rehash(ek: Key) returns (ok: bool)
      requires Valid() && ek != KNil && ek != KNaN && NoKey(node, ek) && !InArray(|arr|, ek)
      modifies this
      ensures ok ==> Valid() && Room(ek) && SameMap(old(arr), old(node), arr, node)
      ensures ok ==> BestSize(Integers(old(arr), old(node), ek), |arr|)
      ensures !ok ==> |LiveKeys(old(arr), old(node))| >= MAXASIZE
      decreases 0, 6
    {
      hide WellFormed, Scatter, Lookup, ArrayInts, NodeInts, Counts, LiveKeys, Moving, BestSize, UpTo, NoKey, HashKeys,
          IntOf, Countable, LiveBelow, SameMap, Apart;
      ghost var arr0, node0 := arr, node;
      var nums := new nat[MAXBITS + 1](_ => 0);
      Facts(hash, arr, node, lsizenode, lastfree, dummy);
      var nasize := NumUseArray(nums);
      var totaluse := nasize;
      ghost var s := ArrayInts(arr, |arr|);
      IntsRange(arr, node);
      var used, ints := NumUseHash(nums, s);
      totaluse := totaluse + used;
      nasize := nasize + ints;
      s := s + NodeInts(node, 0);
      ExtraKey(arr, node, ek);
      var c := CountInt(ek, nums, s);
      s := s + IntOf(ek);
      nasize := nasize + c;
      totaluse := totaluse + 1;
      IntsTotal(arr, node, ek);
      var n, na := ComputeSizes(nums, nasize, s);
      ghost var all := HashKeys(arr, node, ek, s, n);
      HashKeysSize(hash, arr, node, ek, n);
      LiveSizes(arr, node);
      ok := Resize(n, totaluse - na, all);
      if !ok { TooMany(totaluse - na); }
      if ok {
        MovedAll(arr0, node0, arr, node, dummy, all, totaluse - na, ek);
      }
    }

    /** ltable.c `luaH_new`, within the limits on the sizes. */
    constructor (hash: Hash, narray: nat, nhash: nat)
      requires narray <= MAXASIZE && nhash <= MAXASIZE
      ensures Valid() && this.hash == hash && |arr| == narray && |node| >= nhash && forall k :: At(k) == VNil
    {
      this.hash := hash;
      arr := seq(narray, _ => VNil);
      var lsize := if nhash == 0 then 0 else CeilLog2(nhash);
      node := seq(Pow2(lsize), _ => Node(KNil, VNil, NONE));
      lsizenode := lsize;
      lastfree := if nhash == 0 then 0 else Pow2(lsize);
      dummy := nhash == 0;
      new;
      SizeFits(nhash);
      FreshScatter(hash, node);
      forall k
        ensures At(k) == VNil
      {
        if k != KNil { NodeValNone(node, k); }
      }
      hide Scatter;
      assert dummy ==> node == [DummyNode];
    }

    /** ltable.c `luaH_resizearray`, called to let the array part grow. */
    method ResizeArray(nasize: nat)
      requires Valid() && |arr| <= nasize <= MAXASIZE
      modifies this
      ensures Valid() && |arr| == nasize && SameMap(old(arr), old(node), arr, node)
    {
      hide Scatter, Lookup;
      var nsize := if dummy then 0 else |node|;
      NodesSize(node, dummy, lsizenode);
      ghost var arr0, node0 := arr, node;
      KeptKeys(hash, arr, node, lsizenode, lastfree, dummy);
      hide WellFormed, Moving, LiveKeys;
      var ok := Resize(nasize, nsize, LiveBelow(node, |node|));
      assert ok;
      MovingDone(arr0, node0, arr, node, dummy, LiveBelow(node0, |node0|), nsize);
    }

    // ----- Traversal -----

    /** ltable.c `findindex`: the place of a key in a traversal, -1 before its start. */
    method FindIndex(key: Key) returns (ok: bool, i: int)
      requires Valid()
      ensures ok <==> key == KNil || InArray(|arr|, key) || key in Keys(node)
      ensures ok ==> if key == KNil then i == -1 else 0 <= i < |arr| + |node| && EntryKey(arr, node, i) == key
    {
      if key == KNil {
        return true, -1;
      }
      if key.KInt? && 0 < key.i <= |arr| {
        return true, key.i - 1;
      }
      NoKeyIff(node, key);
      var s := Search(key);
      hide Scatter;
      if s.NilObject? {
        return false, 0;
      }
      return true, |arr| + s.i;
    }

    /** ltable.c `luaH_next`. */
    method Next(key: Key) returns (r: NextResult)
      requires Valid()
      ensures r.InvalidKey? <==> key != KNil && !InArray(|arr|, key) && key !in Keys(node)
      ensures !r.InvalidKey? ==> exists i :: PlaceOf(arr, node, key, i) && NextAfter(arr, node, i, r)
    {
      hide WellFormed;
      var ok, i := FindIndex(key);
      if !ok { return InvalidKey; }
      ghost var start := i;
      i := i + 1;
      while i < |arr|
        invariant start < i && forall m :: start < m < i && 0 <= m < |arr| + |node| ==> EntryVal(arr, node, m) == VNil
      {
        if arr[i] != VNil {
          r := Entry(KInt(i + 1), arr[i]);
          assert EntryKey(arr, node, i) == KInt(i + 1) && EntryVal(arr, node, i) == arr[i];
          assert PlaceOf(arr, node, key, start) && NextAfter(arr, node, start, r);
          return;
        }
        i := i + 1;
      }
      i := i - |arr|;
      while i < |node|
        invariant start < i + |arr| && 0 <= i && forall m :: start < m < i + |arr| && 0 <= m < |arr| + |node| ==>
          EntryVal(arr, node, m) == VNil
      {
        if node[i].val != VNil {
          r := Entry(node[i].key, node[i].val);
          assert EntryKey(arr, node, i + |arr|) == node[i].key && EntryVal(arr, node, i + |arr|) == node[i].val;
          assert PlaceOf(arr, node, key, start) && NextAfter(arr, node, start, r);
          return;
        }
        i := i + 1;
      }
      r := NoMore;
      assert PlaceOf(arr, node, key, start) && NextAfter(arr, node, start, r);
    }

    /** A complete traversal, as `pairs` makes it, meets every key with a value exactly once. */
    method Traverse() returns (ks: seq<Key>)
      requires Valid()
      ensures forall i, j :: 0 <= i < j < |ks| ==> ks[i] != ks[j]
      ensures forall k :: k in ks <==> At(k) != VNil
    {
      hide Lookup, WellFormed, InArray, Keys, EntryVal, EntryKey, NextAfter;
      ks := [];
      ghost var pos := -1;
      var key := KNil;
      var more := true;
      ghost var at: seq<int> := [];
      while more
        invariant -1 <= pos < |arr| + |node| && PlaceOf(arr, node, key, pos)
        invariant |at| == |ks| && forall m :: 0 <= m < |at| ==> LiveAt(arr, node, at[m], ks[m]) && at[m] <= pos
        invariant forall l, m :: 0 <= l < m < |at| ==> at[l] < at[m]
        invariant forall m :: 0 <= m < |arr| + |node| && EntryVal(arr, node, m) != VNil && (m <= pos || !more) ==>
          m in at
        decreases more, |arr| + |node| - pos
      {
        PlaceKnown(hash, arr, node, lsizenode, lastfree, dummy, key, pos);
        var r := Next(key);
        ghost var i :| PlaceOf(arr, node, key, i) && NextAfter(arr, node, i, r);
        PlaceUnique(hash, arr, node, lsizenode, lastfree, dummy, key, i, pos);
        match r
        case NoMore =>
          NothingNext(arr, node, i);
          more := false;
        case Entry(k, v) =>
          ghost var j := NextEntry(arr, node, i, k, v);
          LiveReal(hash, arr, node, lsizenode, lastfree, dummy, j, k);
          ks, at := ks + [k], at + [j];
          pos, key := j, k;
      }
      TraversalComplete(hash, arr, node, lsizenode, lastfree, dummy, ks, at);
    }

    // ----- The border -----

    /** Read an integer key. */
    method GetInt(k: int) returns (v: Value)
      requires Valid()
      ensures v == At(KInt(k))
    {
      var s := GetNum(k);
      v := Read(s, KInt(k));
    }

    /** ltable.c `luaH_getn`: an index with a value, or 0, whose successor has none. */
    method GetN() returns (n: nat)
      requires Valid()
      ensures (n == 0 || At(KInt(n)) != VNil) && At(KInt(n + 1)) == VNil
    {
      hide Scatter, NodeVal;
      var j: nat := |arr|;
      if j > 0 && arr[j - 1] == VNil {
        var i: nat := 0;
        while j - i > 1
          invariant i < j <= |arr| && (i == 0 || arr[i - 1] != VNil) && arr[j - 1] == VNil
        {
          var m := (i + j) / 2;
          if arr[m - 1] == VNil { j := m; } else { i := m; }
        }
        return i;
      }
      if dummy {
        NodeValNone(node, KInt(j + 1));
        return j;
      }
      n := UnboundSearch(j);
    }

    /** ltable.c `unbound_search`. */
    method UnboundSearch(start: nat) returns (n: nat)
      requires Valid() && (start == 0 || At(KInt(start)) != VNil)
      ensures (n == 0 || At(KInt(n)) != VNil) && At(KInt(n + 1)) == VNil
    {
      hide Scatter, WellFormed, Lookup;
      var i: nat, j: nat := start, start + 1;
      var v := GetInt(j);
      while v != VNil
        invariant 1 <= j && i < j && v == At(KInt(j)) && (i == 0 || At(KInt(i)) != VNil)
        decreases 2 * MAX_INT + 2 * start + 2 - j, v
      {
        i, j := j, j * 2;
        if j > MAX_INT {
          i := 1;
          v := GetInt(i);
          while v != VNil
            invariant 1 <= i && v == At(KInt(i)) && forall m :: 1 <= m < i ==> At(KInt(m)) != VNil
            decreases |LiveKeys(arr, node)| + 1 - i, v
          {
            i := i + 1;
            RunBounded(hash, arr, node, lsizenode, lastfree, dummy, i - 1);
            v := GetInt(i);
          }
          return i - 1;
        }
        v := GetInt(j);
      }
      while j - i > 1
        invariant i < j && (i == 0 || At(KInt(i)) != VNil) && At(KInt(j)) == VNil
      {
        var m := (i + j) / 2;
        v := GetInt(m);
        if v == VNil { j := m; } else { i := m; }
      }
      n := i;
    }

    // ----- Any run -----

    /** One set or get. */
    method Execute(op: Op, ghost cur: map<Key, Value>) returns (ok: bool, out: seq<Value>)
      requires Valid() && forall k :: At(k) == MapAt(cur, k)
      modifies this
      ensures ok ==> Valid() && (forall k :: At(k) == MapAt(Step(cur, op), k)) && out == if op.GetOp? then [MapAt(cur,
          op.key)] else []
      ensures !ok ==> |WithValue(cur)| >= MAXASIZE
    {
      hide WellFormed, Lookup, LiveKeys, WithValue;
      LiveIsWithValue(hash, arr, node, lsizenode, lastfree, dummy, cur);
      ok, out := true, [];
      match op {
        case SetOp(key, v) =>
          var r := Put(key, v);
          ok := !r.Overflow?;
        case GetOp(key) =>
          var s := Get(key);
          var v := Read(s, key);
          out := [v];
      }
    }

    /** Any sequence of sets and gets behaves as on a finite map, through all migrations. */
    method Run(ops: seq<Op>, ghost m: map<Key, Value>) returns (ok: bool, results: seq<Value>)
      requires Valid() && forall k :: At(k) == MapAt(m, k)
      modifies this
      ensures ok ==> Valid() && results == Results(m, ops) && forall k :: At(k) == MapAt(After(m, ops), k)
      ensures !ok ==> exists j :: 0 <= j <= |ops| && |WithValue(After(m, ops[..j]))| >= MAXASIZE
    {
      hide WellFormed, Lookup, WithValue;
      results := [];
      ok := true;
      var i: nat := 0;
      ghost var cur := m;
      assert ops[0..] == ops && ops[..0] == [];
      while i < |ops|
        invariant i <= |ops| && Valid() && forall k :: At(k) == MapAt(cur, k)
        invariant Results(m, ops) == results + Results(cur, ops[i..]) && After(m, ops) == After(cur, ops[i..])
        invariant cur == After(m, ops[..i])
      {
        RunStep(m, ops, i, cur);
        var out;
        ok, out := Execute(ops[i], cur);
        if !ok { return; }
        results := results + out;
        cur := Step(cur, ops[i]);
        i := i + 1;
      }
      assert ops[i..] == [];
    }

    /** The colliding node is out of its main position: it goes to `n`, the key takes its place. */
    method MoveColliding(mp: nat, n: nat, othern: nat, key: Key)
      requires mp < |node| && n < |node| && othern < |node| && othern != mp
      modifies `node
      ensures node == Moved(old(node), mp, n, othern, key)
    {
      node := node[othern := node[othern].(next := n)];
      node := node[n := node[mp]];
      node := node[mp := Node(key, VNil, NONE)];
    }

    /** The colliding node is in its own main position: the key goes to `n`, behind it. */
    method ChainBehind(mp: nat, n: nat, key: Key)
      requires mp < |node| && n < |node| && mp != n
      modifies `node
      ensures node == Inserted(old(node), mp, n, key)
    {
      node := node[n := Node(key, VNil, node[mp].next)];
      node := node[mp := node[mp].(next := n)];
    }
  }

  /** The elements are being moved: `all` is what the new hash part may hold. */
  ghost predicate Moving(arr0: seq<Value>, nodes0: seq<Node>, arr: seq<Value>, nodes: seq<Node>, dummy: bool,
                         all: set<Key>, pending: set<Key>, size: nat) {
    && Partial(arr0, nodes0, arr, nodes, pending) && Keys(nodes) <= all && |all| <= size <= |nodes|
      && (dummy <==> size == 0)
    && forall k :: k in Keys(nodes) ==> Lookup(arr, nodes, k) != VNil
  }

  lemma MovingRoom(arr0: seq<Value>, nodes0: seq<Node>, arr: seq<Value>, nodes: seq<Node>, dummy: bool, all: set<Key>,
                   pending: set<Key>, size: nat, key: Key)
    requires Moving(arr0, nodes0, arr, nodes, dummy, all, pending, size) && (InArray(|arr|, key) || key in all)
    ensures InArray(|arr|, key) || key in Keys(nodes) || (!dummy && |Keys(nodes)| < |nodes|)
  {
    hide Lookup, Keys, Partial;
    if key in all && key !in Keys(nodes) {
      SubsetSize(Keys(nodes) + {key}, all);
    }
  }

  lemma MovingStart(hash: Hash, arr0: seq<Value>, nodes0: seq<Node>, lsize0: nat, lastfree0: int, dummy0: bool,
                    arr: seq<Value>, nodes: seq<Node>, lsize: nat, lastfree: int, dummy: bool, nasize: nat, nhsize: nat,
                    all: set<Key>)
    requires WellFormed(hash, arr0, nodes0, lsize0, lastfree0, dummy0) && arr == Fitted(arr0, nasize)
      && nasize <= MAXASIZE
    requires Fresh(nodes) && |nodes| >= nhsize && |nodes| == Pow2(lsize) && lsize <= MAXBITS && (dummy <==> nhsize == 0)
    requires if dummy then nodes == [DummyNode] && lastfree <= 0 else lastfree == |nodes|
    requires |all| <= nhsize
    ensures WellFormed(hash, arr, nodes, lsize, lastfree, dummy)
    ensures Moving(arr0, nodes0, arr, nodes, dummy, all, LiveFrom(arr0, nasize) + LiveBelow(nodes0, |nodes0|), nhsize)
  {
    assert forall i :: 0 <= i < |nodes0| && nodes0[i].val != VNil ==> Keyed(nodes0, i);
    FreshScatter(hash, nodes);
    hide Scatter, Lookup, Partial;
    PartialStart(arr0, nodes0, nasize, nodes);
  }

  lemma ArrayElement(arr: seq<Value>, nodes: seq<Node>, i: nat)
    requires i < |arr|
    ensures Lookup(arr, nodes, KInt(i + 1)) == arr[i]
    ensures arr[i] != VNil ==> KInt(i + 1) in LiveFrom(arr, 0)
  {
  }

  lemma ArrayOnly(arr: seq<Value>, nodes: seq<Node>, i: nat)
    requires i < |arr| && Apart(|arr|, nodes)
    ensures KInt(i + 1) !in LiveBelow(nodes, |nodes|)
  {
  }

  lemma NothingFrom(arr: seq<Value>, i: nat)
    requires i >= |arr|
    ensures LiveFrom(arr, i) == {}
  {
  }

  lemma NothingBelow(nodes: seq<Node>)
    ensures LiveBelow(nodes, 0) == {}
  {
  }

  lemma NodeElement(hash: Hash, arr: seq<Value>, nodes: seq<Node>, i: nat)
    requires Scatter(hash, nodes) && Apart(|arr|, nodes) && i < |nodes|
    ensures LiveBelow(nodes, i) == if nodes[i].val != VNil then LiveBelow(nodes, i + 1) - {nodes[i].key}
      else LiveBelow(nodes, i + 1)
    ensures nodes[i].val != VNil ==>
      Lookup(arr, nodes, nodes[i].key) == nodes[i].val && nodes[i].key in LiveBelow(nodes, i + 1)
    ensures nodes[i].val != VNil ==>
      nodes[i].key in LiveBelow(nodes, |nodes|) && nodes[i].key != KNil && nodes[i].key != KNaN
  {
    assert forall j :: 0 <= j < |nodes| && nodes[j].val != VNil ==> Keyed(nodes, j);
    LiveBelowStep(nodes, i);
    if nodes[i].val != VNil { NodeValAt(nodes, i); }
  }

  function Min(a: nat, b: nat): nat {
    if a < b then a else b
  }

  // ----- Counting -----

  /** A key that countint counts. */
  predicate Countable(key: Key) {
    key.KInt? && 0 < key.i <= MAXASIZE
  }

  function IntOf(key: Key): set<int> {
    if Countable(key) then {key.i} else {}
  }

  ghost function ArrayInts(arr: seq<Value>, n: nat): set<int> {
    set j | 0 <= j < |arr| && j < n && arr[j] != VNil :: j + 1
  }

  ghost function NodeInts(nodes: seq<Node>, n: nat): set<int> {
    set j | 0 <= j < |nodes| && n <= j && nodes[j].val != VNil && Countable(nodes[j].key) :: nodes[j].key.i
  }

  ghost function LiveAbove(nodes: seq<Node>, n: nat): set<Key> {
    set j | 0 <= j < |nodes| && n <= j && nodes[j].val != VNil :: nodes[j].key
  }

  lemma CountsLength(nums: seq<nat>, s: set<int>)
    requires Counts(nums, s)
    ensures |nums| == MAXBITS + 1
  {
  }

  lemma NoInts(arr: seq<Value>, nums: seq<nat>)
    requires |nums| == MAXBITS + 1 && forall i :: 0 <= i <= MAXBITS ==> nums[i] == 0
    ensures ArrayInts(arr, 0) == {} && Counts(nums, {})
  {
    forall lg | 0 <= lg <= MAXBITS
      ensures nums[lg] == |InSlice({}, lg)|
    {
      assert InSlice({}, lg) == {};
    }
  }

  lemma IntsStep(arr: seq<Value>, i: nat)
    requires 1 <= i <= |arr|
    ensures ArrayInts(arr, i) == if arr[i - 1] != VNil then ArrayInts(arr, i - 1) + {i} else ArrayInts(arr, i - 1)
    ensures i !in ArrayInts(arr, i - 1)
  {
  }

  lemma AboveBelow(nodes: seq<Node>)
    ensures LiveAbove(nodes, 0) == LiveBelow(nodes, |nodes|)
  {
  }

  lemma NoNodeInts(nodes: seq<Node>)
    ensures NodeInts(nodes, |nodes|) == {} && LiveAbove(nodes, |nodes|) == {}
  {
  }

  lemma NodeIntsStep(hash: Hash, nodes: seq<Node>, i: nat)
    requires Scatter(hash, nodes) && i < |nodes|
    ensures nodes[i].val == VNil ==>
      NodeInts(nodes, i) == NodeInts(nodes, i + 1) && LiveAbove(nodes, i) == LiveAbove(nodes, i + 1)
    ensures nodes[i].val != VNil ==>
      NodeInts(nodes, i) == NodeInts(nodes, i + 1) + IntOf(nodes[i].key) && LiveAbove(nodes, i) == LiveAbove(nodes,
          i + 1) + {nodes[i].key}
    ensures nodes[i].val != VNil ==>
      nodes[i].key !in LiveAbove(nodes, i + 1)
        && (Countable(nodes[i].key) ==> nodes[i].key.i !in NodeInts(nodes, i + 1))
          && IntOf(nodes[i].key) !! NodeInts(nodes, i + 1)
  {
    assert Distinct(nodes) && forall j :: 0 <= j < |nodes| && nodes[j].val != VNil ==> Keyed(nodes, j);
    hide Scatter;
    NodeIntsDistinct(nodes, i);
  }

  /** The integer keys of the hash part are not those of the array part. */
  lemma NotCounted(arr: seq<Value>, nodes: seq<Node>, i: nat, s: set<int>)
    requires Apart(|arr|, nodes) && i < |nodes| && forall k :: k in s ==> 1 <= k <= |arr|
    ensures Countable(nodes[i].key) ==> nodes[i].key.i !in s
  {
  }

  lemma NodeIntsDistinct(nodes: seq<Node>, i: nat)
    requires i < |nodes| && Distinct(nodes) && forall j :: 0 <= j < |nodes| && nodes[j].val != VNil ==> Keyed(nodes, j)
    ensures nodes[i].val == VNil ==>
      NodeInts(nodes, i) == NodeInts(nodes, i + 1) && LiveAbove(nodes, i) == LiveAbove(nodes, i + 1)
    ensures nodes[i].val != VNil ==>
      NodeInts(nodes, i) == NodeInts(nodes, i + 1) + IntOf(nodes[i].key) && LiveAbove(nodes, i) == LiveAbove(nodes,
          i + 1) + {nodes[i].key}
    ensures nodes[i].val != VNil ==>
      nodes[i].key !in LiveAbove(nodes, i + 1)
        && (Countable(nodes[i].key) ==> nodes[i].key.i !in NodeInts(nodes, i + 1))
          && IntOf(nodes[i].key) !! NodeInts(nodes, i + 1)
  {
    assert forall j :: i < j < |nodes| && nodes[i].val != VNil ==> nodes[j].key != nodes[i].key;
    forall j | i < j < |nodes| && nodes[i].val != VNil && Countable(nodes[i].key) && Countable(nodes[j].key)
      ensures nodes[j].key.i != nodes[i].key.i
    {
      assert nodes[j].key == KInt(nodes[j].key.i);
    }
  }

  /** The integer keys that rehash counts, the extra key among them. */
  ghost function Integers(arr: seq<Value>, nodes: seq<Node>, ek: Key): set<int> {
    ArrayInts(arr, |arr|) + NodeInts(nodes, 0) + IntOf(ek)
  }

  lemma IntsRange(arr: seq<Value>, nodes: seq<Node>)
    requires |arr| <= MAXASIZE && Apart(|arr|, nodes)
    ensures forall k :: k in ArrayInts(arr, |arr|) ==> 1 <= k <= |arr|
    ensures forall k :: k in NodeInts(nodes, 0) ==> 1 <= k <= MAXASIZE
    ensures ArrayInts(arr, |arr|) !! NodeInts(nodes, 0)
  {
    forall j | 0 <= j < |nodes| && nodes[j].val != VNil && Countable(nodes[j].key)
      ensures nodes[j].key.i !in ArrayInts(arr, |arr|)
    {
      assert !InArray(|arr|, nodes[j].key);
    }
  }

  lemma ExtraKey(arr: seq<Value>, nodes: seq<Node>, ek: Key)
    requires NoKey(nodes, ek) && !InArray(|arr|, ek)
    ensures Countable(ek) ==> ek.i !in ArrayInts(arr, |arr|) + NodeInts(nodes, 0)
    ensures ek !in LiveKeys(arr, nodes)
  {
    if Countable(ek) {
      assert ek == KInt(ek.i);
    }
  }

  lemma IntsTotal(arr: seq<Value>, nodes: seq<Node>, ek: Key)
    requires |arr| <= MAXASIZE && Apart(|arr|, nodes) && NoKey(nodes, ek) && !InArray(|arr|, ek)
    ensures |Integers(arr, nodes, ek)| == |ArrayInts(arr, |arr|)| + |NodeInts(nodes, 0)| + |IntOf(ek)|
    ensures forall k :: k in Integers(arr, nodes, ek) ==> 1 <= k <= MAXASIZE
  {
    IntsRange(arr, nodes);
    ExtraKey(arr, nodes, ek);
    hide ArrayInts, NodeInts;
    assert IntOf(ek) !! ArrayInts(arr, |arr|) + NodeInts(nodes, 0);
  }

  ghost function IntKeys(t: set<int>): set<Key> {
    set i | i in t :: KInt(i)
  }

  lemma Pick<T>(t: set<T>) returns (x: T)
    requires t != {}
    ensures x in t
  {
    x :| x in t;
  }

  lemma {:induction false} IntKeysSize(t: set<int>)
    ensures |IntKeys(t)| == |t|
  {
    if t != {} {
      var x := Pick(t);
      IntKeysSize(t - {x});
      assert IntKeys(t) == IntKeys(t - {x}) + {KInt(x)};
    } else {
      assert IntKeys(t) == {};
    }
  }

  /** The keys that have to go to the hash part when the array part gets size `n`. */
  ghost function HashKeys(arr: seq<Value>, nodes: seq<Node>, ek: Key, s: set<int>, n: nat): set<Key> {
    LiveKeys(arr, nodes) + {ek} - IntKeys(UpTo(s, n))
  }

  lemma LiveSizes(arr: seq<Value>, nodes: seq<Node>)
    requires Apart(|arr|, nodes)
    ensures |LiveKeys(arr, nodes)| == |ArrayInts(arr, |arr|)| + |LiveBelow(nodes, |nodes|)|
  {
    IntKeysSize(ArrayInts(arr, |arr|));
    assert LiveFrom(arr, 0) == IntKeys(ArrayInts(arr, |arr|)) by {
      forall k | k in IntKeys(ArrayInts(arr, |arr|))
        ensures k in LiveFrom(arr, 0)
      {
        assert k == KInt((k.i - 1) + 1);
      }
    }
    assert LiveFrom(arr, 0) !! LiveBelow(nodes, |nodes|);
  }

  lemma IntegersLive(arr: seq<Value>, nodes: seq<Node>, ek: Key)
    ensures IntKeys(Integers(arr, nodes, ek)) <= LiveKeys(arr, nodes) + {ek}
  {
    forall i | i in Integers(arr, nodes, ek)
      ensures KInt(i) in LiveKeys(arr, nodes) + {ek}
    {
      if i in ArrayInts(arr, |arr|) {
        assert KInt((i - 1) + 1) in LiveFrom(arr, 0);
      } else if i in NodeInts(nodes, 0) {
        assert KInt(i) in LiveBelow(nodes, |nodes|);
      }
    }
  }

  /** The new hash part is asked for exactly as many nodes as keys will go there. */
  lemma HashKeysSize(hash: Hash, arr: seq<Value>, nodes: seq<Node>, ek: Key, n: nat)
    requires Apart(|arr|, nodes) && Scatter(hash, nodes) && ek !in LiveKeys(arr, nodes) && ek != KNil && ek != KNaN
    ensures var s := Integers(arr, nodes, ek); var all := HashKeys(arr, nodes, ek, s, n);
      && |all| == |ArrayInts(arr, |arr|)| + |LiveBelow(nodes, |nodes|)| + 1 - |UpTo(s, n)|
      && |all| <= |LiveKeys(arr, nodes)| + 1 && KNil !in all && KNaN !in all
      && (forall k :: k in LiveKeys(arr, nodes) + {ek} && !InArray(n, k) ==> k in all)
  {
    var s := Integers(arr, nodes, ek);
    LiveSizes(arr, nodes);
    LiveKeysReal(hash, arr, nodes);
    hide Scatter;
    IntegersLive(arr, nodes, ek);
    IntKeysSize(UpTo(s, n));
    hide LiveKeys, Integers;
    assert IntKeys(UpTo(s, n)) <= LiveKeys(arr, nodes) + {ek} by {
      assert forall i :: i in s ==> KInt(i) in IntKeys(s);
    }
    assert forall k :: k in IntKeys(UpTo(s, n)) ==> InArray(n, k);
  }

  lemma LiveKeysReal(hash: Hash, arr: seq<Value>, nodes: seq<Node>)
    requires Scatter(hash, nodes)
    ensures KNil !in LiveKeys(arr, nodes) && KNaN !in LiveKeys(arr, nodes)
  {
  }

  lemma TooMany(x: nat)
    requires x >= 1 && CeilLog2(x) > MAXBITS
    ensures x > MAXASIZE
  {
    Pow2Max();
    Pow2Monotone(MAXBITS, CeilLog2(x) - 1);
  }

  lemma MovedAll(arr0: seq<Value>, nodes0: seq<Node>, arr: seq<Value>, nodes: seq<Node>, dummy: bool, all: set<Key>,
                 size: nat, ek: Key)
    requires Moving(arr0, nodes0, arr, nodes, dummy, all, {}, size) && NoKey(nodes0, ek) && !InArray(|arr0|, ek)
      && ek != KNil
    requires InArray(|arr|, ek) || ek in all
    ensures InArray(|arr|, ek) || (!dummy && |Keys(nodes)| < |nodes|)
    ensures SameMap(arr0, nodes0, arr, nodes)
  {
    NodeValNone(nodes0, ek);
    assert Lookup(arr, nodes, ek) == VNil;
    MovingRoom(arr0, nodes0, arr, nodes, dummy, all, {}, size, ek);
  }

  ghost predicate SameMap(arr: seq<Value>, nodes: seq<Node>, arr': seq<Value>, nodes': seq<Node>) {
    forall k :: Lookup(arr', nodes', k) == Lookup(arr, nodes, k)
  }

  /** The map with the value of `key` replaced. */
  ghost predicate StoredMap(arr: seq<Value>, nodes: seq<Node>, arr': seq<Value>, nodes': seq<Node>, key: Key,
                            v: Value) {
    forall k :: Lookup(arr', nodes', k) == if k == key then v else Lookup(arr, nodes, k)
  }

  lemma Facts(hash: Hash, arr: seq<Value>, nodes: seq<Node>, lsize: nat, lastfree: int, dummy: bool)
    requires WellFormed(hash, arr, nodes, lsize, lastfree, dummy)
    ensures |nodes| > 0 && Scatter(hash, nodes) && Apart(|arr|, nodes) && |arr| <= MAXASIZE
  {
  }

  const MAX_INT: nat := 0x7fff_fffd

  // ----- Sequences of operations -----

  datatype Op = SetOp(key: Key, v: Value) | GetOp(key: Key)

  function MapAt(m: map<Key, Value>, k: Key): Value {
    if k in m then m[k] else VNil
  }

  function Step(m: map<Key, Value>, op: Op): map<Key, Value> {
    if op.SetOp? && op.key != KNil && op.key != KNaN then m[op.key := op.v] else m
  }

  function After(m: map<Key, Value>, ops: seq<Op>): map<Key, Value>
    decreases |ops|
  {
    if ops == [] then m else After(Step(m, ops[0]), ops[1..])
  }

  function Results(m: map<Key, Value>, ops: seq<Op>): seq<Value>
    decreases |ops|
  {
    if ops == [] then []
    else (if ops[0].GetOp? then [MapAt(m, ops[0].key)] else []) + Results(Step(m, ops[0]), ops[1..])
  }

  /** The keys that have a value. */
  function WithValue(m: map<Key, Value>): set<Key> {
    set k | k in m && m[k] != VNil
  }

  lemma {:induction false} AfterAppend(m: map<Key, Value>, ops: seq<Op>, op: Op)
    ensures After(m, ops + [op]) == Step(After(m, ops), op)
    decreases |ops|
  {
    if ops != [] {
      assert (ops + [op])[0] == ops[0] && (ops + [op])[1..] == ops[1..] + [op];
      AfterAppend(Step(m, ops[0]), ops[1..], op);
    } else {
      assert ops + [op] == [op] && After(Step(m, op), [op][1..]) == Step(m, op);
    }
  }

  lemma RunStep(m: map<Key, Value>, ops: seq<Op>, i: nat, cur: map<Key, Value>)
    requires i < |ops| && cur == After(m, ops[..i])
    ensures Step(cur, ops[i]) == After(m, ops[..i + 1])
    ensures After(cur, ops[i..]) == After(Step(cur, ops[i]), ops[i + 1..])
    ensures Results(cur, ops[i..]) == (if ops[i].GetOp? then [MapAt(cur, ops[i].key)]
                                       else []) + Results(Step(cur, ops[i]), ops[i + 1..])
  {
    assert ops[i..][0] == ops[i] && ops[i..][1..] == ops[i + 1..];
    assert ops[..i + 1] == ops[..i] + [ops[i]];
    AfterAppend(m, ops[..i], ops[i]);
  }

  /** The live keys of the table are those of the map it stands for. */
  lemma LiveIsWithValue(hash: Hash, arr: seq<Value>, nodes: seq<Node>, lsize: nat, lastfree: int, dummy: bool,
                        m: map<Key, Value>)
    requires WellFormed(hash, arr, nodes, lsize, lastfree, dummy) && forall k :: Lookup(arr, nodes, k) == MapAt(m, k)
    ensures LiveKeys(arr, nodes) == WithValue(m)
  {
    Facts(hash, arr, nodes, lsize, lastfree, dummy);
    hide WellFormed;
    forall k
      ensures k in LiveKeys(arr, nodes) <==> Lookup(arr, nodes, k) != VNil
    {
      LiveIff(hash, arr, nodes, k);
    }
    forall k
      ensures k in LiveKeys(arr, nodes) <==> k in WithValue(m)
    {
      assert Lookup(arr, nodes, k) == MapAt(m, k);
    }
  }

  lemma LiveIff(hash: Hash, arr: seq<Value>, nodes: seq<Node>, k: Key)
    requires Scatter(hash, nodes) && Apart(|arr|, nodes)
    ensures k in LiveKeys(arr, nodes) <==> Lookup(arr, nodes, k) != VNil
  {
    assert Distinct(nodes) && forall j :: 0 <= j < |nodes| && nodes[j].val != VNil ==> Keyed(nodes, j);
    hide Scatter;
    if k in LiveFrom(arr, 0) {
      var i :| 0 <= i < |arr| && arr[i] != VNil && k == KInt(i + 1);
      ArrayElement(arr, nodes, i);
    } else if k in LiveBelow(nodes, |nodes|) {
      var i :| 0 <= i < |nodes| && nodes[i].val != VNil && nodes[i].key == k;
      NodeValAt(nodes, i);
    }
    if Lookup(arr, nodes, k) != VNil {
      if InArray(|arr|, k) {
        assert k == KInt((k.i - 1) + 1);
      } else {
        var i := NodeValSome(nodes, k);
      }
    }
  }

  // ----- Traversal -----

  datatype NextResult = Entry(k: Key, v: Value) | NoMore | InvalidKey

  /** Entries are numbered array part first, then nodes. */
  function EntryKey(arr: seq<Value>, nodes: seq<Node>, i: nat): Key
    requires i < |arr| + |nodes|
  {
    if i < |arr| then KInt(i + 1) else nodes[i - |arr|].key
  }

  function EntryVal(arr: seq<Value>, nodes: seq<Node>, i: nat): Value
    requires i < |arr| + |nodes|
  {
    if i < |arr| then arr[i] else nodes[i - |arr|].val
  }

  predicate PlaceOf(arr: seq<Value>, nodes: seq<Node>, key: Key, i: int) {
    if key == KNil then i == -1 else 0 <= i < |arr| + |nodes| && EntryKey(arr, nodes, i) == key
  }

  predicate LiveAt(arr: seq<Value>, nodes: seq<Node>, i: int, key: Key) {
    0 <= i < |arr| + |nodes| && EntryKey(arr, nodes, i) == key && EntryVal(arr, nodes, i) != VNil
  }

  /** `r` is the first entry with a value behind place `i`. */
  ghost predicate NextAfter(arr: seq<Value>, nodes: seq<Node>, i: int, r: NextResult) {
    match r
    case NoMore => forall m :: i < m < |arr| + |nodes| && 0 <= m ==> EntryVal(arr, nodes, m) == VNil
    case Entry(k, v) =>
      exists j ::
        && i < j < |arr| + |nodes| && 0 <= j && LiveAt(arr, nodes, j, k) && EntryVal(arr, nodes, j) == v
        && forall m :: i < m < j && 0 <= m ==> EntryVal(arr, nodes, m) == VNil
    case InvalidKey => false
  }

  lemma NothingNext(arr: seq<Value>, nodes: seq<Node>, i: int)
    requires NextAfter(arr, nodes, i, NoMore)
    ensures forall m :: i < m < |arr| + |nodes| && 0 <= m ==> EntryVal(arr, nodes, m) == VNil
  {
  }

  lemma NextEntry(arr: seq<Value>, nodes: seq<Node>, i: int, k: Key, v: Value) returns (j: int)
    requires NextAfter(arr, nodes, i, Entry(k, v))
    ensures i < j && LiveAt(arr, nodes, j, k) && forall m :: i < m < j && 0 <= m ==> EntryVal(arr, nodes, m) == VNil
  {
    j :| i < j < |arr| + |nodes| && 0 <= j && LiveAt(arr, nodes, j, k) && EntryVal(arr, nodes, j) == v
      && forall m :: i < m < j && 0 <= m ==> EntryVal(arr, nodes, m) == VNil;
  }

  lemma PlaceKnown(hash: Hash, arr: seq<Value>, nodes: seq<Node>, lsize: nat, lastfree: int, dummy: bool, key: Key,
                   i: int)
    requires WellFormed(hash, arr, nodes, lsize, lastfree, dummy) && PlaceOf(arr, nodes, key, i)
    ensures key == KNil || InArray(|arr|, key) || key in Keys(nodes)
  {
    hide WellFormed;
    if key != KNil && i >= |arr| { assert Keyed(nodes, i - |arr|); }
  }

  lemma PlaceUnique(hash: Hash, arr: seq<Value>, nodes: seq<Node>, lsize: nat, lastfree: int, dummy: bool, key: Key,
                    i: int, j: int)
    requires WellFormed(hash, arr, nodes, lsize, lastfree, dummy) && PlaceOf(arr, nodes, key, i)
      && PlaceOf(arr, nodes, key, j)
    ensures i == j
  {
    assert Distinct(nodes) && Apart(|arr|, nodes);
    hide WellFormed;
    if key != KNil && i >= |arr| && j >= |arr| {
      assert Keyed(nodes, i - |arr|) && Keyed(nodes, j - |arr|);
    }
  }

  lemma LiveReal(hash: Hash, arr: seq<Value>, nodes: seq<Node>, lsize: nat, lastfree: int, dummy: bool, i: int,
                 key: Key)
    requires WellFormed(hash, arr, nodes, lsize, lastfree, dummy) && LiveAt(arr, nodes, i, key)
    ensures key != KNil && PlaceOf(arr, nodes, key, i) && Lookup(arr, nodes, key) == EntryVal(arr, nodes, i)
  {
    if i >= |arr| {
      assert nodes[i - |arr|].key != KNil;
      NodeValAt(nodes, i - |arr|);
    }
  }

  lemma LiveSomewhere(hash: Hash, arr: seq<Value>, nodes: seq<Node>, key: Key) returns (i: nat)
    requires Lookup(arr, nodes, key) != VNil
    ensures LiveAt(arr, nodes, i, key)
  {
    if InArray(|arr|, key) {
      i := key.i - 1;
    } else {
      var j := NodeValSome(nodes, key);
      i := j + |arr|;
    }
  }

  lemma TraversalComplete(hash: Hash, arr: seq<Value>, nodes: seq<Node>, lsize: nat, lastfree: int, dummy: bool,
                          ks: seq<Key>, at: seq<int>)
    requires WellFormed(hash, arr, nodes, lsize, lastfree, dummy)
    requires |at| == |ks| && forall m :: 0 <= m < |at| ==> LiveAt(arr, nodes, at[m], ks[m])
    requires forall l, m :: 0 <= l < m < |at| ==> at[l] < at[m]
    requires forall m :: 0 <= m < |arr| + |nodes| && EntryVal(arr, nodes, m) != VNil ==> m in at
    ensures forall i, j :: 0 <= i < j < |ks| ==> ks[i] != ks[j]
    ensures forall k :: k in ks <==> Lookup(arr, nodes, k) != VNil
  {
    hide WellFormed, Lookup;
    forall i, j | 0 <= i < j < |ks|
      ensures ks[i] != ks[j]
    {
      LiveReal(hash, arr, nodes, lsize, lastfree, dummy, at[i], ks[i]);
      LiveReal(hash, arr, nodes, lsize, lastfree, dummy, at[j], ks[j]);
      if ks[i] == ks[j] {
        PlaceUnique(hash, arr, nodes, lsize, lastfree, dummy, ks[i], at[i], at[j]);
      }
    }
    forall k | Lookup(arr, nodes, k) != VNil
      ensures k in ks
    {
      var i := LiveSomewhere(hash, arr, nodes, k);
      var m :| 0 <= m < |at| && at[m] == i;
      assert ks[m] == k;
    }
    forall k | k in ks
      ensures Lookup(arr, nodes, k) != VNil
    {
      var m :| 0 <= m < |ks| && ks[m] == k;
      LiveReal(hash, arr, nodes, lsize, lastfree, dummy, at[m], k);
    }
  }

  // ----- The border -----

  ghost function Interval(n: nat): (r: set<int>)
    ensures forall i :: i in r ==> 1 <= i <= n
  {
    if n == 0 then {} else Interval(n - 1) + {n}
  }

  lemma {:induction false} IntervalCount(n: nat)
    ensures |Interval(n)| == n
  {
    if n > 0 {
      IntervalCount(n - 1);
    }
  }

  /** A run of integer keys with values is no longer than the table. */
  lemma RunBounded(hash: Hash, arr: seq<Value>, nodes: seq<Node>, lsize: nat, lastfree: int, dummy: bool, n: nat)
    requires WellFormed(hash, arr, nodes, lsize, lastfree, dummy) && forall m :: 1 <= m <= n ==>
      Lookup(arr, nodes, KInt(m)) != VNil
    ensures n <= |LiveKeys(arr, nodes)|
  {
    hide WellFormed;
    forall k | k in IntKeys(Interval(n))
      ensures k in LiveKeys(arr, nodes)
    {
      var i := LiveSomewhere(hash, arr, nodes, k);
      if i < |arr| { assert k in LiveFrom(arr, 0); } else { assert k in LiveBelow(nodes, |nodes|); }
    }
    IntervalCount(n);
    IntKeysSize(Interval(n));
    SubsetSize(IntKeys(Interval(n)), LiveKeys(arr, nodes));
  }

  // ----- Sizes -----

  lemma SizeFits(n: nat)
    requires n <= MAXASIZE
    ensures n >= 1 ==> CeilLog2(n) <= MAXBITS
  {
    Pow2Max();
    if n >= 1 && CeilLog2(n) > MAXBITS {
      Pow2Monotone(MAXBITS, CeilLog2(n) - 1);
    }
  }

  lemma NodesSize(nodes: seq<Node>, dummy: bool, lsize: nat)
    requires |nodes| == Pow2(lsize) && lsize <= MAXBITS
    ensures CeilLog2(|nodes|) <= MAXBITS
  {
    Pow2Max();
    Pow2Monotone(lsize, MAXBITS);
    SizeFits(|nodes|);
  }

  lemma {:induction false} LiveBelowSize(nodes: seq<Node>, n: nat)
    ensures |LiveBelow(nodes, n)| <= n
  {
    if n == 0 {
      assert LiveBelow(nodes, 0) == {};
    } else {
      LiveBelowSize(nodes, n - 1);
      if n <= |nodes| && nodes[n - 1].val != VNil {
        assert LiveBelow(nodes, n) == LiveBelow(nodes, n - 1) + {nodes[n - 1].key};
      } else {
        assert LiveBelow(nodes, n) == LiveBelow(nodes, n - 1);
      }
    }
  }

  /** When the array part grows the hash part is large enough for what it held. */
  lemma KeptKeys(hash: Hash, arr: seq<Value>, nodes: seq<Node>, lsize: nat, lastfree: int, dummy: bool)
    requires WellFormed(hash, arr, nodes, lsize, lastfree, dummy)
    ensures var all := LiveBelow(nodes, |nodes|);
      && |all| <= (if dummy then 0 else |nodes|) && KNil !in all && KNaN !in all
      && (forall k :: k in LiveKeys(arr, nodes) && !InArray(|arr|, k) ==> k in all)
  {
    LiveKeysReal(hash, arr, nodes);
    LiveBelowSize(nodes, |nodes|);
    if dummy { assert LiveBelow(nodes, |nodes|) == {}; }
  }

  lemma MovingDone(arr0: seq<Value>, nodes0: seq<Node>, arr: seq<Value>, nodes: seq<Node>, dummy: bool, all: set<Key>,
                   size: nat)
    requires Moving(arr0, nodes0, arr, nodes, dummy, all, {}, size)
    ensures SameMap(arr0, nodes0, arr, nodes)
  {
  }

  /** What adding a key without growing keeps. */
  ghost predicate Kept(arr: seq<Value>, nodes: seq<Node>, dummy: bool, arr': seq<Value>, nodes': seq<Node>,
                       dummy': bool, key: Key) {
    && arr' == arr && |nodes'| == |nodes| && dummy' == dummy
      && Keys(nodes') <= Keys(nodes) + (if InArray(|arr|, key) then {} else {key})
  }

  lemma AddedSlot(hash: Hash, arr: seq<Value>, nodes: seq<Node>, nodes': seq<Node>, key: Key, i: nat)
    requires Added(hash, nodes, nodes', key, i) && key != KNil && !InArray(|arr|, key)
    ensures SlotOf(arr, nodes', key, NodeSlot(i)) && SameMap(arr, nodes, arr, nodes')
  {
    hide Scatter, NodeVal;
  }

  lemma NoRoom(hash: Hash, arr: seq<Value>, nodes: seq<Node>, lsize: nat, lastfree: int, dummy: bool, key: Key)
    requires WellFormed(hash, arr, nodes, lsize, lastfree, dummy)
      && (dummy || forall i :: 0 <= i < |nodes| ==> Keyed(nodes, i))
    ensures dummy || |Keys(nodes)| == |nodes|
  {
    if !dummy { AllKeyed(nodes); }
  }

  lemma SlotKeyed(hash: Hash, arr: seq<Value>, nodes: seq<Node>, lsize: nat, lastfree: int, dummy: bool, key: Key,
                  s: Slot)
    requires WellFormed(hash, arr, nodes, lsize, lastfree, dummy) && SlotOf(arr, nodes, key, s) && !s.NilObject?
    ensures key != KNil && key != KNaN
  {
  }

  lemma PlaceFill(hash: Hash, arr: seq<Value>, nodes: seq<Node>, lsize: nat, lastfree: int, key: Key)
    requires WellFormed(hash, arr, nodes, lsize, lastfree, false) && key != KNil && !InArray(|arr|, key)
    requires |nodes| > 0 && Scatter(hash,
                                    nodes[MainPos(hash, |nodes|, key) := nodes[MainPos(hash, |nodes|,
                                        key)].(key := key)])
    ensures WellFormed(hash, arr, nodes[MainPos(hash, |nodes|, key) := nodes[MainPos(hash, |nodes|, key)].(key := key)],
                       lsize, lastfree, false)
  {
    hide Scatter;
    var m := MainPos(hash, |nodes|, key);
    var nodes' := nodes[m := nodes[m].(key := key)];
    forall i | 0 <= i < |nodes| && lastfree <= i
      ensures Keyed(nodes', i)
    {
      assert i != m ==> Keyed(nodes, i) && nodes'[i] == nodes[i];
    }
  }

  lemma NodesExist(hash: Hash, nodes: seq<Node>)
    requires Scatter(hash, nodes)
    ensures |nodes| > 0
  {
  }

  // ----- Walking a chain -----

  lemma ChainFrom(hash: Hash, nodes: seq<Node>, i: nat)
    requires Scatter(hash, nodes) && i < |nodes|
    ensures Ends(nodes, i) && InRange(nodes)
  {
  }

  lemma KeyFromHome(hash: Hash, nodes: seq<Node>, key: Key)
    requires Scatter(hash, nodes) && key != KNil
    ensures forall j :: 0 <= j < |nodes| && nodes[j].key == key ==> Reaches(nodes, MainPos(hash, |nodes|, key), j)
  {
    assert forall j :: 0 <= j < |nodes| && nodes[j].key == key ==> Keyed(nodes, j);
  }

  /** A node with the key that is not this one is reached from the next. */
  lemma KeyFurther(nodes: seq<Node>, n: nat, key: Key)
    requires n < |nodes| && nodes[n].key != key && forall j :: 0 <= j < |nodes| && nodes[j].key == key ==>
      Reaches(nodes, n, j)
    ensures nodes[n].next == NONE ==> NoKey(nodes, key)
    ensures nodes[n].next >= 0 ==> forall j :: 0 <= j < |nodes| && nodes[j].key == key ==>
      Reaches(nodes, nodes[n].next, j)
  {
    forall j | 0 <= j < |nodes| && nodes[j].key == key
      ensures nodes[n].next >= 0 && Reaches(nodes, nodes[n].next, j)
    {
      ReachesNext(nodes, n, j);
    }
  }

  // ----- The whole state -----

  lemma StoreWellFormed(hash: Hash, arr: seq<Value>, nodes: seq<Node>, lsize: nat, lastfree: int, dummy: bool, i: nat,
                        v: Value)
    requires WellFormed(hash, arr, nodes, lsize, lastfree, dummy) && Keyed(nodes, i)
    ensures WellFormed(hash, arr, nodes[i := nodes[i].(val := v)], lsize, lastfree, dummy)
  {
    var nodes' := nodes[i := nodes[i].(val := v)];
    StoreKeeps(hash, nodes, i, v);
    hide Scatter;
    assert forall j :: 0 <= j < |nodes| ==> nodes'[j].key == nodes[j].key;
    assert forall j :: Keyed(nodes', j) <==> Keyed(nodes, j);
  }

  lemma MainKeyed(hash: Hash, nodes: seq<Node>, m: nat)
    requires Scatter(hash, nodes) && m < |nodes| && nodes[m].val != VNil
    ensures Keyed(nodes, m)
    ensures Reaches(nodes, MainPos(hash, |nodes|, nodes[m].key), m)
  {
    assert Keyed(nodes, m);
  }

  lemma IsMovable(hash: Hash, nodes: seq<Node>, m: nat, n: nat, prev: nat)
    requires Scatter(hash, nodes) && m < |nodes| && n < |nodes| && prev < |nodes| && nodes[n].key == KNil
      && nodes[m].key != KNil && nodes[prev].next == m
    ensures Movable(nodes, m, n, prev)
  {
  }

  lemma InsertFill(hash: Hash, arr: seq<Value>, nodes: seq<Node>, lsize: nat, n: nat, key: Key)
    requires WellFormed(hash, arr, nodes, lsize, n + 1, false) && n < |nodes| && nodes[n].key == KNil && key != KNil
      && !InArray(|arr|, key)
    requires Scatter(hash, Inserted(nodes, MainPos(hash, |nodes|, key), n, key)) && MainPos(hash, |nodes|, key) != n
    ensures WellFormed(hash, arr, Inserted(nodes, MainPos(hash, |nodes|, key), n, key), lsize, n, false)
  {
    hide Scatter;
    var nodes' := Inserted(nodes, MainPos(hash, |nodes|, key), n, key);
    assert forall i :: 0 <= i < |nodes| && i != n ==> nodes'[i].key == nodes[i].key;
    UsedFrom(nodes, nodes', n, n);
  }

  /** With the free node in use nothing above it is free. */
  lemma UsedFrom(nodes: seq<Node>, nodes': seq<Node>, n: nat, m: nat)
    requires UsedAbove(nodes, n + 1) && |nodes'| == |nodes| && Keyed(nodes', n) && Keyed(nodes', m)
    requires forall i :: 0 <= i < |nodes| && i != n && i != m ==> nodes'[i].key == nodes[i].key
    ensures UsedAbove(nodes', n)
  {
    forall i | 0 <= i < |nodes| && n <= i
      ensures Keyed(nodes', i)
    {
      if i != n && i != m { assert Keyed(nodes, i); }
    }
  }

  lemma MovedFill(hash: Hash, arr: seq<Value>, nodes: seq<Node>, lsize: nat, n: nat, prev: nat, key: Key)
    requires WellFormed(hash, arr, nodes, lsize, n + 1, false) && key != KNil && !InArray(|arr|, key)
    requires Movable(nodes, MainPos(hash, |nodes|, key), n, prev)
      && Scatter(hash, Moved(nodes, MainPos(hash, |nodes|, key), n, prev, key))
    ensures WellFormed(hash, arr, Moved(nodes, MainPos(hash, |nodes|, key), n, prev, key), lsize, n, false)
  {
    hide Scatter;
    var m := MainPos(hash, |nodes|, key);
    MovableFacts(nodes, m, n, prev);
    var nodes' := Moved(nodes, m, n, prev, key);
    assert forall i :: 0 <= i < |nodes| && i != n && i != m ==> nodes'[i].key == nodes[i].key;
    hide Movable;
    UsedFrom(nodes, nodes', n, m);
  }
}
