/**
 Splitting a multi-key command by slot (routeMultiKeyToMux in
 pkg/engine/handler_routing.go): grouping, and the sub-commands.
 */
module Grouping {
  import opened Prelude
  import opened Slots

  type Addr = Bytes

  // ------------------------------------------------------- what grouping means

  /** Positions, in order, of the keys that live in a slot. */
  ghost function IndicesOf(keys: seq<Bytes>, slot: nat): (r: seq<nat>)
    ensures forall j | 0 <= j < |r| :: r[j] < |keys| && HashSlot(keys[r[j]]) == slot
    ensures forall i, j | 0 <= i < j < |r| :: r[i] < r[j]
  {
    hide HashSlot;
    if keys == [] then []
    else
      var n := |keys| - 1;
      var front := IndicesOf(keys[..n], slot);
      if HashSlot(keys[n]) == slot then front + [n] else front
  }

  /** The keys of a slot, in order, duplicates kept. */
  ghost function SubKeys(keys: seq<Bytes>, slot: nat): seq<Bytes> {
    if keys == [] then []
    else
      var n := |keys| - 1;
      var front := SubKeys(keys[..n], slot);
      if HashSlot(keys[n]) == slot then front + [keys[n]] else front
  }

  /** The values that go with the keys of a slot. */
  ghost function SubVals(keys: seq<Bytes>, vals: seq<Bytes>, slot: nat): seq<Bytes>
    requires |vals| == |keys|
  {
    hide HashSlot;
    if keys == [] then []
    else
      var n := |keys| - 1;
      var front := SubVals(keys[..n], vals[..n], slot);
      if HashSlot(keys[n]) == slot then front + [vals[n]] else front
  }

  /** Slots in the order in which the keys first mention them. */
  ghost function SlotOrder(keys: seq<Bytes>): (r: seq<nat>)
    ensures forall i, j | 0 <= i < j < |r| :: r[i] != r[j]
  {
    hide HashSlot;
    if keys == [] then []
    else
      var n := |keys| - 1;
      var front := SlotOrder(keys[..n]);
      if HashSlot(keys[n]) in front then front else front + [HashSlot(keys[n])]
  }

  lemma {:induction false} SlotOrderCovers(keys: seq<Bytes>, i: nat)
    requires i < |keys|
    ensures HashSlot(keys[i]) in SlotOrder(keys)
  {
    hide HashSlot;
    var n := |keys| - 1;
    if i < n {
      assert keys[..n][i] == keys[i];
      SlotOrderCovers(keys[..n], i);
    }
  }

  /** Where a slot is first mentioned. */
  ghost predicate FirstMention(keys: seq<Bytes>, slot: nat, i: nat) {
    i < |keys| && HashSlot(keys[i]) == slot && forall j | 0 <= j < i :: HashSlot(keys[j]) != slot
  }

  /** The slots are exactly those of the keys, in the order of their first mention. */
  lemma {:induction false} OrderOfFirstMention(keys: seq<Bytes>, g: nat) returns (i: nat)
    requires g < |SlotOrder(keys)|
    ensures FirstMention(keys, SlotOrder(keys)[g], i)
    ensures forall h, j: nat | 0 <= h < g && FirstMention(keys, SlotOrder(keys)[h], j) :: j < i
    decreases |keys|
  {
    hide HashSlot;
    var n := |keys| - 1;
    var front := SlotOrder(keys[..n]);
    if g < |front| {
      i := OrderOfFirstMention(keys[..n], g);
      forall h, j: nat | 0 <= h < g && FirstMention(keys, SlotOrder(keys)[h], j) ensures j < i {
        var j' := OrderOfFirstMention(keys[..n], h);
        assert keys[j'] == keys[..n][j'];
        assert FirstMention(keys[..n], front[h], j');
        assert j == j';
      }
    } else {
      i := n;
      forall j | 0 <= j < n ensures HashSlot(keys[j]) != HashSlot(keys[n]) {
        SlotOrderCovers(keys[..n], j);
      }
      forall h, j: nat | 0 <= h < g && FirstMention(keys, SlotOrder(keys)[h], j) ensures j < i {
        var j' := OrderOfFirstMention(keys[..n], h);
        assert keys[j'] == keys[..n][j'];
      }
    }
  }

  lemma {:induction false} SubKeysAt(keys: seq<Bytes>, slot: nat)
    ensures |SubKeys(keys, slot)| == |IndicesOf(keys, slot)|
    ensures forall j | 0 <= j < |SubKeys(keys, slot)| :: SubKeys(keys, slot)[j] == keys[IndicesOf(keys, slot)[j]]
  {
    hide HashSlot;
    if keys != [] {
      var n := |keys| - 1;
      var front, ks := IndicesOf(keys[..n], slot), SubKeys(keys[..n], slot);
      SubKeysAt(keys[..n], slot);
      if HashSlot(keys[n]) == slot {
        assert IndicesOf(keys, slot) == front + [n] && SubKeys(keys, slot) == ks + [keys[n]];
      } else {
        assert IndicesOf(keys, slot) == front && SubKeys(keys, slot) == ks;
      }
    }
  }

  lemma {:induction false} SubValsAt(keys: seq<Bytes>, vals: seq<Bytes>, slot: nat)
    requires |vals| == |keys|
    ensures |SubVals(keys, vals, slot)| == |IndicesOf(keys, slot)|
    ensures forall j | 0 <= j < |SubVals(keys, vals, slot)| ::
              SubVals(keys, vals, slot)[j] == vals[IndicesOf(keys, slot)[j]]
  {
    hide HashSlot;
    if keys != [] {
      SubValsAt(keys[..|keys| - 1], vals[..|keys| - 1], slot);
    }
  }

  lemma {:induction false} SubKeysMember(keys: seq<Bytes>, slot: nat, k: Bytes)
    ensures k in SubKeys(keys, slot) <==> k in keys && HashSlot(k) == slot
  {
    hide HashSlot;
    if keys != [] {
      var n := |keys| - 1;
      SubKeysMember(keys[..n], slot, k);
      assert keys == keys[..n] + [keys[n]];
    }
  }

  /** Every position is listed under its own slot. */
  lemma {:induction false} IndicesCover(keys: seq<Bytes>, i: nat) returns (j: nat)
    requires i < |keys|
    ensures j < |IndicesOf(keys, HashSlot(keys[i]))| && IndicesOf(keys, HashSlot(keys[i]))[j] == i
  {
    hide HashSlot;
    var n := |keys| - 1;
    if i == n {
      j := |IndicesOf(keys[..n], HashSlot(keys[i]))|;
    } else {
      assert keys[..n][i] == keys[i];
      j := IndicesCover(keys[..n], i);
    }
  }

  // ------------------------------------------------------------- the grouping loop

  datatype Group = Group(addr: Addr, indices: seq<nat>, keys: seq<Bytes>)

  /** The groups of the source, read off `slotMap` in `slotOrder`. */
  ghost predicate Grouped(keys: seq<Bytes>, nodes: map<nat, Addr>, slotMap: map<nat, Group>, slotOrder: seq<nat>) {
    && slotOrder == SlotOrder(keys)
    && (forall s :: s in slotMap <==> s in slotOrder)
    && forall s | s in slotMap ::
         s in nodes && slotMap[s] == Group(nodes[s], IndicesOf(keys, s), SubKeys(keys, s))
  }

  /** One more key: its slot's group grows, or a new group opens. */
  lemma GroupedStep(keys: seq<Bytes>, k: Bytes, nodes: map<nat, Addr>, slotMap: map<nat, Group>, slotOrder: seq<nat>)
    requires Grouped(keys, nodes, slotMap, slotOrder) && HashSlot(k) in nodes
    ensures var s := HashSlot(k);
            if s in slotMap then
              Grouped(keys + [k], nodes,
                      slotMap[s := slotMap[s].(indices := slotMap[s].indices + [|keys|], keys := slotMap[s].keys + [k])], slotOrder)
            else
              Grouped(keys + [k], nodes, slotMap[s := Group(nodes[s], [|keys|], [k])], slotOrder + [s])
  {
    hide HashSlot;
    var all := keys + [k];
    assert all[..|all| - 1] == keys;
    NoIndices(keys, HashSlot(k));
  }

  lemma {:induction false} NoIndices(keys: seq<Bytes>, s: nat)
    ensures s !in SlotOrder(keys) ==> IndicesOf(keys, s) == [] && SubKeys(keys, s) == []
  {
    hide HashSlot;
    if keys != [] {
      NoIndices(keys[..|keys| - 1], s);
    }
  }

  /** Some key's slot is served by no node. */
  ghost predicate FirstUncovered(keys: seq<Bytes>, nodes: map<nat, Addr>, i: nat) {
    i < |keys| && HashSlot(keys[i]) !in nodes && forall j | 0 <= j < i :: HashSlot(keys[j]) in nodes
  }

  datatype Grouping = NoNode(slot: nat) | Groups(groups: seq<Group>)

  /** The groups are, slot by slot in order of first mention, exactly the keys of
      that slot at their original positions; the first key without a node is
      reported instead. */
  method GroupBySlot(keys: seq<Bytes>, nodes: map<nat, Addr>) returns (r: Grouping)
    ensures r.NoNode? ==> exists i: nat :: FirstUncovered(keys, nodes, i) && r.slot == HashSlot(keys[i])
    ensures r.Groups? ==> (forall i | 0 <= i < |keys| :: HashSlot(keys[i]) in nodes) && |r.groups| == |SlotOrder(keys)|
    ensures r.Groups? ==> forall g | 0 <= g < |r.groups| ::
                            var s := SlotOrder(keys)[g];
                            s in nodes && r.groups[g] == Group(nodes[s], IndicesOf(keys, s), SubKeys(keys, s))
  {
    hide HashSlot, IndicesOf, SubKeys, SlotOrder, Grouped;
    var slotMap: map<nat, Group> := map[];
    var slotOrder: seq<nat> := [];
    NothingGrouped(nodes);
    for i := 0 to |keys|
      invariant forall j | 0 <= j < i :: HashSlot(keys[j]) in nodes
      invariant Grouped(keys[..i], nodes, slotMap, slotOrder)
    {
      var k := keys[i];
      var slot := ComputeHashSlot(k);
      assert keys[..i + 1] == keys[..i] + [k];
      if slot in slotMap {
        GroupedHasNode(keys[..i], nodes, slotMap, slotOrder, slot);
        GroupedStep(keys[..i], k, nodes, slotMap, slotOrder);
        var sg := slotMap[slot];
        slotMap := slotMap[slot := sg.(indices := sg.indices + [i], keys := sg.keys + [k])];
      } else {
        if slot !in nodes {
          assert FirstUncovered(keys, nodes, i);
          return NoNode(slot);
        }
        GroupedStep(keys[..i], k, nodes, slotMap, slotOrder);
        slotMap := slotMap[slot := Group(nodes[slot], [i], [k])];
        slotOrder := slotOrder + [slot];
      }
    }
    assert keys[..|keys|] == keys;
    var groups := GroupsInOrder(keys, nodes, slotMap, slotOrder);
    return Groups(groups);
  }

  lemma NothingGrouped(nodes: map<nat, Addr>)
    ensures forall keys: seq<Bytes> | keys == [] :: Grouped(keys, nodes, map[], [])
  {
    hide HashSlot;
  }

  lemma GroupedHasNode(keys: seq<Bytes>, nodes: map<nat, Addr>, slotMap: map<nat, Group>, slotOrder: seq<nat>, s: nat)
    requires Grouped(keys, nodes, slotMap, slotOrder) && s in slotMap
    ensures s in nodes
  {
    hide HashSlot;
  }

  method GroupsInOrder(ghost keys: seq<Bytes>, ghost nodes: map<nat, Addr>, slotMap: map<nat, Group>, slotOrder: seq<nat>)
    returns (groups: seq<Group>)
    requires Grouped(keys, nodes, slotMap, slotOrder)
    ensures |groups| == |SlotOrder(keys)|
    ensures forall g | 0 <= g < |groups| ::
              var s := SlotOrder(keys)[g];
              s in nodes && groups[g] == Group(nodes[s], IndicesOf(keys, s), SubKeys(keys, s))
  {
    hide HashSlot, IndicesOf, SubKeys, SlotOrder;
    groups := [];
    for g := 0 to |slotOrder|
      invariant |groups| == g
      invariant forall h | 0 <= h < g :: groups[h] == slotMap[slotOrder[h]]
    {
      groups := groups + [slotMap[slotOrder[g]]];
    }
  }

  // ------------------------------------------------------------- sub-commands

  datatype Op = MGet | MSet | Del | Unlink | Exists | Touch

  /** MSET's argument list: key, value, key, value, ... */
  function Interleave(keys: seq<Bytes>, vals: seq<Bytes>): (r: seq<Bytes>)
    requires |vals| == |keys|
    ensures |r| == 2 * |keys|
    ensures forall i | 0 <= i < |keys| :: r[2 * i] == keys[i] && r[2 * i + 1] == vals[i]
  {
    if keys == [] then []
    else
      var n := |keys| - 1;
      Interleave(keys[..n], vals[..n]) + [keys[n], vals[n]]
  }

  /** The keys of a request, given its arguments after the command name. */
  function KeysOf(op: Op, args: seq<Bytes>): (keys: seq<Bytes>)
    ensures op != MSet ==> keys == args
    ensures op == MSet ==> |keys| == (|args| + 1) / 2 && forall i | 0 <= i < |keys| :: keys[i] == args[2 * i]
  {
    if op == MSet then seq((|args| + 1) / 2, i requires 0 <= i < (|args| + 1) / 2 => args[2 * i]) else args
  }

  method CollectKeys(op: Op, args: seq<Bytes>) returns (keys: seq<Bytes>)
    ensures keys == KeysOf(op, args)
  {
    if op != MSet { return args; }
    keys := [];
    var i := 0;
    while i < |args|
      invariant 0 <= i <= |args| + 1 && i == 2 * |keys|
      invariant forall j | 0 <= j < |keys| :: keys[j] == args[2 * j]
    {
      keys := keys + [args[i]];
      i := i + 2;
    }
  }

  /** The value that follows key `i` of an MSET, if there is one: the source
      indexes it unchecked, and Go panics when the last pair is incomplete. */
  function ValueAfter(args: seq<Bytes>, i: nat): Option<Bytes> {
    if 2 * i + 1 < |args| then Some(args[2 * i + 1]) else None
  }

  predicate CompletePairs(op: Op, args: seq<Bytes>) { op == MSet ==> |args| % 2 == 0 }

  function ValsOf(op: Op, args: seq<Bytes>): (vals: seq<Bytes>)
    requires CompletePairs(op, args)
    ensures |vals| == |KeysOf(op, args)|
    ensures op == MSet ==> forall i | 0 <= i < |vals| :: vals[i] == args[2 * i + 1]
  {
    if op == MSet then seq(|args| / 2, i requires 0 <= i < |args| / 2 => args[2 * i + 1]) else seq(|args|, i => [])
  }

  /** The arguments a command with these keys and values is sent with. */
  function ArgsOf(op: Op, keys: seq<Bytes>, vals: seq<Bytes>): seq<Bytes>
    requires |vals| == |keys|
  {
    if op == MSet then Interleave(keys, vals) else keys
  }

  lemma ArgsOfWhole(op: Op, args: seq<Bytes>)
    requires CompletePairs(op, args)
    ensures ArgsOf(op, KeysOf(op, args), ValsOf(op, args)) == args
  {
    hide Interleave, KeysOf, ValsOf;
    if op == MSet {
      var r := Interleave(KeysOf(op, args), ValsOf(op, args));
      forall i | 0 <= i < |args| ensures r[i] == args[i] {
        var j := i / 2;
        assert r[2 * j] == args[2 * j] && r[2 * j + 1] == args[2 * j + 1];
      }
    }
  }

  /** The sub-command of one group; None is the panic on a missing MSET value. */
  method SubArgs(op: Op, args: seq<Bytes>, group: Group) returns (sub: Option<seq<Bytes>>)
    requires |group.indices| == |group.keys|
    ensures op == MSet ==> (sub.None? <==> exists j :: 0 <= j < |group.indices| && ValueAfter(args, group.indices[j]).None?)
    ensures op != MSet ==> sub == Some(group.keys)
    ensures sub.Some? && op == MSet ==> |sub.value| == 2 * |group.keys|
    ensures sub.Some? && op == MSet ==> forall j | 0 <= j < |group.keys| ::
              sub.value[2 * j] == group.keys[j] && Some(sub.value[2 * j + 1]) == ValueAfter(args, group.indices[j])
  {
    if op != MSet { return Some(group.keys); }
    var out: seq<Bytes> := [];
    for j := 0 to |group.keys|
      invariant |out| == 2 * j
      invariant forall i | 0 <= i < j ::
                  out[2 * i] == group.keys[i] && Some(out[2 * i + 1]) == ValueAfter(args, group.indices[i])
    {
      var v := ValueAfter(args, group.indices[j]);
      if v.None? { return None; }
      out := out + [group.keys[j], v.value];
    }
    return Some(out);
  }

  /** With complete pairs no sub-command panics, and each is the original command
      restricted to its slot. */
  lemma SubArgsOfSlot(op: Op, args: seq<Bytes>, slot: nat, sub: seq<Bytes>)
    requires CompletePairs(op, args)
    requires var keys := KeysOf(op, args); var ix := IndicesOf(keys, slot);
             if op == MSet then
               |sub| == 2 * |ix| && forall j | 0 <= j < |ix| ::
                 sub[2 * j] == keys[ix[j]] && Some(sub[2 * j + 1]) == ValueAfter(args, ix[j])
             else sub == SubKeys(keys, slot)
    ensures var keys := KeysOf(op, args);
            |SubVals(keys, ValsOf(op, args), slot)| == |SubKeys(keys, slot)| &&
            sub == ArgsOf(op, SubKeys(keys, slot), SubVals(keys, ValsOf(op, args), slot))
  {
    hide HashSlot;
    var keys, vals := KeysOf(op, args), ValsOf(op, args);
    SubKeysAt(keys, slot);
    SubValsAt(keys, vals, slot);
    if op == MSet {
      var ix := IndicesOf(keys, slot);
      var want := Interleave(SubKeys(keys, slot), SubVals(keys, vals, slot));
      forall i | 0 <= i < |sub| ensures sub[i] == want[i] {
        var j := i / 2;
        assert i == 2 * j || i == 2 * j + 1;
        assert ValueAfter(args, ix[j]) == Some(vals[ix[j]]);
      }
    }
  }

  /** The panic condition, exactly: some key of a split MSET has no value after it
      if and only if the argument count is odd. */
  lemma MissingValueIffOdd(args: seq<Bytes>)
    requires args != []
    ensures (exists i :: 0 <= i < |KeysOf(MSet, args)| && ValueAfter(args, i).None?) <==> |args| % 2 == 1
  {
    var n := |KeysOf(MSet, args)|;
    if |args| % 2 == 1 {
      assert ValueAfter(args, n - 1).None?;
    }
  }
}
