/** routeMultiKeyToMux as a whole (pkg/engine/handler_routing.go): what a multi-key
    command is turned into, before anything is sent. */
module Routing {
  import opened Prelude
  import opened Slots
  import opened Grouping
  import opened Split
  import opened Merging
  import opened SplitLaws

  /** One sub-command and the node it goes to. */
  datatype Part = Part(addr: Addr, args: seq<Bytes>)

  datatype Plan =
    | WrongArity
    | Uncovered(slot: nat)
    | AsIs(addr: Addr)
    | FanOut(parts: seq<Part>, kind: MergeKind)
    | CannotSplit

  ghost predicate AllCovered(keys: seq<Bytes>, nodes: map<nat, Addr>) {
    forall i | 0 <= i < |keys| :: HashSlot(keys[i]) in nodes
  }

  /** The sub-command for a slot: the original restricted to that slot's keys. */
  ghost function PartFor(op: Op, args: seq<Bytes>, nodes: map<nat, Addr>, slot: nat): Part
    requires slot in nodes && CompletePairs(op, args)
  {
    var keys := KeysOf(op, args);
    SubLengths(keys, ValsOf(op, args), slot);
    Part(nodes[slot], ArgsOf(op, SubKeys(keys, slot), SubVals(keys, ValsOf(op, args), slot)))
  }

  /** One restricted sub-command per slot, in the order of first mention, and the
      merge function that puts their replies together. */
  ghost predicate Planned(op: Op, args: seq<Bytes>, nodes: map<nat, Addr>, parts: seq<Part>, kind: MergeKind) {
    var slots := SlotOrder(KeysOf(op, args));
    && CompletePairs(op, args) && |parts| == |slots| && kind == KindFor(op, KeysOf(op, args))
    && forall g | 0 <= g < |slots| :: slots[g] in nodes && parts[g] == PartFor(op, args, nodes, slots[g])
  }

  /** No key, a key without a node, one slot, or one sub-command per slot in the
      order of first mention; the split of an odd MSET panics. */
  method PlanMultiKey(op: Op, args: seq<Bytes>, nodes: map<nat, Addr>) returns (p: Plan)
    ensures p.WrongArity? <==> args == []
    ensures p.Uncovered? <==> !AllCovered(KeysOf(op, args), nodes)
    ensures p.Uncovered? ==>
              exists i: nat :: FirstUncovered(KeysOf(op, args), nodes, i) && p.slot == HashSlot(KeysOf(op, args)[i])
    ensures p.AsIs? ==>
              var slots := SlotOrder(KeysOf(op, args));
              |slots| == 1 && slots[0] in nodes && p.addr == nodes[slots[0]]
    ensures p.FanOut? ==> |SlotOrder(KeysOf(op, args))| >= 2 && Planned(op, args, nodes, p.parts, p.kind)
    ensures p.CannotSplit? <==> AllCovered(KeysOf(op, args), nodes) && |SlotOrder(KeysOf(op, args))| >= 2 && !CompletePairs(op, args)
  {
    hide HashSlot, IndicesOf, SubKeys, SlotOrder, KeysOf, PartFor;
    var keys := CollectKeys(op, args);
    if |keys| == 0 {
      NoKeys(op, args);
      return WrongArity;
    }
    var grouping := GroupBySlot(keys, nodes);
    if grouping.NoNode? {
      return Uncovered(grouping.slot);
    }
    var groups := grouping.groups;
    SomeSlot(keys);
    if |groups| == 1 {
      return AsIs(groups[0].addr);
    }
    p := PlanParts(op, args, nodes, keys, groups);
  }

  lemma NoKeys(op: Op, args: seq<Bytes>)
    requires KeysOf(op, args) == []
    ensures args == [] && SlotOrder(KeysOf(op, args)) == []
  {
  }

  lemma SomeSlot(keys: seq<Bytes>)
    requires keys != []
    ensures SlotOrder(keys) != []
  {
    SlotOrderCovers(keys, 0);
  }

  method PlanParts(op: Op, args: seq<Bytes>, ghost nodes: map<nat, Addr>, ghost keys: seq<Bytes>, groups: seq<Group>)
    returns (p: Plan)
    requires keys == KeysOf(op, args) && keys != [] && |groups| == |SlotOrder(keys)|
    requires forall g | 0 <= g < |groups| ::
               var s := SlotOrder(keys)[g];
               s in nodes && groups[g] == Group(nodes[s], IndicesOf(keys, s), SubKeys(keys, s))
    ensures p.FanOut? || p.CannotSplit?
    ensures p.CannotSplit? <==> !CompletePairs(op, args)
    ensures p.FanOut? ==> Planned(op, args, nodes, p.parts, p.kind)
  {
    hide HashSlot, IndicesOf, SubKeys, SlotOrder, KeysOf, PartFor, ValueAfter, GroupIndices;
    var kind := MergeFor(op, keys, groups, |KeysOf(op, args)|);
    var parts: seq<Part> := [];
    for g := 0 to |groups|
      invariant |parts| == g
      invariant forall h | 0 <= h < g && op == MSet :: AllHaveValues(args, groups[h].indices)
      invariant CompletePairs(op, args) ==> forall h | 0 <= h < g :: parts[h] == PartFor(op, args, nodes, SlotOrder(keys)[h])
    {
      ghost var s := SlotOrder(keys)[g];
      SubKeysAt(keys, s);
      var sub := SubArgs(op, args, groups[g]);
      if sub.None? {
        MissingMeansOdd(args, keys, s);
        return CannotSplit;
      }
      parts := parts + [Part(groups[g].addr, sub.value)];
      if CompletePairs(op, args) {
        PartIsRestriction(op, args, nodes, s, sub.value);
      }
    }
    if op == MSet {
      OddIsMissing(args, keys, groups);
    }
    return FanOut(parts, kind);
  }

  /** The positions of the groups' keys, for MGET. */
  method MergeFor(op: Op, ghost keys: seq<Bytes>, groups: seq<Group>, total: nat) returns (kind: MergeKind)
    requires |groups| == |SlotOrder(keys)| && total == |keys|
    requires forall g | 0 <= g < |groups| :: groups[g].indices == IndicesOf(keys, SlotOrder(keys)[g])
    ensures kind == KindFor(op, keys)
  {
    hide HashSlot, IndicesOf, SlotOrder, GroupIndices;
    if op == MGet {
      var indices: seq<seq<nat>> := [];
      for g := 0 to |groups|
        invariant |indices| == g && forall h | 0 <= h < g :: indices[h] == groups[h].indices
      {
        indices := indices + [groups[g].indices];
      }
      assert indices == GroupIndices(keys, SlotOrder(keys));
      return MergeMGet(indices, total);
    }
    return if op == MSet then MergeMSet else MergeCount;
  }

  predicate AllHaveValues(args: seq<Bytes>, indices: seq<nat>) {
    forall j | 0 <= j < |indices| :: ValueAfter(args, indices[j]).Some?
  }

  lemma PartIsRestriction(op: Op, args: seq<Bytes>, nodes: map<nat, Addr>, s: nat, sub: seq<Bytes>)
    requires s in nodes && CompletePairs(op, args)
    requires var keys := KeysOf(op, args); var ix := IndicesOf(keys, s);
             if op == MSet then
               |sub| == 2 * |ix| && forall j | 0 <= j < |ix| ::
                 sub[2 * j] == keys[ix[j]] && Some(sub[2 * j + 1]) == ValueAfter(args, ix[j])
             else sub == SubKeys(keys, s)
    ensures Part(nodes[s], sub) == PartFor(op, args, nodes, s)
  {
    hide HashSlot, IndicesOf, SubKeys, KeysOf;
    SubArgsOfSlot(op, args, s, sub);
  }

  lemma MissingMeansOdd(args: seq<Bytes>, keys: seq<Bytes>, s: nat)
    requires keys == KeysOf(MSet, args) && keys != []
    requires exists j :: 0 <= j < |IndicesOf(keys, s)| && ValueAfter(args, IndicesOf(keys, s)[j]).None?
    ensures |args| % 2 == 1
  {
    hide HashSlot;
    var j :| 0 <= j < |IndicesOf(keys, s)| && ValueAfter(args, IndicesOf(keys, s)[j]).None?;
    MissingValueIffOdd(args);
    assert IndicesOf(keys, s)[j] < |keys|;
  }

  lemma OddIsMissing(args: seq<Bytes>, keys: seq<Bytes>, groups: seq<Group>)
    requires keys == KeysOf(MSet, args) && keys != [] && |groups| == |SlotOrder(keys)|
    requires forall g | 0 <= g < |groups| :: groups[g].indices == IndicesOf(keys, SlotOrder(keys)[g])
    requires forall g | 0 <= g < |groups| :: AllHaveValues(args, groups[g].indices)
    ensures |args| % 2 == 0
  {
    hide HashSlot, SlotOrder, IndicesOf;
    var n := |keys| - 1;
    SlotOrderCovers(keys, n);
    var g :| 0 <= g < |groups| && SlotOrder(keys)[g] == HashSlot(keys[n]);
    var j := IndicesCover(keys, n);
    assert groups[g].indices[j] == n;
    assert ValueAfter(args, n).Some?;
  }

  lemma {:induction false} AllInSlot(keys: seq<Bytes>, vals: seq<Bytes>, slot: nat)
    requires |vals| == |keys| && forall i | 0 <= i < |keys| :: HashSlot(keys[i]) == slot
    ensures SubKeys(keys, slot) == keys && SubVals(keys, vals, slot) == vals
    decreases |keys|
  {
    hide HashSlot;
    if keys != [] {
      var n := |keys| - 1;
      AllInSlot(keys[..n], vals[..n], slot);
      assert keys == keys[..n] + [keys[n]] && vals == vals[..n] + [vals[n]];
    }
  }

  /** A command over one slot is its own only part: sending it as is, is the split. */
  lemma OneSlotIsWhole(op: Op, args: seq<Bytes>, nodes: map<nat, Addr>)
    requires CompletePairs(op, args) && |SlotOrder(KeysOf(op, args))| == 1 && SlotOrder(KeysOf(op, args))[0] in nodes
    ensures PartFor(op, args, nodes, SlotOrder(KeysOf(op, args))[0]).args == args
  {
    hide HashSlot, SlotOrder, KeysOf, ValsOf, ArgsOf, SubKeys, SubVals;
    var keys, vals := KeysOf(op, args), ValsOf(op, args);
    var slot := SlotOrder(keys)[0];
    forall i | 0 <= i < |keys| ensures HashSlot(keys[i]) == slot {
      SlotOrderCovers(keys, i);
    }
    AllInSlot(keys, vals, slot);
    ArgsOfWhole(op, args);
  }

  // ------------------------------------------------------------ the panic, exhibited

  /** Slots of two one-byte keys. */
  lemma LateSlots()
    ensures HashSlot([254]) == 0x0ed1 && HashSlot([255]) == 0x1ef0
  {
    hide HashSlot;
    OneByte(254, 0x0ed1);
    OneByte(255, 0x1ef0);
  }

  lemma OneByte(b: Byte, crc: bv16)
    requires b >= 254 && crc == TableEntry(b)
    ensures HashSlot([b]) == (crc as int) % CLUSTER_SLOTS
  {
    hide TableIndex;
    BraceFreeHasNoTag([b]);
    var empty: Bytes := [b][..0];
    assert TableIndex(0, b) == b by { FirstIndex(b); }
    assert |empty| == 0 && Crc16(empty) == 0;
    XorZero(crc);
    assert Crc16([b]) == crc;
  }

  lemma FirstIndex(b: Byte)
    requires b >= 254
    ensures TableIndex(0, b) == b
  {
  }

  lemma XorZero(crc: bv16)
    ensures ((0 as bv16) << 8) ^ crc == crc
  {
  }

  /** MSET of two keys and one value, whenever both keys' slots have a node, meets
      the condition under which PlanMultiKey panics. */
  lemma OddMsetPanics(nodes: map<nat, Addr>, value: Bytes)
    requires HashSlot([254]) in nodes && HashSlot([255]) in nodes
    ensures var args: seq<Bytes> := [[254], value, [255]];
            AllCovered(KeysOf(MSet, args), nodes) && |SlotOrder(KeysOf(MSet, args))| == 2 && !CompletePairs(MSet, args)
  {
    hide HashSlot;
    var args: seq<Bytes>, keys: seq<Bytes> := [[254], value, [255]], [[254], [255]];
    assert KeysOf(MSet, args) == keys;
    LateSlots();
    var first: seq<Bytes> := [[254]];
    assert keys[..1] == first && |first[..0]| == 0;
    assert SlotOrder(first) == [HashSlot([254])];
    assert SlotOrder(keys) == [HashSlot([254]), HashSlot([255])];
  }
}
