/**
 What a multi-key command means, and why running its per-slot sub-commands in
 any order and merging their replies means the same.
 */
module Split {
  import opened Prelude
  import opened Resp
  import opened Slots
  import opened Grouping

  /** The keyspace of the cluster; each key belongs to the node of its slot. */
  type Store = map<Bytes, Bytes>

  function Get(st: Store, k: Bytes): Option<Bytes> { if k in st then Some(st[k]) else None }

  /** The store after the command ran over its keys from left to right. */
  function Apply(op: Op, st: Store, keys: seq<Bytes>, vals: seq<Bytes>): Store
    requires |vals| == |keys|
    decreases |keys|
  {
    if keys == [] then st
    else
      var n := |keys| - 1;
      var front := Apply(op, st, keys[..n], vals[..n]);
      match op
      case MSet => front[keys[n] := vals[n]]
      case Del => front - {keys[n]}
      case Unlink => front - {keys[n]}
      case _ => front
  }

  /** How many keys the command found, each looked up when its turn came. */
  function Count(op: Op, st: Store, keys: seq<Bytes>, vals: seq<Bytes>): (c: nat)
    requires |vals| == |keys|
    ensures c <= |keys|
    decreases |keys|
  {
    if keys == [] then 0
    else
      var n := |keys| - 1;
      Count(op, st, keys[..n], vals[..n]) + (if keys[n] in Apply(op, st, keys[..n], vals[..n]) then 1 else 0)
  }

  function BulkOrNil(v: Option<Bytes>): Value { if v.Some? then Bulk(v.value) else NilBulk }

  function Lookups(st: Store, keys: seq<Bytes>): (r: seq<Value>)
    ensures |r| == |keys|
    ensures forall i | 0 <= i < |keys| :: r[i] == BulkOrNil(Get(st, keys[i]))
  {
    seq(|keys|, i requires 0 <= i < |keys| => BulkOrNil(Get(st, keys[i])))
  }

  const OK: Bytes := Ascii("OK")

  function Reply(op: Op, st: Store, keys: seq<Bytes>, vals: seq<Bytes>): Value
    requires |vals| == |keys|
  {
    match op
    case MGet => Array(Lookups(st, keys))
    case MSet => Simple(OK)
    case _ => Integer(Count(op, st, keys, vals))
  }

  // ------------------------------------------------------ what the commands mean

  predicate LastAt(keys: seq<Bytes>, k: Bytes, i: nat) {
    i < |keys| && keys[i] == k && forall j | i < j < |keys| :: keys[j] != k
  }

  /** MSET leaves the last value given for a key, DEL and UNLINK leave no key, the others
      change nothing, and nothing touches a key that is not named. */
  lemma {:induction false} StoreMeans(op: Op, st: Store, keys: seq<Bytes>, vals: seq<Bytes>, k: Bytes)
    requires |vals| == |keys|
    ensures var st' := Apply(op, st, keys, vals);
            && (k !in keys || op !in {MSet, Del, Unlink} ==> Get(st', k) == Get(st, k))
            && (op == MSet ==> forall i: nat | LastAt(keys, k, i) :: Get(st', k) == Some(vals[i]))
            && (op in {Del, Unlink} && k in keys ==> Get(st', k) == None)
    decreases |keys|
  {
    if keys != [] {
      var n := |keys| - 1;
      StoreMeans(op, st, keys[..n], vals[..n], k);
      assert keys == keys[..n] + [keys[n]];
      forall i: nat | LastAt(keys, k, i) && i < n ensures LastAt(keys[..n], k, i) && keys[n] != k {
      }
    }
  }

  /** The mentions of keys that are in the store. */
  ghost function Mentions(st: Store, keys: seq<Bytes>): set<nat> { set i: nat | i < |keys| && keys[i] in st }

  ghost function Present(st: Store, keys: seq<Bytes>): set<Bytes> { set k | k in keys && k in st }

  lemma OneMoreMention(st: Store, front: seq<Bytes>, k: Bytes)
    ensures |Mentions(st, front + [k])| == |Mentions(st, front)| + (if k in st then 1 else 0)
  {
    var keys, before := front + [k], Mentions(st, front);
    forall i: nat ensures i in Mentions(st, keys) <==> i in before || (i == |front| && k in st) {
      if i < |front| {
        assert keys[i] == front[i];
      }
    }
    assert Mentions(st, keys) == if k in st then before + {|front|} else before;
  }

  lemma OneMorePresent(st: Store, front: seq<Bytes>, k: Bytes)
    ensures |Present(st, front + [k])| == |Present(st, front)| + (if k in st && k !in front then 1 else 0)
  {
    var before := Present(st, front);
    assert Present(st, front + [k]) == if k in st then before + {k} else before;
    if k in st && k in front {
      assert before + {k} == before;
    }
  }

  /** EXISTS and TOUCH count every mention of a key that is there; DEL and UNLINK count
      every key that is there once. */
  lemma {:induction false} CountMeans(op: Op, st: Store, keys: seq<Bytes>, vals: seq<Bytes>)
    requires |vals| == |keys|
    ensures op in {Exists, Touch} ==> Count(op, st, keys, vals) == |Mentions(st, keys)|
    ensures op in {Del, Unlink} ==> Count(op, st, keys, vals) == |Present(st, keys)|
    decreases |keys|
  {
    hide Mentions, Present, Apply;
    if keys == [] {
      NoMentions(st);
    } else {
      var n := |keys| - 1;
      var front, k := keys[..n], keys[n];
      CountMeans(op, st, front, vals[..n]);
      StoreMeans(op, st, front, vals[..n], k);
      assert keys == front + [k];
      OneMoreMention(st, front, k);
      OneMorePresent(st, front, k);
      assert k in Apply(op, st, front, vals[..n]) <==> Get(Apply(op, st, front, vals[..n]), k).Some?;
    }
  }

  lemma NoMentions(st: Store)
    ensures Mentions(st, []) == {} && Present(st, []) == {}
  {
  }

  // -------------------------------------------------- one sub-command is local

  /** The two stores agree on every key of a slot. */
  ghost predicate Agree(a: Store, b: Store, slot: nat) {
    forall k: Bytes | HashSlot(k) == slot :: Get(a, k) == Get(b, k)
  }

  lemma SubLengths(keys: seq<Bytes>, vals: seq<Bytes>, slot: nat)
    requires |vals| == |keys|
    ensures |SubVals(keys, vals, slot)| == |SubKeys(keys, slot)|
  {
    SubKeysAt(keys, slot);
    SubValsAt(keys, vals, slot);
  }

  ghost function ApplySub(op: Op, st: Store, keys: seq<Bytes>, vals: seq<Bytes>, slot: nat): Store
    requires |vals| == |keys|
  {
    SubLengths(keys, vals, slot);
    Apply(op, st, SubKeys(keys, slot), SubVals(keys, vals, slot))
  }

  ghost function ReplySub(op: Op, st: Store, keys: seq<Bytes>, vals: seq<Bytes>, slot: nat): Value
    requires |vals| == |keys|
  {
    SubLengths(keys, vals, slot);
    Reply(op, st, SubKeys(keys, slot), SubVals(keys, vals, slot))
  }

  /** Unrolling of a sub-command by one key of the whole command. */
  lemma ApplySubStep(op: Op, st: Store, keys: seq<Bytes>, vals: seq<Bytes>, slot: nat)
    requires |vals| == |keys| && keys != []
    ensures var n := |keys| - 1;
            var front := ApplySub(op, st, keys[..n], vals[..n], slot);
            ApplySub(op, st, keys, vals, slot) ==
            if HashSlot(keys[n]) != slot then front
            else match op
                 case MSet => front[keys[n] := vals[n]]
                 case Del => front - {keys[n]}
                 case Unlink => front - {keys[n]}
                 case _ => front
  {
    hide HashSlot;
    var n := |keys| - 1;
    var ks, vs := SubKeys(keys[..n], slot), SubVals(keys[..n], vals[..n], slot);
    SubLengths(keys[..n], vals[..n], slot);
    SubLengths(keys, vals, slot);
    if HashSlot(keys[n]) == slot {
      assert SubKeys(keys, slot)[..|ks|] == ks && SubVals(keys, vals, slot)[..|ks|] == vs;
    }
  }

  /** On the keys of its slot a sub-command does what the whole command does. */
  lemma {:induction false} SubMatchesWhole(op: Op, st: Store, st': Store, keys: seq<Bytes>, vals: seq<Bytes>, k: Bytes)
    requires |vals| == |keys| && Get(st, k) == Get(st', k)
    ensures Get(ApplySub(op, st', keys, vals, HashSlot(k)), k) == Get(Apply(op, st, keys, vals), k)
    decreases |keys|
  {
    hide HashSlot, ApplySub;
    if keys == [] {
      SubOfNothing(op, st', keys, vals, HashSlot(k));
    } else {
      var n := |keys| - 1;
      SubMatchesWhole(op, st, st', keys[..n], vals[..n], k);
      ApplySubStep(op, st', keys, vals, HashSlot(k));
    }
  }

  lemma SubOfNothing(op: Op, st: Store, keys: seq<Bytes>, vals: seq<Bytes>, slot: nat)
    requires keys == vals == []
    ensures ApplySub(op, st, keys, vals, slot) == st
  {
  }

  /** A sub-command leaves keys of other slots alone. */
  lemma {:induction false} SubLeavesOthers(op: Op, st: Store, keys: seq<Bytes>, vals: seq<Bytes>, slot: nat, k: Bytes)
    requires |vals| == |keys| && HashSlot(k) != slot
    ensures Get(ApplySub(op, st, keys, vals, slot), k) == Get(st, k)
    decreases |keys|
  {
    hide HashSlot, ApplySub;
    if keys == [] {
      SubOfNothing(op, st, keys, vals, slot);
    } else {
      var n := |keys| - 1;
      SubLeavesOthers(op, st, keys[..n], vals[..n], slot, k);
      ApplySubStep(op, st, keys, vals, slot);
    }
  }

  // --------------------------------------------------- counts add up over slots

  /** The part of the whole command's count that comes from keys of one slot. */
  ghost function SlotCount(op: Op, st: Store, keys: seq<Bytes>, vals: seq<Bytes>, slot: nat): (c: nat)
    requires |vals| == |keys|
    decreases |keys|
  {
    hide HashSlot;
    if keys == [] then 0
    else
      var n := |keys| - 1;
      SlotCount(op, st, keys[..n], vals[..n], slot) +
      (if HashSlot(keys[n]) == slot && keys[n] in Apply(op, st, keys[..n], vals[..n]) then 1 else 0)
  }

  ghost function CountSub(op: Op, st: Store, keys: seq<Bytes>, vals: seq<Bytes>, slot: nat): nat
    requires |vals| == |keys|
  {
    SubLengths(keys, vals, slot);
    Count(op, st, SubKeys(keys, slot), SubVals(keys, vals, slot))
  }

  lemma CountSubStep(op: Op, st: Store, keys: seq<Bytes>, vals: seq<Bytes>, slot: nat)
    requires |vals| == |keys| && keys != []
    ensures var n := |keys| - 1;
            CountSub(op, st, keys, vals, slot) == CountSub(op, st, keys[..n], vals[..n], slot) +
            (if HashSlot(keys[n]) == slot && keys[n] in ApplySub(op, st, keys[..n], vals[..n], slot) then 1 else 0)
  {
    hide HashSlot, Apply;
    var n := |keys| - 1;
    var ks, vs := SubKeys(keys[..n], slot), SubVals(keys[..n], vals[..n], slot);
    SubLengths(keys[..n], vals[..n], slot);
    SubLengths(keys, vals, slot);
    if HashSlot(keys[n]) == slot {
      assert SubKeys(keys, slot)[..|ks|] == ks && SubVals(keys, vals, slot)[..|ks|] == vs;
    }
  }

  lemma {:induction false} SubCount(op: Op, st: Store, st': Store, keys: seq<Bytes>, vals: seq<Bytes>, slot: nat)
    requires |vals| == |keys| && Agree(st, st', slot)
    ensures CountSub(op, st', keys, vals, slot) == SlotCount(op, st, keys, vals, slot)
    decreases |keys|
  {
    hide HashSlot, Apply, ApplySub;
    if keys != [] {
      hide CountSub;
      var n := |keys| - 1;
      SubCount(op, st, st', keys[..n], vals[..n], slot);
      CountSubStep(op, st', keys, vals, slot);
      if HashSlot(keys[n]) == slot {
        SubMatchesWhole(op, st, st', keys[..n], vals[..n], keys[n]);
      }
    }
  }

  ghost function SumOver(op: Op, st: Store, keys: seq<Bytes>, vals: seq<Bytes>, slots: seq<nat>): nat
    requires |vals| == |keys|
    decreases |slots|
  {
    if slots == [] then 0
    else SumOver(op, st, keys, vals, slots[..|slots| - 1]) + SlotCount(op, st, keys, vals, slots[|slots| - 1])
  }

  predicate Distinct(s: seq<nat>) { forall i, j | 0 <= i < j < |s| :: s[i] != s[j] }

  lemma {:induction false} SumStep(op: Op, st: Store, keys: seq<Bytes>, vals: seq<Bytes>, slots: seq<nat>)
    requires |vals| == |keys| && keys != [] && Distinct(slots)
    ensures var n := |keys| - 1;
            SumOver(op, st, keys, vals, slots) ==
            SumOver(op, st, keys[..n], vals[..n], slots) +
            (if HashSlot(keys[n]) in slots && keys[n] in Apply(op, st, keys[..n], vals[..n]) then 1 else 0)
    decreases |slots|
  {
    hide HashSlot, Apply;
    if slots != [] {
      var m := |slots| - 1;
      SumStep(op, st, keys, vals, slots[..m]);
      assert slots == slots[..m] + [slots[m]];
    }
  }

  lemma {:induction false} CountSums(op: Op, st: Store, keys: seq<Bytes>, vals: seq<Bytes>, slots: seq<nat>)
    requires |vals| == |keys| && Distinct(slots)
    requires forall i | 0 <= i < |keys| :: HashSlot(keys[i]) in slots
    ensures Count(op, st, keys, vals) == SumOver(op, st, keys, vals, slots)
    decreases |keys|
  {
    hide HashSlot, Apply;
    if keys == [] {
      EmptySum(op, st, keys, vals, slots);
    } else {
      var n := |keys| - 1;
      assert forall i | 0 <= i < n :: keys[..n][i] == keys[i];
      CountSums(op, st, keys[..n], vals[..n], slots);
      SumStep(op, st, keys, vals, slots);
    }
  }

  lemma {:induction false} EmptySum(op: Op, st: Store, keys: seq<Bytes>, vals: seq<Bytes>, slots: seq<nat>)
    requires keys == vals == []
    ensures SumOver(op, st, keys, vals, slots) == 0
    decreases |slots|
  {
    if slots != [] {
      EmptySum(op, st, keys, vals, slots[..|slots| - 1]);
    }
  }

  // ------------------------------------------------ sub-commands in any order

  /** The store and the replies after some sub-commands ran one after another. */
  datatype Ran = Ran(store: Store, replies: map<nat, Value>)

  predicate Picks(order: seq<nat>, n: nat) { Distinct(order) && forall i | 0 <= i < |order| :: order[i] < n }

  /** Run the sub-commands of slots[order[0]], slots[order[1]], ... */
  ghost function RunSubs(op: Op, st: Store, keys: seq<Bytes>, vals: seq<Bytes>, slots: seq<nat>, order: seq<nat>): Ran
    requires |vals| == |keys|
    requires forall i | 0 <= i < |order| :: order[i] < |slots|
    decreases |order|
  {
    if order == [] then Ran(st, map[])
    else
      var n := |order| - 1;
      var prev := RunSubs(op, st, keys, vals, slots, order[..n]);
      var slot := slots[order[n]];
      Ran(ApplySub(op, prev.store, keys, vals, slot),
          prev.replies[order[n] := ReplySub(op, prev.store, keys, vals, slot)])
  }

  ghost predicate RunOn(slots: seq<nat>, order: seq<nat>, slot: nat) {
    exists i :: 0 <= i < |order| && order[i] < |slots| && slots[order[i]] == slot
  }

  /** After any selection of sub-commands in any order, keys of the slots already
      run are as the whole command leaves them and all others are untouched. */
  lemma {:induction false} RunStore(op: Op, st: Store, keys: seq<Bytes>, vals: seq<Bytes>, slots: seq<nat>, order: seq<nat>, k: Bytes)
    requires |vals| == |keys| && Distinct(slots) && Picks(order, |slots|)
    ensures Get(RunSubs(op, st, keys, vals, slots, order).store, k) ==
            if RunOn(slots, order, HashSlot(k)) then Get(Apply(op, st, keys, vals), k) else Get(st, k)
    decreases |order|
  {
    hide HashSlot, Apply, ApplySub, ReplySub;
    if order != [] {
      var n := |order| - 1;
      var front, slot := order[..n], slots[order[n]];
      var prev := RunSubs(op, st, keys, vals, slots, front);
      RunStore(op, st, keys, vals, slots, front, k);
      RunOnSnoc(slots, order, HashSlot(k));
      if HashSlot(k) == slot {
        SubMatchesWhole(op, st, prev.store, keys, vals, k);
      } else {
        SubLeavesOthers(op, prev.store, keys, vals, slot, k);
      }
    }
  }

  lemma RunOnSnoc(slots: seq<nat>, order: seq<nat>, slot: nat)
    requires Distinct(slots) && Picks(order, |slots|) && order != []
    ensures RunOn(slots, order, slot) <==> RunOn(slots, order[..|order| - 1], slot) || slots[order[|order| - 1]] == slot
    ensures !RunOn(slots, order[..|order| - 1], slots[order[|order| - 1]])
  {
    var n := |order| - 1;
    var front := order[..n];
    assert forall i | 0 <= i < n :: front[i] == order[i];
    if RunOn(slots, front, slot) {
      var i :| 0 <= i < n && slots[front[i]] == slot;
      assert slots[order[i]] == slot;
    }
    if RunOn(slots, order, slot) && slots[order[n]] != slot {
      var i :| 0 <= i < |order| && slots[order[i]] == slot;
      assert slots[front[i]] == slot;
    }
  }

  /** Every sub-command sees its slot as it was before the split began, so its
      reply does not depend on the order. */
  lemma {:induction false} RunReplies(op: Op, st: Store, keys: seq<Bytes>, vals: seq<Bytes>, slots: seq<nat>, order: seq<nat>, g: nat)
    requires |vals| == |keys| && Distinct(slots) && Picks(order, |slots|) && g in order
    ensures g in RunSubs(op, st, keys, vals, slots, order).replies
    ensures RunSubs(op, st, keys, vals, slots, order).replies[g] == ReplySub(op, st, keys, vals, slots[g])
    decreases |order|
  {
    hide HashSlot, Apply, ApplySub, ReplySub;
    var n := |order| - 1;
    var front, slot := order[..n], slots[order[n]];
    var prev := RunSubs(op, st, keys, vals, slots, front);
    if g == order[n] {
      RunOnSnoc(slots, order, slot);
      forall k: Bytes | HashSlot(k) == slot ensures Get(prev.store, k) == Get(st, k) {
        RunStore(op, st, keys, vals, slots, front, k);
      }
      ReplyLocal(op, st, prev.store, keys, vals, slot);
    } else {
      assert order == front + [order[n]];
      RunReplies(op, st, keys, vals, slots, front, g);
    }
  }

  lemma ReplyLocal(op: Op, st: Store, st': Store, keys: seq<Bytes>, vals: seq<Bytes>, slot: nat)
    requires |vals| == |keys| && Agree(st, st', slot)
    ensures ReplySub(op, st, keys, vals, slot) == ReplySub(op, st', keys, vals, slot)
  {
    hide HashSlot;
    SubLengths(keys, vals, slot);
    SubCount(op, st, st', keys, vals, slot);
    SubCount(op, st, st, keys, vals, slot);
    var ks := SubKeys(keys, slot);
    forall i | 0 <= i < |ks| ensures Get(st, ks[i]) == Get(st', ks[i]) {
      SubKeysMember(keys, slot, ks[i]);
    }
    assert Lookups(st, ks) == Lookups(st', ks);
  }

  /** The store half of the theorem: once every slot's sub-command has run, in
      whatever order, the store is the one the undivided command leaves. */
  lemma SplitStore(op: Op, st: Store, keys: seq<Bytes>, vals: seq<Bytes>, order: seq<nat>)
    requires |vals| == |keys|
    requires Picks(order, |SlotOrder(keys)|) && forall g | 0 <= g < |SlotOrder(keys)| :: g in order
    ensures RunSubs(op, st, keys, vals, SlotOrder(keys), order).store == Apply(op, st, keys, vals)
  {
    hide HashSlot, RunSubs, SlotOrder;
    var slots := SlotOrder(keys);
    var ran, whole := RunSubs(op, st, keys, vals, slots, order).store, Apply(op, st, keys, vals);
    forall k: Bytes ensures Get(ran, k) == Get(whole, k) {
      RunStore(op, st, keys, vals, slots, order, k);
      if HashSlot(k) in slots {
        var g :| 0 <= g < |slots| && slots[g] == HashSlot(k);
        assert g in order;
        var i :| 0 <= i < |order| && order[i] == g;
        assert RunOn(slots, order, HashSlot(k));
      } else {
        UntouchedKey(op, st, keys, vals, k);
      }
    }
    assert forall k: Bytes :: (k in ran <==> Get(ran, k).Some?) && (k in whole <==> Get(whole, k).Some?);
    assert forall k | k in ran :: Get(ran, k) == Some(ran[k]) && Get(whole, k) == Some(whole[k]);
  }

  lemma {:induction false} UntouchedKey(op: Op, st: Store, keys: seq<Bytes>, vals: seq<Bytes>, k: Bytes)
    requires |vals| == |keys| && HashSlot(k) !in SlotOrder(keys)
    ensures Get(Apply(op, st, keys, vals), k) == Get(st, k)
    decreases |keys|
  {
    hide HashSlot;
    if keys != [] {
      UntouchedKey(op, st, keys[..|keys| - 1], vals[..|keys| - 1], k);
    }
  }
}
