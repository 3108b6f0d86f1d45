/** Splitting, running and merging a multi-key command equals running it whole. */
module SplitLaws {
  import opened Prelude
  import opened Resp
  import opened RespLaws
  import opened Slots
  import opened Grouping
  import opened Split
  import opened Merging

  /** The merge function the source picks for a command over these keys. */
  ghost function KindFor(op: Op, keys: seq<Bytes>): MergeKind {
    match op
    case MGet => MergeMGet(GroupIndices(keys, SlotOrder(keys)), |keys|)
    case MSet => MergeMSet
    case _ => MergeCount
  }

  ghost function GroupIndices(keys: seq<Bytes>, slots: seq<nat>): (r: seq<seq<nat>>)
    ensures |r| == |slots| && forall g | 0 <= g < |slots| :: r[g] == IndicesOf(keys, slots[g])
  {
    seq(|slots|, g requires 0 <= g < |slots| => IndicesOf(keys, slots[g]))
  }

  lemma IndicesFit(keys: seq<Bytes>, slots: seq<nat>)
    ensures Fits(GroupIndices(keys, slots), |keys|)
  {
    hide HashSlot, IndicesOf;
  }

  /** The raw sub-replies when no sub-command fails: what each slot's node prints. */
  ghost predicate Answered(op: Op, st: Store, keys: seq<Bytes>, vals: seq<Bytes>, subs: seq<Bytes>)
    requires |vals| == |keys|
  {
    && |subs| == |SlotOrder(keys)|
    && forall g | 0 <= g < |subs| ::
         subs[g] == Encode(ReplySub(op, st, keys, vals, SlotOrder(keys)[g])) && |subs[g]| <= INT64_MAX
  }

  predicate PlainBulks(vs: seq<Value>) { forall i | 0 <= i < |vs| :: vs[i].Bulk? || vs[i].NilBulk? }

  lemma {:induction false} BulksPrintable(vs: seq<Value>)
    requires PlainBulks(vs)
    ensures AllPrintable(vs) && CanonAll(vs) == vs
    decreases |vs|
  {
    if vs != [] {
      assert forall i | 0 <= i < |vs[1..]| :: vs[1..][i] == vs[i + 1];
      BulksPrintable(vs[1..]);
    }
  }

  /** A sub-reply parses back to the value its node computed. */
  lemma SubReplyParses(op: Op, st: Store, keys: seq<Bytes>, vals: seq<Bytes>)
    requires |vals| == |keys| && |keys| <= INT64_MAX
    requires |Encode(Reply(op, st, keys, vals))| <= INT64_MAX
    ensures var v := Reply(op, st, keys, vals);
            ParseAt(Encode(v), 0) == Done(v, |Encode(v)|) && !v.Error?
  {
    hide Encode, ParseAt;
    var v := Reply(op, st, keys, vals);
    if op == MGet {
      BulksPrintable(v.elems);
    }
    assert Printable(v) && Canon(v) == v;
    RoundTrip(Encode(v), 0, v);
  }

  lemma SubParses(op: Op, st: Store, keys: seq<Bytes>, vals: seq<Bytes>, subs: seq<Bytes>, g: nat)
    requires |vals| == |keys| && |keys| <= INT64_MAX && Answered(op, st, keys, vals, subs) && g < |subs|
    ensures var v := ReplySub(op, st, keys, vals, SlotOrder(keys)[g]);
            ParseAt(subs[g], 0) == Done(v, |subs[g]|) && !v.Error?
  {
    hide HashSlot, Encode, ParseAt, Reply, SubKeys, SubVals;
    var slot := SlotOrder(keys)[g];
    SubLengths(keys, vals, slot);
    SubKeysAt(keys, slot);
    IndicesBound(keys, slot);
    SubReplyParses(op, st, SubKeys(keys, slot), SubVals(keys, vals, slot));
  }

  lemma {:induction false} IndicesBound(keys: seq<Bytes>, slot: nat)
    ensures |IndicesOf(keys, slot)| <= |keys|
  {
    hide HashSlot;
    if keys != [] {
      IndicesBound(keys[..|keys| - 1], slot);
    }
  }

  lemma NoFailures(op: Op, st: Store, keys: seq<Bytes>, vals: seq<Bytes>, subs: seq<Bytes>, needValue: bool)
    requires |vals| == |keys| && |keys| <= INT64_MAX && Answered(op, st, keys, vals, subs)
    ensures FirstFailure(subs, needValue) == None
  {
    hide HashSlot, ReplySub, ParseAt, Encode, FirstFailure;
    forall g | 0 <= g < |subs| ensures Failure(subs[g], needValue).None? {
      SubParses(op, st, keys, vals, subs, g);
    }
    FirstFailureAt(subs, needValue, |subs|);
  }

  // ------------------------------------------------------------------- counts

  lemma {:induction false} TotalIsSum(op: Op, st: Store, keys: seq<Bytes>, vals: seq<Bytes>, subs: seq<Bytes>, g: nat)
    requires op in {Del, Unlink, Exists, Touch}
    requires |vals| == |keys| && |keys| <= INT64_MAX && Answered(op, st, keys, vals, subs) && g <= |subs|
    ensures Total(subs[..g]) == SumOver(op, st, keys, vals, SlotOrder(keys)[..g])
    decreases g
  {
    hide HashSlot, ParseAt, Encode, SlotOrder, SubKeys, SubVals, Count, SlotCount;
    if g > 0 {
      var slots := SlotOrder(keys);
      TotalIsSum(op, st, keys, vals, subs, g - 1);
      assert subs[..g][..g - 1] == subs[..g - 1] && slots[..g][..g - 1] == slots[..g - 1];
      SubParses(op, st, keys, vals, subs, g - 1);
      SubLengths(keys, vals, slots[g - 1]);
      SubCount(op, st, st, keys, vals, slots[g - 1]);
      PartialSum(op, st, keys, vals, slots, g);
    }
  }

  lemma PartialSum(op: Op, st: Store, keys: seq<Bytes>, vals: seq<Bytes>, slots: seq<nat>, g: nat)
    requires |vals| == |keys| && g <= |slots| && slots == SlotOrder(keys)
    ensures 0 <= SumOver(op, st, keys, vals, slots[..g]) <= |keys|
  {
    hide HashSlot, SumOver, SlotOrder;
    SumGrows(op, st, keys, vals, slots, g);
    WholeCount(op, st, keys, vals);
  }

  lemma {:induction false} SumGrows(op: Op, st: Store, keys: seq<Bytes>, vals: seq<Bytes>, slots: seq<nat>, g: nat)
    requires |vals| == |keys| && g <= |slots|
    ensures SumOver(op, st, keys, vals, slots[..g]) <= SumOver(op, st, keys, vals, slots)
    decreases |slots| - g
  {
    if g == |slots| {
      assert slots[..g] == slots;
    } else {
      SumGrows(op, st, keys, vals, slots, g + 1);
      assert slots[..g + 1][..g] == slots[..g];
    }
  }

  lemma WholeCount(op: Op, st: Store, keys: seq<Bytes>, vals: seq<Bytes>)
    requires |vals| == |keys|
    ensures Count(op, st, keys, vals) == SumOver(op, st, keys, vals, SlotOrder(keys))
  {
    hide HashSlot, SlotOrder, SumOver;
    forall i | 0 <= i < |keys| ensures HashSlot(keys[i]) in SlotOrder(keys) {
      SlotOrderCovers(keys, i);
    }
    CountSums(op, st, keys, vals, SlotOrder(keys));
  }

  // --------------------------------------------------------------------- MGET

  lemma {:induction false} PlaceAt(results: Results, ix: seq<nat>, elems: seq<Value>, j: nat, i: nat)
    requires j <= |ix| && j <= |elems| && i < |results|
    requires forall m | 0 <= m < |ix| :: ix[m] < |results|
    requires forall m, n | 0 <= m < n < |ix| :: ix[m] < ix[n]
    ensures forall m | 0 <= m < j && ix[m] == i :: Place(results, ix, elems, j)[i] == Some(Encode(elems[m]))
    ensures (forall m | 0 <= m < j :: ix[m] != i) ==> Place(results, ix, elems, j)[i] == results[i]
    decreases j
  {
    hide Encode;
    if j > 0 {
      PlaceAt(results, ix, elems, j - 1, i);
    }
  }

  /** After the group of a key's slot is placed, the key's position holds its value. */
  lemma {:induction false} FillAt(st: Store, keys: seq<Bytes>, vals: seq<Bytes>, subs: seq<Bytes>, g: nat, i: nat)
    requires |vals| == |keys| && |keys| <= INT64_MAX && Answered(MGet, st, keys, vals, subs)
    requires g <= |subs| && i < |keys| && HashSlot(keys[i]) in SlotOrder(keys)[..g]
    requires Fits(GroupIndices(keys, SlotOrder(keys)), |keys|)
    ensures Fill(GroupIndices(keys, SlotOrder(keys)), subs, |keys|, g)[i] ==
            Some(Encode(BulkOrNil(Get(st, keys[i]))))
    decreases g
  {
    hide HashSlot, Encode, ParseAt, SlotOrder, IndicesOf, Place, GroupIndices, Answered, ElemsIn;
    AnsweredLength(st, keys, vals, subs);
    var slots := SlotOrder(keys);
    var all := GroupIndices(keys, slots);
    var slot := slots[g - 1];
    var ix := IndicesOf(keys, slot);
    GroupElems(st, keys, vals, subs, g - 1);
    var elems := ElemsIn(subs[g - 1]);
    var prev := Fill(all, subs, |keys|, g - 1);
    PlaceAt(prev, ix, elems, |ix|, i);
    if HashSlot(keys[i]) == slot {
      var m := IndicesCover(keys, i);
      assert elems[m] == BulkOrNil(Get(st, keys[i]));
    } else {
      FillAt(st, keys, vals, subs, g - 1, i);
    }
  }

  /** What an MGET sub-reply holds: the values of its slot's keys, in order. */
  lemma GroupElems(st: Store, keys: seq<Bytes>, vals: seq<Bytes>, subs: seq<Bytes>, g: nat)
    requires |vals| == |keys| && |keys| <= INT64_MAX && Answered(MGet, st, keys, vals, subs) && g < |subs|
    ensures var ix, elems := IndicesOf(keys, SlotOrder(keys)[g]), ElemsIn(subs[g]);
            |elems| == |ix| && forall m | 0 <= m < |ix| :: elems[m] == BulkOrNil(Get(st, keys[ix[m]]))
  {
    hide HashSlot, Encode, ParseAt, SlotOrder, IndicesOf, SubKeys, SubVals;
    var slot := SlotOrder(keys)[g];
    SubLengths(keys, vals, slot);
    SubParses(MGet, st, keys, vals, subs, g);
    SubKeysAt(keys, slot);
    assert ElemsIn(subs[g]) == Lookups(st, SubKeys(keys, slot));
  }

  lemma {:induction false} AssembleAll(results: Results, vs: seq<Value>)
    requires |results| == |vs| && forall i | 0 <= i < |vs| :: results[i] == Some(Encode(vs[i]))
    ensures Assemble(results) == EncodeAll(vs)
    decreases |vs|
  {
    hide Encode;
    if vs != [] {
      assert forall i | 0 <= i < |vs[1..]| :: vs[1..][i] == vs[i + 1] && results[1..][i] == results[i + 1];
      AssembleAll(results[1..], vs[1..]);
    }
  }

  lemma MergedMGet(st: Store, keys: seq<Bytes>, vals: seq<Bytes>, subs: seq<Bytes>)
    requires |vals| == |keys| && |keys| <= INT64_MAX && Answered(MGet, st, keys, vals, subs)
    requires Fits(GroupIndices(keys, SlotOrder(keys)), |keys|)
    ensures Combine(MergeMGet(GroupIndices(keys, SlotOrder(keys)), |keys|), subs) == Encode(Reply(MGet, st, keys, vals))
  {
    hide HashSlot, SlotOrder, GroupIndices, Fill, FormatInt, EncodeAll, Assemble, Answered;
    var slots := SlotOrder(keys);
    assert |subs| == |slots| by { AnsweredLength(st, keys, vals, subs); }
    var results := Fill(GroupIndices(keys, slots), subs, |keys|, |subs|);
    forall i | 0 <= i < |keys| ensures results[i] == Some(Encode(Lookups(st, keys)[i])) {
      SlotOrderCovers(keys, i);
      assert slots[..|slots|] == slots;
      FillAt(st, keys, vals, subs, |subs|, i);
    }
    AssembleAll(results, Lookups(st, keys));
  }

  lemma AnsweredLength(st: Store, keys: seq<Bytes>, vals: seq<Bytes>, subs: seq<Bytes>)
    requires |vals| == |keys| && Answered(MGet, st, keys, vals, subs)
    ensures |subs| == |SlotOrder(keys)|
  {
    hide HashSlot, SlotOrder;
  }

  // --------------------------------------------------------------- the theorem

  /** Splitting preserves meaning: for every one of the six commands, every store
      and every order in which the sub-commands run, the store ends as the
      undivided command would leave it and the merged bytes are its reply. */
  lemma SplitPreservesMeaning(op: Op, st: Store, keys: seq<Bytes>, vals: seq<Bytes>, order: seq<nat>, subs: seq<Bytes>)
    requires |vals| == |keys| && |keys| <= INT64_MAX
    requires Picks(order, |SlotOrder(keys)|) && forall g | 0 <= g < |SlotOrder(keys)| :: g in order
    requires |subs| == |SlotOrder(keys)|
    requires forall g | 0 <= g < |subs| :: |subs[g]| <= INT64_MAX &&
               var ran := RunSubs(op, st, keys, vals, SlotOrder(keys), order);
               g in ran.replies && subs[g] == Encode(ran.replies[g])
    ensures RunSubs(op, st, keys, vals, SlotOrder(keys), order).store == Apply(op, st, keys, vals)
    ensures Applicable(KindFor(op, keys), subs)
    ensures Merge(KindFor(op, keys), subs) == Merged(Encode(Reply(op, st, keys, vals)))
  {
    hide HashSlot, SlotOrder, RunSubs, Apply, Encode, GroupIndices, Reply, ReplySub, Combine, FirstFailure;
    SplitStore(op, st, keys, vals, order);
    forall g | 0 <= g < |subs| ensures subs[g] == Encode(ReplySub(op, st, keys, vals, SlotOrder(keys)[g])) {
      assert g in order;
      RunReplies(op, st, keys, vals, SlotOrder(keys), order, g);
    }
    NoFailures(op, st, keys, vals, subs, op == MGet);
    IndicesFit(keys, SlotOrder(keys));
    MergedWhole(op, st, keys, vals, subs);
  }

  lemma MergedWhole(op: Op, st: Store, keys: seq<Bytes>, vals: seq<Bytes>, subs: seq<Bytes>)
    requires |vals| == |keys| && |keys| <= INT64_MAX && Answered(op, st, keys, vals, subs)
    requires Applicable(KindFor(op, keys), subs)
    ensures Combine(KindFor(op, keys), subs) == Encode(Reply(op, st, keys, vals))
  {
    hide HashSlot, SlotOrder, Encode, GroupIndices, Fill, Total, SumOver, ReplySub;
    var slots := SlotOrder(keys);
    if op == MGet {
      MergedMGet(st, keys, vals, subs);
    } else if op != MSet {
      TotalIsSum(op, st, keys, vals, subs, |subs|);
      assert subs[..|subs|] == subs && slots[..|slots|] == slots;
      WholeCount(op, st, keys, vals);
    }
  }
}
