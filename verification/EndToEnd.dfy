/** A split command, from the client's socket to the servers and back. */
module EndToEnd {
  import opened Prelude
  import opened Merging
  import R = Resp
  import opened Grouping
  import opened Routing
  import Split
  import SplitLaws
  import opened System
  import opened SystemLaws
  import opened SystemRuns
  import opened SystemHistory
  import opened SystemHomes
  import ME = MuxEffects
  import Q = ReplyQueue

  // ------------------------------------------------------------------- the servers

  const ARITY: Bytes := Ascii("ERR wrong number of arguments for 'mset' command")

  /** The store after a server ran a command with these arguments. */
  function StoreAfter(op: Op, st: Split.Store, text: Text): Split.Store {
    if CompletePairs(op, text) then Split.Apply(op, st, KeysOf(op, text), ValsOf(op, text)) else st
  }

  /** What it replies. */
  function ReplyTo(op: Op, st: Split.Store, text: Text): R.Value {
    if CompletePairs(op, text) then Split.Reply(op, st, KeysOf(op, text), ValsOf(op, text)) else R.Error(ARITY)
  }

  /** What is sent for the parts of a plan. */
  function TextsOf(parts: seq<Part>): (r: seq<Text>)
    ensures |r| == |parts| && forall g | 0 <= g < |parts| :: r[g] == parts[g].args
  {
    seq(|parts|, g requires 0 <= g < |parts| => parts[g].args)
  }

  /** The servers run texts[order[0]], texts[order[1]], ... as they arrive. */
  ghost function RunTexts(op: Op, st: Split.Store, texts: seq<Text>, order: seq<nat>): Split.Ran
    requires forall i | 0 <= i < |order| :: order[i] < |texts|
    decreases |order|
  {
    if order == [] then Split.Ran(st, map[])
    else
      var n := |order| - 1;
      var prev := RunTexts(op, st, texts, order[..n]);
      var text := texts[order[n]];
      Split.Ran(StoreAfter(op, prev.store, text), prev.replies[order[n] := ReplyTo(op, prev.store, text)])
  }

  // --------------------------------------------------- arguments carry the command

  lemma ArgsTell(op: Op, keys: seq<Bytes>, vals: seq<Bytes>)
    requires |vals| == |keys|
    ensures CompletePairs(op, ArgsOf(op, keys, vals)) && KeysOf(op, ArgsOf(op, keys, vals)) == keys
    ensures op == MSet ==> ValsOf(op, ArgsOf(op, keys, vals)) == vals
  {
    hide Interleave;
    var args := ArgsOf(op, keys, vals);
    if op == MSet {
      assert forall i | 0 <= i < |keys| :: KeysOf(op, args)[i] == args[2 * i] == keys[i];
    }
  }

  lemma {:induction false} ValuesOnlyForMset(op: Op, st: Split.Store, keys: seq<Bytes>, vals: seq<Bytes>, vals': seq<Bytes>)
    requires op != MSet && |vals| == |vals'| == |keys|
    ensures Split.Apply(op, st, keys, vals) == Split.Apply(op, st, keys, vals')
    ensures Split.Count(op, st, keys, vals) == Split.Count(op, st, keys, vals')
    decreases |keys|
  {
    if keys != [] {
      var n := |keys| - 1;
      ValuesOnlyForMset(op, st, keys[..n], vals[..n], vals'[..n]);
    }
  }

  /** Running the arguments of a command is running the command. */
  lemma RunsWhatItSays(op: Op, st: Split.Store, keys: seq<Bytes>, vals: seq<Bytes>)
    requires |vals| == |keys|
    ensures StoreAfter(op, st, ArgsOf(op, keys, vals)) == Split.Apply(op, st, keys, vals)
    ensures ReplyTo(op, st, ArgsOf(op, keys, vals)) == Split.Reply(op, st, keys, vals)
  {
    hide ArgsOf, KeysOf, ValsOf, Split.Apply, Split.Count, Split.Lookups;
    ArgsTell(op, keys, vals);
    if op != MSet {
      ValuesOnlyForMset(op, st, keys, vals, ValsOf(op, ArgsOf(op, keys, vals)));
    }
  }

  /** So running the parts of a plan is running the sub-commands of its slots. */
  lemma {:induction false} PartsRunAsSubs(
      op: Op, st: Split.Store, args: seq<Bytes>, nodes: map<nat, Addr>, parts: seq<Part>, kind: MergeKind, order: seq<nat>)
    requires Planned(op, args, nodes, parts, kind) && forall i | 0 <= i < |order| :: order[i] < |parts|
    ensures RunTexts(op, st, TextsOf(parts), order) ==
            Split.RunSubs(op, st, KeysOf(op, args), ValsOf(op, args), SlotOrder(KeysOf(op, args)), order)
    decreases |order|
  {
    hide KeysOf, ValsOf, SlotOrder, SplitLaws.KindFor, StoreAfter, ReplyTo, Split.Apply, Split.Reply, ArgsOf, SubKeys, SubVals;
    if order != [] {
      var n, keys, vals := |order| - 1, KeysOf(op, args), ValsOf(op, args);
      var slot := SlotOrder(keys)[order[n]];
      PartsRunAsSubs(op, st, args, nodes, parts, kind, order[..n]);
      var prev := RunTexts(op, st, TextsOf(parts), order[..n]);
      Split.SubLengths(keys, vals, slot);
      RunsWhatItSays(op, prev.store, SubKeys(keys, slot), SubVals(keys, vals, slot));
    }
  }

  // ---------------------------------------------------------------- from end to end

  /** The slot of a client's i-th command. */
  function SlotOf(w: World, c: nat, i: nat): SlotRef
    requires c in w.clients && i < |w.clients[c].origins|
  {
    SlotRef(c, if w.clients[c].origins[i].Queued? then w.clients[c].origins[i].abs else 0)
  }

  /** Each server answered a part of slot `at` by running the arguments it was sent,
      on `st`, one after the other in the given order. */
  ghost predicate ServersRan(w: World, at: SlotRef, op: Op, st: Split.Store, order: seq<nat>)
  {
    at in w.work && w.work[at].Fan? && (forall i | 0 <= i < |order| :: order[i] < |w.work[at].parts|) &&
    var ran := RunTexts(op, st, TextsOf(w.work[at].parts), order);
    forall g | 0 <= g < |w.work[at].parts| && PartKey(at, g) in w.mux.served ::
      var data := w.mux.served[PartKey(at, g)];
      |data| <= INT64_MAX && g in ran.replies && data == R.Encode(ran.replies[g])
  }

  /** In every run in which no ASK overtook and no server replied unasked: if the i-th
      command a client sent is the plan of a multi-key command with these arguments, no
      part failed, and the servers answered each part by running what was sent to them,
      in whatever order, then what the client reads at position i is the reply of the
      undivided command, and the parts left the store as it would; and each part that was
      not redirected went to the node of its slot. */
  lemma SplitCommandEndToEnd(
      events: seq<Event>, c: nat, i: nat, op: Op, args: seq<Bytes>, nodes: map<nat, Addr>,
      parts: seq<Part>, kind: MergeKind, st: Split.Store, order: seq<nat>)
    requires IsRun(START, events) && c in After(START, events).clients
    requires var w := After(START, events);
             !w.mux.reordered && !w.mux.unsolicited && i < |w.clients[c].sent| && i < |w.clients[c].origins|
    requires i < |CommandsOf(events, c)| && CommandsOf(events, c)[i] == FanCmd(parts, kind)
    requires Planned(op, args, nodes, parts, kind) && |KeysOf(op, args)| <= INT64_MAX
    requires Split.Picks(order, |parts|) && forall g | 0 <= g < |parts| :: g in order
    requires var w := After(START, events); var at := SlotOf(w, c, i);
             && (forall g | 0 <= g < |parts| :: !ME.HasFailed(w.mux.loc, PartKey(at, g)))
             && ServersRan(w, at, op, st, order)
    ensures After(START, events).clients[c].sent[i] == R.Encode(ReplyTo(op, st, args))
    ensures RunTexts(op, st, TextsOf(parts), order).store == StoreAfter(op, st, args)
    ensures var w := After(START, events);
            forall g: nat | g < |parts| ::
              var k := PartKey(SlotOf(w, c, i), g);
              k in w.mux.sends && (w.mux.sends[k] == 1 ==> WithNode(w, events, k, nodes[SlotOrder(KeysOf(op, args))[g]]))
  {
    hide WithNode, After, IsRun, Justified, CommandsOf, SplitLaws.KindFor, Split.RunSubs, Split.Reply, Split.Apply, R.Encode, Merge,
         Q.MergeReply, SlotOrder, RunTexts, KeysOf, ValsOf, PartFor;
    EveryCommandAnsweredInOrder(events, c);
    var w, keys, vals := After(START, events), KeysOf(op, args), ValsOf(op, args);
    var at, d, n := SlotOf(w, c, i), w.clients[c].sent[i], |parts|;
    assert AnswersCommand(w, c, i, CommandsOf(events, c)[i]);
    assert w.work[at] == Fan(parts, kind) && Genuine(w, at, d);
    var subs := ServedParts(w.mux.served, at, n);
    PartsRunAsSubs(op, st, args, nodes, parts, kind, order);
    SplitLaws.SplitPreservesMeaning(op, st, keys, vals, order, subs);
    assert d == Q.MergeReply(kind, subs);
    MergedReply(kind, subs, R.Encode(Split.Reply(op, st, keys, vals)));
    forall g: nat | g < n
      ensures var k := PartKey(at, g);
              k in w.mux.sends && (w.mux.sends[k] == 1 ==> WithNode(w, events, k, nodes[SlotOrder(keys)[g]])) {
      PartsWithTheirNodes(events, c, i, op, args, nodes, parts, kind, g);
    }
  }

  lemma MergedReply(kind: MergeKind, subs: seq<Bytes>, data: Bytes)
    requires Applicable(kind, subs) && Merge(kind, subs) == Merged(data)
    ensures Q.MergeReply(kind, subs) == data
  {
  }
}
