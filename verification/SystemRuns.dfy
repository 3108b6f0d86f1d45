/** Safety and completeness over every run of the event loop. */
module SystemRuns {
  import opened Prelude
  import opened Framing
  import opened System
  import opened SystemLaws
  import opened SystemSteps
  import opened SystemReplies
  import M = Mux
  import ML = MuxLaws
  import ME = MuxEffects
  import Q = ReplyQueue

  // ---------------------------------------------------------------- every event

  /** A mux step that answers nothing and sends nothing new. */
  lemma MuxStep(w: World, m': M.Mux)
    requires WorldOk(w, {}) && M.Inv(m') && ME.Quiet(w.mux, m', {}, w.alive) && m'.sends == w.mux.sends
    ensures WorldOk(Absorb(w, m'), {}) && Absorb(w, m').clients == w.clients
    ensures m'.outs == [] ==> Absorb(w, m') == w.(mux := m')
  {
    hide M.Inv, ClientOk, Justified;
    QuietStep(w, m', {}, {});
  }

  lemma ConnectOk(w: World, c: nat)
    requires WorldOk(w, {}) && c !in w.clients
    ensures WorldOk(Step(w, Connect(c)), {})
  {
    hide M.Inv, Justified, Same, ClientOk;
    var w' := Step(w, Connect(c));
    assert Extends(w, w');
    assert forall r | r in w.work :: Known(w.clients, r);
    forall d | d in w'.clients ensures ClientOk(w', d, w'.clients[d], {}) {
      if d == c {
        FreshClient(w', c);
      } else {
        forall abs: nat ensures Same(w, w', SlotRef(d, abs)) {
          AliveSame(w, w', SlotRef(d, abs));
        }
        ClientKept(w, w', d, w.clients[d], {});
      }
    }
    PostedKept(w, w');
  }

  lemma FreshClient(w: World, c: nat)
    ensures ClientOk(w, c, Q.FRESH, {})
  {
    hide Justified, SlotOk;
  }

  lemma AliveSame(w: World, w': World, at: SlotRef)
    requires w'.mux == w.mux && w'.posted == w.posted && w'.awaiting == w.awaiting
    requires at.client in w'.alive ==> at.client in w.alive
    ensures Same(w, w', at)
  {
  }

  lemma DisconnectOk(w: World, c: nat)
    requires WorldOk(w, {})
    ensures WorldOk(Step(w, Disconnect(c)), {})
  {
    hide M.Inv, Justified, Same, ClientOk;
    var w' := Step(w, Disconnect(c));
    forall r: SlotRef ensures Same(w, w', r) {
      AliveSame(w, w', r);
    }
    PostedKept(w, w');
    Relabel(w, w', {});
  }

  lemma RouterDoneOk(w: World, at: SlotRef, data: Bytes)
    requires WorldOk(w, {}) && at in w.awaiting
    ensures WorldOk(Step(w, RouterDone(at, data)), {})
  {
    hide M.Inv, Justified, Same, ClientOk, SlotOk;
    var w' := Step(w, RouterDone(at, data));
    forall r: SlotRef ensures Same(w, w', r) {
      DoneSame(w, at, data, r);
    }
    PostedKept(w, w');
    GivenSlot(w', at, ReplyCmd(data));
    Relabel(w, w', {});
  }

  lemma DoneSame(w: World, at: SlotRef, data: Bytes, other: SlotRef)
    requires at in w.awaiting
    ensures Same(w, Step(w, RouterDone(at, data)), other)
  {
    var w' := Step(w, RouterDone(at, data));
    assert forall p | p in w.posted :: p in w'.posted;
    assert Posted(at, data) in w'.posted;
  }

  lemma TrafficOk(w: World, c: nat, cmds: seq<Cmd>, refused: map<M.Addr, Bytes>)
    requires Inv(w) && forall i | 0 <= i < |cmds| :: Sane(cmds[i])
    ensures var w1 := AcceptAll(w, c, cmds, refused); Inv(w1.(mux := M.FlushAll(w1.mux)))
  {
    hide M.Inv, M.FlushAll, ClientOk, Justified, AcceptAll, ME.Quiet;
    AcceptAllOk(w, c, cmds, refused);
    FlushMux(AcceptAll(w, c, cmds, refused));
  }

  lemma FlushMux(w: World)
    requires WorldOk(w, {})
    ensures var w' := w.(mux := M.FlushAll(w.mux));
            WorldOk(w', {}) && forall a | a in w'.mux.conns :: w'.mux.conns[a].buf == []
  {
    hide M.Inv, ClientOk, Justified, ME.Quiet, Registered;
    ML.FlushAllInv(w.mux);
    ME.QuietRefl(w.mux, M.FlushAll(w.mux), w.alive);
    MuxStep(w, M.FlushAll(w.mux));
  }

  lemma BackendOk(w: World, addr: M.Addr, replies: seq<Reply>, refused: map<M.Addr, Bytes>)
    requires Inv(w)
    ensures var w1 := HearAll(w, addr, replies, refused);
            Inv(w1.(mux := M.FlushAll(w1.mux), clients := FlushClients(w1.clients)))
  {
    hide WorldOk, HearAll, FlushClients, M.FlushAll;
    var w1 := HearAll(w, addr, replies, refused);
    HearAllOk(w, addr, replies, refused);
    FlushMux(w1);
    FlushOk(w1.(mux := M.FlushAll(w1.mux)));
  }

  lemma FillStepOk(w: World, i: nat)
    requires Inv(w) && i < |w.posted|
    ensures Inv(Step(w, RunPosted(i)))
  {
    hide WorldOk, Q.FillInLoop;
    var p := w.posted[i];
    FillOk(w, p);
    var w1 := w.(clients := w.clients[p.at.client := Q.FillInLoop(w.clients[p.at.client], p.at.slot, p.data)]);
    RemoveOk(w1, i);
    assert Step(w, RunPosted(i)) == w1.(posted := Without(w1.posted, i));
  }

  lemma OpenOk(w: World, addr: M.Addr, replica: bool)
    requires Inv(w) && addr in w.mux.dialing
    ensures Inv(Step(w, BackendOpen(addr, replica)))
  {
    hide M.Inv, ClientOk, Justified, Registered, ME.Quiet, M.WrittenAll, M.Relocate;
    ML.OpenInv(w.mux, addr, replica);
    ME.OpenQuiet(w.mux, addr, replica, w.alive);
    MuxStep(w, M.Open(w.mux, addr, replica));
  }

  lemma ClosedOk(w: World, addr: M.Addr)
    requires Inv(w) && addr in w.mux.conns
    ensures Inv(Step(w, BackendClosed(addr)))
  {
    hide M.Inv, ClientOk, Justified, Registered, ME.Quiet, M.Posts, M.FailAll, DeliverOuts;
    var env := M.Env(w.alive, map[]);
    ML.CloseInv(w.mux, env, addr);
    ME.CloseQuiet(w.mux, env, addr);
    MuxStep(w, M.Close(w.mux, env, addr));
  }

  lemma DialErrorOk(w: World, addr: M.Addr, err: Bytes)
    requires Inv(w)
    ensures Inv(Absorb(w, M.DialFailed(w.mux, M.Env(w.alive, map[]), addr, err)))
  {
    hide M.Inv, ClientOk, Justified, Registered, ME.Quiet, M.Posts, M.FailAll, DeliverOuts;
    var env := M.Env(w.alive, map[]);
    ML.DialFailedInv(w.mux, env, addr, err);
    ME.DialFailedQuiet(w.mux, env, addr, err);
    MuxStep(w, M.DialFailed(w.mux, env, addr, err));
  }

  lemma StepInv(w: World, e: Event)
    requires Inv(w) && Enabled(w, e)
    ensures Inv(Step(w, e))
  {
    hide WorldOk, AcceptAll, HearAll, Absorb, M.FlushAll, FlushClients;
    match e
    case Connect(c) => ConnectOk(w, c);
    case Disconnect(c) => DisconnectOk(w, c);
    case ClientTraffic(c, cmds, refused) => TrafficOk(w, c, cmds, refused);
    case RouterDone(at, data) => RouterDoneOk(w, at, data);
    case RunPosted(i) => FillStepOk(w, i);
    case BackendOpen(addr, replica) => OpenOk(w, addr, replica);
    case BackendClosed(addr) => ClosedOk(w, addr);
    case DialError(addr, err) => DialErrorOk(w, addr, err);
    case BackendTraffic(addr, replies, refused) => BackendOk(w, addr, replies, refused);
  }

  lemma {:induction false} RunInv(w: World, events: seq<Event>)
    requires Inv(w) && IsRun(w, events)
    ensures Inv(After(w, events))
    decreases |events|
  {
    hide Inv, Step, Enabled;
    if events != [] {
      StepInv(w, events[0]);
      RunInv(Step(w, events[0]), events[1..]);
    }
  }

  lemma ReachableInv(events: seq<Event>)
    requires IsRun(START, events)
    ensures Inv(After(START, events))
  {
    hide Inv, Step;
    StartInv();
    RunInv(START, events);
  }

  lemma StartInv()
    ensures Inv(START)
  {
  }

  // ------------------------------------------------------------------- theorems

  /** `d` is what the servers said: the reply given to the very request of the slot,
      the merge of the replies given to its parts, or an error of the proxy's own. */
  ghost predicate Genuine(w: World, at: SlotRef, d: Bytes) {
    var loc, served := w.mux.loc, w.mux.served;
    at in w.work &&
    match w.work[at]
    case Given => Posted(at, d) in w.given
    case Plain(_) => (PlainKey(at) in served && served[PlainKey(at)] == d) || FailedWith(loc, PlainKey(at), d)
    case Fan(parts, kind) =>
      var n := |parts|;
      (exists i: nat :: i < n && FailedWith(loc, PartKey(at, i), d)) ||
      ((forall i | 0 <= i < n :: PartKey(at, i) in served) && d == Q.MergeReply(kind, ServedParts(served, at, n)))
  }

  ghost function ServedParts(served: map<M.Key, Bytes>, at: SlotRef, n: nat): seq<Bytes>
    requires forall i | 0 <= i < n :: PartKey(at, i) in served
  {
    seq(n, i requires 0 <= i < n => served[PartKey(at, i)])
  }

  /** Reply number i on a client's socket answers its command number i. */
  ghost predicate RightReply(w: World, c: nat, i: nat)
    requires c in w.clients && i < |w.clients[c].sent| && i < |w.clients[c].origins|
  {
    var cl := w.clients[c];
    match cl.origins[i]
    case Direct(data) => cl.sent[i] == data
    case Queued(abs) =>
      && Justified(w, SlotRef(c, abs), cl.sent[i])
      && (!w.mux.reordered && !w.mux.unsolicited ==> Genuine(w, SlotRef(c, abs), cl.sent[i]))
  }

  /** In every run, on every client connection: replies come one per command and in
      command order, and each is the reply to that very command. With no ASK
      overtaking buffered commands and no server speaking unasked, it is what the
      server said to that very request, or the merge of what the servers said. */
  lemma EveryReplyIsRight(events: seq<Event>, c: nat)
    requires IsRun(START, events) && c in After(START, events).clients
    ensures var w := After(START, events); var cl := w.clients[c];
            && |cl.sent| + |cl.queue| == |cl.origins|
            && forall i | 0 <= i < |cl.sent| :: RightReply(w, c, i)
  {
    hide After, IsRun, M.Inv, Justified, Genuine, Registered;
    ReachableInv(events);
    var w := After(START, events);
    var cl := w.clients[c];
    assert ClientOk(w, c, cl, {}) && cl.accum == [];
    assert Q.Out(cl) == cl.sent;
    forall i | 0 <= i < |cl.sent| ensures RightReply(w, c, i) {
      assert Q.Answers(cl, i);
      if cl.origins[i].Queued? && !w.mux.reordered && !w.mux.unsolicited {
        GenuineIfTruthful(w, SlotRef(c, cl.origins[i].abs), cl.sent[i]);
      }
    }
  }

  lemma GenuineIfTruthful(w: World, at: SlotRef, d: Bytes)
    requires M.Inv(w.mux) && !w.mux.reordered && !w.mux.unsolicited && Justified(w, at, d)
    ensures Genuine(w, at, d)
  {
    hide M.Placed, M.Limited, M.Aligned, Q.MergeReply;
    if w.work[at].Fan? && AllAnswered(w.mux.loc, at, |w.work[at].parts|) {
      var n := |w.work[at].parts|;
      forall i | 0 <= i < n
        ensures PartKey(at, i) in w.mux.served
        ensures w.mux.served[PartKey(at, i)] == Q.Payload(Parts(w.mux.loc, at, n)[i]) {
        assert ME.AnswerOf(w.mux.loc, PartKey(at, i)).Some?;
      }
      assert ServedParts(w.mux.served, at, n) == Q.Payloads(Parts(w.mux.loc, at, n));
    }
  }

  /** In every run: a request is in the queue its location names and in no other, at
      most once; it is sent at most 17 times; no address is both connected and being
      dialled. */
  lemma EveryRequestInOnePlace(events: seq<Event>, k: M.Key)
    requires IsRun(START, events) && k in After(START, events).mux.loc
    ensures var m := After(START, events).mux;
            && (forall a | a in m.dialing :: M.NoDup(M.Keys(m.dialing[a])) && (k in M.Keys(m.dialing[a]) <==> m.loc[k] == M.Dialing(a)))
            && (forall a | a in m.conns :: M.NoDup(M.Keys(m.conns[a].live)) && (k in M.Keys(m.conns[a].live) <==> m.loc[k] == M.OnConn(a)))
            && (m.loc[k].Dialing? ==> m.loc[k].addr in m.dialing) && (m.loc[k].OnConn? ==> m.loc[k].addr in m.conns)
            && (k in m.sends ==> 0 < m.sends[k] <= 17)
            && forall a | a in m.conns :: a !in m.dialing
  {
    hide After, IsRun, ClientOk, Justified, M.Truthful, M.Keys, M.NoDup, M.Bounded;
    ReachableInv(events);
  }

  /** In every run, between events: what a server still has to answer on a connection
      is exactly its pending list, entry by entry, as long as no ASK overtook
      buffered commands and no server spoke unasked. */
  lemma WireMatchesPending(events: seq<Event>, a: M.Addr)
    requires IsRun(START, events) && a in After(START, events).mux.conns
    ensures var m := After(START, events).mux;
            m.conns[a].buf == [] &&
            (!m.reordered && !m.unsolicited ==>
               |m.conns[a].wire| == |m.conns[a].live| &&
               forall i | 0 <= i < |m.conns[a].live| :: m.conns[a].wire[i] == M.Expect(m.conns[a].live[i]))
  {
    hide After, IsRun, ClientOk, Justified, M.Placed, M.Limited;
    ReachableInv(events);
    var m := After(START, events).mux;
    assert m.conns[a].wire + m.conns[a].buf == m.conns[a].wire;
  }

  /** In every such run an ASKING on a socket is directly followed by the request it
      is for, the one whose sentinel stands before it in pending. */
  lemma AskingPrecedesItsRequest(events: seq<Event>, a: M.Addr, i: nat)
    requires IsRun(START, events) && a in After(START, events).mux.conns
    requires var m := After(START, events).mux;
             !m.reordered && !m.unsolicited && i < |m.conns[a].wire| && m.conns[a].wire[i] == M.Asking
    ensures var c := After(START, events).mux.conns[a];
            && i + 1 < |c.wire| == |c.live| && c.live[i].asking && c.live[i + 1].key == c.live[i].key
            && c.wire[i + 1] == M.Command(c.live[i].key)
  {
    hide After, IsRun, ClientOk, Justified, M.Placed;
    ReachableInv(events);
    WireMatchesPending(events, a);
    var m := After(START, events).mux;
    assert M.Bounded(m.sends, m.conns[a].live);
    assert m.conns[a].wire[i] == M.Expect(m.conns[a].live[i]);
  }

  /** In every run a part that may still be answered has its place in the fan-in it is
      for, so storing it is in range. */
  lemma PartsInRange(events: seq<Event>, k: M.Key)
    requires IsRun(START, events) && k in After(START, events).mux.loc && k.sub.Some?
    ensures var w := After(START, events);
            k.client in w.clients &&
            (Q.Awaits(w.clients[k.client], k.slot) ==>
               k.sub.value < |w.clients[k.client].queue[k.slot - w.clients[k.client].base].fanIn.value.subData|)
  {
    hide After, IsRun, Justified, M.Inv;
    ReachableInv(events);
    var w := After(START, events);
    assert Ref(k) in w.work && Known(w.clients, Ref(k)) && Serves(w.work[Ref(k)], k.sub);
    var cl := w.clients[k.client];
    assert ClientOk(w, k.client, cl, {});
    if Q.Awaits(cl, k.slot) {
      assert SlotOk(w, SlotRef(k.client, k.slot), cl.queue[k.slot - cl.base]);
    }
  }

  /** If a part of a fanned-out command failed, its merge never ran: what the client
      read in its place is the error of a failed part. */
  lemma FailedPartMeansNoMerge(events: seq<Event>, c: nat, i: nat, g: nat)
    requires IsRun(START, events) && c in After(START, events).clients
    requires var w := After(START, events); var cl := w.clients[c];
             i < |cl.sent| && i < |cl.origins| && cl.origins[i].Queued? &&
             var at := SlotRef(c, cl.origins[i].abs);
             at in w.work && w.work[at].Fan? && g < |w.work[at].parts| && ME.HasFailed(w.mux.loc, PartKey(at, g))
    ensures var w := After(START, events); var at := SlotRef(c, w.clients[c].origins[i].abs);
            exists j: nat :: j < |w.work[at].parts| && FailedWith(w.mux.loc, PartKey(at, j), w.clients[c].sent[i])
  {
    hide After, IsRun, Genuine, Q.MergeReply;
    EveryReplyIsRight(events, c);
    var w := After(START, events);
    var at := SlotRef(c, w.clients[c].origins[i].abs);
    assert RightReply(w, c, i);
    assert ME.AnswerOf(w.mux.loc, PartKey(at, g)).None?;
  }

  /** Nothing is dialling, no backend owes a reply, no fill is posted and no router
      call is running. */
  predicate AtRest(w: World) {
    && w.mux.dialing == map[] && (forall a | a in w.mux.conns :: w.mux.conns[a].live == [])
    && w.posted == [] && w.awaiting == {}
  }

  lemma AllFinished(w: World, k: M.Key)
    requires M.Inv(w.mux) && AtRest(w) && k in w.mux.loc
    ensures w.mux.loc[k].Finished?
  {
    hide M.Limited, M.Truthful;
    assert forall a | a in w.mux.conns :: M.Holds(w.mux.loc, w.mux.conns[a].live, M.OnConn(a));
  }

  /** No reply is ever lost: in every run, whenever the loop is at rest, every
      command of every connected client has been answered. */
  lemma NothingLost(events: seq<Event>, c: nat)
    requires IsRun(START, events) && AtRest(After(START, events)) && c in After(START, events).alive
    ensures var w := After(START, events);
            c in w.clients && w.clients[c].queue == [] && |w.clients[c].sent| == |w.clients[c].origins|
  {
    hide After, IsRun, M.Inv, Justified, AtRest, SlotOk;
    ReachableInv(events);
    var w := After(START, events);
    assert c in w.clients && ClientOk(w, c, w.clients[c], {});
    var cl := w.clients[c];
    assert Q.Out(cl) == cl.sent;
    if cl.queue != [] {
      assert SlotOk(w, SlotRef(c, cl.base), cl.queue[0]);
      OwedSlot(w, SlotRef(c, cl.base), cl.queue[0]);
    }
  }

  /** At rest a slot of a connected client cannot be waiting. */
  lemma OwedSlot(w: World, at: SlotRef, s: Q.Slot)
    requires M.Inv(w.mux) && AtRest(w) && at.client in w.alive && SlotOk(w, at, s)
    ensures s.ready
  {
    hide M.Inv;
    if !s.ready {
      if w.work[at].Plain? {
        AllFinished(w, PlainKey(at));
      } else if w.work[at].Fan? {
        var n, sub := |w.work[at].parts|, s.fanIn.value.subData;
        CountFull(sub);
        var i :| 0 <= i < n && sub[i].None?;
        assert Pursued(w, PartKey(at, i));
        AllFinished(w, PartKey(at, i));
      }
    }
  }
}
