/** Replies against the commands that the events of a run carry. */
module SystemHistory {
  import opened Prelude
  import opened Framing
  import opened System
  import opened SystemLaws
  import opened SystemSteps
  import opened SystemRuns
  import M = Mux
  import Q = ReplyQueue

  /** What a client sent over a run, in order. */
  function CommandsOf(events: seq<Event>, c: nat): seq<Cmd> {
    if events == [] then []
    else
      (if events[0].ClientTraffic? && events[0].client == c then events[0].cmds else []) + CommandsOf(events[1..], c)
  }

  /** The record `o` of a command is what that command amounts to. */
  ghost predicate Stands(w: World, c: nat, o: Q.Origin, cmd: Cmd) {
    match o
    case Direct(data) => cmd == ReplyCmd(data)
    case Queued(abs) =>
      var at := SlotRef(c, abs);
      at in w.work &&
      match cmd
      case ReplyCmd(data) =>
        w.work[at].Given? && at !in w.awaiting && forall d: Bytes | Posted(at, d) in w.given :: d == data
      case RouterCmd => w.work[at].Given?
      case RouteCmd(part) => w.work[at] == Plain(part)
      case FanCmd(parts, kind) => w.work[at] == Fan(parts, kind)
  }

  ghost predicate Recorded(w: World, c: nat, cmds: seq<Cmd>) {
    if c !in w.clients then cmds == []
    else
      |w.clients[c].origins| == |cmds| &&
      forall i | 0 <= i < |cmds| :: Stands(w, c, w.clients[c].origins[i], cmds[i])
  }

  // ------------------------------------------------------- what other steps leave

  /** Nothing decided about an existing slot changes. */
  ghost predicate Settled(w: World, w': World) {
    && (forall r | r in w.work :: r in w'.work && w'.work[r] == w.work[r])
    && (forall r | r in w.work && r !in w.awaiting :: r !in w'.awaiting)
    && forall p: Posted | p.at in w.work && p.at !in w.awaiting && p in w'.given :: p in w.given
  }

  ghost predicate SameOrigins(w: World, w': World, c: nat) {
    if c in w.clients then c in w'.clients && w'.clients[c].origins == w.clients[c].origins
    else c in w'.clients ==> w'.clients[c].origins == []
  }

  lemma StandsStill(w: World, w': World, c: nat, o: Q.Origin, cmd: Cmd)
    requires Settled(w, w') && Stands(w, c, o, cmd)
    ensures Stands(w', c, o, cmd)
  {
  }

  lemma RecordedStill(w: World, w': World, c: nat, cmds: seq<Cmd>)
    requires Recorded(w, c, cmds) && Settled(w, w') && SameOrigins(w, w', c)
    ensures Recorded(w', c, cmds)
  {
    hide Stands, Settled;
    if c in w.clients {
      forall i | 0 <= i < |cmds| ensures Stands(w', c, w'.clients[c].origins[i], cmds[i]) {
        StandsStill(w, w', c, w.clients[c].origins[i], cmds[i]);
      }
    }
  }

  lemma DeliverKeepsOrigins(cl: Q.Client, d: Q.Delivery)
    ensures Q.Deliver(cl, d).origins == cl.origins
  {
    hide Q.ReadyPrefix, Q.Datas, Q.MergeReply, Q.Payloads;
  }

  lemma {:induction false} OutsKeepOrigins(clients: map<nat, Q.Client>, outs: seq<M.Output>, c: nat)
    ensures c in DeliverOuts(clients, outs) <==> c in clients
    ensures c in clients ==> DeliverOuts(clients, outs)[c].origins == clients[c].origins
    decreases |outs|
  {
    hide Q.Deliver;
    if outs != [] {
      var k := outs[0].key;
      if outs[0].DeliverTo? && k.client in clients {
        var d := DeliveryFor(k, outs[0].data);
        DeliverKeepsOrigins(clients[k.client], d);
        OutsKeepOrigins(clients[k.client := Q.Deliver(clients[k.client], d)], outs[1..], c);
      } else {
        OutsKeepOrigins(clients, outs[1..], c);
      }
    }
  }

  lemma AbsorbStill(w: World, m: M.Mux, c: nat)
    ensures Settled(w, Absorb(w, m)) && SameOrigins(w, Absorb(w, m), c)
  {
    hide DeliverOuts, PostedBy;
    OutsKeepOrigins(w.clients, m.outs, c);
  }

  lemma {:induction false} HearStill(w: World, addr: M.Addr, rs: seq<Reply>, refused: map<M.Addr, Bytes>, c: nat)
    ensures Settled(w, HearAll(w, addr, rs, refused)) && SameOrigins(w, HearAll(w, addr, rs, refused), c)
    decreases |rs|
  {
    hide M.OnReply, Absorb;
    if rs != [] {
      var m := M.OnReply(w.mux, M.Env(w.alive, refused), addr, rs[0]);
      AbsorbStill(w, m, c);
      HearStill(Absorb(w, m), addr, rs[1..], refused, c);
    }
  }

  lemma FillKeepsOrigins(cl: Q.Client, abs: nat, data: Bytes)
    ensures Q.FillInLoop(cl, abs, data).origins == cl.origins
  {
    hide Q.ReadyPrefix, Q.Datas;
  }

  // ---------------------------------------------------------------- new commands

  /** One command is recorded, and nothing else of any client changes. */
  lemma AcceptRecords(w: World, c: nat, cmd: Cmd, refused: map<M.Addr, Bytes>, d: nat)
    requires WorldOk(w, {}) && c in w.clients && Sane(cmd) && NoAccum(w.clients)
    ensures var w' := Accept(w, c, cmd, refused);
            && Settled(w, w') && (d != c ==> SameOrigins(w, w', d)) && c in w'.clients
            && |w'.clients[c].origins| == |w.clients[c].origins| + 1 && w.clients[c].origins <= w'.clients[c].origins
            && Stands(w', c, w'.clients[c].origins[|w.clients[c].origins|], cmd)
  {
    hide Accept, Q.Alloc, Q.Immediate, ClientOk, Justified, M.Inv, Registered, Stands, Settled;
    var w' := Accept(w, c, cmd, refused);
    AcceptBooks(w, c, cmd, refused);
    if cmd.ReplyCmd? && w.clients[c].queue == [] {
      ImmediateOk(w, c, cmd.data, refused);
    } else {
      match cmd {
        case RouteCmd(part) => RouteOk(w, c, part, refused);
        case FanCmd(parts, kind) => FanOutOk(w, c, parts, kind, refused);
        case _ => GivenOk(w, c, cmd, refused);
      }
    }
    NewOrigin(w.clients[c], cmd);
  }

  /** The record a command gets. */
  function OriginOf(cl: Q.Client, cmd: Cmd): Q.Origin {
    if cmd.ReplyCmd? && cl.queue == [] then Q.Direct(cmd.data) else Q.Queued(Allocated(cl))
  }

  lemma NewOrigin(cl: Q.Client, cmd: Cmd)
    ensures cmd.ReplyCmd? && cl.queue == [] ==> Q.Immediate(cl, cmd.data).origins == cl.origins + [OriginOf(cl, cmd)]
    ensures !(cmd.ReplyCmd? && cl.queue == []) ==>
              forall fanIn :: Q.Alloc(cl, fanIn).origins == cl.origins + [OriginOf(cl, cmd)]
  {
  }

  lemma AcceptBooks(w: World, c: nat, cmd: Cmd, refused: map<M.Addr, Bytes>)
    requires WorldOk(w, {}) && c in w.clients
    ensures Settled(w, Accept(w, c, cmd, refused))
    ensures Stands(Accept(w, c, cmd, refused), c, OriginOf(w.clients[c], cmd), cmd)
  {
    hide DeliverOuts, PostedBy, SendParts, M.Send, Q.Alloc, Q.Immediate, ClientOk, Justified, M.Inv, Registered;
    assert Registered(w);
    Unknown(w, c);
  }

  lemma Unknown(w: World, c: nat)
    requires Registered(w) && c in w.clients
    ensures var at := SlotRef(c, Allocated(w.clients[c])); at !in w.work && at !in w.awaiting
    ensures forall d: Bytes :: Posted(SlotRef(c, Allocated(w.clients[c])), d) !in w.given
  {
    assert !Known(w.clients, SlotRef(c, Allocated(w.clients[c])));
  }

  lemma {:induction false} AcceptAllRecords(w: World, c: nat, cmds: seq<Cmd>, refused: map<M.Addr, Bytes>, d: nat, done: seq<Cmd>)
    requires WorldOk(w, {}) && c in w.clients && NoAccum(w.clients) && forall i | 0 <= i < |cmds| :: Sane(cmds[i])
    requires Recorded(w, d, done)
    ensures Recorded(AcceptAll(w, c, cmds, refused), d, if d == c then done + cmds else done)
    decreases |cmds|
  {
    hide WorldOk, Accept, NoAccum, Recorded, Sane;
    if cmds == [] {
      assert done + cmds == done;
    } else {
      var w' := Accept(w, c, cmds[0], refused);
      AcceptOk(w, c, cmds[0], refused);
      OneMore(w, c, cmds[0], refused, d, done);
      AcceptAllRecords(w', c, cmds[1..], refused, d, if d == c then done + [cmds[0]] else done);
      assert done + [cmds[0]] + cmds[1..] == done + cmds;
    }
  }

  lemma OneMore(w: World, c: nat, cmd: Cmd, refused: map<M.Addr, Bytes>, d: nat, done: seq<Cmd>)
    requires WorldOk(w, {}) && c in w.clients && NoAccum(w.clients) && Sane(cmd) && Recorded(w, d, done)
    ensures Recorded(Accept(w, c, cmd, refused), d, if d == c then done + [cmd] else done)
  {
    hide WorldOk, Accept, NoAccum, Stands, Settled;
    var w' := Accept(w, c, cmd, refused);
    AcceptRecords(w, c, cmd, refused, d);
    if d != c {
      RecordedStill(w, w', d, done);
    } else {
      forall i | 0 <= i < |done| ensures Stands(w', c, w'.clients[c].origins[i], done[i]) {
        StandsStill(w, w', c, w.clients[c].origins[i], done[i]);
      }
    }
  }

  // ------------------------------------------------------------------------ runs

  lemma StepRecords(w: World, e: Event, c: nat, done: seq<Cmd>)
    requires Inv(w) && Enabled(w, e) && Recorded(w, c, done)
    ensures Recorded(Step(w, e), c, if e.ClientTraffic? && e.client == c then done + e.cmds else done)
  {
    hide WorldOk, AcceptAll, HearAll, Absorb, M.FlushAll, Recorded, Q.FillInLoop, Q.Flush;
    var w', env := Step(w, e), M.Env(w.alive, map[]);
    match e {
      case ClientTraffic(d, cmds, refused) =>
        AliveKnown(w, d);
        AcceptAllRecords(w, d, cmds, refused, c, done);
        var w1 := AcceptAll(w, d, cmds, refused);
        RecordedStill(w1, w', c, if d == c then done + cmds else done);
      case BackendTraffic(addr, rs, refused) =>
        HearStill(w, addr, rs, refused, c);
        var w1 := HearAll(w, addr, rs, refused);
        RecordedStill(w, w1, c, done);
        FlushStill(w1, c);
        RecordedStill(w1, w', c, done);
      case RunPosted(i) =>
        FillStill(w, i, c);
        RecordedStill(w, w', c, done);
      case BackendClosed(addr) => AbsorbStill(w, M.Close(w.mux, env, addr), c); RecordedStill(w, w', c, done);
      case DialError(addr, err) => AbsorbStill(w, M.DialFailed(w.mux, env, addr, err), c); RecordedStill(w, w', c, done);
      case _ => RecordedStill(w, w', c, done);
    }
  }

  lemma AliveKnown(w: World, c: nat)
    requires Inv(w) && c in w.alive
    ensures c in w.clients
  {
    hide M.Inv, ClientOk, Justified;
  }

  lemma FlushStill(w: World, c: nat)
    ensures SameOrigins(w, w.(mux := M.FlushAll(w.mux), clients := FlushClients(w.clients)), c)
  {
    hide M.FlushAll;
  }

  lemma FillStill(w: World, i: nat, c: nat)
    requires i < |w.posted|
    ensures SameOrigins(w, Step(w, RunPosted(i)), c)
  {
    hide Q.FillInLoop;
    var p := w.posted[i];
    if p.at.client in w.clients {
      FillKeepsOrigins(w.clients[p.at.client], p.at.slot, p.data);
    }
  }

  lemma {:induction false} RunRecords(w: World, events: seq<Event>, c: nat, done: seq<Cmd>)
    requires Inv(w) && IsRun(w, events) && Recorded(w, c, done)
    ensures Recorded(After(w, events), c, done + CommandsOf(events, c))
    decreases |events|
  {
    hide Inv, Step, Enabled, Recorded;
    if events == [] {
      assert done + [] == done;
    } else {
      var e := events[0];
      var now := if e.ClientTraffic? && e.client == c then e.cmds else [];
      StepInv(w, e);
      StepRecords(w, e, c, done);
      assert done + [] == done;
      RunRecords(Step(w, e), events[1..], c, done + now);
      assert done + now + CommandsOf(events[1..], c) == done + (now + CommandsOf(events[1..], c));
    }
  }

  /** The i-th reply a client read, against the i-th command it sent. */
  ghost predicate AnswersCommand(w: World, c: nat, i: nat, cmd: Cmd)
    requires c in w.clients && i < |w.clients[c].sent| && i < |w.clients[c].origins|
  {
    var d, o := w.clients[c].sent[i], w.clients[c].origins[i];
    if cmd.ReplyCmd? then d == cmd.data
    else
      && o.Queued? && var at := SlotRef(c, o.abs);
         && at in w.work && Justified(w, at, d)
         && (!w.mux.reordered && !w.mux.unsolicited ==> Genuine(w, at, d))
         && (cmd.RouterCmd? ==> w.work[at].Given?)
         && (cmd.RouteCmd? ==> w.work[at] == Plain(cmd.part))
         && (cmd.FanCmd? ==> w.work[at] == Fan(cmd.parts, cmd.kind))
  }

  /** In every run, on every client connection: the replies read so far are as many as
      the first commands sent, in the order sent, each the answer to that command: the
      proxy's own reply to it, what the router returned for it, what the server said
      to that very request with those arguments, or the merge over its parts. */
  lemma EveryCommandAnsweredInOrder(events: seq<Event>, c: nat)
    requires IsRun(START, events) && c in After(START, events).clients
    ensures var w, cmds := After(START, events), CommandsOf(events, c); var cl := w.clients[c];
            && |cl.sent| + |cl.queue| == |cmds| == |cl.origins|
            && forall i | 0 <= i < |cl.sent| :: AnswersCommand(w, c, i, cmds[i])
  {
    hide After, IsRun, Justified, Genuine, Inv, CommandsOf;
    StartInv();
    RunRecords(START, events, c, []);
    EveryReplyIsRight(events, c);
    var w, cmds := After(START, events), CommandsOf(events, c);
    assert [] + cmds == cmds;
    forall i | 0 <= i < |w.clients[c].sent| ensures AnswersCommand(w, c, i, cmds[i]) {
      assert RightReply(w, c, i);
      assert Stands(w, c, w.clients[c].origins[i], cmds[i]);
      AnswerStands(w, c, i, cmds[i]);
    }
  }

  lemma AnswerStands(w: World, c: nat, i: nat, cmd: Cmd)
    requires c in w.clients && i < |w.clients[c].sent| && i < |w.clients[c].origins|
    requires RightReply(w, c, i) && Stands(w, c, w.clients[c].origins[i], cmd)
    ensures AnswersCommand(w, c, i, cmd)
  {
    hide Genuine;
  }

  /** At rest, every command a connected client ever sent has been answered. */
  lemma EveryCommandAnswered(events: seq<Event>, c: nat)
    requires IsRun(START, events) && AtRest(After(START, events)) && c in After(START, events).alive
    ensures c in After(START, events).clients
    ensures |After(START, events).clients[c].sent| == |CommandsOf(events, c)|
  {
    hide After, IsRun, AtRest, AnswersCommand, CommandsOf;
    NothingLost(events, c);
    EveryCommandAnsweredInOrder(events, c);
  }
}
