/** What happens at most once in a run: a router's answer, a client's departure. */
module SystemOnce {
  import opened Prelude
  import opened Framing
  import opened System
  import opened SystemLaws
  import opened SystemSteps
  import opened SystemRuns
  import opened SystemHistory
  import opened SystemHomes
  import M = Mux
  import Q = ReplyQueue

  lemma SettledTrans(w: World, w1: World, w2: World)
    requires Settled(w, w1) && Settled(w1, w2)
    ensures Settled(w, w2)
  {
  }

  lemma {:induction false} AcceptAllSettled(w: World, c: nat, cmds: seq<Cmd>, refused: map<M.Addr, Bytes>)
    requires WorldOk(w, {}) && NoAccum(w.clients) && forall i | 0 <= i < |cmds| :: Sane(cmds[i])
    ensures Settled(w, AcceptAll(w, c, cmds, refused))
    ensures AcceptAll(w, c, cmds, refused).alive == w.alive && AcceptAll(w, c, cmds, refused).clients.Keys == w.clients.Keys
    decreases |cmds|
  {
    hide WorldOk, Accept, NoAccum;
    if cmds != [] && c in w.clients {
      var w1 := Accept(w, c, cmds[0], refused);
      AcceptOk(w, c, cmds[0], refused);
      AcceptBooks(w, c, cmds[0], refused);
      AcceptAlive(w, c, cmds[0], refused);
      AcceptAllSettled(w1, c, cmds[1..], refused);
      SettledTrans(w, w1, AcceptAll(w1, c, cmds[1..], refused));
    }
  }

  /** No step reopens what was decided, and a client that left stays away. */
  lemma StepSettles(w: World, e: Event)
    requires Inv(w) && Enabled(w, e)
    ensures Settled(w, Step(w, e))
    ensures forall c | c in w.clients :: c in Step(w, e).clients && (c !in w.alive ==> c !in Step(w, e).alive)
    ensures e.RouterDone? ==> e.at in Step(w, e).work && e.at !in Step(w, e).awaiting
    ensures e.Disconnect? ==> e.client !in Step(w, e).alive
  {
    hide WorldOk, AcceptAll, HearAll, Absorb, M.FlushAll, Q.FillInLoop, Q.Flush, Registered;
    assert forall r | r in w.awaiting :: r in w.work by { AwaitingWork(w); }
    match e {
      case ClientTraffic(c, cmds, refused) => AcceptAllSettled(w, c, cmds, refused);
      case BackendTraffic(addr, rs, refused) =>
        HearStill(w, addr, rs, refused, 0);
        HearClients(w, addr, rs, refused);
      case BackendClosed(addr) => AbsorbClients(w, M.Close(w.mux, M.Env(w.alive, map[]), addr));
      case DialError(addr, err) => AbsorbClients(w, M.DialFailed(w.mux, M.Env(w.alive, map[]), addr, err));
      case _ =>
    }
  }

  lemma AwaitingWork(w: World)
    requires Inv(w)
    ensures forall r | r in w.awaiting :: r in w.work
  {
    hide M.Inv, ClientOk, Justified;
  }

  lemma AbsorbClients(w: World, m: M.Mux)
    ensures Settled(w, Absorb(w, m)) && Absorb(w, m).clients.Keys == w.clients.Keys && Absorb(w, m).alive == w.alive
  {
    hide DeliverOuts, PostedBy;
    AbsorbStill(w, m, 0);
    forall c: nat ensures c in DeliverOuts(w.clients, m.outs) <==> c in w.clients {
      OutsKeepOrigins(w.clients, m.outs, c);
    }
  }

  lemma {:induction false} HearClients(w: World, addr: M.Addr, rs: seq<Reply>, refused: map<M.Addr, Bytes>)
    ensures var w' := HearAll(w, addr, rs, refused); w'.clients.Keys == w.clients.Keys && w'.alive == w.alive
    decreases |rs|
  {
    hide M.OnReply, Absorb, Settled;
    if rs != [] {
      var m := M.OnReply(w.mux, M.Env(w.alive, refused), addr, rs[0]);
      AbsorbClients(w, m);
      HearClients(Absorb(w, m), addr, rs[1..], refused);
    }
  }

  /** No router call returns for a slot that is not awaited any more, and a client that
      left does not come back. */
  lemma {:induction false} NeverAgain(w: World, events: seq<Event>, at: SlotRef, c: nat, j: nat)
    requires Inv(w) && IsRun(w, events) && j < |events|
    ensures at in w.work && at !in w.awaiting ==> !(events[j].RouterDone? && events[j].at == at)
    ensures c in w.clients && c !in w.alive ==> !(events[j].ClientTraffic? && events[j].client == c)
    decreases |events|
  {
    hide Inv, Step;
    StepInv(w, events[0]);
    StepSettles(w, events[0]);
    if j > 0 {
      NeverAgain(Step(w, events[0]), events[1..], at, c, j - 1);
    }
  }

  lemma {:induction false} RunSplits(w: World, events: seq<Event>, i: nat)
    requires Inv(w) && IsRun(w, events) && i < |events|
    ensures IsRun(w, events[..i]) && var w1 := After(w, events[..i]);
            Inv(w1) && Enabled(w1, events[i]) && IsRun(Step(w1, events[i]), events[i + 1..])
    decreases |events|
  {
    hide Inv, Step, Enabled;
    if i == 0 {
      assert events[..0] == [];
    } else {
      StepInv(w, events[0]);
      RunSplits(Step(w, events[0]), events[1..], i - 1);
      assert events[..i][1..] == events[1..][..i - 1] && events[1..][i..] == events[i + 1..];
    }
  }

  /** In every run each router call returns at most once. */
  lemma RouterReturnsOnce(events: seq<Event>, i: nat, j: nat)
    requires IsRun(START, events) && i < j < |events| && events[i].RouterDone?
    ensures !(events[j].RouterDone? && events[j].at == events[i].at)
  {
    hide Inv, Step, After, IsRun;
    StartInv();
    RunSplits(START, events, i);
    var w := After(START, events[..i]);
    StepInv(w, events[i]);
    StepSettles(w, events[i]);
    assert events[j] == events[i + 1..][j - i - 1];
    NeverAgain(Step(w, events[i]), events[i + 1..], events[i].at, 0, j - i - 1);
  }

  lemma {:induction false} StaysKnown(w: World, events: seq<Event>, c: nat)
    requires Inv(w) && IsRun(w, events) && c in w.clients
    ensures c in After(w, events).clients
    decreases |events|
  {
    hide Inv, Step, Enabled;
    if events != [] {
      StepInv(w, events[0]);
      StepSettles(w, events[0]);
      StaysKnown(Step(w, events[0]), events[1..], c);
    }
  }

  /** And nothing is read from a client after it disconnected. */
  lemma GoneForGood(events: seq<Event>, h: nat, i: nat, j: nat)
    requires IsRun(START, events) && h < i < j < |events|
    requires events[h].Connect? && events[i] == Disconnect(events[h].client)
    ensures !(events[j].ClientTraffic? && events[j].client == events[h].client)
  {
    hide Inv, After, IsRun;
    var c, rest := events[h].client, events[h + 1..];
    StartInv();
    RunSplits(START, events, h);
    var w := Step(After(START, events[..h]), events[h]);
    StepInv(After(START, events[..h]), events[h]);
    assert rest[i - h - 1] == events[i] && rest[i - h - 1 + 1..] == events[i + 1..];
    RunSplits(w, rest, i - h - 1);
    var w1 := After(w, rest[..i - h - 1]);
    StaysKnown(w, rest[..i - h - 1], c);
    StepInv(w1, events[i]);
    assert events[j] == events[i + 1..][j - i - 1];
    NeverAgain(Step(w1, events[i]), events[i + 1..], SlotRef(0, 0), c, j - i - 1);
  }
}
