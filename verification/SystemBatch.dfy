/** A batch of replies is one step of the multiplexer's own loop. */
module SystemBatch {
  import opened Prelude
  import opened Framing
  import opened Merging
  import opened Routing
  import opened System
  import opened SystemLaws
  import opened SystemRuns
  import M = Mux
  import ML = MuxLaws
  import Q = ReplyQueue

  // ------------------------------------------------ outputs are only ever appended

  function Sans(m: M.Mux): M.Mux { m.(outs := []) }

  /** `m'` is what `s'` is, with the outputs of `m` in front. */
  predicate Framed(m: M.Mux, m': M.Mux, s': M.Mux) { m' == s'.(outs := m.outs + s'.outs) }

  lemma DialFailedFrame(m: M.Mux, env: M.Env, addr: M.Addr, err: Bytes)
    ensures Framed(m, M.DialFailed(m, env, addr, err), M.DialFailed(Sans(m), env, addr, err))
  {
    hide M.Posts, M.FailAll, EncodeError;
    var posts := M.Posts(M.Queue(m, addr), env.alive, EncodeError(err));
    assert [] + posts == posts;
  }

  lemma EnqueueFrame(m: M.Mux, env: M.Env, addr: M.Addr, es: seq<M.Pending>, k: M.Key)
    ensures Framed(m, M.Enqueue(m, env, addr, es, k), M.Enqueue(Sans(m), env, addr, es, k))
  {
    hide M.DialFailed;
    var m1 := m.(dialing := m.dialing[addr := M.Queue(m, addr) + es],
                 loc := m.loc[k := M.Dialing(addr)], sends := M.Bump(m.sends, k));
    assert m.outs + [] == m.outs;
    if addr in env.refused {
      DialFailedFrame(m1, env, addr, env.refused[addr]);
    }
  }

  lemma SendFrame(m: M.Mux, env: M.Env, addr: M.Addr, p: M.Pending)
    ensures Framed(m, M.Send(m, env, addr, p), M.Send(Sans(m), env, addr, p))
    ensures Framed(m, M.SendAsk(m, env, addr, p), M.SendAsk(Sans(m), env, addr, p))
  {
    hide M.Enqueue;
    assert m.outs + [] == m.outs;
    EnqueueFrame(m, env, addr, [p], p.key);
    EnqueueFrame(m, env, addr, [M.Sentinel(p), p], p.key);
  }

  lemma FinishFrame(m: M.Mux, env: M.Env, k: M.Key, raw: Bytes)
    ensures Framed(m, M.Finish(m, env, k, raw), M.Finish(Sans(m), env, k, raw))
  {
    assert m.outs + [] == m.outs && [] + [M.DeliverTo(k, raw)] == [M.DeliverTo(k, raw)];
  }

  lemma DispatchFrame(m: M.Mux, env: M.Env, p: M.Pending, r: Reply)
    ensures Framed(m, M.Dispatch(m, env, p, r), M.Dispatch(Sans(m), env, p, r))
  {
    hide M.Send, M.SendAsk, M.Finish, M.ParseRedirection, Framed, Sans;
    var target, again := M.ParseRedirection(r.msg), p.(depth := p.depth + 1);
    FinishFrame(m, env, p.key, r.raw);
    if target.Some? {
      SendFrame(m, env, target.value, again);
    }
  }

  lemma ServeSans(m: M.Mux, addr: M.Addr, raw: Bytes)
    requires addr in m.conns
    ensures var served := M.Serve(m, addr, raw);
            M.Serve(Sans(m), addr, raw) == Sans(served) && addr in served.conns && served.outs == m.outs
  {
    var c := m.conns[addr];
    if c.wire == [] {
      assert M.Serve(m, addr, raw) == m.(unsolicited := true);
    } else {
      var conns := m.conns[addr := c.(wire := c.wire[1..])];
      if c.wire[0].Command? {
        assert M.Serve(m, addr, raw) == m.(conns := conns, served := m.served[c.wire[0].key := raw]);
      } else {
        assert M.Serve(m, addr, raw) == m.(conns := conns, served := m.served);
      }
    }
  }

  lemma PopSans(m: M.Mux, addr: M.Addr)
    requires addr in m.conns && m.conns[addr].live != []
    ensures M.Pop(Sans(m), addr) == Sans(M.Pop(m, addr)) && M.Pop(m, addr).outs == m.outs
  {
  }

  lemma OnReplyFrame(m: M.Mux, env: M.Env, addr: M.Addr, r: Reply)
    ensures Framed(m, M.OnReply(m, env, addr, r), M.OnReply(Sans(m), env, addr, r))
  {
    hide M.Dispatch, M.Serve, M.Pop;
    assert m.outs + [] == m.outs;
    if addr in m.conns {
      ServeSans(m, addr, r.raw);
      var served := M.Serve(m, addr, r.raw);
      if served.conns[addr].live != [] {
        PopSans(served, addr);
        DispatchFrame(M.Pop(served, addr), env, served.conns[addr].live[0], r);
      }
    }
  }

  // -------------------------------------------------------------------- absorbing

  lemma {:induction false} DeliverBoth(clients: map<nat, Q.Client>, a: seq<M.Output>, b: seq<M.Output>)
    ensures DeliverOuts(clients, a + b) == DeliverOuts(DeliverOuts(clients, a), b)
    decreases |a|
  {
    hide Q.Deliver;
    if a == [] {
      assert a + b == b;
    } else {
      var k := a[0].key;
      var next :=
        if a[0].DeliverTo? && k.client in clients then
          clients[k.client := Q.Deliver(clients[k.client], DeliveryFor(k, a[0].data))]
        else clients;
      assert (a + b)[0] == a[0] && (a + b)[1..] == a[1..] + b;
      DeliverBoth(next, a[1..], b);
    }
  }

  lemma {:induction false} PostBoth(a: seq<M.Output>, b: seq<M.Output>)
    ensures PostedBy(a + b) == PostedBy(a) + PostedBy(b)
  {
    if a == [] {
      assert a + b == b;
    } else {
      assert (a + b)[0] == a[0] && (a + b)[1..] == a[1..] + b;
      PostBoth(a[1..], b);
      var head := if a[0].Post? then [Posted(Ref(a[0].key), a[0].data)] else [];
      assert head + (PostedBy(a[1..]) + PostedBy(b)) == head + PostedBy(a[1..]) + PostedBy(b);
    }
  }

  /** Absorbing a step after a step is absorbing both. */
  lemma AbsorbBoth(w: World, m: M.Mux, m': M.Mux, s': M.Mux)
    requires Framed(m, m', s')
    ensures Absorb(Absorb(w, m), s') == Absorb(w, m')
  {
    hide DeliverOuts, PostedBy;
    DeliverBoth(w.clients, m.outs, s'.outs);
    PostBoth(m.outs, s'.outs);
    assert w.posted + (PostedBy(m.outs) + PostedBy(s'.outs)) == w.posted + PostedBy(m.outs) + PostedBy(s'.outs);
  }

  lemma {:induction false} HearAfter(w: World, m: M.Mux, addr: M.Addr, rs: seq<Reply>, refused: map<M.Addr, Bytes>)
    ensures HearAll(Absorb(w, m), addr, rs, refused) == Absorb(w, M.OnReplies(m, M.Env(w.alive, refused), addr, rs))
    decreases |rs|
  {
    hide M.OnReply, DeliverOuts, PostedBy;
    if rs != [] {
      var env := M.Env(w.alive, refused);
      var m' := M.OnReply(m, env, addr, rs[0]);
      var s' := M.OnReply(Sans(m), env, addr, rs[0]);
      OnReplyFrame(m, env, addr, rs[0]);
      AbsorbBoth(w, m, m', s');
      HearAfter(w, m', addr, rs[1..], refused);
    }
  }

  /** The loop of the transition system is the loop BackendMux.OnTraffic runs: the
      multiplexer folds the replies, and its outputs reach clients and posted fills. */
  lemma HearingIsOneBatch(w: World, addr: M.Addr, rs: seq<Reply>, refused: map<M.Addr, Bytes>)
    requires w.mux.outs == []
    ensures HearAll(w, addr, rs, refused) == Absorb(w, M.OnReplies(w.mux, M.Env(w.alive, refused), addr, rs))
  {
    assert Absorb(w, w.mux) == w by {
      assert w.mux.(outs := []) == w.mux && w.posted + [] == w.posted;
    }
    HearAfter(w, w.mux, addr, rs, refused);
  }

  // ------------------------------------------------------------ no ASK overtakes

  lemma SendKeepsFlag(m: M.Mux, env: M.Env, addr: M.Addr, p: M.Pending)
    ensures M.Send(m, env, addr, p).reordered == m.reordered
  {
    hide M.Send;
    ML.SendEffect(m, env, addr, p);
  }

  lemma {:induction false} SendPartsKeepFlag(m: M.Mux, env: M.Env, at: SlotRef, parts: seq<Part>, i: nat)
    requires i <= |parts|
    ensures SendParts(m, env, at, parts, i).reordered == m.reordered
    decreases |parts| - i
  {
    hide M.Send;
    if i < |parts| {
      var p := NewRequest(at.client, at.slot, Some(i));
      SendKeepsFlag(m, env, parts[i].addr, p);
      SendPartsKeepFlag(M.Send(m, env, parts[i].addr, p), env, at, parts, i + 1);
    }
  }

  lemma {:induction false} AcceptKeepsFlag(w: World, c: nat, cmds: seq<Cmd>, refused: map<M.Addr, Bytes>)
    ensures AcceptAll(w, c, cmds, refused).mux.reordered == w.mux.reordered
    decreases |cmds|
  {
    hide M.Send, SendParts, DeliverOuts, PostedBy, Q.Alloc, Q.Immediate;
    if cmds != [] && c in w.clients {
      var at, env := SlotRef(c, Allocated(w.clients[c])), M.Env(w.alive, refused);
      match cmds[0] {
        case RouteCmd(part) => SendKeepsFlag(w.mux, env, part.addr, NewRequest(c, at.slot, None));
        case FanCmd(parts, _) => SendPartsKeepFlag(w.mux, env, at, parts, 0);
        case _ =>
      }
      AcceptKeepsFlag(Accept(w, c, cmds[0], refused), c, cmds[1..], refused);
    }
  }

  lemma BatchKeepsFlag(w: World, addr: M.Addr, rs: seq<Reply>, refused: map<M.Addr, Bytes>)
    requires Flushed(w) && w.mux.outs == [] && ML.NoAskAfterMoved(rs)
    ensures HearAll(w, addr, rs, refused).mux.reordered ==> w.mux.reordered
  {
    hide HearAll, M.OnReplies, DeliverOuts, PostedBy, ML.NoAskAfterMoved;
    HearingIsOneBatch(w, addr, rs, refused);
    assert [] + rs == rs;
    ML.BatchKeepsOrder(w.mux, M.Env(w.alive, refused), addr, [], rs);
  }

  /** No batch of the run asks for an address an earlier reply of it moved to. */
  predicate Tame(e: Event) { e.BackendTraffic? ==> ML.NoAskAfterMoved(e.replies) }

  lemma StepKeepsFlag(w: World, e: Event)
    requires Inv(w) && Enabled(w, e) && Tame(e)
    ensures Step(w, e).mux.reordered ==> w.mux.reordered
  {
    hide WorldOk, AcceptAll, HearAll, DeliverOuts, PostedBy, Q.FillInLoop, M.Posts, M.FailAll, M.WrittenAll, M.Relocate;
    assert w.mux.outs == [] by { NoOuts(w); }
    match e {
      case ClientTraffic(c, cmds, refused) => AcceptKeepsFlag(w, c, cmds, refused);
      case BackendTraffic(addr, rs, refused) => BatchKeepsFlag(w, addr, rs, refused);
      case _ =>
    }
  }

  lemma NoOuts(w: World)
    requires Inv(w)
    ensures w.mux.outs == []
  {
    hide M.Inv, Registered, ClientOk, Justified;
  }

  /** In every run of such batches no ASK ever overtakes, so what EveryReplyIsRight and
      WireMatchesPending say of an unset flag holds throughout. */
  lemma {:induction false} NothingOvertakes(w: World, events: seq<Event>)
    requires Inv(w) && IsRun(w, events) && forall i | 0 <= i < |events| :: Tame(events[i])
    ensures After(w, events).mux.reordered ==> w.mux.reordered
    decreases |events|
  {
    hide Inv, Step, Enabled, Tame;
    if events != [] {
      StepInv(w, events[0]);
      StepKeepsFlag(w, events[0]);
      NothingOvertakes(Step(w, events[0]), events[1..]);
    }
  }

  lemma TameRunsKeepOrder(events: seq<Event>)
    requires IsRun(START, events) && forall i | 0 <= i < |events| :: Tame(events[i])
    ensures !After(START, events).mux.reordered
  {
    hide Inv, Step, After, IsRun;
    StartInv();
    NothingOvertakes(START, events);
  }
}
