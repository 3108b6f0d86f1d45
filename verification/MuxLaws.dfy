/** What every step of the multiplexer keeps. */
module MuxLaws {
  import opened Prelude
  import opened Resp
  import opened Framing
  import opened Merging
  import opened Mux

  /** A request ready to be (re-)sent: it is in no queue, and it has been sent once
      per level of its depth. */
  predicate ReadyToSend(m: Mux, p: Pending) {
    && !p.skip && !p.asking && p.key !in m.loc && p.depth <= MAX_REDIRECTS
    && (if p.key in m.sends then m.sends[p.key] else 0) == p.depth
  }

  /** Nothing is located at an address that is neither dialled nor connected. */
  lemma NobodyDialing(m: Mux, addr: Addr)
    requires Placed(m)
    ensures Holds(m.loc, Queue(m, addr), Dialing(addr))
  {
    if addr !in m.dialing {
      NobodyAt(m.loc, Dialing(addr));
    }
  }

  // ------------------------------------------------------------------- sending

  /** The rest of the mux when request `k` joins the queue at `at`. */
  lemma OthersKeep(m: Mux, k: Key, at: Loc)
    requires Placed(m) && Limited(m) && k !in m.loc
    ensures forall a | a in m.dialing && Dialing(a) != at ::
              Holds(m.loc[k := at], m.dialing[a], Dialing(a)) && Bounded(Bump(m.sends, k), m.dialing[a])
    ensures forall a | a in m.conns && OnConn(a) != at ::
              Holds(m.loc[k := at], m.conns[a].live, OnConn(a)) && Bounded(Bump(m.sends, k), m.conns[a].live)
  {
    hide Holds, Bounded;
    forall a | a in m.dialing && Dialing(a) != at
      ensures Holds(m.loc[k := at], m.dialing[a], Dialing(a)) && Bounded(Bump(m.sends, k), m.dialing[a]) {
      HoldsElsewhere(m.loc, m.dialing[a], Dialing(a), k, at);
      BoundedBump(m.sends, m.loc, m.dialing[a], Dialing(a), k);
    }
    forall a | a in m.conns && OnConn(a) != at
      ensures Holds(m.loc[k := at], m.conns[a].live, OnConn(a)) && Bounded(Bump(m.sends, k), m.conns[a].live) {
      HoldsElsewhere(m.loc, m.conns[a].live, OnConn(a), k, at);
      BoundedBump(m.sends, m.loc, m.conns[a].live, OnConn(a), k);
    }
  }

  lemma BoundedJoin(m: Mux, q: seq<Pending>, entries: seq<Pending>, p: Pending, at: Loc)
    requires ReadyToSend(m, p) && Holds(m.loc, q, at) && Bounded(m.sends, q)
    requires Entries(entries, p)
    ensures Bounded(Bump(m.sends, p.key), q + entries)
  {
    hide Holds;
    BoundedBump(m.sends, m.loc, q, at, p.key);
    PairedJoin(q, entries, p);
  }

  lemma PairedJoin(q: seq<Pending>, entries: seq<Pending>, p: Pending)
    requires Paired(q) && Entries(entries, p) && !p.skip && !p.asking
    ensures Paired(q + entries)
  {
    var all := q + entries;
    forall i | 0 <= i < |all| && all[i].asking ensures i + 1 < |all| && !all[i + 1].skip && all[i + 1].key == all[i].key {
      if i < |q| {
        assert all[i] == q[i] && all[i + 1] == q[i + 1];
      }
    }
  }

  predicate Entries(es: seq<Pending>, p: Pending) { es == [p] || es == [Sentinel(p), p] }

  /** A request joins an open connection, with or without its ASKING sentinel. */
  lemma JoinPlaced(m: Mux, m': Mux, addr: Addr, c': Conn, es: seq<Pending>, p: Pending)
    requires Placed(m) && Limited(m) && ReadyToSend(m, p) && addr in m.conns
    requires Entries(es, p) && c'.live == m.conns[addr].live + es
    requires m'.conns == m.conns[addr := c'] && m'.dialing == m.dialing && m'.loc == m.loc[p.key := OnConn(addr)]
    ensures Placed(m')
  {
    hide Holds, Bounded;
    var c := m.conns[addr];
    OthersKeep(m, p.key, OnConn(addr));
    KeysOne(c.live, p);
    HoldsJoin(m.loc, c.live, c.live + es, OnConn(addr), p.key);
  }

  lemma JoinLimited(m: Mux, m': Mux, addr: Addr, c': Conn, es: seq<Pending>, p: Pending)
    requires Placed(m) && Limited(m) && ReadyToSend(m, p) && addr in m.conns
    requires Entries(es, p) && c'.live == m.conns[addr].live + es
    requires Buffered(c'.buf)
    requires m'.conns == m.conns[addr := c'] && m'.dialing == m.dialing && m'.sends == Bump(m.sends, p.key)
    ensures Limited(m')
  {
    hide Holds, Bounded;
    OthersKeep(m, p.key, OnConn(addr));
    BoundedJoin(m, m.conns[addr].live, es, p, OnConn(addr));
  }

  lemma OnlyCommands(m: Mux, addr: Addr)
    requires Limited(m) && addr in m.conns
    ensures Buffered(m.conns[addr].buf)
  {
    hide Bounded;
  }

  lemma SendOpenInv(m: Mux, env: Env, addr: Addr, p: Pending)
    requires Inv(m) && ReadyToSend(m, p) && addr in m.conns
    ensures Inv(Send(m, env, addr, p))
  {
    hide Placed, Limited;
    var c, m' := m.conns[addr], Send(m, env, addr, p);
    assert Buffered(c.buf) by { OnlyCommands(m, addr); }
    JoinPlaced(m, m', addr, m'.conns[addr], [p], p);
    JoinLimited(m, m', addr, m'.conns[addr], [p], p);
    assert c.wire + (c.buf + [Command(p.key)]) == (c.wire + c.buf) + [Command(p.key)];
  }

  lemma SendAskOpenInv(m: Mux, env: Env, addr: Addr, p: Pending)
    requires Inv(m) && ReadyToSend(m, p) && addr in m.conns
    ensures Inv(SendAsk(m, env, addr, p))
  {
    hide Placed, Limited;
    var c, m' := m.conns[addr], SendAsk(m, env, addr, p);
    assert Buffered(c.buf) by { OnlyCommands(m, addr); }
    JoinPlaced(m, m', addr, m'.conns[addr], [Sentinel(p), p], p);
    JoinLimited(m, m', addr, m'.conns[addr], [Sentinel(p), p], p);
    if !m'.reordered && !m'.unsolicited {
      assert c.wire + c.buf == c.wire;
      assert m'.conns[addr].wire + m'.conns[addr].buf == c.wire + [Asking, Command(p.key)];
    }
  }

  lemma EnqueuedInv(m: Mux, addr: Addr, entries: seq<Pending>, p: Pending)
    requires Inv(m) && ReadyToSend(m, p) && addr !in m.conns
    requires Entries(entries, p)
    ensures Inv(m.(dialing := m.dialing[addr := Queue(m, addr) + entries],
                   loc := m.loc[p.key := Dialing(addr)], sends := Bump(m.sends, p.key)))
  {
    hide Holds, Bounded;
    var q := Queue(m, addr);
    OthersKeep(m, p.key, Dialing(addr));
    NobodyDialing(m, addr);
    KeysOne(q, p);
    HoldsJoin(m.loc, q, q + entries, Dialing(addr), p.key);
    assert Bounded(m.sends, q) by { EmptyBounded(m, addr); }
    BoundedJoin(m, q, entries, p, Dialing(addr));
  }

  lemma EmptyBounded(m: Mux, addr: Addr)
    requires Limited(m)
    ensures Bounded(m.sends, Queue(m, addr))
  {
  }

  // ------------------------------------------------------------------- failing

  lemma HoldsFail(loc: map<Key, Loc>, q: seq<Pending>, at: Loc, gone: Loc, alive: set<nat>, data: Bytes)
    requires Holds(loc, q, at) && at != gone && !at.Finished?
    ensures Holds(FailAll(loc, gone, alive, data), q, at)
  {
  }

  /** Failing everything at a place keeps everybody else where they were. */
  lemma FailKeeps(m: Mux, gone: Loc, alive: set<nat>, data: Bytes)
    requires Placed(m) && !gone.Finished?
    ensures var loc := FailAll(m.loc, gone, alive, data);
            && (forall a | a in m.dialing && Dialing(a) != gone :: Holds(loc, m.dialing[a], Dialing(a)))
            && (forall a | a in m.conns && OnConn(a) != gone :: Holds(loc, m.conns[a].live, OnConn(a)))
  {
    hide Holds, FailAll;
    forall a | a in m.dialing && Dialing(a) != gone
      ensures Holds(FailAll(m.loc, gone, alive, data), m.dialing[a], Dialing(a)) {
      HoldsFail(m.loc, m.dialing[a], Dialing(a), gone, alive, data);
    }
    forall a | a in m.conns && OnConn(a) != gone
      ensures Holds(FailAll(m.loc, gone, alive, data), m.conns[a].live, OnConn(a)) {
      HoldsFail(m.loc, m.conns[a].live, OnConn(a), gone, alive, data);
    }
  }

  lemma DialFailedInv(m: Mux, env: Env, addr: Addr, err: Bytes)
    requires Inv(m)
    ensures Inv(DialFailed(m, env, addr, err))
  {
    hide Holds, Bounded, Aligned, EncodeError;
    FailKeeps(m, Dialing(addr), env.alive, EncodeError(err));
  }

  lemma CloseInv(m: Mux, env: Env, addr: Addr)
    requires Inv(m)
    ensures Inv(Close(m, env, addr))
  {
    hide Holds, Bounded, Aligned, DisconnectError;
    FailKeeps(m, OnConn(addr), env.alive, DisconnectError(addr));
  }

  lemma EnqueueInv(m: Mux, env: Env, addr: Addr, entries: seq<Pending>, p: Pending)
    requires Inv(m) && ReadyToSend(m, p) && addr !in m.conns
    requires Entries(entries, p)
    ensures Inv(Enqueue(m, env, addr, entries, p.key))
  {
    hide Inv, DialFailed;
    var m' := m.(dialing := m.dialing[addr := Queue(m, addr) + entries],
                 loc := m.loc[p.key := Dialing(addr)], sends := Bump(m.sends, p.key));
    EnqueuedInv(m, addr, entries, p);
    if addr in env.refused {
      DialFailedInv(m', env, addr, env.refused[addr]);
    }
  }

  lemma SendInv(m: Mux, env: Env, addr: Addr, p: Pending)
    requires Inv(m) && ReadyToSend(m, p)
    ensures Inv(Send(m, env, addr, p))
  {
    hide Inv, Enqueue;
    if addr in m.conns {
      SendOpenInv(m, env, addr, p);
    } else {
      EnqueueInv(m, env, addr, [p], p);
    }
  }

  lemma SendAskInv(m: Mux, env: Env, addr: Addr, p: Pending)
    requires Inv(m) && ReadyToSend(m, p)
    ensures Inv(SendAsk(m, env, addr, p))
  {
    hide Inv, Enqueue;
    if addr in m.conns {
      SendAskOpenInv(m, env, addr, p);
    } else {
      EnqueueInv(m, env, addr, [Sentinel(p), p], p);
    }
  }

  // ------------------------------------------------------------------- opening

  lemma HoldsMoved(loc: map<Key, Loc>, q: seq<Pending>, q': seq<Pending>, from: Loc, to: Loc)
    requires Holds(loc, q, from) && Keys(q') == Keys(q) && from != to
    requires forall k | k in loc :: loc[k] != to
    ensures Holds(Relocate(loc, from, to), q', to)
  {
  }

  lemma HoldsUnmoved(loc: map<Key, Loc>, q: seq<Pending>, at: Loc, from: Loc, to: Loc)
    requires Holds(loc, q, at) && at != from && at != to
    ensures Holds(Relocate(loc, from, to), q, at)
  {
  }

  lemma GreetedKeys(q: seq<Pending>, replica: bool)
    requires q != []
    ensures Keys((if replica then [ReadonlySentinel(q[0])] else []) + q) == Keys(q)
  {
    KeysConcat(if replica then [ReadonlySentinel(q[0])] else [], q);
  }

  lemma OpenPlaced(m: Mux, addr: Addr, replica: bool)
    requires Inv(m) && addr in m.dialing
    ensures Placed(Open(m, addr, replica))
  {
    hide Holds, Limited, Truthful, Relocate, WrittenAll, Keys;
    var q, m' := m.dialing[addr], Open(m, addr, replica);
    var live := m'.conns[addr].live;
    var from, to := Dialing(addr), OnConn(addr);
    GreetedKeys(q, replica);
    assert Keys(live) == Keys(q);
    HoldsMoved(m.loc, q, live, from, to);
    forall a | a in m.dialing && a != addr ensures Holds(m'.loc, m.dialing[a], Dialing(a)) {
      HoldsUnmoved(m.loc, m.dialing[a], Dialing(a), from, to);
    }
    forall a | a in m.conns ensures Holds(m'.loc, m.conns[a].live, OnConn(a)) {
      HoldsUnmoved(m.loc, m.conns[a].live, OnConn(a), from, to);
    }
    RelocateKeeps(m.loc, from, to);
  }

  /** onOpen runs for a dial in flight: the queue becomes pending in order, and the
      greeting and the queued commands are on the wire in the same order. */
  lemma OpenInv(m: Mux, addr: Addr, replica: bool)
    requires Inv(m) && addr in m.dialing
    ensures Inv(Open(m, addr, replica))
  {
    hide Placed, Bounded, Aligned, Relocate;
    OpenPlaced(m, addr, replica);
    OpenedConn(m, addr, replica);
    RelocateKeeps(m.loc, Dialing(addr), OnConn(addr));
  }

  lemma RelocateKeeps(loc: map<Key, Loc>, from: Loc, to: Loc)
    ensures forall k | k in Relocate(loc, from, to) :: k in loc &&
              Relocate(loc, from, to)[k] == if loc[k] == from then to else loc[k]
  {
  }

  lemma OpenedConn(m: Mux, addr: Addr, replica: bool)
    requires Inv(m) && addr in m.dialing
    ensures Aligned(Open(m, addr, replica).conns[addr])
    ensures Bounded(m.sends, Open(m, addr, replica).conns[addr].live)
  {
    hide Placed, Limited, Relocate;
    assert Waiting(m.dialing[addr]) && Bounded(m.sends, m.dialing[addr]) by { DialQueue(m, addr); }
    var q := m.dialing[addr];
    var greet: seq<Pending> := if replica then [ReadonlySentinel(q[0])] else [];
    var hello: seq<WireCmd> := if replica then [Readonly] else [];
    assert Bounded(m.sends, greet + q);
    OpenedAligned(q, greet, hello);
  }

  lemma DialQueue(m: Mux, addr: Addr)
    requires Inv(m) && addr in m.dialing
    ensures Waiting(m.dialing[addr]) && Bounded(m.sends, m.dialing[addr])
  {
    hide Holds, Waiting, Bounded;
  }

  lemma OpenedAligned(q: seq<Pending>, greet: seq<Pending>, hello: seq<WireCmd>)
    requires forall i | 0 <= i < |q| :: q[i].skip == q[i].asking
    requires |greet| == |hello| && forall i | 0 <= i < |greet| :: Expect(greet[i]) == hello[i]
    ensures Aligned(Conn(greet + q, [], hello + WrittenAll(q)))
  {
    var all := hello + WrittenAll(q);
    assert all + [] == all;
  }

  lemma FlushAllInv(m: Mux)
    requires Inv(m)
    ensures Inv(FlushAll(m))
    ensures forall a | a in FlushAll(m).conns :: FlushAll(m).conns[a].buf == []
  {
    hide Holds, Bounded;
    var m' := FlushAll(m);
    forall a | a in m.conns && Aligned(m.conns[a]) ensures Aligned(m'.conns[a]) {
      var c, c' := m.conns[a], m'.conns[a];
      assert c'.wire + c'.buf == c.wire + c.buf;
    }
  }

  // ------------------------------------------------------------------- replies

  /** Popping the head keeps the invariant, and takes a real request off the map
      of locations, ready to be sent again or finished. */
  lemma ServePopInv(m: Mux, addr: Addr, raw: Bytes)
    requires Inv(m) && addr in m.conns && m.conns[addr].live != []
    ensures Inv(Pop(Serve(m, addr, raw), addr))
  {
    hide Placed, Limited, Truthful;
    ServePopPlaced(m, addr, raw);
    ServePopLimited(m, addr, raw);
    var m' := Pop(Serve(m, addr, raw), addr);
    if !m'.reordered && !m'.unsolicited {
      ServePopTruthful(m, addr, raw);
    }
  }

  lemma ServePopPlaced(m: Mux, addr: Addr, raw: Bytes)
    requires Placed(m) && addr in m.conns && m.conns[addr].live != []
    ensures Placed(Pop(Serve(m, addr, raw), addr))
  {
    hide Placed;
    ServeKeeps(m, addr, raw);
    PopPlaced(Serve(m, addr, raw), addr);
  }

  lemma ServeKeeps(m: Mux, addr: Addr, raw: Bytes)
    requires addr in m.conns
    ensures addr in Serve(m, addr, raw).conns && Serve(m, addr, raw).conns[addr].live == m.conns[addr].live
    ensures Placed(m) ==> Placed(Serve(m, addr, raw))
    ensures Limited(m) ==> Limited(Serve(m, addr, raw))
  {
    hide Placed, Limited;
    ServePlaced(m, addr, raw);
    ServeLimited(m, addr, raw);
  }

  lemma ServePlaced(m: Mux, addr: Addr, raw: Bytes)
    requires addr in m.conns
    ensures Placed(m) ==> Placed(Serve(m, addr, raw))
  {
    hide Holds, Waiting;
  }

  lemma ServeLimited(m: Mux, addr: Addr, raw: Bytes)
    requires addr in m.conns
    ensures Limited(m) ==> Limited(Serve(m, addr, raw))
  {
    hide Bounded, Buffered;
  }

  lemma PopPlaced(m: Mux, addr: Addr)
    requires Placed(m) && addr in m.conns && m.conns[addr].live != []
    ensures Placed(Pop(m, addr))
  {
    hide Holds;
    HoldsHead(m.loc, m.conns[addr].live, OnConn(addr));
    PopOthers(m, addr);
  }

  lemma ServePopLimited(m: Mux, addr: Addr, raw: Bytes)
    requires Limited(m) && addr in m.conns && m.conns[addr].live != []
    ensures Limited(Pop(Serve(m, addr, raw), addr))
  {
    hide Bounded;
    ServeKeeps(m, addr, raw);
    BoundedTail(m.sends, m.conns[addr].live);
  }

  lemma BoundedTail(sends: map<Key, nat>, q: seq<Pending>)
    requires Bounded(sends, q) && q != []
    ensures Bounded(sends, q[1..])
  {
  }

  lemma ServePopTruthful(m: Mux, addr: Addr, raw: Bytes)
    requires Inv(m) && !m.reordered && !m.unsolicited
    requires addr in m.conns && m.conns[addr].live != [] && m.conns[addr].wire != []
    ensures Truthful(Pop(Serve(m, addr, raw), addr))
    ensures var p := m.conns[addr].live[0];
            !p.skip ==> p.key in Serve(m, addr, raw).served && Serve(m, addr, raw).served[p.key] == raw
  {
    hide Holds, Aligned, Bounded;
    AlignedHead(m.conns[addr]);
    ServedOthers(m, addr, raw);
  }

  /** The popped request was on this connection and nowhere else. */
  lemma Popped(m: Mux, addr: Addr, raw: Bytes)
    requires Inv(m) && addr in m.conns && m.conns[addr].live != [] && !m.conns[addr].live[0].skip
    ensures var p, m' := m.conns[addr].live[0], Pop(Serve(m, addr, raw), addr);
            && p.key in m.loc && m.loc[p.key] == OnConn(addr) && m'.loc == m.loc - {p.key}
            && (p.depth < MAX_REDIRECTS ==> ReadyToSend(m', p.(depth := p.depth + 1)))
  {
    hide Holds, Limited, Truthful, Serve, Pop;
    var q := m.conns[addr].live;
    assert Holds(m.loc, q, OnConn(addr));
    HoldsHead(m.loc, q, OnConn(addr));
    LiveBounded(m, addr);
    PoppedLoc(m, addr, raw);
  }

  lemma LiveBounded(m: Mux, addr: Addr)
    requires Limited(m) && addr in m.conns
    ensures Bounded(m.sends, m.conns[addr].live)
  {
    hide Bounded;
  }

  lemma PoppedLoc(m: Mux, addr: Addr, raw: Bytes)
    requires addr in m.conns && m.conns[addr].live != []
    ensures var p, served := m.conns[addr].live[0], Serve(m, addr, raw);
            && addr in served.conns && served.conns[addr].live == m.conns[addr].live
            && Pop(served, addr).loc == (if p.skip then m.loc else m.loc - {p.key}) && Pop(served, addr).sends == m.sends
  {
    hide Serve, Pop;
    ServeLoc(m, addr, raw);
    PopLoc(Serve(m, addr, raw), addr);
  }

  lemma ServeLoc(m: Mux, addr: Addr, raw: Bytes)
    requires addr in m.conns
    ensures var served := Serve(m, addr, raw);
            addr in served.conns && served.conns[addr].live == m.conns[addr].live && served.loc == m.loc && served.sends == m.sends
  {
    var c := m.conns[addr];
    if c.wire == [] {
      assert Serve(m, addr, raw) == m.(unsolicited := true);
    } else {
      var conns := m.conns[addr := c.(wire := c.wire[1..])];
      if c.wire[0].Command? {
        assert Serve(m, addr, raw) == m.(conns := conns, served := m.served[c.wire[0].key := raw]);
      } else {
        assert Serve(m, addr, raw) == m.(conns := conns, served := m.served);
      }
    }
  }

  lemma PopLoc(m: Mux, addr: Addr)
    requires addr in m.conns && m.conns[addr].live != []
    ensures var p := m.conns[addr].live[0];
            Pop(m, addr).loc == (if p.skip then m.loc else m.loc - {p.key}) && Pop(m, addr).sends == m.sends
  {
  }

  lemma AlignedHead(c: Conn)
    requires Aligned(c) && c.wire != []
    ensures c.live != [] && c.wire[0] == Expect(c.live[0])
    ensures Aligned(c.(live := c.live[1..], wire := c.wire[1..]))
  {
    var c' := c.(live := c.live[1..], wire := c.wire[1..]);
    assert Expect(c.live[0]) == (c.wire + c.buf)[0];
    assert c'.wire + c'.buf == (c.wire + c.buf)[1..];
  }

  /** A reply never overwrites what was recorded for a finished request. */
  lemma ServedOthers(m: Mux, addr: Addr, raw: Bytes)
    requires Inv(m) && !m.reordered && !m.unsolicited
    requires addr in m.conns && m.conns[addr].wire != [] && m.conns[addr].live != []
    ensures forall k | k in m.loc && m.loc[k].Finished? :: k in m.served ==>
              k in Serve(m, addr, raw).served && Serve(m, addr, raw).served[k] == m.served[k]
  {
    hide Holds, Aligned;
    var c := m.conns[addr];
    AlignedHead(c);
    HoldsHead(m.loc, c.live, OnConn(addr));
  }

  lemma HoldsWithout(loc: map<Key, Loc>, q: seq<Pending>, at: Loc, k: Key)
    requires Holds(loc, q, at) && (k in loc ==> loc[k] != at)
    ensures Holds(loc - {k}, q, at)
  {
  }

  lemma PopOthers(m: Mux, addr: Addr)
    requires Placed(m) && addr in m.conns && m.conns[addr].live != []
    ensures var p := m.conns[addr].live[0];
            var loc := if p.skip then m.loc else m.loc - {p.key};
            && (forall a | a in m.dialing :: Holds(loc, m.dialing[a], Dialing(a)))
            && (forall a | a in m.conns && a != addr :: Holds(loc, m.conns[a].live, OnConn(a)))
  {
    hide Holds;
    var p := m.conns[addr].live[0];
    HoldsHead(m.loc, m.conns[addr].live, OnConn(addr));
    if !p.skip {
      forall a | a in m.dialing ensures Holds(m.loc - {p.key}, m.dialing[a], Dialing(a)) {
        HoldsWithout(m.loc, m.dialing[a], Dialing(a), p.key);
      }
      forall a | a in m.conns && a != addr ensures Holds(m.loc - {p.key}, m.conns[a].live, OnConn(a)) {
        HoldsWithout(m.loc, m.conns[a].live, OnConn(a), p.key);
      }
    }
  }

  lemma FinishInv(m: Mux, env: Env, k: Key, raw: Bytes)
    requires Inv(m) && k !in m.loc
    requires !m.reordered && !m.unsolicited ==> k in m.served && m.served[k] == raw
    ensures Inv(Finish(m, env, k, raw))
  {
    hide Holds, Bounded, Aligned;
    var to := Finished(if k.client in env.alive then Answered(raw) else Dropped);
    forall a | a in m.dialing ensures Holds(m.loc[k := to], m.dialing[a], Dialing(a)) {
      HoldsElsewhere(m.loc, m.dialing[a], Dialing(a), k, to);
    }
    forall a | a in m.conns ensures Holds(m.loc[k := to], m.conns[a].live, OnConn(a)) {
      HoldsElsewhere(m.loc, m.conns[a].live, OnConn(a), k, to);
    }
  }

  lemma ServeOnlyInv(m: Mux, addr: Addr, raw: Bytes)
    requires Inv(m) && addr in m.conns && m.conns[addr].live == []
    ensures Inv(Serve(m, addr, raw))
  {
    hide Placed, Limited;
    ServeKeeps(m, addr, raw);
  }

  /** One turn of the onTraffic loop keeps the invariant, whatever the reply. */
  lemma OnReplyInv(m: Mux, env: Env, addr: Addr, r: Reply)
    requires Inv(m)
    ensures Inv(OnReply(m, env, addr, r))
  {
    hide Inv, Serve, Send, SendAsk, Finish, ParseRedirection;
    if addr in m.conns {
      ServeKeeps(m, addr, r.raw);
      var live := m.conns[addr].live;
      if live == [] {
        ServeOnlyInv(m, addr, r.raw);
      } else {
        ServePopInv(m, addr, r.raw);
        if !live[0].skip {
          Popped(m, addr, r.raw);
          DispatchInv(m, env, addr, r);
        }
      }
    }
  }

  lemma DispatchInv(m: Mux, env: Env, addr: Addr, r: Reply)
    requires Inv(m) && addr in m.conns && m.conns[addr].live != [] && !m.conns[addr].live[0].skip
    ensures Inv(Dispatch(Pop(Serve(m, addr, r.raw), addr), env, m.conns[addr].live[0], r))
  {
    hide Placed, Limited, Truthful, Send, SendAsk, Finish, ParseRedirection;
    var p, m' := m.conns[addr].live[0], Pop(Serve(m, addr, r.raw), addr);
    ServePopInv(m, addr, r.raw);
    Popped(m, addr, r.raw);
    if !m'.reordered && !m'.unsolicited {
      ServePopTruthful(m, addr, r.raw);
    }
    FinishInv(m', env, p.key, r.raw);
    if p.depth < MAX_REDIRECTS && ParseRedirection(r.msg).Some? {
      var target, again := ParseRedirection(r.msg).value, p.(depth := p.depth + 1);
      SendInv(m', env, target, again);
      SendAskInv(m', env, target, again);
    }
  }

  // ------------------------------------------------- when an ASK overtakes

  /** Writing an ASK straight to the socket keeps wire and pending in step if and
      only if the write buffer is empty. */
  lemma AskAlignedIffBufferEmpty(m: Mux, env: Env, addr: Addr, p: Pending)
    requires Inv(m) && ReadyToSend(m, p) && addr in m.conns && Aligned(m.conns[addr])
    ensures Aligned(SendAsk(m, env, addr, p).conns[addr]) <==> m.conns[addr].buf == []
    ensures SendAsk(m, env, addr, p).reordered <==> m.reordered || m.conns[addr].buf != []
  {
    hide Placed, Limited;
    OnlyCommands(m, addr);
    var c, c' := m.conns[addr], SendAsk(m, env, addr, p).conns[addr];
    if c.buf == [] {
      assert c.wire + c.buf == c.wire && c'.wire + c'.buf == c.wire + [Asking, Command(p.key)];
    } else {
      var n := |c.wire|;
      assert Expect(c.live[n]) == (c.wire + c.buf)[n] == c.buf[0];
      assert c'.live[n] == c.live[n] && (c'.wire + c'.buf)[n] == Asking;
    }
  }

  /** No reply of the batch asks for an address an earlier one moved to. */
  predicate NoAskAfterMoved(rs: seq<Reply>) {
    forall i, j | 0 <= i < j < |rs| && rs[i].kind == KindMoved && rs[j].kind == KindAsk ::
      ParseRedirection(rs[i].msg).Some? ==> ParseRedirection(rs[i].msg) != ParseRedirection(rs[j].msg)
  }

  /** Buffers can only be non-empty where some reply of `seen` moved to. */
  ghost predicate BuffersFrom(m: Mux, seen: seq<Reply>) {
    forall a | a in m.conns && m.conns[a].buf != [] ::
      exists i :: 0 <= i < |seen| && seen[i].kind == KindMoved && ParseRedirection(seen[i].msg) == Some(a)
  }

  /** No connection appears, and only a MOVED to `a` fills the buffer of `a`. */
  ghost predicate BuffersKept(m: Mux, m': Mux, r: Reply) {
    forall a | a in m'.conns ::
      a in m.conns && (m'.conns[a].buf == m.conns[a].buf || (r.kind == KindMoved && ParseRedirection(r.msg) == Some(a)))
  }

  /** The reply asks for an open connection whose buffer is not empty. */
  predicate Overtakes(m: Mux, r: Reply) {
    var b := ParseRedirection(r.msg);
    r.kind == KindAsk && b.Some? && b.value in m.conns && m.conns[b.value].buf != []
  }

  lemma OnReplyEffect(m: Mux, env: Env, addr: Addr, r: Reply)
    ensures BuffersKept(m, OnReply(m, env, addr, r), r)
    ensures OnReply(m, env, addr, r).reordered ==> m.reordered || Overtakes(m, r)
  {
    hide ParseRedirection, Dispatch, Serve, Pop;
    if addr in m.conns {
      ServeBuffers(m, addr, r);
      var served := Serve(m, addr, r.raw);
      if served.conns[addr].live != [] {
        PopBuffers(served, addr);
        DispatchEffect(Pop(served, addr), env, served.conns[addr].live[0], r);
      }
    }
  }

  /** The same connections with the same write buffers. */
  predicate SameBuffers(m: Mux, m': Mux) {
    m'.conns.Keys == m.conns.Keys && m'.reordered == m.reordered && forall a | a in m.conns :: m'.conns[a].buf == m.conns[a].buf
  }

  lemma ServeBuffers(m: Mux, addr: Addr, r: Reply)
    requires addr in m.conns
    ensures SameBuffers(m, Serve(m, addr, r.raw))
  {
    var c := m.conns[addr];
    if c.wire != [] {
      assert Serve(m, addr, r.raw).conns == m.conns[addr := c.(wire := c.wire[1..])];
    }
  }

  lemma PopBuffers(m: Mux, addr: Addr)
    requires addr in m.conns && m.conns[addr].live != []
    ensures SameBuffers(m, Pop(m, addr))
  {
    assert Pop(m, addr).conns == m.conns[addr := m.conns[addr].(live := m.conns[addr].live[1..])];
  }

  lemma DispatchEffect(m: Mux, env: Env, p: Pending, r: Reply)
    ensures BuffersKept(m, Dispatch(m, env, p, r), r)
    ensures Dispatch(m, env, p, r).reordered ==> m.reordered || Overtakes(m, r)
  {
    hide ParseRedirection, Send, SendAsk, Finish;
    var target, again := ParseRedirection(r.msg), p.(depth := p.depth + 1);
    var m' := Dispatch(m, env, p, r);
    if r.kind == KindMoved && p.depth < MAX_REDIRECTS && target.Some? {
      assert m' == Send(m, env, target.value, again);
      SendEffect(m, env, target.value, again);
    } else if r.kind == KindAsk && p.depth < MAX_REDIRECTS && target.Some? {
      assert m' == SendAsk(m, env, target.value, again);
      SendAskEffect(m, env, target.value, again);
    } else {
      FinishEffect(m, env, p.key, r.raw);
    }
  }

  lemma FinishEffect(m: Mux, env: Env, k: Key, raw: Bytes)
    ensures Finish(m, env, k, raw).conns == m.conns && Finish(m, env, k, raw).reordered == m.reordered
  {
    if k.client in env.alive {
      assert Finish(m, env, k, raw) == m.(loc := m.loc[k := Finished(Answered(raw))], outs := m.outs + [DeliverTo(k, raw)]);
    } else {
      assert Finish(m, env, k, raw) == m.(loc := m.loc[k := Finished(Dropped)]);
    }
  }

  lemma SendEffect(m: Mux, env: Env, addr: Addr, p: Pending)
    ensures var m' := Send(m, env, addr, p);
            m'.reordered == m.reordered &&
            forall a | a in m'.conns :: a in m.conns && (a == addr || m'.conns[a].buf == m.conns[a].buf)
  {
    hide Enqueue;
    EnqueueConns(m, env, addr, [p], p.key);
  }

  lemma SendAskEffect(m: Mux, env: Env, addr: Addr, p: Pending)
    ensures var m' := SendAsk(m, env, addr, p);
            (m'.reordered <==> m.reordered || (addr in m.conns && m.conns[addr].buf != [])) &&
            forall a | a in m'.conns :: a in m.conns && m'.conns[a].buf == m.conns[a].buf
  {
    hide Enqueue;
    EnqueueConns(m, env, addr, [Sentinel(p), p], p.key);
  }

  lemma EnqueueConns(m: Mux, env: Env, addr: Addr, es: seq<Pending>, k: Key)
    ensures Enqueue(m, env, addr, es, k).conns == m.conns && Enqueue(m, env, addr, es, k).reordered == m.reordered
  {
    hide Posts, FailAll;
  }

  lemma OnReplyBuffers(m: Mux, env: Env, addr: Addr, r: Reply, seen: seq<Reply>)
    requires BuffersFrom(m, seen) && NoAskAfterMoved(seen + [r])
    ensures BuffersFrom(OnReply(m, env, addr, r), seen + [r])
    ensures OnReply(m, env, addr, r).reordered ==> m.reordered
  {
    hide ParseRedirection, OnReply;
    OnReplyEffect(m, env, addr, r);
    var m', all := OnReply(m, env, addr, r), seen + [r];
    forall a | a in m'.conns && m'.conns[a].buf != []
      ensures exists i :: 0 <= i < |all| && all[i].kind == KindMoved && ParseRedirection(all[i].msg) == Some(a) {
      if m'.conns[a].buf == m.conns[a].buf {
        var i :| 0 <= i < |seen| && seen[i].kind == KindMoved && ParseRedirection(seen[i].msg) == Some(a);
        assert all[i] == seen[i];
      } else {
        assert all[|seen|] == r;
      }
    }
    assert all[|seen|] == r && forall i | 0 <= i < |seen| :: all[i] == seen[i];
    assert forall i | 0 <= i < |seen| && seen[i].kind == KindMoved && r.kind == KindAsk && ParseRedirection(seen[i].msg).Some? ::
             ParseRedirection(seen[i].msg) != ParseRedirection(r.msg);
  }

  /** A batch that starts with empty buffers and never asks for an address it
      moved to before leaves wire and pending in step. */
  lemma {:induction false} BatchKeepsOrder(m: Mux, env: Env, addr: Addr, seen: seq<Reply>, rs: seq<Reply>)
    requires BuffersFrom(m, seen) && NoAskAfterMoved(seen + rs)
    ensures OnReplies(m, env, addr, rs).reordered ==> m.reordered
    decreases |rs|
  {
    hide OnReply, BuffersFrom;
    if rs != [] {
      var all := seen + rs;
      assert seen + [rs[0]] + rs[1..] == all;
      assert forall i | 0 <= i < |seen| + 1 :: (seen + [rs[0]])[i] == all[i];
      OnReplyBuffers(m, env, addr, rs[0], seen);
      BatchKeepsOrder(OnReply(m, env, addr, rs[0]), env, addr, seen + [rs[0]], rs[1..]);
    }
  }

  /** Two requests outstanding on a; b connected and idle. */
  predicate Crossing(m: Mux, a: Addr, b: Addr, p1: Pending, p2: Pending) {
    && a != b && p1.key != p2.key && a in m.conns && b in m.conns
    && p1 == Pending(p1.key, 0, false, false) && p2 == Pending(p2.key, 0, false, false)
    && m.conns[a] == Conn([p1, p2], [], [Command(p1.key), Command(p2.key)]) && m.conns[b] == Conn([], [], [])
  }

  /** MOVED to b, then ASK to b, in one batch: the second request overtakes the first
      on b's socket, while the first is before it in pending. */
  lemma MovedThenAskCrosses(m: Mux, env: Env, a: Addr, b: Addr, moved: Reply, ask: Reply, p1: Pending, p2: Pending)
    requires Crossing(m, a, b, p1, p2)
    requires moved.kind == KindMoved && ask.kind == KindAsk
    requires ParseRedirection(moved.msg) == ParseRedirection(ask.msg) == Some(b)
    ensures var m', q1, q2 := FlushAll(OnReplies(m, env, a, [moved, ask])), p1.(depth := 1), p2.(depth := 1);
            && m'.reordered && b in m'.conns && !Aligned(m'.conns[b])
            && m'.conns[b] == Conn([q1, Sentinel(q2), q2], [], [Asking, Command(p2.key), Command(p1.key)])
            && m'.conns.Keys == m.conns.Keys && m'.conns[a] == Conn([], [], [])
            && m'.dialing == m.dialing && m'.outs == m.outs
  {
    hide ParseRedirection, OnReply;
    var q1, q2 := p1.(depth := 1), p2.(depth := 1);
    var m1 := OnReply(m, env, a, moved);
    MovedStep(m, env, a, b, moved, p1, p2);
    var m2 := OnReply(m1, env, a, ask);
    AskStep(m1, env, a, b, ask, q1, p2);
    assert [moved, ask][1..] == [ask] && [ask][1..] == [];
    assert OnReplies(m, env, a, [moved, ask]) == OnReplies(m1, env, a, [ask]) == m2;
    CrossedConn(FlushAll(m2).conns[b], q1, q2);
    assert FlushConn(Conn([], [], [])) == Conn([], [], []);
  }

  lemma MovedStep(m: Mux, env: Env, a: Addr, b: Addr, moved: Reply, p1: Pending, p2: Pending)
    requires a != b && a in m.conns && b in m.conns
    requires moved.kind == KindMoved && ParseRedirection(moved.msg) == Some(b)
    requires p1 == Pending(p1.key, 0, false, false)
    requires m.conns[a] == Conn([p1, p2], [], [Command(p1.key), Command(p2.key)]) && m.conns[b] == Conn([], [], [])
    ensures var m1 := OnReply(m, env, a, moved);
            a in m1.conns && b in m1.conns && m1.conns[a] == Conn([p2], [], [Command(p2.key)]) &&
            m1.conns[b] == Conn([p1.(depth := 1)], [Command(p1.key)], []) &&
            m1.conns.Keys == m.conns.Keys && m1.dialing == m.dialing && m1.outs == m.outs
  {
    hide ParseRedirection;
    assert [p1, p2][1..] == [p2] && [Command(p1.key), Command(p2.key)][1..] == [Command(p2.key)];
  }

  lemma AskStep(m1: Mux, env: Env, a: Addr, b: Addr, ask: Reply, q1: Pending, p2: Pending)
    requires a != b && a in m1.conns && b in m1.conns
    requires ask.kind == KindAsk && ParseRedirection(ask.msg) == Some(b)
    requires p2 == Pending(p2.key, 0, false, false)
    requires m1.conns[a] == Conn([p2], [], [Command(p2.key)]) && m1.conns[b] == Conn([q1], [Command(q1.key)], [])
    ensures var m2, q2 := OnReply(m1, env, a, ask), p2.(depth := 1);
            m2.reordered && b in m2.conns && a in m2.conns && m2.conns[a] == Conn([], [], []) &&
            m2.conns[b] == Conn([q1, Sentinel(q2), q2], [Command(q1.key)], [Asking, Command(p2.key)]) &&
            m2.conns.Keys == m1.conns.Keys && m2.dialing == m1.dialing && m2.outs == m1.outs
  {
    hide ParseRedirection;
    var q2 := p2.(depth := 1);
    assert [q1] + [Sentinel(q2), q2] == [q1, Sentinel(q2), q2];
  }

  lemma CrossedConn(c: Conn, q1: Pending, q2: Pending)
    requires !q1.skip && !q2.skip && q1.key != q2.key
    requires c == FlushConn(Conn([q1, Sentinel(q2), q2], [Command(q1.key)], [Asking, Command(q2.key)]))
    ensures c == Conn([q1, Sentinel(q2), q2], [], [Asking, Command(q2.key), Command(q1.key)]) && !Aligned(c)
  {
    assert c.wire == [Asking, Command(q2.key), Command(q1.key)];
    assert Expect(c.live[0]) != (c.wire + c.buf)[0];
  }

  predicate Ordinary(r: Reply) { r.kind != KindMoved && r.kind != KindAsk }

  /** The reply read while `p` is the oldest pending entry of a real request. */
  lemma ReplyTo(m: Mux, env: Env, b: Addr, r: Reply, p: Pending, live: seq<Pending>, cmd: WireCmd, wire: seq<WireCmd>)
    requires b in m.conns && m.conns[b] == Conn([p] + live, [], [cmd] + wire) && Ordinary(r)
    ensures var m' := OnReply(m, env, b, r);
            && b in m'.conns && m'.conns == m.conns[b := Conn(live, [], wire)] && m'.dialing == m.dialing
            && m'.served == (if cmd.Command? then m.served[cmd.key := r.raw] else m.served)
            && (p.skip ==> m'.loc == m.loc && m'.outs == m.outs)
            && (!p.skip && p.key.client in env.alive ==>
                  m'.loc == (m.loc - {p.key})[p.key := Finished(Answered(r.raw))] && m'.outs == m.outs + [DeliverTo(p.key, r.raw)])
  {
    hide ParseRedirection;
    assert ([p] + live)[1..] == live && ([cmd] + wire)[1..] == wire;
  }

  /** Who gets what on the crossed connection: the first request is answered with the
      server's reply to ASKING, the second with its reply to the first, and its reply to
      the second is thrown away. */
  lemma CrossedReplies(m: Mux, env: Env, b: Addr, q1: Pending, q2: Pending, r0: Reply, r1: Reply, r2: Reply)
    requires !q1.skip && !q2.skip && q1.key != q2.key && q1.key.client in env.alive && q2.key.client in env.alive
    requires b in m.conns && m.conns[b] == Conn([q1, Sentinel(q2), q2], [], [Asking, Command(q2.key), Command(q1.key)])
    requires Ordinary(r0) && Ordinary(r1) && Ordinary(r2)
    ensures var m' := OnReplies(m, env, b, [r0, r1, r2]);
            && q1.key in m'.loc && m'.loc[q1.key] == Finished(Answered(r0.raw))
            && q2.key in m'.loc && m'.loc[q2.key] == Finished(Answered(r2.raw))
            && q1.key in m'.served && m'.served[q1.key] == r2.raw && q2.key in m'.served && m'.served[q2.key] == r1.raw
            && m'.conns == m.conns[b := Conn([], [], [])] && m'.dialing == m.dialing
            && m'.outs == m.outs + [DeliverTo(q1.key, r0.raw), DeliverTo(q2.key, r2.raw)]
  {
    hide OnReply, Ordinary;
    var s, w1, w2 := Sentinel(q2), Command(q2.key), Command(q1.key);
    assert [q1, s, q2] == [q1] + [s, q2] && [Asking, w1, w2] == [Asking] + [w1, w2];
    ReplyTo(m, env, b, r0, q1, [s, q2], Asking, [w1, w2]);
    var m1 := OnReply(m, env, b, r0);
    assert [s, q2] == [s] + [q2] && [w1, w2] == [w1] + [w2];
    ReplyTo(m1, env, b, r1, s, [q2], w1, [w2]);
    var m2 := OnReply(m1, env, b, r1);
    assert [q2] == [q2] + [] && [w2] == [w2] + [];
    ReplyTo(m2, env, b, r2, q2, [], w2, []);
    var m3 := OnReply(m2, env, b, r2);
    ThreeReplies(m, env, b, r0, r1, r2);
    assert m.outs + [DeliverTo(q1.key, r0.raw)] + [DeliverTo(q2.key, r2.raw)] == m.outs + [DeliverTo(q1.key, r0.raw), DeliverTo(q2.key, r2.raw)];
  }

  lemma ThreeReplies(m: Mux, env: Env, b: Addr, r0: Reply, r1: Reply, r2: Reply)
    ensures OnReplies(m, env, b, [r0, r1, r2]) == OnReply(OnReply(OnReply(m, env, b, r0), env, b, r1), env, b, r2)
  {
    hide OnReply;
    var m1 := OnReply(m, env, b, r0);
    var m2 := OnReply(m1, env, b, r1);
    assert [r0, r1, r2][1..] == [r1, r2] && [r1, r2][1..] == [r2] && [r2][1..] == [];
    assert OnReplies(m2, env, b, [r2]) == OnReply(m2, env, b, r2);
    assert OnReplies(m1, env, b, [r1, r2]) == OnReplies(m2, env, b, [r2]);
  }
}
