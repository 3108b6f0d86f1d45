/** What a step of the multiplexer does to requests, seen from the clients. */
module MuxEffects {
  import opened Prelude
  import opened Resp
  import opened Framing
  import opened Merging
  import opened Mux
  import opened MuxLaws

  /** The reply a request got, if it was answered. */
  function AnswerOf(loc: map<Key, Loc>, k: Key): Option<Bytes> {
    if k in loc && loc[k].Finished? && loc[k].outcome.Answered? then Some(loc[k].outcome.data) else None
  }

  predicate HasFailed(loc: map<Key, Loc>, k: Key) { k in loc && loc[k].Finished? && loc[k].outcome.Failed? }

  /** A posted fill carries the error of a request that failed. */
  predicate PostOk(loc: map<Key, Loc>, o: Output) {
    o.Post? && o.key in loc && loc[o.key] == Finished(Failed(o.data))
  }

  /** Requests `ks` are new, finished ones stay finished, and a request that ends
      now ends without an answer: with a fill posted, or because its client left. */
  ghost predicate Quiet(m: Mux, m': Mux, ks: set<Key>, alive: set<nat>) {
    && m'.loc.Keys == m.loc.Keys + ks
    && (forall k | k in m.loc && m.loc[k].Finished? :: m'.loc[k] == m.loc[k])
    && (forall k | k in m'.loc && m'.loc[k].Finished? && !(k in m.loc && m.loc[k].Finished?) ::
          Excused(m', k, alive))
    && m.outs <= m'.outs
    && (forall o | o in m'.outs[|m.outs|..] :: PostOk(m'.loc, o))
    && forall k | HasFailed(m'.loc, k) && !(k in m.loc && m.loc[k].Finished?) ::
         Post(k, m'.loc[k].outcome.data) in m'.outs[|m.outs|..]
  }

  ghost predicate Excused(m: Mux, k: Key, alive: set<nat>)
    requires k in m.loc && m.loc[k].Finished?
  {
    match m.loc[k].outcome
    case Answered(_) => false
    case Failed(_) => true
    case Dropped => k.client !in alive
  }

  // --------------------------------------------------------------------- failing

  /** A fill is posted for every failed request of a connected client, and only
      for those. */
  lemma {:induction false} PostsExactly(q: seq<Pending>, alive: set<nat>, data: Bytes, o: Output)
    ensures o in Posts(q, alive, data) <==> o.Post? && o.data == data && o.key.client in alive && o.key in Keys(q)
  {
    if q != [] {
      PostsExactly(q[1..], alive, data, o);
      assert q == [q[0]] + q[1..];
      assert Keys(q) == (if q[0].skip then [] else [q[0].key]) + Keys(q[1..]);
    }
  }

  lemma FailQuiet(m: Mux, m': Mux, q: seq<Pending>, at: Loc, alive: set<nat>, data: Bytes)
    requires Holds(m.loc, q, at) && !at.Finished?
    requires m'.loc == FailAll(m.loc, at, alive, data) && m'.outs == m.outs + Posts(q, alive, data)
    ensures Quiet(m, m', {}, alive)
  {
    hide Keys;
    var news := m'.outs[|m.outs|..];
    assert news == Posts(q, alive, data);
    forall o | o in news ensures PostOk(m'.loc, o) {
      PostsExactly(q, alive, data, o);
    }
    forall k | HasFailed(m'.loc, k) && !(k in m.loc && m.loc[k].Finished?)
      ensures Post(k, m'.loc[k].outcome.data) in news {
      PostsExactly(q, alive, data, Post(k, data));
    }
    assert m'.loc.Keys == m.loc.Keys + {};
  }

  lemma DialFailedQuiet(m: Mux, env: Env, addr: Addr, err: Bytes)
    requires Inv(m)
    ensures Quiet(m, DialFailed(m, env, addr, err), {}, env.alive)
  {
    hide Quiet, Holds, EncodeError, Limited, Truthful;
    NobodyDialing(m, addr);
    FailQuiet(m, DialFailed(m, env, addr, err), Queue(m, addr), Dialing(addr), env.alive, EncodeError(err));
  }

  lemma CloseQuiet(m: Mux, env: Env, addr: Addr)
    requires Inv(m) && addr in m.conns
    ensures Quiet(m, Close(m, env, addr), {}, env.alive)
  {
    hide Quiet, Holds, DisconnectError, Limited, Truthful;
    FailQuiet(m, Close(m, env, addr), m.conns[addr].live, OnConn(addr), env.alive, DisconnectError(addr));
  }

  // --------------------------------------------------------------------- sending

  lemma QuietThen(m: Mux, m1: Mux, m2: Mux, k: Key, alive: set<nat>)
    requires k !in m.loc && m1.loc.Keys == m.loc.Keys + {k} && m1.outs == m.outs
    requires forall j | j in m.loc :: m1.loc[j] == m.loc[j]
    requires !m1.loc[k].Finished?
    requires Quiet(m1, m2, {}, alive)
    ensures Quiet(m, m2, {k}, alive)
  {
    assert m2.loc.Keys == m.loc.Keys + {k};
    forall j | j in m2.loc && m2.loc[j].Finished? && !(j in m.loc && m.loc[j].Finished?)
      ensures Excused(m2, j, alive) {
      assert !(j in m1.loc && m1.loc[j].Finished?);
    }
    forall j | HasFailed(m2.loc, j) && !(j in m.loc && m.loc[j].Finished?)
      ensures Post(j, m2.loc[j].outcome.data) in m2.outs[|m.outs|..] {
      assert !(j in m1.loc && m1.loc[j].Finished?);
    }
  }

  lemma QuietRefl(m: Mux, m': Mux, alive: set<nat>)
    requires m'.loc == m.loc && m'.outs == m.outs
    ensures Quiet(m, m', {}, alive)
  {
    assert m'.loc.Keys == m.loc.Keys + {};
    assert m'.outs[|m.outs|..] == [];
  }

  lemma QuietTrans(m: Mux, m1: Mux, m2: Mux, ks: set<Key>, ls: set<Key>, alive: set<nat>)
    requires Quiet(m, m1, ks, alive) && Quiet(m1, m2, ls, alive)
    ensures Quiet(m, m2, ks + ls, alive)
  {
    assert m2.loc.Keys == m.loc.Keys + (ks + ls);
    var news := m2.outs[|m.outs|..];
    assert news == m1.outs[|m.outs|..] + m2.outs[|m1.outs|..];
    forall j | j in m2.loc && m2.loc[j].Finished? && !(j in m.loc && m.loc[j].Finished?)
      ensures Excused(m2, j, alive) {
      assert j in m1.loc && m1.loc[j].Finished? ==> Excused(m1, j, alive);
    }
    forall j | HasFailed(m2.loc, j) && !(j in m.loc && m.loc[j].Finished?)
      ensures Post(j, m2.loc[j].outcome.data) in news {
      assert j in m1.loc && m1.loc[j].Finished? ==> HasFailed(m1.loc, j);
    }
  }

  lemma JoinQuiet(m: Mux, m': Mux, k: Key, at: Loc, alive: set<nat>)
    requires k !in m.loc && !at.Finished? && m'.loc == m.loc[k := at] && m'.outs == m.outs
    ensures Quiet(m, m', {k}, alive)
  {
    hide Quiet;
    QuietRefl(m', m', alive);
    QuietThen(m, m', m', k, alive);
  }

  lemma EnqueueQuiet(m: Mux, env: Env, addr: Addr, es: seq<Pending>, p: Pending)
    requires Inv(m) && ReadyToSend(m, p) && addr !in m.conns && Entries(es, p)
    ensures Quiet(m, Enqueue(m, env, addr, es, p.key), {p.key}, env.alive)
  {
    hide Quiet, Inv, DialFailed;
    var m1 := m.(dialing := m.dialing[addr := Queue(m, addr) + es],
                 loc := m.loc[p.key := Dialing(addr)], sends := Bump(m.sends, p.key));
    EnqueuedInv(m, addr, es, p);
    JoinQuiet(m, m1, p.key, Dialing(addr), env.alive);
    if addr in env.refused {
      DialFailedQuiet(m1, env, addr, env.refused[addr]);
      QuietThen(m, m1, DialFailed(m1, env, addr, env.refused[addr]), p.key, env.alive);
    }
  }

  lemma SendQuiet(m: Mux, env: Env, addr: Addr, p: Pending)
    requires Inv(m) && ReadyToSend(m, p)
    ensures Quiet(m, Send(m, env, addr, p), {p.key}, env.alive)
  {
    hide Quiet, Inv, Enqueue;
    if addr in m.conns {
      JoinQuiet(m, Send(m, env, addr, p), p.key, OnConn(addr), env.alive);
    } else {
      EnqueueQuiet(m, env, addr, [p], p);
    }
  }

  lemma SendAskQuiet(m: Mux, env: Env, addr: Addr, p: Pending)
    requires Inv(m) && ReadyToSend(m, p)
    ensures Quiet(m, SendAsk(m, env, addr, p), {p.key}, env.alive)
  {
    hide Quiet, Inv, Enqueue;
    if addr in m.conns {
      JoinQuiet(m, SendAsk(m, env, addr, p), p.key, OnConn(addr), env.alive);
    } else {
      EnqueueQuiet(m, env, addr, [Sentinel(p), p], p);
    }
  }

  lemma OpenQuiet(m: Mux, addr: Addr, replica: bool, alive: set<nat>)
    ensures Quiet(m, Open(m, addr, replica), {}, alive)
  {
    hide WrittenAll;
    var m' := Open(m, addr, replica);
    assert m'.loc.Keys == m.loc.Keys + {};
    assert m'.outs[|m.outs|..] == [];
  }

  lemma SendSends(m: Mux, env: Env, addr: Addr, p: Pending)
    ensures Send(m, env, addr, p).sends.Keys == m.sends.Keys + {p.key}
    ensures SendAsk(m, env, addr, p).sends.Keys == m.sends.Keys + {p.key}
  {
    hide Enqueue;
    EnqueueSends(m, env, addr, [p], p.key);
    EnqueueSends(m, env, addr, [Sentinel(p), p], p.key);
  }

  lemma EnqueueSends(m: Mux, env: Env, addr: Addr, es: seq<Pending>, k: Key)
    ensures Enqueue(m, env, addr, es, k).sends == Bump(m.sends, k)
  {
    hide Posts, FailAll, Bump;
  }

  // --------------------------------------------------------------------- replies

  /** The step answered request `k` with `data`, and did nothing else to requests. */
  predicate AnswersNow(m: Mux, m': Mux, k: Key, data: Bytes) {
    && k in m.loc && !m.loc[k].Finished?
    && m'.loc == m.loc[k := Finished(Answered(data))]
    && m'.outs == m.outs + [DeliverTo(k, data)]
  }

  /** A popped request is sent on or dropped: nothing was answered. */
  lemma BackQuiet(m: Mux, m1: Mux, m2: Mux, k: Key, alive: set<nat>)
    requires k in m.loc && !m.loc[k].Finished? && m1.loc == m.loc - {k} && m1.outs == m.outs
    requires Quiet(m1, m2, {k}, alive)
    ensures Quiet(m, m2, {}, alive)
  {
    assert m2.loc.Keys == m.loc.Keys + {};
    forall j | j in m2.loc && m2.loc[j].Finished? && !(j in m.loc && m.loc[j].Finished?)
      ensures Excused(m2, j, alive) {
      assert !(j in m1.loc && m1.loc[j].Finished?);
    }
    forall j | HasFailed(m2.loc, j) && !(j in m.loc && m.loc[j].Finished?)
      ensures Post(j, m2.loc[j].outcome.data) in m2.outs[|m.outs|..] {
      assert !(j in m1.loc && m1.loc[j].Finished?);
    }
  }

  lemma DropQuiet(m: Mux, m': Mux, k: Key, alive: set<nat>)
    requires k in m.loc && !m.loc[k].Finished? && k.client !in alive
    requires m'.loc == m.loc[k := Finished(Dropped)] && m'.outs == m.outs
    ensures Quiet(m, m', {}, alive)
  {
    assert m'.loc.Keys == m.loc.Keys + {};
    assert m'.outs[|m.outs|..] == [];
  }

  /** One turn of the loop either answers exactly one request of a connected
      client, or answers none. */
  lemma OnReplyOutcome(m: Mux, env: Env, addr: Addr, r: Reply)
    requires Inv(m)
    ensures var m' := OnReply(m, env, addr, r);
            Quiet(m, m', {}, env.alive) ||
            exists k: Key :: k.client in env.alive && AnswersNow(m, m', k, r.raw)
  {
    hide Inv, Quiet, Serve, Dispatch;
    var m' := OnReply(m, env, addr, r);
    if addr !in m.conns {
      QuietRefl(m, m', env.alive);
    } else {
      ServeKeeps(m, addr, r.raw);
      ServeQuiet(m, addr, r.raw);
      var served, live := Serve(m, addr, r.raw), m.conns[addr].live;
      if live == [] {
        QuietRefl(m, served, env.alive);
      } else {
        var popped := Pop(served, addr);
        if live[0].skip {
          QuietRefl(m, popped, env.alive);
        } else {
          Popped(m, addr, r.raw);
          ServePopInv(m, addr, r.raw);
          DispatchOutcome(m, popped, env, live[0], r);
        }
      }
    }
  }

  lemma ServeQuiet(m: Mux, addr: Addr, raw: Bytes)
    requires addr in m.conns
    ensures Serve(m, addr, raw).loc == m.loc && Serve(m, addr, raw).outs == m.outs
  {
  }

  lemma DispatchOutcome(m: Mux, m1: Mux, env: Env, p: Pending, r: Reply)
    requires Inv(m1) && p.key in m.loc && !m.loc[p.key].Finished? && m1.loc == m.loc - {p.key} && m1.outs == m.outs
    requires p.depth < MAX_REDIRECTS ==> ReadyToSend(m1, p.(depth := p.depth + 1))
    ensures var m' := Dispatch(m1, env, p, r);
            Quiet(m, m', {}, env.alive) ||
            exists k: Key :: k.client in env.alive && AnswersNow(m, m', k, r.raw)
  {
    hide Inv, Quiet, Send, SendAsk, Finish, AnswersNow, ReadyToSend, ParseRedirection;
    var target, again, m' := ParseRedirection(r.msg), p.(depth := p.depth + 1), Dispatch(m1, env, p, r);
    if r.kind == KindMoved && p.depth < MAX_REDIRECTS && target.Some? {
      SendQuiet(m1, env, target.value, again);
      BackQuiet(m, m1, m', p.key, env.alive);
    } else if r.kind == KindAsk && p.depth < MAX_REDIRECTS && target.Some? {
      SendAskQuiet(m1, env, target.value, again);
      BackQuiet(m, m1, m', p.key, env.alive);
    } else {
      FinishOutcome(m, m1, env, p.key, r.raw);
    }
  }

  /** Only requests the mux knows are ever sent. */
  lemma OnReplySends(m: Mux, env: Env, addr: Addr, r: Reply)
    requires Inv(m) && m.sends.Keys <= m.loc.Keys
    ensures OnReply(m, env, addr, r).sends.Keys <= m.loc.Keys
  {
    hide Inv, Dispatch, Serve, Pop;
    if addr in m.conns {
      ServeKeeps(m, addr, r.raw);
      ServePopSends(m, addr, r.raw);
      var live := m.conns[addr].live;
      if live != [] && !live[0].skip {
        Popped(m, addr, r.raw);
        DispatchSends(Pop(Serve(m, addr, r.raw), addr), env, live[0], r);
      }
    }
  }

  lemma ServePopSends(m: Mux, addr: Addr, raw: Bytes)
    requires addr in m.conns
    ensures var served := Serve(m, addr, raw);
            addr in served.conns && served.sends == m.sends &&
            (served.conns[addr].live != [] ==> Pop(served, addr).sends == m.sends)
  {
  }

  lemma DispatchSends(m: Mux, env: Env, p: Pending, r: Reply)
    ensures Dispatch(m, env, p, r).sends.Keys <= m.sends.Keys + {p.key}
  {
    hide Send, SendAsk, ParseRedirection;
    var target := ParseRedirection(r.msg);
    if target.Some? {
      SendSends(m, env, target.value, p.(depth := p.depth + 1));
    }
  }

  lemma FinishOutcome(m: Mux, m1: Mux, env: Env, k: Key, raw: Bytes)
    requires k in m.loc && !m.loc[k].Finished? && m1.loc == m.loc - {k} && m1.outs == m.outs
    ensures var m' := Finish(m1, env, k, raw);
            if k.client in env.alive then AnswersNow(m, m', k, raw) else Quiet(m, m', {}, env.alive)
  {
    hide Quiet;
    var m' := Finish(m1, env, k, raw);
    if k.client in env.alive {
      assert m'.loc == m.loc[k := Finished(Answered(raw))];
    } else {
      assert m'.loc == m.loc[k := Finished(Dropped)];
      DropQuiet(m, m', k, env.alive);
    }
  }
}
