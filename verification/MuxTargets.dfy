/** Which node a request is sent to, and which one ends it. */
module MuxTargets {
  import opened Prelude
  import opened Resp
  import opened Framing
  import opened Merging
  import opened Mux
  import opened MuxLaws
  import opened Redirection

  /** The request is in the queue of `a`. */
  predicate Heading(m: Mux, k: Key, a: Addr) { k in m.loc && (m.loc[k] == OnConn(a) || m.loc[k] == Dialing(a)) }

  /** Or `a` cannot be dialled, and it failed with that error. */
  predicate Towards(m: Mux, env: Env, k: Key, a: Addr) {
    || Heading(m, k, a)
    || (k in m.loc && a in env.refused &&
        m.loc[k] == Finished(if k.client in env.alive then Failed(EncodeError(env.refused[a])) else Dropped))
  }

  // ------------------------------------------------------------------- one request

  /** A request sent to `a` goes to `a`. */
  lemma SendTowards(m: Mux, env: Env, a: Addr, p: Pending)
    ensures Towards(Send(m, env, a, p), env, p.key, a)
    ensures Towards(SendAsk(m, env, a, p), env, p.key, a)
  {
    hide Enqueue, EncodeError;
    if a !in m.conns {
      EnqueueTowards(m, env, a, [p], p.key);
      EnqueueTowards(m, env, a, [Sentinel(p), p], p.key);
    }
  }

  lemma EnqueueLoc(m: Mux, env: Env, a: Addr, es: seq<Pending>, k: Key)
    ensures var loc := m.loc[k := Dialing(a)];
            Enqueue(m, env, a, es, k).loc ==
            if Queue(m, a) == [] && a in env.refused then FailAll(loc, Dialing(a), env.alive, EncodeError(env.refused[a])) else loc
  {
    hide Posts, EncodeError, FailAll;
  }

  lemma EnqueueTowards(m: Mux, env: Env, a: Addr, es: seq<Pending>, k: Key)
    ensures Towards(Enqueue(m, env, a, es, k), env, k, a)
  {
    hide Enqueue, EncodeError;
    EnqueueLoc(m, env, a, es, k);
  }

  /** Exactly: with a connection it is pending there; else it waits for the dial, which
      only the first request for an address begins, and which can be refused. */
  lemma SentExactly(m: Mux, env: Env, a: Addr, p: Pending)
    ensures var m' := Send(m, env, a, p);
            && p.key in m'.loc
            && (a in m.conns ==> m'.loc[p.key] == OnConn(a) && m'.dialing == m.dialing)
            && (a !in m.conns && (Queue(m, a) != [] || a !in env.refused) ==>
                  m'.loc[p.key] == Dialing(a) && Queue(m', a) == Queue(m, a) + [p] && m'.outs == m.outs)
            && (a !in m.conns && Queue(m, a) == [] && a in env.refused && !p.skip && p.key.client in env.alive ==>
                  m'.loc[p.key] == Finished(Failed(EncodeError(env.refused[a]))) && a !in m'.dialing &&
                  m'.outs == m.outs + [Post(p.key, EncodeError(env.refused[a]))])
  {
    hide EncodeError, Enqueue;
    if a !in m.conns {
      EnqueueLoc(m, env, a, [p], p.key);
      EnqueueRest(m, env, a, p);
    }
  }

  lemma EnqueueRest(m: Mux, env: Env, a: Addr, p: Pending)
    ensures var m', q := Enqueue(m, env, a, [p], p.key), Queue(m, a);
            && (q != [] || a !in env.refused ==> Queue(m', a) == q + [p] && m'.outs == m.outs)
            && (q == [] && a in env.refused && !p.skip && p.key.client in env.alive ==>
                  a !in m'.dialing && m'.outs == m.outs + [Post(p.key, EncodeError(env.refused[a]))])
  {
    hide EncodeError, FailAll, Posts;
    assert [] + [p] == [p];
    if a in env.refused && !p.skip && p.key.client in env.alive {
      OnePost(p, env.alive, EncodeError(env.refused[a]));
    }
  }

  lemma OnePost(p: Pending, alive: set<nat>, data: Bytes)
    requires !p.skip && p.key.client in alive
    ensures Posts([p], alive, data) == [Post(p.key, data)]
  {
    assert [p][1..] == [];
  }

  /** What an opened connection is written: READONLY first if it is a replica's and
      anything waits for it; then what waited, in order, ASKING for a sentinel. */
  lemma OpenWrites(m: Mux, a: Addr, replica: bool)
    ensures var q, c := Queue(m, a), Open(m, a, replica).conns[a];
            var hello := if replica && q != [] then 1 else 0;
            && c.buf == [] && |c.live| == |c.wire| == hello + |q|
            && (hello == 1 ==> c.wire[0] == Readonly && c.live[0].skip)
            && c.live[hello..] == q
            && forall i | 0 <= i < |q| :: c.wire[hello..][i] == if q[i].asking then Asking else Command(q[i].key)
  {
    hide Open, Relocate, WrittenAll, ReadonlySentinel, Queue;
    OpenConn(m, a, replica);
    var q := Queue(m, a);
    if replica && q != [] {
      Greeted(q, ReadonlySentinel(q[0]));
      assert ReadonlySentinel(q[0]).skip by { SentinelSkips(q[0]); }
    }
  }

  lemma SentinelSkips(p: Pending)
    ensures ReadonlySentinel(p).skip
  {
  }

  lemma Greeted(q: seq<Pending>, s: Pending)
    ensures var live, wire := [s] + q, [Readonly] + WrittenAll(q);
            |live| == |wire| == 1 + |q| && live[0] == s && wire[0] == Readonly && live[1..] == q && wire[1..] == WrittenAll(q)
  {
    hide WrittenAll;
  }

  lemma OpenConn(m: Mux, a: Addr, replica: bool)
    ensures var q, m' := Queue(m, a), Open(m, a, replica);
            a in m'.conns &&
            m'.conns[a] == if replica && q != [] then Conn([ReadonlySentinel(q[0])] + q, [], [Readonly] + WrittenAll(q))
                           else Conn(q, [], WrittenAll(q))
  {
    hide Relocate, WrittenAll, ReadonlySentinel;
    var q := Queue(m, a);
    assert [] + q == q && [] + WrittenAll(q) == WrittenAll(q);
  }

  /** And the others stay where they were going. */
  lemma OthersTowards(m: Mux, env: Env, a: Addr, p: Pending, k: Key, b: Addr)
    requires k != p.key && Towards(m, env, k, b)
    ensures Towards(Send(m, env, a, p), env, k, b)
  {
    hide Enqueue, EncodeError;
    if a !in m.conns {
      EnqueueLoc(m, env, a, [p], p.key);
    }
  }

  /** A redirected request goes where the server says, for every slot and address: it
      is queued there, or failed because that address cannot be dialled. */
  lemma RedirectGoesThere(m: Mux, env: Env, from: Addr, r: Reply, slot: int, to: Addr)
    requires Inv(m) && from in m.conns && m.conns[from].live != [] && !m.conns[from].live[0].skip
    requires m.conns[from].live[0].depth < 16 && INT64_MIN <= slot <= INT64_MAX
    requires r == Reply(r.raw, KindMoved, MovedText(slot, to)) || r == Reply(r.raw, KindAsk, AskText(slot, to))
    ensures Towards(OnReply(m, env, from, r), env, m.conns[from].live[0].key, to)
  {
    hide Inv, ParseRedirection, Send, SendAsk, Serve, Pop, Towards, MovedText, AskText;
    var p := m.conns[from].live[0];
    PoppedLoc(m, from, r.raw);
    PrintedRedirection(slot, to);
    SendTowards(Pop(Serve(m, from, r.raw), from), env, to, p.(depth := p.depth + 1));
  }

  // -------------------------------------------------------------------- every request

  /** Each request sent just once is queued at its home, or was ended there. */
  ghost predicate Homes(m: Mux, home: Key -> Addr, ended: (Addr, Outcome) -> bool) {
    forall k | k in m.loc && k in m.sends && m.sends[k] == 1 :: AtHome(m, k, home(k), ended)
  }

  predicate AtHome(m: Mux, k: Key, a: Addr, ended: (Addr, Outcome) -> bool) {
    Heading(m, k, a) || (k in m.loc && m.loc[k].Finished? && ended(a, m.loc[k].outcome))
  }

  /** Being refused ends a request at an address. */
  ghost predicate RefusalsEnd(env: Env, ended: (Addr, Outcome) -> bool) {
    forall a | a in env.refused :: ended(a, Failed(EncodeError(env.refused[a]))) && ended(a, Dropped)
  }

  lemma FailHomes(m: Mux, m': Mux, at: Loc, alive: set<nat>, data: Bytes, home: Key -> Addr, ended: (Addr, Outcome) -> bool)
    requires Homes(m, home, ended) && !at.Finished? && ended(at.addr, Failed(data)) && ended(at.addr, Dropped)
    requires m'.loc == FailAll(m.loc, at, alive, data) && m'.sends == m.sends
    ensures Homes(m', home, ended)
  {
    forall k | k in m'.loc && k in m'.sends && m'.sends[k] == 1 ensures AtHome(m', k, home(k), ended) {
      assert AtHome(m, k, home(k), ended);
    }
  }

  lemma DialFailedHomes(m: Mux, env: Env, a: Addr, err: Bytes, home: Key -> Addr, ended: (Addr, Outcome) -> bool)
    requires Homes(m, home, ended) && ended(a, Failed(EncodeError(err))) && ended(a, Dropped)
    ensures Homes(DialFailed(m, env, a, err), home, ended)
  {
    hide EncodeError, Posts, Homes, FailAll;
    FailHomes(m, DialFailed(m, env, a, err), Dialing(a), env.alive, EncodeError(err), home, ended);
  }

  lemma CloseHomes(m: Mux, env: Env, a: Addr, home: Key -> Addr, ended: (Addr, Outcome) -> bool)
    requires Homes(m, home, ended) && ended(a, Failed(DisconnectError(a))) && ended(a, Dropped)
    ensures Homes(Close(m, env, a), home, ended)
  {
    hide DisconnectError, Posts, Homes, FailAll;
    if a in m.conns {
      FailHomes(m, Close(m, env, a), OnConn(a), env.alive, DisconnectError(a), home, ended);
    }
  }

  lemma OpenHomes(m: Mux, a: Addr, replica: bool, home: Key -> Addr, ended: (Addr, Outcome) -> bool)
    requires Homes(m, home, ended)
    ensures Homes(Open(m, a, replica), home, ended)
  {
    hide WrittenAll;
    var m' := Open(m, a, replica);
    forall k | k in m'.loc && k in m'.sends && m'.sends[k] == 1 ensures AtHome(m', k, home(k), ended) {
      assert AtHome(m, k, home(k), ended);
    }
  }

  /** A request moves to `at`, for the first time to its home. */
  lemma MoveHomes(m: Mux, m': Mux, k: Key, at: Loc, home: Key -> Addr, ended: (Addr, Outcome) -> bool)
    requires Homes(m, home, ended) && !at.Finished? && m'.loc == m.loc[k := at] && m'.sends == Bump(m.sends, k)
    requires if k in m.sends then m.sends[k] > 0 else home(k) == at.addr
    ensures Homes(m', home, ended)
  {
    forall j | j in m'.loc && j in m'.sends && m'.sends[j] == 1 ensures AtHome(m', j, home(j), ended) {
      if j != k {
        assert AtHome(m, j, home(j), ended);
      }
    }
  }

  ghost predicate SentOrFirst(m: Mux, k: Key, a: Addr, home: Key -> Addr) {
    if k in m.sends then m.sends[k] > 0 else home(k) == a
  }

  lemma EnqueueHomes(m: Mux, env: Env, a: Addr, es: seq<Pending>, k: Key, home: Key -> Addr, ended: (Addr, Outcome) -> bool)
    requires Homes(m, home, ended) && RefusalsEnd(env, ended) && SentOrFirst(m, k, a, home)
    ensures Homes(Enqueue(m, env, a, es, k), home, ended)
  {
    hide Homes, DialFailed, EncodeError, Bump;
    var m1 := m.(dialing := m.dialing[a := Queue(m, a) + es], loc := m.loc[k := Dialing(a)], sends := Bump(m.sends, k));
    MoveHomes(m, m1, k, Dialing(a), home, ended);
    if a in env.refused {
      DialFailedHomes(m1, env, a, env.refused[a], home, ended);
    }
  }

  lemma SendHomes(m: Mux, env: Env, a: Addr, p: Pending, home: Key -> Addr, ended: (Addr, Outcome) -> bool)
    requires Homes(m, home, ended) && RefusalsEnd(env, ended) && SentOrFirst(m, p.key, a, home)
    ensures Homes(Send(m, env, a, p), home, ended) && Homes(SendAsk(m, env, a, p), home, ended)
  {
    hide Homes, Enqueue, RefusalsEnd, Bump;
    if a in m.conns {
      MoveHomes(m, Send(m, env, a, p), p.key, OnConn(a), home, ended);
      MoveHomes(m, SendAsk(m, env, a, p), p.key, OnConn(a), home, ended);
    } else {
      EnqueueHomes(m, env, a, [p], p.key, home, ended);
      EnqueueHomes(m, env, a, [Sentinel(p), p], p.key, home, ended);
    }
  }

  lemma FinishHomes(m: Mux, env: Env, k: Key, raw: Bytes, home: Key -> Addr, ended: (Addr, Outcome) -> bool)
    requires Homes(m, home, ended)
    requires k in m.sends && m.sends[k] == 1 ==> ended(home(k), Answered(raw)) && ended(home(k), Dropped)
    ensures Homes(Finish(m, env, k, raw), home, ended)
  {
    var m' := Finish(m, env, k, raw);
    assert m'.loc == m.loc[k := Finished(if k.client in env.alive then Answered(raw) else Dropped)] && m'.sends == m.sends;
    forall j | j in m'.loc && j in m'.sends && m'.sends[j] == 1 ensures AtHome(m', j, home(j), ended) {
      if j != k {
        assert AtHome(m, j, home(j), ended);
      }
    }
  }

  lemma DispatchHomes(m: Mux, env: Env, p: Pending, r: Reply, home: Key -> Addr, ended: (Addr, Outcome) -> bool)
    requires Homes(m, home, ended) && RefusalsEnd(env, ended) && p.key in m.sends && m.sends[p.key] > 0
    requires m.sends[p.key] == 1 ==> ended(home(p.key), Answered(r.raw)) && ended(home(p.key), Dropped)
    ensures Homes(Dispatch(m, env, p, r), home, ended)
  {
    hide Homes, RefusalsEnd, Send, SendAsk, Finish, ParseRedirection;
    var target := ParseRedirection(r.msg);
    FinishHomes(m, env, p.key, r.raw, home, ended);
    if target.Some? {
      SendHomes(m, env, target.value, p.(depth := p.depth + 1), home, ended);
    }
  }

  /** A reply from `a` ends only requests whose home is `a`. */
  lemma OnReplyHomes(m: Mux, env: Env, a: Addr, r: Reply, home: Key -> Addr, ended: (Addr, Outcome) -> bool)
    requires Inv(m) && Homes(m, home, ended) && RefusalsEnd(env, ended) && ended(a, Answered(r.raw)) && ended(a, Dropped)
    ensures Homes(OnReply(m, env, a, r), home, ended)
  {
    hide RefusalsEnd, Dispatch, Serve, Pop, Inv;
    if a in m.conns {
      ServeLoc(m, a, r.raw);
      var live := m.conns[a].live;
      if live != [] {
        PoppedLoc(m, a, r.raw);
        var popped, p := Pop(Serve(m, a, r.raw), a), live[0];
        LessHomes(m, popped, home, ended);
        if !p.skip {
          HeadSent(m, a, r.raw);
          HeadAtHome(m, p.key, a, home, ended);
          DispatchHomes(popped, env, p, r, home, ended);
        }
      } else {
        LessHomes(m, Serve(m, a, r.raw), home, ended);
      }
    }
  }

  lemma HeadAtHome(m: Mux, k: Key, a: Addr, home: Key -> Addr, ended: (Addr, Outcome) -> bool)
    requires Homes(m, home, ended) && k in m.loc && m.loc[k] == OnConn(a)
    ensures k in m.sends && m.sends[k] == 1 ==> home(k) == a
  {
    assert k in m.sends && m.sends[k] == 1 ==> AtHome(m, k, home(k), ended);
  }

  /** A request taken from its queue is nowhere for now. */
  lemma LessHomes(m: Mux, m': Mux, home: Key -> Addr, ended: (Addr, Outcome) -> bool)
    requires Homes(m, home, ended) && m'.sends == m.sends
    requires forall k | k in m'.loc :: k in m.loc && m'.loc[k] == m.loc[k]
    ensures Homes(m', home, ended)
  {
    forall k | k in m'.loc && k in m'.sends && m'.sends[k] == 1 ensures AtHome(m', k, home(k), ended) {
      assert AtHome(m, k, home(k), ended);
    }
  }

  lemma HeadSent(m: Mux, a: Addr, raw: Bytes)
    requires Inv(m) && a in m.conns && m.conns[a].live != [] && !m.conns[a].live[0].skip
    ensures var k := m.conns[a].live[0].key;
            k in m.loc && m.loc[k] == OnConn(a) && k in m.sends && m.sends[k] > 0
  {
    hide Placed, Truthful, Holds;
    Popped(m, a, raw);
    assert Bounded(m.sends, m.conns[a].live);
  }

  lemma {:induction false} OnRepliesHomes(m: Mux, env: Env, a: Addr, rs: seq<Reply>, home: Key -> Addr, ended: (Addr, Outcome) -> bool)
    requires Inv(m) && Homes(m, home, ended) && RefusalsEnd(env, ended) && ended(a, Dropped)
    requires forall i | 0 <= i < |rs| :: ended(a, Answered(rs[i].raw))
    ensures Homes(OnReplies(m, env, a, rs), home, ended)
    decreases |rs|
  {
    hide Inv, Homes, RefusalsEnd, OnReply;
    if rs != [] {
      OnReplyHomes(m, env, a, rs[0], home, ended);
      OnReplyInv(m, env, a, rs[0]);
      OnRepliesHomes(OnReply(m, env, a, rs[0]), env, a, rs[1..], home, ended);
    }
  }
}
