/** A run in which an ASK overtakes, from the first connection to what the client reads. */
module SystemCrossing {
  import opened Prelude
  import opened Framing
  import opened Routing
  import opened System
  import opened SystemLaws
  import opened SystemRuns
  import opened SystemBatch
  import opened SystemHistory
  import R = Resp
  import M = Mux
  import ML = MuxLaws
  import ME = MuxEffects
  import MR = Redirection
  import Q = ReplyQueue

  /** One client, which has had n slots; these connections and dials; nothing posted. */
  predicate Snapshot(w: World, n: nat, conns: map<M.Addr, M.Conn>, dialing: map<M.Addr, seq<M.Pending>>) {
    && w.alive == {0} && w.clients.Keys == {0} && Allocated(w.clients[0]) == n
    && w.posted == [] && w.awaiting == {} && w.mux.outs == []
    && w.mux.conns == conns && w.mux.dialing == dialing
  }

  function Wanted(n: nat): M.Pending { NewRequest(0, n, None) }

  const IDLE: M.Conn := M.Conn([], [], [])

  // ------------------------------------------------------------------ single events

  /** A request for an address nobody dials yet, or that is being dialled. */
  lemma Asks(w: World, n: nat, conns: map<M.Addr, M.Conn>, dialing: map<M.Addr, seq<M.Pending>>, part: Part)
    requires Snapshot(w, n, conns, dialing) && part.addr !in conns
    ensures var q := if part.addr in dialing then dialing[part.addr] else [];
            Snapshot(Accept(w, 0, RouteCmd(part), map[]), n + 1, conns, dialing[part.addr := q + [Wanted(n)]])
  {
    hide M.DialFailed;
    assert w.posted + PostedBy([]) == w.posted;
  }

  lemma FlushIdle(m: M.Mux)
    requires forall a | a in m.conns :: m.conns[a].buf == []
    ensures M.FlushAll(m) == m
  {
    forall a | a in m.conns ensures M.FlushConn(m.conns[a]) == m.conns[a] {
      assert m.conns[a].wire + [] == m.conns[a].wire;
    }
  }

  lemma OneCommand(w: World, cmd: Cmd)
    requires 0 in w.clients
    ensures AcceptAll(w, 0, [cmd], map[]) == Accept(w, 0, cmd, map[])
  {
    hide Accept;
    assert [cmd][1..] == [];
  }

  lemma TwoCommands(w: World, cmd: Cmd, next: Cmd)
    requires 0 in w.clients && 0 in Accept(w, 0, cmd, map[]).clients
    ensures AcceptAll(w, 0, [cmd, next], map[]) == Accept(Accept(w, 0, cmd, map[]), 0, next, map[])
  {
    hide Accept;
    var w' := Accept(w, 0, cmd, map[]);
    assert [cmd, next][1..] == [next];
    OneCommand(w', next);
    assert AcceptAll(w', 0, [next], map[]) == Accept(w', 0, next, map[]);
  }

  /** A dial in flight opens. */
  lemma Opens(w: World, n: nat, conns: map<M.Addr, M.Conn>, q: seq<M.Pending>, addr: M.Addr)
    requires Snapshot(w, n, conns, map[addr := q]) && q != []
    ensures Enabled(w, BackendOpen(addr, false))
    ensures Snapshot(Step(w, BackendOpen(addr, false)), n, conns[addr := M.Conn(q, [], M.WrittenAll(q))], map[])
  {
    hide M.WrittenAll, M.Relocate;
    assert [] + q == q && [] + M.WrittenAll(q) == M.WrittenAll(q);
  }

  /** Outputs that only deliver leave nothing posted and open no slot. */
  lemma {:induction false} OnlyDelivers(clients: map<nat, Q.Client>, outs: seq<M.Output>)
    requires clients.Keys == {0} && forall i | 0 <= i < |outs| :: outs[i].DeliverTo?
    ensures PostedBy(outs) == [] && DeliverOuts(clients, outs).Keys == {0}
    ensures Allocated(DeliverOuts(clients, outs)[0]) == Allocated(clients[0])
    decreases |outs|
  {
    hide Q.Deliver;
    if outs != [] {
      var k := outs[0].key;
      var next :=
        if k.client in clients then clients[k.client := Q.Deliver(clients[k.client], DeliveryFor(k, outs[0].data))]
        else clients;
      if k.client in clients {
        DeliverAllocates(clients[0], DeliveryFor(k, outs[0].data));
      }
      OnlyDelivers(next, outs[1..]);
    }
  }

  lemma DeliverAllocates(cl: Q.Client, d: Q.Delivery)
    ensures Allocated(Q.Deliver(cl, d)) == Allocated(cl)
  {
    hide Q.Datas, Q.MergeReply, Q.Payloads, Q.ReadyPrefix;
  }

  /** A batch whose outputs only deliver. */
  lemma Hears(w: World, n: nat, addr: M.Addr, rs: seq<Reply>)
    requires w.alive == {0} && w.clients.Keys == {0} && Allocated(w.clients[0]) == n
    requires w.posted == [] && w.awaiting == {} && w.mux.outs == [] && addr in w.mux.conns
    requires var m := M.OnReplies(w.mux, M.Env({0}, map[]), addr, rs); forall i | 0 <= i < |m.outs| :: m.outs[i].DeliverTo?
    ensures Enabled(w, BackendTraffic(addr, rs, map[]))
    ensures var m := M.FlushAll(M.OnReplies(w.mux, M.Env({0}, map[]), addr, rs));
            var w' := Step(w, BackendTraffic(addr, rs, map[]));
            Snapshot(w', n, m.conns, m.dialing) && w'.mux == m.(outs := [])
  {
    hide M.OnReplies, HearAll, DeliverOuts, PostedBy;
    HearingIsOneBatch(w, addr, rs, map[]);
    var m := M.OnReplies(w.mux, M.Env({0}, map[]), addr, rs);
    OnlyDelivers(w.clients, m.outs);
  }

  // ----------------------------------------------------------------------- the run

  /** A client connects; its first request opens the connection to b and is answered. */
  function Prologue(b: M.Addr, t0: Text, ok: Reply): seq<Event> {
    [Connect(0), ClientTraffic(0, [RouteCmd(Part(b, t0))], map[]), BackendOpen(b, false), BackendTraffic(b, [ok], map[])]
  }

  /** Two requests to a, whose replies are MOVED to b and ASK to b in one batch; then b
      answers what it read. */
  function Mixup(a: M.Addr, b: M.Addr, t1: Text, t2: Text, moved: Reply, ask: Reply, r0: Reply, r1: Reply, r2: Reply): seq<Event> {
    [ClientTraffic(0, [RouteCmd(Part(a, t1)), RouteCmd(Part(a, t2))], map[]), BackendOpen(a, false),
     BackendTraffic(a, [moved, ask], map[]), BackendTraffic(b, [r0, r1, r2], map[])]
  }

  /** Connected: b has answered the first request and is idle. */
  lemma FirstHalf(b: M.Addr, t0: Text, ok: Reply) returns (w: World)
    requires ML.Ordinary(ok)
    ensures IsRun(START, Prologue(b, t0, ok)) && After(START, Prologue(b, t0, ok)) == w
    ensures Snapshot(w, 1, map[b := IDLE], map[])
  {
    hide Step, Enabled, Snapshot, After, IsRun;
    var e0, e1, e2, e3 := Connect(0), ClientTraffic(0, [RouteCmd(Part(b, t0))], map[]), BackendOpen(b, false), BackendTraffic(b, [ok], map[]);
    assert Enabled(START, e0) && Snapshot(Step(START, e0), 0, map[], map[]) by { Connects(); }
    var w1 := Step(START, e0);
    FirstAsks(w1, b, t0);
    var w2 := Step(w1, e1);
    Opens(w2, 1, map[], [Wanted(0)], b);
    var w3 := Step(w2, e2);
    FirstAnswered(w3, b, ok);
    w := Step(w3, e3);
    FourSteps(START, e0, e1, e2, e3);
  }

  lemma Connects()
    ensures Enabled(START, Connect(0)) && Snapshot(Step(START, Connect(0)), 0, map[], map[])
  {
  }

  lemma FirstAsks(w: World, b: M.Addr, t0: Text)
    requires Snapshot(w, 0, map[], map[])
    ensures var e := ClientTraffic(0, [RouteCmd(Part(b, t0))], map[]);
            Enabled(w, e) && Snapshot(Step(w, e), 1, map[], map[b := [Wanted(0)]])
  {
    hide Accept, AcceptAll;
    OneCommand(w, RouteCmd(Part(b, t0)));
    Asks(w, 0, map[], map[], Part(b, t0));
    FlushIdle(Accept(w, 0, RouteCmd(Part(b, t0)), map[]).mux);
    assert [] + [Wanted(0)] == [Wanted(0)];
  }

  lemma FirstAnswered(w: World, b: M.Addr, ok: Reply)
    requires Snapshot(w, 1, map[][b := M.Conn([Wanted(0)], [], M.WrittenAll([Wanted(0)]))], map[]) && ML.Ordinary(ok)
    ensures var e := BackendTraffic(b, [ok], map[]);
            Enabled(w, e) && Snapshot(Step(w, e), 1, map[b := IDLE], map[])
  {
    hide M.OnReply, Step, Enabled, M.WrittenAll;
    var p, env := Wanted(0), M.Env({0}, map[]);
    var cmd := M.Command(p.key);
    assert M.WrittenAll([p]) == [cmd];
    assert [p] + [] == [p] && [cmd] + [] == [cmd];
    ML.ReplyTo(w.mux, env, b, ok, p, [], cmd, []);
    assert M.OnReplies(w.mux, env, b, [ok]) == M.OnReply(w.mux, env, b, ok) by { assert [ok][1..] == []; }
    Hears(w, 1, b, [ok]);
    FlushIdle(M.OnReply(w.mux, env, b, ok));
  }

  lemma FourSteps(w: World, e0: Event, e1: Event, e2: Event, e3: Event)
    requires Enabled(w, e0) && Enabled(Step(w, e0), e1) && Enabled(Step(Step(w, e0), e1), e2)
    requires Enabled(Step(Step(Step(w, e0), e1), e2), e3)
    ensures IsRun(w, [e0, e1, e2, e3]) && After(w, [e0, e1, e2, e3]) == Step(Step(Step(Step(w, e0), e1), e2), e3)
  {
    hide Step, Enabled;
    var w1 := Step(w, e0);
    var w2 := Step(w1, e1);
    var w3 := Step(w2, e2);
    assert [e0, e1, e2, e3][1..] == [e1, e2, e3] && [e1, e2, e3][1..] == [e2, e3] && [e2, e3][1..] == [e3] && [e3][1..] == [];
    assert IsRun(w3, [e3]) && After(w3, [e3]) == Step(w3, e3);
    assert IsRun(w2, [e2, e3]) && After(w2, [e2, e3]) == Step(w3, e3);
    assert IsRun(w1, [e1, e2, e3]) && After(w1, [e1, e2, e3]) == Step(w3, e3);
  }

  lemma {:induction false} RunsInTurn(w: World, xs: seq<Event>, ys: seq<Event>)
    requires IsRun(w, xs) && IsRun(After(w, xs), ys)
    ensures IsRun(w, xs + ys) && After(w, xs + ys) == After(After(w, xs), ys)
    decreases |xs|
  {
    hide Step, Enabled;
    if xs == [] {
      assert xs + ys == ys;
    } else {
      assert (xs + ys)[1..] == xs[1..] + ys;
      RunsInTurn(Step(w, xs[0]), xs[1..], ys);
    }
  }

  lemma SecondAsks(w: World, a: M.Addr, b: M.Addr, t1: Text, t2: Text)
    requires Snapshot(w, 1, map[b := IDLE], map[]) && a != b
    ensures var e := ClientTraffic(0, [RouteCmd(Part(a, t1)), RouteCmd(Part(a, t2))], map[]);
            Enabled(w, e) && Snapshot(Step(w, e), 3, map[b := IDLE], map[a := [Wanted(1), Wanted(2)]])
  {
    hide Accept, AcceptAll;
    var c1, c2 := RouteCmd(Part(a, t1)), RouteCmd(Part(a, t2));
    var none: map<M.Addr, seq<M.Pending>>, one, two := map[], [Wanted(1)], [Wanted(1), Wanted(2)];
    assert [] + one == one && one + [Wanted(2)] == two;
    Asks(w, 1, map[b := IDLE], none, Part(a, t1));
    var w' := Accept(w, 0, c1, map[]);
    assert none[a := one] == map[a := one];
    Asks(w', 2, map[b := IDLE], map[a := one], Part(a, t2));
    assert map[a := one][a := two] == map[a := two];
    TwoCommands(w, c1, c2);
    FlushIdle(Accept(w', 0, c2, map[]).mux);
  }

  /** b's socket and pending list after the batch from a. */
  function Crossed(): M.Conn {
    var q1, q2 := Wanted(1).(depth := 1), Wanted(2).(depth := 1);
    M.Conn([q1, M.Sentinel(q2), q2], [], [M.Asking, M.Command(q2.key), M.Command(q1.key)])
  }

  lemma Redirects(w: World, a: M.Addr, b: M.Addr, moved: Reply, ask: Reply)
    requires a != b && moved.kind == R.KindMoved && ask.kind == R.KindAsk
    requires M.ParseRedirection(moved.msg) == M.ParseRedirection(ask.msg) == Some(b)
    requires Snapshot(w, 3, map[b := IDLE][a := M.Conn([Wanted(1), Wanted(2)], [], M.WrittenAll([Wanted(1), Wanted(2)]))], map[])
    ensures var e := BackendTraffic(a, [moved, ask], map[]);
            Enabled(w, e) && Snapshot(Step(w, e), 3, map[a := IDLE, b := Crossed()], map[]) && Step(w, e).mux.reordered
  {
    hide M.OnReplies, Step, Enabled, M.WrittenAll, M.ParseRedirection;
    var p1, p2, env := Wanted(1), Wanted(2), M.Env({0}, map[]);
    assert M.WrittenAll([p1, p2]) == [M.Command(p1.key), M.Command(p2.key)];
    ML.MovedThenAskCrosses(w.mux, env, a, b, moved, ask, p1, p2);
    Hears(w, 3, a, [moved, ask]);
    assert M.FlushAll(M.OnReplies(w.mux, env, a, [moved, ask])).conns == map[a := IDLE, b := Crossed()];
  }

  lemma Misanswers(w: World, a: M.Addr, b: M.Addr, r0: Reply, r1: Reply, r2: Reply)
    requires a != b && Snapshot(w, 3, map[a := IDLE, b := Crossed()], map[])
    requires ML.Ordinary(r0) && ML.Ordinary(r1) && ML.Ordinary(r2)
    ensures var e := BackendTraffic(b, [r0, r1, r2], map[]);
            Enabled(w, e) && Snapshot(Step(w, e), 3, map[a := IDLE, b := IDLE], map[]) && Swapped(Step(w, e), r0, r1, r2)
  {
    hide M.OnReplies, Step, Enabled;
    var q1, q2, env := Wanted(1).(depth := 1), Wanted(2).(depth := 1), M.Env({0}, map[]);
    ML.CrossedReplies(w.mux, env, b, q1, q2, r0, r1, r2);
    Hears(w, 3, b, [r0, r1, r2]);
    FlushIdle(M.OnReplies(w.mux, env, b, [r0, r1, r2]));
    assert map[a := IDLE, b := Crossed()][b := IDLE] == map[a := IDLE, b := IDLE];
  }

  /** Request 1 was answered with the reply to ASKING and request 2 with the reply to
      request 1; the server had said r2 to request 1 and r1 to request 2. */
  predicate Swapped(w: World, r0: Reply, r1: Reply, r2: Reply) {
    var k1, k2 := Wanted(1).key, Wanted(2).key;
    && ME.AnswerOf(w.mux.loc, k1) == Some(r0.raw) && ME.AnswerOf(w.mux.loc, k2) == Some(r2.raw)
    && k1 in w.mux.served && w.mux.served[k1] == r2.raw && k2 in w.mux.served && w.mux.served[k2] == r1.raw
  }

  lemma SecondHalf(w: World, a: M.Addr, b: M.Addr, t1: Text, t2: Text, moved: Reply, ask: Reply, r0: Reply, r1: Reply, r2: Reply)
    requires Snapshot(w, 1, map[b := IDLE], map[]) && a != b && moved.kind == R.KindMoved && ask.kind == R.KindAsk
    requires M.ParseRedirection(moved.msg) == M.ParseRedirection(ask.msg) == Some(b)
    requires ML.Ordinary(r0) && ML.Ordinary(r1) && ML.Ordinary(r2)
    ensures var events := Mixup(a, b, t1, t2, moved, ask, r0, r1, r2);
            IsRun(w, events) &&
            Snapshot(After(w, events), 3, map[a := IDLE, b := IDLE], map[]) && Swapped(After(w, events), r0, r1, r2)
  {
    hide Step, Enabled, Snapshot, After, IsRun, Swapped, M.ParseRedirection, ML.Ordinary, M.WrittenAll;
    var e4, e5 := ClientTraffic(0, [RouteCmd(Part(a, t1)), RouteCmd(Part(a, t2))], map[]), BackendOpen(a, false);
    var e6, e7 := BackendTraffic(a, [moved, ask], map[]), BackendTraffic(b, [r0, r1, r2], map[]);
    SecondAsks(w, a, b, t1, t2);
    var w5 := Step(w, e4);
    Opens(w5, 3, map[b := IDLE], [Wanted(1), Wanted(2)], a);
    var w6 := Step(w5, e5);
    Redirects(w6, a, b, moved, ask);
    Misanswers(Step(w6, e6), a, b, r0, r1, r2);
    FourSteps(w, e4, e5, e6, e7);
  }

  /** The slots of a client all of whose commands are queued count up from 0. */
  lemma {:induction false} QueuedCount(origins: seq<Q.Origin>, i: nat)
    requires i <= |origins| && forall j | 0 <= j < |origins| :: origins[j].Queued?
    ensures Q.QueuedBefore(origins, i) == i
  {
    if i > 0 {
      QueuedCount(origins, i - 1);
    }
  }

  /** The crossing is reached from the start, and the client reads it: at the position
      of its second command the server's reply to ASKING, and at that of its third the
      server's reply to the second. */
  lemma ClientReadsCrossedReplies(
      a: M.Addr, b: M.Addr, t0: Text, t1: Text, t2: Text, ok: Reply, moved: Reply, ask: Reply, r0: Reply, r1: Reply, r2: Reply)
    requires a != b && moved.kind == R.KindMoved && ask.kind == R.KindAsk
    requires M.ParseRedirection(moved.msg) == M.ParseRedirection(ask.msg) == Some(b)
    requires ML.Ordinary(ok) && ML.Ordinary(r0) && ML.Ordinary(r1) && ML.Ordinary(r2)
    ensures var events := Prologue(b, t0, ok) + Mixup(a, b, t1, t2, moved, ask, r0, r1, r2);
            IsRun(START, events) && var w := After(START, events);
            && Swapped(w, r0, r1, r2) && 0 in w.clients && |w.clients[0].sent| == 3
            && w.clients[0].sent[1] == r0.raw && w.clients[0].sent[2] == r2.raw
  {
    hide After, IsRun, Swapped, M.ParseRedirection, ML.Ordinary, Prologue, Mixup, CommandsOf, AnswersCommand;
    var first, second := Prologue(b, t0, ok), Mixup(a, b, t1, t2, moved, ask, r0, r1, r2);
    var w4 := FirstHalf(b, t0, ok);
    SecondHalf(w4, a, b, t1, t2, moved, ask, r0, r1, r2);
    RunsInTurn(START, first, second);
    var w := After(START, first + second);
    Rests(w, a, b);
    ThreeCommands(a, b, t0, t1, t2, ok, moved, ask, r0, r1, r2);
    EveryCommandAnswered(first + second, 0);
    ReadsAnswer(first + second, 1, Part(a, t1));
    ReadsAnswer(first + second, 2, Part(a, t2));
    SwappedAnswers(w, r0, r1, r2);
  }

  /** For all addresses and slots, with what the servers print: the errors come off a's
      socket as MOVED and ASK to b, and the client reads the wrong replies. */
  lemma PrintedRedirectsCross(
      a: M.Addr, b: M.Addr, t0: Text, t1: Text, t2: Text, ok: Reply, slot1: int, slot2: int, r0: Reply, r1: Reply, r2: Reply)
    requires a != b && LF !in b && INT64_MIN <= slot1 <= INT64_MAX && INT64_MIN <= slot2 <= INT64_MAX
    requires ML.Ordinary(ok) && ML.Ordinary(r0) && ML.Ordinary(r1) && ML.Ordinary(r2)
    ensures var m1, m2 := MR.MovedText(slot1, b), MR.AskText(slot2, b);
            var moved, ask := Reply(R.Encode(R.Error(m1)), R.KindMoved, m1), Reply(R.Encode(R.Error(m2)), R.KindAsk, m2);
            var events := Prologue(b, t0, ok) + Mixup(a, b, t1, t2, moved, ask, r0, r1, r2);
            && CutReply(moved.raw + ask.raw) == Took(moved, |moved.raw|) && CutReply(ask.raw) == Took(ask, |ask.raw|)
            && IsRun(START, events) && var w := After(START, events);
               0 in w.clients && |w.clients[0].sent| == 3 && w.clients[0].sent[1] == r0.raw && w.clients[0].sent[2] == r2.raw
  {
    hide After, IsRun, Swapped, M.ParseRedirection, ML.Ordinary, Prologue, Mixup, MR.MovedText, MR.AskText, R.Encode, CutReply;
    var m1, m2 := MR.MovedText(slot1, b), MR.AskText(slot2, b);
    var moved, ask := Reply(R.Encode(R.Error(m1)), R.KindMoved, m1), Reply(R.Encode(R.Error(m2)), R.KindAsk, m2);
    MR.PrintedRedirection(slot1, b);
    MR.PrintedRedirection(slot2, b);
    MR.ScannedRedirection(slot1, b, ask.raw);
    MR.ScannedRedirection(slot2, b, []);
    assert ask.raw + [] == ask.raw;
    ClientReadsCrossedReplies(a, b, t0, t1, t2, ok, moved, ask, r0, r1, r2);
  }

  lemma Rests(w: World, a: M.Addr, b: M.Addr)
    requires Snapshot(w, 3, map[a := IDLE, b := IDLE], map[])
    ensures AtRest(w) && 0 in w.alive && 0 in w.clients
  {
  }

  lemma SwappedAnswers(w: World, r0: Reply, r1: Reply, r2: Reply)
    requires Swapped(w, r0, r1, r2)
    ensures ME.AnswerOf(w.mux.loc, PlainKey(SlotRef(0, 1))) == Some(r0.raw)
    ensures ME.AnswerOf(w.mux.loc, PlainKey(SlotRef(0, 2))) == Some(r2.raw)
  {
  }

  lemma ThreeCommands(a: M.Addr, b: M.Addr, t0: Text, t1: Text, t2: Text, ok: Reply, moved: Reply, ask: Reply, r0: Reply, r1: Reply, r2: Reply)
    ensures CommandsOf(Prologue(b, t0, ok) + Mixup(a, b, t1, t2, moved, ask, r0, r1, r2), 0) ==
            [RouteCmd(Part(b, t0)), RouteCmd(Part(a, t1)), RouteCmd(Part(a, t2))]
  {
    var xs, ys := Prologue(b, t0, ok), Mixup(a, b, t1, t2, moved, ask, r0, r1, r2);
    CommandsInTurn(xs, ys, 0);
    NoCommands(xs[2..]);
    NoCommands(ys[1..]);
    assert xs[1..][1..] == xs[2..];
    assert CommandsOf(xs[1..], 0) == [RouteCmd(Part(b, t0))];
    assert CommandsOf(xs, 0) == [RouteCmd(Part(b, t0))];
    assert CommandsOf(ys, 0) == [RouteCmd(Part(a, t1)), RouteCmd(Part(a, t2))];
  }

  lemma {:induction false} CommandsInTurn(xs: seq<Event>, ys: seq<Event>, c: nat)
    ensures CommandsOf(xs + ys, c) == CommandsOf(xs, c) + CommandsOf(ys, c)
  {
    if xs == [] {
      assert xs + ys == ys;
    } else {
      assert (xs + ys)[1..] == xs[1..] + ys;
      CommandsInTurn(xs[1..], ys, c);
    }
  }

  lemma {:induction false} NoCommands(events: seq<Event>)
    requires forall i | 0 <= i < |events| :: !events[i].ClientTraffic?
    ensures CommandsOf(events, 0) == []
  {
    if events != [] {
      NoCommands(events[1..]);
    }
  }

  /** A client all of whose commands are routed requests reads their answers. */
  lemma ReadsAnswer(events: seq<Event>, i: nat, part: Part)
    requires IsRun(START, events) && 0 in After(START, events).clients
    requires var cmds := CommandsOf(events, 0);
             i < |cmds| && cmds[i] == RouteCmd(part) && forall j | 0 <= j < |cmds| :: cmds[j].RouteCmd?
    requires |After(START, events).clients[0].sent| == |CommandsOf(events, 0)|
    ensures var w := After(START, events);
            var d, k := w.clients[0].sent[i], PlainKey(SlotRef(0, i));
            ME.AnswerOf(w.mux.loc, k) == Some(d) || FailedWith(w.mux.loc, k, d)
  {
    hide After, IsRun, CommandsOf, Genuine;
    EveryCommandAnsweredInOrder(events, 0);
    ReachableInv(events);
    var w, cmds := After(START, events), CommandsOf(events, 0);
    var cl := w.clients[0];
    forall j | 0 <= j < |cl.origins| ensures cl.origins[j].Queued? {
      assert AnswersCommand(w, 0, j, cmds[j]);
    }
    assert Q.Numbered(cl.origins) by { NumberedClient(w); }
    QueuedCount(cl.origins, i);
    assert AnswersCommand(w, 0, i, cmds[i]);
  }

  lemma NumberedClient(w: World)
    requires Inv(w) && 0 in w.clients
    ensures Q.Numbered(w.clients[0].origins)
  {
    hide M.Inv, Justified, SlotOk, Registered;
    assert ClientOk(w, 0, w.clients[0], {});
  }
}
