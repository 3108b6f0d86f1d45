/**
 One event loop of the proxy: its clients' reply queues and its backend
 multiplexer, driven by whatever the network and the goroutine pool do.
 */
module System {
  import opened Prelude
  import opened Framing
  import opened Merging
  import opened Routing
  import M = Mux
  import Q = ReplyQueue

  /** A response slot of a client. */
  datatype SlotRef = SlotRef(client: nat, slot: nat)

  /** A request's arguments, as sent to a backend. */
  type Text = seq<Bytes>

  /** Who answers a slot: the proxy itself or its router, one backend request, or
      the merged replies of several; with the nodes they were sent to first. */
  datatype Work = Given | Plain(part: Part) | Fan(parts: seq<Part>, kind: MergeKind)

  /** A fill posted with EventLoop.Execute, to run in a later step. */
  datatype Posted = Posted(at: SlotRef, data: Bytes)

  /** `work`, `given` (what the proxy or its router decided for a slot) and
      `awaiting` (router calls still running) record what the closures captured. */
  datatype World = World(
    mux: M.Mux, clients: map<nat, Q.Client>, alive: set<nat>, posted: seq<Posted>,
    work: map<SlotRef, Work>, given: set<Posted>, awaiting: set<SlotRef>)

  const START: World := World(M.EMPTY, map[], {}, [], map[], {}, {})

  /** What dispatching one client command amounts to: an immediate reply, a router
      call, one backend request, or one request per slot group. */
  datatype Cmd = ReplyCmd(data: Bytes) | RouterCmd | RouteCmd(part: Part) | FanCmd(parts: seq<Part>, kind: MergeKind)

  datatype Event =
    | Connect(client: nat)
    | Disconnect(client: nat)
    | ClientTraffic(client: nat, cmds: seq<Cmd>, refused: map<M.Addr, Bytes>)
    | RouterDone(at: SlotRef, data: Bytes)
    | RunPosted(i: nat)
    | BackendOpen(addr: M.Addr, replica: bool)
    | BackendClosed(addr: M.Addr)
    | DialError(addr: M.Addr, err: Bytes)
    | BackendTraffic(addr: M.Addr, replies: seq<Reply>, refused: map<M.Addr, Bytes>)

  // ----------------------------------------------------------------------- steps

  function Ref(k: M.Key): SlotRef { SlotRef(k.client, k.slot) }

  function DeliveryFor(k: M.Key, data: Bytes): Q.Delivery {
    if k.sub.Some? then Q.Part(k.slot, k.sub.value, data) else Q.Whole(k.slot, data)
  }

  function PostedBy(outs: seq<M.Output>): seq<Posted> {
    if outs == [] then []
    else (if outs[0].Post? then [Posted(Ref(outs[0].key), outs[0].data)] else []) + PostedBy(outs[1..])
  }

  function DeliverOuts(clients: map<nat, Q.Client>, outs: seq<M.Output>): map<nat, Q.Client>
    decreases |outs|
  {
    if outs == [] then clients
    else
      var k := outs[0].key;
      var next :=
        if outs[0].DeliverTo? && k.client in clients then
          clients[k.client := Q.Deliver(clients[k.client], DeliveryFor(k, outs[0].data))]
        else clients;
      DeliverOuts(next, outs[1..])
  }

  /** The mux took a step: its deliveries reach the clients, its fills are posted. */
  function Absorb(w: World, m: M.Mux): World {
    w.(mux := m.(outs := []), clients := DeliverOuts(w.clients, m.outs), posted := w.posted + PostedBy(m.outs))
  }

  function Allocated(c: Q.Client): nat { c.base + |c.queue| }

  /** A new slot of a client, and who will answer it. */
  function Claim(w: World, c: nat, fanIn: Option<Q.FanIn>, work: Work): World
    requires c in w.clients
  {
    w.(clients := w.clients[c := Q.Alloc(w.clients[c], fanIn)],
       work := w.work[SlotRef(c, Allocated(w.clients[c])) := work])
  }

  function NewFanIn(n: nat, kind: MergeKind): Q.FanIn { Q.FanIn(n, 0, seq(n, i => None), kind) }

  function NewRequest(c: nat, slot: nat, sub: Option<nat>): M.Pending { M.Pending(M.Key(c, slot, sub), 0, false, false) }

  /** Send the sub-requests from number i on. */
  function SendParts(m: M.Mux, env: M.Env, at: SlotRef, parts: seq<Part>, i: nat): M.Mux
    requires i <= |parts|
    decreases |parts| - i
  {
    if i == |parts| then m
    else SendParts(M.Send(m, env, parts[i].addr, NewRequest(at.client, at.slot, Some(i))), env, at, parts, i + 1)
  }

  function Accept(w: World, c: nat, cmd: Cmd, refused: map<M.Addr, Bytes>): World
    requires c in w.clients
  {
    var env := M.Env(w.alive, refused);
    var at := SlotRef(c, Allocated(w.clients[c]));
    match cmd
    case ReplyCmd(data) =>
      if w.clients[c].queue == [] then w.(clients := w.clients[c := Q.Immediate(w.clients[c], data)])
      else
        var w' := Claim(w, c, None, Given);
        w'.(given := w'.given + {Posted(at, data)}, posted := w'.posted + [Posted(at, data)])
    case RouterCmd =>
      var w' := Claim(w, c, None, Given);
      w'.(awaiting := w'.awaiting + {at})
    case RouteCmd(part) =>
      var w' := Claim(w, c, None, Plain(part));
      Absorb(w', M.Send(w'.mux, env, part.addr, NewRequest(c, at.slot, None)))
    case FanCmd(parts, kind) =>
      var w' := Claim(w, c, Some(NewFanIn(|parts|, kind)), Fan(parts, kind));
      Absorb(w', SendParts(w'.mux, env, at, parts, 0))
  }

  function AcceptAll(w: World, c: nat, cmds: seq<Cmd>, refused: map<M.Addr, Bytes>): World
    decreases |cmds|
  {
    if cmds == [] || c !in w.clients then w else AcceptAll(Accept(w, c, cmds[0], refused), c, cmds[1..], refused)
  }

  function HearAll(w: World, addr: M.Addr, replies: seq<Reply>, refused: map<M.Addr, Bytes>): World
    decreases |replies|
  {
    if replies == [] then w
    else
      var w' := Absorb(w, M.OnReply(w.mux, M.Env(w.alive, refused), addr, replies[0]));
      HearAll(w', addr, replies[1..], refused)
  }

  function FlushClients(clients: map<nat, Q.Client>): map<nat, Q.Client> {
    map c | c in clients :: Q.Flush(clients[c])
  }

  function Without(posted: seq<Posted>, i: nat): seq<Posted>
    requires i < |posted|
  {
    posted[..i] + posted[i + 1..]
  }

  /** What the environment can do in a state. Servers and sockets are free; dials
      end only if begun, and each router call returns once. */
  predicate Enabled(w: World, e: Event) {
    match e
    case Connect(c) => c !in w.clients
    case Disconnect(c) => true
    case ClientTraffic(c, cmds, _) =>
      c in w.alive && forall i | 0 <= i < |cmds| && cmds[i].FanCmd? :: |cmds[i].parts| > 0
    case RouterDone(at, _) => at in w.awaiting
    case RunPosted(i) => i < |w.posted|
    case BackendOpen(addr, _) => addr in w.mux.dialing
    case BackendClosed(addr) => addr in w.mux.conns
    case DialError(addr, _) => addr in w.mux.dialing
    case BackendTraffic(addr, _, _) => addr in w.mux.conns
  }

  function Step(w: World, e: Event): World
    requires Enabled(w, e)
  {
    var env := M.Env(w.alive, map[]);
    match e
    case Connect(c) => w.(clients := w.clients[c := Q.FRESH], alive := w.alive + {c})
    case Disconnect(c) => w.(alive := w.alive - {c})
    case ClientTraffic(c, cmds, refused) =>
      var w' := AcceptAll(w, c, cmds, refused);
      w'.(mux := M.FlushAll(w'.mux))
    case RouterDone(at, data) =>
      w.(awaiting := w.awaiting - {at}, given := w.given + {Posted(at, data)}, posted := w.posted + [Posted(at, data)])
    case RunPosted(i) =>
      var p := w.posted[i];
      var w' := w.(posted := Without(w.posted, i));
      if p.at.client !in w.clients then w'
      else w'.(clients := w.clients[p.at.client := Q.FillInLoop(w.clients[p.at.client], p.at.slot, p.data)])
    case BackendOpen(addr, replica) => w.(mux := M.Open(w.mux, addr, replica))
    case BackendClosed(addr) => Absorb(w, M.Close(w.mux, env, addr))
    case DialError(addr, err) => Absorb(w, M.DialFailed(w.mux, env, addr, err))
    case BackendTraffic(addr, replies, refused) =>
      var w' := HearAll(w, addr, replies, refused);
      w'.(mux := M.FlushAll(w'.mux), clients := FlushClients(w'.clients))
  }

  /** A run: every event is possible where it happens. */
  ghost predicate IsRun(w: World, events: seq<Event>)
    decreases |events|
  {
    events == [] || (Enabled(w, events[0]) && IsRun(Step(w, events[0]), events[1..]))
  }

  function After(w: World, events: seq<Event>): World
    requires IsRun(w, events)
    decreases |events|
  {
    if events == [] then w else After(Step(w, events[0]), events[1..])
  }
}
