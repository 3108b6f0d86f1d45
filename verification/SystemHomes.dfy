/** Every request goes to the node its command was planned for. */
module SystemHomes {
  import opened Prelude
  import opened Framing
  import opened Merging
  import opened Grouping
  import opened Routing
  import opened System
  import opened SystemLaws
  import opened SystemSteps
  import opened SystemRuns
  import opened SystemBatch
  import opened SystemHistory
  import M = Mux
  import ML = MuxLaws
  import ME = MuxEffects
  import MT = MuxTargets
  import Q = ReplyQueue

  // ------------------------------------------------------------------- on acceptance

  lemma {:induction false} SendPartsTowards(m: M.Mux, env: M.Env, at: SlotRef, parts: seq<Part>, i: nat, k: M.Key, a: M.Addr)
    requires i <= |parts| && MT.Towards(m, env, k, a) && forall j: nat | i <= j < |parts| :: PartKey(at, j) != k
    ensures MT.Towards(SendParts(m, env, at, parts, i), env, k, a)
    decreases |parts| - i
  {
    hide MT.Towards, M.Send;
    if i < |parts| {
      var p := NewRequest(at.client, at.slot, Some(i));
      assert PartKey(at, i) != k;
      MT.OthersTowards(m, env, parts[i].addr, p, k, a);
      SendPartsTowards(M.Send(m, env, parts[i].addr, p), env, at, parts, i + 1, k, a);
    }
  }

  lemma {:induction false} EachPartTowards(m: M.Mux, env: M.Env, at: SlotRef, parts: seq<Part>, i: nat, g: nat)
    requires i <= g < |parts|
    ensures MT.Towards(SendParts(m, env, at, parts, i), env, PartKey(at, g), parts[g].addr)
    decreases |parts| - i
  {
    hide MT.Towards, M.Send;
    var p := NewRequest(at.client, at.slot, Some(i));
    var m1 := M.Send(m, env, parts[i].addr, p);
    if i == g {
      MT.SendTowards(m, env, parts[i].addr, p);
      SendPartsTowards(m1, env, at, parts, i + 1, PartKey(at, g), parts[g].addr);
    } else {
      EachPartTowards(m1, env, at, parts, i + 1, g);
    }
  }

  /** Each part of a command goes to its own node: it is queued there, or failed because
      that node cannot be dialled. */
  lemma PartsGoToTheirNodes(w: World, c: nat, parts: seq<Part>, kind: MergeKind, refused: map<M.Addr, Bytes>, g: nat)
    requires c in w.clients && g < |parts|
    ensures var at, env := SlotRef(c, Allocated(w.clients[c])), M.Env(w.alive, refused);
            MT.Towards(Accept(w, c, FanCmd(parts, kind), refused).mux, env, PartKey(at, g), parts[g].addr)
  {
    hide SendParts, DeliverOuts, PostedBy, Q.Alloc;
    EachPartTowards(w.mux, M.Env(w.alive, refused), SlotRef(c, Allocated(w.clients[c])), parts, 0, g);
  }

  /** So does an undivided one. */
  lemma CommandGoesToItsNode(w: World, c: nat, part: Part, refused: map<M.Addr, Bytes>)
    requires c in w.clients
    ensures var at, env := SlotRef(c, Allocated(w.clients[c])), M.Env(w.alive, refused);
            MT.Towards(Accept(w, c, RouteCmd(part), refused).mux, env, PlainKey(at), part.addr)
  {
    hide M.Send, DeliverOuts, PostedBy, Q.Alloc;
    var at, env := SlotRef(c, Allocated(w.clients[c])), M.Env(w.alive, refused);
    MT.SendTowards(w.mux, env, part.addr, NewRequest(c, at.slot, None));
  }

  // -------------------------------------------------------------------------- in runs

  /** The node a request was first sent to. */
  function HomeOf(work: map<SlotRef, Work>, k: M.Key): M.Addr {
    if Ref(k) !in work || !Serves(work[Ref(k)], k.sub) then []
    else if work[Ref(k)].Plain? then work[Ref(k)].part.addr
    else work[Ref(k)].parts[k.sub.value].addr
  }

  predicate Refuses(refused: map<M.Addr, Bytes>, a: M.Addr, o: M.Outcome) {
    a in refused && (o == M.Failed(EncodeError(refused[a])) || o.Dropped?)
  }

  /** The event is the node's reply, or its loss, or the failure to reach it; and it can
      end a request so. Only requests of clients that left are dropped. */
  ghost predicate EndedBy(e: Event, a: M.Addr, o: M.Outcome) {
    match e
    case BackendTraffic(b, rs, refused) =>
      (a == b && (o.Dropped? || exists i :: 0 <= i < |rs| && o == M.Answered(rs[i].raw))) || Refuses(refused, a, o)
    case ClientTraffic(_, _, refused) => Refuses(refused, a, o)
    case BackendClosed(b) => 
      a == b && (o == M.Failed(EncodeError(Ascii("ERR cluster node disconnected: ") + a)) || o.Dropped?)
    case DialError(b, err) => a == b && (o == M.Failed(EncodeError(err)) || o.Dropped?)
    case _ => false
  }

  ghost predicate Ended(events: seq<Event>, a: M.Addr, o: M.Outcome) {
    exists i :: 0 <= i < |events| && EndedBy(events[i], a, o)
  }

  /** The request is at `a`, or one of the events, at `a`, ended it. */
  ghost predicate WithNode(w: World, done: seq<Event>, k: M.Key, a: M.Addr) {
    MT.Heading(w.mux, k, a) || (k in w.mux.loc && w.mux.loc[k].Finished? && Ended(done, a, w.mux.loc[k].outcome))
  }

  /** Every request of every command has been sent, and one sent once is with its node. */
  ghost predicate Housed(w: World, done: seq<Event>) {
    && (forall k: M.Key | Ref(k) in w.work && Serves(w.work[Ref(k)], k.sub) :: k in w.mux.loc && k in w.mux.sends)
    && forall k | k in w.mux.loc && k in w.mux.sends && w.mux.sends[k] == 1 :: WithNode(w, done, k, HomeOf(w.work, k))
  }

  lemma HousedLater(w: World, done: seq<Event>, e: Event)
    requires Housed(w, done)
    ensures Housed(w, done + [e])
  {
    hide EndedBy;
    assert forall i | 0 <= i < |done| :: (done + [e])[i] == done[i];
    forall k | k in w.mux.loc && k in w.mux.sends && w.mux.sends[k] == 1
      ensures WithNode(w, done + [e], k, HomeOf(w.work, k)) {
      assert WithNode(w, done, k, HomeOf(w.work, k));
    }
  }

  ghost function Home(work: map<SlotRef, Work>): M.Key -> M.Addr { k => HomeOf(work, k) }

  ghost function EndedIn(done: seq<Event>): (M.Addr, M.Outcome) -> bool { (a, o) => Ended(done, a, o) }

  lemma HomesIff(w: World, done: seq<Event>)
    ensures MT.Homes(w.mux, Home(w.work), EndedIn(done)) <==>
            forall k | k in w.mux.loc && k in w.mux.sends && w.mux.sends[k] == 1 :: WithNode(w, done, k, HomeOf(w.work, k))
  {
    hide Ended, HomeOf;
    var home, ended := Home(w.work), EndedIn(done);
    forall k | k in w.mux.loc && k in w.mux.sends && w.mux.sends[k] == 1
      ensures MT.AtHome(w.mux, k, home(k), ended) <==> WithNode(w, done, k, HomeOf(w.work, k)) {
    }
  }

  /** A mux step that keeps requests housed, absorbed. */
  lemma HousedStep(w: World, m': M.Mux, done: seq<Event>)
    requires Housed(w, done) && MT.Homes(m', Home(w.work), EndedIn(done))
    requires w.mux.loc.Keys <= m'.loc.Keys && w.mux.sends.Keys <= m'.sends.Keys
    ensures Housed(Absorb(w, m'), done)
  {
    hide MT.Homes, WithNode, DeliverOuts, PostedBy;
    var w' := Absorb(w, m');
    assert MT.Homes(w'.mux, Home(w'.work), EndedIn(done)) by { SameHomes(m', w'.mux, Home(w.work), EndedIn(done)); }
    HomesIff(w', done);
  }

  lemma SameHomes(m: M.Mux, m': M.Mux, home: M.Key -> M.Addr, ended: (M.Addr, M.Outcome) -> bool)
    requires MT.Homes(m, home, ended) && m'.loc == m.loc && m'.sends == m.sends
    ensures MT.Homes(m', home, ended)
  {
    MT.LessHomes(m, m', home, ended);
  }

  /** Nothing about requests changed. */
  lemma HousedSame(w: World, w': World, done: seq<Event>)
    requires Housed(w, done) && w'.mux.loc == w.mux.loc && w'.mux.sends == w.mux.sends && w'.work == w.work
    ensures Housed(w', done)
  {
    hide Ended;
    forall k | k in w'.mux.loc && k in w'.mux.sends && w'.mux.sends[k] == 1
      ensures WithNode(w', done, k, HomeOf(w'.work, k)) {
      assert WithNode(w, done, k, HomeOf(w.work, k));
    }
  }

  // ------------------------------------------------------------------ client traffic

  lemma RefusalsCount(done: seq<Event>, e: Event, alive: set<nat>)
    requires e in done && (e.ClientTraffic? || e.BackendTraffic?)
    ensures MT.RefusalsEnd(M.Env(alive, e.refused), EndedIn(done))
  {
    hide EncodeError;
    var i :| 0 <= i < |done| && done[i] == e;
    forall a | a in e.refused
      ensures Ended(done, a, M.Failed(EncodeError(e.refused[a]))) && Ended(done, a, M.Dropped) {
      assert EndedBy(done[i], a, M.Failed(EncodeError(e.refused[a]))) && EndedBy(done[i], a, M.Dropped);
    }
  }

  lemma {:induction false} SendPartsHomes(
      m: M.Mux, env: M.Env, at: SlotRef, parts: seq<Part>, i: nat, home: M.Key -> M.Addr, ended: (M.Addr, M.Outcome) -> bool)
    requires i <= |parts| && MT.Homes(m, home, ended) && MT.RefusalsEnd(env, ended)
    requires forall j: nat | i <= j < |parts| :: PartKey(at, j) !in m.sends && home(PartKey(at, j)) == parts[j].addr
    ensures MT.Homes(SendParts(m, env, at, parts, i), home, ended)
    ensures SendParts(m, env, at, parts, i).sends.Keys == m.sends.Keys + PartKeys(at, i, |parts|)
    decreases |parts| - i
  {
    hide MT.Homes, MT.RefusalsEnd, M.Send, PartKeys;
    if i == |parts| {
      assert PartKeys(at, i, |parts|) == {} by { NoPartKeys(at, i); }
    } else {
      var p := NewRequest(at.client, at.slot, Some(i));
      assert p.key == PartKey(at, i);
      MT.SendHomes(m, env, parts[i].addr, p, home, ended);
      ME.SendSends(m, env, parts[i].addr, p);
      SendPartsHomes(M.Send(m, env, parts[i].addr, p), env, at, parts, i + 1, home, ended);
      FirstPartKey(at, i, |parts|);
    }
  }

  lemma NoPartKeys(at: SlotRef, n: nat)
    ensures PartKeys(at, n, n) == {}
  {
  }

  lemma FirstPartKey(at: SlotRef, i: nat, n: nat)
    requires i < n
    ensures PartKeys(at, i, n) == {PartKey(at, i)} + PartKeys(at, i + 1, n)
  {
  }

  /** A new slot has no requests yet. */
  lemma ClaimHomes(w: World, c: nat, fanIn: Option<Q.FanIn>, work: Work, done: seq<Event>)
    requires Registered(w) && c in w.clients && Housed(w, done)
    ensures var w1 := Claim(w, c, fanIn, work); MT.Homes(w1.mux, Home(w1.work), EndedIn(done))
  {
    hide Ended, Q.Alloc;
    var w1, at := Claim(w, c, fanIn, work), SlotRef(c, Allocated(w.clients[c]));
    forall k | k in w1.mux.loc && k in w1.mux.sends && w1.mux.sends[k] == 1
      ensures WithNode(w1, done, k, HomeOf(w1.work, k)) {
      if Ref(k) == at {
        FreshSlot(w, c, k);
      }
      assert WithNode(w, done, k, HomeOf(w.work, k));
    }
    HomesIff(w1, done);
  }

  /** What a new command's requests are, and that they are all sent. */
  lemma HousedNew(w: World, w1: World, m': M.Mux, at: SlotRef, ks: set<M.Key>, done: seq<Event>)
    requires Housed(w, done) && at !in w.work && w1.work.Keys == w.work.Keys + {at} && w1.mux == w.mux
    requires forall r | r in w.work :: w1.work[r] == w.work[r]
    requires forall k: M.Key | Ref(k) == at && Serves(w1.work[at], k.sub) :: k in ks
    requires MT.Homes(m', Home(w1.work), EndedIn(done))
    requires m'.loc.Keys == w.mux.loc.Keys + ks && m'.sends.Keys == w.mux.sends.Keys + ks
    ensures Housed(Absorb(w1, m'), done)
  {
    hide MT.Homes, WithNode, DeliverOuts, PostedBy, Serves;
    var w' := Absorb(w1, m');
    assert MT.Homes(w'.mux, Home(w'.work), EndedIn(done)) by { SameHomes(m', w'.mux, Home(w1.work), EndedIn(done)); }
    HomesIff(w', done);
    forall k: M.Key | Ref(k) in w'.work && Serves(w'.work[Ref(k)], k.sub) ensures k in w'.mux.loc && k in w'.mux.sends {
      assert Ref(k) == at || (Ref(k) in w.work && Serves(w.work[Ref(k)], k.sub));
    }
  }

  lemma FanHomes(w: World, c: nat, parts: seq<Part>, kind: MergeKind, refused: map<M.Addr, Bytes>, done: seq<Event>)
    requires WorldOk(w, {}) && c in w.clients && Housed(w, done) && MT.RefusalsEnd(M.Env(w.alive, refused), EndedIn(done))
    ensures Housed(Accept(w, c, FanCmd(parts, kind), refused), done)
  {
    hide M.Inv, ClientOk, Justified, SendParts, MT.Homes, MT.RefusalsEnd, ME.Quiet, Q.Alloc, Housed, DeliverOuts, PostedBy, Known;
    var at, env, n := SlotRef(c, Allocated(w.clients[c])), M.Env(w.alive, refused), |parts|;
    var w1 := Claim(w, c, Some(NewFanIn(n, kind)), Fan(parts, kind));
    ClaimHomes(w, c, Some(NewFanIn(n, kind)), Fan(parts, kind), done);
    Unknown(w, c);
    forall j: nat | j < n ensures PartKey(at, j) !in w.mux.loc && Home(w1.work)(PartKey(at, j)) == parts[j].addr {
      FreshSlot(w, c, PartKey(at, j));
    }
    SendPartsHomes(w.mux, env, at, parts, 0, Home(w1.work), EndedIn(done));
    SendPartsQuiet(w.mux, env, at, parts, 0);
    var ks := PartKeys(at, 0, n);
    forall k: M.Key | Ref(k) == at && Serves(w1.work[at], k.sub) ensures k in ks {
      assert k == PartKey(at, k.sub.value);
    }
    QuietKeys(w.mux, SendParts(w.mux, env, at, parts, 0), ks, w.alive);
    HousedNew(w, w1, SendParts(w.mux, env, at, parts, 0), at, ks, done);
  }

  lemma QuietKeys(m: M.Mux, m': M.Mux, ks: set<M.Key>, alive: set<nat>)
    requires ME.Quiet(m, m', ks, alive)
    ensures m'.loc.Keys == m.loc.Keys + ks
  {
  }

  lemma RouteHomes(w: World, c: nat, part: Part, refused: map<M.Addr, Bytes>, done: seq<Event>)
    requires WorldOk(w, {}) && c in w.clients && Housed(w, done) && MT.RefusalsEnd(M.Env(w.alive, refused), EndedIn(done))
    ensures Housed(Accept(w, c, RouteCmd(part), refused), done)
  {
    hide M.Inv, ClientOk, Justified, M.Send, MT.Homes, MT.RefusalsEnd, ME.Quiet, Q.Alloc, Housed, DeliverOuts, PostedBy, Known;
    var at, env := SlotRef(c, Allocated(w.clients[c])), M.Env(w.alive, refused);
    var w1, k, p := Claim(w, c, None, Plain(part)), PlainKey(at), NewRequest(c, at.slot, None);
    ClaimHomes(w, c, None, Plain(part), done);
    Unknown(w, c);
    FreshSlot(w, c, k);
    assert Home(w1.work)(k) == part.addr;
    MT.SendHomes(w.mux, env, part.addr, p, Home(w1.work), EndedIn(done));
    ME.SendSends(w.mux, env, part.addr, p);
    SendOne(w.mux, env, part.addr, k);
    forall j: M.Key | Ref(j) == at && Serves(w1.work[at], j.sub) ensures j in {k} {
      assert j == k;
    }
    HousedNew(w, w1, M.Send(w.mux, env, part.addr, p), at, {k}, done);
  }

  lemma GivenHomes(w: World, c: nat, cmd: Cmd, refused: map<M.Addr, Bytes>, done: seq<Event>)
    requires WorldOk(w, {}) && c in w.clients && Housed(w, done) && (cmd.RouterCmd? || cmd.ReplyCmd?)
    ensures Housed(Accept(w, c, cmd, refused), done)
  {
    hide M.Inv, ClientOk, Justified, Q.Alloc, Q.Immediate, Ended, Known;
    Unknown(w, c);
    var w' := Accept(w, c, cmd, refused);
    forall k | k in w'.mux.loc && k in w'.mux.sends && w'.mux.sends[k] == 1
      ensures WithNode(w', done, k, HomeOf(w'.work, k)) {
      assert WithNode(w, done, k, HomeOf(w.work, k));
      assert Ref(k) in w.work;
    }
  }

  lemma {:induction false} AcceptAllHomes(w: World, c: nat, cmds: seq<Cmd>, refused: map<M.Addr, Bytes>, done: seq<Event>)
    requires WorldOk(w, {}) && NoAccum(w.clients) && forall i | 0 <= i < |cmds| :: Sane(cmds[i])
    requires Housed(w, done) && MT.RefusalsEnd(M.Env(w.alive, refused), EndedIn(done))
    ensures Housed(AcceptAll(w, c, cmds, refused), done)
    decreases |cmds|
  {
    hide WorldOk, Accept, NoAccum, Housed, MT.RefusalsEnd;
    if cmds != [] && c in w.clients {
      var w' := Accept(w, c, cmds[0], refused);
      AcceptOk(w, c, cmds[0], refused);
      match cmds[0] {
        case FanCmd(parts, kind) => FanHomes(w, c, parts, kind, refused, done);
        case RouteCmd(part) => RouteHomes(w, c, part, refused, done);
        case _ => GivenHomes(w, c, cmds[0], refused, done);
      }
      assert w'.alive == w.alive by { AcceptAlive(w, c, cmds[0], refused); }
      AcceptAllHomes(w', c, cmds[1..], refused, done);
    }
  }

  lemma AcceptAlive(w: World, c: nat, cmd: Cmd, refused: map<M.Addr, Bytes>)
    requires c in w.clients
    ensures Accept(w, c, cmd, refused).alive == w.alive
  {
    hide SendParts, M.Send, DeliverOuts, PostedBy, Q.Alloc, Q.Immediate;
  }

  // ------------------------------------------------------------------------ every event

  lemma HearHomes(w: World, e: Event, done: seq<Event>)
    requires Inv(w) && e.BackendTraffic? && e in done && Housed(w, done)
    ensures Housed(HearAll(w, e.addr, e.replies, e.refused), done)
  {
    hide WorldOk, M.OnReplies, HearAll, DeliverOuts, PostedBy, MT.Homes, MT.RefusalsEnd, WithNode, Absorb;
    var env := M.Env(w.alive, e.refused);
    var m' := M.OnReplies(w.mux, env, e.addr, e.replies);
    MuxOk(w);
    HomesIff(w, done);
    RefusalsCount(done, e, w.alive);
    RepliesCount(done, e);
    MT.OnRepliesHomes(w.mux, env, e.addr, e.replies, Home(w.work), EndedIn(done));
    RepliesKeys(w.mux, env, e.addr, e.replies);
    HearingIsOneBatch(w, e.addr, e.replies, e.refused);
    HousedStep(w, m', done);
  }

  lemma MuxOk(w: World)
    requires Inv(w)
    ensures M.Inv(w.mux) && w.mux.outs == [] && Registered(w)
  {
    hide M.Inv, Registered, ClientOk, Justified;
  }

  lemma RepliesCount(done: seq<Event>, e: Event)
    requires e.BackendTraffic? && e in done
    ensures EndedIn(done)(e.addr, M.Dropped)
    ensures forall i | 0 <= i < |e.replies| :: EndedIn(done)(e.addr, M.Answered(e.replies[i].raw))
  {
    var i :| 0 <= i < |done| && done[i] == e;
    assert EndedBy(done[i], e.addr, M.Dropped);
    forall j | 0 <= j < |e.replies| ensures Ended(done, e.addr, M.Answered(e.replies[j].raw)) {
      assert EndedBy(done[i], e.addr, M.Answered(e.replies[j].raw));
    }
  }

  lemma ReplyKeys(m: M.Mux, env: M.Env, addr: M.Addr, r: Reply)
    requires M.Inv(m)
    ensures var m' := M.OnReply(m, env, addr, r); m.loc.Keys <= m'.loc.Keys && m.sends.Keys <= m'.sends.Keys
  {
    hide M.Inv, M.Dispatch, M.Serve, M.Pop;
    ME.OnReplyOutcome(m, env, addr, r);
    if addr in m.conns {
      ML.ServeLoc(m, addr, r.raw);
      if m.conns[addr].live != [] {
        ML.PoppedLoc(m, addr, r.raw);
        DispatchKeys(M.Pop(M.Serve(m, addr, r.raw), addr), env, m.conns[addr].live[0], r);
      }
    }
  }

  lemma DispatchKeys(m: M.Mux, env: M.Env, p: M.Pending, r: Reply)
    ensures m.sends.Keys <= M.Dispatch(m, env, p, r).sends.Keys
  {
    hide M.Send, M.SendAsk, M.ParseRedirection;
    var target := M.ParseRedirection(r.msg);
    if target.Some? {
      ME.SendSends(m, env, target.value, p.(depth := p.depth + 1));
    }
  }

  lemma {:induction false} RepliesKeys(m: M.Mux, env: M.Env, addr: M.Addr, rs: seq<Reply>)
    requires M.Inv(m)
    ensures var m' := M.OnReplies(m, env, addr, rs); m.loc.Keys <= m'.loc.Keys && m.sends.Keys <= m'.sends.Keys
    decreases |rs|
  {
    hide M.Inv, M.OnReply;
    if rs != [] {
      ReplyKeys(m, env, addr, rs[0]);
      ML.OnReplyInv(m, env, addr, rs[0]);
      RepliesKeys(M.OnReply(m, env, addr, rs[0]), env, addr, rs[1..]);
    }
  }

  lemma LastHappened(done: seq<Event>, e: Event)
    ensures e in done + [e]
    ensures forall a: M.Addr, o: M.Outcome | EndedBy(e, a, o) :: EndedIn(done + [e])(a, o)
  {
    hide EndedBy;
    assert (done + [e])[|done|] == e;
  }

  lemma LossHomes(w: World, e: Event, done: seq<Event>)
    requires Inv(w) && Enabled(w, e) && Housed(w, done) && (e.BackendClosed? || e.DialError? || e.BackendOpen?) && e in done
    requires forall a: M.Addr, o: M.Outcome | EndedBy(e, a, o) :: EndedIn(done)(a, o)
    ensures Housed(Step(w, e), done)
  {
    hide WorldOk, MT.Homes, WithNode, DeliverOuts, PostedBy, M.Posts, M.FailAll, M.Relocate, M.WrittenAll, ME.Quiet,
         EncodeError, M.Inv;
    var env, home, ended := M.Env(w.alive, map[]), Home(w.work), EndedIn(done);
    MuxOk(w);
    HomesIff(w, done);
    match e {
      case BackendClosed(a) =>
        assert EndedBy(e, a, M.Failed(M.DisconnectError(a))) && EndedBy(e, a, M.Dropped);
        MT.CloseHomes(w.mux, env, a, home, ended);
        ME.CloseQuiet(w.mux, env, a);
        QuietKeys(w.mux, M.Close(w.mux, env, a), {}, w.alive);
        HousedStep(w, M.Close(w.mux, env, a), done);
      case DialError(a, err) =>
        assert EndedBy(e, a, M.Failed(EncodeError(err))) && EndedBy(e, a, M.Dropped);
        MT.DialFailedHomes(w.mux, env, a, err, home, ended);
        ME.DialFailedQuiet(w.mux, env, a, err);
        QuietKeys(w.mux, M.DialFailed(w.mux, env, a, err), {}, w.alive);
        HousedStep(w, M.DialFailed(w.mux, env, a, err), done);
      case BackendOpen(a, replica) =>
        var m' := M.Open(w.mux, a, replica);
        MT.OpenHomes(w.mux, a, replica, home, ended);
        ME.OpenQuiet(w.mux, a, replica, w.alive);
        QuietKeys(w.mux, m', {}, w.alive);
        HousedStep(w, m', done);
        HousedSame(Absorb(w, m'), Step(w, e), done);
    }
  }

  lemma StepHomes(w: World, e: Event, done: seq<Event>)
    requires Inv(w) && Enabled(w, e) && Housed(w, done)
    ensures Housed(Step(w, e), done + [e])
  {
    hide WorldOk, AcceptAll, HearAll, Absorb, Housed, Q.FillInLoop, Q.Flush, EndedBy;
    var all := done + [e];
    HousedLater(w, done, e);
    LastHappened(done, e);
    match e {
      case ClientTraffic(c, cmds, refused) =>
        RefusalsCount(all, e, w.alive);
        AcceptAllHomes(w, c, cmds, refused, all);
        HousedSame(AcceptAll(w, c, cmds, refused), Step(w, e), all);
      case BackendTraffic(addr, rs, refused) =>
        HearHomes(w, e, all);
        HousedSame(HearAll(w, addr, rs, refused), Step(w, e), all);
      case BackendOpen(_, _) => LossHomes(w, e, all);
      case BackendClosed(_) => LossHomes(w, e, all);
      case DialError(_, _) => LossHomes(w, e, all);
      case _ => HousedSame(w, Step(w, e), all);
    }
  }

  lemma {:induction false} RunHomes(w: World, events: seq<Event>, done: seq<Event>)
    requires Inv(w) && IsRun(w, events) && Housed(w, done)
    ensures Housed(After(w, events), done + events)
    decreases |events|
  {
    hide Inv, Step, Enabled, Housed;
    if events == [] {
      assert done + events == done;
    } else {
      StepInv(w, events[0]);
      StepHomes(w, events[0], done);
      RunHomes(Step(w, events[0]), events[1..], done + [events[0]]);
      assert done + [events[0]] + events[1..] == done + events;
    }
  }

  /** In every run: every request of every command has been sent, and one that was never
      redirected is at the node it was planned for, or was answered or failed by an
      event of the run at that very node. */
  lemma EveryRequestWithItsNode(events: seq<Event>, k: M.Key)
    requires IsRun(START, events)
    requires var w := After(START, events); Ref(k) in w.work && Serves(w.work[Ref(k)], k.sub)
    ensures var w := After(START, events);
            k in w.mux.loc && k in w.mux.sends && (w.mux.sends[k] == 1 ==> WithNode(w, events, k, HomeOf(w.work, k)))
  {
    hide Inv, Step, After, IsRun, WithNode, HomeOf;
    StartInv();
    assert Housed(START, []) by { StartHoused(); }
    RunHomes(START, events, []);
    assert [] + events == events;
  }

  lemma StartHoused()
    ensures Housed(START, [])
  {
  }

  // -------------------------------------------------------------- for each command

  /** For a planned multi-key command: part g is with the node of its slot. */
  lemma PartsWithTheirNodes(
      events: seq<Event>, c: nat, i: nat, op: Op, args: seq<Bytes>, nodes: map<nat, M.Addr>, parts: seq<Part>, kind: MergeKind, g: nat)
    requires IsRun(START, events) && c in After(START, events).clients
    requires i < |CommandsOf(events, c)| && CommandsOf(events, c)[i] == FanCmd(parts, kind)
    requires Planned(op, args, nodes, parts, kind) && g < |parts|
    ensures var w, slot := After(START, events), SlotOrder(KeysOf(op, args))[g];
            && i < |w.clients[c].origins| && w.clients[c].origins[i].Queued?
            && var k := PartKey(SlotRef(c, w.clients[c].origins[i].abs), g);
               && k in w.mux.loc && k in w.mux.sends
               && (w.mux.sends[k] == 1 ==> WithNode(w, events, k, nodes[slot]))
  {
    hide Inv, Step, After, IsRun, WithNode, CommandsOf, SlotOrder, KeysOf;
    StartInv();
    RunRecords(START, events, c, []);
    assert [] + CommandsOf(events, c) == CommandsOf(events, c);
    var w := After(START, events);
    assert Stands(w, c, w.clients[c].origins[i], CommandsOf(events, c)[i]);
    EveryRequestWithItsNode(events, PartKey(SlotRef(c, w.clients[c].origins[i].abs), g));
  }

  /** For an undivided one: it is with the node it was routed to. */
  lemma CommandWithItsNode(events: seq<Event>, c: nat, i: nat, part: Part)
    requires IsRun(START, events) && c in After(START, events).clients
    requires i < |CommandsOf(events, c)| && CommandsOf(events, c)[i] == RouteCmd(part)
    ensures var w := After(START, events);
            && i < |w.clients[c].origins| && w.clients[c].origins[i].Queued?
            && var k := PlainKey(SlotRef(c, w.clients[c].origins[i].abs));
               && k in w.mux.loc && k in w.mux.sends
               && (w.mux.sends[k] == 1 ==> WithNode(w, events, k, part.addr))
  {
    hide Inv, Step, After, IsRun, WithNode, CommandsOf;
    StartInv();
    RunRecords(START, events, c, []);
    assert [] + CommandsOf(events, c) == CommandsOf(events, c);
    var w := After(START, events);
    assert Stands(w, c, w.clients[c].origins[i], CommandsOf(events, c)[i]);
    EveryRequestWithItsNode(events, PlainKey(SlotRef(c, w.clients[c].origins[i].abs)));
  }
}
