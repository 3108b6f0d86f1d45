/** Every event keeps the invariant of the event loop. */
module SystemSteps {
  import opened Prelude
  import opened Merging
  import opened Routing
  import opened System
  import opened SystemLaws
  import M = Mux
  import ML = MuxLaws
  import ME = MuxEffects
  import Q = ReplyQueue

  // --------------------------------------------------------------- client traffic

  ghost function PartKeys(at: SlotRef, lo: nat, n: nat): set<M.Key> { set i: nat | lo <= i < n :: PartKey(at, i) }

  lemma {:induction false} SendPartsQuiet(m: M.Mux, env: M.Env, at: SlotRef, parts: seq<Part>, i: nat)
    requires i <= |parts| && M.Inv(m) && m.sends.Keys <= m.loc.Keys
    requires forall j: nat | i <= j < |parts| :: PartKey(at, j) !in m.loc
    ensures var m' := SendParts(m, env, at, parts, i);
            M.Inv(m') && ME.Quiet(m, m', PartKeys(at, i, |parts|), env.alive) && m'.sends.Keys <= m'.loc.Keys
    decreases |parts| - i
  {
    hide M.Inv, ME.Quiet, M.Send;
    if i == |parts| {
      ME.QuietRefl(m, m, env.alive);
      assert PartKeys(at, i, |parts|) == {};
    } else {
      var k := PartKey(at, i);
      var m1 := M.Send(m, env, parts[i].addr, NewRequest(at.client, at.slot, Some(i)));
      SendOne(m, env, parts[i].addr, k);
      SendPartsQuiet(m1, env, at, parts, i + 1);
      ME.QuietTrans(m, m1, SendParts(m1, env, at, parts, i + 1), {k}, PartKeys(at, i + 1, |parts|), env.alive);
      assert PartKeys(at, i, |parts|) == {k} + PartKeys(at, i + 1, |parts|);
    }
  }

  /** A new request is sent: nothing is answered, and it is known from now on. */
  lemma SendOne(m: M.Mux, env: M.Env, addr: M.Addr, k: M.Key)
    requires M.Inv(m) && m.sends.Keys <= m.loc.Keys && k !in m.loc
    ensures var m' := M.Send(m, env, addr, NewRequest(k.client, k.slot, k.sub));
            M.Inv(m') && ME.Quiet(m, m', {k}, env.alive) && m'.sends.Keys <= m'.loc.Keys && m'.loc.Keys == m.loc.Keys + {k}
  {
    hide M.Inv, M.Send;
    var p := NewRequest(k.client, k.slot, k.sub);
    ML.SendInv(m, env, addr, p);
    ME.SendQuiet(m, env, addr, p);
    ME.SendSends(m, env, addr, p);
  }

  /** A request just sent is in flight, or its failure is already posted. */
  lemma NewPursued(w: World, m': M.Mux, ks: set<M.Key>, k: M.Key)
    requires w.mux.outs == [] && ME.Quiet(w.mux, m', ks, w.alive) && k in ks && k !in w.mux.loc
    ensures Pursued(Absorb(w, m'), k) && ME.AnswerOf(m'.loc, k).None?
  {
    hide DeliverOuts, PostedBy;
    var w' := Absorb(w, m');
    assert m'.outs[0..] == m'.outs;
    if ME.HasFailed(m'.loc, k) {
      PostedHas(m'.outs, M.Post(k, m'.loc[k].outcome.data));
      assert Posted(Ref(k), m'.loc[k].outcome.data) in w'.posted;
    }
  }

  lemma {:induction false} CountNone(n: nat)
    ensures CountSome(seq(n, i => None)) == 0
  {
    if n > 0 {
      CountNone(n - 1);
      var s := seq<Option<Bytes>>(n, i => None);
      assert s[1..] == seq<Option<Bytes>>(n - 1, i => None);
    }
  }

  /** Nothing of a slot not yet allocated is known. */
  lemma FreshSlot(w: World, c: nat, k: M.Key)
    requires Registered(w) && c in w.clients && Ref(k) == SlotRef(c, Allocated(w.clients[c]))
    ensures k !in w.mux.loc
  {
    assert !Known(w.clients, Ref(k));
  }

  lemma RouteOk(w: World, c: nat, part: Part, refused: map<M.Addr, Bytes>)
    requires WorldOk(w, {}) && c in w.clients
    ensures var w' := Accept(w, c, RouteCmd(part), refused);
            WorldOk(w', {}) && w'.clients == w.clients[c := Q.Alloc(w.clients[c], None)]
  {
    hide M.Inv, ME.Quiet, M.Send, Q.Alloc, ClientOk, Justified, DeliverOuts;
    var at, env := SlotRef(c, Allocated(w.clients[c])), M.Env(w.alive, refused);
    var w1, k := Claim(w, c, None, Plain(part)), PlainKey(at);
    var m' := M.Send(w1.mux, env, part.addr, NewRequest(c, at.slot, None));
    FreshSlot(w, c, k);
    ClaimOk(w, c, None, Plain(part));
    SendOne(w1.mux, env, part.addr, k);
    QuietStep(w1, m', {k}, {at});
    NewPursued(w1, m', {k}, k);
    AllocEffect(w.clients[c], None);
    OpenedOk(Absorb(w1, m'), c);
  }

  lemma FanOutOk(w: World, c: nat, parts: seq<Part>, kind: MergeKind, refused: map<M.Addr, Bytes>)
    requires WorldOk(w, {}) && c in w.clients && |parts| > 0
    ensures var w' := Accept(w, c, FanCmd(parts, kind), refused);
            WorldOk(w', {}) && w'.clients == w.clients[c := Q.Alloc(w.clients[c], Some(NewFanIn(|parts|, kind)))]
  {
    hide M.Inv, ME.Quiet, SendParts, Q.Alloc, ClientOk, Justified, DeliverOuts;
    var at, env, n := SlotRef(c, Allocated(w.clients[c])), M.Env(w.alive, refused), |parts|;
    var fi := NewFanIn(n, kind);
    var w1 := Claim(w, c, Some(fi), Fan(parts, kind));
    var m' := SendParts(w1.mux, env, at, parts, 0);
    var ks := PartKeys(at, 0, n);
    forall j: nat | 0 <= j < n ensures PartKey(at, j) !in w.mux.loc {
      FreshSlot(w, c, PartKey(at, j));
    }
    ClaimOk(w, c, Some(fi), Fan(parts, kind));
    SendPartsQuiet(w1.mux, env, at, parts, 0);
    QuietStep(w1, m', ks, {at});
    CountNone(n);
    forall i | 0 <= i < n ensures Pursued(Absorb(w1, m'), PartKey(at, i)) && ME.AnswerOf(m'.loc, PartKey(at, i)).None? {
      assert PartKey(at, i) in ks;
      NewPursued(w1, m', ks, PartKey(at, i));
    }
    AllocEffect(w.clients[c], Some(fi));
    OpenedOk(Absorb(w1, m'), c);
  }

  /** The proxy answers by itself, or leaves the answer to a router call. */
  lemma GivenOk(w: World, c: nat, cmd: Cmd, refused: map<M.Addr, Bytes>)
    requires WorldOk(w, {}) && c in w.clients && (cmd.RouterCmd? || (cmd.ReplyCmd? && w.clients[c].queue != []))
    ensures var w' := Accept(w, c, cmd, refused);
            WorldOk(w', {}) && w'.clients == w.clients[c := Q.Alloc(w.clients[c], None)]
  {
    hide M.Inv, Q.Alloc, Q.Immediate, SlotOk, Same, Justified, ClientOk;
    var at := SlotRef(c, Allocated(w.clients[c]));
    var w1, w' := Claim(w, c, None, Given), Accept(w, c, cmd, refused);
    ClaimOk(w, c, None, Given);
    AllocEffect(w.clients[c], None);
    forall r: SlotRef ensures Same(w1, w', r) {
      MoreSame(w1, w', r);
    }
    GivenSlot(w', at, cmd);
    PostedKept(w1, w');
    Relabel(w1, w', {at});
    OpenedOk(w', c);
  }

  /** Only the bookkeeping beside queues and requests changed. */
  lemma Relabel(w: World, w': World, opening: set<SlotRef>)
    requires WorldOk(w, opening) && Registered(w')
    requires w'.mux == w.mux && w'.clients == w.clients && w'.work == w.work && w.given <= w'.given
    requires forall r: SlotRef :: Same(w, w', r)
    requires forall p | p in w'.posted :: Justified(w', p.at, p.data)
    ensures WorldOk(w', opening)
  {
    hide M.Inv, SlotOk, Same, Justified, ClientOk, Registered;
    assert Extends(w, w');
    forall d | d in w'.clients ensures ClientOk(w', d, w'.clients[d], opening) {
      ClientKept(w, w', d, w.clients[d], opening);
    }
  }

  lemma MoreSame(w: World, w': World, at: SlotRef)
    requires w'.mux == w.mux && w'.alive == w.alive && w.posted <= w'.posted && w.awaiting <= w'.awaiting
    ensures Same(w, w', at)
  {
    assert forall p | p in w.posted :: p in w'.posted;
  }

  lemma GivenSlot(w: World, at: SlotRef, cmd: Cmd)
    requires at in w.work && w.work[at] == Given
    requires at in w.awaiting || (cmd.ReplyCmd? && Posted(at, cmd.data) in w.posted && Posted(at, cmd.data) in w.given)
    ensures SlotOk(w, at, Q.Slot(false, [], None))
    ensures cmd.ReplyCmd? && Posted(at, cmd.data) in w.given ==> Justified(w, at, cmd.data)
  {
  }

  /** An immediate reply with nothing outstanding. */
  lemma ImmediateOk(w: World, c: nat, data: Bytes, refused: map<M.Addr, Bytes>)
    requires WorldOk(w, {}) && c in w.clients && w.clients[c].queue == [] && w.clients[c].accum == []
    ensures var w' := Accept(w, c, ReplyCmd(data), refused);
            WorldOk(w', {}) && w'.clients == w.clients[c := Q.Immediate(w.clients[c], data)]
    ensures Q.Immediate(w.clients[c], data).accum == []
  {
    hide M.Inv, Q.Inv, SlotOk, Same, Justified;
    var cl := w.clients[c];
    var cl' := Q.Immediate(cl, data);
    var w' := Accept(w, c, ReplyCmd(data), refused);
    Q.ImmediateInv(cl, data);
    OneClient(w, w', c, cl');
  }

  /** Only client `c` changed, and its slots did not. */
  lemma OneClient(w: World, w': World, c: nat, cl': Q.Client)
    requires WorldOk(w, {}) && c in w.clients && Allocated(w.clients[c]) <= Allocated(cl')
    requires w' == w.(clients := w.clients[c := cl'])
    requires Q.Inv(cl') && cl'.offers == w.clients[c].offers
    requires forall abs: nat | Q.InQueue(cl', abs) ::
               Q.InQueue(w.clients[c], abs) && cl'.queue[abs - cl'.base] == w.clients[c].queue[abs - w.clients[c].base]
    ensures WorldOk(w', {})
  {
    hide M.Inv, Q.Inv, SlotOk, Same, Justified;
    forall r: SlotRef ensures Same(w, w', r) {
      MoreSame(w, w', r);
    }
    assert Extends(w, w');
    ClientKept(w, w', c, w.clients[c], {});
    ReplaceClient(w, w', c, cl');
  }

  /** Only client `c` changed, and it is in order. */
  lemma ReplaceClient(w: World, w': World, c: nat, cl': Q.Client)
    requires WorldOk(w, {}) && c in w.clients && Allocated(w.clients[c]) <= Allocated(cl')
    requires w' == w.(clients := w.clients[c := cl']) && ClientOk(w', c, cl', {})
    ensures WorldOk(w', {})
  {
    hide M.Inv, Same, Justified, ClientOk;
    forall r: SlotRef ensures Same(w, w', r) {
      MoreSame(w, w', r);
    }
    assert Extends(w, w');
    forall d | d in w.clients ensures ClientOk(w', d, w'.clients[d], {}) {
      if d != c {
        ClientKept(w, w', d, w.clients[d], {});
      }
    }
    PostedKept(w, w');
    assert forall r | r in w.work :: Known(w.clients, r);
    assert w'.clients.Keys == w.clients.Keys;
  }

  predicate Sane(cmd: Cmd) { cmd.FanCmd? ==> |cmd.parts| > 0 }

  predicate NoAccum(clients: map<nat, Q.Client>) { forall c | c in clients :: clients[c].accum == [] }

  lemma AcceptOk(w: World, c: nat, cmd: Cmd, refused: map<M.Addr, Bytes>)
    requires WorldOk(w, {}) && c in w.clients && Sane(cmd) && NoAccum(w.clients)
    ensures var w' := Accept(w, c, cmd, refused);
            WorldOk(w', {}) && w'.clients.Keys == w.clients.Keys && NoAccum(w'.clients)
  {
    hide WorldOk, Accept, Q.Immediate, Q.Alloc;
    match cmd {
      case ReplyCmd(data) =>
        if w.clients[c].queue == [] {
          ImmediateOk(w, c, data, refused);
        } else {
          GivenOk(w, c, cmd, refused);
          AllocEffect(w.clients[c], None);
        }
      case RouterCmd => GivenOk(w, c, cmd, refused); AllocEffect(w.clients[c], None);
      case RouteCmd(part) => RouteOk(w, c, part, refused); AllocEffect(w.clients[c], None);
      case FanCmd(parts, kind) =>
        FanOutOk(w, c, parts, kind, refused);
        AllocEffect(w.clients[c], Some(NewFanIn(|parts|, kind)));
    }
  }

  lemma {:induction false} AcceptAllOk(w: World, c: nat, cmds: seq<Cmd>, refused: map<M.Addr, Bytes>)
    requires WorldOk(w, {}) && NoAccum(w.clients) && forall i | 0 <= i < |cmds| :: Sane(cmds[i])
    ensures var w' := AcceptAll(w, c, cmds, refused);
            WorldOk(w', {}) && NoAccum(w'.clients)
    decreases |cmds|
  {
    hide WorldOk, Accept, NoAccum;
    if cmds != [] && c in w.clients {
      AcceptOk(w, c, cmds[0], refused);
      AcceptAllOk(Accept(w, c, cmds[0], refused), c, cmds[1..], refused);
    }
  }

  // ------------------------------------------------------- a slot gets its reply

  /** `cl'` is `cl` with slot `abs` answered, now `s`, less a prefix of the queue. */
  ghost predicate Marked(cl: Q.Client, cl': Q.Client, abs: nat, s: Q.Slot) {
    cl'.offers == cl.offers + {(abs, s.data)} && Allocated(cl') == Allocated(cl) && SlotsFrom(cl, cl', abs, s)
  }

  ghost predicate SlotsFrom(cl: Q.Client, cl': Q.Client, abs: nat, s: Q.Slot) {
    && cl.base <= cl'.base
    && forall a: nat | Q.InQueue(cl', a) ::
         Q.InQueue(cl, a) && cl'.queue[a - cl'.base] == (if a == abs then s else cl.queue[a - cl.base])
  }

  lemma DrainKeeps(cl: Q.Client, toAccum: bool)
    ensures var cl' := Q.Drain(cl, toAccum);
            && Allocated(cl') == Allocated(cl) && cl.base <= cl'.base && cl'.offers == cl.offers
            && forall a: nat | Q.InQueue(cl', a) :: Q.InQueue(cl, a) && cl'.queue[a - cl'.base] == cl.queue[a - cl.base]
  {
    hide Q.Datas, Q.ReadyPrefix;
  }

  lemma SettleMarks(cl: Q.Client, abs: nat, data: Bytes)
    requires Q.InQueue(cl, abs)
    ensures var s := cl.queue[abs - cl.base].(ready := true, data := data);
            Marked(cl, Q.Settle(cl, abs, data), abs, s) && Marked(cl, Q.FillInLoop(cl, abs, data), abs, s)
  {
    hide Q.Drain, Q.ReadyPrefix;
    var marked := Q.Mark(cl, abs, data);
    DrainKeeps(marked, true);
    DrainKeeps(marked, false);
  }

  /** The same for a fan-in slot whose last part came. */
  lemma CompleteMarks(cl: Q.Client, abs: nat, data: Bytes)
    requires Q.InQueue(cl, abs)
    ensures Marked(cl, Q.Settle(Q.SetFanIn(cl, abs, None), abs, data), abs,
                   cl.queue[abs - cl.base].(ready := true, data := data, fanIn := None))
  {
    hide Q.Settle, Q.FillInLoop;
    var mid := Q.SetFanIn(cl, abs, None);
    assert mid.base == cl.base && |mid.queue| == |cl.queue|;
    assert forall a: nat | Q.InQueue(cl, a) && a != abs :: mid.queue[a - mid.base] == cl.queue[a - cl.base];
    SettleMarks(mid, abs, data);
  }

  /** SlotOk asks less of a ready slot. */
  lemma ReadyOk(w: World, at: SlotRef, s: Q.Slot, data: Bytes)
    requires SlotOk(w, at, s)
    ensures SlotOk(w, at, s.(ready := true, data := data))
  {
    hide Pursued, HasPost, FanOk, ME.AnswerOf;
  }

  lemma MarkedOk(w: World, w': World, c: nat, cl: Q.Client, cl': Q.Client, abs: nat, s: Q.Slot)
    requires Extends(w, w') && ClientOk(w, c, cl, {}) && Q.Inv(cl') && Marked(cl, cl', abs, s)
    requires Justified(w', SlotRef(c, abs), s.data) && SlotOk(w', SlotRef(c, abs), s)
    requires forall a: nat | Q.InQueue(cl, a) && a != abs :: Same(w, w', SlotRef(c, a))
    ensures ClientOk(w', c, cl', {})
  {
    hide Justified, SlotOk, Extends, Same, Q.Inv;
    forall a: nat | Q.InQueue(cl', a) ensures SlotOk(w', SlotRef(c, a), cl'.queue[a - cl'.base]) {
      if a != abs {
        SlotKept(w, w', SlotRef(c, a), cl.queue[a - cl.base]);
      }
    }
    forall a: nat, d: Bytes | (a, d) in cl'.offers ensures Justified(w', SlotRef(c, a), d) {
      if (a, d) in cl.offers {
        JustifiedKept(w, w', SlotRef(c, a), d);
      }
    }
  }
}
