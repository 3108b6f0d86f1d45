/** Replies reach their slots: backend traffic and posted fills. */
module SystemReplies {
  import opened Prelude
  import opened Framing
  import opened Merging
  import opened System
  import opened SystemLaws
  import opened SystemSteps
  import M = Mux
  import ML = MuxLaws
  import ME = MuxEffects
  import Q = ReplyQueue

  // ------------------------------------------------------------------- counting

  lemma {:induction false} CountUpdate(s: seq<Option<Bytes>>, i: nat, d: Bytes)
    requires i < |s| && s[i].None?
    ensures CountSome(s[i := Some(d)]) == CountSome(s) + 1
  {
    if i > 0 {
      assert s[i := Some(d)][1..] == s[1..][i - 1 := Some(d)];
      CountUpdate(s[1..], i - 1, d);
    } else {
      assert s[i := Some(d)][1..] == s[1..];
    }
  }

  lemma {:induction false} CountFull(s: seq<Option<Bytes>>)
    ensures CountSome(s) == |s| <==> forall i | 0 <= i < |s| :: s[i].Some?
  {
    if s != [] {
      CountFull(s[1..]);
      assert forall i | 0 < i < |s| :: s[i] == s[1..][i - 1];
      assert forall i | 0 <= i < |s| - 1 :: s[1..][i] == s[i + 1];
    }
  }

  // -------------------------------------------------------------- one answer

  /** The step that answers request `k`. */
  ghost predicate Answering(w: World, w': World, k: M.Key, d: Bytes) {
    && k in w.mux.loc && !w.mux.loc[k].Finished?
    && w'.mux.loc == w.mux.loc[k := M.Finished(M.Answered(d))]
    && w'.work == w.work && w'.given == w.given && w'.posted == w.posted && w'.awaiting == w.awaiting && w'.alive == w.alive
  }

  lemma AnsweringSame(w: World, w': World, k: M.Key, d: Bytes, at: SlotRef)
    requires Answering(w, w', k, d) && at != Ref(k)
    ensures Same(w, w', at)
  {
  }

  /** The parts of a slot after one more answer. */
  lemma PartAnswered(w: World, w': World, at: SlotRef, i: nat, d: Bytes, n: nat, kind: MergeKind, fi: Q.FanIn)
    requires Answering(w, w', PartKey(at, i), d) && i < n && FanOk(w, at, n, kind, fi)
    ensures var fi' := Q.Receive(fi, i, d);
            && fi'.total == n && fi'.kind == kind && |fi'.subData| == n && fi'.received == CountSome(fi'.subData)
            && fi'.subData == Parts(w'.mux.loc, at, n)
  {
    hide CountSome, Pursued;
    CountUpdate(fi.subData, i, d);
  }

  lemma PartialOk(w: World, w': World, at: SlotRef, i: nat, d: Bytes, s: Q.Slot)
    requires Answering(w, w', PartKey(at, i), d) && SlotOk(w, at, s) && s.fanIn.Some?
    requires at in w.work && w.work[at].Fan? && i < |w.work[at].parts|
    requires Q.Receive(s.fanIn.value, i, d).received < s.fanIn.value.total
    ensures SlotOk(w', at, s.(fanIn := Some(Q.Receive(s.fanIn.value, i, d))))
  {
    hide CountSome;
    var n := |w.work[at].parts|;
    PartAnswered(w, w', at, i, d, n, w.work[at].kind, s.fanIn.value);
    forall j | 0 <= j < n && Pursued(w, PartKey(at, j)) ensures Pursued(w', PartKey(at, j)) {
    }
  }

  /** The last part came: the merged reply is the one the slot asks for. */
  lemma MergedJustified(w: World, w': World, at: SlotRef, i: nat, d: Bytes, s: Q.Slot)
    requires Answering(w, w', PartKey(at, i), d) && SlotOk(w, at, s) && s.fanIn.Some?
    requires at in w.work && w.work[at].Fan? && i < |w.work[at].parts|
    requires Q.Receive(s.fanIn.value, i, d).received >= s.fanIn.value.total
    ensures var fi := Q.Receive(s.fanIn.value, i, d);
            Justified(w', at, Q.MergeReply(fi.kind, Q.Payloads(fi.subData)))
  {
    hide Q.MergeReply, CountSome, Pursued, Q.Payloads;
    var n, fi := |w.work[at].parts|, Q.Receive(s.fanIn.value, i, d);
    PartAnswered(w, w', at, i, d, n, w.work[at].kind, s.fanIn.value);
    CountFull(fi.subData);
    assert AllAnswered(w'.mux.loc, at, n);
  }

  /** A whole reply marks its slot, or finds it gone. */
  lemma WholeOk(w: World, w': World, at: SlotRef, d: Bytes, cl: Q.Client)
    requires Answering(w, w', PlainKey(at), d) && ClientOk(w, at.client, cl, {})
    requires at in w.work && w.work[at].Plain?
    ensures ClientOk(w', at.client, Q.Accumulate(cl, at.slot, d), {}) && Allocated(Q.Accumulate(cl, at.slot, d)) == Allocated(cl)
  {
    hide Q.Settle, Q.Inv, Same, Pursued, Justified, SlotsFrom;
    var c, abs := at.client, at.slot;
    OtherSlots(w, w', PlainKey(at), d);
    if Q.InQueue(cl, abs) {
      var s := cl.queue[abs - cl.base];
      assert SlotOk(w, at, s);
      assert Justified(w', at, d) by { JustifyPlain(w', at, d); }
      SettleMarks(cl, abs, d);
      Q.SettleInv(cl, abs, d);
      MarkedOk(w, w', c, cl, Q.Settle(cl, abs, d), abs, s.(ready := true, data := d));
    } else {
      ClientKept(w, w', c, cl, {});
    }
  }

  lemma JustifyPlain(w: World, at: SlotRef, d: Bytes)
    requires at in w.work && w.work[at].Plain? && ME.AnswerOf(w.mux.loc, PlainKey(at)) == Some(d)
    ensures Justified(w, at, d)
  {
  }

  lemma OtherSlots(w: World, w': World, k: M.Key, d: Bytes)
    requires Answering(w, w', k, d)
    ensures Extends(w, w')
    ensures forall c: nat, a: nat | SlotRef(c, a) != Ref(k) :: Same(w, w', SlotRef(c, a))
  {
    hide Same;
    forall c: nat, a: nat | SlotRef(c, a) != Ref(k) ensures Same(w, w', SlotRef(c, a)) {
      AnsweringSame(w, w', k, d, SlotRef(c, a));
    }
  }

  /** A part is stored, or completes the slot, or finds it gone. */
  lemma PartOk(w: World, w': World, at: SlotRef, i: nat, d: Bytes, cl: Q.Client)
    requires Answering(w, w', PartKey(at, i), d) && ClientOk(w, at.client, cl, {})
    requires at in w.work && w.work[at].Fan? && i < |w.work[at].parts|
    ensures var cl' := Q.AccumulateSub(cl, at.slot, i, d);
            ClientOk(w', at.client, cl', {}) && Allocated(cl') == Allocated(cl)
  {
    hide Q.Settle, Q.Inv, Q.SetFanIn, Same, Pursued, Justified, Q.MergeReply, Q.Payloads, Extends;
    var c, abs := at.client, at.slot;
    OtherSlots(w, w', PartKey(at, i), d);
    if !Q.InQueue(cl, abs) {
      ClientKept(w, w', c, cl, {});
    } else {
      var s := cl.queue[abs - cl.base];
      assert SlotOk(w, at, s);
      if s.fanIn.None? {
        UnaskedOk(w, w', at, i, d, cl);
      } else {
        var fi := Q.Receive(s.fanIn.value, i, d);
        if fi.received < fi.total {
          StoredOk(w, w', at, i, d, cl);
        } else {
          CompletedOk(w, w', at, i, d, cl);
        }
      }
    }
  }

  /** The slot was already answered with an error. */
  lemma UnaskedOk(w: World, w': World, at: SlotRef, i: nat, d: Bytes, cl: Q.Client)
    requires Answering(w, w', PartKey(at, i), d) && ClientOk(w, at.client, cl, {})
    requires at in w.work && w.work[at].Fan? && Q.InQueue(cl, at.slot) && cl.queue[at.slot - cl.base].fanIn.None?
    ensures ClientOk(w', at.client, cl, {})
  {
    hide Q.Inv, Same, Pursued, Justified, Extends;
    OtherSlots(w, w', PartKey(at, i), d);
    assert cl.queue[at.slot - cl.base := cl.queue[at.slot - cl.base]] == cl.queue;
    SlotsOk(w, w', at, cl, cl.queue[at.slot - cl.base]);
  }

  /** Client `cl` with slot `at` replaced by `s`, everything else unchanged. */
  lemma SlotsOk(w: World, w': World, at: SlotRef, cl: Q.Client, s: Q.Slot)
    requires Extends(w, w') && ClientOk(w, at.client, cl, {}) && Q.InQueue(cl, at.slot)
    requires forall c: nat, a: nat | SlotRef(c, a) != at :: Same(w, w', SlotRef(c, a))
    requires SlotOk(w', at, s)
    requires Q.Inv(cl.(queue := cl.queue[at.slot - cl.base := s]))
    ensures ClientOk(w', at.client, cl.(queue := cl.queue[at.slot - cl.base := s]), {})
  {
    hide Q.Inv, Same, SlotOk, Justified, Extends;
    var c, cl' := at.client, cl.(queue := cl.queue[at.slot - cl.base := s]);
    forall a: nat | Q.InQueue(cl', a) ensures SlotOk(w', SlotRef(c, a), cl'.queue[a - cl'.base]) {
      if a != at.slot {
        SlotKept(w, w', SlotRef(c, a), cl.queue[a - cl.base]);
      }
    }
    forall a: nat, e: Bytes | (a, e) in cl'.offers ensures Justified(w', SlotRef(c, a), e) {
      JustifiedKept(w, w', SlotRef(c, a), e);
    }
  }

  lemma StoredOk(w: World, w': World, at: SlotRef, i: nat, d: Bytes, cl: Q.Client)
    requires Answering(w, w', PartKey(at, i), d) && ClientOk(w, at.client, cl, {})
    requires at in w.work && w.work[at].Fan? && i < |w.work[at].parts|
    requires Q.InQueue(cl, at.slot) && cl.queue[at.slot - cl.base].fanIn.Some?
    requires i < |cl.queue[at.slot - cl.base].fanIn.value.subData|
    requires var fi := Q.Receive(cl.queue[at.slot - cl.base].fanIn.value, i, d); fi.received < fi.total
    ensures var fi := Q.Receive(cl.queue[at.slot - cl.base].fanIn.value, i, d);
            var cl' := Q.SetFanIn(cl, at.slot, Some(fi));
            ClientOk(w', at.client, cl', {}) && Allocated(cl') == Allocated(cl)
  {
    hide Q.Inv, Same, Pursued, Justified, Extends;
    var s := cl.queue[at.slot - cl.base];
    var fi := Q.Receive(s.fanIn.value, i, d);
    OtherSlots(w, w', PartKey(at, i), d);
    PartialOk(w, w', at, i, d, s);
    Q.SetFanInInv(cl, at.slot, Some(fi));
    SlotsOk(w, w', at, cl, s.(fanIn := Some(fi)));
  }

  lemma CompletedOk(w: World, w': World, at: SlotRef, i: nat, d: Bytes, cl: Q.Client)
    requires Answering(w, w', PartKey(at, i), d) && ClientOk(w, at.client, cl, {})
    requires at in w.work && w.work[at].Fan? && i < |w.work[at].parts|
    requires Q.InQueue(cl, at.slot) && cl.queue[at.slot - cl.base].fanIn.Some?
    requires i < |cl.queue[at.slot - cl.base].fanIn.value.subData|
    requires var fi := Q.Receive(cl.queue[at.slot - cl.base].fanIn.value, i, d); fi.received >= fi.total
    ensures var fi := Q.Receive(cl.queue[at.slot - cl.base].fanIn.value, i, d);
            var cl' := Q.Settle(Q.SetFanIn(cl, at.slot, None), at.slot, Q.MergeReply(fi.kind, Q.Payloads(fi.subData)));
            ClientOk(w', at.client, cl', {}) && Allocated(cl') == Allocated(cl)
  {
    hide Q.Settle, Q.Inv, Same, Pursued, Justified, Extends, Q.MergeReply, Q.Payloads, SlotsFrom;
    var s, abs := cl.queue[at.slot - cl.base], at.slot;
    var fi := Q.Receive(s.fanIn.value, i, d);
    var data := Q.MergeReply(fi.kind, Q.Payloads(fi.subData));
    var cl' := Q.Settle(Q.SetFanIn(cl, abs, None), abs, data);
    assert SlotOk(w, at, s);
    OtherSlots(w, w', PartKey(at, i), d);
    MergedJustified(w, w', at, i, d, s);
    Q.SetFanInInv(cl, abs, None);
    Q.SettleInv(Q.SetFanIn(cl, abs, None), abs, data);
    CompleteMarks(cl, abs, data);
    MarkedOk(w, w', at.client, cl, cl', abs, s.(ready := true, data := data, fanIn := None));
  }

  // ------------------------------------------------------------ backend traffic

  lemma AnswerStep(w: World, m': M.Mux, k: M.Key, d: Bytes)
    requires WorldOk(w, {}) && M.Inv(m') && ME.AnswersNow(w.mux, m', k, d) && m'.sends.Keys <= m'.loc.Keys
    ensures WorldOk(Absorb(w, m'), {})
  {
    hide M.Inv, ClientOk, Justified, Same, Extends, Q.Deliver, DeliverOuts, PostedBy;
    var w', at := Absorb(w, m'), Ref(k);
    InvWithoutOuts(m');
    assert at in w.work && Known(w.clients, at) && Serves(w.work[at], k.sub);
    var cl := w.clients[at.client];
    var cl' := Q.Deliver(cl, DeliveryFor(k, d));
    assert m'.outs == [M.DeliverTo(k, d)];
    OneDelivery(w.clients, k, d);
    assert w'.clients == w.clients[at.client := cl'] && w'.posted == w.posted;
    assert Answering(w, w', k, d);
    OtherSlots(w, w', k, d);
    DeliveredOk(w, w', k, d, cl);
    OthersKept(w, w', k, d);
    PostedKept(w, w');
    assert Registered(w') by { AnsweredRegistered(w, w', k, d, cl'); }
  }

  lemma OthersKept(w: World, w': World, k: M.Key, d: Bytes)
    requires Answering(w, w', k, d) && forall c | c in w.clients :: ClientOk(w, c, w.clients[c], {})
    ensures forall c | c in w.clients && c != k.client :: ClientOk(w', c, w.clients[c], {})
  {
    hide ClientOk, Same, Extends;
    OtherSlots(w, w', k, d);
    forall c | c in w.clients && c != k.client ensures ClientOk(w', c, w.clients[c], {}) {
      ClientKept(w, w', c, w.clients[c], {});
    }
  }

  lemma AnsweredRegistered(w: World, w': World, k: M.Key, d: Bytes, cl': Q.Client)
    requires Registered(w) && Answering(w, w', k, d) && k.client in w.clients && w'.mux.sends.Keys <= w'.mux.loc.Keys
    requires w'.clients == w.clients[k.client := cl'] && Allocated(cl') == Allocated(w.clients[k.client])
    ensures Registered(w')
  {
    assert forall r | r in w.work :: Known(w.clients, r);
    assert w'.mux.loc.Keys == w.mux.loc.Keys;
  }

  lemma OneDelivery(clients: map<nat, Q.Client>, k: M.Key, d: Bytes)
    requires k.client in clients
    ensures DeliverOuts(clients, [M.DeliverTo(k, d)]) ==
            clients[k.client := Q.Deliver(clients[k.client], DeliveryFor(k, d))]
    ensures PostedBy([M.DeliverTo(k, d)]) == []
  {
    hide Q.Deliver;
    var outs := [M.DeliverTo(k, d)];
    assert outs[1..] == [];
  }

  lemma DeliveredOk(w: World, w': World, k: M.Key, d: Bytes, cl: Q.Client)
    requires Answering(w, w', k, d) && ClientOk(w, k.client, cl, {})
    requires Ref(k) in w.work && Serves(w.work[Ref(k)], k.sub)
    ensures var cl' := Q.Deliver(cl, DeliveryFor(k, d));
            ClientOk(w', k.client, cl', {}) && Allocated(cl') == Allocated(cl)
  {
    hide ClientOk, Q.Accumulate, Q.AccumulateSub, Answering;
    if k.sub.Some? {
      assert k == PartKey(Ref(k), k.sub.value);
      PartOk(w, w', Ref(k), k.sub.value, d, cl);
    } else {
      assert k == PlainKey(Ref(k));
      WholeOk(w, w', Ref(k), d, cl);
    }
  }

  lemma {:induction false} HearAllOk(w: World, addr: M.Addr, replies: seq<Reply>, refused: map<M.Addr, Bytes>)
    requires WorldOk(w, {})
    ensures WorldOk(HearAll(w, addr, replies, refused), {})
    decreases |replies|
  {
    hide WorldOk, M.OnReply, Absorb;
    if replies != [] {
      HearOk(w, addr, replies[0], refused);
      HearAllOk(Absorb(w, M.OnReply(w.mux, M.Env(w.alive, refused), addr, replies[0])), addr, replies[1..], refused);
    }
  }

  lemma HearOk(w: World, addr: M.Addr, r: Reply, refused: map<M.Addr, Bytes>)
    requires WorldOk(w, {})
    ensures WorldOk(Absorb(w, M.OnReply(w.mux, M.Env(w.alive, refused), addr, r)), {})
  {
    hide M.OnReply, Absorb, M.Inv, ClientOk, Justified;
    var env := M.Env(w.alive, refused);
    var m' := M.OnReply(w.mux, env, addr, r);
    ML.OnReplyInv(w.mux, env, addr, r);
    ME.OnReplyOutcome(w.mux, env, addr, r);
    ME.OnReplySends(w.mux, env, addr, r);
    if ME.Quiet(w.mux, m', {}, w.alive) {
      QuietStep(w, m', {}, {});
    } else {
      var k: M.Key :| ME.AnswersNow(w.mux, m', k, r.raw);
      AnswerStep(w, m', k, r.raw);
    }
  }

  /** Writing out every accumulator changes no queue. */
  lemma FlushOk(w: World)
    requires WorldOk(w, {})
    ensures var w' := w.(clients := FlushClients(w.clients));
            WorldOk(w', {}) && NoAccum(w'.clients)
  {
    hide M.Inv, Justified, SlotOk, Same, Q.Inv;
    var w' := w.(clients := FlushClients(w.clients));
    assert Extends(w, w');
    forall c | c in w'.clients ensures ClientOk(w', c, w'.clients[c], {}) {
      forall abs: nat | Q.InQueue(w.clients[c], abs) ensures Same(w, w', SlotRef(c, abs)) {
        MoreSame(w, w', SlotRef(c, abs));
      }
      ClientKept(w, w', c, w.clients[c], {});
      Q.FlushInv(w.clients[c]);
    }
    PostedKept(w, w');
    assert forall r | r in w.work :: Known(w.clients, r);
  }

  // ---------------------------------------------------------------- posted fills

  /** A posted fill runs: its slot becomes ready, or was already gone. */
  lemma FillOk(w: World, p: Posted)
    requires WorldOk(w, {}) && p in w.posted && NoAccum(w.clients)
    ensures p.at.client in w.clients
    ensures var cl' := Q.FillInLoop(w.clients[p.at.client], p.at.slot, p.data);
            && WorldOk(w.(clients := w.clients[p.at.client := cl']), {}) && cl'.accum == []
            && (Q.InQueue(cl', p.at.slot) ==> cl'.queue[p.at.slot - cl'.base].ready)
  {
    hide M.Inv, Q.FillInLoop, Q.Inv, Same, Justified, ClientOk;
    assert Justified(w, p.at, p.data);
    JustifiedWork(w, p.at, p.data);
    assert Known(w.clients, p.at);
    var c, abs := p.at.client, p.at.slot;
    var cl := w.clients[c];
    var cl' := Q.FillInLoop(cl, abs, p.data);
    var w' := w.(clients := w.clients[c := cl']);
    assert Q.Inv(cl) by { ClientInv(w, c, cl); }
    Q.FillInv(cl, abs, p.data);
    if !Q.InQueue(cl, abs) {
      FillMiss(cl, abs, p.data);
      assert w' == w;
    } else {
      SettleMarks(cl, abs, p.data);
      forall r: SlotRef ensures Same(w, w', r) {
        MoreSame(w, w', r);
      }
      PostedKept(w, w');
      FilledOk(w, w', p, cl, cl');
      ReplaceClient(w, w', c, cl');
    }
  }

  lemma ClientInv(w: World, c: nat, cl: Q.Client)
    requires ClientOk(w, c, cl, {})
    ensures Q.Inv(cl)
  {
    hide Q.Inv, SlotOk, Justified;
  }

  lemma FilledOk(w: World, w': World, p: Posted, cl: Q.Client, cl': Q.Client)
    requires ClientOk(w, p.at.client, cl, {}) && Q.InQueue(cl, p.at.slot) && Q.Inv(cl')
    requires Marked(cl, cl', p.at.slot, cl.queue[p.at.slot - cl.base].(ready := true, data := p.data))
    requires Extends(w, w') && Justified(w', p.at, p.data)
    requires forall r: SlotRef :: Same(w, w', r)
    ensures ClientOk(w', p.at.client, cl', {})
  {
    hide Q.Inv, SlotOk, Same, Justified, Extends, Marked;
    var s := cl.queue[p.at.slot - cl.base];
    assert SlotRef(p.at.client, p.at.slot) == p.at;
    SlotKept(w, w', p.at, s);
    ReadyOk(w', p.at, s, p.data);
    MarkedOk(w, w', p.at.client, cl, cl', p.at.slot, s.(ready := true, data := p.data));
  }

  lemma FillMiss(cl: Q.Client, abs: nat, data: Bytes)
    requires !Q.InQueue(cl, abs)
    ensures Q.FillInLoop(cl, abs, data) == cl
  {
  }

  lemma JustifiedWork(w: World, at: SlotRef, d: Bytes)
    requires Justified(w, at, d)
    ensures at in w.work
  {
  }

  /** Once its slot is ready or gone, a posted fill is no longer needed. */
  lemma RemoveOk(w: World, i: nat)
    requires WorldOk(w, {}) && i < |w.posted| && w.posted[i].at.client in w.clients
    requires var at := w.posted[i].at; var cl := w.clients[at.client];
             Q.InQueue(cl, at.slot) ==> cl.queue[at.slot - cl.base].ready
    ensures WorldOk(w.(posted := Without(w.posted, i)), {})
  {
    hide M.Inv, Q.Inv, Same, Justified, SlotOk;
    var at, w' := w.posted[i].at, w.(posted := Without(w.posted, i));
    assert Extends(w, w');
    forall c | c in w.clients ensures ClientOk(w', c, w.clients[c], {}) {
      RemoveClient(w, i, c);
    }
    PostedKept(w, w');
  }

  lemma RemoveClient(w: World, i: nat, c: nat)
    requires i < |w.posted| && c in w.clients && ClientOk(w, c, w.clients[c], {})
    requires var at := w.posted[i].at;
             at.client == c && Q.InQueue(w.clients[c], at.slot) ==> w.clients[c].queue[at.slot - w.clients[c].base].ready
    ensures ClientOk(w.(posted := Without(w.posted, i)), c, w.clients[c], {})
  {
    hide Q.Inv, Justified, SlotOk;
    var at, w', cl := w.posted[i].at, w.(posted := Without(w.posted, i)), w.clients[c];
    assert Extends(w, w');
    forall abs: nat | Q.InQueue(cl, abs) ensures SlotOk(w', SlotRef(c, abs), cl.queue[abs - cl.base]) {
      assert SlotOk(w, SlotRef(c, abs), cl.queue[abs - cl.base]);
      if SlotRef(c, abs) == at {
        ReadyAnyway(w, w', at, cl.queue[abs - cl.base]);
      } else {
        RemoveSame(w, i, SlotRef(c, abs));
        SlotKept(w, w', SlotRef(c, abs), cl.queue[abs - cl.base]);
      }
    }
    forall abs: nat, d: Bytes | (abs, d) in cl.offers ensures Justified(w', SlotRef(c, abs), d) {
      JustifiedKept(w, w', SlotRef(c, abs), d);
    }
  }

  lemma RemoveSame(w: World, i: nat, at: SlotRef)
    requires i < |w.posted| && w.posted[i].at != at
    ensures Same(w, w.(posted := Without(w.posted, i)), at)
  {
    var w' := w.(posted := Without(w.posted, i));
    if p :| p in w.posted && p.at == at {
      var j :| 0 <= j < |w.posted| && w.posted[j] == p;
      assert w.posted[j] in (if j < i then w.posted[..i] else w.posted[i + 1..]);
      assert p in w'.posted;
    }
  }

  lemma ReadyAnyway(w: World, w': World, at: SlotRef, s: Q.Slot)
    requires SlotOk(w, at, s) && s.ready && w'.mux == w.mux && w'.work == w.work
    ensures SlotOk(w', at, s)
  {
    hide CountSome, Pursued;
  }
}
