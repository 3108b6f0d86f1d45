/** What every run of the event loop keeps. */
module SystemLaws {
  import opened Prelude
  import opened Merging
  import opened System
  import M = Mux
  import ME = MuxEffects
  import Q = ReplyQueue

  // ----------------------------------------------------------------- what is kept

  function PartKey(at: SlotRef, i: nat): M.Key { M.Key(at.client, at.slot, Some(i)) }

  function PlainKey(at: SlotRef): M.Key { M.Key(at.client, at.slot, None) }

  /** The answers to the parts of a slot, as far as they came. */
  ghost function Parts(loc: map<M.Key, M.Loc>, at: SlotRef, n: nat): (r: seq<Option<Bytes>>)
    ensures |r| == n && forall i | 0 <= i < n :: r[i] == ME.AnswerOf(loc, PartKey(at, i))
  {
    seq(n, i requires 0 <= i < n => ME.AnswerOf(loc, PartKey(at, i)))
  }

  function CountSome(s: seq<Option<Bytes>>): (n: nat)
    ensures n <= |s|
  {
    if s == [] then 0 else (if s[0].Some? then 1 else 0) + CountSome(s[1..])
  }

  predicate FailedWith(loc: map<M.Key, M.Loc>, k: M.Key, d: Bytes) { k in loc && loc[k] == M.Finished(M.Failed(d)) }

  ghost predicate AllAnswered(loc: map<M.Key, M.Loc>, at: SlotRef, n: nat) {
    forall i | 0 <= i < n :: ME.AnswerOf(loc, PartKey(at, i)).Some?
  }

  /** Why `d` may be written for a slot: the proxy decided it; or it is the reply to
      the slot's request, or the error that ended it; or it is the merge of the
      replies to all its parts, or the error that ended one of them. */
  ghost predicate Justified(w: World, at: SlotRef, d: Bytes) {
    var loc := w.mux.loc;
    at in w.work &&
    match w.work[at]
    case Given => Posted(at, d) in w.given
    case Plain(_) => ME.AnswerOf(loc, PlainKey(at)) == Some(d) || FailedWith(loc, PlainKey(at), d)
    case Fan(parts, kind) =>
      var n := |parts|;
      (exists i: nat :: i < n && FailedWith(loc, PartKey(at, i), d)) ||
      (AllAnswered(loc, at, n) && d == Q.MergeReply(kind, Q.Payloads(Parts(loc, at, n))))
  }

  predicate HasPost(posted: seq<Posted>, at: SlotRef) { exists p :: p in posted && p.at == at }

  /** A request is in flight, or it was answered, or its error is about to be
      written, or its client is gone. */
  predicate Pursued(w: World, k: M.Key) {
    && k in w.mux.loc
    && (w.mux.loc[k].Finished? ==>
          match w.mux.loc[k].outcome
          case Answered(_) => true
          case Failed(_) => HasPost(w.posted, Ref(k))
          case Dropped => k.client !in w.alive)
  }

  predicate FanOk(w: World, at: SlotRef, n: nat, kind: MergeKind, fi: Q.FanIn) {
    fi.total == n && fi.kind == kind && |fi.subData| == n && fi.received == CountSome(fi.subData) < n &&
    forall i | 0 <= i < n :: fi.subData[i] == ME.AnswerOf(w.mux.loc, PartKey(at, i))
  }

  /** A slot still in the queue agrees with the work it waits for. */
  ghost predicate SlotOk(w: World, at: SlotRef, s: Q.Slot) {
    at in w.work &&
    match w.work[at]
    case Given => s.fanIn.None? && (!s.ready ==> at in w.awaiting || HasPost(w.posted, at))
    case Plain(_) =>
      s.fanIn.None? && (!s.ready ==> Pursued(w, PlainKey(at)) && ME.AnswerOf(w.mux.loc, PlainKey(at)).None?)
    case Fan(parts, kind) =>
      var n := |parts|;
      && (s.fanIn.Some? ==> FanOk(w, at, n, kind, s.fanIn.value))
      && (!s.ready ==> s.fanIn.Some? && forall i | 0 <= i < n :: Pursued(w, PartKey(at, i)))
  }

  /** Slots are checked except those of `opening`, whose requests are being sent. */
  ghost predicate ClientOk(w: World, c: nat, cl: Q.Client, opening: set<SlotRef>) {
    && Q.Inv(cl)
    && (forall abs: nat | Q.InQueue(cl, abs) && SlotRef(c, abs) !in opening ::
          SlotOk(w, SlotRef(c, abs), cl.queue[abs - cl.base]))
    && forall abs: nat, d: Bytes | (abs, d) in cl.offers :: Justified(w, SlotRef(c, abs), d)
  }

  predicate Serves(work: Work, sub: Option<nat>) {
    match work
    case Given => false
    case Plain(_) => sub.None?
    case Fan(parts, _) => sub.Some? && sub.value < |parts|
  }

  predicate Known(clients: map<nat, Q.Client>, at: SlotRef) {
    at.client in clients && at.slot < Allocated(clients[at.client])
  }

  ghost predicate Registered(w: World) {
    && w.alive <= w.clients.Keys
    && (forall r | r in w.work :: Known(w.clients, r))
    && (forall k | k in w.mux.loc :: Ref(k) in w.work && Serves(w.work[Ref(k)], k.sub))
    && w.mux.sends.Keys <= w.mux.loc.Keys
    && (forall r | r in w.awaiting :: r in w.work && w.work[r].Given?)
    && forall p | p in w.given :: p.at in w.work
  }

  ghost predicate WorldOk(w: World, opening: set<SlotRef>) {
    && M.Inv(w.mux) && w.mux.outs == []
    && Registered(w)
    && (forall c | c in w.clients :: ClientOk(w, c, w.clients[c], opening))
    && forall p | p in w.posted :: Justified(w, p.at, p.data)
  }

  /** Between two events every write buffer is empty. */
  predicate Flushed(w: World) {
    && (forall c | c in w.clients :: w.clients[c].accum == [])
    && forall a | a in w.mux.conns :: w.mux.conns[a].buf == []
  }

  ghost predicate Inv(w: World) { WorldOk(w, {}) && Flushed(w) }

  // ----------------------------------------------------------------- monotonicity

  /** What is decided stays decided. */
  ghost predicate Extends(w: World, w': World) {
    && (forall k | k in w.mux.loc && w.mux.loc[k].Finished? :: k in w'.mux.loc && w'.mux.loc[k] == w.mux.loc[k])
    && (forall r | r in w.work :: r in w'.work && w'.work[r] == w.work[r])
    && w.given <= w'.given
  }

  lemma JustifiedKept(w: World, w': World, at: SlotRef, d: Bytes)
    requires Extends(w, w') && Justified(w, at, d)
    ensures Justified(w', at, d)
  {
    hide Q.MergeReply;
    if w.work[at].Fan? {
      var n, loc, loc' := |w.work[at].parts|, w.mux.loc, w'.mux.loc;
      if i: nat :| i < n && FailedWith(loc, PartKey(at, i), d) {
        assert FailedWith(loc', PartKey(at, i), d);
      } else {
        forall i | 0 <= i < n ensures ME.AnswerOf(loc', PartKey(at, i)) == ME.AnswerOf(loc, PartKey(at, i)) {
          assert ME.AnswerOf(loc, PartKey(at, i)).Some?;
        }
        assert Parts(loc', at, n) == Parts(loc, at, n);
      }
    }
  }

  /** The step answered no request of slot `at` and lost none. */
  ghost predicate Same(w: World, w': World, at: SlotRef) {
    && (forall k: M.Key | Ref(k) == at :: ME.AnswerOf(w'.mux.loc, k) == ME.AnswerOf(w.mux.loc, k))
    && (forall k: M.Key | Ref(k) == at && Pursued(w, k) :: Pursued(w', k))
    && (HasPost(w.posted, at) || at in w.awaiting ==> HasPost(w'.posted, at) || at in w'.awaiting)
  }

  lemma SlotKept(w: World, w': World, at: SlotRef, s: Q.Slot)
    requires Extends(w, w') && Same(w, w', at) && SlotOk(w, at, s)
    ensures SlotOk(w', at, s)
  {
    hide Pursued, HasPost, ME.AnswerOf;
    assert Ref(PlainKey(at)) == at;
    if w.work[at].Fan? {
      forall i | 0 <= i < |w.work[at].parts|
        ensures ME.AnswerOf(w'.mux.loc, PartKey(at, i)) == ME.AnswerOf(w.mux.loc, PartKey(at, i))
        ensures Pursued(w, PartKey(at, i)) ==> Pursued(w', PartKey(at, i)) {
        assert Ref(PartKey(at, i)) == at;
      }
    }
  }

  /** A client the step did not touch. */
  lemma ClientKept(w: World, w': World, c: nat, cl: Q.Client, opening: set<SlotRef>)
    requires Extends(w, w') && ClientOk(w, c, cl, opening)
    requires forall abs: nat | Q.InQueue(cl, abs) && SlotRef(c, abs) !in opening :: Same(w, w', SlotRef(c, abs))
    ensures ClientOk(w', c, cl, opening)
  {
    hide Justified, SlotOk, Extends, Same, Q.Inv;
    forall abs: nat | Q.InQueue(cl, abs) && SlotRef(c, abs) !in opening
      ensures SlotOk(w', SlotRef(c, abs), cl.queue[abs - cl.base]) {
      SlotKept(w, w', SlotRef(c, abs), cl.queue[abs - cl.base]);
    }
    forall abs: nat, d: Bytes | (abs, d) in cl.offers ensures Justified(w', SlotRef(c, abs), d) {
      JustifiedKept(w, w', SlotRef(c, abs), d);
    }
  }

  lemma PostedKept(w: World, w': World)
    requires Extends(w, w') && forall p | p in w.posted :: Justified(w, p.at, p.data)
    ensures forall p | p in w.posted :: Justified(w', p.at, p.data)
  {
    hide Justified, Extends;
    forall p | p in w.posted ensures Justified(w', p.at, p.data) {
      JustifiedKept(w, w', p.at, p.data);
    }
  }

  // -------------------------------------------------- steps that answer nothing

  lemma {:induction false} NoDeliveries(clients: map<nat, Q.Client>, outs: seq<M.Output>)
    requires forall o | o in outs :: o.Post?
    ensures DeliverOuts(clients, outs) == clients
    decreases |outs|
  {
    hide Q.Deliver;
    if outs != [] {
      assert outs[0] in outs;
      NoDeliveries(clients, outs[1..]);
    }
  }

  lemma FailureJustifies(w: World, k: M.Key, d: Bytes)
    requires FailedWith(w.mux.loc, k, d) && Ref(k) in w.work && Serves(w.work[Ref(k)], k.sub)
    ensures Justified(w, Ref(k), d)
  {
    hide Q.MergeReply, AllAnswered;
    if k.sub.Some? {
      assert FailedWith(w.mux.loc, PartKey(Ref(k), k.sub.value), d);
    }
  }

  lemma {:induction false} PostedHas(outs: seq<M.Output>, o: M.Output)
    requires o in outs && o.Post?
    ensures Posted(Ref(o.key), o.data) in PostedBy(outs)
  {
    if o != outs[0] {
      assert outs == [outs[0]] + outs[1..];
      PostedHas(outs[1..], o);
    }
  }

  lemma {:induction false} PostedFrom(outs: seq<M.Output>, p: Posted) returns (o: M.Output)
    requires p in PostedBy(outs)
    ensures o in outs && o.Post? && p == Posted(Ref(o.key), o.data)
  {
    if outs[0].Post? && p == Posted(Ref(outs[0].key), outs[0].data) {
      o := outs[0];
    } else {
      o := PostedFrom(outs[1..], p);
    }
  }

  lemma QuietSame(w: World, m': M.Mux, ks: set<M.Key>, at: SlotRef)
    requires w.mux.outs == [] && ME.Quiet(w.mux, m', ks, w.alive)
    requires forall k | k in ks :: Ref(k) != at
    ensures Same(w, Absorb(w, m'), at)
  {
    hide DeliverOuts, PostedBy;
    var w' := Absorb(w, m');
    assert m'.outs[0..] == m'.outs;
    forall k: M.Key | Ref(k) == at ensures ME.AnswerOf(w'.mux.loc, k) == ME.AnswerOf(w.mux.loc, k) {
      assert k in m'.loc ==> k in w.mux.loc;
    }
    forall k: M.Key | Ref(k) == at && Pursued(w, k) ensures Pursued(w', k) {
      if ME.HasFailed(m'.loc, k) && !w.mux.loc[k].Finished? {
        PostedHas(m'.outs, M.Post(k, m'.loc[k].outcome.data));
        assert Posted(at, m'.loc[k].outcome.data) in w'.posted;
      }
    }
  }

  lemma QuietPosts(w: World, m': M.Mux, ks: set<M.Key>)
    requires w.mux.outs == [] && ME.Quiet(w.mux, m', ks, w.alive)
    requires forall k | k in m'.loc :: Ref(k) in w.work && Serves(w.work[Ref(k)], k.sub)
    ensures forall p | p in PostedBy(m'.outs) :: Justified(Absorb(w, m'), p.at, p.data)
  {
    hide Justified, DeliverOuts, PostedBy;
    var w' := Absorb(w, m');
    assert m'.outs[0..] == m'.outs;
    forall p | p in PostedBy(m'.outs) ensures Justified(w', p.at, p.data) {
      var o := PostedFrom(m'.outs, p);
      assert ME.PostOk(m'.loc, o);
      FailureJustifies(w', o.key, o.data);
    }
  }

  /** New requests belong to slots being opened. */
  ghost predicate Opens(w: World, ks: set<M.Key>, opening: set<SlotRef>) {
    forall k | k in ks :: Ref(k) in opening && Ref(k) in w.work && Serves(w.work[Ref(k)], k.sub)
  }

  lemma QuietStep(w: World, m': M.Mux, ks: set<M.Key>, opening: set<SlotRef>)
    requires WorldOk(w, opening) && M.Inv(m') && ME.Quiet(w.mux, m', ks, w.alive) && Opens(w, ks, opening)
    requires m'.sends.Keys <= m'.loc.Keys
    ensures WorldOk(Absorb(w, m'), opening)
    ensures Absorb(w, m').clients == w.clients && Absorb(w, m').posted == w.posted + PostedBy(m'.outs)
  {
    hide M.Inv, ClientOk, Justified, Same;
    var w' := Absorb(w, m');
    InvWithoutOuts(m');
    assert m'.outs[|w.mux.outs|..] == m'.outs;
    assert forall o | o in m'.outs :: ME.PostOk(m'.loc, o);
    NoDeliveries(w.clients, m'.outs);
    assert Extends(w, w');
    QuietRegistered(w, m', ks, opening);
    forall c | c in w.clients ensures ClientOk(w', c, w.clients[c], opening) {
      forall abs: nat | Q.InQueue(w.clients[c], abs) && SlotRef(c, abs) !in opening ensures Same(w, w', SlotRef(c, abs)) {
        QuietSame(w, m', ks, SlotRef(c, abs));
      }
      ClientKept(w, w', c, w.clients[c], opening);
    }
    PostedKept(w, w');
    QuietPosts(w, m', ks);
    forall p | p in w'.posted ensures Justified(w', p.at, p.data) {
      assert p in w.posted || p in PostedBy(m'.outs);
    }
  }

  lemma InvWithoutOuts(m: M.Mux)
    requires M.Inv(m)
    ensures M.Inv(m.(outs := []))
  {
    hide M.Holds, M.Bounded, M.Aligned, M.Waiting, M.Buffered;
  }

  lemma QuietRegistered(w: World, m': M.Mux, ks: set<M.Key>, opening: set<SlotRef>)
    requires Registered(w) && ME.Quiet(w.mux, m', ks, w.alive) && Opens(w, ks, opening)
    requires m'.sends.Keys <= m'.loc.Keys && DeliverOuts(w.clients, m'.outs) == w.clients
    ensures Registered(Absorb(w, m'))
    ensures forall k | k in m'.loc :: Ref(k) in w.work && Serves(w.work[Ref(k)], k.sub)
  {
    hide DeliverOuts, Known;
    forall k | k in m'.loc ensures Ref(k) in w.work && Serves(w.work[Ref(k)], k.sub) {
      assert k in w.mux.loc || k in ks;
    }
  }

  // ----------------------------------------------------------- opening a slot

  lemma ClaimOk(w: World, c: nat, fanIn: Option<Q.FanIn>, work: Work)
    requires WorldOk(w, {}) && c in w.clients
    ensures WorldOk(Claim(w, c, fanIn, work), {SlotRef(c, Allocated(w.clients[c]))})
  {
    hide M.Inv, ClientOk, Justified, Same, Q.Alloc;
    var w', at := Claim(w, c, fanIn, work), SlotRef(c, Allocated(w.clients[c]));
    AllocEffect(w.clients[c], fanIn);
    assert at !in w.work by { assert !Known(w.clients, at); }
    assert Extends(w, w');
    assert forall r | r in w'.work :: Known(w'.clients, r) by {
      assert forall r | r in w.work :: Known(w.clients, r);
    }
    forall d | d in w'.clients ensures ClientOk(w', d, w'.clients[d], {at}) {
      ClaimClient(w, w', c, fanIn, d);
    }
    PostedKept(w, w');
  }

  lemma AllocEffect(cl: Q.Client, fanIn: Option<Q.FanIn>)
    ensures var cl' := Q.Alloc(cl, fanIn);
            && Allocated(cl') == Allocated(cl) + 1 && cl'.offers == cl.offers && cl'.accum == cl.accum && cl'.base == cl.base
            && cl'.queue == cl.queue + [Q.Slot(false, [], fanIn)]
  {
  }

  lemma ClaimClient(w: World, w': World, c: nat, fanIn: Option<Q.FanIn>, d: nat)
    requires c in w.clients && d in w.clients && ClientOk(w, d, w.clients[d], {}) && Extends(w, w')
    requires w'.clients == w.clients[c := Q.Alloc(w.clients[c], fanIn)]
    requires w'.mux == w.mux && w'.posted == w.posted && w'.awaiting == w.awaiting && w'.alive == w.alive
    ensures ClientOk(w', d, w'.clients[d], {SlotRef(c, Allocated(w.clients[c]))})
  {
    hide Justified, SlotOk, Q.Alloc, Q.Inv;
    ClientKept(w, w', d, w.clients[d], {});
    if d == c {
      Q.AllocInv(w.clients[c], fanIn);
      AllocEffect(w.clients[c], fanIn);
    }
  }

  /** The slot that was being opened is in order. */
  lemma OpenedOk(w: World, c: nat)
    requires c in w.clients && w.clients[c].queue != []
    requires WorldOk(w, {SlotRef(c, Allocated(w.clients[c]) - 1)})
    requires SlotOk(w, SlotRef(c, Allocated(w.clients[c]) - 1), w.clients[c].queue[|w.clients[c].queue| - 1])
    ensures WorldOk(w, {})
  {
    hide M.Inv, SlotOk, Justified, Registered, Q.Inv;
    var at := SlotRef(c, Allocated(w.clients[c]) - 1);
    forall d | d in w.clients ensures ClientOk(w, d, w.clients[d], {}) {
      assert ClientOk(w, d, w.clients[d], {at});
    }
  }
}
