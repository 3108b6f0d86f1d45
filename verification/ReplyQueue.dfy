/**
 The ordered reply queue of one client (pkg/engine/handler.go): slots are
 allocated in command order, filled in any order by several paths, and emitted
 in command order.
 */
module ReplyQueue {
  import opened Prelude
  import opened Merging

  /** A slot that waits for several sub-replies. */
  datatype FanIn = FanIn(total: nat, received: nat, subData: seq<Option<Bytes>>, kind: MergeKind)

  datatype Slot = Slot(ready: bool, data: Bytes, fanIn: Option<FanIn>)

  /** How a command of the client is answered: at once on the socket, or through
      the slot with this absolute index. */
  datatype Origin = Direct(data: Bytes) | Queued(abs: nat)

  /** respQueue, respBase, this connection's entry of writeAccum and what was
      written to its socket; then two histories: one origin per command accepted,
      and every value ever offered for a slot. */
  datatype Client = Client(
    queue: seq<Slot>, base: nat, accum: seq<Bytes>, sent: seq<Bytes>,
    origins: seq<Origin>, offers: set<(nat, Bytes)>)

  const FRESH: Client := Client([], 0, [], [], [], {})

  // ---------------------------------------------------------------- operations

  /** How many slots at the front are ready. */
  function ReadyPrefix(q: seq<Slot>): (h: nat)
    ensures h <= |q|
    ensures forall i | 0 <= i < h :: q[i].ready
    ensures h < |q| ==> !q[h].ready
  {
    if q == [] || !q[0].ready then 0 else 1 + ReadyPrefix(q[1..])
  }

  function Datas(q: seq<Slot>): (r: seq<Bytes>)
    ensures |r| == |q| && forall i | 0 <= i < |q| :: r[i] == q[i].data
  {
    seq(|q|, i requires 0 <= i < |q| => q[i].data)
  }

  predicate InQueue(c: Client, abs: nat) { c.base <= abs < c.base + |c.queue| }

  function Alloc(c: Client, fanIn: Option<FanIn>): Client {
    c.(queue := c.queue + [Slot(false, [], fanIn)], origins := c.origins + [Queued(c.base + |c.queue|)])
  }

  /** Written through when nothing is outstanding; otherwise a slot is allocated
      and its fill is posted to the event loop. */
  function Immediate(c: Client, data: Bytes): Client {
    if c.queue == [] then c.(sent := c.sent + [data], origins := c.origins + [Direct(data)])
    else Alloc(c, None)
  }

  function Mark(c: Client, abs: nat, data: Bytes): Client
    requires InQueue(c, abs)
  {
    var rel := abs - c.base;
    c.(queue := c.queue[rel := c.queue[rel].(ready := true, data := data)], offers := c.offers + {(abs, data)})
  }

  /** Take the ready prefix off the queue, to the socket or to the accumulator. */
  function Drain(c: Client, toAccum: bool): Client {
    var h := ReadyPrefix(c.queue);
    var out := Datas(c.queue[..h]);
    c.(queue := c.queue[h..], base := c.base + h,
       sent := if toAccum then c.sent else c.sent + out,
       accum := if toAccum then c.accum + out else c.accum)
  }

  function FillInLoop(c: Client, abs: nat, data: Bytes): Client {
    if !InQueue(c, abs) then c else Drain(Mark(c, abs, data), false)
  }

  /** Mark, and drain if the slot was the first one not ready. */
  function Settle(c: Client, abs: nat, data: Bytes): Client
    requires InQueue(c, abs)
  {
    var marked := Mark(c, abs, data);
    if abs - c.base == ReadyPrefix(c.queue) then Drain(marked, true) else marked
  }

  function Accumulate(c: Client, abs: nat, data: Bytes): Client {
    if !InQueue(c, abs) || c.queue[abs - c.base].fanIn.Some? then c else Settle(c, abs, data)
  }

  function Payload(sub: Option<Bytes>): Bytes { if sub.Some? then sub.value else [] }

  function Payloads(subs: seq<Option<Bytes>>): (r: seq<Bytes>)
    ensures |r| == |subs| && forall i | 0 <= i < |subs| :: r[i] == Payload(subs[i])
  {
    seq(|subs|, i requires 0 <= i < |subs| => Payload(subs[i]))
  }

  /** The bytes the merge function returns (empty for the panic that
      Merging.ScannedNeverPanics rules out for replies off the wire). */
  function MergeReply(kind: MergeKind, subs: seq<Bytes>): Bytes {
    if Applicable(kind, subs) && Merge(kind, subs).Merged? then Merge(kind, subs).data else []
  }

  function SetFanIn(c: Client, abs: nat, fanIn: Option<FanIn>): Client
    requires InQueue(c, abs)
  {
    var rel := abs - c.base;
    c.(queue := c.queue[rel := c.queue[rel].(fanIn := fanIn)])
  }

  function Receive(fi: FanIn, sub: nat, data: Bytes): FanIn
    requires sub < |fi.subData|
  {
    fi.(received := fi.received + 1, subData := fi.subData[sub := Some(data)])
  }

  function AccumulateSub(c: Client, abs: nat, sub: nat, data: Bytes): Client {
    if !InQueue(c, abs) then c
    else
      var fanIn := c.queue[abs - c.base].fanIn;
      if fanIn.None? || sub >= |fanIn.value.subData| then c
      else
        var fi := Receive(fanIn.value, sub, data);
        if fi.received < fi.total then SetFanIn(c, abs, Some(fi))
        else Settle(SetFanIn(c, abs, None), abs, MergeReply(fi.kind, Payloads(fi.subData)))
  }

  /** The slot is there and waits for one whole reply. */
  predicate Settles(c: Client, abs: nat) { InQueue(c, abs) && c.queue[abs - c.base].fanIn.None? }

  /** The slot is there and waits for parts. */
  predicate Awaits(c: Client, abs: nat) { InQueue(c, abs) && c.queue[abs - c.base].fanIn.Some? }

  /** One more part completes it. */
  predicate LastPart(c: Client, abs: nat)
    requires Awaits(c, abs)
  {
    var fi := c.queue[abs - c.base].fanIn.value;
    fi.received + 1 >= fi.total
  }

  function Flush(c: Client): Client { c.(sent := c.sent + c.accum, accum := []) }

  // ---------------------------------------------------------------- invariant

  /** Replies that left the queue, in order. */
  function Out(c: Client): seq<Bytes> { c.sent + c.accum }

  function QueuedBefore(origins: seq<Origin>, i: nat): nat
    requires i <= |origins|
  {
    if i == 0 then 0 else QueuedBefore(origins, i - 1) + (if origins[i - 1].Queued? then 1 else 0)
  }

  /** The slot of a queued command is the number of queued commands before it. */
  predicate Numbered(origins: seq<Origin>) {
    forall i | 0 <= i < |origins| && origins[i].Queued? :: origins[i].abs == QueuedBefore(origins, i)
  }

  /** Reply number i answers command number i. */
  predicate Answers(c: Client, i: nat)
    requires i < |Out(c)| && i < |c.origins|
  {
    match c.origins[i]
    case Direct(data) => Out(c)[i] == data
    case Queued(abs) => abs < c.base && (abs, Out(c)[i]) in c.offers
  }

  /** The command after those answered so far that waits in queue position j. */
  predicate Waits(c: Client, j: nat)
    requires |c.origins| == |Out(c)| + |c.queue| && j < |c.queue|
  {
    c.origins[|Out(c)| + j] == Queued(c.base + j)
  }

  predicate Settled(c: Client) { c.queue == [] || !c.queue[0].ready }

  /** Everything but Settled. */
  predicate Ordered(c: Client) {
    && |c.origins| == |Out(c)| + |c.queue|
    && QueuedBefore(c.origins, |c.origins|) == c.base + |c.queue|
    && Numbered(c.origins)
    && (forall i | 0 <= i < |Out(c)| :: Answers(c, i))
    && (forall j | 0 <= j < |c.queue| :: Waits(c, j))
    && forall j | 0 <= j < |c.queue| && c.queue[j].ready :: (c.base + j, c.queue[j].data) in c.offers
  }

  /** What a client relies on: replies left in command order, each the answer to
      its command; the remaining commands sit in the queue in order; the number of
      slots ever allocated is base + |queue|. */
  predicate Inv(c: Client) { Ordered(c) && Settled(c) }

  // ------------------------------------------------------------- every operation

  lemma QueuedBeforeSame(a: seq<Origin>, b: seq<Origin>, i: nat)
    requires i <= |a| && i <= |b| && a[..i] == b[..i]
    ensures QueuedBefore(a, i) == QueuedBefore(b, i)
    decreases i
  {
    if i > 0 {
      assert a[..i - 1] == a[..i][..i - 1] && b[..i - 1] == b[..i][..i - 1];
      assert a[i - 1] == a[..i][i - 1] && b[i - 1] == b[..i][i - 1];
      QueuedBeforeSame(a, b, i - 1);
    }
  }

  lemma NumberedSnoc(origins: seq<Origin>, o: Origin)
    requires Numbered(origins)
    requires o.Queued? ==> o.abs == QueuedBefore(origins, |origins|)
    ensures Numbered(origins + [o])
    ensures QueuedBefore(origins + [o], |origins + [o]|) ==
            QueuedBefore(origins, |origins|) + (if o.Queued? then 1 else 0)
  {
    var all := origins + [o];
    assert all[..|origins|] == origins[..|origins|];
    QueuedBeforeSame(all, origins, |origins|);
    forall i | 0 <= i < |all| && all[i].Queued? ensures all[i].abs == QueuedBefore(all, i) {
      assert all[..i] == origins[..i];
      QueuedBeforeSame(all, origins, i);
    }
  }

  /** `b` keeps the answers and the waiting commands of `a`. */
  lemma KeepsAnswers(a: Client, b: Client)
    requires Ordered(a) && Out(a) <= Out(b) && a.origins <= b.origins && a.offers <= b.offers && a.base <= b.base
    ensures forall i | 0 <= i < |Out(a)| :: i < |b.origins| && Answers(b, i)
  {
    hide Numbered, QueuedBefore;
    forall i | 0 <= i < |Out(a)| ensures i < |b.origins| && Answers(b, i) {
      assert Answers(a, i);
      assert Out(a)[i] == Out(b)[i] && a.origins[i] == b.origins[i];
    }
  }

  lemma AllocInv(c: Client, fanIn: Option<FanIn>)
    requires Inv(c)
    ensures Inv(Alloc(c, fanIn))
  {
    hide Numbered, QueuedBefore;
    var c' := Alloc(c, fanIn);
    NumberedSnoc(c.origins, Queued(c.base + |c.queue|));
    KeepsAnswers(c, c');
    forall j | 0 <= j < |c'.queue| ensures Waits(c', j) {
      assert j < |c.queue| ==> Waits(c, j);
    }
  }

  lemma ImmediateInv(c: Client, data: Bytes)
    requires Inv(c) && c.accum == []
    ensures Inv(Immediate(c, data)) && Immediate(c, data).accum == []
  {
    hide Numbered, QueuedBefore;
    if c.queue == [] {
      var c' := Immediate(c, data);
      NumberedSnoc(c.origins, Direct(data));
      assert Out(c') == Out(c) + [data];
      KeepsAnswers(c, c');
    } else {
      AllocInv(c, None);
    }
  }

  lemma MarkOrdered(c: Client, abs: nat, data: Bytes)
    requires Ordered(c) && InQueue(c, abs)
    ensures Ordered(Mark(c, abs, data))
  {
    hide Numbered, QueuedBefore;
    var c' := Mark(c, abs, data);
    KeepsAnswers(c, c');
    forall j | 0 <= j < |c'.queue| ensures Waits(c', j) {
      assert Waits(c, j);
    }
  }

  /** Draining keeps the order as long as nothing waits behind what is written:
      to the accumulator always, to the socket when the accumulator is empty. */
  lemma DrainInv(c: Client, toAccum: bool)
    requires Ordered(c) && (!toAccum ==> c.accum == [])
    ensures Inv(Drain(c, toAccum))
  {
    hide Numbered, QueuedBefore, Answers, ReadyPrefix, Datas;
    var h, c' := ReadyPrefix(c.queue), Drain(c, toAccum);
    assert Out(c') == Out(c) + Datas(c.queue[..h]);
    KeepsAnswers(c, c');
    assert forall j | 0 <= j < |c'.queue| :: c'.queue[j] == c.queue[h + j];
    forall i | |Out(c)| <= i < |Out(c')| ensures Answers(c', i) {
      DrainAnswers(c, toAccum, i - |Out(c)|);
    }
    forall j | 0 <= j < |c'.queue| ensures Waits(c', j) {
      assert Waits(c, h + j);
    }
  }

  /** A slot that is drained answers the command that waited for it. */
  lemma DrainAnswers(c: Client, toAccum: bool, j: nat)
    requires Ordered(c) && (!toAccum ==> c.accum == []) && j < ReadyPrefix(c.queue)
    ensures var c' := Drain(c, toAccum);
            Out(c') == Out(c) + Datas(c.queue[..ReadyPrefix(c.queue)]) && Answers(c', |Out(c)| + j)
  {
    hide Numbered, QueuedBefore, ReadyPrefix, Datas;
    var c' := Drain(c, toAccum);
    assert Out(c') == Out(c) + Datas(c.queue[..ReadyPrefix(c.queue)]);
    assert Waits(c, j) && Out(c')[|Out(c)| + j] == c.queue[j].data;
  }

  lemma FillInv(c: Client, abs: nat, data: Bytes)
    requires Inv(c) && c.accum == []
    ensures Inv(FillInLoop(c, abs, data)) && FillInLoop(c, abs, data).accum == []
  {
    if InQueue(c, abs) {
      MarkOrdered(c, abs, data);
      DrainInv(Mark(c, abs, data), false);
    }
  }

  lemma SettleInv(c: Client, abs: nat, data: Bytes)
    requires Inv(c) && InQueue(c, abs)
    ensures Inv(Settle(c, abs, data))
  {
    hide Ordered;
    MarkOrdered(c, abs, data);
    if abs - c.base == ReadyPrefix(c.queue) {
      DrainInv(Mark(c, abs, data), true);
    }
  }

  lemma SetFanInInv(c: Client, abs: nat, fanIn: Option<FanIn>)
    requires Inv(c) && InQueue(c, abs)
    ensures Inv(SetFanIn(c, abs, fanIn))
  {
    hide Numbered, QueuedBefore;
    var c' := SetFanIn(c, abs, fanIn);
    KeepsAnswers(c, c');
    forall j | 0 <= j < |c'.queue| ensures Waits(c', j) {
      assert Waits(c, j);
    }
  }

  lemma AccumulateInv(c: Client, abs: nat, data: Bytes)
    requires Inv(c)
    ensures Inv(Accumulate(c, abs, data))
  {
    hide Inv, Settle;
    if InQueue(c, abs) && c.queue[abs - c.base].fanIn.None? {
      SettleInv(c, abs, data);
    }
  }

  lemma AccumulateSubInv(c: Client, abs: nat, sub: nat, data: Bytes)
    requires Inv(c)
    ensures Inv(AccumulateSub(c, abs, sub, data))
  {
    hide Inv, Settle;
    if InQueue(c, abs) {
      var fanIn := c.queue[abs - c.base].fanIn;
      if fanIn.Some? && sub < |fanIn.value.subData| {
        var fi := Receive(fanIn.value, sub, data);
        if fi.received < fi.total {
          SetFanInInv(c, abs, Some(fi));
        } else {
          SetFanInInv(c, abs, None);
          SettleInv(SetFanIn(c, abs, None), abs, MergeReply(fi.kind, Payloads(fi.subData)));
        }
      }
    }
  }

  lemma FlushInv(c: Client)
    requires Inv(c)
    ensures Inv(Flush(c)) && Flush(c).accum == [] && Out(Flush(c)) == Out(c)
  {
    hide Numbered, QueuedBefore;
    var c' := Flush(c);
    assert Out(c') == Out(c);
    KeepsAnswers(c, c');
    forall j | 0 <= j < |c'.queue| ensures Waits(c', j) {
      assert Waits(c, j);
    }
  }

  // -------------------------------------------------------------------- runs

  /** A reply the mux hands to the client during one onTraffic call. */
  datatype Delivery = Whole(abs: nat, data: Bytes) | Part(abs: nat, sub: nat, data: Bytes)

  /** What can happen to a client between two states of the event loop: an
      immediate reply, a slot allocated, a posted fill that now runs, or a mux
      batch that ends in a flush. Any values, in any order. */
  datatype Event =
    | ReplyNow(data: Bytes)
    | AllocSlot(fanIn: Option<FanIn>)
    | RunFill(abs: nat, data: Bytes)
    | MuxBatch(deliveries: seq<Delivery>)

  function Deliver(c: Client, d: Delivery): Client {
    match d
    case Whole(abs, data) => Accumulate(c, abs, data)
    case Part(abs, sub, data) => AccumulateSub(c, abs, sub, data)
  }

  function DeliverAll(c: Client, ds: seq<Delivery>): Client
    decreases |ds|
  {
    if ds == [] then c else DeliverAll(Deliver(c, ds[0]), ds[1..])
  }

  function Step(c: Client, e: Event): Client {
    match e
    case ReplyNow(data) => Immediate(c, data)
    case AllocSlot(fanIn) => Alloc(c, fanIn)
    case RunFill(abs, data) => FillInLoop(c, abs, data)
    case MuxBatch(ds) => Flush(DeliverAll(c, ds))
  }

  function Run(c: Client, events: seq<Event>): Client
    decreases |events|
  {
    if events == [] then c else Run(Step(c, events[0]), events[1..])
  }

  lemma {:induction false} DeliverAllInv(c: Client, ds: seq<Delivery>)
    requires Inv(c)
    ensures Inv(DeliverAll(c, ds))
    decreases |ds|
  {
    hide Inv, Accumulate, AccumulateSub;
    if ds != [] {
      match ds[0] {
        case Whole(abs, data) => AccumulateInv(c, abs, data);
        case Part(abs, sub, data) => AccumulateSubInv(c, abs, sub, data);
      }
      DeliverAllInv(Deliver(c, ds[0]), ds[1..]);
    }
  }

  lemma StepInv(c: Client, e: Event)
    requires Inv(c) && c.accum == []
    ensures Inv(Step(c, e)) && Step(c, e).accum == []
  {
    hide Inv, FillInLoop, DeliverAll;
    match e
    case ReplyNow(data) => ImmediateInv(c, data);
    case AllocSlot(fanIn) => AllocInv(c, fanIn);
    case RunFill(abs, data) => FillInv(c, abs, data);
    case MuxBatch(ds) => DeliverAllInv(c, ds); FlushInv(DeliverAll(c, ds));
  }

  /** In every run, whatever interleaving of allocations, immediate replies, fills
      in any order and mux batches: what was sent is the reply to command 0, 1, 2,
      ... in order, one each, and the queue is empty or waits for its head. */
  lemma {:induction false} RepliesInCommandOrder(events: seq<Event>)
    ensures var c := Run(FRESH, events);
            Inv(c) && c.accum == [] && |c.sent| <= |c.origins| &&
            forall i | 0 <= i < |c.sent| :: Answers(c, i)
  {
    assert Inv(FRESH);
    RunInv(FRESH, events);
  }

  lemma {:induction false} RunInv(c: Client, events: seq<Event>)
    requires Inv(c) && c.accum == []
    ensures Inv(Run(c, events)) && Run(c, events).accum == []
    decreases |events|
  {
    hide Inv, Step;
    if events != [] {
      StepInv(c, events[0]);
      RunInv(Step(c, events[0]), events[1..]);
    }
  }

  // ----------------------------------------------------- writes past the queue

  /** A reply written straight to the socket although a slot may be outstanding:
      QUIT, a protocol error, EXEC of an empty transaction. */
  function Bypass(c: Client, data: Bytes): Client {
    c.(sent := c.sent + [data], origins := c.origins + [Direct(data)])
  }

  /** Writing past the queue keeps command order if and only if nothing is
      outstanding. */
  lemma BypassOrderedIffIdle(c: Client, data: Bytes)
    requires Inv(c) && c.accum == []
    ensures Inv(Bypass(c, data)) <==> c.queue == []
  {
    hide Numbered, QueuedBefore;
    var c' := Bypass(c, data);
    if c.queue == [] {
      ImmediateInv(c, data);
    } else {
      assert Waits(c, 0);
      assert Inv(c') ==> Answers(c', |Out(c)|);
    }
  }

  /** A command waits, and the next one is answered past the queue: the first reply
      on the socket is the answer to the second command. */
  lemma BypassCrosses(data: Bytes)
    ensures var c := Bypass(Run(FRESH, [AllocSlot(None)]), data);
            && c.origins == [Queued(0), Direct(data)] && c.sent == [data] && !Answers(c, 0) && !Inv(c)
  {
    hide Numbered, QueuedBefore;
    assert [AllocSlot(None)][1..] == [];
    assert Run(FRESH, [AllocSlot(None)]) == Alloc(FRESH, None);
    RepliesInCommandOrder([AllocSlot(None)]);
    BypassOrderedIffIdle(Alloc(FRESH, None), data);
  }

  // ------------------------------------------------------------ the shrink step

  /** make([]responseSlot, len, 64) when the queue looks sparse; None is the panic
      of make when len exceeds that capacity. */
  function Shrink(len: nat, cap: nat): Option<nat> {
    if cap > 256 && len < cap / 4 then (if len <= 64 then Some(64) else None) else Some(cap)
  }

  /** The capacity left when `drained` slots are sliced off the front. */
  function Left(cap: nat, drained: nat): nat { if cap < drained then 0 else cap - drained }

  /** Capacities up to 263 are safe for every queue length; every larger one has a
      length that panics, for example 100 slots of 512. */
  lemma ShrinkSafeIffSmall(cap: nat)
    ensures (forall len: nat :: Shrink(len, cap).Some?) <==> cap <= 263
    ensures Shrink(100, 512).None? && Shrink(64, 512) == Some(64) && Shrink(128, 512) == Some(512)
  {
    if cap > 263 {
      assert Shrink(65, cap).None?;
    }
  }
}
