/**
 The client context as the source keeps it: fields updated in place, with the
 loops that find and drain the ready prefix, proved against `ReplyQueue`.
 */
module ClientCtxCode {
  import opened Prelude
  import opened ReplyQueue

  class ClientCtx {
    var respQueue: seq<Slot>
    var respBase: nat
    var respCap: nat       // capacity of respQueue's backing array
    var writeAccum: seq<Bytes>  // this connection's entry of the mux's writeAccum
    var socket: seq<Bytes>      // replies handed to the connection's Write
    ghost var origins: seq<Origin>
    ghost var offers: set<(nat, Bytes)>

    ghost function State(): Client
      reads this
    {
      Client(respQueue, respBase, writeAccum, socket, origins, offers)
    }

    constructor ()
      ensures State() == FRESH && respCap == 16
    {
      respQueue, respBase, respCap := [], 0, 16;
      writeAccum, socket := [], [];
      origins, offers := [], {};
    }

    /** What the shrink step does after `drained` slots left an array of `cap`. */
    function ShrinkAfter(cap: nat, drained: nat): Option<nat>
      reads this
    {
      Shrink(|respQueue|, Left(cap, drained))
    }

    /** `grown` is the capacity Go's append picks when the array is full. */
    method AllocResponseSlot(fanIn: Option<FanIn>, grown: nat) returns (absIdx: nat)
      modifies this
      ensures State() == Alloc(old(State()), fanIn)
      ensures absIdx == old(respBase + |respQueue|)
      ensures respCap == if old(|respQueue| == respCap) then grown else old(respCap)
    {
      absIdx := respBase + |respQueue|;
      if |respQueue| == respCap {
        respCap := grown;
      }
      respQueue := respQueue + [Slot(false, [], fanIn)];
      origins := origins + [Queued(absIdx)];
    }

    /** Some(abs) is the slot whose fill with `data` the caller posts. */
    method WriteImmediate(data: Bytes, grown: nat) returns (posted: Option<nat>)
      modifies this
      ensures State() == Immediate(old(State()), data)
      ensures posted == if old(respQueue) == [] then None else Some(old(respBase + |respQueue|))
      ensures respCap == if old(respQueue != [] && |respQueue| == respCap) then grown else old(respCap)
    {
      if |respQueue| == 0 {
        socket := socket + [data];
        origins := origins + [Direct(data)];
        return None;
      }
      var slotIdx := AllocResponseSlot(None, grown);
      return Some(slotIdx);
    }

    /** The loop `for head < len(queue) && queue[head].ready { head++ }`. */
    method FindHead() returns (head: nat)
      ensures head == ReadyPrefix(respQueue)
    {
      head := 0;
      assert respQueue[0..] == respQueue;
      while head < |respQueue| && respQueue[head].ready
        invariant head <= |respQueue|
        invariant ReadyPrefix(respQueue) == head + ReadyPrefix(respQueue[head..])
      {
        assert respQueue[head..][1..] == respQueue[head + 1..];
        head := head + 1;
      }
    }

    /** The data of the first `head` slots, collected one by one. */
    method Collect(head: nat) returns (iov: seq<Bytes>)
      requires head <= |respQueue|
      ensures iov == Datas(respQueue[..head])
    {
      iov := [];
      for i := 0 to head
        invariant |iov| == i && forall j | 0 <= j < i :: iov[j] == respQueue[j].data
      {
        iov := iov + [respQueue[i].data];
      }
    }

    /** Returns false for the panic of make on a queue longer than 64. */
    method ShrinkIfSparse() returns (ok: bool)
      modifies this`respCap
      ensures ok <==> Shrink(|respQueue|, old(respCap)).Some?
      ensures ok ==> respCap == Shrink(|respQueue|, old(respCap)).value
    {
      ok := true;
      if respCap > 256 && |respQueue| < respCap / 4 {
        if |respQueue| > 64 { return false; }
        respCap := 64;
      }
    }

    method SetReady(relIdx: nat, data: Bytes)
      requires relIdx < |respQueue|
      modifies this
      ensures State() == Mark(old(State()), old(respBase) + relIdx, data)
      ensures respCap == old(respCap)
    {
      respQueue := respQueue[relIdx := respQueue[relIdx].(ready := true, data := data)];
      offers := offers + {(respBase + relIdx, data)};
    }

    method FillResponseSlotInLoop(absIdx: nat, data: Bytes) returns (ok: bool)
      modifies this
      ensures State() == FillInLoop(old(State()), absIdx, data)
      ensures ok <==> respBase == old(respBase) || ShrinkAfter(old(respCap), respBase - old(respBase)).Some?
      ensures respBase == old(respBase) ==> respCap == old(respCap)
      ensures respBase > old(respBase) && ok ==> respCap == ShrinkAfter(old(respCap), respBase - old(respBase)).value
    {
      var relIdx := absIdx - respBase;
      if relIdx < 0 || relIdx >= |respQueue| { return true; }
      SetReady(relIdx, data);
      ghost var marked := State();
      var head := FindHead();
      if head == 0 {
        assert respQueue[0..] == respQueue && socket + Datas(respQueue[..0]) == socket;
        return true;
      }
      var iov := Collect(head);
      socket := socket + iov;
      respQueue := respQueue[head..];
      respBase := respBase + head;
      respCap := Left(respCap, head);
      assert State() == Drain(marked, false);
      ok := ShrinkIfSparse();
    }

    /** The tail that accumulateResponseSlot and accumulateFanInSubResponse share. */
    method SettleSlot(relIdx: nat, data: Bytes)
      requires relIdx < |respQueue|
      modifies this
      ensures State() == Settle(old(State()), old(respBase) + relIdx, data)
      ensures respBase >= old(respBase) && respCap == Left(old(respCap), respBase - old(respBase))
    {
      hide ReadyPrefix, Datas;
      var head := FindHead();
      SetReady(relIdx, data);
      ghost var marked := State();
      if relIdx == head {
        head := FindHead();
        var iov := Collect(head);
        writeAccum := writeAccum + iov;
        respQueue := respQueue[head..];
        respBase := respBase + head;
        respCap := Left(respCap, head);
        assert State() == Drain(marked, true);
      }
    }

    method AccumulateResponseSlot(absIdx: nat, data: Bytes) returns (ok: bool)
      modifies this
      ensures State() == Accumulate(old(State()), absIdx, data)
      ensures ok <==> old(!Settles(State(), absIdx)) || ShrinkAfter(old(respCap), respBase - old(respBase)).Some?
      ensures ok ==> respCap == if old(!Settles(State(), absIdx)) then old(respCap)
                                else ShrinkAfter(old(respCap), respBase - old(respBase)).value
    {
      var relIdx := absIdx - respBase;
      if relIdx < 0 || relIdx >= |respQueue| { return true; }
      if respQueue[relIdx].fanIn.Some? { return true; }
      SettleSlot(relIdx, data);
      ok := ShrinkIfSparse();
    }

    /** Returns false for the panics of make, and of a part number out of range. */
    method AccumulateFanInSubResponse(absIdx: nat, subIdx: nat, data: Bytes) returns (ok: bool)
      modifies this
      ensures State() == AccumulateSub(old(State()), absIdx, subIdx, data)
      ensures old(!Awaits(State(), absIdx)) ==> ok
      ensures old(Awaits(State(), absIdx)) && subIdx >= old(|respQueue[absIdx - respBase].fanIn.value.subData|) ==> !ok
      ensures old(Awaits(State(), absIdx)) && subIdx < old(|respQueue[absIdx - respBase].fanIn.value.subData|) ==>
                (ok <==> old(!LastPart(State(), absIdx)) || ShrinkAfter(old(respCap), respBase - old(respBase)).Some?)
      ensures ok ==> respCap == if old(!Awaits(State(), absIdx) || !LastPart(State(), absIdx)) then old(respCap)
                                else ShrinkAfter(old(respCap), respBase - old(respBase)).value
    {
      hide MergeReply, Settle;
      var relIdx := absIdx - respBase;
      if relIdx < 0 || relIdx >= |respQueue| { return true; }
      var slot := respQueue[relIdx];
      if slot.fanIn.None? { return true; }
      if subIdx >= |slot.fanIn.value.subData| { return false; }
      var fi := Receive(slot.fanIn.value, subIdx, data);
      if fi.received < fi.total {
        respQueue := respQueue[relIdx := slot.(fanIn := Some(fi))];
        return true;
      }
      var merged := MergeReply(fi.kind, Payloads(fi.subData));
      respQueue := respQueue[relIdx := slot.(fanIn := None)];
      assert State() == SetFanIn(old(State()), absIdx, None);
      SettleSlot(relIdx, merged);
      ok := ShrinkIfSparse();
    }

    method FlushWriteAccum()
      modifies this
      ensures State() == Flush(old(State()))
    {
      socket := socket + writeAccum;
      writeAccum := [];
    }
  }

  // ------------------------------------------------------- the shrink, reached

  /** The capacity after n appends to a fresh queue of 16, when a full array of k
      grows to grow(k). */
  function Capacity(grow: nat -> nat, n: nat): nat {
    if n == 0 then 16
    else
      var c := Capacity(grow, n - 1);
      if c == n - 1 then grow(c) else c
  }

  lemma {:induction false} CapacityHolds(grow: nat -> nat, i: nat, j: nat)
    requires i <= j <= Capacity(grow, i)
    ensures Capacity(grow, j) == Capacity(grow, i)
    decreases j
  {
    if i < j {
      CapacityHolds(grow, i, j - 1);
    }
  }

  /** Doubling arrays hold 512 once a 257th slot is outstanding. */
  lemma DoublingCapacity()
    ensures Capacity(k => 2 * k, 257) == 512
  {
    var grow: nat -> nat := k => 2 * k;
    CapacityHolds(grow, 0, 16);
    CapacityHolds(grow, 17, 32);
    CapacityHolds(grow, 33, 64);
    CapacityHolds(grow, 65, 128);
    CapacityHolds(grow, 129, 256);
  }

  lemma PrefixIs(q: seq<Slot>, h: nat)
    requires h < |q| && !q[h].ready && forall i | 0 <= i < h :: q[i].ready
    ensures ReadyPrefix(q) == h
  {
  }

  /** n commands outstanding, none answered. */
  method Outstanding(grow: nat -> nat, n: nat) returns (ctx: ClientCtx)
    ensures fresh(ctx) && ctx.respBase == 0 && |ctx.respQueue| == n && ctx.respCap == Capacity(grow, n)
    ensures forall i | 0 <= i < n :: !ctx.respQueue[i].ready
  {
    ctx := new ClientCtx();
    for k := 0 to n
      invariant fresh(ctx) && ctx.respBase == 0 && |ctx.respQueue| == k && ctx.respCap == Capacity(grow, k)
      invariant forall i | 0 <= i < k :: !ctx.respQueue[i].ready
    {
      var slot := ctx.AllocResponseSlot(None, grow(k));
    }
  }

  /** A fill behind the head only marks its slot. */
  method FillBehind(ctx: ClientCtx, abs: nat, data: Bytes)
    requires ctx.respBase == 0 && 0 < abs < |ctx.respQueue| && !ctx.respQueue[0].ready
    modifies ctx
    ensures ctx.respBase == 0 && ctx.respCap == old(ctx.respCap) && |ctx.respQueue| == old(|ctx.respQueue|)
    ensures forall i | 0 <= i < |ctx.respQueue| :: ctx.respQueue[i].ready == (i == abs || old(ctx.respQueue[i].ready))
  {
    ghost var marked := Mark(ctx.State(), abs, data);
    PrefixIs(marked.queue, 0);
    var ok := ctx.FillResponseSlotInLoop(abs, data);
  }

  /** The panic, from a fresh connection: n commands outstanding in an array with
      199 slots to spare, and the reply to the first one comes last but for 65. */
  method ShrinkPanics(grow: nat -> nat, n: nat, data: Bytes) returns (ok: bool)
    requires n > 65 && Capacity(grow, n) >= n + 199
    ensures !ok
  {
    var ctx := Outstanding(grow, n);
    var h := n - 65;
    for j := 1 to h
      invariant ctx.respBase == 0 && |ctx.respQueue| == n && ctx.respCap == Capacity(grow, n) && fresh(ctx)
      invariant forall i | 0 <= i < n :: ctx.respQueue[i].ready == (0 < i < j)
    {
      FillBehind(ctx, j, data);
    }
    ghost var marked := Mark(ctx.State(), 0, data);
    PrefixIs(marked.queue, h);
    ok := ctx.FillResponseSlotInLoop(0, data);
    assert ctx.respBase == h && |ctx.respQueue| == 65;
  }

  /** Doubling arrays get there with 257 commands. */
  method DoublingPanics(data: Bytes) returns (ok: bool)
    ensures !ok
  {
    DoublingCapacity();
    ok := ShrinkPanics(k => 2 * k, 257, data);
  }
}
