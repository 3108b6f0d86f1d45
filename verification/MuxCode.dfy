/**
 The multiplexer as the source keeps it: maps and slices updated in place, with
 the head index into pending, proved step by step against `Mux`.
 */
module MuxCode {
  import opened Prelude
  import opened Resp
  import opened RespCode
  import opened Framing
  import opened Merging
  import opened Mux

  datatype MuxConn = MuxConn(pending: seq<Pending>, head: nat, writeBuf: seq<WireCmd>)

  class BackendMux {
    var conns: map<Addr, MuxConn>
    var dialing: map<Addr, seq<Pending>>
    var outs: seq<Output>
    ghost var wire: map<Addr, seq<WireCmd>>
    ghost var loc: map<Key, Loc>
    ghost var served: map<Key, Bytes>
    ghost var sends: map<Key, nat>
    ghost var reordered: bool
    ghost var unsolicited: bool

    ghost predicate Valid()
      reads this
    {
      wire.Keys == conns.Keys && forall a | a in conns :: conns[a].head <= |conns[a].pending|
    }

    ghost function View(): map<Addr, Conn>
      requires Valid()
      reads this
    {
      map a | a in conns :: Conn(conns[a].pending[conns[a].head..], conns[a].writeBuf, wire[a])
    }

    ghost function State(): Mux
      requires Valid()
      reads this
    {
      Mux(View(), dialing, outs, loc, served, sends, reordered, unsolicited)
    }

    constructor ()
      ensures Valid() && State() == EMPTY
    {
      conns, dialing, outs := map[], map[], [];
      wire, loc, served, sends := map[], map[], map[], map[];
      reordered, unsolicited := false, false;
    }

    /** Replace one connection, keeping the rest. */
    method SetConn(addr: Addr, c: MuxConn, ghost w: seq<WireCmd>)
      requires Valid() && c.head <= |c.pending|
      modifies this`conns, this`wire
      ensures Valid() && View() == old(View())[addr := Conn(c.pending[c.head..], c.writeBuf, w)]
      ensures conns == old(conns)[addr := c]
    {
      conns := conns[addr := c];
      wire := wire[addr := w];
    }

    method FailDialing(addr: Addr, err: Bytes, env: Env)
      requires Valid()
      modifies this
      ensures Valid() && State() == DialFailed(old(State()), env, addr, err)
      ensures conns == old(conns)
    {
      hide EncodeError;
      var queued := if addr in dialing then dialing[addr] else [];
      dialing := dialing - {addr};
      PostAll(queued, env, EncodeError(err));
      loc := FailAll(loc, Dialing(addr), env.alive, EncodeError(err));
    }

    /** The loop over requests that fail together. */
    method PostAll(queued: seq<Pending>, env: Env, data: Bytes)
      modifies this`outs
      ensures outs == old(outs) + Posts(queued, env.alive, data)
    {
      assert queued[0..] == queued;
      for i := 0 to |queued|
        invariant outs + Posts(queued[i..], env.alive, data) == old(outs) + Posts(queued, env.alive, data)
      {
        ghost var before := outs;
        var req := queued[i];
        assert queued[i..][1..] == queued[i + 1..];
        if !req.skip && req.key.client in env.alive {
          outs := outs + [Post(req.key, data)];
        }
        assert outs + Posts(queued[i + 1..], env.alive, data) == before + Posts(queued[i..], env.alive, data);
      }
      assert queued[|queued|..] == [];
    }

    method EnqueueAndDial(addr: Addr, entries: seq<Pending>, k: Key, env: Env)
      requires Valid()
      modifies this
      ensures Valid() && State() == Enqueue(old(State()), env, addr, entries, k)
      ensures conns == old(conns)
    {
      hide Posts, FailAll;
      var queued := if addr in dialing then dialing[addr] else [];
      dialing := dialing[addr := queued + entries];
      loc, sends := loc[k := Dialing(addr)], Bump(sends, k);
      assert View() == old(View());
      if |queued| == 0 && addr in env.refused {
        FailDialing(addr, env.refused[addr], env);
      }
    }

    method SendTo(addr: Addr, p: Pending, env: Env)
      requires Valid()
      modifies this
      ensures Valid() && State() == Send(old(State()), env, addr, p)
      ensures old(conns).Keys <= conns.Keys
    {
      hide Enqueue;
      if addr in conns {
        var bc := conns[addr];
        assert (bc.pending + [p])[bc.head..] == bc.pending[bc.head..] + [p];
        SetConn(addr, bc.(pending := bc.pending + [p], writeBuf := bc.writeBuf + [Command(p.key)]), wire[addr]);
        loc, sends := loc[p.key := OnConn(addr)], Bump(sends, p.key);
      } else {
        EnqueueAndDial(addr, [p], p.key, env);
      }
    }

    method SendAskTo(addr: Addr, p: Pending, env: Env)
      requires Valid()
      modifies this
      ensures Valid() && State() == SendAsk(old(State()), env, addr, p)
      ensures old(conns).Keys <= conns.Keys
    {
      hide Enqueue;
      var skip := p.(skip := true, asking := true);
      if addr in conns {
        var bc := conns[addr];
        assert (bc.pending + [skip, p])[bc.head..] == bc.pending[bc.head..] + [skip, p];
        reordered := reordered || bc.writeBuf != [];
        SetConn(addr, bc.(pending := bc.pending + [skip, p]), wire[addr] + [Asking, Command(p.key)]);
        loc, sends := loc[p.key := OnConn(addr)], Bump(sends, p.key);
      } else {
        EnqueueAndDial(addr, [skip, p], p.key, env);
      }
    }

    method OnOpen(addr: Addr, isReplica: bool)
      requires Valid()
      modifies this
      ensures Valid() && State() == Open(old(State()), addr, isReplica)
    {
      hide WrittenAll, Relocate;
      var queued := if addr in dialing then dialing[addr] else [];
      dialing := dialing - {addr};
      var pending;
      ghost var written;
      pending, written := TakeOver(queued, isReplica);
      assert pending[0..] == pending;
      SetConn(addr, MuxConn(pending, 0, []), written);
      loc := Relocate(loc, Dialing(addr), OnConn(addr));
    }

    /** The greeting and the queued requests become pending as they are written. */
    method TakeOver(queued: seq<Pending>, isReplica: bool) returns (pending: seq<Pending>, ghost written: seq<WireCmd>)
      ensures var greet := isReplica && queued != [];
              pending == (if greet then [ReadonlySentinel(queued[0])] else []) + queued &&
              written == (if greet then [Readonly] else []) + WrittenAll(queued)
    {
      pending, written := [], [];
      if isReplica && |queued| > 0 {
        pending := [Pending(queued[0].key, 0, true, false)];
        written := [Readonly];
      }
      ghost var greet, hello := pending, written;
      for i := 0 to |queued|
        invariant pending == greet + queued[..i]
        invariant written == hello + WrittenAll(queued[..i])
      {
        assert queued[..i + 1] == queued[..i] + [queued[i]];
        assert WrittenAll(queued[..i + 1]) == WrittenAll(queued[..i]) + [Written(queued[i])];
        pending := pending + [queued[i]];
        written := written + (if queued[i].asking then [Asking] else [Command(queued[i].key)]);
      }
      assert queued[..|queued|] == queued;
    }

    method OnClose(addr: Addr, env: Env)
      requires Valid()
      modifies this
      ensures Valid() && State() == Close(old(State()), env, addr)
    {
      hide DisconnectError;
      if addr in conns {
        var bc := conns[addr];
        PostAll(bc.pending[bc.head..], env, DisconnectError(addr));
        conns := conns - {addr};
        wire := wire - {addr};
        loc := FailAll(loc, OnConn(addr), env.alive, DisconnectError(addr));
        assert View() == old(View()) - {addr};
      }
    }

    lemma ViewKeys()
      requires Valid()
      ensures View().Keys == conns.Keys
    {
    }

    method FlushOne(a: Addr)
      requires Valid() && a in conns
      modifies this`conns, this`wire
      ensures Valid() && View() == old(View())[a := FlushConn(old(View())[a])]
      ensures conns.Keys == old(conns).Keys
    {
      var bc := conns[a];
      if |bc.writeBuf| > 0 {
        SetConn(a, bc.(writeBuf := []), wire[a] + bc.writeBuf);
      } else {
        assert wire[a] + bc.writeBuf == wire[a];
        assert View()[a] == FlushConn(View()[a]);
      }
    }

    /** Map iteration: connections are flushed in no particular order. */
    method FlushBackendWrites()
      requires Valid()
      modifies this`conns, this`wire
      ensures Valid() && State() == FlushAll(old(State()))
    {
      hide Flushing, FlushAll, View;
      ghost var before := View();
      FlushingEnds(old(State()));
      ViewKeys();
      var todo := conns.Keys;
      while todo != {}
        invariant Valid() && todo <= conns.Keys == before.Keys
        invariant View() == Flushing(before, todo)
        decreases |todo|
      {
        var a :| a in todo;
        FlushOne(a);
        FlushingStep(before, todo, a);
        todo := todo - {a};
      }
    }

    /** Where a popped request goes. */
    method DispatchRequest(req: Pending, r: Reply, env: Env)
      requires Valid()
      modifies this
      ensures Valid() && State() == Dispatch(old(State()), env, req, r)
      ensures old(conns).Keys <= conns.Keys
    {
      hide Send, SendAsk, ParseRedirection;
      var target := ParseRedirection(r.msg);
      var again := req.(depth := req.depth + 1);
      if r.kind == KindMoved && req.depth < MAX_REDIRECTS && target.Some? {
        SendTo(target.value, again, env);
        return;
      }
      if r.kind == KindAsk && req.depth < MAX_REDIRECTS && target.Some? {
        SendAskTo(target.value, again, env);
        return;
      }
      if req.key.client !in env.alive {
        loc := loc[req.key := Finished(Dropped)];
        return;
      }
      outs := outs + [DeliverTo(req.key, r.raw)];
      loc := loc[req.key := Finished(Answered(r.raw))];
    }

    /** One turn of the loop: the head of pending meets the reply. */
    method HandleReply(addr: Addr, r: Reply, env: Env)
      requires Valid() && addr in conns
      modifies this
      ensures Valid() && State() == OnReply(old(State()), env, addr, r)
      ensures addr in conns
    {
      hide Dispatch;
      ServedNow(addr, r.raw);
      var bc := conns[addr];
      if bc.head >= |bc.pending| { return; }
      var req := bc.pending[bc.head];
      PopHead(addr);
      if req.skip { return; }
      DispatchRequest(req, r, env);
    }

    ghost method ServedNow(addr: Addr, raw: Bytes)
      requires Valid() && addr in conns
      modifies this`wire, this`served, this`unsolicited
      ensures Valid() && State() == Serve(old(State()), addr, raw)
    {
      if wire[addr] == [] {
        unsolicited := true;
      } else {
        var cause := wire[addr][0];
        wire := wire[addr := wire[addr][1..]];
        if cause.Command? {
          served := served[cause.key := raw];
        }
        assert View() == old(View())[addr := old(View())[addr].(wire := wire[addr])];
      }
    }

    method PopHead(addr: Addr)
      requires Valid() && addr in conns && conns[addr].head < |conns[addr].pending|
      modifies this`conns, this`wire, this`loc
      ensures Valid() && State() == Pop(old(State()), addr)
      ensures addr in conns
    {
      var bc := conns[addr];
      ghost var req := bc.pending[bc.head];
      assert bc.pending[bc.head..][1..] == bc.pending[bc.head + 1..];
      var head := bc.head + 1;
      if head == |bc.pending| {
        SetConn(addr, bc.(head := 0, pending := []), wire[addr]);
      } else {
        SetConn(addr, bc.(head := head), wire[addr]);
      }
      loc := if req.skip then loc else loc - {req.key};
    }

    /** The whole onTraffic call: every reply in the buffer, then the flush of all
        write buffers. `ok` is false if the buffer declares an overflowing length,
        where Go stops with a panic. */
    method OnTraffic(addr: Addr, buf: Bytes, env: Env) returns (consumed: nat, ok: bool)
      requires Valid() && addr in conns
      modifies this
      ensures Valid() && consumed <= |buf|
      ensures ok == !Extract(CutReply, buf).halted
      ensures ok ==> buf[consumed..] == Extract(CutReply, buf).rest
      ensures ok ==> State() == FlushAll(OnReplies(old(State()), env, addr, Extract(CutReply, buf).items))
    {
      hide OnReply, CutReply, Extract, OnReplies, FlushAll, ScanAt;
      consumed, ok := 0, true;
      ghost var all := Extract(CutReply, buf);
      ghost var left := all.items;
      assert buf[0..] == buf;
      while consumed < |buf|
        invariant Valid() && consumed <= |buf| && addr in conns
        invariant Extract(CutReply, buf[consumed..]) == all.(items := left)
        invariant OnReplies(State(), env, addr, left) == OnReplies(old(State()), env, addr, all.items)
        decreases |buf| - consumed
      {
        var remaining := buf[consumed..];
        var scan := ScanValueAt(remaining, 0);
        ScannedCut(remaining, scan);
        if scan.NoFrame? { break; }
        if scan.ScanOverflow? { return consumed, false; }
        var r := Reply(remaining[..scan.end], scan.kind, scan.msg);
        ghost var rest := Extract(CutReply, remaining[scan.end..]).items;
        OnRepliesStep(State(), env, addr, r, rest);
        HandleReply(addr, r, env);
        assert remaining[scan.end..] == buf[consumed + scan.end..];
        consumed := consumed + scan.end;
        left := rest;
      }
      Drained(State(), env, addr, buf[consumed..]);
      FlushBackendWrites();
    }
  }

  /** The connections when all but those in `todo` have been flushed. */
  ghost function Flushing(before: map<Addr, Conn>, todo: set<Addr>): map<Addr, Conn> {
    map a | a in before :: if a in todo then before[a] else FlushConn(before[a])
  }

  lemma FlushingEnds(m: Mux)
    ensures Flushing(m.conns, m.conns.Keys) == m.conns
    ensures m.(conns := Flushing(m.conns, {})) == FlushAll(m)
  {
  }

  lemma FlushingStep(before: map<Addr, Conn>, todo: set<Addr>, a: Addr)
    requires a in todo && a in before
    ensures Flushing(before, todo)[a := FlushConn(before[a])] == Flushing(before, todo - {a})
    ensures Flushing(before, todo)[a] == before[a]
  {
  }

  /** A buffer without a whole reply left is done. */
  lemma Drained(m: Mux, env: Env, addr: Addr, rest: Bytes)
    ensures Extract(CutReply, []) == Stream([], [], false)
    ensures OnReplies(m, env, addr, []) == m
  {
  }

  /** What one scan says about the stream of replies. */
  lemma ScannedCut(buf: Bytes, scan: Scan)
    requires buf != [] && scan == ScanAt(buf, 0)
    ensures scan.Frame? ==>
              var tail := Extract(CutReply, buf[scan.end..]);
              Extract(CutReply, buf) == tail.(items := [Reply(buf[..scan.end], scan.kind, scan.msg)] + tail.items)
    ensures scan.NoFrame? ==> Extract(CutReply, buf) == Stream([], buf, false)
    ensures scan.ScanOverflow? ==> Extract(CutReply, buf).halted
  {
    hide ScanAt;
  }

  lemma OnRepliesStep(m: Mux, env: Env, addr: Addr, r: Reply, rest: seq<Reply>)
    ensures OnReplies(m, env, addr, [r] + rest) == OnReplies(OnReply(m, env, addr, r), env, addr, rest)
  {
    hide OnReply;
    assert ([r] + rest)[1..] == rest;
  }
}
