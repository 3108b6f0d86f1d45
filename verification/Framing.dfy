/**
 The peek / cut / discard loops over a connection's read buffer
 (onTraffic in pkg/engine/backend_mux.go, onClientTraffic in handler.go):
 what is extracted does not depend on how the stream was cut into reads.
 */
module Framing {
  import opened Prelude
  import opened Resp
  import opened RespLaws
  import opened Request

  /** What looking at the front of a buffer gives: an item of `n` bytes, the wish
      for more bytes, or an end (protocol error, or an overflowing length). */
  datatype Cut<+T> = Took(item: T, n: nat) | More | Halt

  /** The items cut so far and the bytes left in the buffer. */
  datatype Stream<+T> = Stream(items: seq<T>, rest: Bytes, halted: bool)

  /** The loop: cut items off the front until the buffer holds no whole item. */
  function Extract<T>(cut: Bytes -> Cut<T>, buf: Bytes): (r: Stream<T>)
    decreases |buf|
  {
    if buf == [] then Stream([], [], false)
    else
      match cut(buf)
      case Took(item, n) =>
        if 0 < n <= |buf| then
          var tail := Extract(cut, buf[n..]);
          tail.(items := [item] + tail.items)
        else Stream([], [], true)
      case More => Stream([], buf, false)
      case Halt => Stream([], [], true)
  }

  /** One more read: the loop runs over the bytes kept back and the new ones. */
  function Resume<T>(cut: Bytes -> Cut<T>, s: Stream<T>, chunk: Bytes): Stream<T> {
    if s.halted then s
    else
      var t := Extract(cut, s.rest + chunk);
      t.(items := s.items + t.items)
  }

  function Feed<T>(cut: Bytes -> Cut<T>, s: Stream<T>, chunks: seq<Bytes>): Stream<T>
    decreases |chunks|
  {
    if chunks == [] then s else Feed(cut, Resume(cut, s, chunks[0]), chunks[1..])
  }

  /** An answer other than "more" is final, and an item has at least one byte. */
  ghost predicate Stable<T>(cut: Bytes -> Cut<T>) {
    forall buf: Bytes, more: Bytes :: Final(cut, buf, more)
  }

  ghost predicate Final<T>(cut: Bytes -> Cut<T>, buf: Bytes, more: Bytes) {
    && (buf != [] && !cut(buf).More? ==> cut(buf + more) == cut(buf))
    && (cut(buf).Took? ==> 0 < cut(buf).n <= |buf|)
  }

  lemma {:induction false} ResumeExtracts<T>(cut: Bytes -> Cut<T>, a: Bytes, b: Bytes)
    requires Stable(cut)
    ensures Resume(cut, Extract(cut, a), b) == Extract(cut, a + b)
    decreases |a|
  {
    assert Final(cut, a, b);
    if a == [] {
      assert a + b == b;
    } else if cut(a).Took? && 0 < cut(a).n <= |a| {
      var n := cut(a).n;
      ResumeExtracts(cut, a[n..], b);
      assert (a + b)[n..] == a[n..] + b;
    }
  }

  lemma {:induction false} FeedExtracts<T>(cut: Bytes -> Cut<T>, a: Bytes, chunks: seq<Bytes>)
    requires Stable(cut)
    ensures Feed(cut, Extract(cut, a), chunks) == Extract(cut, a + Flatten(chunks))
    decreases |chunks|
  {
    hide Extract, Resume;
    if chunks == [] {
      assert a + [] == a;
    } else {
      ResumeExtracts(cut, a, chunks[0]);
      FeedExtracts(cut, a + chunks[0], chunks[1..]);
      assert a + chunks[0] + Flatten(chunks[1..]) == a + Flatten(chunks);
    }
  }

  // ---------------------------------------------------------- backend replies

  /** A scanned reply: its bytes, and how the scanner classified it. */
  datatype Reply = Reply(raw: Bytes, kind: Kind, msg: Bytes)

  function CutReply(buf: Bytes): (r: Cut<Reply>)
    ensures r.Took? ==> 0 < r.n <= |buf|
  {
    match ScanAt(buf, 0)
    case Frame(end, kind, msg) => Took(Reply(buf[..end], kind, msg), end)
    case NoFrame => More
    case ScanOverflow => Halt
  }

  /** A bulk reply whose declared length takes its end past what an int64 holds stops the
      loop, where Go panics; every smaller one is waited for or cut off. */
  lemma HugeLengthHalts(n: int, rest: Bytes)
    requires 0 <= n <= INT64_MAX
    ensures var head := [36] + (FormatInt(n) + CRLF);
            CutReply(head + rest).Halt? <==> |head| + n + 2 > 0x7fff_ffff_ffff_ffff
    ensures var head := [36] + (FormatInt(n) + CRLF);
            |head| + n + 2 <= INT64_MAX ==> (CutReply(head + rest).Took? <==> |rest| >= n + 2)
  {
    hide FormatInt, ParseInt;
    var line := FormatInt(n) + CRLF;
    var buf := [36] + line + rest;
    assert buf[1..1 + |line|] == line && buf[0] == DOLLAR;
    ReadLineAt(buf, 1, FormatInt(n));
    IntRoundTrip(n);
    assert ScanAt(buf, 0) == ScanBody(buf, DOLLAR, FormatInt(n), 1 + |line|);
  }

  lemma ReplyFinal(buf: Bytes, more: Bytes)
    ensures Final(CutReply, buf, more)
  {
    hide ScanAt;
    if !CutReply(buf).More? {
      ScanLocal(buf, buf + more, 0);
      if ScanAt(buf, 0).Frame? {
        assert (buf + more)[..ScanAt(buf, 0).end] == buf[..ScanAt(buf, 0).end];
      }
    }
  }

  lemma RepliesStable()
    ensures Stable(CutReply)
  {
    forall buf: Bytes, more: Bytes ensures Final(CutReply, buf, more) {
      ReplyFinal(buf, more);
    }
  }

  /** However the bytes of a backend are cut into reads, the mux sees the replies
      of the uncut stream. */
  lemma RepliesChunkingIrrelevant(chunks: seq<Bytes>)
    ensures Feed(CutReply, Stream([], [], false), chunks) == Extract(CutReply, Flatten(chunks))
  {
    RepliesStable();
    FeedExtracts(CutReply, [], chunks);
    assert [] + Flatten(chunks) == Flatten(chunks);
  }

  /** The replies a stream of printed values consists of. */
  function Printed(vs: seq<Value>): seq<Reply> {
    if vs == [] then []
    else
      var v := Canon(vs[0]);
      [Reply(Encode(vs[0]), KindOf(v), MsgOf(v))] + Printed(vs[1..])
  }

  predicate Sendable(vs: seq<Value>) {
    forall i | 0 <= i < |vs| :: Printable(vs[i]) && |Encode(vs[i])| <= INT64_MAX
  }

  lemma CutPrinted(v: Value, more: Bytes)
    requires Printable(v) && |Encode(v)| <= INT64_MAX
    ensures CutReply(Encode(v) + more) == Took(Reply(Encode(v), KindOf(Canon(v)), MsgOf(Canon(v))), |Encode(v)|)
  {
    hide ScanAt, ParseAt, Encode, KindOf, MsgOf, Canon;
    var e := Encode(v);
    RoundTrip(e, 0, v);
    ScanAgrees(e, 0);
    assert e[..|e|] == e;
    ReplyFinal(e, more);
  }

  lemma {:induction false} ExtractPrinted(vs: seq<Value>)
    requires Sendable(vs)
    ensures Extract(CutReply, EncodeAll(vs)) == Stream(Printed(vs), [], false)
  {
    hide CutReply, Encode;
    if vs != [] {
      var e, tail := Encode(vs[0]), EncodeAll(vs[1..]);
      CutPrinted(vs[0], tail);
      ExtractPrinted(vs[1..]);
      assert EncodeAll(vs) == e + tail;
      assert (e + tail)[|e|..] == tail;
    }
  }

  /** A server that prints the values `vs` is heard as exactly those values, in
      order, whatever the network's packet boundaries. */
  lemma PrintedRepliesSurviveChunking(vs: seq<Value>, chunks: seq<Bytes>)
    requires Sendable(vs) && Flatten(chunks) == EncodeAll(vs)
    ensures Feed(CutReply, Stream([], [], false), chunks) == Stream(Printed(vs), [], false)
  {
    RepliesChunkingIrrelevant(chunks);
    ExtractPrinted(vs);
  }

  // ---------------------------------------------------------- client requests

  function CutRequest(buf: Bytes): (r: Cut<seq<Bytes>>)
    ensures r.Took? ==> 0 < r.n <= |buf|
  {
    match ParseRequest(buf)
    case Done(args, end) => Took(args, end)
    case Incomplete => More
    case _ => Halt
  }

  lemma RequestsStable()
    ensures Stable(CutRequest)
  {
    hide ParseRequest;
    forall buf: Bytes, more: Bytes ensures Final(CutRequest, buf, more) {
      if !CutRequest(buf).More? {
        RequestExtends(buf, more);
      }
    }
  }

  lemma RequestsChunkingIrrelevant(chunks: seq<Bytes>)
    ensures Feed(CutRequest, Stream([], [], false), chunks) == Extract(CutRequest, Flatten(chunks))
  {
    RequestsStable();
    FeedExtracts(CutRequest, [], chunks);
    assert [] + Flatten(chunks) == Flatten(chunks);
  }

  /** The loop stops for good at the first request that is refused, after handing on
      those before it. */
  lemma {:induction false} RefusedHalts(cmds: seq<seq<Bytes>>, bad: Bytes)
    requires forall i | 0 <= i < |cmds| :: cmds[i] != [] && |EncodeCommand(cmds[i])| <= INT64_MAX
    requires ParseRequest(bad).Invalid?
    ensures var s := Extract(CutRequest, EncodeCommands(cmds) + bad); s.halted && s.items == Received(cmds)
  {
    hide ParseRequest, EncodeCommand, UpperFirst;
    if cmds == [] {
      assert EncodeCommands(cmds) + bad == bad && bad != [] by { EmptyIncomplete(); }
    } else {
      var e, tail := EncodeCommand(cmds[0]), EncodeCommands(cmds[1..]) + bad;
      CommandRoundTrip(cmds[0], tail);
      RefusedHalts(cmds[1..], bad);
      assert EncodeCommands(cmds) + bad == e + tail && (e + tail)[|e|..] == tail;
    }
  }

  lemma EmptyIncomplete()
    ensures ParseRequest([]).Incomplete?
  {
  }

  function EncodeCommands(cmds: seq<seq<Bytes>>): Bytes {
    if cmds == [] then [] else EncodeCommand(cmds[0]) + EncodeCommands(cmds[1..])
  }

  function Received(cmds: seq<seq<Bytes>>): seq<seq<Bytes>> {
    if cmds == [] then [] else [UpperFirst(cmds[0])] + Received(cmds[1..])
  }

  lemma {:induction false} ExtractCommands(cmds: seq<seq<Bytes>>)
    requires forall i | 0 <= i < |cmds| :: cmds[i] != [] && |EncodeCommand(cmds[i])| <= INT64_MAX
    ensures Extract(CutRequest, EncodeCommands(cmds)) == Stream(Received(cmds), [], false)
  {
    hide ParseRequest, EncodeCommand, UpperFirst;
    if cmds != [] {
      var e, tail := EncodeCommand(cmds[0]), EncodeCommands(cmds[1..]);
      CommandRoundTrip(cmds[0], tail);
      ExtractCommands(cmds[1..]);
      assert (e + tail)[|e|..] == tail;
    }
  }

  /** A client's pipelined commands arrive complete and in order, whatever the
      packet boundaries. */
  lemma PipelineSurvivesChunking(cmds: seq<seq<Bytes>>, chunks: seq<Bytes>)
    requires forall i | 0 <= i < |cmds| :: cmds[i] != [] && |EncodeCommand(cmds[i])| <= INT64_MAX
    requires Flatten(chunks) == EncodeCommands(cmds)
    ensures Feed(CutRequest, Stream([], [], false), chunks) == Stream(Received(cmds), [], false)
  {
    RequestsChunkingIrrelevant(chunks);
    ExtractCommands(cmds);
  }

  /** The loop of onClientTraffic, up to the dispatch of each request. */
  method DrainRequests(buf: Bytes) returns (reqs: seq<seq<Bytes>>, consumed: nat, halted: bool)
    ensures consumed <= |buf|
    ensures halted == Extract(CutRequest, buf).halted && reqs == Extract(CutRequest, buf).items
    ensures !halted ==> buf[consumed..] == Extract(CutRequest, buf).rest
  {
    hide CutRequest;
    reqs, consumed, halted := [], 0, false;
    assert buf[0..] == buf;
    while true
      invariant consumed <= |buf|
      invariant Extract(CutRequest, buf) ==
                var t := Extract(CutRequest, buf[consumed..]); t.(items := reqs + t.items)
      decreases |buf| - consumed
    {
      var remaining := buf[consumed..];
      if |remaining| == 0 { break; }
      match CutRequest(remaining)
      case More => break;
      case Halt =>
        halted := true;
        break;
      case Took(args, n) =>
        assert remaining[n..] == buf[consumed + n..];
        reqs := reqs + [args];
        consumed := consumed + n;
    }
  }
}
