/**
 The backend multiplexer as a state machine (pkg/engine/backend_mux.go): one
 FIFO of pending requests per connection, a queue per address being dialled, a
 write buffer, and MOVED/ASK re-sends.
 */
module Mux {
  import opened Prelude
  import opened Resp
  import opened Framing
  import opened Merging

  type Addr = Bytes

  /** A request of a client: its response slot, and which part of a fan-in. */
  datatype Key = Key(client: nat, slot: nat, sub: Option<nat>)

  /** An entry of pending or dialing. Sentinels have `skip`: READONLY, or ASKING
      (which also has `asking`); their replies are thrown away. */
  datatype Pending = Pending(key: Key, depth: nat, skip: bool, asking: bool)

  /** A whole command as written to a backend. */
  datatype WireCmd = Readonly | Asking | Command(key: Key)

  /** A connection: pending[head:], writeBuf, and the commands on the socket that
      the server has not answered yet. */
  datatype Conn = Conn(live: seq<Pending>, buf: seq<WireCmd>, wire: seq<WireCmd>)

  /** How a request ended. */
  datatype Outcome = Answered(data: Bytes) | Failed(data: Bytes) | Dropped

  /** Where a request is. */
  datatype Loc = Dialing(addr: Addr) | OnConn(addr: Addr) | Finished(outcome: Outcome)

  /** What the mux does to clients: a reply delivered now, or a fill posted. */
  datatype Output = DeliverTo(key: Key, data: Bytes) | Post(key: Key, data: Bytes)

  /** `loc`, `served` (the last reply a server gave to each request) and `sends`
      are histories. `reordered`: an ASK was written past a non-empty write
      buffer. `unsolicited`: a server replied with no command outstanding. */
  datatype Mux = Mux(
    conns: map<Addr, Conn>, dialing: map<Addr, seq<Pending>>, outs: seq<Output>,
    loc: map<Key, Loc>, served: map<Key, Bytes>, sends: map<Key, nat>,
    reordered: bool, unsolicited: bool)

  const EMPTY: Mux := Mux(map[], map[], [], map[], map[], map[], false, false)

  /** What the outside decides: which clients are still connected, and which
      addresses cannot even be dialled, with the error text. */
  datatype Env = Env(alive: set<nat>, refused: map<Addr, Bytes>)

  const MAX_REDIRECTS: nat := 16

  // ---------------------------------------------------------------- redirection

  function IndexSpace(s: Bytes, from: nat): (i: nat)
    requires from <= |s|
    ensures from <= i <= |s| && (i < |s| ==> s[i] == SPACE)
    ensures forall j | from <= j < i :: s[j] != SPACE
    decreases |s| - from
  {
    if from == |s| || s[from] == SPACE then from else IndexSpace(s, from + 1)
  }

  /** strconv.Atoi accepts it: an optional sign, digits, and an int64 value. */
  predicate IsAtoi(s: Bytes) {
    var digits := if s != [] && (s[0] == MINUS || s[0] == PLUS) then s[1..] else s;
    && digits != [] && (forall i | 0 <= i < |digits| :: IsDigit(digits[i]))
    && INT64_MIN <= (if s[0] == MINUS then -Decimal(digits) else Decimal(digits)) <= INT64_MAX
  }

  /** The target of "MOVED <slot> <addr>" or "ASK <slot> <addr>": what follows the
      second space, provided an integer stands between the two. */
  function ParseRedirection(msg: Bytes): Option<Addr> {
    var i := IndexSpace(msg, 0);
    if i == |msg| then None
    else
      var j := IndexSpace(msg, i + 1);
      if j == |msg| || !IsAtoi(msg[i + 1..j]) then None else Some(msg[j + 1..])
  }

  // ----------------------------------------------------------------- operations

  function Queue(m: Mux, addr: Addr): seq<Pending> { if addr in m.dialing then m.dialing[addr] else [] }

  function Bump(sends: map<Key, nat>, k: Key): map<Key, nat> {
    sends[k := (if k in sends then sends[k] else 0) + 1]
  }

  /** The fills posted when a queue of requests fails. */
  function Posts(q: seq<Pending>, alive: set<nat>, data: Bytes): seq<Output> {
    if q == [] then []
    else (if q[0].skip || q[0].key.client !in alive then [] else [Post(q[0].key, data)]) + Posts(q[1..], alive, data)
  }

  function FailAll(loc: map<Key, Loc>, at: Loc, alive: set<nat>, data: Bytes): map<Key, Loc> {
    map k | k in loc :: if loc[k] == at then Finished(if k.client in alive then Failed(data) else Dropped) else loc[k]
  }

  function DialFailed(m: Mux, env: Env, addr: Addr, err: Bytes): Mux {
    m.(dialing := m.dialing - {addr},
       loc := FailAll(m.loc, Dialing(addr), env.alive, EncodeError(err)),
       outs := m.outs + Posts(Queue(m, addr), env.alive, EncodeError(err)))
  }

  /** Queue entries for an address without a connection; the first ones dial. */
  function Enqueue(m: Mux, env: Env, addr: Addr, entries: seq<Pending>, k: Key): Mux {
    var m' := m.(dialing := m.dialing[addr := Queue(m, addr) + entries],
                 loc := m.loc[k := Dialing(addr)], sends := Bump(m.sends, k));
    if Queue(m, addr) == [] && addr in env.refused then DialFailed(m', env, addr, env.refused[addr]) else m'
  }

  function Send(m: Mux, env: Env, addr: Addr, p: Pending): Mux {
    if addr in m.conns then
      var c := m.conns[addr];
      m.(conns := m.conns[addr := c.(live := c.live + [p], buf := c.buf + [Command(p.key)])],
         loc := m.loc[p.key := OnConn(addr)], sends := Bump(m.sends, p.key))
    else Enqueue(m, env, addr, [p], p.key)
  }

  function Sentinel(p: Pending): Pending { p.(skip := true, asking := true) }

  /** Unlike Send, this writes to the socket at once. */
  function SendAsk(m: Mux, env: Env, addr: Addr, p: Pending): Mux {
    if addr in m.conns then
      var c := m.conns[addr];
      m.(conns := m.conns[addr := c.(live := c.live + [Sentinel(p), p], wire := c.wire + [Asking, Command(p.key)])],
         loc := m.loc[p.key := OnConn(addr)], sends := Bump(m.sends, p.key),
         reordered := m.reordered || c.buf != [])
    else Enqueue(m, env, addr, [Sentinel(p), p], p.key)
  }

  /** What onOpen writes for a queued entry. */
  function Written(p: Pending): WireCmd { if p.asking then Asking else Command(p.key) }

  function WrittenAll(q: seq<Pending>): (r: seq<WireCmd>)
    ensures |r| == |q| && forall i | 0 <= i < |q| :: r[i] == Written(q[i])
  {
    seq(|q|, i requires 0 <= i < |q| => Written(q[i]))
  }

  function ReadonlySentinel(p: Pending): Pending { Pending(p.key, 0, true, false) }

  function Relocate(loc: map<Key, Loc>, from: Loc, to: Loc): map<Key, Loc> {
    map k | k in loc :: if loc[k] == from then to else loc[k]
  }

  function Open(m: Mux, addr: Addr, replica: bool): Mux {
    var queued := Queue(m, addr);
    var greet := replica && queued != [];
    var live := (if greet then [ReadonlySentinel(queued[0])] else []) + queued;
    var wire := (if greet then [Readonly] else []) + WrittenAll(queued);
    m.(conns := m.conns[addr := Conn(live, [], wire)], dialing := m.dialing - {addr},
       loc := Relocate(m.loc, Dialing(addr), OnConn(addr)))
  }

  function DisconnectError(addr: Addr): Bytes { EncodeError(Ascii("ERR cluster node disconnected: ") + addr) }

  function Close(m: Mux, env: Env, addr: Addr): Mux {
    if addr !in m.conns then m
    else
      m.(conns := m.conns - {addr},
         loc := FailAll(m.loc, OnConn(addr), env.alive, DisconnectError(addr)),
         outs := m.outs + Posts(m.conns[addr].live, env.alive, DisconnectError(addr)))
  }

  function FlushConn(c: Conn): Conn { c.(wire := c.wire + c.buf, buf := []) }

  function FlushAll(m: Mux): Mux { m.(conns := map a | a in m.conns :: FlushConn(m.conns[a])) }

  /** The server answers the command at the front of the wire. */
  function Serve(m: Mux, addr: Addr, raw: Bytes): Mux
    requires addr in m.conns
  {
    var c := m.conns[addr];
    if c.wire == [] then m.(unsolicited := true)
    else
      m.(conns := m.conns[addr := c.(wire := c.wire[1..])],
         served := if c.wire[0].Command? then m.served[c.wire[0].key := raw] else m.served)
  }

  /** Take the oldest pending entry; a real request is then nowhere until it is
      sent on or finished. */
  function Pop(m: Mux, addr: Addr): Mux
    requires addr in m.conns && m.conns[addr].live != []
  {
    var c := m.conns[addr];
    m.(conns := m.conns[addr := c.(live := c.live[1..])],
       loc := if c.live[0].skip then m.loc else m.loc - {c.live[0].key})
  }

  function Finish(m: Mux, env: Env, k: Key, raw: Bytes): Mux {
    if k.client !in env.alive then m.(loc := m.loc[k := Finished(Dropped)])
    else m.(loc := m.loc[k := Finished(Answered(raw))], outs := m.outs + [DeliverTo(k, raw)])
  }

  /** Where a popped request goes, given the reply that was read. */
  function Dispatch(m: Mux, env: Env, p: Pending, r: Reply): Mux {
    var target := ParseRedirection(r.msg);
    var again := p.(depth := p.depth + 1);
    if r.kind == KindMoved && p.depth < MAX_REDIRECTS && target.Some? then Send(m, env, target.value, again)
    else if r.kind == KindAsk && p.depth < MAX_REDIRECTS && target.Some? then SendAsk(m, env, target.value, again)
    else Finish(m, env, p.key, r.raw)
  }

  /** One turn of the onTraffic loop. */
  function OnReply(m: Mux, env: Env, addr: Addr, r: Reply): Mux {
    if addr !in m.conns then m
    else
      var served := Serve(m, addr, r.raw);
      var live := served.conns[addr].live;
      if live == [] then served
      else
        var popped := Pop(served, addr);
        if live[0].skip then popped else Dispatch(popped, env, live[0], r)
  }

  function OnReplies(m: Mux, env: Env, addr: Addr, rs: seq<Reply>): Mux
    decreases |rs|
  {
    if rs == [] then m else OnReplies(OnReply(m, env, addr, rs[0]), env, addr, rs[1..])
  }

  // ------------------------------------------------------------------ invariant

  /** The real requests of a queue. */
  function Keys(q: seq<Pending>): seq<Key> {
    if q == [] then [] else (if q[0].skip then [] else [q[0].key]) + Keys(q[1..])
  }

  predicate NoDup(ks: seq<Key>) { forall i, j | 0 <= i < j < |ks| :: ks[i] != ks[j] }

  /** The requests located at `at` are exactly those in `q`, once each. */
  ghost predicate Holds(loc: map<Key, Loc>, q: seq<Pending>, at: Loc) {
    NoDup(Keys(q)) && forall k :: k in Keys(q) <==> k in loc && loc[k] == at
  }

  /** An ASKING sentinel stands right before the request it is for. */
  predicate Paired(q: seq<Pending>) {
    forall i | 0 <= i < |q| && q[i].asking :: i + 1 < |q| && !q[i + 1].skip && q[i + 1].key == q[i].key
  }

  /** No request is sent more than once per redirect, and redirects stop at 16. */
  predicate Bounded(sends: map<Key, nat>, q: seq<Pending>) {
    && Paired(q)
    && forall i | 0 <= i < |q| ::
         q[i].depth <= MAX_REDIRECTS &&
         (!q[i].skip ==> !q[i].asking && q[i].key in sends && sends[q[i].key] == q[i].depth + 1)
  }

  /** What the server must see for an entry. */
  function Expect(p: Pending): WireCmd { if !p.skip then Command(p.key) else if p.asking then Asking else Readonly }

  /** Entry by entry, pending is what is on the wire followed by the buffer. */
  predicate Aligned(c: Conn) {
    && |c.live| == |c.wire| + |c.buf|
    && forall i | 0 <= i < |c.live| :: Expect(c.live[i]) == (c.wire + c.buf)[i]
  }

  /** Only real requests and ASKING sentinels are queued while dialling. */
  predicate Waiting(q: seq<Pending>) { q != [] && forall i | 0 <= i < |q| :: q[i].skip == q[i].asking }

  ghost predicate Placed(m: Mux) {
    && (forall a | a in m.conns :: a !in m.dialing)
    && (forall a | a in m.dialing :: Waiting(m.dialing[a]) && Holds(m.loc, m.dialing[a], Dialing(a)))
    && (forall a | a in m.conns :: Holds(m.loc, m.conns[a].live, OnConn(a)))
    && forall k | k in m.loc :: (m.loc[k].Dialing? ==> m.loc[k].addr in m.dialing) && (m.loc[k].OnConn? ==> m.loc[k].addr in m.conns)
  }

  /** Only whole requests are buffered: sentinels are written at once. */
  predicate Buffered(buf: seq<WireCmd>) { forall i | 0 <= i < |buf| :: buf[i].Command? }

  ghost predicate Limited(m: Mux) {
    && (forall a | a in m.conns :: Buffered(m.conns[a].buf))
    && (forall a | a in m.dialing :: Bounded(m.sends, m.dialing[a]))
    && (forall a | a in m.conns :: Bounded(m.sends, m.conns[a].live))
    && (forall k | k in m.sends :: 0 < m.sends[k] <= MAX_REDIRECTS + 1)
  }

  /** Replies reach the requests they answer. */
  ghost predicate Truthful(m: Mux) {
    && (forall a | a in m.conns :: Aligned(m.conns[a]))
    && forall k | k in m.loc && m.loc[k].Finished? && m.loc[k].outcome.Answered? ::
         k in m.served && m.served[k] == m.loc[k].outcome.data
  }

  /** Conservation and bounds always; alignment and truth unless an ASK overtook
      buffered commands or a server spoke unasked. */
  ghost predicate Inv(m: Mux) {
    Placed(m) && Limited(m) && (!m.reordered && !m.unsolicited ==> Truthful(m))
  }

  // --------------------------------------------------------------- queue lemmas

  lemma {:induction false} KeysConcat(a: seq<Pending>, b: seq<Pending>)
    ensures Keys(a + b) == Keys(a) + Keys(b)
  {
    if a == [] {
      assert a + b == b;
    } else {
      assert (a + b)[1..] == a[1..] + b;
      KeysConcat(a[1..], b);
    }
  }

  lemma KeysOne(q: seq<Pending>, p: Pending)
    requires !p.skip
    ensures Keys(q + [p]) == Keys(q) + [p.key]
    ensures Keys(q + [Sentinel(p), p]) == Keys(q) + [p.key]
  {
    KeysConcat(q, [p]);
    KeysConcat(q, [Sentinel(p), p]);
    assert [Sentinel(p), p][1..] == [p];
  }

  /** A request that was nowhere joins a queue. */
  lemma HoldsJoin(loc: map<Key, Loc>, q: seq<Pending>, q': seq<Pending>, at: Loc, k: Key)
    requires Holds(loc, q, at) && k !in loc && Keys(q') == Keys(q) + [k]
    ensures Holds(loc[k := at], q', at)
  {
    assert k !in Keys(q);
  }

  /** The others do not notice. */
  lemma HoldsElsewhere(loc: map<Key, Loc>, q: seq<Pending>, at: Loc, k: Key, to: Loc)
    requires Holds(loc, q, at) && k !in loc && to != at
    ensures Holds(loc[k := to], q, at)
  {
    assert k !in Keys(q);
  }

  lemma HoldsHead(loc: map<Key, Loc>, q: seq<Pending>, at: Loc)
    requires Holds(loc, q, at) && q != []
    ensures Holds(if q[0].skip then loc else loc - {q[0].key}, q[1..], at)
    ensures !q[0].skip ==> q[0].key in loc && loc[q[0].key] == at
  {
    if !q[0].skip {
      var ks := Keys(q);
      assert ks == [q[0].key] + Keys(q[1..]);
      assert ks[1..] == Keys(q[1..]) && ks[0] == q[0].key;
      assert q[0].key in ks;
      assert q[0].key !in ks[1..];
    } else {
      assert Keys(q) == Keys(q[1..]);
    }
  }

  /** Nobody waits for an address that has neither a dial nor a connection. */
  lemma NobodyAt(loc: map<Key, Loc>, at: Loc)
    requires forall k | k in loc :: loc[k] != at
    ensures Holds(loc, [], at)
  {
  }

  lemma BoundedBump(sends: map<Key, nat>, loc: map<Key, Loc>, q: seq<Pending>, at: Loc, k: Key)
    requires Bounded(sends, q) && Holds(loc, q, at) && k !in loc
    ensures Bounded(Bump(sends, k), q)
  {
    forall i | 0 <= i < |q| && !q[i].skip ensures q[i].key != k {
      KeysAt(q, i);
    }
  }

  lemma {:induction false} KeysAt(q: seq<Pending>, i: nat)
    requires i < |q| && !q[i].skip
    ensures q[i].key in Keys(q)
    decreases |q|
  {
    if i > 0 {
      KeysAt(q[1..], i - 1);
    }
  }
}
