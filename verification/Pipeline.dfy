/**
 The pipelined backend connection (pkg/pool/pipeline.go): requests are taken from
 a channel in batches, written together, and their replies read in order.
 */
module Pipeline {
  import opened Prelude

  const BACKOFF_BASE: int := 100_000_000
  const BACKOFF_MAX: int := 4_000_000_000
  const MAX_BATCH: nat := 64

  /** What a caller of do gets. A value carries, as history, the number of the
      request the server was answering when it sent it. */
  datatype Resp = Value(req: nat, data: Bytes) | Failure(err: Bytes)

  /** The loop's connection and backoff. `owed`: requests written to the current
      connection and not answered yet. Requests are numbered as they are taken off
      the channel, and `log` holds the response to each. */
  datatype Line = Line(open: bool, owed: seq<nat>, delay: int, until: Option<int>, next: nat, log: seq<Resp>)

  const START: Line := Line(false, [], 0, None, 0, [])

  /** What the clock and the network do to a batch: the error of a dial, how many
      requests can be written, whether the flush succeeds, and the values that can
      be read before an error. */
  datatype Net = Net(
    now: int, later: int, dial: Option<Bytes>, written: nat, flushed: bool, vals: seq<Bytes>, readErr: Bytes)

  function Unavailable(addr: Bytes): Resp { Failure(Ascii("backend ") + addr + Ascii(" unavailable (reconnecting)")) }

  const WRITE_ERROR: Resp := Failure(Ascii("write error"))
  const CONNECTION_RESET: Resp := Failure(Ascii("connection reset"))

  function Copies(r: Resp, n: nat): (rs: seq<Resp>)
    ensures |rs| == n && forall j | 0 <= j < n :: rs[j] == r
  {
    seq(n, j => r)
  }

  function Numbers(from: nat, n: nat): (ids: seq<nat>)
    ensures |ids| == n && forall j | 0 <= j < n :: ids[j] == from + j
  {
    seq(n, j => from + j)
  }

  function Respond(s: Line, rs: seq<Resp>): Line { s.(next := s.next + |rs|, log := s.log + rs) }

  function NextDelay(delay: int): int {
    if delay == 0 then BACKOFF_BASE else if delay * 2 > BACKOFF_MAX then BACKOFF_MAX else delay * 2
  }

  /** Close the connection and back off for the shortest time. */
  function Drop(s: Line, later: int): Line {
    s.(open := false, owed := [], delay := BACKOFF_BASE, until := Some(later + BACKOFF_BASE))
  }

  /** A value is the server's reply to the oldest request it still owes. */
  function Values(owed: seq<nat>, vals: seq<Bytes>, n: nat): (rs: seq<Resp>)
    requires n <= |owed| && n <= |vals|
    ensures |rs| == n && forall j | 0 <= j < n :: rs[j] == Value(owed[j], vals[j])
  {
    seq(n, j requires 0 <= j < n => Value(owed[j], vals[j]))
  }

  /** The connection is up: write n requests, then read n values. */
  function Exchange(s: Line, n: nat, net: Net): Line {
    if net.written < n || !net.flushed then Respond(Drop(s, net.later), Copies(WRITE_ERROR, n))
    else
      var owed := s.owed + Numbers(s.next, n);
      if |net.vals| >= n then Respond(s.(owed := owed[n..]), Values(owed, net.vals, n))
      else
        var k := |net.vals|;
        Respond(Drop(s, net.later),
                Values(owed, net.vals, k) + [Failure(net.readErr)] + Copies(CONNECTION_RESET, n - k - 1))
  }

  function Dialled(s: Line): Line { s.(open := true, owed := [], delay := 0, until := None) }

  /** One turn of the loop over a batch of n requests. */
  function Batch(s: Line, addr: Bytes, n: nat, net: Net): Line {
    if s.open then Exchange(s, n, net)
    else if s.until.Some? && s.until.value > net.now then Respond(s, Copies(Unavailable(addr), n))
    else if net.dial.Some? then
      var delay := NextDelay(s.delay);
      Respond(s.(delay := delay, until := Some(net.later + delay)), Copies(Failure(net.dial.value), n))
    else Exchange(Dialled(s), n, net)
  }

  function Batches(s: Line, addr: Bytes, work: seq<(nat, Net)>): Line
    decreases |work|
  {
    if work == [] then s else Batches(Batch(s, addr, work[0].0, work[0].1), addr, work[1..])
  }

  // ------------------------------------------------------------------- properties

  /** Response j is for request j: if it is a value, it is what the server sent in
      answer to request j. Between batches the server owes nothing. */
  predicate Matched(s: Line) {
    && |s.log| == s.next && s.owed == []
    && forall j | 0 <= j < |s.log| && s.log[j].Value? :: s.log[j].req == j
  }

  predicate DelayOk(delay: int) { delay == 0 || BACKOFF_BASE <= delay <= BACKOFF_MAX }

  /** A connection that is up has no backoff; one that is down either never was up
      or backs off. */
  predicate BackoffOk(s: Line) { DelayOk(s.delay) && (s.until.Some? <==> s.delay > 0) && (s.open ==> s.delay == 0) }

  lemma ExchangeMatched(s: Line, n: nat, net: Net)
    requires Matched(s) && BackoffOk(s) && s.open
    ensures Matched(Exchange(s, n, net)) && BackoffOk(Exchange(s, n, net))
    ensures Exchange(s, n, net).next == s.next + n
  {
    if net.written < n || !net.flushed {
      assert Exchange(s, n, net) == Respond(Drop(s, net.later), Copies(WRITE_ERROR, n));
    } else {
      var owed := s.owed + Numbers(s.next, n);
      assert owed == Numbers(s.next, n) && owed[n..] == [];
      if |net.vals| >= n {
        assert Exchange(s, n, net) == Respond(s.(owed := []), Values(owed, net.vals, n));
      }
    }
  }

  /** Every path through a batch answers each request once, with its own reply. */
  lemma BatchMatched(s: Line, addr: Bytes, n: nat, net: Net)
    requires Matched(s) && BackoffOk(s)
    ensures var s' := Batch(s, addr, n, net);
            Matched(s') && BackoffOk(s') && s'.next == s.next + n && s.log <= s'.log
  {
    hide Exchange;
    if s.open {
      ExchangeMatched(s, n, net);
      ExchangeLog(s, n, net);
    } else {
      var up := Dialled(s);
      ExchangeMatched(up, n, net);
      ExchangeLog(up, n, net);
    }
  }

  lemma ExchangeLog(s: Line, n: nat, net: Net)
    ensures s.log <= Exchange(s, n, net).log
  {
  }

  function Total(work: seq<(nat, Net)>): nat {
    if work == [] then 0 else work[0].0 + Total(work[1..])
  }

  /** Over any run of batches, whatever the network does: exactly one response per
      request, in order; every value answers its own request; the backoff is 0 or
      between 100ms and 4s. */
  lemma {:induction false} OneResponseEach(s: Line, addr: Bytes, work: seq<(nat, Net)>)
    requires Matched(s) && BackoffOk(s)
    ensures var s' := Batches(s, addr, work);
            Matched(s') && BackoffOk(s') && s'.next == s.next + Total(work) && s.log <= s'.log
    decreases |work|
  {
    hide Batch, Matched, BackoffOk;
    if work != [] {
      BatchMatched(s, addr, work[0].0, work[0].1);
      OneResponseEach(Batch(s, addr, work[0].0, work[0].1), addr, work[1..]);
    }
  }

  /** From a connection never used. */
  lemma OneResponseEachFromStart(addr: Bytes, work: seq<(nat, Net)>)
    ensures var s := Batches(START, addr, work);
            && |s.log| == Total(work) && s.owed == [] && DelayOk(s.delay)
            && forall j | 0 <= j < |s.log| && s.log[j].Value? :: s.log[j].req == j
  {
    hide Batches;
    OneResponseEach(START, addr, work);
  }

  // ------------------------------------------------------------- who is answered what

  /** All that matters of the past: whether the connection is up, and if not, how many
      failures in a row there were since it last was, losing it included, and when the
      last one was. */
  datatype Ledger = Ledger(up: bool, failures: nat, last: int)

  const NEVER_USED: Ledger := Ledger(false, 0, 0)

  function Pow2(k: nat): (r: nat)
    ensures r > 0
  {
    if k == 0 then 1 else 2 * Pow2(k - 1)
  }

  /** 100ms after the first failure, twice as long after each further one, at most 4s. */
  function BackoffAfter(failures: nat): int {
    if failures == 0 then 0
    else
      var doubled := 100_000_000 * Pow2(failures - 1);
      if doubled < 4_000_000_000 then doubled else 4_000_000_000
  }

  /** Requests are refused without dialling until the backoff has passed. */
  predicate Barred(l: Ledger, now: int) { !l.up && l.failures > 0 && now < l.last + BackoffAfter(l.failures) }

  /** The network carries n requests and their replies. */
  predicate Carries(net: Net, n: nat) { net.written >= n && net.flushed && |net.vals| >= n }

  function Entered(l: Ledger, n: nat, net: Net): Ledger {
    if Barred(l, net.now) then l
    else if !l.up && net.dial.Some? then Ledger(false, l.failures + 1, net.later)
    else if Carries(net, n) then Ledger(true, 0, 0)
    else Ledger(false, 1, net.later)
  }

  /** What the n requests numbered from `first` are answered. */
  function Answers(l: Ledger, addr: Bytes, first: nat, n: nat, net: Net): (rs: seq<Resp>)
    ensures |rs| == n
  {
    if Barred(l, net.now) then Copies(Unavailable(addr), n)
    else if !l.up && net.dial.Some? then Copies(Failure(net.dial.value), n)
    else if net.written < n || !net.flushed then Copies(WRITE_ERROR, n)
    else
      seq(n, j requires 0 <= j < n =>
        if j < |net.vals| then Value(first + j, net.vals[j])
        else if j == |net.vals| then Failure(net.readErr)
        else CONNECTION_RESET)
  }

  function LedgerAfter(l: Ledger, work: seq<(nat, Net)>): Ledger
    decreases |work|
  {
    if work == [] then l else LedgerAfter(Entered(l, work[0].0, work[0].1), work[1..])
  }

  function AllAnswers(l: Ledger, addr: Bytes, first: nat, work: seq<(nat, Net)>): seq<Resp>
    decreases |work|
  {
    if work == [] then []
    else
      Answers(l, addr, first, work[0].0, work[0].1) +
      AllAnswers(Entered(l, work[0].0, work[0].1), addr, first + work[0].0, work[1..])
  }

  /** The connection's delay and deadline are what the ledger says. */
  predicate Books(s: Line, l: Ledger) {
    && s.open == l.up && (l.up ==> l.failures == 0) && s.delay == BackoffAfter(l.failures)
    && s.until == if l.failures == 0 then None else Some(l.last + BackoffAfter(l.failures))
  }

  lemma DelayDoubles(k: nat)
    ensures NextDelay(BackoffAfter(k)) == BackoffAfter(k + 1)
  {
    if k > 0 {
      assert Pow2(k) == 2 * Pow2(k - 1);
    }
  }

  lemma AnswersRead(l: Ledger, addr: Bytes, first: nat, n: nat, net: Net)
    requires l.up && net.written >= n && net.flushed
    ensures var owed, k := Numbers(first, n), |net.vals|;
            Answers(l, addr, first, n, net) ==
            if k >= n then Values(owed, net.vals, n)
            else Values(owed, net.vals, k) + [Failure(net.readErr)] + Copies(CONNECTION_RESET, n - k - 1)
  {
  }

  /** With nothing owed, the three ways an exchange ends. */
  lemma ExchangeCases(s: Line, l: Ledger, addr: Bytes, n: nat, net: Net)
    requires s.owed == [] && l.up
    ensures Exchange(s, n, net) ==
            Respond(if Carries(net, n) then s else Drop(s, net.later), Answers(l, addr, s.next, n, net))
  {
    hide Respond, Drop, Values, Numbers, Copies;
    if net.written >= n && net.flushed {
      AnswersRead(l, addr, s.next, n, net);
      var owed := s.owed + Numbers(s.next, n);
      assert owed == Numbers(s.next, n) && owed[n..] == [] && s.(owed := []) == s;
    }
  }

  lemma ExchangeBooks(s: Line, l: Ledger, addr: Bytes, n: nat, net: Net)
    requires s.owed == [] && s.open && l.up && Books(s, l)
    ensures var s' := Exchange(s, n, net);
            Books(s', Entered(l, n, net)) && s'.log == s.log + Answers(l, addr, s.next, n, net)
  {
    hide Exchange, Answers, Carries;
    assert BackoffAfter(1) == BACKOFF_BASE by { assert Pow2(0) == 1; }
    ExchangeCases(s, l, addr, n, net);
  }

  lemma BatchBooks(s: Line, l: Ledger, addr: Bytes, n: nat, net: Net)
    requires Matched(s) && Books(s, l)
    ensures var s' := Batch(s, addr, n, net);
            Books(s', Entered(l, n, net)) && s'.log == s.log + Answers(l, addr, s.next, n, net)
  {
    hide Exchange, BackoffAfter, NextDelay;
    assert BackoffAfter(0) == 0 by { NoBackoff(); }
    if s.open {
      ExchangeBooks(s, l, addr, n, net);
    } else {
      DelayDoubles(l.failures);
      var up := Dialled(s);
      ExchangeBooks(up, Ledger(true, 0, 0), addr, n, net);
    }
  }

  lemma NoBackoff()
    ensures BackoffAfter(0) == 0
  {
  }

  /** Over any run of batches: every response is the one the ledger prescribes. */
  lemma {:induction false} RunBooks(s: Line, l: Ledger, addr: Bytes, work: seq<(nat, Net)>)
    requires Matched(s) && BackoffOk(s) && Books(s, l)
    ensures var s' := Batches(s, addr, work);
            Books(s', LedgerAfter(l, work)) && s'.log == s.log + AllAnswers(l, addr, s.next, work)
    decreases |work|
  {
    hide Batch, Matched, BackoffOk, Books, Entered, Answers;
    if work == [] {
      assert s.log + [] == s.log;
    } else {
      var n, net := work[0].0, work[0].1;
      BatchBooks(s, l, addr, n, net);
      BatchMatched(s, addr, n, net);
      RunBooks(Batch(s, addr, n, net), Entered(l, n, net), addr, work[1..]);
      var rest := AllAnswers(Entered(l, n, net), addr, s.next + n, work[1..]);
      assert s.log + Answers(l, addr, s.next, n, net) + rest == s.log + (Answers(l, addr, s.next, n, net) + rest);
    }
  }

  /** From a connection never used: who is refused, who is answered, and how long each
      backoff lasts, over every run. */
  lemma AnsweredByTheLedger(addr: Bytes, work: seq<(nat, Net)>)
    ensures var s := Batches(START, addr, work);
            s.log == AllAnswers(NEVER_USED, addr, 0, work) && Books(s, LedgerAfter(NEVER_USED, work))
  {
    hide Batches, AllAnswers, LedgerAfter;
    NoBackoff();
    RunBooks(START, NEVER_USED, addr, work);
    assert [] + AllAnswers(NEVER_USED, addr, 0, work) == AllAnswers(NEVER_USED, addr, 0, work);
  }

  /** A connection that is up, or whose backoff has passed and that can be dialled, on a
      network that carries the batch: every request gets its own value. */
  lemma HealthyBatchAnswered(s: Line, addr: Bytes, n: nat, net: Net)
    requires Matched(s) && BackoffOk(s) && Carries(net, n)
    requires s.open || (net.dial.None? && (s.until.None? || s.until.value <= net.now))
    ensures var s' := Batch(s, addr, n, net);
            && s'.open && s'.delay == 0 && |s'.log| == |s.log| + n && s.log <= s'.log
            && forall j | 0 <= j < n :: s'.log[|s.log| + j] == Value(s.next + j, net.vals[j])
  {
    hide Exchange, Matched, Answers, Batch;
    assert s.owed == [] && |s.log| == s.next by { MatchedOwesNothing(s); }
    UpOrDialled(s, addr, n, net);
    ExchangeCases(if s.open then s else Dialled(s), Ledger(true, 0, 0), addr, n, net);
    CarriedAnswers(addr, s.next, n, net);
  }

  lemma UpOrDialled(s: Line, addr: Bytes, n: nat, net: Net)
    requires s.open || (net.dial.None? && (s.until.None? || s.until.value <= net.now))
    ensures Batch(s, addr, n, net) == Exchange(if s.open then s else Dialled(s), n, net)
  {
    hide Exchange;
  }

  lemma MatchedOwesNothing(s: Line)
    requires Matched(s)
    ensures s.owed == [] && |s.log| == s.next
  {
  }

  lemma CarriedAnswers(addr: Bytes, first: nat, n: nat, net: Net)
    requires Carries(net, n)
    ensures var rs := Answers(Ledger(true, 0, 0), addr, first, n, net);
            forall j | 0 <= j < n :: rs[j] == Value(first + j, net.vals[j])
  {
  }

  lemma {:induction false} LastFailure(l: Ledger, work: seq<(nat, Net)>)
    ensures var l' := LedgerAfter(l, work);
            l'.failures > 0 ==> l' == l || exists i :: 0 <= i < |work| && l'.last == work[i].1.later
    decreases |work|
  {
    hide Barred, Carries;
    if work != [] {
      var l1 := Entered(l, work[0].0, work[0].1);
      LastFailure(l1, work[1..]);
      var l' := LedgerAfter(l, work);
      if l'.failures > 0 && l' != l {
        if l' == l1 {
          assert l'.last == work[0].1.later;
        } else {
          var i :| 0 <= i < |work[1..]| && l'.last == work[1..][i].1.later;
          assert l'.last == work[i + 1].1.later;
        }
      }
    }
  }

  /** However a run went: once 4s have passed since its last failure, a batch that can be
      dialled and carried is answered in full. */
  lemma AlwaysRecovers(addr: Bytes, work: seq<(nat, Net)>, n: nat, net: Net)
    requires net.dial.None? && Carries(net, n)
    requires forall i | 0 <= i < |work| :: net.now >= work[i].1.later + 4_000_000_000
    ensures var s := Batches(START, addr, work); var s' := Batch(s, addr, n, net);
            && s'.open && |s'.log| == |s.log| + n && s.log <= s'.log
            && forall j | 0 <= j < n :: s'.log[|s.log| + j] == Value(s.next + j, net.vals[j])
  {
    hide Batches, AllAnswers, LedgerAfter, Batch, Carries, Pow2;
    var s, l := Batches(START, addr, work), LedgerAfter(NEVER_USED, work);
    AnsweredByTheLedger(addr, work);
    OneResponseEach(START, addr, work);
    LastFailure(NEVER_USED, work);
    if s.until.Some? {
      var i :| 0 <= i < |work| && l.last == work[i].1.later;
    }
    HealthyBatchAnswered(s, addr, n, net);
  }

  // ------------------------------------------------------------------ the channel

  /** What one turn takes off the channel: a batch, or a batch it abandons because
      the channel was found closed while draining. */
  datatype Taken = Taken(batch: seq<Bytes>, rest: seq<Bytes>) | Abandoned(batch: seq<Bytes>) | Ended

  /** `ch` is what the channel will deliver before it is empty. */
  method Drain(ch: seq<Bytes>, closed: bool) returns (t: Taken)
    ensures t.Ended? <==> ch == []
    ensures t.Abandoned? <==> closed && 0 < |ch| < 64
    ensures t.Taken? ==> 0 < |t.batch| <= 64 && t.batch + t.rest == ch && (|t.batch| < 64 ==> t.rest == [])
    ensures t.Abandoned? ==> t.batch == ch
  {
    if ch == [] {
      return Ended;
    }
    var pending, rest := [ch[0]], ch[1..];
    while |pending| < MAX_BATCH
      invariant pending + rest == ch && 0 < |pending| <= MAX_BATCH
      decreases MAX_BATCH - |pending|
    {
      if rest == [] {
        assert pending == ch;
        if closed {
          return Abandoned(pending);
        }
        return Taken(pending, rest);
      }
      assert pending + rest == (pending + [rest[0]]) + rest[1..];
      pending, rest := pending + [rest[0]], rest[1..];
    }
    return Taken(pending, rest);
  }

  /** The turns that take n requests off the channel; `nets(i)` is the network at turn
      i. A closed channel ends the last turn before it writes anything, unless the
      batch is full. */
  function Turns(n: nat, closed: bool, nets: nat -> Net, i: nat): seq<(nat, Net)>
    decreases n
  {
    if n == 0 || (closed && n < MAX_BATCH) then []
    else if n < MAX_BATCH then [(n, nets(i))]
    else [(MAX_BATCH, nets(i))] + Turns(n - MAX_BATCH, closed, nets, i + 1)
  }

  lemma {:induction false} TurnsTotal(n: nat, closed: bool, nets: nat -> Net, i: nat)
    ensures Total(Turns(n, closed, nets, i)) == n - if closed then n % MAX_BATCH else 0
    decreases n
  {
    hide Total;
    if n >= MAX_BATCH {
      var rest := Turns(n - MAX_BATCH, closed, nets, i + 1);
      TurnsTotal(n - MAX_BATCH, closed, nets, i + 1);
      TotalFrom((MAX_BATCH, nets(i)), rest);
      OneBatchLess(n);
    } else if n > 0 && !closed {
      TotalFrom((n, nets(i)), []);
      assert [(n, nets(i))] + [] == [(n, nets(i))];
    } else {
      assert Total([]) == 0 by { NoWork(); }
    }
  }

  lemma TotalFrom(first: (nat, Net), rest: seq<(nat, Net)>)
    ensures Total([first] + rest) == first.0 + Total(rest)
    ensures Total([]) == 0
  {
    assert ([first] + rest)[1..] == rest;
  }

  lemma NoWork()
    ensures Total([]) == 0
  {
  }

  lemma OneBatchLess(n: nat)
    requires n >= MAX_BATCH
    ensures (n - MAX_BATCH) % MAX_BATCH == n % MAX_BATCH
  {
  }

  /** The connection goes when the channel has been found closed. */
  function Ending(s: Line, closed: bool): Line { if closed then s.(open := false, owed := []) else s }

  /** Everything the channel holds, served. */
  function Served(s: Line, addr: Bytes, n: nat, closed: bool, nets: nat -> Net): Line {
    Ending(Batches(s, addr, Turns(n, closed, nets, 0)), closed)
  }

  /** Of the requests waiting in the channel, the k-th is answered, once and by its own
      reply, if and only if the channel is open or k is before the last n % 64: a close
      leaves exactly those callers without a response. */
  lemma AnsweredIff(s: Line, addr: Bytes, n: nat, closed: bool, nets: nat -> Net, k: nat)
    requires Matched(s) && BackoffOk(s) && k < n
    ensures var s' := Served(s, addr, n, closed, nets);
            && Matched(s') && BackoffOk(s') && s.log <= s'.log
            && (s.next + k < |s'.log| <==> !closed || k < n - n % 64)
  {
    hide Batches, Turns;
    OneResponseEach(s, addr, Turns(n, closed, nets, 0));
    TurnsTotal(n, closed, nets, 0);
  }
}

/** The batch turn, loop by loop. */
module PipelineCode {
  import opened Prelude
  import opened Pipeline

  /** `owed` and `next` are history. */
  class PipeConn {
    const addr: Bytes
    var open: bool
    var backoffDelay: int
    var backoffUntil: Option<int>
    var sent: seq<Resp>
    var owed: seq<nat>
    var next: nat

    function Abstract(): Line
      reads this
    {
      Line(open, owed, backoffDelay, backoffUntil, next, sent)
    }

    constructor (address: Bytes)
      ensures Abstract() == START && addr == address
    {
      addr, open, backoffDelay, backoffUntil, sent := address, false, 0, None, [];
      owed, next := [], 0;
    }

    /** The same response to n requests. */
    method RespondAll(r: Resp, n: nat)
      modifies this`sent, this`next
      ensures Abstract() == Respond(old(Abstract()), Copies(r, n))
    {
      var i := 0;
      while i < n
        invariant i <= n && sent == old(sent) + Copies(r, i) && next == old(next)
      {
        sent := sent + [r];
        i := i + 1;
      }
      next := next + n;
    }

    method CloseAndBackOff(later: int)
      modifies this`open, this`owed, this`backoffDelay, this`backoffUntil
      ensures Abstract() == Drop(old(Abstract()), later)
    {
      open, backoffDelay, backoffUntil := false, BACKOFF_BASE, Some(later + BACKOFF_BASE);
      owed := [];
    }

    /** Write the requests one by one, stopping at the first error. */
    method WriteRequests(n: nat, net: Net) returns (ok: bool)
      modifies this`owed
      ensures ok == (net.written >= n && net.flushed)
      ensures ok ==> owed == old(owed) + Numbers(next, n)
    {
      var i := 0;
      while i < n
        invariant i <= n && i <= net.written
        invariant owed == old(owed) + Numbers(next, i)
      {
        if i == net.written {
          return false;
        }
        owed := owed + [next + i];
        i := i + 1;
      }
      return net.flushed;
    }

    /** Read values until all n requests are answered or a read fails. */
    method ReadReplies(n: nat, net: Net)
      requires |owed| >= n
      modifies this
      ensures |net.vals| >= n ==>
                Abstract() == Respond(old(Abstract()).(owed := old(owed)[n..]), Values(old(owed), net.vals, n))
      ensures |net.vals| < n ==>
                Abstract() == Respond(Drop(old(Abstract()), net.later),
                                      Values(old(owed), net.vals, |net.vals|) + [Failure(net.readErr)] +
                                      Copies(CONNECTION_RESET, n - |net.vals| - 1))
    {
      var i := 0;
      while i < n
        invariant i <= n && i <= |net.vals|
        invariant owed == old(owed)[i..] && next == old(next) + i
        invariant sent == old(sent) + Values(old(owed), net.vals, i)
        invariant open == old(open) && backoffDelay == old(backoffDelay) && backoffUntil == old(backoffUntil)
      {
        if i == |net.vals| {
          CloseAndBackOff(net.later);
          sent, next := sent + [Failure(net.readErr)], next + 1;
          RespondAll(CONNECTION_RESET, n - i - 1);
          return;
        }
        sent, owed, next := sent + [Value(owed[0], net.vals[i])], owed[1..], next + 1;
        i := i + 1;
      }
    }

    method WriteAndRead(n: nat, net: Net)
      modifies this
      ensures Abstract() == Exchange(old(Abstract()), n, net)
    {
      var ok := WriteRequests(n, net);
      if !ok {
        CloseAndBackOff(net.later);
        RespondAll(WRITE_ERROR, n);
      } else {
        ReadReplies(n, net);
      }
    }

    /** One turn of the loop. */
    method ServeBatch(n: nat, net: Net)
      modifies this
      ensures Abstract() == Batch(old(Abstract()), addr, n, net)
    {
      if !open {
        if backoffUntil.Some? && backoffUntil.value > net.now {
          RespondAll(Unavailable(addr), n);
          return;
        }
        if net.dial.Some? {
          if backoffDelay == 0 {
            backoffDelay := BACKOFF_BASE;
          } else {
            backoffDelay := backoffDelay * 2;
            if backoffDelay > BACKOFF_MAX {
              backoffDelay := BACKOFF_MAX;
            }
          }
          backoffUntil := Some(net.later + backoffDelay);
          RespondAll(Failure(net.dial.value), n);
          return;
        }
        open, owed, backoffDelay, backoffUntil := true, [], 0, None;
      }
      WriteAndRead(n, net);
    }

    /** The loop, until the channel is empty or found closed; `lost` are the requests it
        leaves without a response. */
    method Loop(ch: seq<Bytes>, closed: bool, nets: nat -> Net) returns (lost: seq<Bytes>)
      modifies this
      ensures Abstract() == Served(old(Abstract()), addr, |ch|, closed, nets)
      ensures lost == if closed then ch[|ch| - |ch| % 64..] else []
    {
      hide Batch, Batches, Turns;
      var rest, i := ch, 0;
      lost := [];
      while rest != []
        invariant |rest| <= |ch| && rest == ch[|ch| - |rest|..] && lost == []
        invariant closed ==> |rest| % MAX_BATCH == |ch| % MAX_BATCH
        invariant Batches(Abstract(), addr, Turns(|rest|, closed, nets, i)) ==
                  Batches(old(Abstract()), addr, Turns(|ch|, closed, nets, 0))
        decreases |rest|
      {
        var t := Drain(rest, closed);
        if t.Abandoned? {
          lost := t.batch;
          break;
        }
        assert t.rest == ch[|ch| - |t.rest|..] by { assert t.rest == rest[|t.batch|..]; }
        TurnTaken(Abstract(), addr, |rest|, |t.batch|, closed, nets, i);
        ServeBatch(|t.batch|, nets(i));
        rest, i := t.rest, i + 1;
      }
      TurnsOver(Abstract(), addr, |rest|, closed, nets, i);
      if closed {
        open, owed := false, [];
      }
    }
  }

  lemma TurnTaken(s: Line, addr: Bytes, n: nat, taken: nat, closed: bool, nets: nat -> Net, i: nat)
    requires 0 < taken <= MAX_BATCH && taken <= n && (taken < MAX_BATCH ==> taken == n && !closed)
    ensures Batches(s, addr, Turns(n, closed, nets, i)) ==
            Batches(Batch(s, addr, taken, nets(i)), addr, Turns(n - taken, closed, nets, i + 1))
    ensures closed ==> (n - taken) % MAX_BATCH == n % MAX_BATCH
  {
    hide Batch;
    var turns := Turns(n, closed, nets, i);
    assert turns[0] == (taken, nets(i)) && turns[1..] == Turns(n - taken, closed, nets, i + 1);
  }

  lemma TurnsOver(s: Line, addr: Bytes, n: nat, closed: bool, nets: nat -> Net, i: nat)
    requires n == 0 || (closed && n < MAX_BATCH)
    ensures Batches(s, addr, Turns(n, closed, nets, i)) == s
  {
  }
}
