/**
 The connection pool (pkg/pool/pool.go) as the atomic steps of many goroutines:
 the locked sections of Get, put and the dial failure path, the non-blocking send
 of notify, and the receive of a blocked getter. Runs end before Close.
 */
module Pool {
  /** A pooled connection and when it was last used. */
  datatype Idle = Idle(id: nat, usedAt: int)

  /** What the mutex and the channel protect. */
  datatype Core = Core(idle: seq<Idle>, numConns: int, tokens: nat)

  datatype Config = Config(maxSize: nat, idleTimeout: int)

  /** The pool and the goroutines around it, counted by where they are: about to
      take the lock in Get, blocked on the channel, dialling, or about to notify.
      `held` are the connections in the hands of callers. */
  datatype State = State(
    core: Core, held: set<nat>, nextId: nat,
    running: nat, waiting: nat, dialling: nat, notifying: nat)

  predicate Expired(c: Idle, cfg: Config, now: int) { cfg.idleTimeout > 0 && now - c.usedAt > cfg.idleTimeout }

  /** How many connections are left once the expired ones at the end are closed. */
  function Kept(idle: seq<Idle>, cfg: Config, now: int): (n: nat)
    ensures n <= |idle|
    ensures n > 0 && cfg.idleTimeout > 0 ==> now - idle[n - 1].usedAt <= cfg.idleTimeout
    ensures forall i | n <= i < |idle| :: cfg.idleTimeout > 0 && now - idle[i].usedAt > cfg.idleTimeout
  {
    if idle == [] || !Expired(idle[|idle| - 1], cfg, now) then |idle|
    else Kept(idle[..|idle| - 1], cfg, now)
  }

  datatype Got = GotConn(id: nat) | MayDial | MustWait

  /** The locked section of Get. */
  function TryGet(c: Core, cfg: Config, now: int): (Core, Got) {
    var n := Kept(c.idle, cfg, now);
    var left := c.numConns - (|c.idle| - n);
    if n > 0 then (c.(idle := c.idle[..n - 1], numConns := left), GotConn(c.idle[n - 1].id))
    else if left < cfg.maxSize then (c.(idle := [], numConns := left + 1), MayDial)
    else (c.(idle := [], numConns := left), MustWait)
  }

  /** The locked section of put. */
  function PutBack(c: Core, cfg: Config, id: nat, broken: bool, now: int): Core {
    if !broken && |c.idle| < cfg.maxSize then c.(idle := c.idle + [Idle(id, now)])
    else c.(numConns := c.numConns - 1)
  }

  /** notify: a token, unless the channel is full. */
  function AddToken(c: Core, cfg: Config): Core {
    if c.tokens < cfg.maxSize then c.(tokens := c.tokens + 1) else c
  }

  // --------------------------------------------------------------- interleavings

  datatype Event =
    | CallGet
    | LockGet(now: int)
    | Dialled
    | DialFailed
    | Put(id: nat, broken: bool, now: int)
    | Notify
    | Receive
    | Cancel

  predicate Enabled(s: State, e: Event) {
    match e
    case CallGet => true
    case LockGet(_) => s.running > 0
    case Dialled => s.dialling > 0
    case DialFailed => s.dialling > 0
    case Put(id, _, _) => id in s.held
    case Notify => s.notifying > 0
    case Receive => s.waiting > 0 && s.core.tokens > 0
    case Cancel => s.waiting > 0
  }

  function Step(s: State, cfg: Config, e: Event): State
    requires Enabled(s, e)
  {
    match e
    case CallGet => s.(running := s.running + 1)
    case LockGet(now) =>
      var (core, got) := TryGet(s.core, cfg, now);
      var s' := s.(core := core, running := s.running - 1);
      (match got
       case GotConn(id) => s'.(held := s.held + {id})
       case MayDial => s'.(dialling := s.dialling + 1)
       case MustWait => s'.(waiting := s.waiting + 1))
    case Dialled => s.(dialling := s.dialling - 1, held := s.held + {s.nextId}, nextId := s.nextId + 1)
    case DialFailed =>
      s.(dialling := s.dialling - 1, core := s.core.(numConns := s.core.numConns - 1), notifying := s.notifying + 1)
    case Put(id, broken, now) =>
      s.(held := s.held - {id}, core := PutBack(s.core, cfg, id, broken, now), notifying := s.notifying + 1)
    case Notify => s.(core := AddToken(s.core, cfg), notifying := s.notifying - 1)
    case Receive =>
      s.(core := s.core.(tokens := s.core.tokens - 1), waiting := s.waiting - 1, running := s.running + 1)
    case Cancel => s.(waiting := s.waiting - 1)
  }

  const START: State := State(Core([], 0, 0), {}, 0, 0, 0, 0, 0)

  ghost predicate IsRun(s: State, cfg: Config, events: seq<Event>)
    decreases |events|
  {
    events == [] || (Enabled(s, events[0]) && IsRun(Step(s, cfg, events[0]), cfg, events[1..]))
  }

  function After(s: State, cfg: Config, events: seq<Event>): State
    requires IsRun(s, cfg, events)
    decreases |events|
  {
    if events == [] then s else After(Step(s, cfg, events[0]), cfg, events[1..])
  }

  // ------------------------------------------------------------------- invariant

  /** numConns counts the idle, the held and those being dialled, within maxSize. */
  predicate Accounted(s: State, cfg: Config) {
    s.core.numConns == |s.core.idle| + |s.held| + s.dialling <= cfg.maxSize && s.core.tokens <= cfg.maxSize
  }

  /** A connection is in one place: once in the idle list, or with one caller. */
  predicate Exclusive(s: State) {
    && (forall i, j | 0 <= i < j < |s.core.idle| :: s.core.idle[i].id != s.core.idle[j].id)
    && (forall i | 0 <= i < |s.core.idle| :: s.core.idle[i].id !in s.held && s.core.idle[i].id < s.nextId)
    && forall id | id in s.held :: id < s.nextId
  }

  /** What a getter could take now: an idle connection or unused capacity. */
  function Available(s: State, cfg: Config): int { |s.core.idle| + cfg.maxSize - s.core.numConns }

  function Min(a: int, b: int): int { if a < b then a else b }

  /** Enough goroutines are awake, or tokens under way, for what is available. */
  predicate NoLostWakeup(s: State, cfg: Config) {
    s.core.tokens + s.running + s.notifying >= Min(s.waiting + s.running, Available(s, cfg))
  }

  predicate Inv(s: State, cfg: Config) { Accounted(s, cfg) && Exclusive(s) && NoLostWakeup(s, cfg) }

  ghost predicate Counts(s: State, cfg: Config) { Accounted(s, cfg) && NoLostWakeup(s, cfg) }

  lemma LockGetCounts(s: State, cfg: Config, now: int)
    requires Counts(s, cfg) && Exclusive(s) && s.running > 0
    ensures Counts(Step(s, cfg, LockGet(now)), cfg)
  {
    hide Kept, Exclusive;
    var n := Kept(s.core.idle, cfg, now);
    if n > 0 {
      IdleIsFree(s, n - 1);
    }
  }

  lemma IdleIsFree(s: State, i: nat)
    requires Exclusive(s) && i < |s.core.idle|
    ensures s.core.idle[i].id !in s.held
  {
  }

  lemma PutCounts(s: State, cfg: Config, id: nat, broken: bool, now: int)
    requires Counts(s, cfg) && id in s.held
    ensures Counts(Step(s, cfg, Put(id, broken, now)), cfg)
  {
    assert |s.held - {id}| == |s.held| - 1;
  }

  lemma DialledCounts(s: State, cfg: Config)
    requires Counts(s, cfg) && Exclusive(s) && s.dialling > 0
    ensures Counts(Step(s, cfg, Dialled), cfg)
  {
  }

  lemma StepCounts(s: State, cfg: Config, e: Event)
    requires Counts(s, cfg) && Exclusive(s) && Enabled(s, e)
    ensures Counts(Step(s, cfg, e), cfg)
  {
    hide TryGet, PutBack, Exclusive;
    match e {
      case LockGet(now) => LockGetCounts(s, cfg, now);
      case Put(id, broken, now) => PutCounts(s, cfg, id, broken, now);
      case Dialled => DialledCounts(s, cfg);
      case _ =>
    }
  }

  lemma StepExclusive(s: State, cfg: Config, e: Event)
    requires Exclusive(s) && Enabled(s, e)
    ensures Exclusive(Step(s, cfg, e))
  {
    hide Kept;
  }

  lemma StepInv(s: State, cfg: Config, e: Event)
    requires Inv(s, cfg) && Enabled(s, e)
    ensures Inv(Step(s, cfg, e), cfg)
  {
    hide Step, Enabled, Accounted, Exclusive, NoLostWakeup;
    StepCounts(s, cfg, e);
    StepExclusive(s, cfg, e);
  }

  lemma {:induction false} RunInv(s: State, cfg: Config, events: seq<Event>)
    requires Inv(s, cfg) && IsRun(s, cfg, events)
    ensures Inv(After(s, cfg, events), cfg)
    decreases |events|
  {
    hide Inv, Step, Enabled;
    if events != [] {
      StepInv(s, cfg, events[0]);
      RunInv(Step(s, cfg, events[0]), cfg, events[1..]);
    }
  }

  /** In every interleaving: accounting, exclusive use, and no lost wakeup. */
  lemma EveryInterleaving(cfg: Config, events: seq<Event>)
    requires IsRun(START, cfg, events)
    ensures Inv(After(START, cfg, events), cfg)
  {
    hide Step, Enabled;
    RunInv(START, cfg, events);
  }

  /** A pool at rest whose getters are blocked with no token is really exhausted:
      no idle connection, no free capacity, every connection with a caller. */
  lemma BlockedMeansExhausted(cfg: Config, events: seq<Event>)
    requires IsRun(START, cfg, events)
    ensures var s := After(START, cfg, events);
            s.running == s.notifying == s.dialling == s.core.tokens == 0 && s.waiting > 0 ==>
              s.core.idle == [] && s.core.numConns == |s.held| == cfg.maxSize
  {
    hide IsRun, After, Exclusive;
    EveryInterleaving(cfg, events);
  }

  /** put always finds room for a connection that is not broken: its last branch is
      never taken, and no good connection is closed by it. */
  lemma OverflowUnreachable(cfg: Config, events: seq<Event>, id: nat)
    requires IsRun(START, cfg, events) && id in After(START, cfg, events).held
    ensures |After(START, cfg, events).core.idle| < cfg.maxSize
  {
    hide IsRun, After, Exclusive;
    EveryInterleaving(cfg, events);
    var held := After(START, cfg, events).held;
    assert |held| >= 1 by { assert held == (held - {id}) + {id}; }
  }

  /** A connection handed out is in nobody's hands, in every interleaving. */
  lemma HandedOutOnce(cfg: Config, events: seq<Event>, now: int)
    requires IsRun(START, cfg, events)
    ensures var s := After(START, cfg, events); var (core, got) := TryGet(s.core, cfg, now);
            got.GotConn? ==> got.id !in s.held && forall i | 0 <= i < |core.idle| :: core.idle[i].id != got.id
  {
    hide IsRun, After, Kept;
    EveryInterleaving(cfg, events);
  }

  // ---------------------------------------------------------------- idle for too long

  predicate PutsBack(e: Event, id: nat) { e.Put? && e.id == id && !e.broken }

  /** When a connection was last put back in a run: the place of the event, or -1. */
  function LastPut(events: seq<Event>, id: nat): (i: int)
    ensures -1 <= i < |events| && (i >= 0 ==> PutsBack(events[i], id))
    ensures forall j | i < j < |events| :: !PutsBack(events[j], id)
  {
    if events == [] then -1
    else if PutsBack(events[|events| - 1], id) then |events| - 1
    else LastPut(events[..|events| - 1], id)
  }

  lemma LastPutNext(events: seq<Event>, e: Event, id: nat)
    ensures LastPut(events + [e], id) == if PutsBack(e, id) then |events| else LastPut(events, id)
  {
    assert (events + [e])[..|events|] == events;
  }

  /** The idle list is in the order of the last returns, and dated by them. */
  ghost predicate Dated(s: State, events: seq<Event>) {
    var idle := s.core.idle;
    && (forall i | 0 <= i < |idle| :: var at := LastPut(events, idle[i].id); at >= 0 && events[at].now == idle[i].usedAt)
    && forall i, j | 0 <= i < j < |idle| :: LastPut(events, idle[i].id) < LastPut(events, idle[j].id)
  }

  lemma StepDated(s: State, cfg: Config, e: Event, events: seq<Event>)
    requires Exclusive(s) && Enabled(s, e) && Dated(s, events)
    ensures Dated(Step(s, cfg, e), events + [e])
  {
    hide Kept, LastPut;
    var s', idle := Step(s, cfg, e), s.core.idle;
    forall i | 0 <= i < |idle| ensures LastPut(events + [e], idle[i].id) == LastPut(events, idle[i].id) {
      LastPutNext(events, e, idle[i].id);
    }
    if e.Put? {
      LastPutNext(events, e, e.id);
    }
  }

  lemma {:induction false} RunDated(s: State, cfg: Config, events: seq<Event>, done: seq<Event>)
    requires Inv(s, cfg) && IsRun(s, cfg, events) && Dated(s, done)
    ensures Dated(After(s, cfg, events), done + events)
    decreases |events|
  {
    hide Inv, Step, Enabled, Dated;
    if events == [] {
      assert done + events == done;
    } else {
      StepInv(s, cfg, events[0]);
      assert Exclusive(s) by { InvExclusive(s, cfg); }
      StepDated(s, cfg, events[0], done);
      RunDated(Step(s, cfg, events[0]), cfg, events[1..], done + [events[0]]);
      assert done + [events[0]] + events[1..] == done + events;
    }
  }

  lemma InvExclusive(s: State, cfg: Config)
    requires Inv(s, cfg)
    ensures Exclusive(s)
  {
  }

  predicate IsIdle(s: State, id: nat) { exists i :: 0 <= i < |s.core.idle| && s.core.idle[i].id == id }

  /** In a run, the connection was put back at most, or more than, the timeout ago. */
  predicate Fresh(cfg: Config, events: seq<Event>, id: nat, now: int) {
    var at := LastPut(events, id);
    at >= 0 && (cfg.idleTimeout > 0 ==> now - events[at].now <= cfg.idleTimeout)
  }

  predicate Stale(cfg: Config, events: seq<Event>, id: nat, now: int) {
    var at := LastPut(events, id);
    at >= 0 && cfg.idleTimeout > 0 && now - events[at].now > cfg.idleTimeout
  }

  /** Get after any run: what it hands out was put back no longer than the timeout ago and
      after everything it leaves idle; what it closes was put back longer ago; and if it
      hands out nothing, nothing idle is left. Without a timeout it closes nothing. */
  lemma GetByAge(cfg: Config, events: seq<Event>, now: int)
    requires IsRun(START, cfg, events) && After(START, cfg, events).running > 0
    ensures var s := After(START, cfg, events); var s' := Step(s, cfg, LockGet(now));
            && (forall id | id in s'.held && id !in s.held :: IsIdle(s, id) && Fresh(cfg, events, id, now))
            && (forall id | IsIdle(s, id) && !IsIdle(s', id) && id !in s'.held :: Stale(cfg, events, id, now))
            && (forall id, other | id in s'.held && id !in s.held && IsIdle(s', other) ::
                  LastPut(events, other) < LastPut(events, id))
            && (s'.held == s.held ==> s'.core.idle == [])
  {
    hide IsRun, After, Step, Fresh, Stale, IsIdle, Dated;
    EveryInterleaving(cfg, events);
    assert Dated(START, []) by { StartDated(); }
    RunDated(START, cfg, events, []);
    assert [] + events == events;
    GetFromDated(After(START, cfg, events), cfg, events, now);
  }

  lemma StartDated()
    ensures Dated(START, [])
  {
  }

  lemma GetFromDated(s: State, cfg: Config, events: seq<Event>, now: int)
    requires s.running > 0 && Exclusive(s) && Dated(s, events)
    ensures var s' := Step(s, cfg, LockGet(now));
            && (forall id | id in s'.held && id !in s.held :: IsIdle(s, id) && Fresh(cfg, events, id, now))
            && (forall id | IsIdle(s, id) && !IsIdle(s', id) && id !in s'.held :: Stale(cfg, events, id, now))
            && (forall id, other | id in s'.held && id !in s.held && IsIdle(s', other) ::
                  LastPut(events, other) < LastPut(events, id))
            && (s'.held == s.held ==> s'.core.idle == [])
  {
    hide LastPut, Kept, Step, Exclusive;
    var n, s', idle := Kept(s.core.idle, cfg, now), Step(s, cfg, LockGet(now)), s.core.idle;
    GetLeaves(s, cfg, now);
    if n > 0 {
      IdleIsFree(s, n - 1);
      forall i | 0 <= i < n - 1 ensures IsIdle(s', idle[i].id) {
        assert s'.core.idle[i] == idle[i];
      }
    }
    forall id | IsIdle(s, id) && !IsIdle(s', id) && id !in s'.held ensures Stale(cfg, events, id, now) {
      var i :| 0 <= i < |idle| && idle[i].id == id;
      assert i >= n;
    }
  }

  /** What the locked section of Get does to the state. */
  lemma GetLeaves(s: State, cfg: Config, now: int)
    requires s.running > 0
    ensures var n, s' := Kept(s.core.idle, cfg, now), Step(s, cfg, LockGet(now));
            if n == 0 then s'.held == s.held && s'.core.idle == []
            else s'.held == s.held + {s.core.idle[n - 1].id} && s'.core.idle == s.core.idle[..n - 1]
  {
    hide Kept;
  }

  // ----------------------------------------------------------------------- Close

  /** Close drops the idle connections and zeroes the count. */
  function CloseAll(s: State): State { s.(core := s.core.(idle := [], numConns := 0)) }

  /** Accounting survives Close if and only if no connection is out: a held one or
      one being dialled is no longer counted, and putting it back counts below zero. */
  lemma CloseAccountsIffNoneOut(s: State, cfg: Config, id: nat)
    requires Inv(s, cfg)
    ensures Accounted(CloseAll(s), cfg) <==> s.held == {} && s.dialling == 0
    ensures id in s.held ==> Step(CloseAll(s), cfg, Put(id, true, 0)).core.numConns == -1
  {
    hide Exclusive, NoLostWakeup;
    if s.held != {} {
      var h :| h in s.held;
      assert s.held == (s.held - {h}) + {h};
    }
  }
}

/** The methods of Pool, section by section. */
module PoolCode {
  import opened Prelude
  import opened Pool

  const DEFAULT_SIZE: nat := 10
  const DEFAULT_IDLE_TIMEOUT: int := 30_000_000_000

  class ConnPool {
    const maxSize: nat
    const idleTimeout: int
    var conns: seq<Idle>
    var numConns: int
    var waiters: nat

    function Settings(): Config { Config(maxSize, idleTimeout) }

    function Abstract(): Core
      reads this
    {
      Core(conns, numConns, waiters)
    }

    /** Sizes and timeouts that are not positive become the defaults. */
    constructor (size: int, timeout: int)
      ensures Abstract() == Core([], 0, 0) && maxSize > 0 && idleTimeout > 0
      ensures maxSize == if size > 0 then size else 10
      ensures idleTimeout == if timeout > 0 then timeout else 30_000_000_000
    {
      maxSize := if size <= 0 then DEFAULT_SIZE else size;
      idleTimeout := if timeout <= 0 then DEFAULT_IDLE_TIMEOUT else timeout;
      conns, numConns, waiters := [], 0, 0;
    }

    /** Newest first; connections idle for too long are closed and uncounted. */
    method PopIdle(now: int) returns (c: Option<Idle>)
      modifies this`conns, this`numConns
      ensures var n := Kept(old(conns), Settings(), now);
              && numConns == old(numConns) - (|old(conns)| - n)
              && (if n == 0 then c == None && conns == []
                  else c == Some(old(conns)[n - 1]) && conns == old(conns)[..n - 1])
      ensures c.Some? && idleTimeout > 0 ==> now - c.value.usedAt <= idleTimeout
      ensures forall i | |conns| + (if c.Some? then 1 else 0) <= i < |old(conns)| ::
                idleTimeout > 0 && now - old(conns)[i].usedAt > idleTimeout
    {
      c := None;
      while |conns| > 0
        invariant |conns| <= |old(conns)| && conns == old(conns)[..|conns|]
        invariant Kept(old(conns), Settings(), now) == Kept(conns, Settings(), now)
        invariant numConns == old(numConns) - (|old(conns)| - |conns|)
        decreases |conns|
      {
        var last := conns[|conns| - 1];
        conns := conns[..|conns| - 1];
        if Expired(last, Settings(), now) {
          numConns := numConns - 1;
        } else {
          c := Some(last);
          return;
        }
      }
    }

    method LockedGet(now: int) returns (got: Got)
      modifies this`conns, this`numConns
      ensures (Abstract(), got) == TryGet(old(Abstract()), Settings(), now)
    {
      var c := PopIdle(now);
      if c.Some? {
        got := GotConn(c.value.id);
      } else if numConns < maxSize {
        numConns := numConns + 1;
        got := MayDial;
      } else {
        got := MustWait;
      }
    }

    method LockedPut(id: nat, broken: bool, now: int)
      modifies this`conns, this`numConns
      ensures Abstract() == PutBack(old(Abstract()), Settings(), id, broken, now)
    {
      if broken {
        numConns := numConns - 1;
      } else if |conns| < maxSize {
        conns := conns + [Idle(id, now)];
      } else {
        numConns := numConns - 1;
      }
    }

    method NotifyOne()
      modifies this`waiters
      ensures Abstract() == AddToken(old(Abstract()), Settings())
    {
      if waiters < maxSize {
        waiters := waiters + 1;
      }
    }
  }
}
