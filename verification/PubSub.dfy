/**
 The shared pub/sub index (pkg/engine/pubsub_hub.go): entries by pattern, patterns
 by client, kept in step by subscribe, unsubscribe, client close and backend loss.
 */
module PubSub {
  import opened Prelude

  type Pattern = Bytes

  datatype Entry = Entry(client: nat, glob: bool)

  /** subs and clientSubs; `mode` are the clients in subscribe state. */
  datatype Hub = Hub(subs: map<Pattern, seq<Entry>>, clientSubs: map<nat, set<Pattern>>, mode: set<nat>)

  const EMPTY: Hub := Hub(map[], map[], {})

  // ------------------------------------------------------------------ operations

  /** Where the client's entry is, or the length. */
  function IndexOf(es: seq<Entry>, c: nat): (i: nat)
    ensures i <= |es| && (i < |es| ==> es[i].client == c)
    ensures forall j | 0 <= j < i :: es[j].client != c
  {
    if es == [] || es[0].client == c then 0 else 1 + IndexOf(es[1..], c)
  }

  function Cut(es: seq<Entry>, c: nat): seq<Entry> {
    var i := IndexOf(es, c);
    if i < |es| then es[..i] + es[i + 1..] else es
  }

  function Entries(subs: map<Pattern, seq<Entry>>, p: Pattern): seq<Entry> { if p in subs then subs[p] else [] }

  function Patterns(h: Hub, c: nat): set<Pattern> { if c in h.clientSubs then h.clientSubs[c] else {} }

  /** The first subscription of a client to a pattern stands, whatever its kind. */
  function AddSub(h: Hub, c: nat, p: Pattern, glob: bool): Hub {
    var es := Entries(h.subs, p);
    if IndexOf(es, c) < |es| then h
    else h.(subs := h.subs[p := es + [Entry(c, glob)]], clientSubs := h.clientSubs[c := Patterns(h, c) + {p}])
  }

  function AddSubs(h: Hub, c: nat, ps: seq<Pattern>, glob: bool): Hub
    decreases |ps|
  {
    if ps == [] then h else AddSubs(AddSub(h, c, ps[0], glob), c, ps[1..], glob)
  }

  /** Cut the client out of the lists of `ps`; empty lists go. */
  function DropAll(subs: map<Pattern, seq<Entry>>, ps: set<Pattern>, c: nat): map<Pattern, seq<Entry>> {
    map p | p in subs && (p !in ps || Cut(subs[p], c) != []) :: if p in ps then Cut(subs[p], c) else subs[p]
  }

  function RemoveSub(h: Hub, c: nat, p: Pattern): Hub {
    h.(subs := DropAll(h.subs, {p}, c),
       clientSubs := if c in h.clientSubs then h.clientSubs[c := h.clientSubs[c] - {p}] else h.clientSubs)
  }

  function RemoveSubs(h: Hub, c: nat, ps: seq<Pattern>): Hub
    decreases |ps|
  {
    if ps == [] then h else RemoveSubs(RemoveSub(h, c, ps[0]), c, ps[1..])
  }

  /** Drops the entries but leaves clientSubs as it is. */
  function RemoveAllSubs(h: Hub, c: nat): Hub { h.(subs := DropAll(h.subs, Patterns(h, c), c)) }

  function Subscribe(h: Hub, c: nat, ps: seq<Pattern>, glob: bool): Hub {
    AddSubs(h.(mode := h.mode + {c}), c, ps, glob)
  }

  /** Without patterns, all of them. */
  function Unsubscribe(h: Hub, c: nat, ps: seq<Pattern>): Hub {
    var h' := if ps == [] then RemoveAllSubs(h, c) else RemoveSubs(h, c, ps);
    if Patterns(h', c) == {} then h'.(clientSubs := h'.clientSubs - {c}, mode := h'.mode - {c}) else h'
  }

  function RemoveClient(h: Hub, c: nat): Hub {
    var h' := RemoveAllSubs(h, c);
    h'.(clientSubs := h'.clientSubs - {c})
  }

  /** The clients with an entry somewhere. */
  function Subscribers(subs: map<Pattern, seq<Entry>>): set<nat> {
    set p, i | p in subs && 0 <= i < |subs[p]| :: subs[p][i].client
  }

  function BackendLost(h: Hub): Hub { Hub(map[], map[], h.mode - Subscribers(h.subs)) }

  // -------------------------------------------------------------------- the table

  /** The client is subscribed to the pattern. */
  predicate Has(subs: map<Pattern, seq<Entry>>, c: nat, p: Pattern) {
    p in subs && IndexOf(subs[p], c) < |subs[p]|
  }

  /** As a channel or as a glob. */
  function Kind(subs: map<Pattern, seq<Entry>>, c: nat, p: Pattern): bool
    requires Has(subs, c, p)
  {
    subs[p][IndexOf(subs[p], c)].glob
  }

  predicate OnePerClient(es: seq<Entry>) { forall i, j | 0 <= i < j < |es| :: es[i].client != es[j].client }

  /** Every entry is known to its client's index, there is at most one per client
      and pattern, and no list is empty. */
  ghost predicate Indexed(h: Hub) {
    forall p | p in h.subs ::
      h.subs[p] != [] && OnePerClient(h.subs[p]) &&
      forall i | 0 <= i < |h.subs[p]| :: p in Patterns(h, h.subs[p][i].client)
  }

  /** The two maps are exact inverses. */
  ghost predicate Inverses(h: Hub) {
    && Indexed(h)
    && forall c | c in h.clientSubs :: h.clientSubs[c] != {} && forall p | p in h.clientSubs[c] :: Has(h.subs, c, p)
  }

  /** And a client is in subscribe state while it has a subscription and no longer. */
  ghost predicate Exact(h: Hub) { Inverses(h) && h.mode == h.clientSubs.Keys }

  // ------------------------------------------------------------------ single steps

  lemma CutOut(es: seq<Entry>, c: nat)
    requires OnePerClient(es)
    ensures OnePerClient(Cut(es, c))
    ensures forall i | 0 <= i < |Cut(es, c)| :: Cut(es, c)[i] in es && Cut(es, c)[i].client != c
  {
    hide IndexOf;
    var i, r := IndexOf(es, c), Cut(es, c);
    if i < |es| {
      assert forall k | 0 <= k < |r| :: r[k] == (if k < i then es[k] else es[k + 1]);
    }
  }

  lemma CutKeeps(es: seq<Entry>, c: nat, k: nat)
    requires k < |es| && es[k].client != c
    ensures es[k] in Cut(es, c)
  {
    hide IndexOf;
    var i, r := IndexOf(es, c), Cut(es, c);
    if i < |es| {
      assert r[if k < i then k else k - 1] == es[k];
    }
  }

  /** Another client is found after the cut exactly if it was before. */
  lemma CutEntry(es: seq<Entry>, c: nat, d: nat)
    requires OnePerClient(es)
    ensures var r := Cut(es, c);
            && (IndexOf(r, d) < |r| <==> d != c && IndexOf(es, d) < |es|)
            && (d != c && IndexOf(es, d) < |es| ==> r[IndexOf(r, d)] == es[IndexOf(es, d)])
  {
    hide IndexOf, Cut;
    CutOut(es, c);
    var r, j := Cut(es, c), IndexOf(es, d);
    if d != c && j < |es| {
      CutKeeps(es, c, j);
      var k :| 0 <= k < |r| && r[k] == es[j];
      assert IndexOf(r, d) <= k;
    }
    var j' := IndexOf(r, d);
    if j' < |r| {
      var k :| 0 <= k < |es| && es[k] == r[j'];
      assert j <= k;
    }
  }

  /** Dropping a client from some lists: exactly its subscriptions to those go, and
      everyone else's stay, of the same kind. */
  lemma DropEffect(h: Hub, ps: set<Pattern>, c: nat, d: nat, p: Pattern)
    requires Indexed(h)
    ensures var subs := DropAll(h.subs, ps, c);
            && (Has(subs, d, p) <==> Has(h.subs, d, p) && !(d == c && p in ps))
            && (Has(subs, d, p) ==> Kind(subs, d, p) == Kind(h.subs, d, p))
  {
    hide IndexOf;
    if p in h.subs {
      CutEntry(h.subs[p], c, d);
    }
  }

  lemma DropIndexed(h: Hub, ps: set<Pattern>, c: nat, clientSubs: map<nat, set<Pattern>>, mode: set<nat>)
    requires Indexed(h)
    requires forall d | d != c :: (d in clientSubs <==> d in h.clientSubs) && (d in clientSubs ==> clientSubs[d] == h.clientSubs[d])
    requires c in clientSubs ==> c in h.clientSubs && clientSubs[c] >= h.clientSubs[c] - ps
    requires c !in clientSubs ==> Patterns(h, c) <= ps
    ensures Indexed(Hub(DropAll(h.subs, ps, c), clientSubs, mode))
  {
    hide IndexOf;
    var h' := Hub(DropAll(h.subs, ps, c), clientSubs, mode);
    forall p | p in h'.subs
      ensures h'.subs[p] != [] && OnePerClient(h'.subs[p]) &&
              forall i | 0 <= i < |h'.subs[p]| :: p in Patterns(h', h'.subs[p][i].client) {
      CutOut(h.subs[p], c);
      forall i | 0 <= i < |h'.subs[p]| ensures p in Patterns(h', h'.subs[p][i].client) {
        var e := h'.subs[p][i];
        assert e in h.subs[p];
        var k :| 0 <= k < |h.subs[p]| && h.subs[p][k] == e;
        assert p in Patterns(h, h.subs[p][k].client);
      }
    }
  }

  lemma AddIndexed(h: Hub, c: nat, p: Pattern, glob: bool)
    requires Indexed(h)
    ensures Indexed(AddSub(h, c, p, glob))
  {
    hide IndexOf;
    var h' := AddSub(h, c, p, glob);
    if h' != h {
      forall q | q in h'.subs
        ensures h'.subs[q] != [] && OnePerClient(h'.subs[q]) &&
                forall i | 0 <= i < |h'.subs[q]| :: q in Patterns(h', h'.subs[q][i].client) {
        if q == p && p in h.subs {
          assert forall i | 0 <= i < |h.subs[p]| :: p in Patterns(h, h.subs[p][i].client);
        }
      }
    }
  }

  /** Subscribing adds that one subscription, unless the client has one already. */
  lemma AddEffect(h: Hub, c: nat, p: Pattern, glob: bool, d: nat, q: Pattern)
    ensures var h' := AddSub(h, c, p, glob);
            && (Has(h'.subs, d, q) <==> Has(h.subs, d, q) || (d == c && q == p))
            && (Has(h'.subs, d, q) ==> Kind(h'.subs, d, q) == if Has(h.subs, d, q) then Kind(h.subs, d, q) else glob)
            && Patterns(h', d) == (if d == c && !Has(h.subs, c, p) then Patterns(h, d) + {p} else Patterns(h, d))
  {
    hide IndexOf;
    var es, h' := Entries(h.subs, p), AddSub(h, c, p, glob);
    if IndexOf(es, c) == |es| && q == p {
      var es' := es + [Entry(c, glob)];
      var i, i' := IndexOf(es, d), IndexOf(es', d);
      assert i < |es| ==> es'[i] == es[i];
      assert es'[|es|].client == c;
      if i < |es| {
        assert i' == i;
      } else {
        assert d == c ==> i' == |es|;
      }
    }
  }

  /** A closed client leaves no trace, and nobody else notices. */
  lemma RemoveClientLeavesNoTrace(h: Hub, c: nat)
    requires Indexed(h)
    ensures var h' := RemoveClient(h, c);
            && Indexed(h') && c !in h'.clientSubs && (forall p :: !Has(h'.subs, c, p))
            && (forall d, p | d != c :: Has(h'.subs, d, p) <==> Has(h.subs, d, p))
            && (forall d, p | d != c && Has(h'.subs, d, p) :: Kind(h'.subs, d, p) == Kind(h.subs, d, p))
            && forall d | d != c :: Patterns(h', d) == Patterns(h, d)
  {
    hide IndexOf, DropAll, Indexed;
    var h' := RemoveClient(h, c);
    DropIndexed(h, Patterns(h, c), c, h'.clientSubs, h'.mode);
    forall d, p
      ensures Has(h'.subs, d, p) <==> Has(h.subs, d, p) && d != c
      ensures Has(h'.subs, d, p) ==> Kind(h'.subs, d, p) == Kind(h.subs, d, p) {
      DropEffect(h, Patterns(h, c), c, d, p);
      if Has(h.subs, c, p) {
        OwnPatterns(h, c, p);
      }
    }
  }

  /** An indexed client finds all its subscriptions. */
  lemma OwnPatterns(h: Hub, c: nat, p: Pattern)
    requires Indexed(h) && Has(h.subs, c, p)
    ensures p in Patterns(h, c)
  {
  }

  // ------------------------------------------------------------------------- runs

  datatype Event =
    | Sub(client: nat, patterns: seq<Pattern>, glob: bool)
    | Unsub(client: nat, patterns: seq<Pattern>, glob: bool)
    | Gone(client: nat)
    | Lost

  /** onClientClose: the index is cleaned only for a client in subscribe state; the
      state itself goes with the client. */
  function Closed(h: Hub, c: nat): Hub {
    if c in h.mode then var h' := RemoveClient(h, c); h'.(mode := h'.mode - {c}) else h
  }

  /** UNSUBSCRIBE and PUNSUBSCRIBE do the same to the index. */
  function Step(h: Hub, e: Event): Hub {
    match e
    case Sub(c, ps, glob) => Subscribe(h, c, ps, glob)
    case Unsub(c, ps, _) => Unsubscribe(h, c, ps)
    case Gone(c) => Closed(h, c)
    case Lost => BackendLost(h)
  }

  function Run(h: Hub, events: seq<Event>): Hub
    decreases |events|
  {
    if events == [] then h else Run(Step(h, events[0]), events[1..])
  }

  /** What clients asked for: who is subscribed to what, and how. */
  type Table = map<(nat, Pattern), bool>

  function Wish(t: Table, c: nat, ps: seq<Pattern>, glob: bool): Table
    decreases |ps|
  {
    if ps == [] then t else Wish(if (c, ps[0]) in t then t else t[(c, ps[0]) := glob], c, ps[1..], glob)
  }

  function Unwish(t: Table, c: nat, ps: seq<Pattern>): Table
    decreases |ps|
  {
    if ps == [] then t else Unwish(t - {(c, ps[0])}, c, ps[1..])
  }

  function Forget(t: Table, c: nat): Table { map k | k in t && k.0 != c :: t[k] }

  function Asked(t: Table, e: Event): Table {
    match e
    case Sub(c, ps, glob) => Wish(t, c, ps, glob)
    case Unsub(c, ps, _) => if ps == [] then Forget(t, c) else Unwish(t, c, ps)
    case Gone(c) => Forget(t, c)
    case Lost => map[]
  }

  function AskedAll(t: Table, events: seq<Event>): Table
    decreases |events|
  {
    if events == [] then t else AskedAll(Asked(t, events[0]), events[1..])
  }

  ghost predicate Matches(h: Hub, t: Table) {
    forall c: nat, p: Pattern :: (Has(h.subs, c, p) <==> (c, p) in t) && ((c, p) in t ==> Kind(h.subs, c, p) == t[(c, p)])
  }

  lemma {:induction false} AddSubsMatch(h: Hub, t: Table, c: nat, ps: seq<Pattern>, glob: bool)
    requires Indexed(h) && Matches(h, t)
    ensures Indexed(AddSubs(h, c, ps, glob)) && Matches(AddSubs(h, c, ps, glob), Wish(t, c, ps, glob))
    decreases |ps|
  {
    hide Indexed, AddSub, IndexOf, Has, Kind;
    if ps != [] {
      var h', p := AddSub(h, c, ps[0], glob), ps[0];
      var t' := if (c, p) in t then t else t[(c, p) := glob];
      AddIndexed(h, c, p, glob);
      assert Matches(h', t') by {
        forall d: nat, q: Pattern
          ensures (Has(h'.subs, d, q) <==> (d, q) in t') && ((d, q) in t' ==> Kind(h'.subs, d, q) == t'[(d, q)]) {
          AddEffect(h, c, p, glob, d, q);
        }
      }
      AddSubsMatch(h', t', c, ps[1..], glob);
    }
  }

  lemma {:induction false} RemoveSubsMatch(h: Hub, t: Table, c: nat, ps: seq<Pattern>)
    requires Indexed(h) && Matches(h, t)
    ensures Indexed(RemoveSubs(h, c, ps)) && Matches(RemoveSubs(h, c, ps), Unwish(t, c, ps))
    decreases |ps|
  {
    hide Indexed, DropAll, IndexOf, Has, Kind;
    if ps != [] {
      var h', p := RemoveSub(h, c, ps[0]), ps[0];
      var t' := t - {(c, p)};
      DropIndexed(h, {p}, c, h'.clientSubs, h'.mode);
      forall d: nat, q: Pattern
        ensures (Has(h'.subs, d, q) <==> (d, q) in t') && ((d, q) in t' ==> Kind(h'.subs, d, q) == t'[(d, q)]) {
        DropEffect(h, {p}, c, d, q);
      }
      RemoveSubsMatch(h', t', c, ps[1..]);
    }
  }

  lemma RemoveAllMatch(h: Hub, t: Table, c: nat)
    requires Indexed(h) && Matches(h, t)
    ensures Indexed(RemoveAllSubs(h, c)) && Matches(RemoveAllSubs(h, c), Forget(t, c))
  {
    hide Indexed, DropAll, IndexOf, Has, Kind;
    var h', t', ps := RemoveAllSubs(h, c), Forget(t, c), Patterns(h, c);
    DropIndexed(h, ps, c, h.clientSubs, h.mode);
    forall d: nat, q: Pattern
      ensures (Has(h'.subs, d, q) <==> (d, q) in t') && ((d, q) in t' ==> Kind(h'.subs, d, q) == t'[(d, q)]) {
      DropEffect(h, ps, c, d, q);
      if Has(h.subs, c, q) {
        OwnPatterns(h, c, q);
      }
    }
  }

  /** A client whose index is empty has no entry, so its index can go. */
  lemma ForgetIndex(h: Hub, c: nat, mode: set<nat>)
    requires Indexed(h) && Patterns(h, c) == {}
    ensures Indexed(h.(clientSubs := h.clientSubs - {c}, mode := mode))
  {
  }

  /** A client with an index is in subscribe state, so its close is noticed. */
  predicate Guarded(h: Hub) { h.clientSubs.Keys <= h.mode }

  lemma {:induction false} AddSubsGuarded(h: Hub, c: nat, ps: seq<Pattern>, glob: bool)
    ensures AddSubs(h, c, ps, glob).mode == h.mode && AddSubs(h, c, ps, glob).clientSubs.Keys <= h.clientSubs.Keys + {c}
    decreases |ps|
  {
    hide IndexOf;
    if ps != [] {
      AddSubsGuarded(AddSub(h, c, ps[0], glob), c, ps[1..], glob);
    }
  }

  lemma {:induction false} RemoveSubsGuarded(h: Hub, c: nat, ps: seq<Pattern>)
    ensures RemoveSubs(h, c, ps).mode == h.mode && RemoveSubs(h, c, ps).clientSubs.Keys == h.clientSubs.Keys
    decreases |ps|
  {
    hide DropAll;
    if ps != [] {
      RemoveSubsGuarded(RemoveSub(h, c, ps[0]), c, ps[1..]);
    }
  }

  lemma StepGuarded(h: Hub, e: Event)
    requires Guarded(h)
    ensures Guarded(Step(h, e))
  {
    hide AddSubs, RemoveSubs, DropAll, Subscribers;
    match e {
      case Sub(c, ps, glob) => AddSubsGuarded(h.(mode := h.mode + {c}), c, ps, glob);
      case Unsub(c, ps, _) => RemoveSubsGuarded(h, c, ps);
      case _ =>
    }
  }

  lemma {:induction false} NothingToForget(t: Table, c: nat)
    requires forall k | k in t :: k.0 != c
    ensures Forget(t, c) == t
  {
  }

  lemma StepMatches(h: Hub, t: Table, e: Event)
    requires Indexed(h) && Guarded(h) && Matches(h, t)
    ensures Indexed(Step(h, e)) && Matches(Step(h, e), Asked(t, e))
  {
    hide Indexed, AddSubs, RemoveSubs, RemoveAllSubs, Wish, Unwish, Forget, IndexOf;
    match e {
      case Sub(c, ps, glob) =>
        var h1 := h.(mode := h.mode + {c});
        assert Indexed(h1) by { ModeIgnored(h, h1.mode); }
        AddSubsMatch(h1, t, c, ps, glob);
      case Unsub(c, ps, _) =>
        var h1 := if ps == [] then RemoveAllSubs(h, c) else RemoveSubs(h, c, ps);
        if ps == [] {
          RemoveAllMatch(h, t, c);
        } else {
          RemoveSubsMatch(h, t, c, ps);
        }
        if Patterns(h1, c) == {} {
          ForgetIndex(h1, c, h1.mode - {c});
        }
      case Gone(c) =>
        if c in h.mode {
          RemoveAllMatch(h, t, c);
          RemoveClientLeavesNoTrace(h, c);
          ModeIgnored(RemoveClient(h, c), RemoveClient(h, c).mode - {c});
        } else {
          forall k | k in t ensures k.0 != c {
            assert Has(h.subs, k.0, k.1);
            OwnPatterns(h, k.0, k.1);
          }
          NothingToForget(t, c);
        }
      case Lost =>
        assert Indexed(BackendLost(h)) by { EmptyIndexed(BackendLost(h)); }
    }
  }

  lemma ModeIgnored(h: Hub, mode: set<nat>)
    requires Indexed(h)
    ensures Indexed(h.(mode := mode))
  {
    assert forall c :: Patterns(h.(mode := mode), c) == Patterns(h, c);
  }

  lemma EmptyIndexed(h: Hub)
    requires h.subs == map[]
    ensures Indexed(h)
  {
  }

  /** Over every run, the index holds exactly the subscriptions the clients asked
      for: never lost, never left behind, one entry each and of the first kind. */
  lemma {:induction false} IndexIsFaithful(h: Hub, t: Table, events: seq<Event>)
    requires Indexed(h) && Guarded(h) && Matches(h, t)
    ensures Indexed(Run(h, events)) && Guarded(Run(h, events)) && Matches(Run(h, events), AskedAll(t, events))
    decreases |events|
  {
    hide Indexed, Guarded, Matches, Step, Asked;
    if events != [] {
      StepMatches(h, t, events[0]);
      StepGuarded(h, events[0]);
      IndexIsFaithful(Step(h, events[0]), Asked(t, events[0]), events[1..]);
    }
  }

  // --------------------------------------------------------------- exact inverses

  /** Inverse maps, but the list of `c` may be empty for now. */
  ghost predicate Inverse(h: Hub, c: nat) {
    && Indexed(h)
    && forall d | d in h.clientSubs :: (d != c ==> h.clientSubs[d] != {}) && forall p | p in h.clientSubs[d] :: Has(h.subs, d, p)
  }

  lemma {:induction false} AddSubsInverse(h: Hub, c: nat, ps: seq<Pattern>, glob: bool)
    requires Inverse(h, c)
    ensures var h' := AddSubs(h, c, ps, glob);
            && Inverse(h', c) && h'.mode == h.mode
            && h'.clientSubs.Keys == (if ps == [] then h.clientSubs.Keys else h.clientSubs.Keys + {c})
            && (ps != [] ==> Patterns(h', c) != {}) && Patterns(h, c) <= Patterns(h', c)
    decreases |ps|
  {
    hide Indexed, AddSub, IndexOf, Has;
    if ps != [] {
      var h' := AddSub(h, c, ps[0], glob);
      AddSubInverse(h, c, ps[0], glob);
      AddSubsInverse(h', c, ps[1..], glob);
    }
  }

  lemma AddSubInverse(h: Hub, c: nat, p: Pattern, glob: bool)
    requires Inverse(h, c)
    ensures var h' := AddSub(h, c, p, glob);
            && Inverse(h', c) && h'.mode == h.mode && h'.clientSubs.Keys == h.clientSubs.Keys + {c}
            && p in Patterns(h', c) && Patterns(h, c) <= Patterns(h', c)
  {
    hide Indexed, IndexOf;
    var h' := AddSub(h, c, p, glob);
    AddIndexed(h, c, p, glob);
    if Has(h.subs, c, p) {
      OwnPatterns(h, c, p);
    }
    forall d | d in h'.clientSubs
      ensures (d != c ==> h'.clientSubs[d] != {}) && forall q | q in h'.clientSubs[d] :: Has(h'.subs, d, q) {
      forall q | q in h'.clientSubs[d] ensures Has(h'.subs, d, q) {
        AddEffect(h, c, p, glob, d, q);
      }
    }
  }

  lemma {:induction false} RemoveSubsInverse(h: Hub, c: nat, ps: seq<Pattern>)
    requires Inverse(h, c)
    ensures var h' := RemoveSubs(h, c, ps);
            Inverse(h', c) && h'.mode == h.mode && h'.clientSubs.Keys == h.clientSubs.Keys
    decreases |ps|
  {
    hide Indexed, DropAll, IndexOf, Has;
    if ps != [] {
      var h', p := RemoveSub(h, c, ps[0]), ps[0];
      DropIndexed(h, {p}, c, h'.clientSubs, h'.mode);
      forall d | d in h'.clientSubs
        ensures (d != c ==> h'.clientSubs[d] != {}) && forall q | q in h'.clientSubs[d] :: Has(h'.subs, d, q) {
        forall q | q in h'.clientSubs[d] ensures Has(h'.subs, d, q) {
          DropEffect(h, {p}, c, d, q);
        }
      }
      RemoveSubsInverse(h', c, ps[1..]);
    }
  }

  predicate BareSub(e: Event) { e.Sub? && e.patterns == [] }

  predicate BareUnsub(e: Event) { e.Unsub? && e.patterns == [] }

  /** A step keeps the maps exact inverses if and only if it is not a bare UNSUBSCRIBE
      of a client that has a subscription. */
  lemma StepInverses(h: Hub, e: Event)
    requires Inverses(h)
    ensures Inverses(Step(h, e)) <==> !(BareUnsub(e) && e.client in h.clientSubs)
  {
    hide Indexed, AddSubs, RemoveSubs, RemoveAllSubs, DropAll, IndexOf, Has;
    match e {
      case Sub(c, ps, glob) =>
        ModeIgnored(h, h.mode + {c});
        AddSubsInverse(h.(mode := h.mode + {c}), c, ps, glob);
      case Unsub(c, ps, _) =>
        if ps == [] {
          BareUnsubscribeInversesIffNone(h, c);
        } else {
          RemoveSubsInverse(h, c, ps);
          var h1 := RemoveSubs(h, c, ps);
          if Patterns(h1, c) == {} {
            ForgetIndex(h1, c, h1.mode - {c});
          }
        }
      case Gone(c) => ClosedInverses(h, c);
      case Lost => EmptyIndexed(BackendLost(h));
    }
  }

  lemma ClosedInverses(h: Hub, c: nat)
    requires Inverses(h)
    ensures Inverses(Closed(h, c))
  {
    hide Indexed, DropAll, IndexOf, Has;
    if c in h.mode {
      RemoveClientLeavesNoTrace(h, c);
      ModeIgnored(RemoveClient(h, c), RemoveClient(h, c).mode - {c});
      var h' := Closed(h, c);
      forall d, p | d in h'.clientSubs && p in h'.clientSubs[d] ensures Has(h'.subs, d, p) {
        assert Patterns(RemoveClient(h, c), d) == Patterns(h, d);
      }
    }
  }

  /** And subscribe state in step with them, if and only if moreover it is not a bare
      SUBSCRIBE of a client that has none. */
  lemma StepExact(h: Hub, e: Event)
    requires Exact(h)
    ensures Exact(Step(h, e)) <==> !(BareUnsub(e) && e.client in h.mode) && !(BareSub(e) && e.client !in h.mode)
  {
    hide Inverses, AddSubs, RemoveSubs, DropAll, IndexOf, Has;
    StepInverses(h, e);
    match e {
      case Sub(c, ps, glob) => SubscribeMode(h, c, ps, glob);
      case Unsub(c, ps, _) => RemoveSubsGuarded(h, c, ps);
      case Gone(c) =>
      case Lost => LostExact(h);
    }
  }

  lemma SubscribeMode(h: Hub, c: nat, ps: seq<Pattern>, glob: bool)
    requires Exact(h)
    ensures var h' := Subscribe(h, c, ps, glob); h'.mode == h'.clientSubs.Keys <==> ps != [] || c in h.mode
  {
    hide Indexed, AddSubs, IndexOf, Has;
    ModeIgnored(h, h.mode + {c});
    AddSubsInverse(h.(mode := h.mode + {c}), c, ps, glob);
  }

  /** The client has asked for something and not given it up. */
  ghost predicate Holds(t: Table, c: nat) { exists p: Pattern :: (c, p) in t }

  lemma HoldsIffIndexed(h: Hub, t: Table, c: nat)
    requires Inverses(h) && Matches(h, t)
    ensures c in h.clientSubs <==> Holds(t, c)
  {
    hide IndexOf;
    if c in h.clientSubs {
      var p :| p in h.clientSubs[c];
      assert (c, p) in t;
    }
    if p: Pattern :| (c, p) in t {
      OwnPatterns(h, c, p);
    }
  }

  /** The hub has the property after every step of the run. */
  ghost predicate Always(ok: Hub -> bool, h: Hub, events: seq<Event>)
    decreases |events|
  {
    ok(h) && (events != [] ==> Always(ok, Step(h, events[0]), events[1..]))
  }

  /** No UNSUBSCRIBE of everything comes from a client that holds something. */
  ghost predicate NamesWhatItGivesUp(t: Table, events: seq<Event>)
    decreases |events|
  {
    events == [] ||
    (!(BareUnsub(events[0]) && Holds(t, events[0].client)) && NamesWhatItGivesUp(Asked(t, events[0]), events[1..]))
  }

  /** And no SUBSCRIBE to nothing from one that holds nothing. */
  ghost predicate Orderly(t: Table, events: seq<Event>)
    decreases |events|
  {
    events == [] ||
    (&& !(BareUnsub(events[0]) && Holds(t, events[0].client)) && !(BareSub(events[0]) && !Holds(t, events[0].client))
     && Orderly(Asked(t, events[0]), events[1..]))
  }

  /** The maps are exact inverses all through a run, if and only if no client that holds
      something unsubscribes from everything at once. */
  lemma {:induction false} RunInverses(h: Hub, t: Table, events: seq<Event>)
    requires Inverses(h) && Guarded(h) && Matches(h, t)
    ensures Always(x => Inverses(x), h, events) <==> NamesWhatItGivesUp(t, events)
    decreases |events|
  {
    hide Indexed, Guarded, Matches, Holds, Step, Asked;
    if events != [] {
      var e := events[0];
      StepInverses(h, e);
      StepMatches(h, t, e);
      StepGuarded(h, e);
      if BareUnsub(e) {
        HoldsIffIndexed(h, t, e.client);
      }
      if Inverses(Step(h, e)) {
        RunInverses(Step(h, e), Asked(t, e), events[1..]);
      }
    }
  }

  /** And subscribe state is in step with them all through, if and only if moreover no
      client that holds nothing subscribes to nothing. */
  lemma {:induction false} RunExact(h: Hub, t: Table, events: seq<Event>)
    requires Exact(h) && Matches(h, t)
    ensures Always(x => Exact(x), h, events) <==> Orderly(t, events)
    decreases |events|
  {
    hide Inverses, Indexed, Matches, Holds, Step, Asked;
    if events != [] {
      var e := events[0];
      StepExact(h, e);
      assert Indexed(h) by { InversesIndexed(h); }
      StepMatches(h, t, e);
      if BareSub(e) || BareUnsub(e) {
        HoldsIffIndexed(h, t, e.client);
      }
      if Exact(Step(h, e)) {
        RunExact(Step(h, e), Asked(t, e), events[1..]);
      }
    }
  }

  lemma InversesIndexed(h: Hub)
    requires Inverses(h)
    ensures Indexed(h)
  {
  }

  /** From an empty hub. */
  lemma ExactFromStart(events: seq<Event>)
    ensures Always(x => Inverses(x), EMPTY, events) <==> NamesWhatItGivesUp(map[], events)
    ensures Always(x => Exact(x), EMPTY, events) <==> Orderly(map[], events)
    ensures (forall i | 0 <= i < |events| :: !BareSub(events[i]) && !BareUnsub(events[i])) ==> Exact(Run(EMPTY, events))
  {
    hide Step, Asked, Indexed, IndexOf, Run, Always, Orderly;
    EmptyIndexed(EMPTY);
    RunInverses(EMPTY, map[], events);
    RunExact(EMPTY, map[], events);
    if forall i | 0 <= i < |events| :: !BareSub(events[i]) && !BareUnsub(events[i]) {
      NamedOrderly(map[], events);
      AlwaysInTheEnd(x => Exact(x), EMPTY, events);
    }
  }

  lemma {:induction false} AlwaysInTheEnd(ok: Hub -> bool, h: Hub, events: seq<Event>)
    requires Always(ok, h, events)
    ensures ok(Run(h, events))
    decreases |events|
  {
    hide Step;
    if events != [] {
      AlwaysInTheEnd(ok, Step(h, events[0]), events[1..]);
    }
  }

  lemma {:induction false} NamedOrderly(t: Table, events: seq<Event>)
    requires forall i | 0 <= i < |events| :: !BareSub(events[i]) && !BareUnsub(events[i])
    ensures Orderly(t, events)
    decreases |events|
  {
    hide Asked, Holds;
    if events != [] {
      NamedOrderly(Asked(t, events[0]), events[1..]);
    }
  }

  /** Losing the backend resets exactly the clients that had subscriptions. */
  lemma LostExact(h: Hub)
    requires Exact(h)
    ensures Exact(BackendLost(h)) && Subscribers(h.subs) == h.mode
  {
    hide IndexOf;
    EmptyIndexed(BackendLost(h));
    forall c | c in h.mode ensures c in Subscribers(h.subs) {
      var p :| p in h.clientSubs[c];
      assert Has(h.subs, c, p);
      var i := IndexOf(h.subs[p], c);
      assert h.subs[p][i].client == c;
    }
    forall c | c in Subscribers(h.subs) ensures c in h.mode {
      var p, i :| p in h.subs && 0 <= i < |h.subs[p]| && h.subs[p][i].client == c;
      assert p in Patterns(h, h.subs[p][i].client);
    }
  }

  /** A bare UNSUBSCRIBE keeps the maps exact inverses if and only if the client had
      no subscription; otherwise it stays in subscribe state with none left. */
  lemma BareUnsubscribeInversesIffNone(h: Hub, c: nat)
    requires Inverses(h)
    ensures Inverses(Unsubscribe(h, c, [])) <==> c !in h.clientSubs
    ensures c in h.clientSubs ==> Unsubscribe(h, c, []).mode == h.mode && forall p :: !Has(Unsubscribe(h, c, []).subs, c, p)
  {
    hide IndexOf, DropAll;
    var h' := Unsubscribe(h, c, []);
    if c in h.clientSubs {
      forall p ensures !Has(h'.subs, c, p) {
        DropEffect(h, Patterns(h, c), c, c, p);
        if Has(h.subs, c, p) {
          OwnPatterns(h, c, p);
        }
      }
      var p :| p in h.clientSubs[c];
      assert p in h'.clientSubs[c] && !Has(h'.subs, c, p);
    } else {
      NothingDropped(h.subs, c);
      assert h' == h.(mode := h.mode - {c});
      ModeIgnored(h, h'.mode);
    }
  }

  lemma NothingDropped(subs: map<Pattern, seq<Entry>>, c: nat)
    ensures DropAll(subs, {}, c) == subs
  {
  }

  // ------------------------------------------------------------------------ RESET

  /** RESET leaves subscribe state and nothing else. */
  function Reset(h: Hub, c: nat): Hub { h.(mode := h.mode - {c}) }

  /** After RESET a close goes unnoticed: the client leaves a trace if and only if it
      had a subscription. */
  lemma ResetLeavesTraceIffSubscribed(h: Hub, c: nat)
    requires Indexed(h)
    ensures (exists p :: Has(Closed(Reset(h, c), c).subs, c, p)) <==> exists p :: Has(h.subs, c, p)
    ensures Guarded(h) ==> (Guarded(Reset(h, c)) <==> c !in h.clientSubs)
  {
    hide IndexOf, DropAll;
    assert Closed(Reset(h, c), c).subs == h.subs;
  }

  // ------------------------------------------------------------------- two kinds

  /** A subscription takes effect in the kind asked for, if and only if the client does
      not already hold the name in the other kind. */
  lemma SubscribeKindIff(h: Hub, c: nat, p: Pattern, glob: bool)
    ensures var h' := AddSub(h, c, p, glob);
            Has(h'.subs, c, p) && (Kind(h'.subs, c, p) == glob <==> !(Has(h.subs, c, p) && Kind(h.subs, c, p) != glob))
  {
    hide IndexOf;
    AddEffect(h, c, p, glob, c, p);
  }

  /** Giving up a name gives it up in whichever kind the client holds it. */
  lemma UnsubscribeTakesEitherKind(h: Hub, c: nat, p: Pattern)
    requires Indexed(h)
    ensures !Has(RemoveSub(h, c, p).subs, c, p)
  {
    hide IndexOf, DropAll;
    DropEffect(h, {p}, c, c, p);
  }

  // --------------------------------------------------------------------- messages

  /** The clients with an entry of one kind in a list, one after the other. */
  function Recipients(es: seq<Entry>, glob: bool): seq<nat> {
    if es == [] then [] else (if es[0].glob == glob then [es[0].client] else []) + Recipients(es[1..], glob)
  }

  lemma {:induction false} RecipientsAre(es: seq<Entry>, glob: bool, c: nat)
    ensures c in Recipients(es, glob) <==> Entry(c, glob) in es
  {
    if es != [] {
      RecipientsAre(es[1..], glob, c);
      assert es == [es[0]] + es[1..];
    }
  }

  predicate NoRepeat<T(==)>(xs: seq<T>) { forall i, j | 0 <= i < j < |xs| :: xs[i] != xs[j] }

  lemma {:induction false} RecipientsOnce(es: seq<Entry>, glob: bool)
    requires OnePerClient(es)
    ensures NoRepeat(Recipients(es, glob))
  {
    if es != [] {
      var rest := Recipients(es[1..], glob);
      RecipientsOnce(es[1..], glob);
      RecipientsAre(es[1..], glob, es[0].client);
      assert forall i | 0 <= i < |rest| :: rest[i] in rest;
    }
  }

  /** A list's recipients of a kind are the clients subscribed in that way. */
  lemma RecipientsSubscribed(h: Hub, c: nat, p: Pattern, glob: bool)
    requires Indexed(h)
    ensures c in Recipients(Entries(h.subs, p), glob) <==> Has(h.subs, c, p) && Kind(h.subs, c, p) == glob
    ensures NoRepeat(Recipients(Entries(h.subs, p), glob))
  {
    hide IndexOf, Recipients;
    var es := Entries(h.subs, p);
    RecipientsAre(es, glob, c);
    RecipientsOnce(es, glob);
    if Entry(c, glob) in es {
      var i :| 0 <= i < |es| && es[i] == Entry(c, glob);
      assert IndexOf(es, c) == i;
    }
  }

  /** After any run a message is written once to each client that asked for the
      channel by name, and by name to nobody else. */
  lemma MessageOnceToEachSubscriber(events: seq<Event>, channel: Bytes, c: nat)
    ensures var h, t := Run(EMPTY, events), AskedAll(map[], events);
            var written := Recipients(Entries(h.subs, channel), false);
            NoRepeat(written) && (c in written <==> (c, channel) in t && !t[(c, channel)])
  {
    hide Run, AskedAll, IndexOf, Recipients, Indexed;
    EmptyIndexed(EMPTY);
    IndexIsFaithful(EMPTY, map[], events);
    RecipientsSubscribed(Run(EMPTY, events), c, channel, false);
  }

  // --------------------------------------------------------------- the shared backend

  /** The hub and what its one backend connection is subscribed to: the proxy's own
      pattern, and whatever clients' commands, passed on verbatim, made of it. */
  datatype Shared = Shared(hub: Hub, channels: set<Bytes>, patterns: set<Pattern>)

  const ALL: Pattern := Ascii("*")

  const OPENED: Shared := Shared(EMPTY, {}, {ALL})

  function Named(ps: seq<Pattern>): set<Pattern> { set p | p in ps }

  /** What SUBSCRIBE or UNSUBSCRIBE of some names does to a server's set of them. */
  function Adjusted(names: set<Pattern>, e: Event, glob: bool): set<Pattern> {
    if e.Sub? && e.glob == glob then names + Named(e.patterns)
    else if e.Unsub? && e.glob == glob then (if e.patterns == [] then {} else names - Named(e.patterns))
    else names
  }

  function SharedStep(s: Shared, e: Event): Shared {
    Shared(Step(s.hub, e), Adjusted(s.channels, e, false), Adjusted(s.patterns, e, true))
  }

  function SharedRun(s: Shared, events: seq<Event>): Shared
    decreases |events|
  {
    if events == [] then s else SharedRun(SharedStep(s, events[0]), events[1..])
  }

  lemma {:induction false} SharedHub(s: Shared, events: seq<Event>)
    ensures SharedRun(s, events).hub == Run(s.hub, events)
    decreases |events|
  {
    hide Step;
    if events != [] {
      SharedHub(SharedStep(s, events[0]), events[1..]);
    }
  }

  /** Some command of the run takes the name up, and none after it gives it up. */
  ghost predicate TakenUpLast(events: seq<Event>, name: Pattern, glob: bool) {
    exists i :: 0 <= i < |events| && TakesUp(events[i], name, glob) && NeverGivenUp(events[i + 1..], name, glob)
  }

  ghost predicate NeverGivenUp(events: seq<Event>, name: Pattern, glob: bool) {
    forall j | 0 <= j < |events| :: !GivesUp(events[j], name, glob)
  }

  predicate TakesUp(e: Event, name: Pattern, glob: bool) { e.Sub? && e.glob == glob && name in e.patterns }

  predicate GivesUp(e: Event, name: Pattern, glob: bool) {
    e.Unsub? && e.glob == glob && (e.patterns == [] || name in e.patterns)
  }

  function Names(s: Shared, glob: bool): set<Pattern> { if glob then s.patterns else s.channels }

  /** What the backend is subscribed to after a run. */
  lemma {:induction false} NamesAfter(s: Shared, events: seq<Event>, name: Pattern, glob: bool)
    ensures name in Names(SharedRun(s, events), glob) <==>
            TakenUpLast(events, name, glob) || (name in Names(s, glob) && NeverGivenUp(events, name, glob))
    decreases |events|
  {
    hide Step, NeverGivenUp, TakenUpLast;
    if events == [] {
      assert NeverGivenUp(events, name, glob) && !TakenUpLast(events, name, glob) by { NothingTaken(events, name, glob); }
    } else {
      var e, rest := events[0], events[1..];
      NamesAfter(SharedStep(s, e), rest, name, glob);
      assert name in Names(SharedStep(s, e), glob) <==> TakesUp(e, name, glob) || (name in Names(s, glob) && !GivesUp(e, name, glob));
      TakenUpStep(events, name, glob);
    }
  }

  lemma NothingTaken(events: seq<Event>, name: Pattern, glob: bool)
    requires events == []
    ensures NeverGivenUp(events, name, glob) && !TakenUpLast(events, name, glob)
  {
  }

  lemma TakenUpStep(events: seq<Event>, name: Pattern, glob: bool)
    requires events != []
    ensures TakenUpLast(events, name, glob) <==>
            TakenUpLast(events[1..], name, glob) || (TakesUp(events[0], name, glob) && NeverGivenUp(events[1..], name, glob))
    ensures NeverGivenUp(events, name, glob) <==> !GivesUp(events[0], name, glob) && NeverGivenUp(events[1..], name, glob)
  {
    var rest := events[1..];
    assert forall j | 0 < j < |events| :: events[j] == rest[j - 1];
    assert forall j | 0 <= j < |rest| :: rest[j] == events[j + 1];
    if i :| 0 <= i < |events| && TakesUp(events[i], name, glob) && NeverGivenUp(events[i + 1..], name, glob) {
      if i > 0 {
        assert TakesUp(rest[i - 1], name, glob) && rest[i - 1 + 1..] == events[i + 1..];
      }
    }
    if i :| 0 <= i < |rest| && TakesUp(rest[i], name, glob) && NeverGivenUp(rest[i + 1..], name, glob) {
      assert TakesUp(events[i + 1], name, glob) && events[i + 1 + 1..] == rest[i + 1..];
    }
  }

  /** How often one publish on a channel reaches a client by name: once per message
      frame of the backend and entry of the client. */
  function CopiesByName(s: Shared, channel: Bytes, c: nat): nat {
    if channel in s.channels && c in Recipients(Entries(s.hub.subs, channel), false) then 1 else 0
  }

  /** After any run on one backend connection, a publish reaches by name exactly the
      clients that asked for the channel, once each - provided nobody, not even another
      client, gave the channel up since it was last taken up. */
  lemma PublishReachesIff(events: seq<Event>, channel: Bytes, c: nat)
    requires forall i | 0 <= i < |events| :: !events[i].Lost?
    ensures var t := AskedAll(map[], events);
            CopiesByName(SharedRun(OPENED, events), channel, c) ==
            if (c, channel) in t && !t[(c, channel)] && TakenUpLast(events, channel, false) then 1 else 0
  {
    hide Run, AskedAll, Recipients, TakenUpLast;
    SharedHub(OPENED, events);
    NamesAfter(OPENED, events, channel, false);
    MessageOnceToEachSubscriber(events, channel, c);
  }

  /** How many frames the backend sends for one publish: one if it is subscribed to the
      channel, and one for each of its patterns that the server matches to it. */
  function Frames(s: Shared, channel: Bytes, server: Pattern -> bool): nat {
    (if channel in s.channels then 1 else 0) + |set q | q in s.patterns && server(q)|
  }

  /** How often that publish reaches a client by a pattern of its own: either kind of
      frame is matched again by the proxy, and passed on to every glob that fits. */
  function CopiesByPattern(s: Shared, channel: Bytes, server: Pattern -> bool, local: Pattern -> bool, c: nat, p: Pattern): nat {
    if local(p) && c in Recipients(Entries(s.hub.subs, p), true) then Frames(s, channel, server) else 0
  }

  /** After any run on one backend connection, a client gets by a pattern it asked for one
      copy per frame, and none otherwise; what the frames are is what all clients' commands
      together made of the connection. */
  lemma PatternCopies(events: seq<Event>, channel: Bytes, server: Pattern -> bool, local: Pattern -> bool, c: nat, p: Pattern)
    requires forall i | 0 <= i < |events| :: !events[i].Lost?
    ensures var s, t := SharedRun(OPENED, events), AskedAll(map[], events);
            && CopiesByPattern(s, channel, server, local, c, p) ==
               (if (c, p) in t && t[(c, p)] && local(p) then Frames(s, channel, server) else 0)
            && (channel in s.channels <==> TakenUpLast(events, channel, false))
            && forall q :: q in s.patterns <==> TakenUpLast(events, q, true) || (q == ALL && NeverGivenUp(events, q, true))
  {
    hide Run, AskedAll, Recipients, TakenUpLast, NeverGivenUp, IndexOf, Indexed, Frames, Ascii;
    var s := SharedRun(OPENED, events);
    SharedHub(OPENED, events);
    NamesAfter(OPENED, events, channel, false);
    forall q ensures q in s.patterns <==> TakenUpLast(events, q, true) || (q == ALL && NeverGivenUp(events, q, true)) {
      NamesAfter(OPENED, events, q, true);
    }
    EmptyIndexed(EMPTY);
    IndexIsFaithful(EMPTY, map[], events);
    RecipientsSubscribed(Run(EMPTY, events), c, p, true);
  }

  /** A publish comes once if and only if just one of the backend's names covers it. */
  lemma OneFrameIff(s: Shared, channel: Bytes, server: Pattern -> bool)
    ensures Frames(s, channel, server) == 1 <==>
            if channel in s.channels then forall q | q in s.patterns :: !server(q)
            else exists q :: q in s.patterns && server(q) && forall q' | q' in s.patterns && server(q') :: q' == q
  {
    var fits := set q | q in s.patterns && server(q);
    SingleIff(fits);
    if |fits| == 1 {
      var q :| q in fits && forall q' | q' in fits :: q' == q;
      assert forall q' | q' in s.patterns && server(q') :: q' in fits;
    }
    assert (forall q | q in s.patterns :: !server(q)) <==> |fits| == 0 by {
      assert forall q | q in s.patterns && server(q) :: q in fits;
    }
  }

  lemma SingleIff(xs: set<Pattern>)
    ensures |xs| == 1 <==> exists x :: x in xs && forall y | y in xs :: y == x
  {
    if x :| x in xs {
      assert xs == {x} + (xs - {x});
      if |xs| == 1 {
        assert xs - {x} == {};
        assert forall y | y in xs :: y == x;
      }
    }
    if x :| x in xs && forall y | y in xs :: y == x {
      assert xs == {x};
    }
  }

  /** One client, one pattern other than the proxy's own: every publish comes twice. */
  lemma PatternTwice(channel: Bytes, server: Pattern -> bool, local: Pattern -> bool, c: nat, p: Pattern)
    requires p != ALL && server(p) && server(ALL) && local(p)
    ensures CopiesByPattern(SharedRun(OPENED, [Sub(c, [p], true)]), channel, server, local, c, p) == 2
  {
    hide Ascii, Step, Recipients, AskedAll;
    var e := Sub(c, [p], true);
    var s := SharedRun(OPENED, [e]);
    assert s == SharedStep(OPENED, e) by { OneStep(OPENED, e); }
    PatternCopies([e], channel, server, local, c, p);
    var none: Table := map[];
    OneName(none, c, p, true);
    assert Asked(none, e) == map[(c, p) := true];
    assert AskedAll(none, [e]) == Asked(none, e) by { OneAsked(none, e); }
    assert Named([p]) == {p} && s.patterns == {ALL, p} && s.channels == {};
    assert (set q | q in s.patterns && server(q)) == {ALL, p};
  }

  lemma OneStep(s: Shared, e: Event)
    ensures SharedRun(s, [e]) == SharedStep(s, e)
  {
    hide SharedStep;
    assert [e][1..] == [];
  }

  lemma OneAsked(t: Table, e: Event)
    ensures AskedAll(t, [e]) == Asked(t, e)
  {
    hide Asked;
    assert [e][1..] == [];
  }

  lemma OneName(t: Table, c: nat, p: Pattern, glob: bool)
    ensures Wish(t, c, [p], glob) == if (c, p) in t then t else t[(c, p) := glob]
    ensures Unwish(t, c, [p]) == t - {(c, p)}
  {
    assert [p][1..] == [];
  }

  /** Two clients subscribe, one unsubscribes: the other has asked, and gets nothing. */
  lemma UnsubscribeSilencesOthers(channel: Bytes, a: nat, b: nat)
    requires a != b
    ensures var events := [Sub(a, [channel], false), Sub(b, [channel], false), Unsub(a, [channel], false)];
            var t := AskedAll(map[], events);
            (b, channel) in t && !t[(b, channel)] && CopiesByName(SharedRun(OPENED, events), channel, b) == 0
  {
    var e0, e1, e2 := Sub(a, [channel], false), Sub(b, [channel], false), Unsub(a, [channel], false);
    var events := [e0, e1, e2];
    assert events[1..][1] == e2 && events[2..][0] == e2 && GivesUp(e2, channel, false);
    assert !NeverGivenUp(events[1..], channel, false) && !NeverGivenUp(events[2..], channel, false);
    assert forall i | 0 <= i < |events| && TakesUp(events[i], channel, false) :: i == 0 || i == 1;
    assert !TakenUpLast(events, channel, false);
    PublishReachesIff(events, channel, b);
    assert events[1..] == [e1, e2] && [e1, e2][1..] == [e2] && [e2][1..] == [];
    var t0: Table := map[];
    var t1 := t0[(a, channel) := false];
    var t2 := t1[(b, channel) := false];
    OneName(t0, a, channel, false);
    OneName(t1, b, channel, false);
    OneName(t2, a, channel, false);
    assert Asked(t0, e0) == t1 && Asked(t1, e1) == t2 && Asked(t2, e2) == t2 - {(a, channel)};
    assert AskedAll(t2, [e2]) == Asked(t2, e2) && AskedAll(t1, [e1, e2]) == AskedAll(t2, [e2]);
  }
}

/** The hub's methods, with their loops over lists and sets. */
module PubSubCode {
  import opened PubSub

  method FindEntry(es: seq<Entry>, c: nat) returns (i: nat)
    ensures i == IndexOf(es, c)
  {
    i := 0;
    while i < |es| && es[i].client != c
      invariant i <= |es| && forall j | 0 <= j < i :: es[j].client != c
    {
      i := i + 1;
    }
  }

  class PubsubHub {
    var subs: map<Pattern, seq<Entry>>
    var clientSubs: map<nat, set<Pattern>>
    var subscribed: set<nat>
    var notices: seq<nat>

    function Abstract(): Hub
      reads this
    {
      Hub(subs, clientSubs, subscribed)
    }

    constructor ()
      ensures Abstract() == EMPTY && notices == []
    {
      subs, clientSubs, subscribed, notices := map[], map[], {}, [];
    }

    method AddOne(c: nat, p: Pattern, glob: bool)
      modifies this`subs, this`clientSubs
      ensures Abstract() == AddSub(old(Abstract()), c, p, glob)
    {
      var es := Entries(subs, p);
      var i := FindEntry(es, c);
      if i < |es| {
        return;
      }
      subs := subs[p := es + [Entry(c, glob)]];
      if c !in clientSubs {
        clientSubs := clientSubs[c := {}];
      }
      clientSubs := clientSubs[c := clientSubs[c] + {p}];
    }

    /** Take the client's entry out of one list, and the list away if it is empty. */
    method DropOne(c: nat, p: Pattern)
      modifies this`subs
      ensures subs == DropAll(old(subs), {p}, c)
    {
      hide IndexOf;
      var es := Entries(subs, p);
      var i := FindEntry(es, c);
      if i < |es| {
        subs := subs[p := es[..i] + es[i + 1..]];
      }
      if Entries(subs, p) == [] {
        subs := subs - {p};
      }
    }

    method RemoveOne(c: nat, p: Pattern)
      modifies this`subs, this`clientSubs
      ensures Abstract() == RemoveSub(old(Abstract()), c, p)
    {
      hide DropAll;
      DropOne(c, p);
      if c in clientSubs {
        clientSubs := clientSubs[c := clientSubs[c] - {p}];
      }
    }

    method RemoveAll(c: nat)
      modifies this`subs
      ensures Abstract() == RemoveAllSubs(old(Abstract()), c)
    {
      var left := Patterns(Abstract(), c);
      ghost var done: set<Pattern> := {};
      assert subs == DropAll(old(subs), {}, c) by { NothingDropped(subs, c); }
      while left != {}
        invariant done !! left && done + left == old(Patterns(Abstract(), c))
        invariant subs == DropAll(old(subs), done, c) && clientSubs == old(clientSubs) && subscribed == old(subscribed)
        decreases |left|
      {
        var p :| p in left;
        DropOne(c, p);
        DropMore(old(subs), done, p, c);
        left, done := left - {p}, done + {p};
      }
    }

    method SubscribeTo(c: nat, ps: seq<Pattern>, glob: bool)
      modifies this
      ensures Abstract() == Subscribe(old(Abstract()), c, ps, glob) && notices == old(notices)
    {
      hide AddSub;
      subscribed := subscribed + {c};
      ghost var start := Abstract();
      var i := 0;
      while i < |ps|
        invariant i <= |ps| && notices == old(notices)
        invariant AddSubs(Abstract(), c, ps[i..], glob) == AddSubs(start, c, ps, glob)
      {
        assert ps[i..][1..] == ps[i + 1..];
        AddOne(c, ps[i], glob);
        i := i + 1;
      }
    }

    method UnsubscribeFrom(c: nat, ps: seq<Pattern>)
      modifies this
      ensures Abstract() == Unsubscribe(old(Abstract()), c, ps) && notices == old(notices)
    {
      hide RemoveSub, RemoveAllSubs;
      if ps == [] {
        RemoveAll(c);
      } else {
        var i := 0;
        while i < |ps|
          invariant i <= |ps| && notices == old(notices)
          invariant RemoveSubs(Abstract(), c, ps[i..]) == RemoveSubs(old(Abstract()), c, ps)
        {
          assert ps[i..][1..] == ps[i + 1..];
          RemoveOne(c, ps[i]);
          i := i + 1;
        }
      }
      if Patterns(Abstract(), c) == {} {
        clientSubs := clientSubs - {c};
        subscribed := subscribed - {c};
      }
    }

    method CloseClient(c: nat)
      modifies this
      ensures Abstract() == RemoveClient(old(Abstract()), c) && notices == old(notices)
    {
      hide RemoveAllSubs;
      RemoveAll(c);
      clientSubs := clientSubs - {c};
    }

    /** The hub's part of closing a connection. */
    method OnClientClose(c: nat)
      modifies this
      ensures Abstract() == Closed(old(Abstract()), c) && notices == old(notices)
    {
      hide RemoveClient;
      if c in subscribed {
        CloseClient(c);
        subscribed := subscribed - {c};
      }
    }

    /** A pattern message goes once to each glob subscription that matches, whatever
        order the patterns are walked in. */
    method DispatchPatterns(matches: Pattern -> bool) returns (out: seq<(Pattern, nat)>)
      requires Indexed(Abstract())
      ensures NoRepeat(out)
      ensures forall p: Pattern, c: nat :: (p, c) in out <==> matches(p) && Has(subs, c, p) && Kind(subs, c, p)
    {
      hide IndexOf, Recipients, Indexed;
      var left := subs.Keys;
      out := [];
      while left != {}
        invariant left <= subs.Keys && NoRepeat(out)
        invariant forall p: Pattern, c: nat :: (p, c) in out <==> p !in left && matches(p) && Has(subs, c, p) && Kind(subs, c, p)
        decreases |left|
      {
        var p :| p in left;
        left := left - {p};
        forall c ensures c in Recipients(subs[p], true) <==> Has(subs, c, p) && Kind(subs, c, p) {
          RecipientsSubscribed(Abstract(), c, p, true);
        }
        RecipientsSubscribed(Abstract(), 0, p, true);
        if matches(p) {
          ghost var before := out;
          out := out + Tagged(p, Recipients(subs[p], true));
          TaggedFresh(before, p, Recipients(subs[p], true));
        }
      }
    }

    /** Every client with an entry is told once, and the index starts over. */
    method OnSharedBackendClose() returns (told: seq<nat>)
      modifies this
      ensures Abstract() == BackendLost(old(Abstract())) && notices == old(notices) + told
      ensures NoRepeat(told) && forall c :: c in told <==> c in Subscribers(old(subs))
    {
      var left := subs.Keys;
      told := [];
      while left != {}
        invariant left <= subs.Keys && unchanged(this) && NoRepeat(told)
        invariant forall c :: c in told <==> exists p, i :: p in subs && p !in left && 0 <= i < |subs[p]| && subs[p][i].client == c
        decreases |left|
      {
        var p :| p in left;
        ghost var before := told;
        told := Tell(told, subs[p]);
        left := left - {p};
        TellMore(subs, before, told, left, p);
      }
      assert forall c :: c in told <==> c in Subscribers(subs);
      notices := notices + told;
      subscribed := set c | c in subscribed && c !in told;
      subs, clientSubs := map[], map[];
    }
  }

  function Tagged(p: Pattern, cs: seq<nat>): (r: seq<(Pattern, nat)>)
    ensures |r| == |cs| && forall i | 0 <= i < |cs| :: r[i] == (p, cs[i])
  {
    seq(|cs|, i requires 0 <= i < |cs| => (p, cs[i]))
  }

  lemma TaggedFresh(out: seq<(Pattern, nat)>, p: Pattern, cs: seq<nat>)
    requires NoRepeat(out) && NoRepeat(cs) && forall c :: (p, c) !in out
    ensures NoRepeat(out + Tagged(p, cs))
    ensures forall q, c :: (q, c) in out + Tagged(p, cs) <==> (q, c) in out || (q == p && c in cs)
  {
    var r := Tagged(p, cs);
    forall q, c ensures (q, c) in r <==> q == p && c in cs {
      if q == p && c in cs {
        var i :| 0 <= i < |cs| && cs[i] == c;
        assert r[i] == (p, c);
      }
    }
    assert forall i | 0 <= i < |out| :: out[i] in out;
  }

  /** Those of the list not told yet, in order. */
  method Tell(told: seq<nat>, es: seq<Entry>) returns (r: seq<nat>)
    requires NoRepeat(told)
    ensures NoRepeat(r)
    ensures forall c :: c in r <==> c in told || exists i :: 0 <= i < |es| && es[i].client == c
  {
    r := told;
    var i := 0;
    while i < |es|
      invariant i <= |es| && NoRepeat(r)
      invariant forall c :: c in r <==> c in told || exists j :: 0 <= j < i && es[j].client == c
    {
      if es[i].client !in r {
        r := r + [es[i].client];
      }
      i := i + 1;
    }
  }

  lemma TellMore(subs: map<Pattern, seq<Entry>>, before: seq<nat>, told: seq<nat>, left: set<Pattern>, p: Pattern)
    requires p in subs && p !in left
    requires forall c :: c in told <==> c in before || exists i :: 0 <= i < |subs[p]| && subs[p][i].client == c
    requires forall c :: c in before <==> exists q, i :: q in subs && q !in left && q != p && 0 <= i < |subs[q]| && subs[q][i].client == c
    ensures forall c :: c in told <==> exists q, i :: q in subs && q !in left && 0 <= i < |subs[q]| && subs[q][i].client == c
  {
  }

  lemma DropMore(subs: map<Pattern, seq<Entry>>, ps: set<Pattern>, p: Pattern, c: nat)
    requires p !in ps
    ensures DropAll(DropAll(subs, ps, c), {p}, c) == DropAll(subs, ps + {p}, c)
  {
    hide IndexOf, Cut;
  }
}
