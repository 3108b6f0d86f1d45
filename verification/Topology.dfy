/**
 Topology refreshes (pkg/cluster/topology.go): each snapshot replaces the last,
 and a changed fingerprint reports departed addresses and resets the entry points.
 */
module Topology {
  import opened Prelude
  import opened Fingerprint

  /** The manager and its snapshot; `removals` records every call of the removal
      hook, in order. */
  datatype Manager = Manager(
    nodes: Nodes, fingerprint: Bytes, masters: seq<Addr>, version: nat,
    entryPoints: seq<Addr>, removals: seq<set<Addr>>)

  /** NewManager: no nodes, an empty fingerprint, the configured entry points. */
  function Fresh(entryPoints: seq<Addr>): Manager { Manager(map[], [], [], 0, entryPoints, []) }

  function MasterSet(nodes: Nodes): (r: set<Addr>)
    ensures r <= nodes.Keys
  {
    set a | a in nodes && nodes[a].master
  }

  ghost function Masters(nodes: Nodes): seq<Addr> { InOrder(MasterSet(nodes)) }

  /** Update, and onTopologyChanged when the fingerprint is new. */
  ghost function Apply(m: Manager, next: Nodes): Manager {
    var fp := Of(next);
    var m' := m.(nodes := next, fingerprint := fp, masters := Masters(next), version := m.version + 1);
    if fp == m.fingerprint then m'
    else
      var gone := m.nodes.Keys - next.Keys;
      m'.(entryPoints := InOrder(next.Keys), removals := if gone == {} then m.removals else m.removals + [gone])
  }

  /** What an entry point answers, if it answers. */
  type Fetch = Addr -> Option<Nodes>

  /** The entry points are asked in turn until one answers. */
  ghost function Refresh(m: Manager, fetch: Fetch): Manager { TryFrom(m, m.entryPoints, fetch) }

  ghost function TryFrom(m: Manager, points: seq<Addr>, fetch: Fetch): Manager
    decreases |points|
  {
    if points == [] then m
    else if fetch(points[0]).Some? then Apply(m, fetch(points[0]).value)
    else TryFrom(m, points[1..], fetch)
  }

  ghost function Refreshes(m: Manager, fetches: seq<Fetch>): Manager
    decreases |fetches|
  {
    if fetches == [] then m else Refreshes(Refresh(m, fetches[0]), fetches[1..])
  }

  // ------------------------------------------------------------------- properties

  /** The entry points are the sorted addresses of the current snapshot. */
  ghost predicate Current(m: Manager) { m.entryPoints == InOrder(m.nodes.Keys) }

  /** The stored fingerprint is the one of the stored nodes, and while there are
      nodes the entry points are theirs. */
  ghost predicate Inv(m: Manager) {
    && Unambiguous(m.nodes) && m.fingerprint == Of(m.nodes) && m.masters == Masters(m.nodes)
    && (m.nodes != map[] ==> Current(m))
  }

  lemma EmptyFingerprint()
    ensures Of(map[]) == [] && Masters(map[]) == []
  {
    SortedUnique(InOrder({}), []);
    assert EntrySet(map[]) == {};
    assert MasterSet(map[]) == {};
  }

  lemma FreshInv(entryPoints: seq<Addr>)
    ensures Inv(Fresh(entryPoints))
  {
    EmptyFingerprint();
  }

  /** One refresh: exactly the addresses that are in the old snapshot and not in the
      new one are reported, in one call, and none when nothing departed. */
  lemma ApplyReports(m: Manager, next: Nodes)
    requires Inv(m) && Unambiguous(next)
    ensures var m', gone := Apply(m, next), m.nodes.Keys - next.Keys;
            && Inv(m') && m'.nodes == next && m'.version == m.version + 1
            && m'.removals == (if gone == {} then m.removals else m.removals + [gone])
            && (Current(m) || next != map[] ==> Current(m'))
  {
    hide Of, Masters, InOrder;
    if Of(next) == m.fingerprint {
      FingerprintInjective(next, m.nodes);
      assert m.nodes.Keys - next.Keys == {};
    }
  }

  /** What the removal hook has been told after a run over `snapshots`, from `prev`. */
  ghost function Departures(prev: Nodes, snapshots: seq<Nodes>): seq<set<Addr>>
    decreases |snapshots|
  {
    if snapshots == [] then []
    else
      var gone := prev.Keys - snapshots[0].Keys;
      (if gone == {} then [] else [gone]) + Departures(snapshots[0], snapshots[1..])
  }

  ghost function ApplyAll(m: Manager, snapshots: seq<Nodes>): Manager
    decreases |snapshots|
  {
    if snapshots == [] then m else ApplyAll(Apply(m, snapshots[0]), snapshots[1..])
  }

  /** Over any run of refreshes: every departure is reported exactly once, at the
      refresh where it happens; after the first non-empty snapshot the entry points
      are the sorted addresses of the current one. */
  lemma {:induction false} EveryDepartureReportedOnce(m: Manager, snapshots: seq<Nodes>)
    requires Inv(m) && forall i | 0 <= i < |snapshots| :: Unambiguous(snapshots[i])
    ensures var m' := ApplyAll(m, snapshots);
            && Inv(m') && m'.removals == m.removals + Departures(m.nodes, snapshots)
            && (Current(m) || (exists i :: 0 <= i < |snapshots| && snapshots[i] != map[]) ==> Current(m'))
    decreases |snapshots|
  {
    hide Inv, Apply, Current;
    if snapshots == [] {
      assert m.removals + [] == m.removals;
    } else {
      ApplyReports(m, snapshots[0]);
      EveryDepartureReportedOnce(Apply(m, snapshots[0]), snapshots[1..]);
      if i :| 0 < i < |snapshots| && snapshots[i] != map[] {
        assert snapshots[1..][i - 1] != map[];
      }
    }
  }

  /** From the start: no departure is ever reported that did not happen, and none that
      happened goes unreported. */
  lemma DeparturesFromStart(entryPoints: seq<Addr>, snapshots: seq<Nodes>)
    requires forall i | 0 <= i < |snapshots| :: Unambiguous(snapshots[i])
    ensures var m := ApplyAll(Fresh(entryPoints), snapshots);
            && m.removals == Departures(map[], snapshots)
            && ((exists i :: 0 <= i < |snapshots| && snapshots[i] != map[]) ==> Current(m))
  {
    hide Inv, Current, ApplyAll, Departures, Unambiguous;
    FreshInv(entryPoints);
    EveryDepartureReportedOnce(Fresh(entryPoints), snapshots);
    assert [] + Departures(map[], snapshots) == Departures(map[], snapshots);
  }

  // --------------------------------------------------------------------- the masters

  /** Byte order: at the first difference the smaller byte, or a proper prefix. */
  predicate ComesBefore(a: Addr, b: Addr, p: nat) {
    p <= |a| && p <= |b| && a[..p] == b[..p] && (if p < |a| then p < |b| && a[p] < b[p] else p < |b|)
  }

  ghost predicate Ascends(a: Addr, b: Addr) { exists p: nat :: ComesBefore(a, b, p) }

  lemma {:induction false} LessComesBefore(a: Addr, b: Addr) returns (p: nat)
    requires Less(a, b)
    ensures ComesBefore(a, b, p)
  {
    if a == [] || a[0] < b[0] {
      p := 0;
    } else {
      var q := LessComesBefore(a[1..], b[1..]);
      p := q + 1;
      assert a == [a[0]] + a[1..] && b == [b[0]] + b[1..];
      assert a[..p] == [a[0]] + a[1..][..q] && b[..p] == [b[0]] + b[1..][..q];
    }
  }

  /** The addresses of a snapshot with this role, in ascending byte order, once each. */
  ghost predicate Lists(points: seq<Addr>, nodes: Nodes, onlyMasters: bool) {
    && (forall a :: a in points <==> a in nodes && (onlyMasters ==> nodes[a].master))
    && forall i, j | 0 <= i < j < |points| :: Ascends(points[i], points[j])
  }

  lemma InOrderLists(points: seq<Addr>, nodes: Nodes, onlyMasters: bool)
    requires points == InOrder(if onlyMasters then MasterSet(nodes) else nodes.Keys)
    ensures Lists(points, nodes, onlyMasters)
  {
    hide InOrder, Less;
    assert Sorted(points);
    forall i, j | 0 <= i < j < |points| ensures Ascends(points[i], points[j]) {
      var p := LessComesBefore(points[i], points[j]);
    }
    var xs: set<Addr> := if onlyMasters then MasterSet(nodes) else nodes.Keys;
    assert forall a :: a in points <==> a in xs;
    assert forall a :: a in xs <==> a in nodes && (onlyMasters ==> nodes[a].master);
  }

  /** After any run the manager's masters are the last snapshot's, in ascending order,
      and the version counts the snapshots; once one had a node, the entry points are all
      the last snapshot's addresses. */
  lemma MastersAreListed(points: seq<Addr>, snapshots: seq<Nodes>)
    requires forall i | 0 <= i < |snapshots| :: Unambiguous(snapshots[i])
    ensures var m := ApplyAll(Fresh(points), snapshots);
            && Lists(m.masters, m.nodes, true) && m.version == |snapshots|
            && (snapshots != [] ==> m.nodes == snapshots[|snapshots| - 1])
            && ((exists i :: 0 <= i < |snapshots| && snapshots[i] != map[]) ==> Lists(m.entryPoints, m.nodes, false))
  {
    hide ApplyAll, Lists, Unambiguous, InOrder, Of;
    FreshInv(points);
    EveryDepartureReportedOnce(Fresh(points), snapshots);
    var m := ApplyAll(Fresh(points), snapshots);
    InOrderLists(m.masters, m.nodes, true);
    if exists i :: 0 <= i < |snapshots| && snapshots[i] != map[] {
      InOrderLists(m.entryPoints, m.nodes, false);
    }
    LastSnapshot(Fresh(points), snapshots);
  }

  lemma {:induction false} LastSnapshot(m: Manager, snapshots: seq<Nodes>)
    ensures var m' := ApplyAll(m, snapshots);
            m'.version == m.version + |snapshots| && (snapshots != [] ==> m'.nodes == snapshots[|snapshots| - 1])
    decreases |snapshots|
  {
    hide Of, Masters, InOrder;
    if snapshots != [] {
      LastSnapshot(Apply(m, snapshots[0]), snapshots[1..]);
    }
  }

  // ------------------------------------------------------------- what was fetched

  /** The first answer among some entry points, if any answers. */
  ghost function FirstAnswer(points: seq<Addr>, fetch: Fetch): Option<Nodes> {
    if points == [] then None else if fetch(points[0]).Some? then fetch(points[0]) else FirstAnswer(points[1..], fetch)
  }

  /** The snapshots that a run of refreshes fetches, in order. */
  ghost function Fetched(m: Manager, fetches: seq<Fetch>): seq<Nodes>
    decreases |fetches|
  {
    if fetches == [] then []
    else
      var first := FirstAnswer(m.entryPoints, fetches[0]);
      (if first.Some? then [first.value] else []) + Fetched(Refresh(m, fetches[0]), fetches[1..])
  }

  lemma {:induction false} TryTakesFirst(m: Manager, points: seq<Addr>, fetch: Fetch)
    ensures var first := FirstAnswer(points, fetch);
            TryFrom(m, points, fetch) == if first.Some? then Apply(m, first.value) else m
  {
    hide Apply;
    if points != [] && fetch(points[0]).None? {
      TryTakesFirst(m, points[1..], fetch);
    }
  }

  /** A run of refreshes is the run over exactly the snapshots it fetches. */
  lemma {:induction false} RefreshesApplyFetched(m: Manager, fetches: seq<Fetch>)
    ensures Refreshes(m, fetches) == ApplyAll(m, Fetched(m, fetches))
    decreases |fetches|
  {
    hide Apply;
    if fetches != [] {
      var first, rest := FirstAnswer(m.entryPoints, fetches[0]), Fetched(Refresh(m, fetches[0]), fetches[1..]);
      TryTakesFirst(m, m.entryPoints, fetches[0]);
      RefreshesApplyFetched(Refresh(m, fetches[0]), fetches[1..]);
      if first.Some? {
        assert ([first.value] + rest)[1..] == rest;
      } else {
        assert [] + rest == rest;
      }
    }
  }

  /** So over any run of refreshes, whichever entry points answer, the hook is told
      exactly the departures between the snapshots fetched. */
  lemma RefreshesReportDepartures(entryPoints: seq<Addr>, fetches: seq<Fetch>)
    requires var got := Fetched(Fresh(entryPoints), fetches); forall i | 0 <= i < |got| :: Unambiguous(got[i])
    ensures var m, got := Refreshes(Fresh(entryPoints), fetches), Fetched(Fresh(entryPoints), fetches);
            && m.removals == Departures(map[], got)
            && ((exists i :: 0 <= i < |got| && got[i] != map[]) ==> Current(m))
  {
    hide Fetched, Refreshes, Current;
    RefreshesApplyFetched(Fresh(entryPoints), fetches);
    DeparturesFromStart(entryPoints, Fetched(Fresh(entryPoints), fetches));
  }

  // --------------------------------------------------------- losing every entry point

  lemma OrderedNothing(xs: set<Addr>)
    ensures InOrder(xs) == [] <==> xs == {}
  {
    if xs != {} {
      var x :| x in xs;
      assert x in InOrder(xs);
    }
  }

  /** Only the empty topology has an empty fingerprint. */
  lemma EmptyPrintIff(nodes: Nodes)
    ensures Of(nodes) == [] <==> nodes == map[]
  {
    hide InOrder, Entry;
    OrderedNothing(EntrySet(nodes));
    if nodes == map[] {
      assert EntrySet(nodes) == {};
    } else {
      var a :| a in nodes;
      assert Entry(a, nodes[a]) in EntrySet(nodes);
      var s := InOrder(EntrySet(nodes));
      JoinHead(s);
      assert s[0] in EntrySet(nodes);
      var b :| b in nodes && Entry(b, nodes[b]) == s[0];
      EntryStarts(b, nodes[b]);
    }
  }

  /** `seen`: some snapshot so far had a node. */
  ghost predicate Reachable(m: Manager, seen: bool) {
    && m.fingerprint == Of(m.nodes) && (m.nodes != map[] ==> seen)
    && (m.entryPoints == [] <==> seen && m.nodes == map[])
  }

  lemma ApplyReachable(m: Manager, next: Nodes, seen: bool)
    requires Reachable(m, seen)
    ensures Reachable(Apply(m, next), seen || next != map[])
  {
    hide Of, Masters, InOrder;
    EmptyPrintIff(m.nodes);
    EmptyPrintIff(next);
    OrderedNothing(next.Keys);
  }

  ghost predicate SomeNode(snapshots: seq<Nodes>) { exists i :: 0 <= i < |snapshots| && snapshots[i] != map[] }

  lemma {:induction false} ApplyAllReachable(m: Manager, snapshots: seq<Nodes>, seen: bool)
    requires Reachable(m, seen)
    ensures Reachable(ApplyAll(m, snapshots), seen || SomeNode(snapshots))
    ensures snapshots != [] ==> ApplyAll(m, snapshots).nodes == snapshots[|snapshots| - 1]
    decreases |snapshots|
  {
    hide Reachable, Apply;
    if snapshots != [] {
      var rest := snapshots[1..];
      ApplyReachable(m, snapshots[0], seen);
      assert Apply(m, snapshots[0]).nodes == snapshots[0] by { ApplyTakes(m, snapshots[0]); }
      ApplyAllReachable(Apply(m, snapshots[0]), rest, seen || snapshots[0] != map[]);
      assert SomeNode(snapshots) <==> snapshots[0] != map[] || SomeNode(rest) by {
        assert forall i | 0 <= i < |rest| :: rest[i] == snapshots[i + 1];
        assert forall i | 0 < i < |snapshots| :: snapshots[i] == rest[i - 1];
      }
    }
  }

  lemma ApplyTakes(m: Manager, next: Nodes)
    ensures Apply(m, next).nodes == next
  {
  }

  /** Exactly when the manager has lost every entry point: some snapshot had a node and
      the last one has none. No snapshot is excluded. */
  lemma NoEntryPointIff(points: seq<Addr>, snapshots: seq<Nodes>)
    requires points != []
    ensures ApplyAll(Fresh(points), snapshots).entryPoints == [] <==>
            snapshots != [] && snapshots[|snapshots| - 1] == map[] && SomeNode(snapshots)
  {
    hide ApplyAll;
    EmptyFingerprint();
    ApplyAllReachable(Fresh(points), snapshots, false);
    if snapshots == [] {
      assert ApplyAll(Fresh(points), snapshots) == Fresh(points) by { NoSnapshots(Fresh(points)); }
    }
  }

  lemma NoSnapshots(m: Manager)
    ensures ApplyAll(m, []) == m
  {
  }

  /** Exactly when a run of refreshes is over for good: from then on, whatever the
      nodes would answer, nothing changes any more; and as long as it is not so, there
      is an entry point left to ask. */
  lemma EmptySnapshotIsFinal(points: seq<Addr>, fetches: seq<Fetch>, later: seq<Fetch>)
    requires points != []
    ensures var m, got := Refreshes(Fresh(points), fetches), Fetched(Fresh(points), fetches);
            && (m.entryPoints == [] <==> got != [] && got[|got| - 1] == map[] && SomeNode(got))
            && (m.entryPoints == [] ==> Refreshes(m, later) == m)
  {
    hide Fetched, Refreshes, SomeNode;
    RefreshesApplyFetched(Fresh(points), fetches);
    NoEntryPointIff(points, Fetched(Fresh(points), fetches));
    var m := Refreshes(Fresh(points), fetches);
    if m.entryPoints == [] {
      Stuck(m, later);
    }
  }

  lemma {:induction false} Stuck(m: Manager, fetches: seq<Fetch>)
    requires m.entryPoints == []
    ensures Refreshes(m, fetches) == m
    decreases |fetches|
  {
    if fetches != [] {
      Stuck(Refresh(m, fetches[0]), fetches[1..]);
    }
  }
}

/** The methods that walk the maps. */
module TopologyCode {
  import opened Prelude
  import opened Fingerprint
  import opened Topology

  /** Collect the elements in some order, then sort them. */
  method SortedKeys(keys: set<Addr>) returns (r: seq<Addr>)
    ensures r == InOrder(keys)
  {
    var list: seq<Addr>, left := [], keys;
    while left != {}
      invariant left <= keys && Distinct(list)
      invariant forall a :: a in list <==> a in keys && a !in left
      decreases |left|
    {
      var a :| a in left;
      assert forall i | 0 <= i < |list| :: list[i] in list;
      list, left := list + [a], left - {a};
    }
    SortSorted(list);
    SortedUnique(Sort(list), InOrder(keys));
    r := Sort(list);
  }

  method Departed(prev: Nodes, next: Nodes) returns (removed: set<Addr>)
    ensures removed == prev.Keys - next.Keys
  {
    var left := prev.Keys;
    removed := {};
    while left != {}
      invariant left <= prev.Keys
      invariant forall a :: a in removed <==> a in prev && a !in left && a !in next
      decreases |left|
    {
      var a :| a in left;
      if a !in next {
        removed := removed + {a};
      }
      left := left - {a};
    }
  }

  method MastersOf(nodes: Nodes) returns (ms: set<Addr>)
    ensures ms == MasterSet(nodes)
  {
    var left := nodes.Keys;
    ms := {};
    while left != {}
      invariant left <= nodes.Keys
      invariant forall a :: a in ms <==> a in nodes && a !in left && nodes[a].master
      decreases |left|
    {
      var a :| a in left;
      if nodes[a].master {
        ms := ms + {a};
      }
      left := left - {a};
    }
  }

  class TopoManager {
    var nodes: Nodes
    var fingerprint: Bytes
    var masters: seq<Addr>
    var version: nat
    var entryPoints: seq<Addr>
    var removals: seq<set<Addr>>

    function Abstract(): Manager
      reads this
    {
      Manager(nodes, fingerprint, masters, version, entryPoints, removals)
    }

    constructor (points: seq<Addr>)
      ensures Abstract() == Fresh(points)
    {
      nodes, fingerprint, masters, version, entryPoints, removals := map[], [], [], 0, points, [];
    }

    method Update(next: Nodes, fp: Bytes)
      modifies this`nodes, this`fingerprint, this`masters, this`version
      ensures nodes == next && fingerprint == fp && masters == Masters(next) && version == old(version) + 1
    {
      hide InOrder;
      var ms := MastersOf(next);
      nodes, fingerprint, version := next, fp, version + 1;
      masters := SortedKeys(ms);
    }

    /** Report what is gone, if anything, and start from the nodes there are. */
    method OnTopologyChanged(prev: Nodes, next: Nodes)
      modifies this`entryPoints, this`removals
      ensures entryPoints == InOrder(next.Keys)
      ensures var gone := prev.Keys - next.Keys;
              removals == if gone == {} then old(removals) else old(removals) + [gone]
    {
      hide InOrder;
      var removed := Departed(prev, next);
      if removed != {} {
        removals := removals + [removed];
      }
      entryPoints := SortedKeys(next.Keys);
    }

    /** refreshFrom, once the nodes are fetched. */
    method RefreshFrom(next: Nodes)
      modifies this
      ensures Abstract() == Apply(old(Abstract()), next)
    {
      var fp := Compute(next);
      var prevNodes, prevPrint := nodes, fingerprint;
      Update(next, fp);
      if fp != prevPrint {
        OnTopologyChanged(prevNodes, next);
      }
    }
  }
}
