/**
 SCAN over all masters (pkg/router/router.go): the client's cursor packs a master
 index into its low 16 bits and that master's own cursor above them.
 */
module ScanCursor {
  import opened Prelude

  const TWO16: int := 0x1_0000
  const TWO48: int := 0x1_0000_0000_0000
  const TWO64: int := 0x1_0000_0000_0000_0000

  /** (cursor << 16) | index, in 64 bits. */
  function Pack(cursor: nat, index: nat): nat
    requires index < TWO16
  {
    (cursor * TWO16) % TWO64 + index
  }

  function NodeIndex(x: nat): nat { x % TWO16 }

  function NodeCursor(x: nat): nat { x / TWO16 }

  /** Bit by bit, shift and or are the arithmetic above, and mask and shift the
      other way are remainder and quotient. */
  lemma PackIsShiftOr(c: bv64, i: bv64)
    requires i < 0x1_0000
    ensures (c << 16) | i == c * 0x1_0000 + i
    ensures ((c << 16) | i) & 0xFFFF == i
    ensures (((c << 16) | i) >> 16) == c & 0xFFFF_FFFF_FFFF
  {
  }

  /** What a master answers to SCAN with one of its own cursors. */
  datatype Answer = Page(cursor: nat, keys: seq<Bytes>) | Other(reply: Bytes)

  /** The masters, by index. */
  type Cluster = (nat, nat) -> Answer

  datatype Outcome = WrongArity | NoNodes | NotAnInteger | Passed(reply: Bytes) | Next(cursor: nat, keys: seq<Bytes>)

  /** Which master to ask, and with which cursor. An index past the end starts over. */
  function Target(masters: nat, x: nat): (nat, nat)
    requires masters > 0
  {
    if NodeIndex(x) >= masters then (0, 0) else (NodeIndex(x), NodeCursor(x))
  }

  function Onward(masters: nat, index: nat, returned: nat): nat
    requires index < TWO16
  {
    if returned != 0 then Pack(returned, index) else if index + 1 < masters then index + 1 else 0
  }

  /** executeSCAN; `cursor` is None when the argument is no unsigned 64-bit number. */
  function Execute(node: Cluster, masters: nat, args: nat, cursor: Option<nat>): Outcome {
    if args < 2 then WrongArity
    else if masters == 0 then NoNodes
    else if cursor.None? then NotAnInteger
    else
      var (index, own) := Target(masters, cursor.value);
      var answer := node(index, own);
      if answer.Other? then Passed(answer.reply) else Next(Onward(masters, index, answer.cursor), answer.keys)
  }

  // ---------------------------------------------------------------------- packing

  lemma PackedParts(cursor: nat, index: nat)
    requires index < TWO16
    ensures NodeIndex(Pack(cursor, index)) == index
    ensures NodeCursor(Pack(cursor, index)) == cursor % TWO48
    ensures Pack(cursor, index) < TWO64
  {
    assert cursor * TWO16 == (cursor / TWO48) * TWO64 + (cursor % TWO48) * TWO16;
    assert (cursor * TWO16) % TWO64 == (cursor % TWO48) * TWO16;
  }

  /** A position survives packing if and only if the master's cursor fits 48 bits. */
  lemma PackRoundTrip(cursor: nat, index: nat)
    requires index < TWO16
    ensures NodeIndex(Pack(cursor, index)) == index && NodeCursor(Pack(cursor, index)) == cursor <==>
            cursor < 0x1_0000_0000_0000
    ensures 0 < cursor < 0x1_0000_0000_0000 ==> Pack(cursor, index) != 0
  {
    PackedParts(cursor, index);
  }

  /** Past the limits: a 49-bit cursor of master 0 reads as the end of the scan, and
      master 65536 reads as cursor 1 of master 0. */
  lemma PackLimits()
    ensures Pack(0x1_0000_0000_0000, 0) == 0
    ensures NodeIndex(65536) == 0 && NodeCursor(65536) == 1
  {
  }

  /** A cursor of a master that is no longer there starts the scan over. */
  lemma PastTheEndStartsOver(node: Cluster, masters: nat, cursor: nat, index: nat)
    requires 0 < masters <= index < TWO16
    ensures Execute(node, masters, 2, Some(Pack(cursor, index))) == Execute(node, masters, 2, Some(0))
  {
    hide Pack;
    PackedParts(cursor, index);
  }

  // ----------------------------------------------------------------- completeness

  /** From `cursor`, master m's own scan takes exactly n calls, with 48-bit cursors. */
  ghost predicate Takes(node: Cluster, m: nat, cursor: nat, n: nat)
    decreases n
  {
    && cursor < TWO48 && n > 0 && node(m, cursor).Page?
    && (node(m, cursor).cursor == 0 <==> n == 1)
    && (n > 1 ==> Takes(node, m, node(m, cursor).cursor, n - 1))
  }

  /** The pages of that scan. */
  ghost function Pages(node: Cluster, m: nat, cursor: nat, n: nat): seq<seq<Bytes>>
    requires Takes(node, m, cursor, n)
    decreases n
  {
    [node(m, cursor).keys] + (if n == 1 then [] else Pages(node, m, node(m, cursor).cursor, n - 1))
  }

  ghost predicate AllTake(node: Cluster, lens: seq<nat>) {
    forall m | 0 <= m < |lens| :: Takes(node, m, 0, lens[m])
  }

  /** The full scans of masters m, m + 1, ... one after the other. */
  ghost function AllPages(node: Cluster, lens: seq<nat>, m: nat): seq<seq<Bytes>>
    requires m <= |lens| && AllTake(node, lens)
    decreases |lens| - m
  {
    if m == |lens| then [] else Pages(node, m, 0, lens[m]) + AllPages(node, lens, m + 1)
  }

  function Calls(lens: seq<nat>, m: nat): nat
    requires m <= |lens|
    decreases |lens| - m
  {
    if m == |lens| then 0 else lens[m] + Calls(lens, m + 1)
  }

  /** A client that feeds each cursor back, for k calls. */
  ghost function Client(node: Cluster, masters: nat, x: nat, k: nat): Option<(seq<seq<Bytes>>, nat)>
    decreases k
  {
    if k == 0 then Some(([], x))
    else
      var r := Execute(node, masters, 2, Some(x));
      if !r.Next? then None
      else
        var rest := Client(node, masters, r.cursor, k - 1);
        if rest.None? then None else Some(([r.keys] + rest.value.0, rest.value.1))
  }

  /** The client at cursor x needs exactly k calls, gets `pages`, and sees cursor 0
      after the last call and not before. */
  ghost predicate Completes(node: Cluster, masters: nat, x: nat, k: nat, pages: seq<seq<Bytes>>) {
    && Client(node, masters, x, k) == Some((pages, 0))
    && forall j: nat | 0 < j < k :: Client(node, masters, x, j).Some? && Client(node, masters, x, j).value.1 != 0
  }

  /** One call, then the rest. */
  lemma OneMore(node: Cluster, masters: nat, x: nat, x': nat, keys: seq<Bytes>, k: nat, pages: seq<seq<Bytes>>)
    requires Execute(node, masters, 2, Some(x)) == Next(x', keys)
    requires Completes(node, masters, x', k, pages) && (k > 0 ==> x' != 0)
    ensures Completes(node, masters, x, k + 1, [keys] + pages)
  {
    hide Execute;
    forall j: nat | 0 < j < k + 1
      ensures Client(node, masters, x, j).Some? && Client(node, masters, x, j).value.1 != 0 {
      if j == 1 {
        assert Client(node, masters, x', 0) == Some(([], x'));
      }
    }
  }

  lemma {:induction false} FromPosition(node: Cluster, lens: seq<nat>, m: nat, cursor: nat, n: nat)
    requires m < |lens| <= TWO16 && AllTake(node, lens) && Takes(node, m, cursor, n)
    ensures Completes(node, |lens|, Pack(cursor, m), n + Calls(lens, m + 1),
                      Pages(node, m, cursor, n) + AllPages(node, lens, m + 1))
    decreases |lens| - m, n
  {
    hide Completes, Pack;
    PackRoundTrip(cursor, m);
    var x, a := Pack(cursor, m), node(m, cursor);
    var x' := Onward(|lens|, m, a.cursor);
    var later := AllPages(node, lens, m + 1);
    assert Execute(node, |lens|, 2, Some(x)) == Next(x', a.keys);
    if n > 1 {
      PackRoundTrip(a.cursor, m);
      FromPosition(node, lens, m, a.cursor, n - 1);
      var rest := Pages(node, m, a.cursor, n - 1);
      OneMore(node, |lens|, x, x', a.keys, n - 1 + Calls(lens, m + 1), rest + later);
      assert [a.keys] + (rest + later) == Pages(node, m, cursor, n) + later;
    } else if m + 1 < |lens| {
      PackZero(m + 1);
      FromPosition(node, lens, m + 1, 0, lens[m + 1]);
      OneMore(node, |lens|, x, x', a.keys, Calls(lens, m + 1), later);
      assert Pages(node, m, cursor, n) == [a.keys];
      assert [a.keys] + later == Pages(node, m, cursor, n) + later;
    } else {
      Finished(node, |lens|);
      OneMore(node, |lens|, x, x', a.keys, 0, []);
      assert later == [] && [a.keys] + [] == Pages(node, m, cursor, n) + later;
    }
  }

  lemma Finished(node: Cluster, masters: nat)
    ensures Completes(node, masters, 0, 0, [])
  {
  }

  lemma PackZero(index: nat)
    requires index < TWO16
    ensures Pack(0, index) == index
  {
  }

  /** A client that starts at 0 gets every master's full scan, in master order, and
      nothing else; cursor 0 comes back exactly when the last master is done. */
  lemma ScanIsComplete(node: Cluster, lens: seq<nat>)
    requires 0 < |lens| <= TWO16 && AllTake(node, lens)
    ensures Completes(node, |lens|, 0, Calls(lens, 0), AllPages(node, lens, 0))
  {
    hide Completes, Pack;
    PackZero(0);
    FromPosition(node, lens, 0, 0, lens[0]);
  }
}
