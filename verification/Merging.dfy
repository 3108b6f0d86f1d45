/**
 The three merge functions of routeMultiKeyToMux: from the raw replies of the
 sub-commands to the one reply the client gets.
 */
module Merging {
  import opened Prelude
  import opened Resp
  import opened RespLaws
  import opened Split

  /** Which merge a fan-in slot carries; MGET's knows every group's positions. */
  datatype MergeKind = MergeMGet(indices: seq<seq<nat>>, total: nat) | MergeMSet | MergeCount

  /** The merged reply, or the nil dereference of a value that was not there. */
  datatype Merged = Merged(data: Bytes) | Panics

  const INVALID_PROTOCOL: Bytes := Ascii("invalid RESP protocol")

  function EncodeError(msg: Bytes): Bytes { Encode(Error(msg)) }

  /** Why a single sub-reply ends the merge, if it does. Only MGET needs a value
      to be there; the others skip an incomplete one. */
  function Failure(data: Bytes, needValue: bool): Option<Merged> {
    match ParseAt(data, 0)
    case Invalid => Some(Merged(EncodeError(INVALID_PROTOCOL)))
    case Overflow => Some(Panics)
    case Incomplete => if needValue then Some(Panics) else None
    case Done(v, _) => if v.Error? then Some(Merged(data)) else None
  }

  function FirstFailure(subs: seq<Bytes>, needValue: bool): Option<Merged> {
    if subs == [] then None
    else if Failure(subs[0], needValue).Some? then Failure(subs[0], needValue)
    else FirstFailure(subs[1..], needValue)
  }

  lemma {:induction false} FirstFailureAt(subs: seq<Bytes>, needValue: bool, g: nat)
    requires g <= |subs|
    requires forall i | 0 <= i < g :: Failure(subs[i], needValue).None?
    ensures FirstFailure(subs, needValue) ==
            if g == |subs| then None
            else if Failure(subs[g], needValue).Some? then Failure(subs[g], needValue)
            else FirstFailure(subs[g + 1..], needValue)
    decreases g
  {
    hide Failure;
    if g > 0 {
      assert forall i | 0 <= i < g - 1 :: subs[1..][i] == subs[i + 1];
      FirstFailureAt(subs[1..], needValue, g - 1);
      if g < |subs| {
        assert subs[1..][g..] == subs[g + 1..];
      }
    }
  }

  // ------------------------------------------------------------------- counts

  function IntegerIn(data: Bytes): int {
    var r := ParseAt(data, 0);
    if r.Done? && r.value.Integer? then r.value.n else 0
  }

  function Total(subs: seq<Bytes>): int {
    if subs == [] then 0 else Wrap64(Total(subs[..|subs| - 1]) + IntegerIn(subs[|subs| - 1]))
  }

  // --------------------------------------------------------------------- MGET

  type Results = seq<Option<Bytes>>

  predicate Fits(indices: seq<seq<nat>>, total: nat) {
    forall g, j | 0 <= g < |indices| && 0 <= j < |indices[g]| :: indices[g][j] < total
  }

  /** The first `j` elements of a sub-reply at their original positions. */
  function Place(results: Results, ix: seq<nat>, elems: seq<Value>, j: nat): (r: Results)
    requires j <= |ix| && j <= |elems| && forall i | 0 <= i < |ix| :: ix[i] < |results|
    ensures |r| == |results|
  {
    if j == 0 then results
    else Place(results, ix, elems, j - 1)[ix[j - 1] := Some(Encode(elems[j - 1]))]
  }

  function ElemsIn(data: Bytes): seq<Value> {
    var r := ParseAt(data, 0);
    if r.Done? && r.value.Array? then r.value.elems else []
  }

  function Min(a: nat, b: nat): nat { if a < b then a else b }

  /** The results after the first `g` groups. */
  function Fill(indices: seq<seq<nat>>, subs: seq<Bytes>, total: nat, g: nat): (r: Results)
    requires g <= |indices| && g <= |subs| && Fits(indices, total)
    ensures |r| == total
  {
    if g == 0 then seq(total, i => None)
    else
      var elems := ElemsIn(subs[g - 1]);
      Place(Fill(indices, subs, total, g - 1), indices[g - 1], elems, Min(|indices[g - 1]|, |elems|))
  }

  function Assemble(results: Results): Bytes {
    if results == [] then []
    else (if results[0].Some? then results[0].value else Encode(NilBulk)) + Assemble(results[1..])
  }

  // ------------------------------------------------------------ the merge as a whole

  predicate Applicable(kind: MergeKind, subs: seq<Bytes>) {
    kind.MergeMGet? ==> |subs| == |kind.indices| && Fits(kind.indices, kind.total)
  }

  function Combine(kind: MergeKind, subs: seq<Bytes>): Bytes
    requires Applicable(kind, subs)
  {
    match kind
    case MergeMGet(indices, total) => [STAR] + (FormatInt(total) + CRLF) + Assemble(Fill(indices, subs, total, |subs|))
    case MergeMSet => Encode(Simple(OK))
    case MergeCount => Encode(Integer(Total(subs)))
  }

  function Merge(kind: MergeKind, subs: seq<Bytes>): Merged
    requires Applicable(kind, subs)
  {
    var failure := FirstFailure(subs, kind.MergeMGet?);
    if failure.Some? then failure.value else Merged(Combine(kind, subs))
  }

  /** A failed sub-command decides the reply: the first error reply, in group
      order, is passed on byte for byte. */
  lemma FirstErrorWins(kind: MergeKind, subs: seq<Bytes>, g: nat)
    requires Applicable(kind, subs) && g < |subs|
    requires ParseAt(subs[g], 0).Done? && ParseAt(subs[g], 0).value.Error?
    requires forall i | 0 <= i < g :: ParseAt(subs[i], 0).Done? && !ParseAt(subs[i], 0).value.Error?
    ensures Merge(kind, subs) == Merged(subs[g])
  {
    FirstFailureAt(subs, kind.MergeMGet?, g);
  }

  /** A sub-reply that was read and is no error. */
  predicate Fine(data: Bytes) { ParseAt(data, 0).Done? && !ParseAt(data, 0).value.Error? }

  /** What else the first sub-reply that is not fine makes of the merge: bytes that are no
      RESP an error of the proxy's own; a missing value a nil dereference for MGET, and
      nothing for the others. */
  lemma OtherFailures(kind: MergeKind, subs: seq<Bytes>, g: nat)
    requires Applicable(kind, subs) && g < |subs| && forall i | 0 <= i < g :: Fine(subs[i])
    ensures ParseAt(subs[g], 0).Invalid? ==> Merge(kind, subs) == Merged([45] + (Ascii("invalid RESP protocol") + [13, 10]))
    ensures ParseAt(subs[g], 0).Overflow? ==> Merge(kind, subs).Panics?
    ensures ParseAt(subs[g], 0).Incomplete? && kind.MergeMGet? ==> Merge(kind, subs).Panics?
    ensures ParseAt(subs[g], 0).Incomplete? && !kind.MergeMGet? && (forall i | g < i < |subs| :: Fine(subs[i])) ==>
              Merge(kind, subs) == Merged(Combine(kind, subs))
  {
    hide ParseAt, Combine;
    FirstFailureAt(subs, kind.MergeMGet?, g);
    if !kind.MergeMGet? && ParseAt(subs[g], 0).Incomplete? && forall i | g < i < |subs| :: Fine(subs[i]) {
      FirstFailureAt(subs, false, |subs|);
    }
  }

  /** On replies the scanner cut out of a stream the merge never dereferences a
      missing value. */
  lemma {:induction false} ScannedNeverPanics(kind: MergeKind, subs: seq<Bytes>)
    requires Applicable(kind, subs)
    requires forall i | 0 <= i < |subs| :: ScanAt(subs[i], 0).Frame? && ScanAt(subs[i], 0).end == |subs[i]|
    ensures !Merge(kind, subs).Panics?
  {
    NoPanicsIn(subs, kind.MergeMGet?);
  }

  lemma {:induction false} NoPanicsIn(subs: seq<Bytes>, needValue: bool)
    requires forall i | 0 <= i < |subs| :: ScanAt(subs[i], 0).Frame? && ScanAt(subs[i], 0).end == |subs[i]|
    ensures FirstFailure(subs, needValue) != Some(Panics)
  {
    hide ScanAt, ParseAt;
    if subs != [] {
      assert subs[0][..|subs[0]|] == subs[0];
      ScannedFrameParses(subs[0]);
      assert forall i | 0 <= i < |subs[1..]| :: subs[1..][i] == subs[i + 1];
      NoPanicsIn(subs[1..], needValue);
    }
  }

  // --------------------------------------------------------------------- loops

  /** The error checks that all three merge loops share, up to group `g`. */
  lemma NextChecked(subs: seq<Bytes>, needValue: bool, g: nat)
    requires g < |subs| && forall i | 0 <= i < g :: Failure(subs[i], needValue).None?
    ensures Failure(subs[g], needValue).Some? ==> FirstFailure(subs, needValue) == Failure(subs[g], needValue)
  {
    FirstFailureAt(subs, needValue, g);
  }

  method MergeCounts(subs: seq<Bytes>) returns (r: Merged)
    ensures r == Merge(MergeCount, subs)
  {
    hide Failure, IntegerIn;
    var total := 0;
    for g := 0 to |subs|
      invariant forall i | 0 <= i < g :: Failure(subs[i], false).None?
      invariant total == Total(subs[..g])
    {
      NextChecked(subs, false, g);
      var f := Failure(subs[g], false);
      if f.Some? { return f.value; }
      assert subs[..g + 1][..g] == subs[..g];
      total := Wrap64(total + IntegerIn(subs[g]));
    }
    assert subs[..|subs|] == subs;
    FirstFailureAt(subs, false, |subs|);
    return Merged(Encode(Integer(total)));
  }

  method MergeStatus(subs: seq<Bytes>) returns (r: Merged)
    ensures r == Merge(MergeMSet, subs)
  {
    hide Failure;
    for g := 0 to |subs|
      invariant forall i | 0 <= i < g :: Failure(subs[i], false).None?
    {
      NextChecked(subs, false, g);
      var f := Failure(subs[g], false);
      if f.Some? { return f.value; }
    }
    FirstFailureAt(subs, false, |subs|);
    return Merged(Encode(Simple(OK)));
  }

  method MergeArrays(indices: seq<seq<nat>>, total: nat, subs: seq<Bytes>) returns (r: Merged)
    requires |subs| == |indices| && Fits(indices, total)
    ensures r == Merge(MergeMGet(indices, total), subs)
  {
    hide Failure, ElemsIn, Place, Assemble;
    var results: Results := seq(total, i => None);
    for g := 0 to |subs|
      invariant forall i | 0 <= i < g :: Failure(subs[i], true).None?
      invariant results == Fill(indices, subs, total, g)
    {
      NextChecked(subs, true, g);
      var f := Failure(subs[g], true);
      if f.Some? { return f.value; }
      results := PlaceLoop(results, indices[g], ElemsIn(subs[g]));
    }
    FirstFailureAt(subs, true, |subs|);
    var body := AssembleLoop(results);
    return Merged([STAR] + (FormatInt(total) + CRLF) + body);
  }

  method PlaceLoop(results: Results, ix: seq<nat>, elems: seq<Value>) returns (out: Results)
    requires forall i | 0 <= i < |ix| :: ix[i] < |results|
    ensures out == Place(results, ix, elems, Min(|ix|, |elems|))
  {
    out := results;
    for j := 0 to |ix|
      invariant |out| == |results|
      invariant out == Place(results, ix, elems, Min(j, |elems|))
    {
      if j < |elems| {
        out := out[ix[j] := Some(Encode(elems[j]))];
      }
    }
  }

  method AssembleLoop(results: Results) returns (b: Bytes)
    ensures b == Assemble(results)
  {
    hide Encode, Assemble;
    b := [];
    assert results[0..] == results;
    for i := 0 to |results|
      invariant b + Assemble(results[i..]) == Assemble(results)
    {
      AssembleStep(results, i, b);
      b := b + Piece(results[i]);
    }
    AssembleEnd(results, b);
  }

  function Piece(r: Option<Bytes>): Bytes { if r.Some? then r.value else Encode(NilBulk) }

  lemma AssembleStep(results: Results, i: nat, b: Bytes)
    requires i < |results|
    ensures b + Assemble(results[i..]) == (b + Piece(results[i])) + Assemble(results[i + 1..])
  {
    hide Encode;
    assert results[i..][1..] == results[i + 1..];
  }

  lemma AssembleEnd(results: Results, b: Bytes)
    ensures b + Assemble(results[|results|..]) == b
  {
    assert results[|results|..] == [];
  }
}
