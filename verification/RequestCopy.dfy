/**
 The in-place side of request parsing: arguments start out as slices of the
 network buffer, are re-sliced into a private copy, and the command name is
 upper-cased inside that copy.
 */
module RequestCopy {
  import opened Prelude
  import opened Resp
  import opened Request

  /** A Go slice: a window on an array. */
  datatype ArgSlice = ArgSlice(base: array<Byte>, off: nat, len: nat) {
    ghost predicate InRange() { off + len <= base.Length }
    function Contents(): Bytes
      requires off + len <= base.Length
      reads base
    {
      base[off..off + len]
    }
  }

  method UpperAsciiInPlace(b: array<Byte>, lo: nat, hi: nat)
    requires lo <= hi <= b.Length
    modifies b
    ensures Capitals(old(b[lo..hi]), b[lo..hi])
    ensures forall i | 0 <= i < b.Length && !(lo <= i < hi) :: b[i] == old(b[i])
  {
    for i := lo to hi
      invariant forall j | lo <= j < i ::
                  b[j] == if 97 <= old(b[j]) <= 122 then old(b[j]) - 32 else old(b[j])
      invariant forall j | 0 <= j < b.Length && !(lo <= j < i) :: b[j] == old(b[j])
    {
      var c := b[i];
      if c >= 97 && c <= 122 {
        b[i] := c - 32;
      }
    }
  }

  /** The argument loop: slices of the network buffer. */
  method CollectArgs(buf: array<Byte>, start: nat, n: nat) returns (r: Read<seq<ArgSlice>>)
    requires start <= buf.Length
    ensures var spec := ParseArgs(buf[..], start, n);
            && r.Done? == spec.Done? && r.Incomplete? == spec.Incomplete? && r.Invalid? == spec.Invalid?
            && (r.Done? ==> r.end == spec.end && |r.value| == n &&
                            forall i | 0 <= i < n :: r.value[i] == ArgSlice(buf, spec.value[i].off, spec.value[i].len))
  {
    hide ParseArg;
    ghost var b := buf[..];
    ghost var spans: seq<Span> := [];
    var args: seq<ArgSlice> := [];
    var cur := start;
    var i := 0;
    if ParseArgs(b, start, n).Done? {
      assert [] + ParseArgs(b, start, n).value == ParseArgs(b, start, n).value;
    }
    while i < n
      invariant 0 <= i <= n && 0 <= cur <= buf.Length && |args| == |spans| == i
      invariant forall k | 0 <= k < i :: args[k] == ArgSlice(buf, spans[k].off, spans[k].len)
      invariant var rest := ParseArgs(b, cur, n - i);
                ParseArgs(b, start, n) == if rest.Done? then Done(spans + rest.value, rest.end) else rest
    {
      var arg := ParseArg(buf[..], cur);
      if !arg.Done? { return arg.Fail(); }
      ghost var rest := ParseArgs(b, arg.end, n - i - 1);
      if rest.Done? {
        assert spans + ([arg.value] + rest.value) == spans + [arg.value] + rest.value;
      }
      args := args + [ArgSlice(buf, arg.value.off, arg.value.len)];
      spans := spans + [arg.value];
      cur := arg.end;
      i := i + 1;
    }
    assert spans + [] == spans;
    return Done(args, cur);
  }

  /** Re-slice every non-empty argument from the network buffer to the copy. */
  method Reslice(args: seq<ArgSlice>, raw: array<Byte>) returns (out: seq<ArgSlice>)
    ensures |out| == |args|
    ensures forall i | 0 <= i < |args| ::
              out[i] == if args[i].len == 0 then args[i] else args[i].(base := raw)
  {
    out := args;
    for i := 0 to |args|
      invariant |out| == |args|
      invariant forall j | 0 <= j < i :: out[j] == if args[j].len == 0 then args[j] else args[j].(base := raw)
      invariant forall j | i <= j < |args| :: out[j] == args[j]
    {
      if args[i].len != 0 {
        out := out[i := ArgSlice(raw, args[i].off, args[i].len)];
      }
    }
  }

  /** The slice of the copy (or, if empty, of the buffer) at a span. */
  function SliceAt(buf: array<Byte>, raw: array<Byte>, sp: Span): ArgSlice {
    ArgSlice(if sp.len == 0 then buf else raw, sp.off, sp.len)
  }

  method ParseRequestDirect(buf: array<Byte>) returns (r: Read<seq<ArgSlice>>, raw: array<Byte>)
    requires IsMultibulk(buf[..])
    ensures fresh(raw)
    ensures var spec := ParseMultibulk(buf[..]);
            && r.Done? == spec.Done? && r.Incomplete? == spec.Incomplete? && r.Invalid? == spec.Invalid?
            && (r.Done? ==> r.end == spec.end == raw.Length && raw[..] == buf[..spec.end] && |r.value| == |spec.value| &&
                            forall i | 0 <= i < |spec.value| :: r.value[i] == SliceAt(buf, raw, spec.value[i]))
  {
    hide ParseArgs, ReadLine;
    raw := new Byte[0];
    var line := ReadLine(buf[..], 1);
    if !line.Done? { return Incomplete, raw; }
    var n := ParseIntBytes(line.value);
    if n.None? || n.value <= 0 { return Invalid, raw; }
    var args := CollectArgs(buf, line.end, n.value);
    if !args.Done? { return args, raw; }
    raw := new Byte[args.end](i requires 0 <= i < args.end <= buf.Length reads buf => buf[i]);
    assert raw[..] == buf[..args.end];
    var slices := Reslice(args.value, raw);
    return Done(slices, args.end), raw;
  }

  /** Parsing an accepted multibulk request: the network buffer is not written,
      every non-empty argument is a slice of the fresh copy, the slices do not
      overlap, the copy differs from what was received only in the upper-cased
      name, and the arguments read through the slices are the request's. */
  method ParseMultibulkRequest(buf: array<Byte>) returns (r: Read<seq<ArgSlice>>, raw: array<Byte>)
    requires IsMultibulk(buf[..])
    ensures fresh(raw)
    ensures r.Done? <==> ParseRequest(buf[..]).Done?
    ensures r.Incomplete? <==> ParseRequest(buf[..]).Incomplete?
    ensures r.Done? ==> r.end == ParseRequest(buf[..]).end && raw[..] == RawCopy(buf[..])
    ensures r.Done? ==> |r.value| == |ParseRequest(buf[..]).value|
    ensures r.Done? ==> forall i | 0 <= i < |r.value| ::
                          r.value[i].InRange() && r.value[i].Contents() == ParseRequest(buf[..]).value[i]
    ensures r.Done? ==> AsReceived(Slices(buf[..], ParseMultibulk(buf[..]).value), ParseRequest(buf[..]).value)
    ensures r.Done? ==> forall i | 0 <= i < |r.value| && r.value[i].len > 0 :: r.value[i].base == raw
    ensures r.Done? ==> forall i, j | 0 <= i < j < |r.value| :: r.value[i].off + r.value[i].len <= r.value[j].off
  {
    hide ParseMultibulk, RawCopy, Slices, UpperFirst, UpperByte, AsReceived;
    ghost var b := buf[..];
    r, raw := ParseRequestDirect(buf);
    if r.Done? {
      SpansOrdered(b);
      ghost var spans := ParseMultibulk(b).value;
      CapitaliseName(raw, r.value[0].off, r.value[0].len, b);
      ArgumentsAsReceived(b);
      forall i | 0 <= i < |spans| ensures r.value[i].InRange() && r.value[i].Contents() == ParseRequest(b).value[i] {
        SliceHolds(b, raw[..], spans[i], i);
        if r.value[i].len > 0 {
          assert r.value[i].Contents() == raw[..][spans[i].off..spans[i].off + spans[i].len];
        }
      }
    }
  }

  /** The command name, if it is not empty, is upper-cased in the copy. */
  method CapitaliseName(raw: array<Byte>, off: nat, len: nat, ghost b: Bytes)
    requires IsMultibulk(b) && ParseMultibulk(b).Done? && ParseMultibulk(b).value[0] == Span(off, len)
    requires raw.Length == ParseMultibulk(b).end && raw[..] == b[..raw.Length]
    modifies raw
    ensures ParseRequest(b).Done? && raw[..] == RawCopy(b)
  {
    hide ParseMultibulk, RawCopy, Slices, UpperFirst, UpperByte, Capitals;
    SpansOrdered(b);
    Accepted(b);
    assert raw[off..off + len] == b[off..off + len] by {
      assert raw[off..off + len] == raw[..][off..off + len];
    }
    assert forall i | 0 <= i < raw.Length :: raw[i] == raw[..][i] == b[i];
    if len > 0 {
      UpperAsciiInPlace(raw, off, off + len);
    } else {
      EmptyCapitals(b[off..off + len]);
    }
    assert raw[..][off..off + len] == raw[off..off + len];
    CopyContents(b, raw[..]);
  }

  lemma EmptyCapitals(s: Bytes)
    requires s == []
    ensures Capitals(s, s)
  {
  }

  /** What the copy must be, byte by byte. */
  lemma CopyContents(b: Bytes, raw: Bytes)
    requires IsMultibulk(b) && ParseMultibulk(b).Done? && |raw| == ParseMultibulk(b).end <= |b|
    requires var name := ParseMultibulk(b).value[0]; var lo, hi := name.off, name.off + name.len;
             && hi <= |raw| && Capitals(b[lo..hi], raw[lo..hi])
             && forall i | 0 <= i < |raw| && !(lo <= i < hi) :: raw[i] == b[i]
    ensures ParseRequest(b).Done? && raw == RawCopy(b)
  {
    hide ParseMultibulk, ParseRequest, Capitals, UpperByte;
    Accepted(b);
    SpansOrdered(b);
    var copy, name := RawCopy(b), ParseMultibulk(b).value[0];
    var lo, hi := name.off, name.off + name.len;
    forall i | 0 <= i < |raw| ensures copy[i] == raw[i] {
      if lo <= i < hi {
        CapitalAt(b[lo..hi], raw[lo..hi], i - lo);
      }
    }
  }

  lemma CapitalAt(received: Bytes, name: Bytes, i: nat)
    requires Capitals(received, name) && i < |name|
    ensures name[i] == UpperByte(received[i])
  {
  }

  lemma SliceHolds(b: Bytes, raw: Bytes, sp: Span, k: nat)
    requires IsMultibulk(b) && ParseMultibulk(b).Done? && raw == RawCopy(b)
    requires k < |ParseMultibulk(b).value| && sp == ParseMultibulk(b).value[k]
    ensures sp.off + sp.len <= |raw| && k < |ParseRequest(b).value|
    ensures raw[sp.off..sp.off + sp.len] == ParseRequest(b).value[k]
  {
    hide ParseMultibulk, ParseRequest, RawCopy, IsMultibulk;
    Accepted(b);
    SpansOrdered(b);
    RawArguments(b);
    assert Slices(raw, ParseMultibulk(b).value)[k] == Slice(raw, sp);
  }

  lemma Accepted(b: Bytes)
    requires IsMultibulk(b) && ParseMultibulk(b).Done?
    ensures ParseRequest(b).Done? && |RawCopy(b)| == ParseMultibulk(b).end
  {
    hide ParseMultibulk;
    SpansOrdered(b);
  }
}
