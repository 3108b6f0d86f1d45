/** The loops of the codec, proved against the functions of `Resp`. */
module RespCode {
  import opened Prelude
  import opened Resp

  /** Values read so far in front of the outcome for the remaining ones. */
  function Prepend(vs: seq<Value>, r: Read<seq<Value>>): Read<seq<Value>> {
    if r.Done? then Done(vs + r.value, r.end) else r
  }

  lemma PrependNothing(r: Read<seq<Value>>)
    ensures Prepend([], r) == r
  {
    if r.Done? {
      assert [] + r.value == r.value;
    }
  }

  lemma PrependStep(buf: Bytes, vs: seq<Value>, cur: nat, n: nat)
    requires cur <= |buf| && n > 0
    ensures var v := ParseAt(buf, cur);
            Prepend(vs, ParseElems(buf, cur, n)) ==
            if v.Done? then Prepend(vs + [v.value], ParseElems(buf, v.end, n - 1)) else v.Fail()
  {
    var v := ParseAt(buf, cur);
    if v.Done? && ParseElems(buf, v.end, n - 1).Done? {
      var rest := ParseElems(buf, v.end, n - 1).value;
      assert vs + ([v.value] + rest) == vs + [v.value] + rest;
    }
  }

  method ParseValueAt(buf: Bytes, pos: nat) returns (r: Read<Value>)
    requires pos <= |buf|
    ensures r == ParseAt(buf, pos)
    decreases |buf| - pos, 0
  {
    hide ParseElems;
    if pos >= |buf| { return Incomplete; }
    var typ := buf[pos];
    if !IsMarker(typ) {
      var words := ReadInline(buf, pos);
      return if words.Done? then Done(Array(Bulks(words.value)), words.end) else words.Fail();
    }
    var line := ReadLine(buf, pos + 1);
    if !line.Done? { return Incomplete; }
    if typ == PLUS { return Done(Simple(line.value), line.end); }
    if typ == MINUS { return Done(Error(line.value), line.end); }
    var n := ParseIntBytes(line.value);
    if n.None? { return Invalid; }
    if typ == COLON { return Done(Integer(n.value), line.end); }
    if typ == DOLLAR {
      if n.value < 0 { return Done(NilBulk, line.end); }
      var data := PayloadEnd(buf, line.end, n.value);
      return if data.Done? then Done(Bulk(data.value), data.end) else data.Fail();
    }
    if n.value < 0 { return Done(NilArray, line.end); }
    var vs := ParseElemsFrom(buf, line.end, n.value);
    return if vs.Done? then Done(Array(vs.value), vs.end) else vs.Fail();
  }

  /** The cursor loop over the elements of an array. */
  method ParseElemsFrom(buf: Bytes, start: nat, n: nat) returns (r: Read<seq<Value>>)
    requires start <= |buf|
    ensures r == ParseElems(buf, start, n)
    decreases |buf| - start, 1
  {
    hide ParseAt;
    var arr: seq<Value> := [];
    var cur := start;
    PrependNothing(ParseElems(buf, cur, n));
    var i := 0;
    while i < n
      invariant 0 <= i <= n && start <= cur <= |buf|
      invariant ParseElems(buf, start, n) == Prepend(arr, ParseElems(buf, cur, n - i))
    {
      PrependStep(buf, arr, cur, n - i);
      var v := ParseValueAt(buf, cur);
      if !v.Done? { return v.Fail(); }
      arr := arr + [v.value];
      cur := v.end;
      i := i + 1;
    }
    assert arr + [] == arr;
    return Done(arr, cur);
  }

  method ScanValueAt(buf: Bytes, pos: nat) returns (r: Scan)
    requires pos <= |buf|
    ensures r == ScanAt(buf, pos)
    decreases |buf| - pos
  {
    if pos >= |buf| { return NoFrame; }
    var typ := buf[pos];
    if !IsMarker(typ) {
      var idx := IndexLF(buf, pos);
      return if idx.None? then NoFrame else Frame(idx.value + 1, KindNone, []);
    }
    var line := ReadLine(buf, pos + 1);
    if !line.Done? { return NoFrame; }
    if typ == PLUS || typ == COLON { return Frame(line.end, KindNone, []); }
    if typ == MINUS {
      var kind := KindOther;
      if MOVED <= line.value { kind := KindMoved; } else if ASK <= line.value { kind := KindAsk; }
      return Frame(line.end, kind, line.value);
    }
    var n := ParseIntBytes(line.value);
    if n.None? { return NoFrame; }
    if n.value < 0 { return Frame(line.end, KindNone, []); }
    if typ == DOLLAR {
      var data := PayloadEnd(buf, line.end, n.value);
      return if data.Done? then Frame(data.end, KindNone, []) else if data.Overflow? then ScanOverflow else NoFrame;
    }
    var cur := line.end;
    var i := 0;
    while i < n.value
      invariant 0 <= i <= n.value && line.end <= cur <= |buf|
      invariant ScanElems(buf, line.end, n.value) == ScanElems(buf, cur, n.value - i)
    {
      var next := ScanValueAt(buf, cur);
      if !next.Frame? { return next; }
      cur := next.end;
      i := i + 1;
    }
    return Frame(cur, KindNone, []);
  }

  method AppendValue(b: Bytes, v: Value) returns (out: Bytes)
    ensures out == b + Encode(v)
    decreases v, 1
  {
    hide FormatInt, EncodeBulk, EncodeAll;
    match v
    case Simple(s) => out := b + [PLUS] + (s + CRLF);
    case Error(s) => out := b + [MINUS] + (s + CRLF);
    case Integer(n) => out := b + [COLON] + (FormatInt(n) + CRLF);
    case Bulk(s) => out := b + EncodeBulk(s);
    case NilBulk => out := b + [DOLLAR] + (FormatInt(-1) + CRLF);
    case Nil => out := b + [DOLLAR] + (FormatInt(-1) + CRLF);
    case NilArray => out := b + [STAR] + (FormatInt(-1) + CRLF);
    case Array(vs) =>
      out := b + [STAR] + (FormatInt(|vs|) + CRLF);
      out := AppendElems(out, vs);
      assert b + [STAR] + (FormatInt(|vs|) + CRLF) + EncodeAll(vs) ==
             b + ([STAR] + (FormatInt(|vs|) + CRLF) + EncodeAll(vs));
  }

  method AppendElems(b: Bytes, vs: seq<Value>) returns (out: Bytes)
    ensures out == b + EncodeAll(vs)
    decreases vs, 0
  {
    hide Encode;
    out := b;
    assert vs[0..] == vs;
    for i := 0 to |vs|
      invariant out + EncodeAll(vs[i..]) == b + EncodeAll(vs)
    {
      ghost var before := out;
      out := AppendValue(out, vs[i]);
      assert vs[i..][1..] == vs[i + 1..];
      assert before + (Encode(vs[i]) + EncodeAll(vs[i + 1..])) == out + EncodeAll(vs[i + 1..]);
    }
    assert vs[|vs|..] == [];
    assert out + [] == out;
  }
}
