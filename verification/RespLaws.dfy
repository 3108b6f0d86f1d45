/** What the RESP printer, parser and scanner promise about each other. */
module RespLaws {
  import opened Prelude
  import opened Resp

  // ------------------------------------------------- bytes after a value

  /** An answer other than "incomplete" is final: later bytes cannot change it. */
  lemma {:induction false} ParseExtends(buf: Bytes, more: Bytes, pos: nat)
    requires pos <= |buf|
    requires !ParseAt(buf, pos).Incomplete?
    ensures ParseAt(buf + more, pos) == ParseAt(buf, pos)
    decreases |buf| - pos, 0
  {
    var ext := buf + more;
    if IsMarker(buf[pos]) {
      var line := ReadLine(buf, pos + 1);
      ReadLineLocal(buf, ext, pos + 1);
      ParseBodyExtends(buf, more, buf[pos], line.value, line.end);
    } else {
      ReadLineLocal(buf, ext, pos);
    }
  }

  lemma {:induction false} ParseBodyExtends(buf: Bytes, more: Bytes, typ: Byte, line: Bytes, end: nat)
    requires end <= |buf| && IsMarker(typ)
    requires !ParseBody(buf, typ, line, end).Incomplete?
    ensures ParseBody(buf + more, typ, line, end) == ParseBody(buf, typ, line, end)
    decreases |buf| - end, 2
  {
    var n := ParseInt(line);
    if n.Some? && n.value >= 0 {
      if typ == STAR {
        ParseElemsExtends(buf, more, end, n.value);
      } else if typ == DOLLAR && PayloadEnd(buf, end, n.value).Done? {
        assert (buf + more)[end..end + n.value] == buf[end..end + n.value];
      }
    }
  }

  lemma {:induction false} ParseElemsExtends(buf: Bytes, more: Bytes, cur: nat, n: nat)
    requires cur <= |buf|
    requires !ParseElems(buf, cur, n).Incomplete?
    ensures ParseElems(buf + more, cur, n) == ParseElems(buf, cur, n)
    decreases |buf| - cur, 1
  {
    hide ParseAt;
    if n > 0 {
      ParseExtends(buf, more, cur);
      if ParseAt(buf, cur).Done? {
        ParseElemsExtends(buf, more, ParseAt(buf, cur).end, n - 1);
      }
    }
  }

  /** The bytes an answer of the scanner rests on. */
  function Used(buf: Bytes, s: Scan): nat { if s.Frame? then s.end else |buf| }

  predicate SameUpTo(a: Bytes, b: Bytes, k: nat) {
    k <= |a| && k <= |b| && forall i | 0 <= i < k :: a[i] == b[i]
  }

  /** A scanned frame (or an overflow) is final, and a frame depends on the bytes
      up to its end only. */
  lemma {:induction false} ScanLocal(buf: Bytes, buf': Bytes, pos: nat)
    requires pos <= |buf| && pos <= |buf'|
    requires !ScanAt(buf, pos).NoFrame?
    requires SameUpTo(buf, buf', Used(buf, ScanAt(buf, pos)))
    ensures ScanAt(buf', pos) == ScanAt(buf, pos)
    decreases |buf| - pos, 0
  {
    if IsMarker(buf[pos]) {
      var line := ReadLine(buf, pos + 1);
      ReadLineLocal(buf, buf', pos + 1);
      ScanBodyLocal(buf, buf', buf[pos], line.value, line.end);
    }
  }

  lemma {:induction false} ScanBodyLocal(buf: Bytes, buf': Bytes, typ: Byte, line: Bytes, end: nat)
    requires end <= |buf| && end <= |buf'| && IsMarker(typ)
    requires !ScanBody(buf, typ, line, end).NoFrame?
    requires SameUpTo(buf, buf', Used(buf, ScanBody(buf, typ, line, end)))
    ensures ScanBody(buf', typ, line, end) == ScanBody(buf, typ, line, end)
    decreases |buf| - end, 2
  {
    var n := ParseInt(line);
    if typ == STAR && n.Some? && n.value >= 0 {
      ScanElemsLocal(buf, buf', end, n.value);
    }
  }

  lemma {:induction false} ScanElemsLocal(buf: Bytes, buf': Bytes, cur: nat, n: nat)
    requires cur <= |buf| && cur <= |buf'|
    requires !ScanElems(buf, cur, n).NoFrame?
    requires SameUpTo(buf, buf', Used(buf, ScanElems(buf, cur, n)))
    ensures ScanElems(buf', cur, n) == ScanElems(buf, cur, n)
    decreases |buf| - cur, 1
  {
    hide ScanAt;
    if n > 0 {
      ScanLocal(buf, buf', cur);
      if ScanAt(buf, cur).Frame? {
        ScanElemsLocal(buf, buf', ScanAt(buf, cur).end, n - 1);
      }
    }
  }

  // --------------------------------------------- the scanner and the parser

  function KindOf(v: Value): Kind { if v.Error? then ErrorKind(v.str) else KindNone }
  function MsgOf(v: Value): Bytes { if v.Error? then v.str else [] }

  /** The scanner refines the parser: every accepted value is scanned to the same
      end with the same classification and message, and a value the parser waits
      for is one the scanner waits for. */
  lemma {:induction false} ScanAgrees(buf: Bytes, pos: nat)
    requires pos <= |buf|
    ensures ParseAt(buf, pos).Done? ==>
              var p := ParseAt(buf, pos); ScanAt(buf, pos) == Frame(p.end, KindOf(p.value), MsgOf(p.value))
    ensures ParseAt(buf, pos).Incomplete? ==> ScanAt(buf, pos) == NoFrame
    ensures ParseAt(buf, pos).Overflow? ==> ScanAt(buf, pos) == ScanOverflow
    decreases |buf| - pos, 0
  {
    if pos < |buf| && IsMarker(buf[pos]) && ReadLine(buf, pos + 1).Done? {
      var line := ReadLine(buf, pos + 1);
      ScanBodyAgrees(buf, buf[pos], line.value, line.end);
    }
  }

  lemma {:induction false} ScanBodyAgrees(buf: Bytes, typ: Byte, line: Bytes, end: nat)
    requires end <= |buf| && IsMarker(typ)
    ensures ParseBody(buf, typ, line, end).Done? ==>
              var p := ParseBody(buf, typ, line, end);
              ScanBody(buf, typ, line, end) == Frame(p.end, KindOf(p.value), MsgOf(p.value))
    ensures ParseBody(buf, typ, line, end).Incomplete? ==> ScanBody(buf, typ, line, end) == NoFrame
    ensures ParseBody(buf, typ, line, end).Overflow? ==> ScanBody(buf, typ, line, end) == ScanOverflow
    decreases |buf| - end, 2
  {
    var n := ParseInt(line);
    if typ == STAR && n.Some? && n.value >= 0 {
      ScanElemsAgree(buf, end, n.value);
    }
  }

  lemma {:induction false} ScanElemsAgree(buf: Bytes, cur: nat, n: nat)
    requires cur <= |buf|
    ensures ParseElems(buf, cur, n).Done? ==>
              ScanElems(buf, cur, n) == Frame(ParseElems(buf, cur, n).end, KindNone, [])
    ensures ParseElems(buf, cur, n).Incomplete? ==> ScanElems(buf, cur, n) == NoFrame
    ensures ParseElems(buf, cur, n).Overflow? ==> ScanElems(buf, cur, n) == ScanOverflow
    decreases |buf| - cur, 1
  {
    hide ParseAt, ScanAt, KindOf, MsgOf;
    if n > 0 {
      ScanAgrees(buf, cur);
      if ParseAt(buf, cur).Done? {
        ScanElemsAgree(buf, ParseAt(buf, cur).end, n - 1);
      }
    }
  }

  /** Parsing exactly the bytes the scanner cut out never asks for more, so a
      caller that ignores the "incomplete" answer never sees a missing value. */
  lemma ScannedFrameParses(buf: Bytes)
    requires ScanAt(buf, 0).Frame?
    ensures var frame := buf[..ScanAt(buf, 0).end];
            ParseAt(frame, 0).Invalid? || (ParseAt(frame, 0).Done? && ParseAt(frame, 0).end == |frame|)
    ensures ParseAt(buf[..ScanAt(buf, 0).end], 0).Done? ==>
              var v := ParseAt(buf[..ScanAt(buf, 0).end], 0).value;
              (ScanAt(buf, 0).kind == KindMoved <==> IsMoved(v)) && (ScanAt(buf, 0).kind == KindAsk <==> IsAsk(v)) &&
              (v.Error? ==> ScanAt(buf, 0).msg == v.str)
  {
    var frame := buf[..ScanAt(buf, 0).end];
    ScanLocal(buf, frame, 0);
    ScanAgrees(frame, 0);
    MovedIsNotAsk(ScanAt(buf, 0).msg);
  }

  lemma MovedIsNotAsk(s: Bytes)
    ensures !(MOVED <= s && ASK <= s)
  {
    assert MOVED[0] != ASK[0];
  }

  // ------------------------------------------------------------- round trip

  /** Values a client or server can print: int64 integers, one-line strings. */
  predicate Printable(v: Value)
    decreases v, 1
  {
    match v
    case Simple(s) => LF !in s
    case Error(s) => LF !in s
    case Integer(n) => INT64_MIN <= n <= INT64_MAX
    case Array(vs) => AllPrintable(vs)
    case _ => true
  }

  predicate AllPrintable(vs: seq<Value>)
    decreases vs, 0
  {
    vs == [] || (Printable(vs[0]) && AllPrintable(vs[1..]))
  }

  /** A nil pointer reads back as a nil bulk string; all else as itself. */
  function Canon(v: Value): Value
    decreases v, 1
  {
    match v
    case Nil => NilBulk
    case Array(vs) => Array(CanonAll(vs))
    case _ => v
  }

  function CanonAll(vs: seq<Value>): (r: seq<Value>)
    ensures |r| == |vs|
    decreases vs, 0
  {
    if vs == [] then [] else [Canon(vs[0])] + CanonAll(vs[1..])
  }

  lemma HeaderAt(buf: Bytes, pos: nat, typ: Byte, line: Bytes, rest: Bytes)
    requires LF !in line
    requires At(buf, pos, [typ] + (line + CRLF) + rest)
    ensures pos < |buf| && buf[pos] == typ
    ensures ReadLine(buf, pos + 1) == Done(line, pos + |line| + 3)
    ensures At(buf, pos + |line| + 3, rest)
  {
    hide ReadLine;
    AtParts(buf, pos, [typ] + (line + CRLF), rest);
    AtParts(buf, pos, [typ], line + CRLF);
    assert buf[pos] == buf[pos..pos + 1][0];
    ReadLineAt(buf, pos + 1, line);
  }

  lemma BulkAt(buf: Bytes, pos: nat, s: Bytes)
    requires |buf| <= INT64_MAX
    requires At(buf, pos, EncodeBulk(s))
    ensures pos < |buf| && buf[pos] == DOLLAR
    ensures var line := ReadLine(buf, pos + 1);
            line.Done? && ParseInt(line.value) == Some(|s|) && PayloadEnd(buf, line.end, |s|) == Done(s, pos + |EncodeBulk(s)|)
  {
    hide ReadLine, ParseInt, FormatInt;
    HeaderAt(buf, pos, DOLLAR, FormatInt(|s|), s + CRLF);
    IntRoundTrip(|s|);
    AtParts(buf, pos + |FormatInt(|s|)| + 3, s, CRLF);
  }

  lemma BulkParses(buf: Bytes, pos: nat, s: Bytes)
    requires |buf| <= INT64_MAX
    requires At(buf, pos, EncodeBulk(s))
    ensures ParseAt(buf, pos) == Done(Bulk(s), pos + |EncodeBulk(s)|)
  {
    hide At, ReadLine, ParseInt, PayloadEnd, EncodeBulk;
    BulkAt(buf, pos, s);
  }

  /** A value whose first line is printed at `pos` is read on from that line. */
  lemma LineAt(buf: Bytes, pos: nat, typ: Byte, line: Bytes, rest: Bytes)
    requires IsMarker(typ) && LF !in line
    requires At(buf, pos, [typ] + (line + CRLF) + rest)
    ensures pos + |line| + 3 <= |buf| && At(buf, pos + |line| + 3, rest)
    ensures ParseAt(buf, pos) == ParseBody(buf, typ, line, pos + |line| + 3)
  {
    hide At, ReadLine, ParseBody;
    HeaderAt(buf, pos, typ, line, rest);
  }

  lemma NoRest(buf: Bytes, pos: nat, s: Bytes)
    requires At(buf, pos, s)
    ensures At(buf, pos, s + [])
  {
    assert s + [] == s;
  }

  lemma RoundTripScalar(buf: Bytes, pos: nat, v: Value)
    requires |buf| <= INT64_MAX
    requires !v.Array? && Printable(v)
    requires At(buf, pos, Encode(v))
    ensures ParseAt(buf, pos) == Done(Canon(v), pos + |Encode(v)|)
  {
    hide At, ParseAt, ReadLine, FormatInt, ParseInt;
    NoRest(buf, pos, Encode(v));
    match v
    case Simple(s) => LineAt(buf, pos, PLUS, s, []);
    case Error(s) => LineAt(buf, pos, MINUS, s, []);
    case Integer(n) => LineAt(buf, pos, COLON, FormatInt(n), []); IntRoundTrip(n);
    case Bulk(s) => BulkParses(buf, pos, s);
    case NilBulk => LineAt(buf, pos, DOLLAR, FormatInt(-1), []); IntRoundTrip(-1);
    case Nil => LineAt(buf, pos, DOLLAR, FormatInt(-1), []); IntRoundTrip(-1);
    case NilArray => LineAt(buf, pos, STAR, FormatInt(-1), []); IntRoundTrip(-1);
  }

  /** Printing then parsing, at any offset and with any bytes after. */
  lemma {:induction false} RoundTrip(buf: Bytes, pos: nat, v: Value)
    requires |buf| <= INT64_MAX
    requires Printable(v)
    requires At(buf, pos, Encode(v))
    ensures ParseAt(buf, pos) == Done(Canon(v), pos + |Encode(v)|)
    decreases v, 1
  {
    hide At, ParseAt, ParseBody, ParseElems, FormatInt, Encode, EncodeAll;
    if v.Array? {
      var start := ArrayHeader(buf, pos, v);
      RoundTripAll(buf, start, v.elems);
      ArrayBody(buf, v.elems, start);
    } else {
      RoundTripScalar(buf, pos, v);
    }
  }

  lemma ArrayHeader(buf: Bytes, pos: nat, v: Value) returns (start: nat)
    requires v.Array? && At(buf, pos, Encode(v))
    ensures At(buf, start, EncodeAll(v.elems)) && start + |EncodeAll(v.elems)| == pos + |Encode(v)|
    ensures ParseAt(buf, pos) == ParseBody(buf, STAR, FormatInt(|v.elems|), start)
  {
    hide At, ParseAt, ParseBody, FormatInt, EncodeAll;
    start := pos + |FormatInt(|v.elems|)| + 3;
    LineAt(buf, pos, STAR, FormatInt(|v.elems|), EncodeAll(v.elems));
  }

  lemma ArrayBody(buf: Bytes, vs: seq<Value>, start: nat)
    requires |buf| <= INT64_MAX && At(buf, start, EncodeAll(vs))
    requires ParseElems(buf, start, |vs|) == Done(CanonAll(vs), start + |EncodeAll(vs)|)
    ensures ParseBody(buf, STAR, FormatInt(|vs|), start) == Done(Array(CanonAll(vs)), start + |EncodeAll(vs)|)
  {
    EncodeAllLength(vs);
    IntRoundTrip(|vs|);
  }

  lemma {:induction false} EncodeAllLength(vs: seq<Value>)
    ensures |vs| <= |EncodeAll(vs)|
  {
    if vs != [] { EncodeAllLength(vs[1..]); }
  }

  lemma {:induction false} RoundTripAll(buf: Bytes, pos: nat, vs: seq<Value>)
    requires |buf| <= INT64_MAX
    requires AllPrintable(vs)
    requires At(buf, pos, EncodeAll(vs))
    ensures ParseElems(buf, pos, |vs|) == Done(CanonAll(vs), pos + |EncodeAll(vs)|)
    decreases vs, 0
  {
    hide At, ParseAt, Encode;
    if vs != [] {
      var v, rest := vs[0], vs[1..];
      AtParts(buf, pos, Encode(v), EncodeAll(rest));
      RoundTrip(buf, pos, v);
      RoundTripAll(buf, pos + |Encode(v)|, rest);
      ElemsStep(buf, pos, |vs|);
    }
  }

  lemma ElemsStep(buf: Bytes, cur: nat, n: nat)
    requires cur <= |buf| && n > 0 && ParseAt(buf, cur).Done?
    ensures var v, vs := ParseAt(buf, cur), ParseElems(buf, ParseAt(buf, cur).end, n - 1);
            vs.Done? ==> ParseElems(buf, cur, n) == Done([v.value] + vs.value, vs.end)
  {
  }

  /** Every strict prefix of a printed value is reported incomplete, by the parser
      and by the scanner. */
  lemma StrictPrefixIncomplete(v: Value, k: nat)
    requires Printable(v) && |Encode(v)| <= INT64_MAX && k < |Encode(v)|
    ensures ParseAt(Encode(v)[..k], 0) == Incomplete
    ensures ScanAt(Encode(v)[..k], 0) == NoFrame
  {
    hide ParseAt, ScanAt, Encode;
    var whole, part := Encode(v), Encode(v)[..k];
    RoundTrip(whole, 0, v);
    assert part + whole[k..] == whole;
    if !ParseAt(part, 0).Incomplete? {
      ParseExtends(part, whole[k..], 0);
    }
    ScanAgrees(part, 0);
  }

  /** Printing is injective up to the nil pointer. */
  lemma EncodeInjective(v: Value, w: Value)
    requires Printable(v) && Printable(w) && |Encode(v)| <= INT64_MAX
    requires Encode(v) == Encode(w)
    ensures Canon(v) == Canon(w)
  {
    RoundTrip(Encode(v), 0, v);
    RoundTrip(Encode(v), 0, w);
  }

  // ------------------------------------------------------------- the bytes themselves

  /** The markers and line ends of RESP. */
  lemma WireForms(s: Bytes, n: int, vs: seq<Value>)
    ensures Encode(Simple(s)) == [43] + (s + [13, 10]) && Encode(Error(s)) == [45] + (s + [13, 10])
    ensures Encode(Integer(n)) == [58] + (FormatInt(n) + [13, 10])
    ensures Encode(Bulk(s)) == [36] + (FormatInt(|s|) + [13, 10]) + (s + [13, 10])
    ensures Encode(Array(vs)) == [42] + (FormatInt(|vs|) + [13, 10]) + EncodeAll(vs)
  {
    hide FormatInt, EncodeAll;
  }

  /** And some values in full: +OK, :1, :-12, $2 ab, the nil bulk and the nil array. */
  lemma WireExamples()
    ensures Encode(Simple(Ascii("OK"))) == [43, 79, 75, 13, 10]
    ensures Encode(Integer(1)) == [58, 49, 13, 10] && Encode(Integer(-12)) == [58, 45, 49, 50, 13, 10]
    ensures Encode(Bulk([97, 98])) == [36, 50, 13, 10, 97, 98, 13, 10]
    ensures Encode(NilBulk) == [36, 45, 49, 13, 10] && Encode(NilArray) == [42, 45, 49, 13, 10]
  {
    hide Encode, FormatInt, Ascii;
    SomeNumbers();
    var ok: Bytes, ab: Bytes := [79, 75], [97, 98];
    assert Ascii("OK") == ok by { SpelledOk(); }
    WireForms(ok, 1, []);
    WireForms(ab, -12, []);
    NilForms();
    assert [43] + (ok + [13, 10]) == [43, 79, 75, 13, 10];
    assert [36] + ([50] + [13, 10]) + (ab + [13, 10]) == [36, 50, 13, 10, 97, 98, 13, 10];
  }

  lemma SpelledOk()
    ensures Ascii("OK") == [79, 75]
  {
    assert "OK" == ['O', 'K'];
  }

  lemma NilForms()
    ensures Encode(NilBulk) == [36, 45, 49, 13, 10] && Encode(NilArray) == [42, 45, 49, 13, 10]
  {
    hide FormatInt;
    SomeNumbers();
  }

  lemma SomeNumbers()
    ensures FormatInt(1) == [49] && FormatInt(2) == [50] && FormatInt(-1) == [45, 49] && FormatInt(-12) == [45, 49, 50]
  {
    hide Digits;
    SomeDigits();
  }

  lemma SomeDigits()
    ensures Digits(1) == [49] && Digits(2) == [50] && Digits(12) == [49, 50]
  {
    assert 12 / 10 == 1 && 12 % 10 == 2;
  }

  /** Any negative length is nil, not only -1, for parser and scanner alike. */
  lemma AnyNegativeIsNil(n: int, rest: Bytes)
    requires INT64_MIN <= n < 0
    ensures var buf := [36] + (FormatInt(n) + CRLF) + rest; var end := 1 + |FormatInt(n) + CRLF|;
            ParseAt(buf, 0) == Done(NilBulk, end) && ScanAt(buf, 0) == Frame(end, KindNone, [])
    ensures var buf := [42] + (FormatInt(n) + CRLF) + rest; var end := 1 + |FormatInt(n) + CRLF|;
            ParseAt(buf, 0) == Done(NilArray, end) && ScanAt(buf, 0) == Frame(end, KindNone, [])
  {
    hide FormatInt, ParseInt, ParseAt, ScanAt;
    NegativeHeader(36, n, rest);
    NegativeHeader(42, n, rest);
  }

  lemma NegativeHeader(typ: Byte, n: int, rest: Bytes)
    requires INT64_MIN <= n < 0 && (typ == 36 || typ == 42)
    ensures var buf := [typ] + (FormatInt(n) + CRLF) + rest; var end := 1 + |FormatInt(n) + CRLF|;
            && ParseAt(buf, 0) == Done(if typ == 36 then NilBulk else NilArray, end)
            && ScanAt(buf, 0) == Frame(end, KindNone, [])
  {
    hide FormatInt, ParseInt;
    var line := FormatInt(n) + CRLF;
    var buf := [typ] + line + rest;
    assert buf[0] == typ && buf[1..1 + |line|] == line;
    ReadLineAt(buf, 1, FormatInt(n));
    IntRoundTrip(n);
    assert ParseAt(buf, 0) == ParseBody(buf, typ, FormatInt(n), 1 + |line|);
    assert ScanAt(buf, 0) == ScanBody(buf, typ, FormatInt(n), 1 + |line|);
  }

  /** A line that starts with no marker is an array of its words. */
  lemma InlineIsWords(words: seq<Bytes>, gaps: seq<Bytes>, rest: Bytes)
    requires Separates(words, gaps) && words != [] && forall i | 0 <= i < |words| :: IsWord(words[i])
    requires var line := Spaced(words, gaps); line != [] && line[0] !in {43, 45, 58, 36, 42} && LF !in line
    ensures var line := Spaced(words, gaps); var r := ParseAt(line + CRLF + rest, 0);
            && r.Done? && r.end == |line| + 2 && r.value.Array? && |r.value.elems| == |words|
            && forall i | 0 <= i < |words| :: r.value.elems[i] == Bulk(words[i])
  {
    hide Spaced, Fields, IsWord;
    var line := Spaced(words, gaps);
    var buf := line + CRLF + rest;
    assert buf[0] == line[0] && buf[0..|line + CRLF|] == line + CRLF;
    ReadLineAt(buf, 0, line);
    WordsOfLine(words, gaps);
  }
}
