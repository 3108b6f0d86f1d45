/**
 The RESP2 codec of pkg/proto/resp.go: the printer, the parser that builds
 values, and the scanner that only finds where a value ends.
 */
module Resp {
  import opened Prelude

  const PLUS: Byte := 43
  const MINUS: Byte := 45
  const COLON: Byte := 58
  const DOLLAR: Byte := 36
  const STAR: Byte := 42
  const ZERO: Byte := 48

  /** A RESP value; `Nil` is the nil pointer that the printer also accepts. */
  datatype Value =
    | Simple(str: Bytes)
    | Error(str: Bytes)
    | Integer(n: int)
    | Bulk(str: Bytes)
    | NilBulk
    | Array(elems: seq<Value>)
    | NilArray
    | Nil

  /** What reading something from a buffer can end in. `Overflow` is a declared
      length whose end position does not fit an int64: Go then stops with a
      range panic. */
  datatype Read<+T> = Done(value: T, end: nat) | Incomplete | Invalid | Overflow {
    /** The same failure at another type. */
    function Fail<U>(): (r: Read<U>)
      requires !Done?
    {
      match this
      case Incomplete => Incomplete
      case Invalid => Invalid
      case Overflow => Overflow
    }
  }

  predicate IsMarker(b: Byte) { b == PLUS || b == MINUS || b == COLON || b == DOLLAR || b == STAR }

  // ---------------------------------------------------------------- integers

  predicate IsDigit(b: Byte) { ZERO <= b <= ZERO + 9 }

  /** Decimal digits of a natural number. */
  function Digits(n: nat): (r: Bytes)
    ensures |r| > 0 && forall i | 0 <= i < |r| :: IsDigit(r[i])
  {
    if n < 10 then [ZERO + n] else Digits(n / 10) + [ZERO + n % 10]
  }

  function FormatInt(n: int): (r: Bytes)
    ensures |r| > 0 && LF !in r && CR !in r
  {
    if n < 0 then [MINUS] + Digits(-n) else Digits(n)
  }

  /** One step of the wrapping accumulator. */
  function Push(n: int, c: Byte): (r: int)
    ensures INT64_MIN <= r <= INT64_MAX
  {
    Wrap64(n * 10 + (c - ZERO))
  }

  /** The accumulator run over digits; None if some byte is not a digit. */
  function Accumulate(b: Bytes): (r: Option<int>)
    ensures r.Some? ==> INT64_MIN <= r.value <= INT64_MAX
  {
    if b == [] then Some(0)
    else
      var front := Accumulate(b[..|b| - 1]);
      var c := b[|b| - 1];
      if front.None? || !IsDigit(c) then None else Some(Push(front.value, c))
  }

  function ParseInt(b: Bytes): (r: Option<int>)
    ensures r.Some? ==> INT64_MIN <= r.value <= INT64_MAX
  {
    if b == [] then None
    else if b[0] == MINUS then
      match Accumulate(b[1..])
      case None => None
      case Some(m) => Some(Wrap64(-m))
    else Accumulate(b)
  }

  lemma AccumulateNext(b: Bytes, i: nat)
    requires i < |b|
    ensures Accumulate(b[..i + 1]) ==
            var front := Accumulate(b[..i]);
            if front.None? || !IsDigit(b[i]) then None else Some(Push(front.value, b[i]))
  {
    assert b[..i + 1][..i] == b[..i];
  }

  lemma AccumulateStopsAt(b: Bytes, k: nat)
    requires k <= |b| && Accumulate(b[..k]).None?
    ensures Accumulate(b).None?
    decreases |b| - k
  {
    if k == |b| {
      assert b[..k] == b;
    } else {
      AccumulateNext(b, k);
      AccumulateStopsAt(b, k + 1);
    }
  }

  method AccumulateLoop(b: Bytes) returns (r: Option<int>)
    ensures r == Accumulate(b)
  {
    var n := 0;
    for i := 0 to |b|
      invariant Accumulate(b[..i]) == Some(n)
    {
      AccumulateNext(b, i);
      if b[i] < ZERO || b[i] > ZERO + 9 {
        AccumulateStopsAt(b, i + 1);
        return None;
      }
      n := Push(n, b[i]);
    }
    assert b[..|b|] == b;
    return Some(n);
  }

  method ParseIntBytes(b: Bytes) returns (r: Option<int>)
    ensures r == ParseInt(b)
  {
    if |b| == 0 { return None; }
    var neg := b[0] == MINUS;
    r := AccumulateLoop(if neg then b[1..] else b);
    if r.Some? && neg {
      r := Some(Wrap64(-r.value));
    }
  }

  /** Below 2^63 the accumulator is exact; at 2^63 only its last step wraps. */
  lemma {:induction false} AccumulateDigits(n: nat)
    requires n <= INT64_MAX + 1
    ensures Accumulate(Digits(n)) == Some(Wrap64(n))
  {
    var d := Digits(n);
    if n < 10 {
      assert d[..0] == [];
    } else {
      AccumulateDigits(n / 10);
      assert d[..|d| - 1] == Digits(n / 10);
      assert n / 10 * 10 + n % 10 == n;
    }
  }

  lemma IntRoundTrip(n: int)
    requires INT64_MIN <= n <= INT64_MAX
    ensures ParseInt(FormatInt(n)) == Some(n)
  {
    if n < 0 {
      AccumulateDigits(-n);
      assert FormatInt(n)[1..] == Digits(-n);
    } else {
      AccumulateDigits(n);
      assert FormatInt(n)[0] != MINUS;
    }
  }

  /** The number that digits spell. */
  function Decimal(digits: Bytes): int
    requires forall i | 0 <= i < |digits| :: IsDigit(digits[i])
  {
    if digits == [] then 0 else Decimal(digits[..|digits| - 1]) * 10 + (digits[|digits| - 1] - ZERO)
  }

  predicate AllDigits(b: Bytes) { forall i | 0 <= i < |b| :: 48 <= b[i] <= 57 }

  lemma WrapAgain(n: int, c: Byte)
    ensures Push(Wrap64(n), c) == Wrap64(n * 10 + (c - ZERO))
  {
    var q := (n - INT64_MIN) / TWO_64;
    assert Wrap64(n) == n - q * TWO_64;
    var x, y := n * 10 + (c - ZERO), Wrap64(n) * 10 + (c - ZERO);
    assert x - INT64_MIN == (y - INT64_MIN) + (q * 10) * TWO_64;
    SameRemainder(y - INT64_MIN, q * 10);
  }

  lemma SameRemainder(a: int, k: int)
    ensures (a + k * TWO_64) % TWO_64 == a % TWO_64
  {
  }

  lemma {:induction false} AccumulateIff(b: Bytes)
    ensures Accumulate(b).Some? <==> AllDigits(b)
    ensures AllDigits(b) ==> Accumulate(b) == Some(Wrap64(Decimal(b)))
  {
    if b != [] {
      var n := |b| - 1;
      AccumulateIff(b[..n]);
      assert b == b[..n] + [b[n]];
      if AllDigits(b) {
        WrapAgain(Decimal(b[..n]), b[n]);
      }
    }
  }

  /** A line is a number if and only if it is digits, or a minus sign and digits, even
      none; its value is what they spell, as far as 64 bits hold it. */
  lemma ParseIntIff(b: Bytes)
    ensures ParseInt(b).Some? <==> (b != [] && AllDigits(b)) || (b != [] && b[0] == 45 && AllDigits(b[1..]))
    ensures b != [] && AllDigits(b) ==> ParseInt(b) == Some(Wrap64(Decimal(b)))
    ensures b != [] && b[0] == 45 && AllDigits(b[1..]) ==> ParseInt(b) == Some(Wrap64(-Wrap64(Decimal(b[1..]))))
  {
    hide Accumulate, Wrap64, Decimal;
    AccumulateIff(b);
    if b != [] {
      AccumulateIff(b[1..]);
    }
  }

  // ------------------------------------------------------------------- lines

  /** Index of the first LF at or after `pos`. */
  function IndexLF(buf: Bytes, pos: nat): (r: Option<nat>)
    requires pos <= |buf|
    ensures r.Some? ==> pos <= r.value < |buf| && buf[r.value] == LF
    ensures r.Some? ==> forall i | pos <= i < r.value :: buf[i] != LF
    ensures r.None? ==> forall i | pos <= i < |buf| :: buf[i] != LF
    decreases |buf| - pos
  {
    if pos == |buf| then None
    else if buf[pos] == LF then Some(pos)
    else IndexLF(buf, pos + 1)
  }

  function StripCR(s: Bytes): Bytes {
    if |s| > 0 && s[|s| - 1] == CR then s[..|s| - 1] else s
  }

  function ReadLine(buf: Bytes, pos: nat): (r: Read<Bytes>)
    requires pos <= |buf|
    ensures r.Done? || r.Incomplete?
    ensures r.Done? ==> pos < r.end <= |buf| && pos + |r.value| < r.end
    ensures r.Done? ==> r.value == buf[pos..pos + |r.value|]
  {
    match IndexLF(buf, pos)
    case None => Incomplete
    case Some(i) => Done(StripCR(buf[pos..i]), i + 1)
  }

  /** The line a printer writes is the line the reader gives back. */
  lemma ReadLineAt(buf: Bytes, pos: nat, s: Bytes)
    requires LF !in s
    requires At(buf, pos, s + CRLF)
    ensures ReadLine(buf, pos) == Done(s, pos + |s| + 2)
  {
    var w := s + CRLF;
    assert forall i | 0 <= i < |w| :: buf[pos + i] == buf[pos..pos + |w|][i] == w[i];
    assert buf[pos + |s| + 1] == LF && buf[pos + |s|] == CR;
    forall i | pos <= i < pos + |s| + 1 ensures buf[i] != LF {
      assert buf[i] == w[i - pos];
    }
    assert buf[pos..pos + |s| + 1] == s + [CR] by {
      assert buf[pos..pos + |s| + 1] == buf[pos..pos + |w|][..|s| + 1];
    }
  }

  /** A line may also end in a bare line feed. */
  lemma ReadBareLine(buf: Bytes, pos: nat, s: Bytes)
    requires 10 !in s && (s != [] ==> s[|s| - 1] != 13) && At(buf, pos, s + [10])
    ensures ReadLine(buf, pos) == Done(s, pos + |s| + 1)
  {
    var w := s + [LF];
    assert forall i | 0 <= i < |w| :: buf[pos + i] == buf[pos..pos + |w|][i] == w[i];
    forall i | pos <= i < pos + |s| ensures buf[i] != LF {
      assert buf[i] == w[i - pos];
    }
    assert buf[pos + |s|] == w[|s|] == LF;
    assert IndexLF(buf, pos) == Some(pos + |s|);
    assert buf[pos..pos + |s|] == buf[pos..pos + |w|][..|s|] == s;
  }

  /** A complete line depends on the bytes up to its end only. */
  lemma ReadLineLocal(buf: Bytes, buf': Bytes, pos: nat)
    requires pos <= |buf|
    requires ReadLine(buf, pos).Done?
    requires ReadLine(buf, pos).end <= |buf'|
    requires buf[pos..ReadLine(buf, pos).end] == buf'[pos..ReadLine(buf, pos).end]
    ensures ReadLine(buf', pos) == ReadLine(buf, pos)
  {
    var e := ReadLine(buf, pos).end;
    var w, w' := buf[pos..e], buf'[pos..e];
    assert forall i | pos <= i < e :: buf'[i] == w'[i - pos] == w[i - pos] == buf[i];
    assert buf'[pos..e - 1] == w'[..e - 1 - pos] == w[..e - 1 - pos] == buf[pos..e - 1];
  }

  // -------------------------------------------------------------------- kinds

  /** How the scanner classifies a value for redirection. */
  datatype Kind = KindNone | KindMoved | KindAsk | KindOther

  const MOVED: Bytes := Ascii("MOVED ")
  const ASK: Bytes := Ascii("ASK ")

  function ErrorKind(msg: Bytes): Kind {
    if MOVED <= msg then KindMoved else if ASK <= msg then KindAsk else KindOther
  }

  predicate IsMoved(v: Value) { v.Error? && MOVED <= v.str }
  predicate IsAsk(v: Value) { v.Error? && ASK <= v.str }

  // ------------------------------------------------------------ inline values

  predicate IsBlank(b: Byte) { 9 <= b <= 13 || b == SPACE }

  /** The words of a line: maximal runs of non-blank bytes. */
  function Fields(s: Bytes): (r: seq<Bytes>)
    ensures forall i | 0 <= i < |r| :: r[i] != []
  {
    if s == [] then []
    else
      var rest := Fields(s[1..]);
      if IsBlank(s[0]) then rest
      else if |s| == 1 || IsBlank(s[1]) || rest == [] then [[s[0]]] + rest
      else [[s[0]] + rest[0]] + rest[1..]
  }

  /** Space, tab, line feed, vertical tab, form feed, carriage return. */
  predicate AllBlank(s: Bytes) { forall i | 0 <= i < |s| :: s[i] in {32, 9, 10, 11, 12, 13} }

  predicate IsWord(s: Bytes) { s != [] && forall i | 0 <= i < |s| :: s[i] !in {32, 9, 10, 11, 12, 13} }

  lemma {:induction false} FieldsGap(gap: Bytes, rest: Bytes)
    requires AllBlank(gap)
    ensures Fields(gap + rest) == Fields(rest)
  {
    if gap == [] {
      assert gap + rest == rest;
    } else {
      assert (gap + rest)[1..] == gap[1..] + rest;
      FieldsGap(gap[1..], rest);
    }
  }

  lemma {:induction false} FieldsWord(w: Bytes, rest: Bytes)
    requires IsWord(w) && (rest != [] ==> IsBlank(rest[0]))
    ensures Fields(w + rest) == [w] + Fields(rest)
  {
    var s := w + rest;
    assert s[1..] == w[1..] + rest;
    if |w| == 1 {
      assert s[1..] == rest && w == [w[0]];
    } else {
      FieldsWord(w[1..], rest);
      assert s[1] == w[1] && w == [w[0]] + w[1..];
      assert ([w[1..]] + Fields(rest))[1..] == Fields(rest);
    }
  }

  /** Words with blanks between them, and maybe before and after. */
  function Spaced(words: seq<Bytes>, gaps: seq<Bytes>): Bytes
    requires |gaps| == |words| + 1
  {
    if words == [] then gaps[0] else gaps[0] + words[0] + Spaced(words[1..], gaps[1..])
  }

  predicate Separates(words: seq<Bytes>, gaps: seq<Bytes>) {
    && |gaps| == |words| + 1 && (forall i | 0 <= i < |gaps| :: AllBlank(gaps[i]))
    && forall i | 0 < i < |words| :: gaps[i] != []
  }

  /** A line of words is read as those words, however many blanks separate them. */
  lemma {:induction false} WordsOfLine(words: seq<Bytes>, gaps: seq<Bytes>)
    requires Separates(words, gaps) && forall i | 0 <= i < |words| :: IsWord(words[i])
    ensures Fields(Spaced(words, gaps)) == words
    decreases |words|
  {
    hide AllBlank, IsWord, Fields, IsBlank;
    if words == [] {
      FieldsGap(gaps[0], []);
      assert gaps[0] + [] == gaps[0];
      NoWords();
    } else {
      var rest := Spaced(words[1..], gaps[1..]);
      WordsOfLine(words[1..], gaps[1..]);
      StartsBlank(words[1..], gaps[1..]);
      FieldsWord(words[0], rest);
      FieldsGap(gaps[0], words[0] + rest);
      assert gaps[0] + words[0] + rest == gaps[0] + (words[0] + rest);
    }
  }

  lemma NoWords()
    ensures Fields([]) == []
  {
  }

  lemma StartsBlank(words: seq<Bytes>, gaps: seq<Bytes>)
    requires |gaps| == |words| + 1 && AllBlank(gaps[0]) && (words != [] ==> gaps[0] != [])
    ensures var s := Spaced(words, gaps); s != [] ==> IsBlank(s[0])
  {
  }

  function Bulks(args: seq<Bytes>): (r: seq<Value>)
    ensures |r| == |args|
  {
    seq(|args|, i requires 0 <= i < |args| => Bulk(args[i]))
  }

  function ReadInline(buf: Bytes, pos: nat): (r: Read<seq<Bytes>>)
    requires pos <= |buf|
    ensures r.Done? ==> pos < r.end <= |buf|
    ensures !r.Overflow?
  {
    match ReadLine(buf, pos)
    case Done(line, end) =>
      var words := Fields(line);
      if words == [] then Invalid else Done(words, end)
    case _ => Incomplete
  }

  // ------------------------------------------------------------------- parser

  /** Where a bulk payload of declared length `n` that starts at `start` ends. */
  function PayloadEnd(buf: Bytes, start: nat, n: nat): (r: Read<Bytes>)
    requires start <= |buf|
    ensures !r.Invalid?
    ensures r.Done? ==> start < r.end <= |buf|
    ensures r.Done? ==> r.end == start + n + 2 && r.value == buf[start..start + n]
  {
    if start + n + 2 > INT64_MAX then Overflow
    else if start + n + 2 > |buf| then Incomplete
    else Done(buf[start..start + n], start + n + 2)
  }

  function ParseAt(buf: Bytes, pos: nat): (r: Read<Value>)
    requires pos <= |buf|
    ensures r.Done? ==> pos < r.end <= |buf|
    decreases |buf| - pos, 0
  {
    if pos == |buf| then Incomplete
    else if IsMarker(buf[pos]) then
      var line := ReadLine(buf, pos + 1);
      if line.Done? then ParseBody(buf, buf[pos], line.value, line.end) else Incomplete
    else
      var words := ReadInline(buf, pos);
      if words.Done? then Done(Array(Bulks(words.value)), words.end) else words.Fail()
  }

  /** The rest of a value whose marker and first line have been read. */
  function ParseBody(buf: Bytes, typ: Byte, line: Bytes, end: nat): (r: Read<Value>)
    requires end <= |buf| && IsMarker(typ)
    ensures r.Done? ==> end <= r.end <= |buf|
    decreases |buf| - end, 2
  {
    if typ == PLUS then Done(Simple(line), end)
    else if typ == MINUS then Done(Error(line), end)
    else
      match ParseInt(line)
      case None => Invalid
      case Some(n) =>
        if typ == COLON then Done(Integer(n), end)
        else if typ == DOLLAR then
          if n < 0 then Done(NilBulk, end)
          else
            var data := PayloadEnd(buf, end, n);
            if data.Done? then Done(Bulk(data.value), data.end) else data.Fail()
        else if n < 0 then Done(NilArray, end)
        else
          var vs := ParseElems(buf, end, n);
          if vs.Done? then Done(Array(vs.value), vs.end) else vs.Fail()
  }

  /** `n` values in a row from `cur`. */
  function ParseElems(buf: Bytes, cur: nat, n: nat): (r: Read<seq<Value>>)
    requires cur <= |buf|
    ensures r.Done? ==> cur <= r.end <= |buf| && |r.value| == n
    decreases |buf| - cur, 1
  {
    if n == 0 then Done([], cur)
    else
      var v := ParseAt(buf, cur);
      if !v.Done? then v.Fail()
      else
        var vs := ParseElems(buf, v.end, n - 1);
        if vs.Done? then Done([v.value] + vs.value, vs.end) else vs
  }

  // ------------------------------------------------------------------ scanner

  datatype Scan = Frame(end: nat, kind: Kind, msg: Bytes) | NoFrame | ScanOverflow

  function ScanAt(buf: Bytes, pos: nat): (r: Scan)
    requires pos <= |buf|
    ensures r.Frame? ==> pos < r.end <= |buf|
    decreases |buf| - pos, 0
  {
    if pos == |buf| then NoFrame
    else if IsMarker(buf[pos]) then
      var line := ReadLine(buf, pos + 1);
      if line.Done? then ScanBody(buf, buf[pos], line.value, line.end) else NoFrame
    else
      match IndexLF(buf, pos)
      case None => NoFrame
      case Some(i) => Frame(i + 1, KindNone, [])
  }

  function ScanBody(buf: Bytes, typ: Byte, line: Bytes, end: nat): (r: Scan)
    requires end <= |buf| && IsMarker(typ)
    ensures r.Frame? ==> end <= r.end <= |buf|
    decreases |buf| - end, 2
  {
    if typ == PLUS || typ == COLON then Frame(end, KindNone, [])
    else if typ == MINUS then Frame(end, ErrorKind(line), line)
    else
      match ParseInt(line)
      case None => NoFrame
      case Some(n) =>
        if n < 0 then Frame(end, KindNone, [])
        else if typ == DOLLAR then
          var data := PayloadEnd(buf, end, n);
          if data.Done? then Frame(data.end, KindNone, [])
          else if data.Overflow? then ScanOverflow
          else NoFrame
        else ScanElems(buf, end, n)
  }

  function ScanElems(buf: Bytes, cur: nat, n: nat): (r: Scan)
    requires cur <= |buf|
    ensures r.Frame? ==> cur <= r.end <= |buf|
    decreases |buf| - cur, 1
  {
    if n == 0 then Frame(cur, KindNone, [])
    else
      var s := ScanAt(buf, cur);
      if s.Frame? then ScanElems(buf, s.end, n - 1) else s
  }

  // ------------------------------------------------------------------ printer

  function EncodeBulk(s: Bytes): Bytes {
    [DOLLAR] + (FormatInt(|s|) + CRLF) + (s + CRLF)
  }

  function Encode(v: Value): (r: Bytes)
    ensures |r| > 0
    decreases v, 1
  {
    match v
    case Simple(s) => [PLUS] + (s + CRLF)
    case Error(s) => [MINUS] + (s + CRLF)
    case Integer(n) => [COLON] + (FormatInt(n) + CRLF)
    case Bulk(s) => EncodeBulk(s)
    case NilBulk => [DOLLAR] + (FormatInt(-1) + CRLF)
    case Array(vs) => [STAR] + (FormatInt(|vs|) + CRLF) + EncodeAll(vs)
    case NilArray => [STAR] + (FormatInt(-1) + CRLF)
    case Nil => [DOLLAR] + (FormatInt(-1) + CRLF)
  }

  function EncodeAll(vs: seq<Value>): Bytes
    decreases vs, 0
  {
    if vs == [] then [] else Encode(vs[0]) + EncodeAll(vs[1..])
  }
}
