/**
 Client requests (ParseRequest in pkg/proto/resp.go): parsing, the private copy
 the arguments are re-sliced into, and the two ways a request is sent on.
 */
module Request {
  import opened Prelude
  import opened Resp
  import opened RespLaws

  /** Where an argument lies in the buffer. */
  datatype Span = Span(off: nat, len: nat)

  /** One bulk string argument at `cur`. A byte other than '$' where an argument
      should start counts as incomplete, as in the source. */
  function ParseArg(buf: Bytes, cur: nat): (r: Read<Span>)
    requires cur <= |buf|
    ensures r.Done? ==> cur < r.value.off && r.value.off + r.value.len + 2 == r.end <= |buf|
  {
    if cur == |buf| || buf[cur] != DOLLAR then Incomplete
    else
      var line := ReadLine(buf, cur + 1);
      if !line.Done? then Incomplete
      else
        var len := ParseInt(line.value);
        if len.None? || len.value < 0 then Invalid
        else
          var data := PayloadEnd(buf, line.end, len.value);
          if data.Done? then Done(Span(line.end, len.value), data.end) else data.Fail()
  }

  /** `n` arguments in a row from `cur`. */
  function ParseArgs(buf: Bytes, cur: nat, n: nat): (r: Read<seq<Span>>)
    requires cur <= |buf|
    ensures r.Done? ==> cur <= r.end <= |buf| && |r.value| == n
    decreases n
  {
    if n == 0 then Done([], cur)
    else
      var arg := ParseArg(buf, cur);
      if !arg.Done? then arg.Fail()
      else
        var rest := ParseArgs(buf, arg.end, n - 1);
        if rest.Done? then Done([arg.value] + rest.value, rest.end) else rest
  }

  predicate IsMultibulk(buf: Bytes) { buf != [] && buf[0] == STAR }

  function ParseMultibulk(buf: Bytes): (r: Read<seq<Span>>)
    requires IsMultibulk(buf)
    ensures r.Done? ==> 0 < r.end <= |buf| && r.value != []
  {
    var line := ReadLine(buf, 1);
    if !line.Done? then Incomplete
    else
      var n := ParseInt(line.value);
      if n.None? || n.value <= 0 then Invalid else ParseArgs(buf, line.end, n.value)
  }

  function UpperByte(b: Byte): Byte { if 97 <= b <= 122 then b - 32 else b }

  function Upper(s: Bytes): (r: Bytes)
    ensures |r| == |s|
  {
    seq(|s|, i requires 0 <= i < |s| => UpperByte(s[i]))
  }

  function UpperFirst(args: seq<Bytes>): (r: seq<Bytes>)
    ensures |r| == |args|
  {
    if args == [] then [] else args[0 := Upper(args[0])]
  }

  lemma UpperFirstIdempotent(args: seq<Bytes>)
    ensures UpperFirst(UpperFirst(args)) == UpperFirst(args)
  {
    if args != [] {
      assert Upper(Upper(args[0])) == Upper(args[0]);
    }
  }

  /** `name` is `received` with the letters a to z in capitals: nothing else changes, and
      no small letter is left. */
  predicate Capitals(received: Bytes, name: Bytes) {
    && |name| == |received|
    && (forall i | 0 <= i < |name| :: !(97 <= name[i] <= 122))
    && forall i | 0 <= i < |name| :: if 97 <= received[i] <= 122 then name[i] == received[i] - 32 else name[i] == received[i]
  }

  /** The arguments as received, but for the capitals of the command name. */
  predicate AsReceived(received: seq<Bytes>, args: seq<Bytes>) {
    && |args| == |received| && (args != [] ==> Capitals(received[0], args[0]))
    && forall i | 0 < i < |args| :: args[i] == received[i]
  }

  lemma NameInCapitals(received: seq<Bytes>)
    ensures AsReceived(received, UpperFirst(received))
  {
  }

  /** The bytes of a span (clipped to the buffer, which never happens for spans
      the parser returned). */
  function Slice(buf: Bytes, sp: Span): Bytes {
    if sp.off + sp.len <= |buf| then buf[sp.off..sp.off + sp.len] else []
  }

  function Slices(buf: Bytes, spans: seq<Span>): (r: seq<Bytes>)
    ensures |r| == |spans|
    ensures forall i | 0 <= i < |spans| :: r[i] == Slice(buf, spans[i])
  {
    if spans == [] then [] else [Slice(buf, spans[0])] + Slices(buf, spans[1..])
  }

  /** The arguments of the first request in `buf`, command name upper-cased. */
  function ParseRequest(buf: Bytes): (r: Read<seq<Bytes>>)
    ensures r.Done? ==> 0 < r.end <= |buf|
  {
    if buf == [] then Incomplete
    else if IsMultibulk(buf) then
      var spans := ParseMultibulk(buf);
      if !spans.Done? then spans.Fail()
      else Done(UpperFirst(Slices(buf, spans.value)), spans.end)
    else
      var words := ReadInline(buf, 0);
      if words.Done? then Done(UpperFirst(words.value), words.end) else words
  }

  /** Whatever request is accepted, the name comes out in capitals and every other
      argument byte for byte as it stands in the buffer. */
  lemma ArgumentsAsReceived(buf: Bytes)
    requires ParseRequest(buf).Done?
    ensures IsMultibulk(buf) ==>
              ParseMultibulk(buf).Done? && AsReceived(Slices(buf, ParseMultibulk(buf).value), ParseRequest(buf).value)
    ensures !IsMultibulk(buf) ==>
              ReadLine(buf, 0).Done? && AsReceived(Fields(ReadLine(buf, 0).value), ParseRequest(buf).value)
  {
    hide UpperFirst, AsReceived, ParseMultibulk, Fields;
    if IsMultibulk(buf) {
      NameInCapitals(Slices(buf, ParseMultibulk(buf).value));
    } else {
      NameInCapitals(Fields(ReadLine(buf, 0).value));
    }
  }

  // ---------------------------------------------------------- span geometry

  /** Spans follow one another inside [lo, hi) with a gap after each. */
  predicate Ordered(spans: seq<Span>, lo: nat, hi: nat) {
    && (forall i | 0 <= i < |spans| :: lo < spans[i].off && spans[i].off + spans[i].len + 2 <= hi)
    && (forall i, j | 0 <= i < j < |spans| :: spans[i].off + spans[i].len + 2 < spans[j].off)
  }

  lemma {:induction false} ArgsOrdered(buf: Bytes, cur: nat, n: nat)
    requires cur <= |buf| && ParseArgs(buf, cur, n).Done?
    ensures Ordered(ParseArgs(buf, cur, n).value, cur, ParseArgs(buf, cur, n).end)
    decreases n
  {
    hide ParseArg;
    if n > 0 {
      ArgsOrdered(buf, ParseArg(buf, cur).end, n - 1);
    }
  }

  lemma SpansOrdered(buf: Bytes)
    requires IsMultibulk(buf) && ParseMultibulk(buf).Done?
    ensures Ordered(ParseMultibulk(buf).value, 0, ParseMultibulk(buf).end)
  {
    var line := ReadLine(buf, 1);
    ArgsOrdered(buf, line.end, ParseInt(line.value).value);
  }

  // ------------------------------------------- bytes after and inside a request

  predicate Inside(i: nat, spans: seq<Span>) {
    exists k | 0 <= k < |spans| :: spans[k].off <= i < spans[k].off + spans[k].len
  }

  /** `b` has the bytes of `a` from `lo` to the end of `r`, except possibly
      inside the arguments of `r`. */
  predicate SameFrame(a: Bytes, b: Bytes, lo: nat, r: Read<seq<Span>>)
    requires r.Done?
  {
    && r.end <= |a| && r.end <= |b|
    && forall i: nat | lo <= i < r.end && !Inside(i, r.value) :: a[i] == b[i]
  }

  /** The boundaries of an argument depend on its header line only. */
  lemma ArgIgnoresPayload(a: Bytes, b: Bytes, cur: nat)
    requires cur <= |a| && ParseArg(a, cur).Done?
    requires ParseArg(a, cur).end <= |b|
    requires forall i | cur <= i < ParseArg(a, cur).value.off :: a[i] == b[i]
    ensures ParseArg(b, cur) == ParseArg(a, cur)
  {
    ReadLineLocal(a, b, cur + 1);
  }

  /** The argument boundaries depend on nothing but the framing bytes: neither
      payload bytes nor bytes after the request matter. */
  lemma {:induction false} ArgsIgnorePayload(a: Bytes, b: Bytes, cur: nat, n: nat)
    requires cur <= |a| && ParseArgs(a, cur, n).Done?
    requires SameFrame(a, b, cur, ParseArgs(a, cur, n))
    ensures cur <= |b| && ParseArgs(b, cur, n) == ParseArgs(a, cur, n)
    decreases n
  {
    hide ParseArg;
    if n > 0 {
      var arg, r := ParseArg(a, cur), ParseArgs(a, cur, n);
      var rest := ParseArgs(a, arg.end, n - 1);
      ArgsOrdered(a, cur, n);
      assert r.value[0] == arg.value;
      forall i | cur <= i < arg.value.off ensures a[i] == b[i] {
        assert !Inside(i, r.value);
      }
      ArgIgnoresPayload(a, b, cur);
      forall i: nat | arg.end <= i < rest.end && !Inside(i, rest.value) ensures a[i] == b[i] {
        assert !Inside(i, r.value);
      }
      ArgsIgnorePayload(a, b, arg.end, n - 1);
    }
  }

  lemma MultibulkIgnoresPayload(a: Bytes, b: Bytes)
    requires IsMultibulk(a) && ParseMultibulk(a).Done?
    requires SameFrame(a, b, 0, ParseMultibulk(a))
    ensures IsMultibulk(b) && ParseMultibulk(b) == ParseMultibulk(a)
  {
    var r := ParseMultibulk(a);
    var line := ReadLine(a, 1);
    ArgsOrdered(a, line.end, ParseInt(line.value).value);
    forall i: nat | i < line.end ensures a[i] == b[i] {
      assert !Inside(i, r.value);
    }
    ReadLineLocal(a, b, 1);
    ArgsIgnorePayload(a, b, line.end, ParseInt(line.value).value);
  }

  /** An answer other than "incomplete" is final for requests too. */
  lemma RequestExtends(buf: Bytes, more: Bytes)
    requires !ParseRequest(buf).Incomplete?
    ensures ParseRequest(buf + more) == ParseRequest(buf)
  {
    hide ParseMultibulk, ReadLine;
    if IsMultibulk(buf) {
      MultibulkExtends(buf, more);
      var spans := ParseMultibulk(buf);
      if spans.Done? {
        SpansOrdered(buf);
        forall i | 0 <= i < |spans.value| ensures Slice(buf + more, spans.value[i]) == Slice(buf, spans.value[i]) {
        }
        assert Slices(buf + more, spans.value) == Slices(buf, spans.value);
      }
    } else {
      ReadLineLocal(buf, buf + more, 0);
    }
  }

  lemma MultibulkExtends(buf: Bytes, more: Bytes)
    requires IsMultibulk(buf) && !ParseMultibulk(buf).Incomplete?
    ensures ParseMultibulk(buf + more) == ParseMultibulk(buf)
  {
    var line := ReadLine(buf, 1);
    ReadLineLocal(buf, buf + more, 1);
    var n := ParseInt(line.value);
    if n.Some? && n.value > 0 {
      ArgsExtend(buf, more, line.end, n.value);
    }
  }

  lemma ArgExtends(buf: Bytes, more: Bytes, cur: nat)
    requires cur <= |buf| && !ParseArg(buf, cur).Incomplete?
    ensures ParseArg(buf + more, cur) == ParseArg(buf, cur)
  {
    ReadLineLocal(buf, buf + more, cur + 1);
  }

  lemma {:induction false} ArgsExtend(buf: Bytes, more: Bytes, cur: nat, n: nat)
    requires cur <= |buf| && !ParseArgs(buf, cur, n).Incomplete?
    ensures ParseArgs(buf + more, cur, n) == ParseArgs(buf, cur, n)
    decreases n
  {
    hide ParseArg;
    if n > 0 {
      ArgExtends(buf, more, cur);
      if ParseArg(buf, cur).Done? {
        ArgsExtend(buf, more, ParseArg(buf, cur).end, n - 1);
      }
    }
  }

  // ---------------------------------------------------- sending a request on

  function EncodeBulks(args: seq<Bytes>): Bytes {
    if args == [] then [] else EncodeBulk(args[0]) + EncodeBulks(args[1..])
  }

  function EncodeCommand(args: seq<Bytes>): Bytes {
    [STAR] + (FormatInt(|args|) + CRLF) + EncodeBulks(args)
  }

  method EncodeCommandBytes(args: seq<Bytes>) returns (b: Bytes)
    ensures b == EncodeCommand(args)
  {
    b := [STAR] + (FormatInt(|args|) + CRLF);
    ghost var header := b;
    assert args[0..] == args;
    for i := 0 to |args|
      invariant b + EncodeBulks(args[i..]) == header + EncodeBulks(args)
    {
      assert args[i..][1..] == args[i + 1..];
      assert b + (EncodeBulk(args[i]) + EncodeBulks(args[i + 1..])) == (b + EncodeBulk(args[i])) + EncodeBulks(args[i + 1..]);
      b := b + EncodeBulk(args[i]);
    }
    assert args[|args|..] == [];
  }

  lemma EncodedArgParses(buf: Bytes, cur: nat, s: Bytes)
    requires |buf| <= INT64_MAX && At(buf, cur, EncodeBulk(s))
    ensures var r := ParseArg(buf, cur);
            r.Done? && r.end == cur + |EncodeBulk(s)| && Slice(buf, r.value) == s
  {
    BulkAt(buf, cur, s);
  }

  lemma {:induction false} EncodedArgsParse(buf: Bytes, cur: nat, args: seq<Bytes>)
    requires |buf| <= INT64_MAX && At(buf, cur, EncodeBulks(args))
    ensures var r := ParseArgs(buf, cur, |args|);
            r.Done? && r.end == cur + |EncodeBulks(args)| && Slices(buf, r.value) == args
    decreases |args|
  {
    hide ParseArg, EncodeBulk;
    if args != [] {
      AtParts(buf, cur, EncodeBulk(args[0]), EncodeBulks(args[1..]));
      EncodedArgParses(buf, cur, args[0]);
      EncodedArgsParse(buf, cur + |EncodeBulk(args[0])|, args[1..]);
    }
  }

  lemma {:induction false} EncodeBulksLength(args: seq<Bytes>)
    ensures |args| <= |EncodeBulks(args)|
  {
    if args != [] { EncodeBulksLength(args[1..]); }
  }

  lemma EncodedCommandParses(args: seq<Bytes>)
    requires args != [] && |EncodeCommand(args)| <= INT64_MAX
    ensures var buf := EncodeCommand(args);
            IsMultibulk(buf) && ParseMultibulk(buf).Done? && ParseMultibulk(buf).end == |buf| &&
            Slices(buf, ParseMultibulk(buf).value) == args
  {
    hide ParseArgs, ReadLine, ParseInt, FormatInt, EncodeBulks, Slices;
    var buf := EncodeCommand(args);
    HeaderAt(buf, 0, STAR, FormatInt(|args|), EncodeBulks(args));
    EncodeBulksLength(args);
    IntRoundTrip(|args|);
    EncodedArgsParse(buf, |FormatInt(|args|)| + 3, args);
  }

  /** A printed command parses back to its arguments, whatever follows it. */
  lemma CommandRoundTrip(args: seq<Bytes>, more: Bytes)
    requires args != [] && |EncodeCommand(args)| <= INT64_MAX
    ensures ParseRequest(EncodeCommand(args) + more) == Done(UpperFirst(args), |EncodeCommand(args)|)
    ensures AsReceived(args, ParseRequest(EncodeCommand(args) + more).value)
  {
    EncodedCommandParses(args);
    RequestExtends(EncodeCommand(args), more);
    NameInCapitals(args);
  }

  /** The private copy kept as Raw: the request's bytes with the command name
      upper-cased in place (multibulk), or the line as received (inline). */
  function RawCopy(buf: Bytes): (raw: Bytes)
    requires ParseRequest(buf).Done?
    ensures |raw| == ParseRequest(buf).end
  {
    if IsMultibulk(buf) then
      SpansOrdered(buf);
      var r := ParseMultibulk(buf);
      var name := r.value[0];
      seq(r.end, i requires 0 <= i < r.end =>
        if name.off <= i < name.off + name.len then UpperByte(buf[i]) else buf[i])
    else buf[..ParseRequest(buf).end]
  }

  /** Raw and the re-encoding of Args are two spellings of one command: a server
      that parses either gets the same arguments, so both branches of rawBytes
      send the same request. */
  lemma BothSpellingsAgree(buf: Bytes)
    requires ParseRequest(buf).Done?
    requires |EncodeCommand(ParseRequest(buf).value)| <= INT64_MAX
    ensures ParseRequest(RawCopy(buf)) == ParseRequest(buf)
    ensures var args := ParseRequest(buf).value;
            ParseRequest(EncodeCommand(args)) == Done(args, |EncodeCommand(args)|)
  {
    var args := ParseRequest(buf).value;
    RawReparses(buf);
    if IsMultibulk(buf) {
      SpansOrdered(buf);
      UpperFirstIdempotent(Slices(buf, ParseMultibulk(buf).value));
    } else {
      UpperFirstIdempotent(ReadInline(buf, 0).value);
    }
    CommandRoundTrip(args, []);
    assert EncodeCommand(args) + [] == EncodeCommand(args);
  }

  lemma RawReparses(buf: Bytes)
    requires ParseRequest(buf).Done?
    ensures ParseRequest(RawCopy(buf)) == ParseRequest(buf)
  {
    var raw := RawCopy(buf);
    if IsMultibulk(buf) {
      var r := ParseMultibulk(buf);
      SpansOrdered(buf);
      forall i: nat | i < r.end && !Inside(i, r.value) ensures buf[i] == raw[i] {
        assert !(r.value[0].off <= i < r.value[0].off + r.value[0].len);
      }
      MultibulkIgnoresPayload(buf, raw);
      RawArguments(buf);
      UpperFirstIdempotent(Slices(buf, r.value));
    } else {
      ReadLineLocal(buf, raw, 0);
    }
  }

  /** Read at the same spans, the copy holds the arguments with the name upper-cased. */
  lemma RawArguments(buf: Bytes)
    requires IsMultibulk(buf) && ParseRequest(buf).Done?
    ensures Slices(RawCopy(buf), ParseMultibulk(buf).value) == ParseRequest(buf).value
  {
    hide ParseMultibulk, Slices;
    SpansOrdered(buf);
    var spans, raw := ParseMultibulk(buf).value, RawCopy(buf);
    forall k | 0 <= k < |spans| ensures Slice(raw, spans[k]) == UpperFirst(Slices(buf, spans))[k] {
      var sp := spans[k];
      if k == 0 {
        assert Slice(raw, sp) == Upper(Slice(buf, sp));
      } else {
        assert Slice(raw, sp) == Slice(buf, sp);
      }
    }
  }

  // --------------------------------------------------------------- what is refused

  /** A count that is no positive number is a protocol error. */
  lemma BadCountRefused(count: Bytes, rest: Bytes)
    requires LF !in count && (ParseInt(count).None? || ParseInt(count).value <= 0)
    ensures ParseRequest([42] + (count + CRLF) + rest).Invalid?
  {
    hide ParseInt, Fields;
    var buf := [42] + (count + CRLF) + rest;
    assert buf[1..1 + |count + CRLF|] == count + CRLF;
    ReadLineAt(buf, 1, count);
  }

  /** The count of a printed command has been read. */
  lemma CountRead(buf: Bytes, n: int)
    requires 0 < n <= INT64_MAX && buf != [] && buf[0] == 42 && At(buf, 1, FormatInt(n) + CRLF)
    ensures var cur := 1 + |FormatInt(n) + CRLF|;
            cur <= |buf| && ParseRequest(buf).Done? == ParseArgs(buf, cur, n).Done? &&
            (!ParseArgs(buf, cur, n).Done? ==> ParseRequest(buf) == ParseArgs(buf, cur, n).Fail())
  {
    hide ParseInt, FormatInt, ParseArgs, Slices, UpperFirst;
    ReadLineAt(buf, 1, FormatInt(n));
    IntRoundTrip(n);
  }

  /** A byte other than '$' where the first argument should start is none: the parser
      waits for more, whatever follows. */
  lemma WrongMarkerWaits(n: int, b: Byte, rest: Bytes)
    requires 0 < n <= INT64_MAX && b != 36
    ensures ParseRequest([42] + (FormatInt(n) + CRLF) + [b] + rest).Incomplete?
  {
    hide ParseRequest, FormatInt;
    var head := FormatInt(n) + CRLF;
    var buf := [42] + head + [b] + rest;
    assert buf[1..1 + |head|] == head && buf[1 + |head|] == b;
    CountRead(buf, n);
    assert ParseArg(buf, 1 + |head|).Incomplete?;
  }

  /** A negative length is a protocol error, not a missing argument. */
  lemma NegativeLengthRefused(n: int, len: int, rest: Bytes)
    requires 0 < n <= INT64_MAX && INT64_MIN <= len < 0
    ensures ParseRequest([42] + (FormatInt(n) + CRLF) + ([36] + (FormatInt(len) + CRLF)) + rest).Invalid?
  {
    hide ParseRequest, FormatInt, ParseArg;
    var head, arg := FormatInt(n) + CRLF, FormatInt(len) + CRLF;
    var buf := [42] + head + ([36] + arg) + rest;
    var cur := 1 + |head|;
    assert buf[1..cur] == head && buf[cur] == 36 && buf[cur + 1..cur + 1 + |arg|] == arg;
    CountRead(buf, n);
    NegativeLength(buf, cur, len);
  }

  lemma NegativeLength(buf: Bytes, cur: nat, len: int)
    requires INT64_MIN <= len < 0 && cur < |buf| && buf[cur] == 36 && At(buf, cur + 1, FormatInt(len) + CRLF)
    ensures ParseArg(buf, cur).Invalid?
  {
    hide ParseInt, FormatInt;
    ReadLineAt(buf, cur + 1, FormatInt(len));
    IntRoundTrip(len);
  }

  /** So is an inline line of blanks. */
  lemma BlankLineRefused(gap: Bytes, rest: Bytes)
    requires AllBlank(gap) && LF !in gap
    ensures ParseRequest(gap + CRLF + rest).Invalid?
  {
    hide Fields;
    var buf := gap + CRLF + rest;
    assert buf[0..|gap + CRLF|] == gap + CRLF;
    ReadLineAt(buf, 0, gap);
    FieldsGap(gap, []);
    NoWords();
    assert gap + [] == gap;
    assert buf[0] != STAR by { assert gap != [] ==> buf[0] == gap[0]; }
  }
}
