/** What MOVED and ASK errors say (parseRedirectionMsg in pkg/engine/backend_mux.go),
    stated on the text of the message, from the server's printer to the scanner. */
module Redirection {
  import opened Prelude
  import opened Resp
  import opened RespLaws
  import opened Framing
  import opened Mux

  // -------------------------------------------------------------------- integers

  function Zeros(k: nat): (r: Bytes)
    ensures |r| == k && forall i | 0 <= i < k :: r[i] == 48
  {
    seq(k, i => 48)
  }

  /** An int64 in decimal: an optional sign, zeros, and the digits of its size. */
  predicate Spells(s: Bytes, sign: Bytes, zeros: nat, v: nat) {
    && s == sign + (Zeros(zeros) + Digits(v))
    && (((sign == [] || sign == [43]) && v <= INT64_MAX) || (sign == [45] && v <= INT64_MAX + 1))
  }

  ghost predicate IsInteger(s: Bytes) { exists sign: Bytes, zeros: nat, v: nat :: Spells(s, sign, zeros, v) }

  lemma {:induction false} DecimalOfDigits(zeros: nat, v: nat)
    ensures var ds := Zeros(zeros) + Digits(v);
            (forall i | 0 <= i < |ds| :: IsDigit(ds[i])) && Decimal(ds) == v
    decreases v, zeros
  {
    var ds := Zeros(zeros) + Digits(v);
    if v >= 10 {
      DecimalOfDigits(zeros, v / 10);
      assert ds[..|ds| - 1] == Zeros(zeros) + Digits(v / 10);
    } else if zeros > 0 {
      DecimalOfDigits(zeros - 1, 0);
      assert ds[..|ds| - 1] == Zeros(zeros - 1) + Digits(0);
    } else {
      assert ds == [ZERO + v] && ds[..0] == [];
    }
  }

  /** Any digits are zeros before the digits of their value. */
  lemma {:induction false} DigitsOfDecimal(ds: Bytes) returns (zeros: nat)
    requires ds != [] && forall i | 0 <= i < |ds| :: IsDigit(ds[i])
    ensures Decimal(ds) >= 0 && ds == Zeros(zeros) + Digits(Decimal(ds))
    decreases |ds|
  {
    var front, d := ds[..|ds| - 1], ds[|ds| - 1] - ZERO;
    assert ds == front + [ZERO + d];
    if front == [] {
      assert Decimal(ds) == d;
      zeros := 0;
      assert ds == Zeros(0) + Digits(d);
    } else {
      var before := DigitsOfDecimal(front);
      var v := Decimal(front);
      if v == 0 {
        zeros := before + 1;
        assert Digits(0) == [ZERO] && Digits(d) == [ZERO + d];
        assert ds == Zeros(before) + [ZERO] + [ZERO + d] == Zeros(before + 1) + [ZERO + d];
      } else {
        zeros := before;
        assert (v * 10 + d) / 10 == v && (v * 10 + d) % 10 == d;
        assert ds == Zeros(before) + (Digits(v) + [ZERO + d]);
      }
    }
  }

  lemma DigitFirst(zeros: nat, v: nat)
    ensures var ds := Zeros(zeros) + Digits(v); ds != [] && ds[0] != 43 && ds[0] != 45
  {
    DecimalOfDigits(zeros, v);
    assert IsDigit((Zeros(zeros) + Digits(v))[0]);
  }

  lemma SpelledIsAtoi(s: Bytes, sign: Bytes, zeros: nat, v: nat)
    requires Spells(s, sign, zeros, v)
    ensures IsAtoi(s)
  {
    hide Decimal, Zeros, Digits;
    DecimalOfDigits(zeros, v);
    DigitFirst(zeros, v);
    var ds := Zeros(zeros) + Digits(v);
    if sign == [] {
      assert s == ds;
    } else {
      assert s[0] == sign[0] && s[1..] == ds;
    }
  }

  lemma AtoiIsSpelled(s: Bytes)
    requires IsAtoi(s)
    ensures IsInteger(s)
  {
    var ds := if s != [] && (s[0] == MINUS || s[0] == PLUS) then s[1..] else s;
    assert forall i | 0 <= i < |ds| :: IsDigit(ds[i]);
    var sign: Bytes := if s[0] == MINUS || s[0] == PLUS then [s[0]] else [];
    assert s == sign + ds;
    var zeros := DigitsOfDecimal(ds);
    assert Spells(s, sign, zeros, Decimal(ds));
  }

  /** strconv.Atoi accepts exactly the int64 values in decimal. */
  lemma AtoiIff(s: Bytes)
    ensures IsAtoi(s) <==> IsInteger(s)
  {
    hide IsAtoi, Spells;
    if sign: Bytes, zeros: nat, v: nat :| Spells(s, sign, zeros, v) {
      SpelledIsAtoi(s, sign, zeros, v);
    }
    if IsAtoi(s) {
      AtoiIsSpelled(s);
    }
  }

  lemma FormatIsInteger(n: int)
    requires INT64_MIN <= n <= INT64_MAX
    ensures IsInteger(FormatInt(n)) && SPACE !in FormatInt(n)
  {
    var sign: Bytes, v := if n < 0 then [45] else [], if n < 0 then -n else n;
    assert Zeros(0) + Digits(v) == Digits(v);
    assert Spells(FormatInt(n), sign, 0, v);
    assert forall i | 0 <= i < |Digits(v)| :: IsDigit(Digits(v)[i]);
  }

  // --------------------------------------------------------------------- messages

  /** A word, a space, an integer, a space, and an address. */
  ghost predicate Names(msg: Bytes, word: Bytes, slot: Bytes, addr: Addr) {
    msg == word + [32] + slot + [32] + addr && 32 !in word && 32 !in slot && IsInteger(slot)
  }

  lemma NamesParts(msg: Bytes, word: Bytes, slot: Bytes, addr: Addr)
    requires Names(msg, word, slot, addr)
    ensures ParseRedirection(msg) == Some(addr)
  {
    hide IsAtoi, IsInteger;
    var i := |word|;
    var j := i + 1 + |slot|;
    assert msg[i] == SPACE && msg[j] == SPACE;
    assert forall k | 0 <= k < i :: msg[k] == word[k] != SPACE;
    assert forall k | i + 1 <= k < j :: msg[k] == slot[k - i - 1] != SPACE;
    assert IndexSpace(msg, 0) == i && IndexSpace(msg, i + 1) == j;
    assert msg[i + 1..j] == slot && msg[j + 1..] == addr;
    AtoiIff(slot);
  }

  /** The message names an address if and only if it is cut by its first two spaces into
      a word, an integer and that address, which may hold spaces or be empty. */
  lemma RedirectionIff(msg: Bytes, addr: Addr)
    ensures ParseRedirection(msg) == Some(addr) <==> exists word: Bytes, slot: Bytes :: Names(msg, word, slot, addr)
  {
    hide IsAtoi, IsInteger;
    if word: Bytes, slot: Bytes :| Names(msg, word, slot, addr) {
      NamesParts(msg, word, slot, addr);
    }
    if ParseRedirection(msg) == Some(addr) {
      var i := IndexSpace(msg, 0);
      var j := IndexSpace(msg, i + 1);
      AtoiIff(msg[i + 1..j]);
      assert msg == msg[..i] + [32] + msg[i + 1..j] + [32] + msg[j + 1..];
      assert Names(msg, msg[..i], msg[i + 1..j], addr);
    }
  }

  /** It names none if and only if it has fewer than two spaces, or what stands between
      the first two is no int64. */
  lemma NoRedirectionIff(msg: Bytes)
    ensures ParseRedirection(msg).None? <==>
            forall i: nat, j: nat | FirstSpaces(msg, i, j) :: !IsInteger(msg[i + 1..j])
  {
    hide IsAtoi, IsInteger;
    var i := IndexSpace(msg, 0);
    if i < |msg| {
      var j := IndexSpace(msg, i + 1);
      if j < |msg| {
        assert FirstSpaces(msg, i, j);
        AtoiIff(msg[i + 1..j]);
        forall i': nat, j': nat | FirstSpaces(msg, i', j') ensures i' == i && j' == j {
        }
      }
    }
  }

  predicate FirstSpaces(msg: Bytes, i: nat, j: nat) {
    i < j < |msg| && msg[i] == 32 && msg[j] == 32 && forall k | 0 <= k < j && k != i :: msg[k] != 32
  }

  /** What a server prints to send a client elsewhere. */
  function MovedText(slot: int, addr: Addr): Bytes { Ascii("MOVED ") + FormatInt(slot) + [SPACE] + addr }

  function AskText(slot: int, addr: Addr): Bytes { Ascii("ASK ") + FormatInt(slot) + [SPACE] + addr }

  /** For every slot and address it is read back. */
  lemma PrintedRedirection(slot: int, addr: Addr)
    requires INT64_MIN <= slot <= INT64_MAX
    ensures ParseRedirection(MovedText(slot, addr)) == Some(addr)
    ensures ParseRedirection(AskText(slot, addr)) == Some(addr)
  {
    hide ParseRedirection, IsInteger, FormatInt;
    FormatIsInteger(slot);
    var moved: Bytes, ask: Bytes := [77, 79, 86, 69, 68], [65, 83, 75];
    Spelled();
    assert MovedText(slot, addr) == moved + [32] + FormatInt(slot) + [32] + addr;
    assert AskText(slot, addr) == ask + [32] + FormatInt(slot) + [32] + addr;
    NamesParts(MovedText(slot, addr), moved, FormatInt(slot), addr);
    NamesParts(AskText(slot, addr), ask, FormatInt(slot), addr);
  }

  lemma Spelled()
    ensures Ascii("MOVED ") == [77, 79, 86, 69, 68, 32] && Ascii("ASK ") == [65, 83, 75, 32]
  {
    assert "MOVED " == ['M', 'O', 'V', 'E', 'D', ' '] && "ASK " == ['A', 'S', 'K', ' '];
  }

  /** As the server's printer puts it on the wire, and the scanner takes it off. */
  lemma ScannedRedirection(slot: int, addr: Addr, more: Bytes)
    requires LF !in addr
    ensures var moved := Encode(Error(MovedText(slot, addr)));
            CutReply(moved + more) == Took(Reply(moved, KindMoved, MovedText(slot, addr)), |moved|)
    ensures var ask := Encode(Error(AskText(slot, addr)));
            CutReply(ask + more) == Took(Reply(ask, KindAsk, AskText(slot, addr)), |ask|)
  {
    hide FormatInt;
    Spelled();
    ScannedError(MovedText(slot, addr), more);
    ScannedError(AskText(slot, addr), more);
    assert MovedText(slot, addr)[..6] == MOVED;
    assert AskText(slot, addr)[..4] == ASK;
    assert AskText(slot, addr)[0] != MOVED[0];
  }

  lemma ScannedError(msg: Bytes, more: Bytes)
    requires LF !in msg
    ensures var raw := Encode(Error(msg)); CutReply(raw + more) == Took(Reply(raw, ErrorKind(msg), msg), |raw|)
  {
    hide ErrorKind;
    var raw := Encode(Error(msg));
    assert raw == [MINUS] + (msg + CRLF);
    var buf := raw + more;
    assert buf[0] == MINUS;
    assert buf[1..1 + |msg + CRLF|] == msg + CRLF;
    ReadLineAt(buf, 1, msg);
    assert ScanAt(buf, 0) == ScanBody(buf, MINUS, msg, |raw|) == Frame(|raw|, ErrorKind(msg), msg);
    assert buf[..|raw|] == raw;
  }
}
