/** Bytes, optional values and 64-bit arithmetic shared by every module. */
module Prelude {

  type Byte = b: int | 0 <= b < 256
  type Bytes = seq<Byte>

  datatype Option<+T> = None | Some(value: T)

  const CR: Byte := 13
  const LF: Byte := 10
  const SPACE: Byte := 32
  const CRLF: Bytes := [CR, LF]

  const INT64_MAX: int := 0x7fff_ffff_ffff_ffff
  const INT64_MIN: int := -0x8000_0000_0000_0000
  const TWO_64: int := 0x1_0000_0000_0000_0000

  /** The value a Go int64 holds after an operation whose exact result is `x`. */
  function Wrap64(x: int): (r: int)
    ensures INT64_MIN <= r <= INT64_MAX
    ensures INT64_MIN <= x <= INT64_MAX ==> r == x
    ensures x == INT64_MAX + 1 ==> r == INT64_MIN
  {
    (x - INT64_MIN) % TWO_64 + INT64_MIN
  }

  /** The bytes of an ASCII literal. */
  function Ascii(s: string): (r: Bytes)
    ensures |r| == |s|
  {
    seq(|s|, i requires 0 <= i < |s| => (s[i] as int) % 256)
  }

  /** `s` occurs in `buf` at offset `pos`. */
  predicate At(buf: Bytes, pos: nat, s: Bytes) {
    pos + |s| <= |buf| && buf[pos..pos + |s|] == s
  }

  lemma AtParts(buf: Bytes, pos: nat, a: Bytes, b: Bytes)
    requires At(buf, pos, a + b)
    ensures At(buf, pos, a) && At(buf, pos + |a|, b)
  {
    var w := buf[pos..pos + |a + b|];
    assert w[..|a|] == a && w[|a|..] == b;
    assert buf[pos..pos + |a|] == w[..|a|];
    assert buf[pos + |a|..pos + |a| + |b|] == w[|a|..];
  }

  /** The bytes of a list of pieces, one after the other. */
  function Flatten<T>(pieces: seq<seq<T>>): seq<T> {
    if pieces == [] then [] else pieces[0] + Flatten(pieces[1..])
  }
}
