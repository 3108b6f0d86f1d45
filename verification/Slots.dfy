/** Hash tags, CRC16 and slots (pkg/proto/crc16.go). */
module Slots {
  import opened Prelude

  const CLUSTER_SLOTS: int := 16384
  const OPEN: Byte := 123
  const CLOSE: Byte := 125

  // ------------------------------------------------------------------ CRC16

  /** The table of the source, entry by entry, eight to a row. */
  const CRC16_TABLE: seq<seq<bv16>> := [
    [0x0000, 0x1021, 0x2042, 0x3063, 0x4084, 0x50a5, 0x60c6, 0x70e7],
    [0x8108, 0x9129, 0xa14a, 0xb16b, 0xc18c, 0xd1ad, 0xe1ce, 0xf1ef],
    [0x1231, 0x0210, 0x3273, 0x2252, 0x52b5, 0x4294, 0x72f7, 0x62d6],
    [0x9339, 0x8318, 0xb37b, 0xa35a, 0xd3bd, 0xc39c, 0xf3ff, 0xe3de],
    [0x2462, 0x3443, 0x0420, 0x1401, 0x64e6, 0x74c7, 0x44a4, 0x5485],
    [0xa56a, 0xb54b, 0x8528, 0x9509, 0xe5ee, 0xf5cf, 0xc5ac, 0xd58d],
    [0x3653, 0x2672, 0x1611, 0x0630, 0x76d7, 0x66f6, 0x5695, 0x46b4],
    [0xb75b, 0xa77a, 0x9719, 0x8738, 0xf7df, 0xe7fe, 0xd79d, 0xc7bc],
    [0x4864, 0x5845, 0x6826, 0x7807, 0x08e0, 0x18c1, 0x28a2, 0x38c3],
    [0xc92c, 0xd90d, 0xe96e, 0xf94f, 0x89a8, 0x99c9, 0xa9aa, 0xb98b],
    [0x5a75, 0x4a54, 0x7a37, 0x6a16, 0x1af1, 0x0ad0, 0x3ab3, 0x2a92],
    [0xdb6d, 0xcb4c, 0xfb2f, 0xeb0e, 0x9be9, 0x8bc8, 0xbbab, 0xab8a],
    [0x6c66, 0x7c47, 0x4c24, 0x5c05, 0x2ce2, 0x3cc3, 0x0ca0, 0x1c81],
    [0xed6e, 0xfd4f, 0xcd2c, 0xdd0d, 0xad6a, 0xbd4b, 0x8d28, 0x9d09],
    [0x7ef7, 0x6ed6, 0x5eb5, 0x4e94, 0x3e73, 0x2e52, 0x1e31, 0x0e10],
    [0xff9f, 0xefbe, 0xdfdd, 0xcffc, 0xbf1b, 0xaf3a, 0x9f59, 0x8f78],
    [0x9188, 0x81a9, 0xb1ca, 0xa1eb, 0xd10c, 0xc12d, 0xf14e, 0xe16f],
    [0x1080, 0x00a1, 0x30c2, 0x20e3, 0x5004, 0x4025, 0x7046, 0x6067],
    [0x83b9, 0x9398, 0xa3fb, 0xb3da, 0xc33d, 0xd31c, 0xe37f, 0xf35e],
    [0x02b1, 0x1290, 0x22f3, 0x32d2, 0x4235, 0x5214, 0x6277, 0x7256],
    [0xb5ea, 0xa5cb, 0x95a8, 0x8589, 0xf56e, 0xe54f, 0xd52c, 0xc50d],
    [0x34e2, 0x24c3, 0x14a0, 0x0481, 0x7466, 0x6447, 0x5424, 0x4405],
    [0xa7db, 0xb7fa, 0x8799, 0x97b8, 0xe75f, 0xf77e, 0xc71d, 0xd73c],
    [0x26d3, 0x36f2, 0x0691, 0x16b0, 0x6657, 0x7676, 0x4615, 0x5634],
    [0xd94c, 0xc96d, 0xf90e, 0xe92f, 0x99c8, 0x89e9, 0xb98a, 0xa9ab],
    [0x5844, 0x4865, 0x7806, 0x6827, 0x18c0, 0x08e1, 0x3882, 0x28a3],
    [0xcb7d, 0xdb5c, 0xeb3f, 0xfb1e, 0x8bf9, 0x9bd8, 0xabbb, 0xbb9a],
    [0x4a75, 0x5a54, 0x6a37, 0x7a16, 0x0af1, 0x1ad0, 0x2ab3, 0x3a92],
    [0xfd2e, 0xed0f, 0xdd6c, 0xcd4d, 0xbdaa, 0xad8b, 0x9de8, 0x8dc9],
    [0x7c26, 0x6c07, 0x5c64, 0x4c45, 0x3ca2, 0x2c83, 0x1ce0, 0x0cc1],
    [0xef1f, 0xff3e, 0xcf5d, 0xdf7c, 0xaf9b, 0xbfba, 0x8fd9, 0x9ff8],
    [0x6e17, 0x7e36, 0x4e55, 0x5e74, 0x2e93, 0x3eb2, 0x0ed1, 0x1ef0]
  ]

  function TableEntry(i: nat): bv16
    requires i < 256
  {
    CRC16_TABLE[i / 8][i % 8]
  }

  /** byte(crc>>8) ^ b */
  function TableIndex(crc: bv16, b: Byte): (i: nat)
    ensures i < 256
  {
    (((crc >> 8) as bv8) ^ (b as bv8)) as int
  }

  function Crc16(buf: Bytes): bv16 {
    if buf == [] then 0
    else
      var crc := Crc16(buf[..|buf| - 1]);
      (crc << 8) ^ TableEntry(TableIndex(crc, buf[|buf| - 1]))
  }

  method ComputeCrc16(buf: Bytes) returns (crc: bv16)
    ensures crc == Crc16(buf)
  {
    hide TableIndex;
    crc := 0;
    for i := 0 to |buf|
      invariant crc == Crc16(buf[..i])
    {
      assert buf[..i + 1][..i] == buf[..i];
      crc := (crc << 8) ^ TableEntry(TableIndex(crc, buf[i]));
    }
    assert buf[..|buf|] == buf;
  }

  lemma Crc16Step(buf: Bytes, b: Byte, crc: bv16, i: nat, entry: bv16, next: bv16)
    requires Crc16(buf) == crc && i < 256 && TableIndex(crc, b) == i && TableEntry(i) == entry && next == (crc << 8) ^ entry
    ensures Crc16(buf + [b]) == next
  {
    hide TableIndex, TableEntry;
    assert (buf + [b])[..|buf|] == buf;
  }

  /** The checksums that the source's tests fix, of foo, bar, hello and nothing. */
  lemma KnownChecksums()
    ensures Crc16([102, 111, 111]) == 0xb6da && Crc16([98, 97, 114]) == 0x4a89
    ensures Crc16([104, 101, 108, 108, 111]) == 0xe595 && Crc16([]) == 0
  {
    ChecksumOfFoo();
    ChecksumOfBar();
    ChecksumOfHello();
  }

  lemma ChecksumOfFoo()
    ensures Crc16([102, 111, 111]) == 0xb6da
  {
    hide Crc16;
    NoBytes();
    Crc16Step([], 102, 0x0000, 102, 0x0ca0, 0x0ca0);
    assert [] + [102] == [102];
    Crc16Step([102], 111, 0x0ca0, 99, 0x5c05, 0xfc05);
    assert [102] + [111] == [102, 111];
    Crc16Step([102, 111], 111, 0xfc05, 147, 0xb3da, 0xb6da);
    assert [102, 111] + [111] == [102, 111, 111];
  }

  lemma ChecksumOfBar()
    ensures Crc16([98, 97, 114]) == 0x4a89
  {
    hide Crc16;
    NoBytes();
    Crc16Step([], 98, 0x0000, 98, 0x4c24, 0x4c24);
    assert [] + [98] == [98];
    Crc16Step([98], 97, 0x4c24, 45, 0xf5cf, 0xd1cf);
    assert [98] + [97] == [98, 97];
    Crc16Step([98, 97], 114, 0xd1cf, 163, 0x8589, 0x4a89);
    assert [98, 97] + [114] == [98, 97, 114];
  }

  lemma ChecksumOfHello()
    ensures Crc16([104, 101, 108, 108, 111]) == 0xe595
  {
    hide Crc16;
    NoBytes();
    Crc16Step([], 104, 0x0000, 104, 0xed6e, 0xed6e);
    assert [] + [104] == [104];
    Crc16Step([104], 101, 0xed6e, 136, 0x1080, 0x7e80);
    assert [104] + [101] == [104, 101];
    Crc16Step([104, 101], 108, 0x7e80, 18, 0x3273, 0xb273);
    assert [104, 101] + [108] == [104, 101, 108];
    Crc16Step([104, 101, 108], 108, 0xb273, 222, 0x2ab3, 0x59b3);
    assert [104, 101, 108] + [108] == [104, 101, 108, 108];
    Crc16Step([104, 101, 108, 108], 111, 0x59b3, 54, 0x5695, 0xe595);
    assert [104, 101, 108, 108] + [111] == [104, 101, 108, 108, 111];
  }

  lemma NoBytes()
    ensures Crc16([]) == 0
  {
  }

  // --------------------------------------------------------------- hash tags

  /** key[s..=e] is a brace group with something, and no brace, inside. */
  predicate IsGroup(key: Bytes, s: nat, e: nat) {
    && s + 1 < e < |key| && key[s] == OPEN && key[e] == CLOSE
    && forall i | s < i < e :: key[i] != OPEN && key[i] != CLOSE
  }

  /** The group that ends first; no two groups end at the same place. */
  ghost predicate IsFirstGroup(key: Bytes, s: nat, e: nat) {
    IsGroup(key, s, e) && forall s': nat, e': nat | IsGroup(key, s', e') :: e <= e'
  }

  lemma FirstGroupUnique(key: Bytes, s: nat, e: nat, s': nat, e': nat)
    requires IsFirstGroup(key, s, e) && IsFirstGroup(key, s', e')
    ensures s == s' && e == e'
  {
    assert e == e';
  }

  /** The declarative tag: the content of the first group, or nothing. */
  ghost function Tag(key: Bytes): (tag: Bytes)
    ensures tag == [] <==> forall s: nat, e: nat :: !IsFirstGroup(key, s, e)
    ensures forall s: nat, e: nat | IsFirstGroup(key, s, e) :: tag == key[s + 1..e]
  {
    if exists s: nat, e: nat :: IsFirstGroup(key, s, e) then
      var s: nat, e: nat :| IsFirstGroup(key, s, e);
      assert forall s': nat, e': nat | IsFirstGroup(key, s', e') :: s' == s && e' == e by {
        forall s': nat, e': nat | IsFirstGroup(key, s', e') ensures s' == s && e' == e {
          FirstGroupUnique(key, s, e, s', e');
        }
      }
      key[s + 1..e]
    else []
  }

  /** The loop's state after `i` bytes: `s` is the last '{' with no brace after it,
      and if there is none, then the '}' at `c` lies behind every '{' so far. */
  ghost predicate Seen(key: Bytes, i: nat, s: int, c: int) {
    && i <= |key| && -1 <= s < i && c < i
    && (c >= 0 ==> key[c] == CLOSE)
    && (s >= 0 ==> key[s] == OPEN && forall j | s < j < i :: key[j] != OPEN && key[j] != CLOSE)
    && (s < 0 ==> forall k | 0 <= k < i && key[k] == OPEN :: k < c)
    && forall s': nat, e': nat | IsGroup(key, s', e') :: i <= e'
  }

  /** A group that ends here must start at `s`. */
  lemma GroupStart(key: Bytes, i: nat, s: int, c: int, s': nat)
    requires i < |key| && Seen(key, i, s, c) && IsGroup(key, s', i)
    ensures s == s'
  {
    assert s < 0 ==> s' < c;
  }

  /** The tag is the content of the first non-empty brace-free group, and there
      is no tag exactly when the key has no such group. */
  method HashTag(key: Bytes) returns (tag: Bytes)
    ensures tag == Tag(key)
    ensures tag == [] <==> forall s: nat, e: nat :: !IsGroup(key, s, e)
  {
    var s := -1;
    ghost var c := -1;
    for i := 0 to |key|
      invariant Seen(key, i, s, c)
    {
      var b := key[i];
      forall s': nat | IsGroup(key, s', i) ensures s' == s {
        GroupStart(key, i, s, c, s');
      }
      if b == OPEN {
        s := i;
      } else if b == CLOSE {
        c := i;
        if s >= 0 {
          if i > s + 1 {
            assert IsFirstGroup(key, s, i);
            return key[s + 1..i];
          }
          s := -1;
        }
      }
    }
    return [];
  }

  // ------------------------------------------------------------------- slots

  ghost function HashSlot(key: Bytes): (slot: nat)
    ensures slot < CLUSTER_SLOTS
  {
    (Crc16(if Tag(key) != [] then Tag(key) else key) as int) % CLUSTER_SLOTS
  }

  method ComputeHashSlot(key: Bytes) returns (slot: nat)
    ensures slot == HashSlot(key)
  {
    hide Crc16;
    var tag := HashTag(key);
    var crc := ComputeCrc16(if |tag| > 0 then tag else key);
    slot := (crc as int) % CLUSTER_SLOTS;
  }

  /** Keys whose first groups have the same content share a slot. */
  lemma SameTagSameSlot(a: Bytes, b: Bytes, s: nat, e: nat, s': nat, e': nat)
    requires IsFirstGroup(a, s, e) && IsFirstGroup(b, s', e') && a[s + 1..e] == b[s' + 1..e']
    ensures HashSlot(a) == HashSlot(b)
  {
    hide Crc16;
    assert Tag(a) == a[s + 1..e] && Tag(b) == b[s' + 1..e'];
  }

  lemma FirstOpenStartsFirstGroup(key: Bytes, s: nat, e: nat)
    requires IsGroup(key, s, e) && OPEN !in key[..s]
    ensures IsFirstGroup(key, s, e)
  {
    assert forall i | 0 <= i < s :: key[i] == key[..s][i];
  }

  /** Wrapping a brace-free key in braces gives its slot a name other keys can
      share: `prefix{k}suffix` lands in the slot of `k`. */
  lemma TagPinsSlot(prefix: Bytes, k: Bytes, suffix: Bytes)
    requires k != [] && 123 !in k && 125 !in k && 123 !in prefix
    ensures HashSlot(prefix + [123] + k + [125] + suffix) == HashSlot(k)
  {
    hide Crc16, IsFirstGroup;
    var key := prefix + [OPEN] + k + [CLOSE] + suffix;
    var s, e := |prefix|, |prefix| + 1 + |k|;
    assert key[s + 1..e] == k && key[..s] == prefix;
    assert forall i | s < i < e :: key[i] == k[i - s - 1];
    FirstOpenStartsFirstGroup(key, s, e);
    assert Tag(key) == k;
    BraceFreeHasNoTag(k);
  }

  /** foo and {foo}.bar are in slot 14042, below 16384 like every slot. */
  lemma KnownSlots(key: Bytes)
    ensures HashSlot([102, 111, 111]) == 14042 && HashSlot(key) < 16384
    ensures HashSlot([123, 102, 111, 111, 125, 46, 98, 97, 114]) == 14042
  {
    hide HashSlot;
    SlotOfFoo();
    var foo: Bytes, bar: Bytes := [102, 111, 111], [46, 98, 97, 114];
    TagPinsSlot([], foo, bar);
    assert [] + [123] + foo + [125] + bar == [123, 102, 111, 111, 125, 46, 98, 97, 114];
    assert HashSlot(key) < CLUSTER_SLOTS;
  }

  lemma SlotOfFoo()
    ensures HashSlot([102, 111, 111]) == 14042
  {
    hide Crc16, Tag;
    ChecksumOfFoo();
    BraceFreeHasNoTag([102, 111, 111]);
  }

  lemma BraceFreeHasNoTag(k: Bytes)
    requires OPEN !in k
    ensures Tag(k) == []
  {
  }
}
