/** The fingerprint of a cluster topology (pkg/cluster/topology.go). */
module Fingerprint {
  import opened Prelude
  import R = Resp

  type Addr = Bytes

  datatype Node = Node(master: bool, slots: seq<(int, int)>)

  type Nodes = map<Addr, Node>

  const BAR: Byte := 124
  const COLON: Byte := 58
  const COMMA: Byte := 44
  const DASH: Byte := 45
  const MASTER: Byte := 109
  const REPLICA: Byte := 114

  // ------------------------------------------------------------------------- text

  function RangeText(r: (int, int)): Bytes { R.FormatInt(r.0) + [DASH] + R.FormatInt(r.1) }

  function SlotsText(slots: seq<(int, int)>): Bytes {
    if slots == [] then [] else RangeText(slots[0]) + [COMMA] + SlotsText(slots[1..])
  }

  function Entry(addr: Addr, n: Node): Bytes {
    addr + [COLON] + [if n.master then MASTER else REPLICA] + [COLON] + SlotsText(n.slots)
  }

  /** strings.Join(entries, "|"). */
  function Join(entries: seq<Bytes>): Bytes {
    if entries == [] then [] else if |entries| == 1 then entries[0] else entries[0] + [BAR] + Join(entries[1..])
  }

  // ------------------------------------------------------------ byte-wise ordering

  predicate Less(a: Bytes, b: Bytes) {
    b != [] && (a == [] || a[0] < b[0] || (a[0] == b[0] && Less(a[1..], b[1..])))
  }

  lemma {:induction false} Total(a: Bytes, b: Bytes)
    ensures Less(a, b) || a == b || Less(b, a)
  {
    if a != [] && b != [] && a[0] == b[0] {
      Total(a[1..], b[1..]);
      assert a == [a[0]] + a[1..] && b == [b[0]] + b[1..];
    }
  }

  lemma {:induction false} Transitive(a: Bytes, b: Bytes, c: Bytes)
    requires Less(a, b) && Less(b, c)
    ensures Less(a, c)
  {
    if a != [] && a[0] == b[0] == c[0] {
      Transitive(a[1..], b[1..], c[1..]);
    }
  }

  lemma {:induction false} Irreflexive(a: Bytes)
    ensures !Less(a, a)
  {
    if a != [] {
      Irreflexive(a[1..]);
    }
  }

  predicate Sorted(s: seq<Bytes>) { forall i, j | 0 <= i < j < |s| :: Less(s[i], s[j]) }

  /** Only one strictly sorted list has given elements. */
  lemma {:induction false} SortedUnique(a: seq<Bytes>, b: seq<Bytes>)
    requires Sorted(a) && Sorted(b) && forall x :: x in a <==> x in b
    ensures a == b
  {
    assert (a != [] ==> a[0] in a) && (b != [] ==> b[0] in b);
    if a != [] {
      SameHead(a, b);
      forall x ensures x in a[1..] <==> x in b[1..] {
        TailElements(a, x);
        TailElements(b, x);
      }
      SortedUnique(a[1..], b[1..]);
      assert a == [a[0]] + a[1..] && b == [b[0]] + b[1..];
    }
  }

  lemma SameHead(a: seq<Bytes>, b: seq<Bytes>)
    requires Sorted(a) && Sorted(b) && a != [] && b != [] && a[0] in b && b[0] in a
    ensures a[0] == b[0]
  {
    if a[0] != b[0] {
      var i :| 0 <= i < |b| && b[i] == a[0];
      var j :| 0 <= j < |a| && a[j] == b[0];
      assert Less(b[0], b[i]) && Less(a[0], a[j]);
      Transitive(a[0], b[0], a[0]);
      Irreflexive(a[0]);
    }
  }

  lemma TailElements(a: seq<Bytes>, x: Bytes)
    requires Sorted(a) && a != []
    ensures x in a[1..] <==> x in a && x != a[0]
  {
    if x in a[1..] {
      var i :| 0 <= i < |a[1..]| && a[1..][i] == x;
      assert Less(a[0], a[i + 1]);
      Irreflexive(x);
    }
  }

  function Insert(x: Bytes, s: seq<Bytes>): (r: seq<Bytes>)
    ensures forall y :: y in r <==> y == x || y in s
  {
    if s == [] || Less(x, s[0]) then [x] + s
    else
      assert s == [s[0]] + s[1..];
      [s[0]] + Insert(x, s[1..])
  }

  lemma {:induction false} InsertSorted(x: Bytes, s: seq<Bytes>)
    requires Sorted(s) && x !in s
    ensures Sorted(Insert(x, s))
  {
    if s != [] {
      assert s[0] in s;
      var r := Insert(x, s);
      if Less(x, s[0]) {
        forall i, j | 0 <= i < j < |r| ensures Less(r[i], r[j]) {
          if i == 0 && j > 1 {
            Transitive(x, s[0], s[j - 1]);
          }
        }
      } else {
        Total(x, s[0]);
        InsertSorted(x, s[1..]);
        forall j | 0 < j < |r| ensures Less(s[0], r[j]) {
          assert r[j] == Insert(x, s[1..])[j - 1];
          assert r[j] in Insert(x, s[1..]);
          if r[j] != x {
            var k :| 0 <= k < |s[1..]| && s[1..][k] == r[j];
            assert Less(s[0], s[k + 1]);
          }
        }
      }
    }
  }

  /** sort.Strings on distinct strings. */
  function Sort(s: seq<Bytes>): (r: seq<Bytes>)
    ensures forall y :: y in r <==> y in s
  {
    if s == [] then []
    else
      assert s == [s[0]] + s[1..];
      Insert(s[0], Sort(s[1..]))
  }

  predicate Distinct(s: seq<Bytes>) { forall i, j | 0 <= i < j < |s| :: s[i] != s[j] }

  lemma {:induction false} SortSorted(s: seq<Bytes>)
    requires Distinct(s)
    ensures Sorted(Sort(s))
  {
    if s != [] {
      SortSorted(s[1..]);
      InsertSorted(s[0], Sort(s[1..]));
    }
  }

  /** The elements of a set in order. */
  ghost function InOrder(xs: set<Bytes>): (r: seq<Bytes>)
    ensures Sorted(r) && forall y :: y in r <==> y in xs
    decreases |xs|
  {
    if xs == {} then []
    else
      var x :| x in xs;
      var rest := InOrder(xs - {x});
      InsertSorted(x, rest);
      Insert(x, rest)
  }

  // ------------------------------------------------------------------ fingerprint

  ghost function EntrySet(nodes: Nodes): set<Bytes> { set a | a in nodes :: Entry(a, nodes[a]) }

  /** What topoFingerprint computes, whatever order the map is walked in. */
  ghost function Of(nodes: Nodes): Bytes { Join(InOrder(EntrySet(nodes))) }

  // ------------------------------------------------------------------- injectivity

  /** What stands before the first separator, and after it. */
  lemma SplitFirst(x: Bytes, y: Bytes, x': Bytes, y': Bytes, sep: Byte)
    requires x + [sep] + y == x' + [sep] + y' && sep !in x && sep !in x'
    ensures x == x' && y == y'
  {
    var w := x + [sep] + y;
    assert w[|x|] == sep && w[|x'|] == sep;
    assert forall i | 0 <= i < |x| :: w[i] == x[i] && x[i] in x;
    assert forall i | 0 <= i < |x'| :: w[i] == x'[i] && x'[i] in x';
    assert |x| == |x'|;
    assert x == w[..|x|] && x' == w[..|x|] && y == w[|x| + 1..] && y' == w[|x| + 1..];
  }

  /** What stands before the last separator, and after it. */
  lemma SplitLast(x: Bytes, y: Bytes, x': Bytes, y': Bytes, sep: Byte)
    requires x + [sep] + y == x' + [sep] + y' && sep !in y && sep !in y'
    ensures x == x' && y == y'
  {
    var w := x + [sep] + y;
    assert w[|x|] == sep && w[|x'|] == sep;
    assert forall i | |x| < i < |w| :: w[i] == y[i - |x| - 1] && w[i] in y;
    assert forall i | |x'| < i < |w| :: w[i] == y'[i - |x'| - 1] && w[i] in y';
    assert |x| == |x'|;
    assert x == w[..|x|] && x' == w[..|x|] && y == w[|x| + 1..] && y' == w[|x| + 1..];
  }

  lemma {:induction false} DigitsInjective(m: nat, n: nat)
    requires R.Digits(m) == R.Digits(n)
    ensures m == n
    decreases m
  {
    var a, b := R.Digits(m), R.Digits(n);
    OneDigit(m);
    OneDigit(n);
    if m >= 10 {
      assert a[..|a| - 1] == R.Digits(m / 10) && b[..|b| - 1] == R.Digits(n / 10);
      assert a[|a| - 1] == R.ZERO + m % 10 && b[|b| - 1] == R.ZERO + n % 10;
      DigitsInjective(m / 10, n / 10);
    }
  }

  lemma OneDigit(n: nat)
    ensures |R.Digits(n)| == 1 <==> n < 10
  {
  }

  lemma NoDash(n: nat)
    ensures DASH !in R.Digits(n) && COMMA !in R.Digits(n) && COLON !in R.Digits(n) && BAR !in R.Digits(n)
  {
    assert forall i | 0 <= i < |R.Digits(n)| :: R.IsDigit(R.Digits(n)[i]);
  }

  lemma FormatClean(n: int)
    ensures COMMA !in R.FormatInt(n) && COLON !in R.FormatInt(n) && BAR !in R.FormatInt(n)
  {
    NoDash(if n < 0 then -n else n);
  }

  lemma FormatInjective(m: int, n: int)
    requires R.FormatInt(m) == R.FormatInt(n)
    ensures m == n
  {
    var a, b := if m < 0 then -m else m, if n < 0 then -n else n;
    NoDash(a);
    NoDash(b);
    assert R.Digits(a)[0] in R.Digits(a) && R.Digits(b)[0] in R.Digits(b);
    assert m < 0 <==> n < 0;
    if m < 0 {
      assert R.FormatInt(m)[1..] == R.Digits(a) && R.FormatInt(n)[1..] == R.Digits(b);
    }
    DigitsInjective(a, b);
  }

  lemma RangeInjective(r: (int, int), q: (int, int))
    requires RangeText(r) == RangeText(q)
    ensures r == q
  {
    hide R.Digits;
    RangeParts(r);
    RangeParts(q);
    var a, b := if r.0 < 0 then -r.0 else r.0, if q.0 < 0 then -q.0 else q.0;
    NoDash(a);
    NoDash(b);
    SplitFirst(R.Digits(a), R.FormatInt(r.1), R.Digits(b), R.FormatInt(q.1), DASH);
    DigitsInjective(a, b);
    FormatInjective(r.1, q.1);
  }

  /** A leading dash is the sign of the first number. */
  lemma RangeParts(r: (int, int))
    ensures var a, t := if r.0 < 0 then -r.0 else r.0, RangeText(r);
            && t != [] && (t[0] == DASH <==> r.0 < 0)
            && (if r.0 < 0 then t[1..] else t) == R.Digits(a) + [DASH] + R.FormatInt(r.1)
  {
    hide R.Digits;
    var a := if r.0 < 0 then -r.0 else r.0;
    assert R.IsDigit(R.Digits(a)[0]);
  }

  lemma {:induction false} SlotsInjective(a: seq<(int, int)>, b: seq<(int, int)>)
    requires SlotsText(a) == SlotsText(b)
    ensures a == b
  {
    hide RangeText;
    if a != [] && b != [] {
      RangeClean(a[0]);
      RangeClean(b[0]);
      SplitFirst(RangeText(a[0]), SlotsText(a[1..]), RangeText(b[0]), SlotsText(b[1..]), COMMA);
      RangeInjective(a[0], b[0]);
      SlotsInjective(a[1..], b[1..]);
      assert a == [a[0]] + a[1..] && b == [b[0]] + b[1..];
    }
  }

  lemma RangeClean(r: (int, int))
    ensures COMMA !in RangeText(r) && COLON !in RangeText(r) && BAR !in RangeText(r)
  {
    FormatClean(r.0);
    FormatClean(r.1);
  }

  lemma {:induction false} SlotsClean(slots: seq<(int, int)>)
    ensures COLON !in SlotsText(slots) && BAR !in SlotsText(slots)
  {
    if slots != [] {
      RangeClean(slots[0]);
      SlotsClean(slots[1..]);
    }
  }

  /** An entry tells the address, the role and the slots. */
  lemma EntryInjective(a: Addr, m: Node, b: Addr, n: Node)
    requires Entry(a, m) == Entry(b, n)
    ensures a == b && m == n
  {
    var ra, rb := if m.master then MASTER else REPLICA, if n.master then MASTER else REPLICA;
    SlotsClean(m.slots);
    SlotsClean(n.slots);
    SplitLast(a + [COLON] + [ra], SlotsText(m.slots), b + [COLON] + [rb], SlotsText(n.slots), COLON);
    SplitLast(a, [ra], b, [rb], COLON);
    assert [ra][0] == [rb][0];
    SlotsInjective(m.slots, n.slots);
  }

  /** The address starts with the text of a whole entry and a bar. */
  ghost predicate Prefixed(a: Addr) { exists p: Addr, n: Node :: Entry(p, n) + [BAR] <= a }

  /** No address of the topology does. */
  ghost predicate Unambiguous(nodes: Nodes) { forall a | a in nodes :: !Prefixed(a) }

  ghost predicate PlainEntry(e: Bytes) { exists p: Addr, n: Node :: e == Entry(p, n) && !Prefixed(p) }

  ghost predicate AllPlain(entries: seq<Bytes>) { forall i | 0 <= i < |entries| :: PlainEntry(entries[i]) }

  /** A bar in an entry stands in its address. */
  lemma BarInAddress(a: Addr, n: Node, i: nat)
    requires i < |Entry(a, n)| && Entry(a, n)[i] == BAR
    ensures i < |a|
  {
    hide SlotsText;
    SlotsClean(n.slots);
    var tail := [COLON] + [if n.master then MASTER else REPLICA] + [COLON] + SlotsText(n.slots);
    assert Entry(a, n) == a + tail && BAR !in tail;
    assert forall j | |a| <= j < |Entry(a, n)| :: Entry(a, n)[j] in tail;
  }

  /** What continues inside an entry after a bar continues inside its address. */
  lemma BarContinues(e: Bytes, a: Addr, n: Node)
    requires e + [BAR] <= Entry(a, n)
    ensures e + [BAR] <= a
  {
    hide Entry;
    assert Entry(a, n)[|e|] == (e + [BAR])[|e|];
    BarInAddress(a, n, |e|);
    EntryStarts(a, n);
  }

  /** No plain entry continues another one with a bar. */
  lemma NoneContinues(e: Bytes, e': Bytes)
    requires PlainEntry(e) && PlainEntry(e')
    ensures !(e + [BAR] <= e')
  {
    hide Entry;
    var p: Addr, n: Node :| e == Entry(p, n) && !Prefixed(p);
    var p': Addr, n': Node :| e' == Entry(p', n') && !Prefixed(p');
    if Entry(p, n) + [BAR] <= Entry(p', n') {
      BarContinues(Entry(p, n), p', n');
    }
  }

  lemma EntryStarts(a: Addr, n: Node)
    ensures a <= Entry(a, n) && a != Entry(a, n)
  {
  }

  /** The first entry of a joined text. */
  lemma JoinHead(s: seq<Bytes>)
    requires s != []
    ensures s[0] <= Join(s)
    ensures |s| > 1 ==> s[0] + [BAR] <= Join(s) && Join(s) == s[0] + [BAR] + Join(s[1..])
    ensures |s| == 1 ==> Join(s) == s[0]
  {
  }

  lemma {:induction false} JoinInjective(a: seq<Bytes>, b: seq<Bytes>)
    requires AllPlain(a) && AllPlain(b) && Join(a) == Join(b)
    ensures a == b
    decreases |a|
  {
    hide PlainEntry, Join;
    assert Join([]) == [] by { EmptyJoin(); }
    if a == [] || b == [] {
      NonEmptyJoin(a);
      NonEmptyJoin(b);
    } else {
      JoinHead(a);
      JoinHead(b);
      SameFirst(a, b);
      assert a == [a[0]] + a[1..] && b == [b[0]] + b[1..];
      if |a| > 1 {
        assert |b| > 1;
        assert Join(a)[|a[0]| + 1..] == Join(a[1..]) && Join(b)[|b[0]| + 1..] == Join(b[1..]);
        JoinInjective(a[1..], b[1..]);
      }
    }
  }

  lemma EmptyJoin()
    ensures Join([]) == []
  {
  }

  lemma NonEmptyJoin(s: seq<Bytes>)
    requires AllPlain(s)
    ensures Join(s) == [] <==> s == []
  {
    hide Entry;
    if s != [] {
      JoinHead(s);
      assert PlainEntry(s[0]);
      var p: Addr, n: Node :| s[0] == Entry(p, n) && !Prefixed(p);
      EntryStarts(p, n);
    }
  }

  lemma SameFirst(a: seq<Bytes>, b: seq<Bytes>)
    requires AllPlain(a) && AllPlain(b) && a != [] && b != [] && Join(a) == Join(b)
    ensures a[0] == b[0]
  {
    hide PlainEntry, Join;
    FirstOrBar(a, b);
    FirstOrBar(b, a);
    NoneContinues(a[0], b[0]);
    NoneContinues(b[0], a[0]);
  }

  /** Of two first entries of one text, the shorter is followed by a bar. */
  lemma FirstOrBar(a: seq<Bytes>, b: seq<Bytes>)
    requires a != [] && b != [] && Join(a) == Join(b)
    ensures |a[0]| < |b[0]| ==> a[0] + [BAR] <= b[0]
    ensures |a[0]| == |b[0]| ==> a[0] == b[0]
  {
    hide Join;
    JoinHead(a);
    JoinHead(b);
    var t := Join(a);
    if |a[0]| < |b[0]| {
      assert a[0] + [BAR] == t[..|a[0]| + 1] == b[0][..|a[0]| + 1];
    } else if |a[0]| == |b[0]| {
      assert a[0] == t[..|a[0]|] == b[0];
    }
  }

  lemma EntriesPlain(nodes: Nodes)
    requires Unambiguous(nodes)
    ensures AllPlain(InOrder(EntrySet(nodes)))
  {
    hide InOrder, Entry;
    var s := InOrder(EntrySet(nodes));
    forall i | 0 <= i < |s| ensures PlainEntry(s[i]) {
      assert s[i] in EntrySet(nodes);
      var a :| a in nodes && Entry(a, nodes[a]) == s[i];
    }
  }

  /** Equal fingerprints mean equal topologies, when no address starts with a whole
      entry and a bar. */
  lemma FingerprintInjective(m: Nodes, n: Nodes)
    requires Unambiguous(m) && Unambiguous(n) && Of(m) == Of(n)
    ensures m == n
  {
    hide AllPlain, Unambiguous;
    EntriesPlain(m);
    EntriesPlain(n);
    JoinInjective(InOrder(EntrySet(m)), InOrder(EntrySet(n)));
    assert EntrySet(m) == EntrySet(n);
    EntriesTell(m, n);
    EntriesTell(n, m);
    assert m.Keys == n.Keys;
  }

  lemma EntriesTell(m: Nodes, n: Nodes)
    requires EntrySet(m) <= EntrySet(n)
    ensures forall a | a in m :: a in n && n[a] == m[a]
  {
    forall a | a in m ensures a in n && n[a] == m[a] {
      assert Entry(a, m[a]) in EntrySet(m);
      var b :| b in n && Entry(b, n[b]) == Entry(a, m[a]);
      EntryInjective(b, n[b], a, m[a]);
    }
  }

  /** The fingerprint of two nodes. */
  lemma OfTwo(p: Addr, m: Node, q: Addr, n: Node)
    requires p != q && Less(Entry(p, m), Entry(q, n))
    ensures Of(map[p := m, q := n]) == Entry(p, m) + [BAR] + Entry(q, n)
  {
    hide Entry, Less;
    var nodes: Nodes, e, f := map[p := m, q := n], Entry(p, m), Entry(q, n);
    assert EntrySet(nodes) == {e, f} by {
      assert e == Entry(p, nodes[p]) && f == Entry(q, nodes[q]);
    }
    SortedUnique(InOrder({e, f}), [e, f]);
    assert [e, f][1..] == [f] && Join([f]) == f;
  }

  lemma OfOne(p: Addr, m: Node)
    ensures Of(map[p := m]) == Entry(p, m)
  {
    hide Entry, Less;
    var nodes: Nodes := map[p := m];
    assert EntrySet(nodes) == {Entry(p, m)} by {
      assert Entry(p, m) == Entry(p, nodes[p]);
    }
    SortedUnique(InOrder({Entry(p, m)}), [Entry(p, m)]);
  }

  /** An entry and a bar before an address make one entry of two. */
  lemma EntryAfterBar(e: Bytes, q: Addr, n: Node)
    ensures Entry(e + [BAR] + q, n) == e + [BAR] + Entry(q, n)
  {
    hide SlotsText;
    assert e + [BAR] + q + [COLON] == e + [BAR] + (q + [COLON]);
  }

  /** Any two nodes whose entries stand in order have the fingerprint of one node
      whose address spells the first entry, a bar and the second address. */
  lemma BarConfuses(p: Addr, m: Node, q: Addr, n: Node)
    requires p != q && Less(Entry(p, m), Entry(q, n))
    ensures var two: Nodes, one: Nodes := map[p := m, q := n], map[Entry(p, m) + [BAR] + q := n];
            two != one && Of(two) == Of(one)
  {
    hide Entry, Less;
    var long := Entry(p, m) + [BAR] + q;
    OfTwo(p, m, q, n);
    OfOne(long, n);
    EntryAfterBar(Entry(p, m), q, n);
    assert |long| > |q|;
    assert q in map[p := m, q := n] && q !in map[long := n];
  }

  function Zeros(n: nat): (r: Bytes)
    ensures |r| == n && forall i | 0 <= i < n :: r[i] == 0
  {
    seq(n, i => 0)
  }

  /** Enough zero bytes come before any address and its colon. */
  lemma {:induction false} ZerosLess(n: nat, u: Bytes, q: Addr, v: Bytes)
    requires n > |q|
    ensures Less(Zeros(n) + u, q + [COLON] + v)
    decreases |q|
  {
    var a, b := Zeros(n) + u, q + [COLON] + v;
    if q != [] && q[0] == 0 {
      assert a[1..] == Zeros(n - 1) + u && b[1..] == q[1..] + [COLON] + v;
      ZerosLess(n - 1, u, q[1..], v);
    }
  }

  lemma ZerosBefore(n: nat, w: Node, u: Bytes, q: Addr, m: Node, v: Bytes)
    requires n > |q|
    ensures Less(Entry(Zeros(n), w) + u, Entry(q, m) + v)
  {
    hide SlotsText, Less;
    var x := [COLON] + [if w.master then MASTER else REPLICA] + [COLON] + SlotsText(w.slots) + u;
    var y := [if m.master then MASTER else REPLICA] + [COLON] + SlotsText(m.slots) + v;
    assert Entry(Zeros(n), w) + u == Zeros(n) + x;
    assert Entry(q, m) + v == q + [COLON] + y;
    ZerosLess(n, x, q, y);
  }

  /** The condition is exact: every address that starts with a whole entry and a bar
      is part of a topology that shares its fingerprint with another one. */
  lemma EveryPrefixedAddressCollides(q: Addr, m: Node, r: Addr, n: Node) returns (s: Nodes, t: Nodes)
    ensures Prefixed(Entry(q, m) + [BAR] + r)
    ensures Entry(q, m) + [BAR] + r in s && s != t && Of(s) == Of(t)
  {
    hide Entry, Less;
    var a := Entry(q, m) + [BAR] + r;
    var z, w := Zeros(|q| + |r| + 1), Node(true, []);
    var e := Entry(z, w);
    var b := e + [BAR] + q;
    s, t := map[z := w, a := n], map[b := m, r := n];
    EntryAfterBar(Entry(q, m), r, n);
    EntryAfterBar(e, q, m);
    ZerosBefore(|z|, w, [], q, m, [BAR] + Entry(r, n));
    ZerosBefore(|z|, w, [BAR] + Entry(q, m), r, n, []);
    assert e + [] == e && Entry(r, n) + [] == Entry(r, n);
    assert Entry(q, m) + ([BAR] + Entry(r, n)) == Entry(a, n) && e + ([BAR] + Entry(q, m)) == Entry(b, m);
    assert a[|Entry(q, m)|] == BAR && a != z;
    EntryStarts(z, w);
    OfTwo(z, w, a, n);
    OfTwo(b, m, r, n);
    assert Of(s) == Of(t) == e + [BAR] + Entry(q, m) + [BAR] + Entry(r, n);
    assert z in s && z !in t;
    assert Entry(q, m) + [BAR] <= a;
  }

  /** topoFingerprint: the map is walked in an arbitrary order. */
  method Compute(nodes: Nodes) returns (fp: Bytes)
    ensures fp == Of(nodes)
  {
    var entries: seq<Bytes>, left := [], nodes.Keys;
    ghost var walked: seq<Addr> := [];
    while left != {}
      invariant left <= nodes.Keys && |walked| == |entries|
      invariant forall i | 0 <= i < |walked| :: walked[i] in nodes && walked[i] !in left && entries[i] == Entry(walked[i], nodes[walked[i]])
      invariant forall i, j | 0 <= i < j < |walked| :: walked[i] != walked[j]
      invariant forall a | a in nodes :: a in left || a in walked
      decreases |left|
    {
      var addr :| addr in left;
      entries := entries + [Entry(addr, nodes[addr])];
      left := left - {addr};
      walked := walked + [addr];
    }
    WalkedAll(nodes, entries, walked);
    fp := Join(Sort(entries));
  }

  lemma WalkedApart(nodes: Nodes, entries: seq<Bytes>, walked: seq<Addr>)
    requires |walked| == |entries|
    requires forall i | 0 <= i < |walked| :: walked[i] in nodes && entries[i] == Entry(walked[i], nodes[walked[i]])
    requires forall i, j | 0 <= i < j < |walked| :: walked[i] != walked[j]
    ensures Distinct(entries)
  {
    hide Entry;
    forall i, j | 0 <= i < j < |entries| ensures entries[i] != entries[j] {
      if entries[i] == entries[j] {
        EntryInjective(walked[i], nodes[walked[i]], walked[j], nodes[walked[j]]);
      }
    }
  }

  lemma WalkedAll(nodes: Nodes, entries: seq<Bytes>, walked: seq<Addr>)
    requires |walked| == |entries|
    requires forall i | 0 <= i < |walked| :: walked[i] in nodes && entries[i] == Entry(walked[i], nodes[walked[i]])
    requires forall i, j | 0 <= i < j < |walked| :: walked[i] != walked[j]
    requires forall a | a in nodes :: a in walked
    ensures Sort(entries) == InOrder(EntrySet(nodes))
  {
    hide Entry, Sort, InOrder, Less, Sorted;
    assert Distinct(entries) by { WalkedApart(nodes, entries, walked); }
    SortSorted(entries);
    forall y ensures y in entries <==> y in EntrySet(nodes) {
      if y in EntrySet(nodes) {
        var a :| a in nodes && Entry(a, nodes[a]) == y;
        var i :| 0 <= i < |walked| && walked[i] == a;
        assert entries[i] == y;
      }
    }
    SortedUnique(Sort(entries), InOrder(EntrySet(nodes)));
  }
}
