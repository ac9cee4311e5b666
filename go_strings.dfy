/** Go strings are byte sequences. This module gives the few operations of Go's
    `strings` package that the gateway relies on, stated over bytes. */
module GoStrings {

  newtype byte = x: int | 0 <= x < 256

  type Bytes = seq<byte>

  /** The bytes of a string literal written in ASCII. */
  function Ascii(s: string): Bytes {
    seq(|s|, i requires 0 <= i < |s| => (s[i] as int % 256) as byte)
  }

  lemma AsciiAppend(a: string, b: string)
    ensures Ascii(a + b) == Ascii(a) + Ascii(b)
  {
  }

  /** strings.HasPrefix. */
  predicate HasPrefix(s: Bytes, prefix: Bytes) {
    |prefix| <= |s| && s[..|prefix|] == prefix
  }

  /** strings.Repeat for a one-byte string. */
  function Repeat(b: byte, n: nat): (r: Bytes)
    ensures |r| == n
    ensures forall i :: 0 <= i < n ==> r[i] == b
  {
    seq(n, i => b)
  }

  /** `p` occurs in `s` starting at index `i`. */
  ghost predicate OccursAt(s: Bytes, p: Bytes, i: int) {
    0 <= i && i + |p| <= |s| && s[i..i + |p|] == p
  }

  /** strings.Contains: some contiguous run of `s` equals `p`. */
  function Contains(s: Bytes, p: Bytes): (r: bool)
    ensures r <==> exists i :: OccursAt(s, p, i)
    decreases |s|
  {
    if |s| < |p| then false
    else if s[..|p|] == p then assert OccursAt(s, p, 0); true
    else
      OccursShift(s, p);
      Contains(s[1..], p)
  }

  /** An occurrence in `s` that is not at the front is an occurrence in `s[1..]`. */
  lemma OccursShift(s: Bytes, p: Bytes)
    requires |s| >= |p| && s[..|p|] != p
    ensures (exists i :: OccursAt(s, p, i)) <==> (exists i :: OccursAt(s[1..], p, i))
  {
    if exists i :: OccursAt(s, p, i) {
      var i :| OccursAt(s, p, i);
      assert i != 0;
      assert s[1..][i - 1..i - 1 + |p|] == s[i..i + |p|];
      assert OccursAt(s[1..], p, i - 1);
    }
    if exists i :: OccursAt(s[1..], p, i) {
      var i :| OccursAt(s[1..], p, i);
      assert s[1..][i..i + |p|] == s[i + 1..i + 1 + |p|];
      assert OccursAt(s, p, i + 1);
    }
  }

  /** Every `a + p + b` contains `p`: the witness is right after `a`. */
  lemma {:induction false} ContainsInfix(a: Bytes, p: Bytes, b: Bytes)
    ensures Contains(a + p + b, p)
  {
    var s := a + p + b;
    assert s[|a|..|a| + |p|] == p;
    assert OccursAt(s, p, |a|);
  }

  /** What `s` contains, `a + s + b` contains too. */
  lemma {:induction false} ContainsWithin(a: Bytes, s: Bytes, b: Bytes, p: Bytes)
    requires Contains(s, p)
    ensures Contains(a + s + b, p)
  {
    var i :| OccursAt(s, p, i);
    var t := a + s + b;
    assert t[|a| + i..|a| + i + |p|] == s[i..i + |p|];
    assert OccursAt(t, p, |a| + i);
  }

  /** A pattern one of whose bytes `s` lacks does not occur in `s`. */
  lemma {:induction false} NotContainedWithoutByte(s: Bytes, p: Bytes, j: nat)
    requires j < |p| && p[j] !in s
    ensures !Contains(s, p)
  {
    forall i ensures !OccursAt(s, p, i) {
      if 0 <= i && i + |p| <= |s| {
        assert s[i..i + |p|][j] == s[i + j];
      }
    }
  }

  /** strings.IndexByte, except that an absent byte gives `|s|` rather than -1. */
  function IndexByte(s: Bytes, b: byte): (i: nat)
    ensures i <= |s|
    ensures i < |s| ==> s[i] == b
    ensures forall j :: 0 <= j < i ==> s[j] != b
    decreases |s|
  {
    if s == [] then 0
    else if s[0] == b then 0
    else 1 + IndexByte(s[1..], b)
  }

  /** The index of `b` in `a + [b] + c` is `|a|` when `a` does not hold `b`. */
  lemma IndexByteAfter(a: Bytes, b: byte, c: Bytes)
    requires b !in a
    ensures IndexByte(a + [b] + c, b) == |a|
  {
    var s := a + [b] + c;
    assert s[|a|] == b;
    assert forall j :: 0 <= j < |a| ==> s[j] == a[j];
  }

  /** strings.Join with a one-byte separator (of at least one part). */
  function JoinWith(parts: seq<Bytes>, sep: byte): Bytes
    requires |parts| >= 1
    decreases |parts|
  {
    if |parts| == 1 then parts[0] else parts[0] + [sep] + JoinWith(parts[1..], sep)
  }

  /** A byte that is neither the separator nor in any part is not in the join. */
  lemma {:induction false} JoinWithout(parts: seq<Bytes>, sep: byte, b: byte)
    requires |parts| >= 1 && b != sep
    requires forall k :: 0 <= k < |parts| ==> b !in parts[k]
    ensures b !in JoinWith(parts, sep)
    decreases |parts|
  {
    if |parts| > 1 {
      JoinWithout(parts[1..], sep, b);
    }
  }

  /** strings.Split with a one-byte separator: the parts between separators. Joining
      them back gives `s`. */
  function SplitOn(s: Bytes, sep: byte): (parts: seq<Bytes>)
    ensures |parts| >= 1
    ensures forall k :: 0 <= k < |parts| ==> sep !in parts[k]
    ensures JoinWith(parts, sep) == s
    decreases |s|
  {
    var i := IndexByte(s, sep);
    if i == |s| then
      assert sep !in s;
      [s]
    else
      var rest := SplitOn(s[i + 1..], sep);
      assert s == s[..i] + [sep] + s[i + 1..];
      [s[..i]] + rest
  }

  /** Splitting what was joined gives back the parts, when no part holds the
      separator. */
  lemma {:induction false} SplitJoin(parts: seq<Bytes>, sep: byte)
    requires |parts| >= 1
    requires forall k :: 0 <= k < |parts| ==> sep !in parts[k]
    ensures SplitOn(JoinWith(parts, sep), sep) == parts
    decreases |parts|
  {
    if |parts| == 1 {
      IndexByteAbsent(parts[0], sep);
    } else {
      var tail := JoinWith(parts[1..], sep);
      IndexByteAfter(parts[0], sep, tail);
      var s := parts[0] + [sep] + tail;
      assert s[..|parts[0]|] == parts[0];
      assert s[|parts[0]| + 1..] == tail;
      SplitJoin(parts[1..], sep);
      assert [parts[0]] + parts[1..] == parts;
    }
  }

  lemma IndexByteAbsent(s: Bytes, b: byte)
    requires b !in s
    ensures IndexByte(s, b) == |s|
  {
  }

  /** The ASCII white-space bytes of Go's TrimSpace: \t \n \v \f \r and space. */
  predicate IsAsciiSpace(b: byte) {
    b == 0x09 || b == 0x0A || b == 0x0B || b == 0x0C || b == 0x0D || b == 0x20
  }

  /** A printable ASCII character other than space. */
  predicate IsVisibleAscii(b: byte) {
    0x21 <= b <= 0x7E
  }

  /** The UTF-8 encodings (three bytes long) of the Unicode white-space runes U+1680,
      U+2000 to U+200A, U+2028, U+2029, U+202F, U+205F and U+3000. */
  predicate IsSpaceRune3(a: byte, b: byte, c: byte) {
    || (a == 0xE1 && b == 0x9A && c == 0x80)
    || (a == 0xE2 && b == 0x80 && (0x80 <= c <= 0x8A || c == 0xA8 || c == 0xA9 || c == 0xAF))
    || (a == 0xE2 && b == 0x81 && c == 0x9F)
    || (a == 0xE3 && b == 0x80 && c == 0x80)
  }

  /** strings.TrimSpace(s) == "": decoded as UTF-8, `s` consists of white-space runes
      only. The two-byte white-space runes are U+0085 and U+00A0; a byte that does not
      start a white-space rune (an invalid sequence decodes to U+FFFD) stops the trim. */
  function TrimsToEmpty(s: Bytes): (r: bool)
    ensures (forall i :: 0 <= i < |s| ==> IsAsciiSpace(s[i])) ==> r
    ensures r ==> forall i :: 0 <= i < |s| ==> !IsVisibleAscii(s[i])
    decreases |s|
  {
    if s == [] then true
    else if IsAsciiSpace(s[0]) then
      assert forall i :: 1 <= i < |s| ==> s[i] == s[1..][i - 1];
      TrimsToEmpty(s[1..])
    else if |s| >= 2 && s[0] == 0xC2 && (s[1] == 0x85 || s[1] == 0xA0) then
      assert forall i :: 2 <= i < |s| ==> s[i] == s[2..][i - 2];
      TrimsToEmpty(s[2..])
    else if |s| >= 3 && IsSpaceRune3(s[0], s[1], s[2]) then
      assert forall i :: 3 <= i < |s| ==> s[i] == s[3..][i - 3];
      TrimsToEmpty(s[3..])
    else false
  }

  /** unicode.ToLower restricted to ASCII: 'A'..'Z' become 'a'..'z'. */
  function LowerByte(b: byte): byte {
    if 0x41 <= b <= 0x5A then b + 0x20 else b
  }

  /** strings.ToLower on the ASCII letters of `s`; every other byte is kept. */
  function ToLower(s: Bytes): (r: Bytes)
    ensures |r| == |s|
    ensures forall i :: 0 <= i < |s| ==> r[i] == LowerByte(s[i])
  {
    seq(|s|, i requires 0 <= i < |s| => LowerByte(s[i]))
  }
}
