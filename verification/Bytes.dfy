/** Buffers, PostgreSQL words in either byte order, and well-formed UTF-8.

    A string that came out of a buffer is represented by its UTF-8 bytes: `toString` followed by
    `Buffer.from(..).equals(..)` accepts exactly the well-formed byte sequences, and on those the two
    representations are in bijection. */
module Bytes {
  import opened Parts

  type byte = x: int | 0 <= x < 256

  datatype Option<+T> = None | Some(value: T)

  datatype ByteOrder = Little | Big

  // What the readings in both orders come to: the only one there is, or the one they share.
  function Agreed<T(==)>(little: Option<T>, big: Option<T>): Option<T>
  {
    if little.None? then big else if big.None? || big == little then little else None
  }

  // -- Fixed-width words ------------------------------------------------------------------------

  // Bytes from the least to the most significant.
  function Join2(b0: int, b1: int): int { b0 + 0x100 * b1 }

  function Join4(b0: int, b1: int, b2: int, b3: int): int {
    b0 + 0x100 * b1 + 0x1_0000 * b2 + 0x100_0000 * b3
  }

  function U16(order: ByteOrder, b: seq<byte>, at: nat): (v: int)
    requires at + 2 <= |b|
    ensures 0 <= v < 0x1_0000
  {
    if order.Little? then Join2(b[at], b[at + 1]) else Join2(b[at + 1], b[at])
  }

  function U32(order: ByteOrder, b: seq<byte>, at: nat): (v: int)
    requires at + 4 <= |b|
    ensures 0 <= v < 0x1_0000_0000
  {
    if order.Little? then Join4(b[at], b[at + 1], b[at + 2], b[at + 3])
    else Join4(b[at + 3], b[at + 2], b[at + 1], b[at])
  }

  // Two's complement reading of an unsigned word.
  function Signed(width: nat, v: int): int
  {
    if v < width / 2 then v else v - width
  }

  function I16(order: ByteOrder, b: seq<byte>, at: nat): (v: int)
    requires at + 2 <= |b|
    ensures -0x8000 <= v < 0x8000
  {
    Signed(0x1_0000, U16(order, b, at))
  }

  function I32(order: ByteOrder, b: seq<byte>, at: nat): (v: int)
    requires at + 4 <= |b|
    ensures -0x8000_0000 <= v < 0x8000_0000
  {
    Signed(0x1_0000_0000, U32(order, b, at))
  }

  // The number whose digits to base 256 the bytes are, the least or the most significant one first.
  function WordOf(order: ByteOrder, b: seq<byte>): (v: nat)
    decreases |b|
  {
    if b == [] then 0
    else if order.Little? then b[0] + 256 * WordOf(order, b[1..])
    else 256 * WordOf(order, b[..|b| - 1]) + b[|b| - 1]
  }

  lemma TwoByteWord(order: ByteOrder, b: seq<byte>)
    requires |b| == 2
    ensures WordOf(order, b) == U16(order, b, 0)
  {
    var c := if order.Little? then b[1..] else b[..1];
    assert WordOf(order, c) == c[0];
  }

  lemma FourByteWord(order: ByteOrder, b: seq<byte>)
    requires |b| == 4
    ensures WordOf(order, b) == U32(order, b, 0)
  {
    if order.Little? {
      var c := b[1..];
      var d := c[1..];
      var e := d[1..];
      assert e[1..] == [] && WordOf(order, e) == b[3];
      assert WordOf(order, d) == d[0] + 256 * WordOf(order, e);
      assert WordOf(order, c) == c[0] + 256 * WordOf(order, d);
    } else {
      var c := b[..3];
      var d := c[..2];
      var e := d[..1];
      assert e[..0] == [] && WordOf(order, e) == b[0];
      assert WordOf(order, d) == 256 * WordOf(order, e) + d[1];
      assert WordOf(order, c) == 256 * WordOf(order, d) + c[2];
    }
  }

  lemma U16Exists(order: ByteOrder, v: int)
    requires 0 <= v < 0x1_0000
    ensures exists b: seq<byte> :: |b| == 2 && WordOf(order, b) == v
  {
    var b: seq<byte> := if order.Little? then [v % 0x100, v / 0x100] else [v / 0x100, v % 0x100];
    TwoByteWord(order, b);
  }

  lemma U32Exists(order: ByteOrder, v: int)
    requires 0 <= v < 0x1_0000_0000
    ensures exists b: seq<byte> :: |b| == 4 && WordOf(order, b) == v
  {
    hide WordOf;
    var v1 := v / 0x100;
    var v2 := v1 / 0x100;
    var v3 := v2 / 0x100;
    var b: seq<byte> := if order.Little? then [v % 0x100, v1 % 0x100, v2 % 0x100, v3]
                        else [v3, v2 % 0x100, v1 % 0x100, v % 0x100];
    FourByteWord(order, b);
  }

  // The bytes of a word.
  ghost function PutU16(order: ByteOrder, v: int): (b: seq<byte>)
    requires 0 <= v < 0x1_0000
    ensures |b| == 2 && WordOf(order, b) == v
  {
    U16Exists(order, v);
    var b: seq<byte> :| |b| == 2 && WordOf(order, b) == v;
    b
  }

  ghost function PutU32(order: ByteOrder, v: int): (b: seq<byte>)
    requires 0 <= v < 0x1_0000_0000
    ensures |b| == 4 && WordOf(order, b) == v
  {
    U32Exists(order, v);
    var b: seq<byte> :| |b| == 4 && WordOf(order, b) == v;
    b
  }

  ghost function PutI16(order: ByteOrder, v: int): (b: seq<byte>)
    requires -0x8000 <= v < 0x8000
    ensures |b| == 2 && WordOf(order, b) == if v < 0 then v + 0x1_0000 else v
  {
    PutU16(order, if v < 0 then v + 0x1_0000 else v)
  }

  lemma U32At(order: ByteOrder, b: seq<byte>, at: nat, v: int)
    requires 0 <= v < 0x1_0000_0000 && At(b, at, PutU32(order, v))
    ensures U32(order, b, at) == v
  {
    var word := PutU32(order, v);
    FourByteWord(order, word);
    hide WordOf;
    assert b[at + 0] == word[0] && b[at + 1] == word[1] && b[at + 2] == word[2] && b[at + 3] == word[3];
  }

  lemma U16At(order: ByteOrder, b: seq<byte>, at: nat, v: int)
    requires 0 <= v < 0x1_0000 && At(b, at, PutU16(order, v))
    ensures U16(order, b, at) == v
  {
    var word := PutU16(order, v);
    TwoByteWord(order, word);
    hide WordOf;
    assert b[at + 0] == word[0] && b[at + 1] == word[1];
  }

  lemma I16At(order: ByteOrder, b: seq<byte>, at: nat, v: int)
    requires -0x8000 <= v < 0x8000 && At(b, at, PutI16(order, v))
    ensures I16(order, b, at) == v
  {
    U16At(order, b, at, if v < 0 then v + 0x1_0000 else v);
  }

  // A four-byte varlena header states the total length: shifted left by two bits on a little-endian
  // server, plain on a big-endian one.
  predicate FullHeader(order: ByteOrder, b: seq<byte>)
  {
    |b| >= 4 &&
    if order.Little? then U32(order, b, 0) % 4 == 0 && U32(order, b, 0) / 4 == |b|
    else U32(order, b, 0) < 0x4000_0000 && U32(order, b, 0) == |b|
  }

  ghost function PutHeader(order: ByteOrder, length: nat): (b: seq<byte>)
    requires length < 0x4000_0000
    ensures |b| == 4
  {
    PutU32(order, if order.Little? then 4 * length else length)
  }

  lemma HeaderAt(order: ByteOrder, b: seq<byte>)
    requires 4 <= |b| < 0x4000_0000 && At(b, 0, PutHeader(order, |b|))
    ensures FullHeader(order, b)
  {
    U32At(order, b, 0, if order.Little? then 4 * |b| else |b|);
  }

  lemma FourfoldReversal(b0: int, b1: int, b2: int, b3: int)
    requires 0 <= b0 < 256 && 0 <= b1 < 256 && 0 <= b2 < 256 && 0 <= b3 < 256
    requires Join4(b0, b1, b2, b3) == 4 * Join4(b3, b2, b1, b0)
    ensures Join4(b0, b1, b2, b3) == 0
  {
    var k := 0x1_0000 * b3 + 0x100 * b2 + b1 - 4 * b2 - 4 * 0x100 * b1 - 4 * 0x1_0000 * b0;
    assert 4 * b3 == b0 + 256 * k && 0 <= k <= 3;
    var c := b3 - 64 * k;
    assert b0 == 4 * c && 327680 * c + 341 * b1 == 84 * b2 + 1398101 * k;
    if k == 0 {
      assert c == 0;
      assert 341 * b1 == 84 * b2;
      assert 5 * b1 == 84 * (b2 - 4 * b1);
    } else if k == 1 {
      if c <= 4 { assert false; } else { assert false; }
    } else if k == 2 {
      if c <= 8 { assert false; } else { assert false; }
    } else {
      if c <= 12 { assert false; } else { assert false; }
    }
  }

  // No buffer carries a matching four-byte header in both orders: the only word whose byte reversal
  // is its fourfold is zero.
  lemma HeaderFixesOrder(b: seq<byte>)
    requires FullHeader(Little, b)
    ensures !FullHeader(Big, b)
  {
    if FullHeader(Big, b) {
      FourfoldReversal(b[0], b[1], b[2], b[3]);
    }
  }

  // The bytes of ASCII text.
  function AsciiBytes(s: string): (b: seq<byte>)
    ensures |b| == |s|
  {
    if s == "" then [] else [s[0] as int % 128] + AsciiBytes(s[1..])
  }

  // -- UTF-8 (section 4 of RFC 3629) ------------------------------------------------------------

  predicate Tail(b: byte) { 0x80 <= b <= 0xBF }

  // The length of the well-formed character that `b` starts with, or 0.
  function CharLength(b: seq<byte>): (n: nat)
    ensures n <= |b|
  {
    if |b| >= 1 && b[0] <= 0x7F then 1
    else if |b| >= 2 && 0xC2 <= b[0] <= 0xDF && Tail(b[1]) then 2
    else if |b| >= 3 && Tail(b[2]) && (
        || (b[0] == 0xE0 && 0xA0 <= b[1] <= 0xBF)
        || (0xE1 <= b[0] <= 0xEC && Tail(b[1]))
        || (b[0] == 0xED && 0x80 <= b[1] <= 0x9F)
        || (0xEE <= b[0] <= 0xEF && Tail(b[1]))) then 3
    else if |b| >= 4 && Tail(b[2]) && Tail(b[3]) && (
        || (b[0] == 0xF0 && 0x90 <= b[1] <= 0xBF)
        || (0xF1 <= b[0] <= 0xF3 && Tail(b[1]))
        || (b[0] == 0xF4 && 0x80 <= b[1] <= 0x8F)) then 4
    else 0
  }

  predicate ValidUtf8(b: seq<byte>)
    decreases |b|
  {
    b == [] || (CharLength(b) > 0 && ValidUtf8(b[CharLength(b)..]))
  }

  predicate Ascii(b: seq<byte>)
  {
    forall i :: 0 <= i < |b| ==> b[i] <= 127
  }

  // Text a decoder accepts: well-formed, and pure ASCII unless the database encoding is UTF-8.
  predicate Readable(utf8: bool, b: seq<byte>)
  {
    ValidUtf8(b) && (utf8 || Ascii(b))
  }

  predicate PlainText(utf8: bool, b: seq<byte>) { Readable(utf8, b) && 0 !in b }
}

/** Parts of a sequence, read in place. */
module Parts {
  // `part` stands at position `at` of `s`.
  predicate At<T(==)>(s: seq<T>, at: nat, part: seq<T>)
  {
    at + |part| <= |s| && forall i :: 0 <= i < |part| ==> s[at + i] == part[i]
  }

  lemma AtSplit<T>(s: seq<T>, at: nat, a: seq<T>, b: seq<T>)
    ensures At(s, at, a + b) <==> At(s, at, a) && At(s, at + |a|, b)
  {
    var c := a + b;
    if At(s, at, a + b) {
      forall i | 0 <= i < |a| ensures s[at + i] == a[i] { assert c[i] == a[i]; }
      forall i | 0 <= i < |b| ensures s[at + |a| + i] == b[i] { assert c[|a| + i] == b[i]; }
    }
    if At(s, at, a) && At(s, at + |a|, b) {
      forall i | 0 <= i < |c| ensures s[at + i] == c[i] {
        assert i >= |a| ==> s[at + |a| + (i - |a|)] == b[i - |a|];
      }
    }
  }

  lemma AtSlice<T>(s: seq<T>, at: nat, part: seq<T>)
    ensures At(s, at, part) <==> at + |part| <= |s| && s[at..at + |part|] == part
  {
    if at + |part| <= |s| && s[at..at + |part|] == part {
      var x := s[at..at + |part|];
      forall i | 0 <= i < |part| ensures s[at + i] == part[i] { assert x[i] == part[i]; }
    }
  }

  lemma AtWhole<T>(s: seq<T>)
    ensures At(s, 0, s)
    ensures forall t: seq<T> :: At(s, 0, t) && |t| == |s| ==> s == t
  {
  }

  lemma Snoc<T>(s: seq<T>, x: T)
    ensures (s + [x])[..|s|] == s && (s + [x])[|s|] == x
  {
  }

  lemma SliceOfSlice<T>(s: seq<T>, a: nat, b: nat, c: nat, d: nat)
    requires a <= b <= |s| && c <= d <= b - a
    ensures s[a..b][c..d] == s[a + c..a + d]
  {
    var x, y := s[a..b][c..d], s[a + c..a + d];
    assert forall i :: 0 <= i < d - c ==> x[i] == y[i];
  }
}

/** What a loop has collected, in front of what is still to come. */
module Loops {
  import opened Bytes

  function Joined<T>(front: seq<T>, rest: Option<seq<T>>): Option<seq<T>>
  {
    match rest case None => None case Some(tail) => Some(front + tail)
  }

  lemma JoinedTwice<T>(a: seq<T>, b: seq<T>, rest: Option<seq<T>>)
    ensures Joined(a, Joined(b, rest)) == Joined(a + b, rest)
  {
    if rest.Some? { assert a + (b + rest.value) == a + b + rest.value; }
  }

  lemma JoinedEnds<T>(front: seq<T>, rest: Option<seq<T>>)
    ensures Joined([], rest) == rest && Joined(front, Some([])) == Some(front) && Joined(front, None) == None
  {
    if rest.Some? { assert [] + rest.value == rest.value; }
    assert front + [] == front;
  }

  // Items read so far, and where the next one starts.
  datatype Loaded<T> = Loaded(items: seq<T>, end: nat)

  function Before<T>(item: T, rest: Option<Loaded<T>>): Option<Loaded<T>>
  {
    match rest case None => None case Some(r) => Some(Loaded([item] + r.items, r.end))
  }

  function After<T>(items: seq<T>, rest: Option<Loaded<T>>): Option<Loaded<T>>
  {
    match rest case None => None case Some(r) => Some(Loaded(items + r.items, r.end))
  }

  lemma AfterBefore<T>(items: seq<T>, item: T, rest: Option<Loaded<T>>)
    ensures After(items, Before(item, rest)) == After(items + [item], rest)
  {
    if rest.Some? { assert items + ([item] + rest.value.items) == items + [item] + rest.value.items; }
  }

  lemma AfterEnds<T>(items: seq<T>, end: nat, rest: Option<Loaded<T>>)
    ensures After([], rest) == rest && After(items, Some(Loaded([], end))) == Some(Loaded(items, end))
    ensures After(items, None) == None
  {
    if rest.Some? { assert [] + rest.value.items == rest.value.items; }
    assert items + [] == items;
  }
}
