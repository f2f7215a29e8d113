/** What the decoders take for text: the UTF-8 form of a sequence of characters. */
module Utf8 {
  import opened Bytes

  // -- Characters and their octets (section 3 of RFC 3629) --------------------------------------------------------

  // Character numbers, without the halves of surrogate pairs.
  predicate Character(c: nat) { c < 0xD800 || 0xE000 <= c <= 0x10FFFF }

  // Low six bits of a number behind its first octet.
  function Low(c: nat): (b: byte)
    ensures 0x80 <= b <= 0xBF
  {
    0x80 + c % 0x40
  }

  function Octets(c: nat): (b: seq<byte>)
    requires Character(c)
    ensures 1 <= |b| <= 4
  {
    if c < 0x80 then [c]
    else if c < 0x800 then [0xC0 + c / 0x40, Low(c)]
    else if c < 0x1_0000 then [0xE0 + c / 0x1000, Low(c / 0x40), Low(c)]
    else [0xF0 + c / 0x4_0000, Low(c / 0x1000), Low(c / 0x40), Low(c)]
  }

  predicate Characters(cs: seq<nat>) { forall i :: 0 <= i < |cs| ==> Character(cs[i]) }

  function Encoded(cs: seq<nat>): seq<byte>
    requires Characters(cs)
  {
    if cs == [] then [] else Octets(cs[0]) + Encoded(cs[1..])
  }

  // -- One character ----------------------------------------------------------------------------------------------

  lemma SixBits(high: nat, low: nat)
    requires low < 0x40
    ensures (high * 0x40 + low) / 0x40 == high && (high * 0x40 + low) % 0x40 == low
  {
  }

  // The character the first octets stand for.
  lemma FirstCharacter(b: seq<byte>) returns (c: nat)
    requires CharLength(b) > 0
    ensures Character(c) && Octets(c) == b[..CharLength(b)]
  {
    var n := CharLength(b);
    if n == 1 {
      c := b[0];
    } else if n == 2 {
      var high: nat, low: nat := b[0] - 0xC0, b[1] - 0x80;
      SixBits(high, low);
      c := high * 0x40 + low;
    } else if n == 3 {
      c := ThreeOctets(b[..3]);
    } else {
      c := FourOctets(b[..4]);
    }
  }

  lemma ThreeOctets(b: seq<byte>) returns (c: nat)
    requires |b| == 3 && CharLength(b) == 3
    ensures Character(c) && Octets(c) == b
  {
    var x: nat, y: nat, z: nat := b[0] - 0xE0, b[1] - 0x80, b[2] - 0x80;
    var high := x * 0x40 + y;
    SixBits(x, y);
    SixBits(high, z);
    c := high * 0x40 + z;
    assert c / 0x1000 == x;
  }

  lemma FourOctets(b: seq<byte>) returns (c: nat)
    requires |b| == 4 && CharLength(b) == 4
    ensures Character(c) && Octets(c) == b
  {
    var x: nat, y: nat, z: nat, u: nat := b[0] - 0xF0, b[1] - 0x80, b[2] - 0x80, b[3] - 0x80;
    var first := x * 0x40 + y;
    var high := first * 0x40 + z;
    SixBits(x, y);
    SixBits(first, z);
    SixBits(high, u);
    c := high * 0x40 + u;
    assert c / 0x1000 == first && c / 0x4_0000 == x;
  }

  // A character's octets are one well-formed character, whatever follows them.
  lemma OctetsAreCharacter(c: nat, rest: seq<byte>)
    requires Character(c)
    ensures CharLength(Octets(c) + rest) == |Octets(c)|
  {
    var b := Octets(c) + rest;
    assert c / 0x1000 == c / 0x40 / 0x40 && c / 0x4_0000 == c / 0x1000 / 0x40;
    assert c == c / 0x40 * 0x40 + c % 0x40;
    assert c / 0x40 == c / 0x1000 * 0x40 + c / 0x40 % 0x40;
    assert c / 0x1000 == c / 0x4_0000 * 0x40 + c / 0x1000 % 0x40;
  }

  // -- Text -------------------------------------------------------------------------------------------------------

  lemma {:induction false} EncodedIsValid(cs: seq<nat>)
    requires Characters(cs)
    ensures ValidUtf8(Encoded(cs))
    decreases |cs|
  {
    hide CharLength, Octets;
    if cs != [] {
      var first, rest := Octets(cs[0]), Encoded(cs[1..]);
      OctetsAreCharacter(cs[0], rest);
      EncodedIsValid(cs[1..]);
      assert (first + rest)[|first|..] == rest;
    }
  }

  lemma {:induction false} ValidIsEncoded(b: seq<byte>) returns (cs: seq<nat>)
    requires ValidUtf8(b)
    ensures Characters(cs) && Encoded(cs) == b
    decreases |b|
  {
    hide CharLength, Octets;
    if b == [] {
      cs := [];
    } else {
      var n := CharLength(b);
      var c := FirstCharacter(b);
      var more := ValidIsEncoded(b[n..]);
      cs := [c] + more;
      assert cs[1..] == more && b == b[..n] + b[n..];
    }
  }

  lemma OctetsOf(c: nat)
    requires Character(c)
    ensures 0 in Octets(c) <==> c == 0
    ensures Ascii(Octets(c)) <==> c <= 127
  {
    if c >= 0x80 { assert Octets(c)[0] >= 0xC0; }
  }

  predicate AsciiCharacters(cs: seq<nat>) { forall i :: 0 <= i < |cs| ==> cs[i] <= 127 }

  lemma AsciiFirst(cs: seq<nat>)
    requires cs != []
    ensures AsciiCharacters(cs) <==> cs[0] <= 127 && AsciiCharacters(cs[1..])
  {
    if cs[0] <= 127 && AsciiCharacters(cs[1..]) {
      forall i | 0 <= i < |cs| ensures cs[i] <= 127 { if i > 0 { assert cs[1..][i - 1] == cs[i]; } }
    }
  }

  lemma {:induction false} EncodedParts(cs: seq<nat>)
    requires Characters(cs)
    ensures 0 in Encoded(cs) <==> 0 in cs
    ensures Ascii(Encoded(cs)) <==> AsciiCharacters(cs)
    decreases |cs|
  {
    hide Octets, Ascii, AsciiCharacters;
    if cs == [] {
      NothingIsAscii();
    } else {
      OctetsOf(cs[0]);
      EncodedParts(cs[1..]);
      assert cs == [cs[0]] + cs[1..];
      AsciiJoin(Octets(cs[0]), Encoded(cs[1..]));
      AsciiFirst(cs);
    }
  }

  lemma NothingIsAscii()
    ensures Ascii([]) && AsciiCharacters([])
  {
  }

  lemma AsciiJoin(a: seq<byte>, b: seq<byte>)
    ensures Ascii(a + b) <==> Ascii(a) && Ascii(b)
  {
    var c := a + b;
    if Ascii(c) {
      forall i | 0 <= i < |a| ensures a[i] <= 127 { assert c[i] == a[i]; }
      forall i | 0 <= i < |b| ensures b[i] <= 127 { assert c[|a| + i] == b[i]; }
    }
  }

  // `cs` is text a database of that encoding can hold.
  predicate Holds(utf8: bool, cs: seq<nat>) { Characters(cs) && (utf8 || AsciiCharacters(cs)) }

  // Readable bytes are the octets of characters, of ASCII ones unless the database encoding is UTF-8; in plain
  // text none of them is number 0.
  lemma ReadableIff(utf8: bool, b: seq<byte>)
    ensures Readable(utf8, b) <==> exists cs :: Holds(utf8, cs) && Encoded(cs) == b
    ensures PlainText(utf8, b) <==> exists cs :: Holds(utf8, cs) && Encoded(cs) == b && 0 !in cs
  {
    hide ValidUtf8, Encoded, Ascii, Characters, AsciiCharacters;
    if ValidUtf8(b) {
      var cs := ValidIsEncoded(b);
      EncodedParts(cs);
    }
    forall cs | Holds(utf8, cs) && Encoded(cs) == b ensures Readable(utf8, b) && (0 !in cs ==> PlainText(utf8, b)) {
      EncodedIsValid(cs);
      EncodedParts(cs);
    }
  }
}
