/** PostgreSQL's text form of arrays: dimensions, nested braces, quoted elements. */
module ArrayLiteral {
  import opened Bytes
  import opened Decimal
  import C = Container

  datatype ArrayValue = ArrayValue(shape: seq<C.Dimension>, values: seq<Option<seq<byte>>>)

  // The braces of a literal. Every level has at least one part.
  datatype Nest = Leaf(value: Option<seq<byte>>) | Branch(parts: Parts)

  datatype Parts = Last(only: Nest) | More(first: Nest, rest: Parts)

  // -- Writing ------------------------------------------------------------------------------------------------

  const QUOTE: byte := 0x22
  const BACKSLASH: byte := 0x5C
  const OPEN: byte := 0x7B
  const CLOSE: byte := 0x7D
  const COMMA: byte := 0x2C

  function Escaped(s: seq<byte>): seq<byte>
  {
    if s == [] then []
    else (if s[0] == QUOTE || s[0] == BACKSLASH then [BACKSLASH, s[0]] else [s[0]]) + Escaped(s[1..])
  }

  function Element(v: Option<seq<byte>>): seq<byte>
  {
    if v.None? then AsciiBytes("NULL") else [QUOTE] + (Escaped(v.value) + [QUOTE])
  }

  function WriteNest(n: Nest): seq<byte>
    decreases n
  {
    match n case Leaf(v) => Element(v) case Branch(parts) => [OPEN] + WriteParts(parts)
  }

  function WriteParts(ps: Parts): seq<byte>
    decreases ps
  {
    match ps
    case Last(n) => WriteNest(n) + [CLOSE]
    case More(n, rest) => WriteNest(n) + ([COMMA] + WriteParts(rest))
  }

  function Volume(shape: seq<C.Dimension>): nat { C.Product(shape) }

  predicate PositiveLengths(shape: seq<C.Dimension>)
  {
    forall i :: 0 <= i < |shape| ==> shape[i].length > 0
  }

  // The values from `index` on, folded row by row into the dimensions.
  function Fold(shape: seq<C.Dimension>, values: seq<Option<seq<byte>>>, index: nat): Nest
    requires PositiveLengths(shape) && index + Volume(shape) <= |values|
    decreases |shape|, 1, 0
  {
    if shape == [] then Leaf(values[index])
    else
      FoldFits(shape[0].length, Volume(shape[1..]));
      Branch(FoldParts(shape[1..], values, index, shape[0].length))
  }

  function FoldParts(shape: seq<C.Dimension>, values: seq<Option<seq<byte>>>, index: nat, k: nat): Parts
    requires PositiveLengths(shape) && k > 0 && index +
      C.Times(k, Volume(shape)) <= |values|
    decreases |shape|, 2, k
  {
    FoldFits(k, Volume(shape));
    if k == 1 then Last(Fold(shape, values, index))
    else More(Fold(shape, values, index), FoldParts(shape, values, index + Volume(shape), k - 1))
  }

  lemma FoldFits(k: nat, v: nat)
    ensures k > 0 ==> C.Times(k, v) == v + C.Times(k - 1, v)
    ensures C.Times(0, v) == 0
  {
  }

  function Bounds(shape: seq<C.Dimension>): seq<byte>
  {
    if shape == [] then []
    else Bound(shape[0]) + Bounds(shape[1..])
  }

  function Bound(d: C.Dimension): seq<byte>
  {
    AsciiBytes("[") + AsciiBytes(IntText(d.lower)) + AsciiBytes(":") + AsciiBytes(IntText(d.lower + d.length - 1)) +
        AsciiBytes("]")
  }

  predicate Shaped(v: ArrayValue)
  {
    PositiveLengths(v.shape) && |v.values| == C.ElementCount(v.shape)
  }

  // Bounds are written only when some lower bound is not 1.
  function Write(v: ArrayValue): seq<byte>
    requires Shaped(v)
  {
    if v.shape == [] then AsciiBytes("{}")
    else
      (if exists i :: 0 <= i < |v.shape| && v.shape[i].lower != 1 then Bounds(v.shape) + AsciiBytes("=") else []) +
      WriteNest(Fold(v.shape, v.values, 0))
  }

  // -- Reading ------------------------------------------------------------------------------------------------

  datatype Read<+T> = Bad | Got(value: T, rest: seq<byte>)

  // Up to the closing quote; a backslash takes the next byte as it is.
  function ReadQuoted(t: seq<byte>): (r: Read<seq<byte>>)
    ensures r.Got? ==> |r.rest| < |t|
  {
    if t == [] then Bad
    else if t[0] == QUOTE then Got([], t[1..])
    else
      var at := if t[0] == BACKSLASH then 1 else 0;
      if at >= |t| then Bad
      else match ReadQuoted(t[at + 1..]) case Bad => Bad case Got(s, rest) => Got([t[at]] + s, rest)
  }

  function ReadNest(t: seq<byte>): (r: Read<Nest>)
    ensures r.Got? ==> |r.rest| < |t|
    decreases |t|, 0
  {
    if t == [] then Bad
    else if t[0] == OPEN then match ReadParts(t[1..]) case Bad => Bad case Got(ps, rest) => Got(Branch(ps), rest)
    else if t[0] == QUOTE then match ReadQuoted(t[1..]) case Bad => Bad case Got(s, rest) => Got(Leaf(Some(s)), rest)
    else if |t| >= 4 && t[..4] == AsciiBytes("NULL") then Got(Leaf(None), t[4..])
    else Bad
  }

  function ReadParts(t: seq<byte>): (r: Read<Parts>)
    ensures r.Got? ==> |r.rest| < |t|
    decreases |t|, 1
  {
    match ReadNest(t)
    case Bad => Bad
    case Got(n, rest) =>
      if rest != [] && rest[0] == CLOSE then Got(Last(n), rest[1..])
      else if rest != [] && rest[0] == COMMA then
        match ReadParts(rest[1..]) case Bad => Bad case Got(ps, end) => Got(More(n, ps), end)
      else Bad
  }

  function PartCount(ps: Parts): nat { match ps case Last(_) => 1 case More(_, rest) => 1 + PartCount(rest) }

  function FirstPart(ps: Parts): Nest { match ps case Last(n) => n case More(n, _) => n }

  // The lengths of the dimensions, from the first element of every level.
  function Lengths(n: Nest): seq<nat>
    decreases n
  {
    match n
    case Leaf(_) => []
    case Branch(Last(p)) => [1] + Lengths(p)
    case Branch(More(p, rest)) => [1 + PartCount(rest)] + Lengths(p)
  }

  predicate Rectangular(n: Nest, lengths: seq<nat>)
    decreases n
  {
    match n
    case Leaf(_) => lengths == []
    case Branch(parts) => lengths != [] && PartCount(parts) == lengths[0] && AllRectangular(parts, lengths[1..])
  }

  predicate AllRectangular(ps: Parts, lengths: seq<nat>)
    decreases ps
  {
    match ps
    case Last(n) => Rectangular(n, lengths)
    case More(n, rest) => Rectangular(n, lengths) && AllRectangular(rest, lengths)
  }

  function Leaves(n: Nest): seq<Option<seq<byte>>>
    decreases n
  {
    match n case Leaf(v) => [v] case Branch(parts) => AllLeaves(parts)
  }

  function AllLeaves(ps: Parts): seq<Option<seq<byte>>>
    decreases ps
  {
    match ps case Last(n) => Leaves(n) case More(n, rest) => Leaves(n) + AllLeaves(rest)
  }

  predicate DigitByte(b: byte) { 0x30 <= b <= 0x39 }

  // The digits at the front, as text.
  function ReadDigits(t: seq<byte>): (r: (string, seq<byte>))
    ensures AllDigits(r.0) && |r.0| + |r.1| == |t|
  {
    if t == [] || !DigitByte(t[0]) then ("", t)
    else var (s, rest) := ReadDigits(t[1..]); ([t[0] as char] + s, rest)
  }

  function ReadInt(t: seq<byte>): (r: Read<int>)
    ensures r.Got? ==> |r.rest| < |t|
  {
    var negative := t != [] && t[0] == 0x2D;
    var (s, rest) := ReadDigits(if negative then t[1..] else t);
    if s == "" then Bad else Got(if negative then 0 - Val(s) else Val(s), rest)
  }

  function ReadByte(t: seq<byte>, b: byte): (r: Read<()>)
    ensures r.Got? ==> |r.rest| < |t|
  {
    if t != [] && t[0] == b then Got((), t[1..]) else Bad
  }

  function ReadBound(t: seq<byte>): (r: Read<C.Dimension>)
    ensures r.Got? ==> |r.rest| < |t|
  {
    match ReadByte(t, 0x5B)
    case Bad => Bad
    case Got(_, t1) =>
      match ReadInt(t1)
      case Bad => Bad
      case Got(lower, t2) =>
        match ReadByte(t2, 0x3A)
        case Bad => Bad
        case Got(_, t3) =>
          match ReadInt(t3)
          case Bad => Bad
          case Got(upper, t4) =>
            match ReadByte(t4, 0x5D)
            case Bad => Bad
            case Got(_, rest) => if upper < lower then Bad else Got(C.Dimension(lower, upper - lower + 1), rest)
  }

  function ReadBounds(t: seq<byte>): (r: Read<seq<C.Dimension>>)
    decreases |t|
  {
    if t == [] || t[0] != 0x5B then Got([], t)
    else match ReadBound(t)
      case Bad => Bad
      case Got(d, rest) => match ReadBounds(rest) case Bad => Bad case Got(ds, end) => Got([d] + ds, end)
  }

  function FromOne(lengths: seq<nat>): seq<C.Dimension>
  {
    if lengths == [] then [] else [C.Dimension(1, lengths[0])] + FromOne(lengths[1..])
  }

  function ShapeLengths(shape: seq<C.Dimension>): seq<nat>
  {
    if shape == [] then [] else [shape[0].length] + ShapeLengths(shape[1..])
  }

  function OfNest(t: seq<byte>, bounds: Option<seq<C.Dimension>>): Option<ArrayValue>
  {
    match ReadNest(t)
    case Bad => None
    case Got(n, rest) =>
      var lengths := Lengths(n);
      if rest != [] || !Rectangular(n, lengths) || (bounds.Some? && ShapeLengths(bounds.value) != lengths) then None
      else Some(ArrayValue(if bounds.Some? then bounds.value else FromOne(lengths), Leaves(n)))
  }

  // The array a literal denotes.
  function Denoted(t: seq<byte>): Option<ArrayValue>
  {
    if t == AsciiBytes("{}") then Some(ArrayValue([], []))
    else if t != [] && t[0] == 0x5B then
      match ReadBounds(t)
      case Bad => None
      case Got(bounds, rest) =>
        match ReadByte(rest, 0x3D) case Bad => None case Got(_, body) => OfNest(body, Some(bounds))
    else OfNest(t, None)
  }

  // -- Reading what was written -------------------------------------------------------------------------------

  function Put(b: byte, r: Read<seq<byte>>): Read<seq<byte>>
  {
    match r case Bad => Bad case Got(s, rest) => Got([b] + s, rest)
  }

  // One byte of the string, escaped if it has to be.
  lemma QuotedStep(b: byte, tail: seq<byte>)
    ensures ReadQuoted((if b == QUOTE || b == BACKSLASH then [BACKSLASH, b] else [b]) + tail) == Put(b,
      ReadQuoted(tail))
  {
    var t := (if b == QUOTE || b == BACKSLASH then [BACKSLASH, b] else [b]) + tail;
    if b == QUOTE || b == BACKSLASH {
      assert t[2..] == tail;
    } else {
      assert t[1..] == tail;
    }
  }

  lemma QuotedEnd(rest: seq<byte>)
    ensures ReadQuoted([QUOTE] + rest) == Got([], rest)
  {
    assert ([QUOTE] + rest)[1..] == rest;
  }

  lemma {:induction false} QuotedReads(s: seq<byte>, rest: seq<byte>)
    ensures ReadQuoted(Escaped(s) + ([QUOTE] + rest)) == Got(s, rest)
  {
    hide ReadQuoted;
    if s == [] {
      QuotedEnd(rest);
      assert [] + ([QUOTE] + rest) == [QUOTE] + rest;
    } else {
      var front := if s[0] == QUOTE || s[0] == BACKSLASH then [BACKSLASH, s[0]] else [s[0]];
      QuotedReads(s[1..], rest);
      QuotedStep(s[0], Escaped(s[1..]) + ([QUOTE] + rest));
      assert (front + Escaped(s[1..])) + ([QUOTE] + rest) == front + (Escaped(s[1..]) + ([QUOTE] + rest));
      assert [s[0]] + s[1..] == s;
    }
  }

  lemma NullText()
    ensures AsciiBytes("NULL") == [0x4E, 0x55, 0x4C, 0x4C]
  {
    assert "NULL"[1..] == "ULL" && "ULL"[1..] == "LL" && "LL"[1..] == "L" && "L"[1..] == "";
  }

  lemma LeafReads(v: Option<seq<byte>>, rest: seq<byte>)
    ensures ReadNest(Element(v) + rest) == Got(Leaf(v), rest)
  {
    NullText();
    hide AsciiBytes, Escaped, ReadQuoted;
    var t := Element(v) + rest;
    if v.None? {
      assert t[..4] == Element(v) && t[4..] == rest;
    } else {
      assert t[1..] == Escaped(v.value) + ([QUOTE] + rest);
      QuotedReads(v.value, rest);
    }
  }

  lemma Behind<T>(a: seq<T>, b: seq<T>)
    ensures (a + b)[|a|..] == b
  {
  }

  lemma {:induction false} NestReads(n: Nest, rest: seq<byte>)
    ensures ReadNest(WriteNest(n) + rest) == Got(n, rest)
    decreases n
  {
    hide Element, ReadQuoted, AsciiBytes, WriteParts, ReadParts;
    match n
    case Leaf(v) =>
      hide ReadNest;
      LeafReads(v, rest);
    case Branch(parts) =>
      PartsRead(parts, rest);
      assert (WriteNest(n) + rest)[1..] == WriteParts(parts) + rest;
  }

  lemma {:induction false} PartsRead(ps: Parts, rest: seq<byte>)
    ensures ReadParts(WriteParts(ps) + rest) == Got(ps, rest)
    decreases ps
  {
    hide WriteNest, ReadNest;
    match ps
    case Last(n) =>
      NestReads(n, [CLOSE] + rest);
      assert WriteParts(ps) + rest == WriteNest(n) + ([CLOSE] + rest);
      assert ([CLOSE] + rest)[1..] == rest;
    case More(n, others) =>
      var tail := [COMMA] + (WriteParts(others) + rest);
      PartsRead(others, rest);
      NestReads(n, tail);
      PartsMore(n, others, rest);
      assert tail[1..] == WriteParts(others) + rest;
      hide WriteParts;
  }

  lemma PartsMore(n: Nest, others: Parts, rest: seq<byte>)
    ensures WriteParts(More(n, others)) + rest == WriteNest(n) + ([COMMA] + (WriteParts(others) + rest))
  {
    var a, b := WriteNest(n), WriteParts(others);
    assert WriteParts(More(n, others)) == a + ([COMMA] + b);
    hide WriteNest, WriteParts;
    assert (a + ([COMMA] + b)) + rest == a + ([COMMA] + (b + rest));
  }

  // Folding keeps the elements, each once and in order, and the lengths of the dimensions.
  lemma {:induction false} FoldKeeps(shape: seq<C.Dimension>, values: seq<Option<seq<byte>>>, index: nat)
    requires PositiveLengths(shape) && index + Volume(shape) <= |values|
    ensures Leaves(Fold(shape, values, index)) == values[index..index + Volume(shape)]
    ensures Rectangular(Fold(shape, values, index), ShapeLengths(shape))
    ensures Lengths(Fold(shape, values, index)) == ShapeLengths(shape)
    decreases |shape|, 1, 0
  {
    hide C.Times;
    if shape != [] {
      FoldFits(shape[0].length, Volume(shape[1..]));
      PartsKeep(shape[1..], values, index, shape[0].length);
      assert ShapeLengths(shape)[1..] == ShapeLengths(shape[1..]);
      LengthsOfBranch(FoldParts(shape[1..], values, index, shape[0].length));
    }
  }

  lemma LengthsOfBranch(ps: Parts)
    ensures Lengths(Branch(ps)) == [PartCount(ps)] + Lengths(FirstPart(ps))
  {
  }

  lemma {:induction false} PartsKeep(shape: seq<C.Dimension>, values: seq<Option<seq<byte>>>, index: nat, k: nat)
    requires PositiveLengths(shape) && k > 0 && index +
      C.Times(k, Volume(shape)) <= |values|
    ensures AllLeaves(FoldParts(shape, values, index, k)) == values[index..index + C.Times(k, Volume(shape))]
    ensures PartCount(FoldParts(shape, values, index, k)) == k
    ensures AllRectangular(FoldParts(shape, values, index, k), ShapeLengths(shape))
    ensures Lengths(FirstPart(FoldParts(shape, values, index, k))) == ShapeLengths(shape)
    decreases |shape|, 2, k
  {
    FoldFits(k, Volume(shape));
    hide C.Times, Fold, Volume;
    FoldKeeps(shape, values, index);
    if k > 1 {
      PartsKeep(shape, values, index + Volume(shape), k - 1);
      var middle, end := index + Volume(shape), index + C.Times(k, Volume(shape));
      assert values[index..middle] + values[middle..end] == values[index..end];
    } else {
      FoldFits(0, Volume(shape));
    }
  }

  lemma {:induction false} DigitsRead(s: string, rest: seq<byte>)
    requires AllDigits(s) && (rest == [] || !DigitByte(rest[0]))
    ensures ReadDigits(AsciiBytes(s) + rest) == (s, rest)
    decreases |s|
  {
    if s == "" {
      assert AsciiBytes(s) + rest == rest;
    } else {
      FirstDigit(s, rest);
      hide AsciiBytes, AllDigits;
      var t := AsciiBytes(s) + rest;
      assert DigitByte(t[0]) && t[0] as char == s[0];
      DigitsRead(s[1..], rest);
      assert [s[0]] + s[1..] == s;
    }
  }

  lemma FirstDigit(s: string, rest: seq<byte>)
    requires AllDigits(s) && s != ""
    ensures AllDigits(s[1..]) && IsDigit(s[0])
    ensures AsciiBytes(s) + rest == [s[0] as int] + (AsciiBytes(s[1..]) + rest)
  {
    hide AsciiBytes;
    TailDigits(s);
    hide AllDigits;
    FirstAscii(s);
    assert [s[0] as int] + AsciiBytes(s[1..]) + rest == [s[0] as int] + (AsciiBytes(s[1..]) + rest);
  }

  lemma TailDigits(s: string)
    requires AllDigits(s) && s != ""
    ensures AllDigits(s[1..]) && IsDigit(s[0])
  {
  }

  lemma FirstAscii(s: string)
    requires s != "" && IsDigit(s[0])
    ensures AsciiBytes(s) == [s[0] as int] + AsciiBytes(s[1..])
  {
  }

  lemma IntReads(v: int, rest: seq<byte>)
    requires rest == [] || !DigitByte(rest[0])
    ensures ReadInt(AsciiBytes(IntText(v)) + rest) == Got(v, rest)
  {
    hide AsciiBytes, ReadDigits, Val, NatText, AllDigits;
    var n: nat := if v < 0 then 0 - v else v;
    var digits := NatText(n);
    NatTextValue(n);
    DigitsRead(digits, rest);
    TailDigits(digits);
    if v < 0 {
      MinusFirst(digits);
      var t := [0x2D] + AsciiBytes(digits) + rest;
      assert t[1..] == AsciiBytes(digits) + rest;
    } else {
      FirstAscii(digits);
      assert (AsciiBytes(digits) + rest)[0] == digits[0] as int;
    }
  }

  lemma MinusFirst(s: string)
    ensures AsciiBytes("-" + s) == [0x2D] + AsciiBytes(s)
  {
    assert ("-" + s)[1..] == s;
  }

  lemma OneByte(c: char)
    requires c as int < 128
    ensures AsciiBytes([c]) == [c as int]
  {
    assert [c][1..] == "";
  }

  lemma BoundReads(d: C.Dimension, rest: seq<byte>)
    requires d.length > 0
    ensures ReadBound(Bound(d) + rest) == Got(d, rest)
  {
    hide AsciiBytes, ReadInt, IntText;
    OneByte('[');
    OneByte(':');
    OneByte(']');
    var lower, upper := AsciiBytes(IntText(d.lower)), AsciiBytes(IntText(d.lower + d.length - 1));
    var t4 := [0x5D] + rest;
    var t3 := upper + t4;
    var t2 := [0x3A] + t3;
    var t1 := lower + t2;
    assert Bound(d) + rest == [0x5B] + t1;
    IntReads(d.lower, t2);
    IntReads(d.lower + d.length - 1, t4);
    assert ([0x5B] + t1)[1..] == t1 && t2[1..] == t3 && t4[1..] == rest;
  }

  lemma {:induction false} BoundsRead(shape: seq<C.Dimension>, rest: seq<byte>)
    requires PositiveLengths(shape) && rest != [] && rest[0] != 0x5B
    ensures ReadBounds(Bounds(shape) + rest) == Got(shape, rest)
    decreases |shape|
  {
    hide ReadBound, Bound;
    if shape == [] {
      assert Bounds(shape) + rest == rest;
    } else {
      var tail := Bounds(shape[1..]) + rest;
      assert Bounds(shape) + rest == Bound(shape[0]) + tail;
      BoundReads(shape[0], tail);
      BoundsRead(shape[1..], rest);
      BoundStarts(shape[0]);
      assert shape == [shape[0]] + shape[1..];
    }
  }

  lemma BoundStarts(d: C.Dimension)
    ensures Bound(d) != [] && Bound(d)[0] == 0x5B
  {
    OneByte('[');
  }

  lemma {:induction false} AllFromOne(shape: seq<C.Dimension>)
    requires forall i :: 0 <= i < |shape| ==> shape[i].lower == 1
    ensures FromOne(ShapeLengths(shape)) == shape
  {
    if shape != [] {
      AllFromOne(shape[1..]);
      assert shape == [C.Dimension(1, shape[0].length)] + shape[1..];
    }
  }

  lemma NestStarts(v: ArrayValue)
    requires Shaped(v) && v.shape != []
    ensures Volume(v.shape) == |v.values|
    ensures WriteNest(Fold(v.shape, v.values, 0)) != [] && WriteNest(Fold(v.shape, v.values, 0))[0] == OPEN
    ensures |WriteNest(Fold(v.shape, v.values, 0))| > 2
  {
    hide WriteParts;
    LongParts(Fold(v.shape, v.values, 0).parts);
  }

  lemma LongParts(ps: Parts)
    ensures |WriteParts(ps)| >= 2
  {
    hide Element;
    match ps
    case Last(n) => SomeText(n);
    case More(n, rest) => SomeText(n);
  }

  lemma SomeText(n: Nest)
    ensures |WriteNest(n)| >= 1
  {
    hide Escaped, WriteParts;
  }

  // The literal determines the array: its bounds, its NULLs and its strings.
  lemma WriteDenotes(v: ArrayValue)
    requires Shaped(v)
    ensures Denoted(Write(v)) == Some(v)
  {
    hide AsciiBytes, WriteNest, ReadNest, Fold, Leaves, Lengths, Rectangular, Volume;
    if v.shape != [] {
      NestStarts(v);
      var n := Fold(v.shape, v.values, 0);
      var bounded := exists i :: 0 <= i < |v.shape| && v.shape[i].lower != 1;
      FoldKeeps(v.shape, v.values, 0);
      assert v.values[0..|v.values|] == v.values;
      NestReads(n, []);
      assert WriteNest(n) + [] == WriteNest(n);
      OneByte('=');
      BraceText();
      if bounded {
        BoundedText(v, WriteNest(n));
      } else {
        AllFromOne(v.shape);
        assert [] + WriteNest(n) == WriteNest(n);
      }
    }
  }

  lemma BraceText()
    ensures |AsciiBytes("{}")| == 2 && AsciiBytes("{}")[0] == OPEN
  {
  }

  lemma BoundsStart(shape: seq<C.Dimension>)
    requires shape != []
    ensures Bounds(shape) != [] && Bounds(shape)[0] == 0x5B
  {
    BoundStarts(shape[0]);
    hide Bound;
  }

  lemma BoundedText(v: ArrayValue, body: seq<byte>)
    requires Shaped(v) && v.shape != [] && body != []
    ensures var t := Bounds(v.shape) + AsciiBytes("=") + body;
      t != [] && t[0] == 0x5B && ReadBounds(t) == Got(v.shape, [0x3D] + body) &&
          ReadByte([0x3D] + body, 0x3D) == Got((), body)
  {
    OneByte('=');
    BoundsStart(v.shape);
    hide AsciiBytes, ReadBounds, Bounds;
    assert Bounds(v.shape) + AsciiBytes("=") + body == Bounds(v.shape) + ([0x3D] + body);
    BoundsRead(v.shape, [0x3D] + body);
    assert ([0x3D] + body)[1..] == body;
  }

  lemma WriteInjective(v: ArrayValue, w: ArrayValue)
    requires Shaped(v) && Shaped(w) && Write(v) == Write(w)
    ensures v == w
  {
    hide Write, Denoted;
    WriteDenotes(v);
    WriteDenotes(w);
  }
}

/** Array constants of type xml (src/catalog/xml-array-constants.ts), from native bytes to their text form. */
module XmlArray {
  import opened Bytes
  import opened Parts
  import opened Loops
  import opened ArrayLiteral
  import C = Container

  // A four-byte header that states the length of the whole array.
  predicate HeaderFits(order: ByteOrder, b: seq<byte>)
  {
    |b| >= 16 && if order.Little? then FullHeader(Little, b) else U32(Big, b, 0) == |b|
  }

  function LayoutOf(order: ByteOrder): C.Layout { C.Layout(order, false) }

  // The text of one element, behind either header, and where the next one starts.
  function ElementAt(order: ByteOrder, b: seq<byte>, utf8: bool, position: nat): Option<(seq<byte>, nat)>
  {
    var at := (position + 3) / 4 * 4;
    if at >= |b| then None
    else match C.FrameAt(LayoutOf(order), b, at)
      case None => None
      case Some(f) =>
        if !f.plain then None
        else
          var text := b[at + f.header..at + f.length];
          if PlainText(utf8, text) then Some((text, at + f.length)) else None
  }

  // The loop over the elements, from element `i` on.
  function Elements(order: ByteOrder, b: seq<byte>, utf8: bool, nulls: bool, fixed: nat, i: nat, count: nat,
      position: nat): Option<Loaded<Option<seq<byte>>>>
    requires i <= count && (nulls ==> fixed + C.BitmapLength(count) <= |b|)
    decreases count - i
  {
    if i == count then Some(Loaded([], position))
    else if nulls &&
        !C.BitAt(b, fixed, i) then Before(None, Elements(order, b, utf8, nulls, fixed, i + 1, count, position))
    else match ElementAt(order, b, utf8, position)
      case None => None
      case Some((text, next)) => Before(Some(text), Elements(order, b, utf8, nulls, fixed, i + 1, count, next))
  }

  predicate ZeroEnd(b: seq<byte>, position: nat)
  {
    position <= |b| && |b| - position <= 3 && forall i :: position <= i < |b| ==> b[i] == 0
  }

  function ReadArray(order: ByteOrder, b: seq<byte>, element: nat, utf8: bool): Option<ArrayValue>
  {
    if !HeaderFits(order, b) then None
    else
      var dimensions, offset := I32(order, b, 4), I32(order, b, 8);
      if dimensions < 0 || dimensions > 6 || U32(order, b, 12) != element || 16 + 8 * dimensions > |b| then None
      else match C.ReadShape(LayoutOf(order), b, false, dimensions, 0, 1)
        case None => None
        case Some(shape) =>
          var count, fixed := C.ElementCount(shape), 16 + 8 * dimensions;
          if offset < 0 || (offset != 0 && (offset < fixed + C.BitmapLength(count) || offset > |b|)) then None
          else match Elements(order, b, utf8, offset != 0, fixed, 0, count, if offset != 0 then offset else fixed)
            case None => None
            case Some(loaded) => if ZeroEnd(b, loaded.end) then Some(ArrayValue(shape, loaded.items)) else None
  }

  lemma {:induction false} ElementsCount(order: ByteOrder, b: seq<byte>, utf8: bool, nulls: bool, fixed: nat, i: nat,
      count: nat, position: nat)
    requires i <= count && (nulls ==> fixed + C.BitmapLength(count) <= |b|)
    ensures var r := Elements(order, b, utf8, nulls, fixed, i, count,
                              position); r.Some? ==> |r.value.items| == count - i
    decreases count - i
  {
    hide ElementAt, C.BitAt;
    if i < count {
      if nulls && !C.BitAt(b, fixed, i) {
        ElementsCount(order, b, utf8, nulls, fixed, i + 1, count, position);
      } else {
        var e := ElementAt(order, b, utf8, position);
        if e.Some? { ElementsCount(order, b, utf8, nulls, fixed, i + 1, count, e.value.1); }
      }
    }
  }

  lemma {:induction false} ShapeLengthsPositive(l: C.Layout, b: seq<byte>, n: nat, i: nat, count: nat)
    requires i <= n && 16 + 8 * n <= |b|
    ensures var r := C.ReadShape(l, b, false, n, i, count);
      r.Some? ==> PositiveLengths(r.value)
    decreases n - i
  {
    hide I32, C.Times;
    if i < n && I32(l.order, b, 16 + 4 * i) >= 0 {
      ShapeLengthsPositive(l, b, n, i + 1, C.Times(count, I32(l.order, b, 16 + 4 * i)));
    }
  }

  // As many values as the dimensions have places.
  lemma ReadIsShaped(order: ByteOrder, b: seq<byte>, element: nat, utf8: bool)
    ensures var r := ReadArray(order, b, element, utf8); r.Some? ==> Shaped(r.value)
  {
    hide U32, I32, C.ReadShape, Elements, HeaderFits, C.ElementCount, C.BitmapLength, ZeroEnd, PositiveLengths;
    if ReadArray(order, b, element, utf8).Some? {
      var dimensions, offset := I32(order, b, 4), I32(order, b, 8);
      LengthsRead(LayoutOf(order), b, dimensions);
      var shape := C.ReadShape(LayoutOf(order), b, false, dimensions, 0, 1).value;
      var fixed := 16 + 8 * dimensions;
      ElementsCount(order, b, utf8, offset != 0, fixed, 0, C.ElementCount(shape),
                    if offset != 0 then offset else fixed);
    }
  }

  lemma LengthsRead(l: C.Layout, b: seq<byte>, n: nat)
    requires 16 + 8 * n <= |b|
    ensures var r := C.ReadShape(l, b, false, n, 0, 1); r.Some? ==> PositiveLengths(r.value)
  {
    hide C.ReadShape;
    ShapeLengthsPositive(l, b, n, 0, 1);
  }

  function TextIn(order: ByteOrder, b: seq<byte>, element: nat, utf8: bool): Option<seq<byte>>
  {
    ReadIsShaped(order, b, element, utf8);
    match ReadArray(order, b, element, utf8) case None => None case Some(v) => Some(Write(v))
  }

  function XmlArrayText(b: seq<byte>, element: nat, utf8: bool): Option<seq<byte>>
  {
    Agreed(TextIn(Little, b, element, utf8), TextIn(Big, b, element, utf8))
  }

  // At most one byte order reads the header.
  lemma OneOrder(b: seq<byte>)
    ensures !(HeaderFits(Little, b) && HeaderFits(Big, b))
  {
    if HeaderFits(Little, b) && HeaderFits(Big, b) {
      WordsReversed(b);
      FourfoldReversal(b[0], b[1], b[2], b[3]);
    }
  }

  lemma WordsReversed(b: seq<byte>)
    requires HeaderFits(Little, b) && HeaderFits(Big, b)
    ensures Join4(b[0], b[1], b[2], b[3]) == 4 * Join4(b[3], b[2], b[1], b[0]) > 0
  {
  }

  // The text of an array determines it.
  lemma TextDenotes(b: seq<byte>, element: nat, utf8: bool)
    requires XmlArrayText(b, element, utf8).Some?
    ensures exists order ::
      ReadArray(order, b, element, utf8).Some? && Shaped(ReadArray(order, b, element, utf8).value) &&
      Denoted(XmlArrayText(b, element, utf8).value) == ReadArray(order, b, element, utf8)
  {
    hide ReadArray, Denoted, Write, Shaped;
    var order := if TextIn(Little, b, element, utf8).Some? then Little else Big;
    ReadIsShaped(order, b, element, utf8);
    WriteDenotes(ReadArray(order, b, element, utf8).value);
    OneOrder(b);
    Unread(Little, b, element, utf8);
    Unread(Big, b, element, utf8);
    assert XmlArrayText(b, element, utf8) == TextIn(order, b, element, utf8);
  }

  lemma Unread(order: ByteOrder, b: seq<byte>, element: nat, utf8: bool)
    ensures !HeaderFits(order, b) ==> ReadArray(order, b, element, utf8).None?
  {
    hide HeaderFits, U32, I32, C.ReadShape, Elements;
  }

  // -- Native arrays of text ------------------------------------------------------------------------------------

  // The elements as members of an array, each behind the header `short` picks for it.
  ghost function ItemsOf(order: ByteOrder, values: seq<Option<seq<byte>>>, short: seq<bool>): C.Items
    requires |short| == |values|
    decreases |values|
  {
    if values == [] then C.End
    else
      C.Item(C.Slot(-1, 'i', false),
             if values[0].None? then None else Some(C.Raw(C.Framed(order, short[0], values[0].value))),
             ItemsOf(order, values[1..], short[1..]))
  }

  predicate Storable(utf8: bool, values: seq<Option<seq<byte>>>, short: seq<bool>)
    requires |short| == |values|
  {
    forall i :: 0 <= i < |values| && values[i].Some? ==>
      PlainText(utf8, values[i].value) && if short[i] then |values[i].value| < 127 else |values[i].value| + 4 < 0x4000_0000
  }

  ghost function Native(
    order: ByteOrder, element: nat, v: ArrayValue, short: seq<bool>, nulls: bool, gap: nat, tail: nat): C.Value
    requires |short| == |v.values|
  {
    C.ArrayValue(false, element, v.shape, nulls, gap, tail, ItemsOf(order, v.values, short))
  }

  lemma {:induction false} ItemsPresent(order: ByteOrder, values: seq<Option<seq<byte>>>, short: seq<bool>)
    requires |short| == |values|
    ensures |C.Presence(ItemsOf(order, values, short))| == |values|
    ensures (forall i :: 0 <= i < |values| ==> values[i].Some?) ==> C.AllPresent(ItemsOf(order, values, short))
    decreases |values|
  {
    hide C.Framed;
    if values != [] { ItemsPresent(order, values[1..], short[1..]); }
  }

  lemma SlotHolds(order: ByteOrder, text: seq<byte>, short: bool)
    requires if short then |text| < 127 else |text| + 4 < 0x4000_0000
    ensures C.SlotFits(LayoutOf(order), C.Slot(-1, 'i', false), C.Raw(C.Framed(order, short, text)))
  {
    C.FramedReads(LayoutOf(order), short, text);
    hide C.FrameAt, C.Framed;
  }

  lemma ElementFrame(order: ByteOrder, b: seq<byte>, at: nat, text: seq<byte>, short: bool)
    requires if short then |text| < 127 else |text| + 4 < 0x4000_0000
    requires At(b, at, C.Framed(order, short, text))
    ensures var e := C.Framed(order, short, text); var n := if short then 1 else 4;
      at + |e| <= |b| && |e| == n + |text| && C.FrameAt(LayoutOf(order), b, at) == Some(C.Frame(|e|, n, true)) &&
      b[at + n..at + |e|] == text
  {
    var e := C.Framed(order, short, text);
    C.FramedReads(LayoutOf(order), short, text);
    FramedParts(order, short, text);
    hide C.FrameAt, C.Framed;
    C.FrameMoves(LayoutOf(order), b, at, e);
    var n := if short then 1 else 4;
    AtSlice(b, at, e);
    assert b[at..at + |e|][n..] == b[at + n..at + |e|];
  }

  // Reading the element that was written at `start`.
  lemma ElementRead(order: ByteOrder, b: seq<byte>, utf8: bool, position: nat, text: seq<byte>, short: bool)
    requires PlainText(utf8, text) && if short then |text| < 127 else |text| + 4 < 0x4000_0000
    requires At(b, (position + 3) / 4 * 4, C.Framed(order, short, text))
    ensures ElementAt(order, b, utf8, position) == Some((text, (position + 3) / 4 * 4 + |C.Framed(order, short, text)|))
  {
    hide C.FrameAt, PlainText, C.Framed, At;
    ElementFrame(order, b, (position + 3) / 4 * 4, text, short);
  }

  lemma FramedParts(order: ByteOrder, short: bool, text: seq<byte>)
    requires if short then |text| < 127 else |text| + 4 < 0x4000_0000
    ensures var e := C.Framed(order, short, text); var n := if short then 1 else 4; |e| == n + |text| && e[n..] == text
  {
  }

  lemma AlignedStart(order: ByteOrder, p: nat, e: seq<byte>)
    ensures C.SlotStart(LayoutOf(order), C.Slot(-1, 'i', false), p, e) == (p + 3) / 4 * 4
  {
  }

  lemma ElementsDone(order: ByteOrder, b: seq<byte>, utf8: bool, nulls: bool, fixed: nat, count: nat, p: nat)
    requires nulls ==> fixed + C.BitmapLength(count) <= |b|
    ensures Elements(order, b, utf8, nulls, fixed, count, count, p) == Some(Loaded([], p))
  {
  }

  lemma ElementsSkip(order: ByteOrder, b: seq<byte>, utf8: bool, nulls: bool, fixed: nat, i: nat, count: nat, p: nat)
    requires i < count && nulls && fixed + C.BitmapLength(count) <= |b| && !C.BitAt(b, fixed, i)
    ensures Elements(order, b, utf8, nulls, fixed, i, count, p) ==
      Before(None, Elements(order, b, utf8, nulls, fixed, i + 1, count, p))
  {
    hide C.BitAt, ElementAt, Before;
  }

  lemma ElementsNext(order: ByteOrder, b: seq<byte>, utf8: bool, nulls: bool, fixed: nat, i: nat, count: nat, p: nat)
    requires i < count && (nulls ==> fixed + C.BitmapLength(count) <= |b| && C.BitAt(b, fixed, i))
    ensures Elements(order, b, utf8, nulls, fixed, i, count, p) ==
      var e := ElementAt(order, b, utf8, p);
      if e.None? then None else Before(Some(e.value.0), Elements(order, b, utf8, nulls, fixed, i + 1, count, e.value.1))
  {
    hide C.BitAt, ElementAt, Before;
  }

  lemma {:induction false} ElementsRead(
    order: ByteOrder, b: seq<byte>, utf8: bool, nulls: bool, fixed: nat, i: nat, count: nat, p: nat,
    values: seq<Option<seq<byte>>>, short: seq<bool>)
    requires |short| == |values| && Storable(utf8, values, short) && i + |values| == count
    requires nulls ==> fixed + C.BitmapLength(count) <= |b|
    requires C.Marked(b, fixed, nulls, i, ItemsOf(order, values, short))
    requires At(b, p, C.EncodeItems(LayoutOf(order), p, ItemsOf(order, values, short)))
    ensures Elements(order, b, utf8, nulls, fixed, i, count, p) ==
      Some(Loaded(values, p + |C.EncodeItems(LayoutOf(order), p, ItemsOf(order, values, short))|))
    decreases |values|
  {
    hide C.BitAt, ElementAt, C.Framed, At, C.EncodeItems, PlainText, C.SlotFits, C.SlotStart, C.Take, Elements;
    var items := ItemsOf(order, values, short);
    C.NoItem(LayoutOf(order), p, items);
    if values == [] {
      ElementsDone(order, b, utf8, nulls, fixed, count, p);
    } else {
      assert values == [values[0]] + values[1..];
      if values[0].None? {
        ElementsSkip(order, b, utf8, nulls, fixed, i, count, p);
        ElementsRead(order, b, utf8, nulls, fixed, i + 1, count, p, values[1..], short[1..]);
      } else {
        var text := values[0].value;
        var e := C.Framed(order, short[0], text);
        SlotHolds(order, text, short[0]);
        C.NextItem(LayoutOf(order), b, p, items);
        RawEncodes(LayoutOf(order), e);
        AlignedStart(order, p, e);
        ElementRead(order, b, utf8, p, text, short[0]);
        ElementsNext(order, b, utf8, nulls, fixed, i, count, p);
        ElementsRead(order, b, utf8, nulls, fixed, i + 1, count, (p + 3) / 4 * 4 + |e|, values[1..], short[1..]);
      }
    }
  }

  lemma RawEncodes(l: C.Layout, e: seq<byte>)
    ensures C.Encode(l, C.Raw(e)) == e
  {
  }

  ghost predicate NativeFits(order: ByteOrder, element: nat, v: ArrayValue, short: seq<bool>, nulls: bool, gap: nat,
      tail: nat)
    requires |short| == |v.values|
  {
    Shaped(v) && C.ShapeConforms(false, v.shape) && element < 0x1_0000_0000 && tail <= 3 &&
    (nulls || forall i :: 0 <= i < |v.values| ==> v.values[i].Some?) &&
    |C.Body(LayoutOf(order), Native(order, element, v, short, nulls, gap, tail))| + 4 < 0x4000_0000
  }

  // The bytes of a whole array hold its parts where the reader looks for them.
  lemma NativeHeader(l: C.Layout, body: seq<byte>)
    requires 12 <= |body| && |body| + 4 < 0x4000_0000
    ensures var b := C.Framed(l.order, false, body); HeaderFits(l.order, b) && |b| == |body| + 4 && At(b, 4, body)
  {
    var b := C.Framed(l.order, false, body);
    AtWhole(b);
    AtSplit(b, 0, PutHeader(l.order, |b|), body);
    U32At(l.order, b, 0, if l.order.Little? then 4 * |b| else |b|);
    hide U32;
    HeaderAt(l.order, b);
  }

  // Every native array of text is read as what it holds.
  lemma ReadsNative(order: ByteOrder, element: nat, utf8: bool, v: ArrayValue, short: seq<bool>, nulls: bool, gap: nat,
      tail: nat)
    requires |short| == |v.values| && Storable(utf8, v.values, short)
    requires NativeFits(order, element, v, short, nulls, gap, tail)
    ensures ReadArray(order, C.Encode(LayoutOf(order), Native(order, element, v, short, nulls, gap, tail)), element,
                      utf8) == Some(v)
  {
    hide At, U32, I32, C.ReadShape, Elements, C.ArrayHeader, C.EncodeItems, C.Zeros, ZeroEnd, C.AllPresent,
      C.ElementCount, C.Countable,
      C.Presence, C.Marked, C.Body, Storable, HeaderFits, C.Framed, ItemsOf;
    var l, n := LayoutOf(order), Native(order, element, v, short, nulls, gap, tail);
    var items := n.items;
    var b := C.Encode(l, n);
    BodyLong(l, n);
    NativeHeader(l, C.Body(l, n));
    C.ArrayParts(l, b, n);
    ItemsPresent(order, v.values, short);
    var fixed, start := 16 + 8 * |v.shape|, C.DataStart(v.shape, nulls, gap, items);
    C.ArrayHeaderReads(l, b, if nulls then start else 0, element, v.shape, false);
    if !nulls { C.PresentMarks(b, fixed, 0, items); }
    C.EighthsAre(|C.Presence(items)|);
    ElementsRead(order, b, utf8, nulls, fixed, 0, |v.values|, start, v.values, short);
    ZeroEnds(b, start + |C.EncodeItems(l, start, items)|, tail);
    C.SmallShape(false, v.shape);
  }

  lemma ZeroEnds(b: seq<byte>, at: nat, tail: nat)
    requires At(b, at, C.Zeros(tail)) && |b| == at + tail && tail <= 3
    ensures ZeroEnd(b, at)
  {
    C.ZerosTail(b, at, tail);
    hide C.Zeros, At;
  }

  lemma BodyLong(l: C.Layout, v: C.Value)
    requires v.ArrayValue?
    ensures |C.Body(l, v)| >= 12
  {
    hide C.EncodeItems, C.PutBits, C.Presence, C.PutLengths, C.PutLowers, C.Put31;
  }

  // The text that comes out denotes the array that was stored, whichever server stored it.
  lemma NativeText(order: ByteOrder, element: nat, utf8: bool, v: ArrayValue, short: seq<bool>, nulls: bool, gap: nat,
      tail: nat)
    requires |short| == |v.values| && Storable(utf8, v.values, short)
    requires NativeFits(order, element, v, short, nulls, gap, tail)
    ensures Shaped(v)
    ensures XmlArrayText(C.Encode(LayoutOf(order), Native(order, element, v, short, nulls, gap, tail)), element,
                         utf8) == Some(Write(v))
  {
    hide ReadArray, Write, C.Encode, Native, Storable, HeaderFits;
    var b := C.Encode(LayoutOf(order), Native(order, element, v, short, nulls, gap, tail));
    ReadsNative(order, element, utf8, v, short, nulls, gap, tail);
    OneOrder(b);
    Unread(Little, b, element, utf8);
    Unread(Big, b, element, utf8);
  }

  // -- The loops ---------------------------------------------------------------------------------------------------

  method LoadElements(order: ByteOrder, b: seq<byte>, utf8: bool, nulls: bool, fixed: nat, count: nat,
      start: nat) returns (r: Option<Loaded<Option<seq<byte>>>>)
    requires nulls ==> fixed + C.BitmapLength(count) <= |b|
    ensures r == Elements(order, b, utf8, nulls, fixed, 0, count, start)
  {
    hide Elements, ElementAt, After, Before, C.BitAt;
    var values: seq<Option<seq<byte>>> := [];
    var position := start;
    AfterEnds(values, start, Elements(order, b, utf8, nulls, fixed, 0, count, start));
    for i := 0 to count
      invariant Elements(order, b, utf8, nulls, fixed, 0, count, start) ==
                After(values, Elements(order, b, utf8, nulls, fixed, i, count, position))
    {
      if nulls && !C.BitAt(b, fixed, i) {
        ElementsSkip(order, b, utf8, nulls, fixed, i, count, position);
        AfterBefore(values, None, Elements(order, b, utf8, nulls, fixed, i + 1, count, position));
        values := values + [None];
        continue;
      }
      ElementsNext(order, b, utf8, nulls, fixed, i, count, position);
      var e := ElementAt(order, b, utf8, position);
      AfterEnds(values, position, None);
      if e.None? { return None; }
      AfterBefore(values, Some(e.value.0), Elements(order, b, utf8, nulls, fixed, i + 1, count, e.value.1));
      values := values + [Some(e.value.0)];
      position := e.value.1;
    }
    ElementsDone(order, b, utf8, nulls, fixed, count, position);
    AfterEnds(values, position, None);
    r := Some(Loaded(values, position));
  }

  method LoadArray(order: ByteOrder, b: seq<byte>, element: nat, utf8: bool) returns (r: Option<ArrayValue>)
    ensures r == ReadArray(order, b, element, utf8)
  {
    hide U32, I32, C.ReadShape, Elements, ZeroEnd, C.ElementCount;
    if !HeaderFits(order, b) { return None; }
    var dimensions, offset := I32(order, b, 4), I32(order, b, 8);
    if dimensions < 0 || dimensions > 6 || U32(order, b, 12) != element || 16 + 8 * dimensions > |b| { return None; }
    var shape, count := C.LoadShape(LayoutOf(order), b, false, dimensions);
    if shape.None? { return None; }
    var fixed := 16 + 8 * dimensions;
    if offset < 0 || (offset != 0 && (offset < fixed + C.BitmapLength(count) || offset > |b|)) { return None; }
    var loaded := LoadElements(order, b, utf8, offset != 0, fixed, count, if offset != 0 then offset else fixed);
    if loaded.None? || !ZeroEnd(b, loaded.value.end) { return None; }
    r := Some(ArrayValue(shape.value, loaded.value.items));
  }

  // The recursive printer with its shared index: one level of braces, consuming the values row by row.
  method Format(shape: seq<C.Dimension>, values: seq<Option<seq<byte>>>, start: nat) returns (text: seq<byte>,
      index: nat)
    requires PositiveLengths(shape) && shape != [] && start + Volume(shape) <= |values|
    ensures text == WriteNest(Fold(shape, values, start)) && index == start + Volume(shape)
    decreases |shape|
  {
    hide WriteNest, WriteParts, Fold, FoldParts, C.Times, Element, Volume, PositiveLengths;
    index := start;
    var parts: seq<byte> := [];
    var n := shape[0].length;
    ghost var rest := shape[1..];
    VolumeOf(shape);
    RestPositive(shape);
    C.OneTimes(Volume(rest));
    for i := 0 to n
      invariant index + C.Times(n - i, Volume(rest)) == start + Volume(shape)
      invariant i < n ==> parts + WriteParts(FoldParts(rest, values, index, n - i)) ==
                          WriteParts(FoldParts(rest, values, start, n))
      invariant i == n ==> parts + [CLOSE] == WriteParts(FoldParts(rest, values, start, n))
    {
      ghost var here := index;
      FoldFits(n - i, Volume(rest));
      var piece: seq<byte>;
      if |shape| > 1 {
        piece, index := Format(shape[1..], values, index);
      } else {
        LeafOf(values, index);
        piece, index := Element(values[index]), index + 1;
      }
      PartsStep(rest, values, here, n - i, parts);
      parts := parts + piece;
      if i + 1 < n { parts := parts + [COMMA]; }
    }
    FoldFits(0, Volume(rest));
    BranchText(shape, values, start);
    text := [OPEN] + (parts + [CLOSE]);
  }

  lemma RestPositive(shape: seq<C.Dimension>)
    requires PositiveLengths(shape) && shape != []
    ensures shape[0].length > 0 && PositiveLengths(shape[1..])
  {
  }

  lemma VolumeOf(shape: seq<C.Dimension>)
    requires shape != []
    ensures Volume(shape) == C.Times(shape[0].length, Volume(shape[1..])) && (|shape| == 1 ==> Volume(shape[1..]) == 1)
  {
    hide C.Times;
  }

  lemma LeafOf(values: seq<Option<seq<byte>>>, index: nat)
    requires index < |values|
    ensures Volume([]) == 1 && WriteNest(Fold([], values, index)) == Element(values[index])
  {
    hide Element;
  }

  lemma PartsStep(shape: seq<C.Dimension>, values: seq<Option<seq<byte>>>, index: nat, k: nat, parts: seq<byte>)
    requires PositiveLengths(shape) && k > 0 && index +
      C.Times(k, Volume(shape)) <= |values|
    ensures index + Volume(shape) + C.Times(k - 1, Volume(shape)) == index + C.Times(k, Volume(shape))
    ensures var piece := WriteNest(Fold(shape, values, index));
      parts + WriteParts(FoldParts(shape, values, index, k)) ==
        if k == 1 then parts + piece + [CLOSE]
        else parts + piece + [COMMA] + WriteParts(FoldParts(shape, values, index + Volume(shape), k - 1))
  {
    FoldFits(k, Volume(shape));
    hide C.Times, Fold, WriteNest, Volume;
    var piece := WriteNest(Fold(shape, values, index));
    if k > 1 {
      var rest := WriteParts(FoldParts(shape, values, index + Volume(shape), k - 1));
      assert parts + (piece + ([COMMA] + rest)) == parts + piece + [COMMA] + rest;
    } else {
      assert parts + (piece + [CLOSE]) == parts + piece + [CLOSE];
    }
  }

  lemma BranchText(shape: seq<C.Dimension>, values: seq<Option<seq<byte>>>, start: nat)
    requires PositiveLengths(shape) && shape != [] && start + Volume(shape) <= |values|
    ensures start + C.Times(shape[0].length, Volume(shape[1..])) <= |values|
    ensures WriteNest(Fold(shape, values, start)) == [OPEN] +
      WriteParts(FoldParts(shape[1..], values, start, shape[0].length))
  {
    hide C.Times, WriteParts, FoldParts;
  }

  method XmlArrayConstantText(b: seq<byte>, element: nat, utf8: bool) returns (r: Option<seq<byte>>)
    ensures r == XmlArrayText(b, element, utf8)
  {
    hide ReadArray, Write;
    var little := CandidateText(Little, b, element, utf8);
    var big := CandidateText(Big, b, element, utf8);
    r := Agreed(little, big);
  }

  method CandidateText(order: ByteOrder, b: seq<byte>, element: nat, utf8: bool) returns (r: Option<seq<byte>>)
    ensures r == TextIn(order, b, element, utf8)
  {
    hide ReadArray, WriteNest, Fold, Bounds, AsciiBytes, Volume;
    ReadIsShaped(order, b, element, utf8);
    var v := LoadArray(order, b, element, utf8);
    if v.None? { return None; }
    var shape := v.value.shape;
    if shape == [] { return Some(AsciiBytes("{}")); }
    ShapedVolume(v.value);
    var text, index := Format(shape, v.value.values, 0);
    var prefix := if exists i :: 0 <= i < |shape| && shape[i].lower != 1 then Bounds(shape) + AsciiBytes("=") else [];
    r := Some(prefix + text);
  }

  lemma ShapedVolume(v: ArrayValue)
    requires Shaped(v) && v.shape != []
    ensures Volume(v.shape) == |v.values|
  {
  }
}
