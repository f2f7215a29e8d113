/** Reading JSON text by its grammar (RFC 8259), and what the renderer of jsonb documents writes read that way. */
module JsonText {
  import opened Bytes
  import opened Decimal
  import opened Numeric
  import J = Jsonb

  // What was read, and what follows it.
  datatype Got<+T> = Got(value: T, rest: seq<byte>)

  // -- Strings (section 7 of RFC 8259) ----------------------------------------------------------------------------

  const QUOTE: byte := 0x22
  const BACKSLASH: byte := 0x5C

  // What a backslash and one letter stand for.
  function Unescaped(b: byte): Option<byte>
  {
    if b == QUOTE || b == BACKSLASH || b == 0x2F then Some(b)
    else if b == 0x62 then Some(8)
    else if b == 0x66 then Some(12)
    else if b == 0x6E then Some(10)
    else if b == 0x72 then Some(13)
    else if b == 0x74 then Some(9)
    else None
  }

  function HexValue(b: byte): Option<nat>
  {
    if 0x30 <= b <= 0x39 then Some(b - 0x30)
    else if 0x41 <= b <= 0x46 then Some(b - 0x41 + 10)
    else if 0x61 <= b <= 0x66 then Some(b - 0x61 + 10)
    else None
  }

  // Four hexadecimal digits that name an ASCII character.
  function ReadCode(t: seq<byte>): Option<byte>
  {
    if |t| < 4 then None
    else
      var a, b, c, d := HexValue(t[0]), HexValue(t[1]), HexValue(t[2]), HexValue(t[3]);
      if a != Some(0) || b != Some(0) || c.None? || d.None? || c.value >= 8 || d.value >= 16 then None
      else Some(16 * c.value + d.value)
  }

  // One byte of a string, in whichever way it is written.
  function ReadCharacter(t: seq<byte>): (r: Option<Got<byte>>)
    ensures r.Some? ==> |r.value.rest| < |t|
  {
    if t == [] || t[0] < 0x20 || t[0] == QUOTE then None
    else if t[0] != BACKSLASH then Some(Got(t[0], t[1..]))
    else if |t| < 2 then None
    else if t[1] == 0x75 then
      (match ReadCode(t[2..]) case None => None case Some(code) => Some(Got(code, t[6..])))
    else match Unescaped(t[1]) case None => None case Some(b) => Some(Got(b, t[2..]))
  }

  function ReadCharacters(t: seq<byte>): (r: Option<Got<seq<byte>>>)
    ensures r.Some? ==> |r.value.rest| < |t|
    decreases |t|
  {
    if t == [] then None
    else if t[0] == QUOTE then Some(Got([], t[1..]))
    else match ReadCharacter(t)
      case None => None
      case Some(one) =>
        match ReadCharacters(one.rest)
        case None => None
        case Some(more) => Some(Got([one.value] + more.value, more.rest))
  }

  function ReadString(t: seq<byte>): (r: Option<Got<seq<byte>>>)
    ensures r.Some? ==> |r.value.rest| < |t|
  {
    if t == [] || t[0] != QUOTE then None else ReadCharacters(t[1..])
  }

  // -- Tokens -----------------------------------------------------------------------------------------------------

  lemma {:induction false} AsciiAt(s: string, i: nat)
    requires i < |s| && s[i] < 128 as char
    ensures AsciiBytes(s)[i] == s[i] as int
    decreases |s|
  {
    if i > 0 { AsciiAt(s[1..], i - 1); }
  }

  // What follows a token.
  function Skip(t: seq<byte>, token: string): (r: Option<seq<byte>>)
    ensures r.Some? ==> |r.value| == |t| - |token|
  {
    var b := AsciiBytes(token);
    if b <= t then Some(t[|b|..]) else None
  }

  lemma SkipsToken(token: string, rest: seq<byte>)
    ensures Skip(AsciiBytes(token) + rest, token) == Some(rest)
  {
  }

  // A token that differs from what is there in one place is not skipped.
  lemma SkipsNot(t: seq<byte>, token: string, i: nat)
    requires i < |token| && token[i] < 128 as char && (i < |t| ==> t[i] != token[i] as int)
    ensures Skip(t, token) == None
  {
    AsciiAt(token, i);
  }

  // -- Numbers ----------------------------------------------------------------------------------------------------

  predicate Digit(b: byte) { 0x30 <= b <= 0x39 }

  function Digits(t: seq<byte>): (n: nat)
    ensures n <= |t|
  {
    if t != [] && Digit(t[0]) then 1 + Digits(t[1..]) else 0
  }

  // Digits, and a fraction if a point and a digit follow.
  function UnsignedEnd(t: seq<byte>): (n: nat)
    ensures n <= |t|
  {
    var whole := Digits(t);
    if whole == 0 then 0
    else
      var fraction := if whole < |t| && t[whole] == 0x2E then Digits(t[whole + 1..]) else 0;
      if fraction == 0 then whole else whole + 1 + fraction
  }

  // The longest number at the start, with or without a sign.
  function NumberEnd(t: seq<byte>): (n: nat)
    ensures n <= |t|
  {
    if t != [] && t[0] == 0x2D then if UnsignedEnd(t[1..]) == 0 then 0 else 1 + UnsignedEnd(t[1..])
    else UnsignedEnd(t)
  }

  // -- Documents (sections 2 to 6) --------------------------------------------------------------------------------

  datatype Tree =
    | NullTree
    | TruthTree(b: bool)
    | TextTree(s: seq<byte>)
    | NumberTree(digits: seq<byte>)
    | ArrayTree(items: seq<Tree>)
    | ObjectTree(keys: seq<seq<byte>>, values: seq<Tree>)

  // A number has no superfluous leading zero.
  predicate Proper(digits: seq<byte>)
  {
    var u := if digits != [] && digits[0] == 0x2D then digits[1..] else digits;
    |u| > 1 && u[0] == 0x30 ==> !Digit(u[1])
  }

  function ReadValue(t: seq<byte>): (r: Option<Got<Tree>>)
    ensures r.Some? ==> |r.value.rest| < |t|
    decreases |t|, 1
  {
    if t == [] then None
    else if t[0] == QUOTE then
      (match ReadString(t) case None => None case Some(s) => Some(Got(TextTree(s.value), s.rest)))
    else if t[0] == 0x5B then
      if |t| > 1 && t[1] == 0x5D then Some(Got(ArrayTree([]), t[2..]))
      else (match ReadItems(t[1..]) case None => None case Some(items) => Some(Got(ArrayTree(items.value), items.rest)))
    else if t[0] == 0x7B then
      if |t| > 1 && t[1] == 0x7D then Some(Got(ObjectTree([], []), t[2..])) else ReadMembers(t[1..])
    else if t[0] == 0x6E then Named(t, "null", NullTree)
    else if t[0] == 0x74 then Named(t, "true", TruthTree(true))
    else if t[0] == 0x66 then Named(t, "false", TruthTree(false))
    else
      var n := NumberEnd(t);
      if n == 0 || !Proper(t[..n]) then None else Some(Got(NumberTree(t[..n]), t[n..]))
  }

  function Named(t: seq<byte>, name: string, tree: Tree): (r: Option<Got<Tree>>)
    requires name != ""
    ensures r.Some? ==> |r.value.rest| < |t|
  {
    match Skip(t, name) case None => None case Some(rest) => Some(Got(tree, rest))
  }

  // Values with commas between them, up to the closing bracket.
  function ReadItems(t: seq<byte>): (r: Option<Got<seq<Tree>>>)
    ensures r.Some? ==> |r.value.rest| < |t|
    decreases |t|, 2
  {
    match ReadValue(t)
    case None => None
    case Some(v) =>
      if v.rest == [] then None
      else if v.rest[0] == 0x5D then Some(Got([v.value], v.rest[1..]))
      else if v.rest[0] != 0x2C then None
      else match ReadItems(v.rest[1..])
        case None => None
        case Some(more) => Some(Got([v.value] + more.value, more.rest))
  }

  function ReadMembers(t: seq<byte>): (r: Option<Got<Tree>>)
    ensures r.Some? ==> |r.value.rest| < |t| && r.value.value.ObjectTree?
    decreases |t|, 2
  {
    match ReadString(t)
    case None => None
    case Some(key) =>
      if key.rest == [] || key.rest[0] != 0x3A then None
      else match ReadValue(key.rest[1..])
        case None => None
        case Some(v) =>
          if v.rest == [] then None
          else if v.rest[0] == 0x7D then Some(Got(ObjectTree([key.value], [v.value]), v.rest[1..]))
          else if v.rest[0] != 0x2C then None
          else match ReadMembers(v.rest[1..])
            case None => None
            case Some(more) =>
              Some(Got(ObjectTree([key.value] + more.value.keys, [v.value] + more.value.values), more.rest))
  }

  // -- Strings as the renderer writes them ------------------------------------------------------------------------

  lemma CharacterReads(b: byte, rest: seq<byte>)
    ensures ReadCharacter(J.Escape(b) + rest) == Some(Got(b, rest))
    ensures J.Escape(b) != [] && J.Escape(b)[0] != QUOTE
  {
    var t := J.Escape(b) + rest;
    if b == QUOTE || b == BACKSLASH {
      assert t[2..] == rest;
    } else if b == 8 || b == 9 || b == 10 || b == 12 || b == 13 {
      ShortEscape(b, rest);
    } else if b < 0x20 {
      LongEscape(b, rest);
    } else {
      assert t[1..] == rest;
    }
  }

  lemma ShortEscape(b: byte, rest: seq<byte>)
    requires b == 8 || b == 9 || b == 10 || b == 12 || b == 13
    ensures ReadCharacter(J.Escape(b) + rest) == Some(Got(b, rest)) && J.Escape(b)[0] == BACKSLASH
  {
    var s := if b == 8 then "\\b" else if b == 9 then "\\t" else if b == 10 then "\\n" else if b == 12 then "\\f" else "\\r";
    var t := AsciiBytes(s) + rest;
    AsciiAt(s, 0);
    AsciiAt(s, 1);
    hide AsciiBytes;
    assert t[2..] == rest;
  }

  lemma LongEscape(b: byte, rest: seq<byte>)
    requires b < 0x20 && b != 8 && b != 9 && b != 10 && b != 12 && b != 13
    ensures ReadCharacter(J.Escape(b) + rest) == Some(Got(b, rest)) && J.Escape(b)[0] == BACKSLASH
  {
    var s := "\\u00";
    var hex := [J.Hex(b / 16), J.Hex(b % 16)];
    var t := AsciiBytes(s) + hex + rest;
    AsciiAt(s, 0);
    AsciiAt(s, 1);
    AsciiAt(s, 2);
    AsciiAt(s, 3);
    hide AsciiBytes;
    assert J.Escape(b) + rest == t;
    assert t[4] == hex[0] && t[5] == hex[1] && t[6..] == rest;
    HexIs(b / 16);
    HexIs(b % 16);
    var u := t[2..];
    assert u[0] == t[2] && u[1] == t[3] && u[2] == t[4] && u[3] == t[5];
  }

  lemma HexIs(d: nat)
    requires d < 16
    ensures HexValue(J.Hex(d)) == Some(d)
  {
  }

  lemma CharactersStep(t: seq<byte>, b: byte, rest: seq<byte>)
    requires t != [] && t[0] != QUOTE && ReadCharacter(t) == Some(Got(b, rest))
    ensures ReadCharacters(t) ==
      match ReadCharacters(rest) case None => None case Some(more) => Some(Got([b] + more.value, more.rest))
  {
    hide ReadCharacter;
  }

  lemma {:induction false} CharactersRead(s: seq<byte>, rest: seq<byte>)
    ensures ReadCharacters(J.Escaped(s) + ([QUOTE] + rest)) == Some(Got(s, rest))
    decreases |s|
  {
    hide J.Escape, ReadCharacter, ReadCharacters;
    if s == [] {
      assert J.Escaped(s) + ([QUOTE] + rest) == [QUOTE] + rest;
      StringEnds(rest);
    } else {
      var more := J.Escaped(s[1..]) + ([QUOTE] + rest);
      assert J.Escaped(s) + ([QUOTE] + rest) == J.Escape(s[0]) + more;
      CharacterReads(s[0], more);
      CharactersRead(s[1..], rest);
      CharactersStep(J.Escape(s[0]) + more, s[0], more);
      assert s == [s[0]] + s[1..];
    }
  }

  lemma StringEnds(rest: seq<byte>)
    ensures ReadCharacters([QUOTE] + rest) == Some(Got([], rest))
  {
    assert ([QUOTE] + rest)[1..] == rest;
  }

  // A quoted string is read back, whatever follows it.
  lemma StringReads(s: seq<byte>, rest: seq<byte>)
    ensures ReadString(J.Quote(s) + rest) == Some(Got(s, rest))
    ensures J.Quote(s) != [] && J.Quote(s)[0] == QUOTE
  {
    hide ReadCharacters, J.Escaped;
    CharactersRead(s, rest);
    QuoteIs(s, rest);
    var t := J.Quote(s) + rest;
    assert t[0] == QUOTE && t[1..] == J.Escaped(s) + ([QUOTE] + rest);
  }

  lemma QuoteIs(s: seq<byte>, rest: seq<byte>)
    ensures J.Quote(s) + rest == [QUOTE] + (J.Escaped(s) + ([QUOTE] + rest))
  {
    AsciiAt("\"", 0);
    hide AsciiBytes, J.Escaped;
    assert AsciiBytes("\"") == [QUOTE];
  }

  // -- Numbers as the renderer writes them ------------------------------------------------------------------------

  lemma {:induction false} DigitsRead(s: string, rest: seq<byte>)
    requires AllDigits(s) && (rest != [] ==> !Digit(rest[0]))
    ensures Digits(AsciiBytes(s) + rest) == |s|
    decreases |s|
  {
    var t := AsciiBytes(s) + rest;
    if s == "" {
      assert t == rest;
    } else {
      AsciiAt(s, 0);
      assert IsDigit(s[0]);
      assert t[1..] == AsciiBytes(s[1..]) + rest;
      DigitsRead(s[1..], rest);
    }
  }

  lemma {:induction false} AsciiJoins(a: string, b: string)
    ensures AsciiBytes(a + b) == AsciiBytes(a) + AsciiBytes(b)
    decreases |a|
  {
    if a == "" {
      assert a + b == b;
    } else {
      assert (a + b)[1..] == a[1..] + b;
      AsciiJoins(a[1..], b);
    }
  }

  lemma UnsignedParts(t: seq<byte>, tail: seq<byte>, n: nat, m: nat)
    requires 0 < n <= |t| && t[n..] == tail && Digits(t) == n
    requires if m == 0 then tail != [] ==> tail[0] != 0x2E
             else tail != [] && tail[0] == 0x2E && Digits(tail[1..]) == m
    ensures UnsignedEnd(t) == if m == 0 then n else n + 1 + m
  {
    hide Digits;
    if tail != [] { assert t[n] == tail[0] && t[n + 1..] == tail[1..]; }
  }

  lemma UnsignedReads(whole: string, fraction: string, rest: seq<byte>)
    requires AllDigits(whole) && whole != "" && AllDigits(fraction)
    requires rest != [] ==> !Digit(rest[0]) && rest[0] != 0x2E
    ensures var t := AsciiBytes(whole + Pointed(fraction)) + rest;
      t != [] && Digit(t[0]) && UnsignedEnd(t) == |whole + Pointed(fraction)|
  {
    hide AsciiBytes, Pointed, Digits, UnsignedEnd;
    var tail := AsciiBytes(Pointed(fraction)) + rest;
    var t := AsciiBytes(whole) + tail;
    AsciiJoins(whole, Pointed(fraction));
    AsciiAt(whole, 0);
    assert IsDigit(whole[0]);
    FractionBytes(fraction, rest);
    DigitsRead(whole, tail);
    assert AsciiBytes(whole + Pointed(fraction)) + rest == t;
    UnsignedParts(t, tail, |whole|, |fraction|);
  }

  // A number that is followed by neither digit nor point ends where its text ends.
  lemma NumberReads(negative: bool, whole: string, fraction: string, rest: seq<byte>)
    requires AllDigits(whole) && whole != "" && AllDigits(fraction)
    requires rest != [] ==> !Digit(rest[0]) && rest[0] != 0x2E
    ensures var t := AsciiBytes((if negative then "-" else "") + (whole + Pointed(fraction)));
      t != [] && (t[0] == 0x2D || Digit(t[0])) && NumberEnd(t + rest) == |t|
  {
    hide UnsignedEnd, Pointed;
    var u := whole + Pointed(fraction);
    UnsignedReads(whole, fraction, rest);
    if negative {
      AsciiJoins("-", u);
      AsciiAt("-", 0);
      hide AsciiBytes;
      assert AsciiBytes("-") == [0x2D];
      assert (AsciiBytes("-" + u) + rest)[1..] == AsciiBytes(u) + rest;
    } else {
      assert "" + u == u;
    }
  }

  lemma FractionBytes(fraction: string, rest: seq<byte>)
    requires AllDigits(fraction) && (rest != [] ==> !Digit(rest[0]) && rest[0] != 0x2E)
    ensures var tail := AsciiBytes(Pointed(fraction)) + rest;
      |Pointed(fraction)| == (if fraction == "" then 0 else 1 + |fraction|) && (tail != [] ==> !Digit(tail[0])) &&
      (if fraction == "" then tail == rest else tail[0] == 0x2E && Digits(tail[1..]) == |fraction|)
  {
    if fraction == "" {
      assert AsciiBytes("") + rest == rest;
    } else {
      AsciiAt(".", 0);
      AsciiJoins(".", fraction);
      DigitsRead(fraction, rest);
      assert (AsciiBytes(".") + AsciiBytes(fraction) + rest)[1..] == AsciiBytes(fraction) + rest;
    }
  }

  // -- Documents as the renderer writes them ----------------------------------------------------------------------

  function TreeOf(v: J.Json): Tree
    decreases v
  {
    match v
    case Null => NullTree
    case Bool(b) => TruthTree(b)
    case Text(s) => TextTree(s)
    case Number(n) => NumberTree(J.NumberText(n))
    case Array(items) => ArrayTree(TreesOf(items))
    case Object(keys, values) => ObjectTree(keys, TreesOf(values))
  }

  function TreesOf(items: J.List): (trees: seq<Tree>)
    ensures |trees| == J.Length(items)
    decreases items
  {
    match items case Nil => [] case Cons(v, rest) => [TreeOf(v)] + TreesOf(rest)
  }

  // What may follow a value inside a document, or nothing.
  predicate Follows(rest: seq<byte>) { rest != [] ==> rest[0] == 0x2C || rest[0] == 0x5D || rest[0] == 0x7D }

  lemma NumberValue(n: Stored, rest: seq<byte>)
    requires n.Finite? && Canonical(n.digits) && Exact(n) && Follows(rest)
    ensures ReadValue(J.NumberText(n) + rest) == Some(Got(NumberTree(J.NumberText(n)), rest))
    ensures J.NumberText(n) != [] && (J.NumberText(n)[0] == 0x2D || Digit(J.NumberText(n)[0]))
  {
    hide FiniteText, Exact, ReadString, ReadItems, ReadMembers, Denotes, AsciiBytes, NumberEnd, Proper, Pointed,
      Named, Canonical;
    TextIffExact(n);
    CanonicalDigits(n);
    var whole, fraction := TextDenotes(n);
    var negative := n.negative && n.digits != [];
    TextParts(n, negative, whole, fraction);
    NumberReads(negative, whole, fraction, rest);
    ProperNumber(negative, whole, fraction);
    var b := J.NumberText(n);
    assert b == AsciiBytes((if negative then "-" else "") + (whole + Pointed(fraction)));
    var t := b + rest;
    assert t[0] == b[0] && t[..|b|] == b && t[|b|..] == rest;
  }

  lemma TextParts(n: Stored, negative: bool, whole: string, fraction: string)
    requires n.Finite? && Base10000(n.digits) && FiniteText(n).Some? && Denotes(FiniteText(n).value, n, whole, fraction)
    requires negative == (n.negative && n.digits != [])
    ensures FiniteText(n).value == (if negative then "-" else "") + (whole + Pointed(fraction))
    ensures AllDigits(whole) && whole != "" && NoSurplusZeros(whole) && AllDigits(fraction)
  {
    hide FiniteText, SameValue, Val, Pow10, Coefficient, Pointed;
    var sign := if negative then "-" else "";
    assert sign + whole + Pointed(fraction) == sign + (whole + Pointed(fraction));
  }

  lemma ProperNumber(negative: bool, whole: string, fraction: string)
    requires AllDigits(whole) && NoSurplusZeros(whole) && AllDigits(fraction)
    ensures Proper(AsciiBytes((if negative then "-" else "") + (whole + Pointed(fraction))))
  {
    var u := whole + Pointed(fraction);
    var s := (if negative then "-" else "") + u;
    assert IsDigit(whole[0]) && u[0] == whole[0];
    assert |whole| > 1 ==> IsDigit(whole[1]) && u[1] == whole[1];
    assert |whole| == 1 && |u| > 1 ==> u[1] == Pointed(fraction)[0] == '.';
    hide Pointed, AllDigits;
    AsciiAt(u, 0);
    if |u| > 1 { AsciiAt(u, 1); }
    if negative {
      AsciiJoins("-", u);
      AsciiAt("-", 0);
      hide AsciiBytes;
      assert AsciiBytes("-") == [0x2D] && AsciiBytes(s)[1..] == AsciiBytes(u);
    } else {
      assert s == u;
    }
  }

  lemma NamedValue(t: seq<byte>, name: string, tree: Tree, rest: seq<byte>)
    requires t == AsciiBytes(name) + rest
    requires (name, tree) in {("null", NullTree), ("true", TruthTree(true)), ("false", TruthTree(false))}
    ensures ReadValue(t) == Some(Got(tree, rest))
  {
    hide ReadString, ReadItems, ReadMembers, NumberEnd, Proper, AsciiBytes;
    AsciiAt(name, 0);
    SkipsToken(name, rest);
    hide Skip;
  }

  // What is printed starts a value: no bracket closes there.
  lemma PrintStarts(v: J.Json)
    requires J.Sound(v)
    ensures J.Print(v) != [] && J.Print(v)[0] != 0x5D && J.Print(v)[0] != 0x7D
  {
    hide J.AllSound, Exact, J.PrintItems, J.PrintMembers, J.NumberText, J.Quote, AsciiBytes, Canonical;
    match v
    case Null => AsciiAt("null", 0);
    case Bool(b) => AsciiAt(if b then "true" else "false", 0);
    case Text(s) => StringReads(s, []);
    case Number(n) => NumberPrint(n); NumberValue(n, []);
    case Array(_) => AsciiAt("[", 0);
    case Object(_, _) => AsciiAt("{", 0);
  }

  // The printed text of a document is read as that document, whatever follows.
  lemma {:induction false} ValueReads(v: J.Json, rest: seq<byte>)
    requires J.Sound(v) && Follows(rest)
    ensures ReadValue(J.Print(v) + rest) == Some(Got(TreeOf(v), rest))
    decreases v, 2
  {
    hide ReadValue, J.Print, Exact, J.AllSound, J.Quote, J.NumberText, Canonical, AsciiBytes;
    match v
    case Null => NamedPrint(v, "null"); NamedValue(J.Print(v) + rest, "null", NullTree, rest);
    case Bool(b) =>
      var name := if b then "true" else "false";
      NamedPrint(v, name);
      NamedValue(J.Print(v) + rest, name, TruthTree(b), rest);
    case Text(s) => TextReads(s, rest);
    case Number(n) =>
      NumberPrint(n);
      NumberValue(n, rest);
    case Array(items) => ArrayReads(v, rest);
    case Object(_, _) => ObjectReads(v, rest);
  }

  lemma NamedPrint(v: J.Json, name: string)
    requires (v.Null? && name == "null") || (v.Bool? && name == if v.b then "true" else "false")
    ensures J.Print(v) == AsciiBytes(name)
  {
  }

  lemma NumberPrint(n: Stored)
    ensures J.Print(J.Number(n)) == J.NumberText(n)
  {
    hide J.NumberText;
  }

  lemma TextReads(s: seq<byte>, rest: seq<byte>)
    ensures ReadValue(J.Print(J.Text(s)) + rest) == Some(Got(TextTree(s), rest))
  {
    hide ReadString, ReadItems, ReadMembers, NumberEnd, Proper, AsciiBytes, J.Quote;
    StringReads(s, rest);
    assert J.Print(J.Text(s)) == J.Quote(s);
    assert (J.Quote(s) + rest)[0] == J.Quote(s)[0];
  }

  // Items between their brackets, from the first one on.
  function ItemTexts(items: J.List): seq<byte>
    requires items.Cons?
  {
    J.Print(items.head) + J.PrintItems(items.tail, false)
  }

  lemma ItemsPrint(items: J.List)
    ensures items.Cons? ==> J.PrintItems(items, true) == ItemTexts(items)
    ensures items.Cons? ==> J.PrintItems(items, false) == [0x2C as byte] + ItemTexts(items)
    ensures items.Nil? ==> J.PrintItems(items, true) == [0x5D as byte] == J.PrintItems(items, false)
  {
    AsciiAt(",", 0);
    AsciiAt("]", 0);
    hide J.Print, AsciiBytes;
    assert AsciiBytes(",") == [0x2C] && AsciiBytes("]") == [0x5D];
    assert items.Cons? ==> [] + ItemTexts(items) == ItemTexts(items);
  }

  function OneMore(v: Tree, rest: Option<Got<seq<Tree>>>): Option<Got<seq<Tree>>>
  {
    match rest case None => None case Some(more) => Some(Got([v] + more.value, more.rest))
  }

  lemma ItemsStep(t: seq<byte>, v: Tree, next: seq<byte>)
    requires ReadValue(t) == Some(Got(v, next)) && next != []
    ensures next[0] == 0x5D ==> ReadItems(t) == Some(Got([v], next[1..]))
    ensures next[0] == 0x2C ==> ReadItems(t) == OneMore(v, ReadItems(next[1..]))
  {
    hide ReadValue;
  }

  lemma {:induction false} ItemsRead(items: J.List, rest: seq<byte>)
    requires items.Cons? && J.AllSound(items)
    ensures ReadItems(ItemTexts(items) + rest) == Some(Got(TreesOf(items), rest))
    decreases items, 3
  {
    hide ReadValue, ReadItems, J.Print, J.PrintItems, J.Sound, TreeOf;
    var v, tail := items.head, items.tail;
    var next := J.PrintItems(tail, false) + rest;
    ItemsPrint(tail);
    assert ItemTexts(items) + rest == J.Print(v) + next;
    if tail.Nil? {
      assert next == [0x5D] + rest && next[1..] == rest;
      ValueReads(v, next);
      assert TreesOf(tail) == [] && TreesOf(items) == [TreeOf(v)] + [] == [TreeOf(v)];
    } else {
      var more := ItemTexts(tail) + rest;
      assert next == [0x2C] + more && next[1..] == more;
      ValueReads(v, next);
      ItemsRead(tail, rest);
    }
    ItemsStep(J.Print(v) + next, TreeOf(v), next);
  }

  lemma BracketReads(t: seq<byte>, rest: seq<byte>)
    requires |t| > 1 && t[0] == 0x5B
    ensures t[1] == 0x5D ==> ReadValue(t) == Some(Got(ArrayTree([]), t[2..]))
    ensures t[1] != 0x5D && ReadItems(t[1..]).Some? ==>
      ReadValue(t) == Some(Got(ArrayTree(ReadItems(t[1..]).value.value), ReadItems(t[1..]).value.rest))
  {
    hide ReadString, ReadItems, ReadMembers, NumberEnd, Proper;
  }

  lemma {:induction false} ArrayReads(v: J.Json, rest: seq<byte>)
    requires v.Array? && J.Sound(v) && Follows(rest)
    ensures ReadValue(J.Print(v) + rest) == Some(Got(TreeOf(v), rest))
    decreases v, 1
  {
    hide ReadValue, ReadItems, J.AllSound, J.PrintItems, AsciiBytes, J.Quote, J.NumberText;
    AsciiAt("[", 0);
    assert AsciiBytes("[") == [0x5B];
    ItemsPrint(v.items);
    var t := J.Print(v) + rest;
    assert J.Print(v) == [0x5B] + J.PrintItems(v.items, true);
    assert t == [0x5B] + (J.PrintItems(v.items, true) + rest);
    if v.items.Nil? {
      hide J.Print;
      assert t == [0x5B, 0x5D] + rest && t[2..] == rest;
      assert TreesOf(v.items) == [];
    } else {
      FirstSound(v.items);
      PrintStarts(v.items.head);
      ItemsRead(v.items, rest);
      hide J.Print;
      assert t[1] == J.Print(v.items.head)[0];
      assert t[1..] == ItemTexts(v.items) + rest;
    }
    BracketReads(t, rest);
  }

  lemma FirstSound(items: J.List)
    requires items.Cons? && J.AllSound(items)
    ensures J.Sound(items.head) && J.AllSound(items.tail)
  {
    hide J.Sound;
  }

  // The members of an object between their braces, from the i-th one on.
  function MemberTexts(keys: seq<seq<byte>>, i: nat, values: J.List): seq<byte>
    requires values.Cons? && i < |keys|
  {
    J.Quote(keys[i]) + ([0x3A] + (J.Print(values.head) + J.PrintMembers(keys, i + 1, values.tail)))
  }

  lemma MembersPrint(keys: seq<seq<byte>>, i: nat, values: J.List)
    ensures values.Cons? && i < |keys| ==>
      J.PrintMembers(keys, i, values) == (if i == 0 then [] else [0x2C as byte]) + MemberTexts(keys, i, values)
    ensures values.Nil? ==> J.PrintMembers(keys, i, values) == [0x7D as byte]
  {
    AsciiAt(",", 0);
    AsciiAt("}", 0);
    AsciiAt(":", 0);
    hide J.Print, AsciiBytes, J.Quote;
    assert AsciiBytes(",") == [0x2C] && AsciiBytes("}") == [0x7D] && AsciiBytes(":") == [0x3A];
    if values.Cons? && i < |keys| {
      var tail := J.Print(values.head) + J.PrintMembers(keys, i + 1, values.tail);
      assert J.Label(keys, i) + tail == J.Quote(keys[i]) + ([0x3A] + tail);
    }
  }

  lemma MembersStep(t: seq<byte>, key: seq<byte>, after: seq<byte>, v: Tree, next: seq<byte>)
    requires ReadString(t) == Some(Got(key, [0x3A] + after)) && ReadValue(after) == Some(Got(v, next)) && next != []
    ensures next[0] == 0x7D ==> ReadMembers(t) == Some(Got(ObjectTree([key], [v]), next[1..]))
    ensures next[0] == 0x2C && ReadMembers(next[1..]).Some? ==>
      var more := ReadMembers(next[1..]).value;
      ReadMembers(t) == Some(Got(ObjectTree([key] + more.value.keys, [v] + more.value.values), more.rest))
  {
    hide ReadValue, ReadString;
    assert ([0x3A] + after)[1..] == after;
  }

  lemma {:induction false} MembersRead(keys: seq<seq<byte>>, i: nat, values: J.List, rest: seq<byte>)
    requires values.Cons? && J.AllSound(values) && i + J.Length(values) == |keys|
    ensures ReadMembers(MemberTexts(keys, i, values) + rest) == Some(Got(ObjectTree(keys[i..], TreesOf(values)), rest))
    decreases values, 3
  {
    hide ReadValue, ReadMembers, ReadString, J.Print, J.PrintMembers, J.Sound, TreeOf, J.Quote;
    var v, tail := values.head, values.tail;
    var next := J.PrintMembers(keys, i + 1, tail) + rest;
    var after := J.Print(v) + next;
    MembersPrint(keys, i + 1, tail);
    assert MemberTexts(keys, i, values) + rest == J.Quote(keys[i]) + ([0x3A] + after);
    StringReads(keys[i], [0x3A] + after);
    if tail.Nil? {
      assert next == [0x7D] + rest && next[1..] == rest;
      ValueReads(v, next);
      assert TreesOf(tail) == [] && TreesOf(values) == [TreeOf(v)] + [] == [TreeOf(v)];
      assert keys[i..] == [keys[i]];
    } else {
      var more := MemberTexts(keys, i + 1, tail) + rest;
      assert next == [0x2C] + more && next[1..] == more;
      ValueReads(v, next);
      MembersRead(keys, i + 1, tail, rest);
      assert keys[i..] == [keys[i]] + keys[i + 1..];
    }
    MembersStep(MemberTexts(keys, i, values) + rest, keys[i], after, TreeOf(v), next);
  }

  lemma BraceReads(t: seq<byte>)
    requires |t| > 1 && t[0] == 0x7B
    ensures t[1] == 0x7D ==> ReadValue(t) == Some(Got(ObjectTree([], []), t[2..]))
    ensures t[1] != 0x7D ==> ReadValue(t) == ReadMembers(t[1..])
  {
    hide ReadString, ReadItems, ReadMembers, NumberEnd, Proper;
  }

  lemma {:induction false} ObjectReads(v: J.Json, rest: seq<byte>)
    requires v.Object? && J.Sound(v) && Follows(rest)
    ensures ReadValue(J.Print(v) + rest) == Some(Got(TreeOf(v), rest))
    decreases v, 1
  {
    hide ReadValue, ReadMembers, ReadString, J.AllSound, J.PrintMembers, AsciiBytes, J.Quote, J.NumberText;
    AsciiAt("{", 0);
    assert AsciiBytes("{") == [0x7B];
    MembersPrint(v.keys, 0, v.values);
    var t := J.Print(v) + rest;
    assert J.Print(v) == [0x7B] + J.PrintMembers(v.keys, 0, v.values);
    assert t == [0x7B] + (J.PrintMembers(v.keys, 0, v.values) + rest);
    if v.values.Nil? {
      hide J.Print;
      assert t == [0x7B, 0x7D] + rest && t[2..] == rest;
      assert TreesOf(v.values) == [] && v.keys == [];
    } else {
      MembersRead(v.keys, 0, v.values, rest);
      StringReads(v.keys[0], []);
      hide J.Print;
      assert t[1..] == MemberTexts(v.keys, 0, v.values) + rest;
      assert t[1] == J.Quote(v.keys[0])[0];
      assert v.keys[0..] == v.keys;
    }
    BraceReads(t);
  }

  // Whatever bytes are rendered, the text reads by the grammar as the one document they hold.
  lemma RenderedReads(x: J.Source, t: seq<byte>) returns (v: J.Json)
    requires J.StoredJsonb(x) == Some(t)
    ensures J.Holds(x, v) && ReadValue(t) == Some(Got(TreeOf(v), []))
  {
    hide J.Holds, J.StoredJsonb, J.Print, J.Sound, ReadValue, TreeOf;
    v := J.RendersOnlyDocuments(x);
    J.DocumentSound(x, v);
    ValueReads(v, []);
    assert J.Print(v) + [] == J.Print(v);
  }
}
