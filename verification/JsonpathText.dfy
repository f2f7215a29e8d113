/** Fully bracketed text of SQL/JSON paths, read by their grammar into the nodes the evaluator knows. */
module JsonpathGrammar {
  import opened Bytes
  import opened JsonText

  // A node with what it points to.
  datatype Term = Term(kind: nat, text: seq<byte>, first: int, last: int, flags: nat, left: Option<Term>,
                       right: Option<Term>, next: Option<Term>)

  function Plain(kind: nat): Term { Term(kind, [], 0, 0, 0, None, None, None) }

  function TextTerm(kind: nat, text: seq<byte>): Term { Term(kind, text, 0, 0, 0, None, None, None) }

  function Over(kind: nat, left: Option<Term>, right: Option<Term>): Term { Term(kind, [], 0, 0, 0, left, right, None) }

  // -- Tokens -----------------------------------------------------------------------------------------------------

  function Token(t: seq<byte>, token: string, kind: nat): (r: Option<Got<nat>>)
    ensures r.Some? ==> |r.value.rest| == |t| - |token|
  {
    match Skip(t, token) case None => None case Some(rest) => Some(Got(kind, rest))
  }

  // An operator between two operands.
  function ReadOperator(t: seq<byte>): (r: Option<Got<nat>>)
    ensures r.Some? ==> |r.value.rest| < |t|
  {
    if |t| < 3 then None
    else if t[1] == 0x26 then Token(t, " && ", 33)
    else if t[1] == 0x7C then Token(t, " || ", 34)
    else if t[1] == 0x3D then Token(t, " == ", 27)
    else if t[1] == 0x21 then Token(t, " != ", 28)
    else if t[1] == 0x3C then if t[2] == 0x3D then Token(t, " <= ", 30) else Token(t, " < ", 29)
    else if t[1] == 0x3E then if t[2] == 0x3D then Token(t, " >= ", 32) else Token(t, " > ", 31)
    else if t[1] == 0x2B then Token(t, " + ", 22)
    else if t[1] == 0x2D then Token(t, " - ", 23)
    else if t[1] == 0x2A then Token(t, " * ", 24)
    else if t[1] == 0x2F then Token(t, " / ", 25)
    else if t[1] == 0x25 then Token(t, " % ", 26)
    else Token(t, " starts with ", 35)
  }

  // 100 and the place of the method's name among the keywords.
  function MethodKind(name: string): Option<nat>
  {
    match name
    case "abs" => Some(102) case "date" => Some(104) case "size" => Some(108) case "time" => Some(109)
    case "type" => Some(111) case "floor" => Some(114) case "bigint" => Some(115) case "double" => Some(116)
    case "number" => Some(118) case "string" => Some(121) case "boolean" => Some(122) case "ceiling" => Some(123)
    case "decimal" => Some(124) case "integer" => Some(125) case "time_tz" => Some(126) case "datetime" => Some(128)
    case "keyvalue" => Some(129) case "timestamp" => Some(130) case "timestamp_tz" => Some(132)
    case _ => None
  }

  predicate Letter(b: byte) { 0x61 <= b <= 0x7A || b == 0x5F }

  function Letters(t: seq<byte>): (n: nat)
    ensures n <= |t|
  {
    if t != [] && Letter(t[0]) then 1 + Letters(t[1..]) else 0
  }

  function Chars(b: seq<byte>): string { seq(|b|, i requires 0 <= i < |b| => b[i] as char) }

  function DigitsValue(b: seq<byte>): int
  {
    if b == [] then 0 else 10 * DigitsValue(b[..|b| - 1]) - 0x30 + b[|b| - 1]
  }

  // A level: a number, or the last one.
  function ReadLevel(t: seq<byte>): (r: Option<Got<int>>)
    ensures r.Some? ==> |r.value.rest| < |t|
  {
    if t != [] && t[0] == 0x6C then
      (match Skip(t, "last") case None => None case Some(rest) => Some(Got(-1, rest)))
    else
      var n := Digits(t);
      if n == 0 then None else Some(Got(DigitsValue(t[..n]), t[n..]))
  }

  // Each flag is one letter.
  function FlagOf(b: byte): Option<nat>
  {
    if b == 0x69 then Some(1) else if b == 0x73 then Some(2) else if b == 0x6D then Some(4)
    else if b == 0x78 then Some(8) else if b == 0x71 then Some(16) else None
  }

  function FlagsOf(b: seq<byte>): Option<nat>
  {
    if b == [] then Some(0)
    else
      var one, rest := FlagOf(b[0]), FlagsOf(b[1..]);
      if one.None? || rest.None? then None else Some(one.value + rest.value)
  }

  // -- The grammar ------------------------------------------------------------------------------------------------

  // An item and the accessors applied to it.
  function ReadPath(t: seq<byte>): (r: Option<Got<Term>>)
    ensures r.Some? ==> |r.value.rest| < |t|
    decreases |t|, 5
  {
    match ReadPrimary(t)
    case None => None
    case Some(head) =>
      match ReadChain(head.rest)
      case None => None
      case Some(chain) => Some(Got(head.value.(next := chain.value), chain.rest))
  }

  predicate StartsAccessor(t: seq<byte>) { t != [] && (t[0] == 0x2E || t[0] == 0x5B || t[0] == 0x3F) }

  function ReadChain(t: seq<byte>): (r: Option<Got<Option<Term>>>)
    ensures r.Some? ==> |r.value.rest| <= |t|
    decreases |t|, 4
  {
    if !StartsAccessor(t) then Some(Got(None, t))
    else match ReadAccessor(t)
      case None => None
      case Some(head) =>
        match ReadChain(head.rest)
        case None => None
        case Some(chain) => Some(Got(Some(head.value.(next := chain.value)), chain.rest))
  }

  // A path between two tokens.
  function ReadEnclosed(t: seq<byte>, kind: nat, open: string, close: string): (r: Option<Got<Term>>)
    requires open != ""
    ensures r.Some? ==> |r.value.rest| < |t|
    decreases |t|, 1
  {
    match Skip(t, open)
    case None => None
    case Some(inner) =>
      match ReadPath(inner)
      case None => None
      case Some(p) =>
        match Skip(p.rest, close) case None => None case Some(rest) => Some(Got(Over(kind, Some(p.value), None), rest))
  }

  function Keyword(t: seq<byte>, name: string, kind: nat): (r: Option<Got<Term>>)
    requires name != ""
    ensures r.Some? ==> |r.value.rest| < |t|
  {
    match Skip(t, name) case None => None case Some(rest) => Some(Got(Plain(kind), rest))
  }

  function Quoted(t: seq<byte>, kind: nat): (r: Option<Got<Term>>)
    ensures r.Some? ==> |r.value.rest| < |t|
  {
    match ReadString(t) case None => None case Some(s) => Some(Got(TextTerm(kind, s.value), s.rest))
  }

  function ReadPrimary(t: seq<byte>): (r: Option<Got<Term>>)
    ensures r.Some? ==> |r.value.rest| < |t|
    decreases |t|, 3
  {
    if t == [] then None
    else if t[0] == QUOTE then Quoted(t, 4)
    else if t[0] == 0x24 then
      if |t| > 1 && t[1] == QUOTE then Quoted(t[1..], 6) else Some(Got(Plain(1), t[1..]))
    else if t[0] == 0x40 then Some(Got(Plain(2), t[1..]))
    else if t[0] == 0x21 then ReadEnclosed(t, 18, "!(", ")")
    else if t[0] == 0x28 then ReadBracket(t)
    else if t[0] == 0x65 then ReadEnclosed(t, 17, "exists(", ")")
    else if t[0] == 0x6C then Keyword(t, "last", 3)
    else if t[0] == 0x6E then Keyword(t, "null", 7)
    else if t[0] == 0x74 then Keyword(t, "true", 8)
    else if t[0] == 0x66 then Keyword(t, "false", 9)
    else
      var n := NumberEnd(t);
      if n == 0 then None else Some(Got(TextTerm(5, t[..n]), t[n..]))
  }

  // What starts with a bracket: a sign before a bracket, or an operand and what follows it.
  function ReadBracket(t: seq<byte>): (r: Option<Got<Term>>)
    requires t != []
    ensures r.Some? ==> |r.value.rest| < |t|
    decreases |t|, 2
  {
    if |t| > 2 && t[2] == 0x28 && t[1] == 0x2B then ReadEnclosed(t, 20, "(+(", "))")
    else if |t| > 2 && t[2] == 0x28 && t[1] == 0x2D then ReadEnclosed(t, 21, "(-(", "))")
    else match ReadPath(t[1..]) case None => None case Some(a) => ReadAfter(a.value, a.rest)
  }

  // Behind the first operand: the closing bracket, an operator or a pattern. Only a number may stand alone in
  // brackets, and only a truth test may follow any other bracket.
  function ReadAfter(a: Term, t: seq<byte>): (r: Option<Got<Term>>)
    ensures r.Some? ==> |r.value.rest| < |t|
    decreases |t|, 6
  {
    if t == [] then None
    else if t[0] == 0x29 then
      var tested := Skip(t, ") is unknown");
      if tested.Some? then Some(Got(Over(19, Some(a), None), tested.value))
      else if a.kind == 5 && a.next.None? then Some(Got(a, t[1..])) else None
    else
      var pattern := Skip(t, " like_regex ");
      if pattern.Some? then ReadPattern(a, pattern.value) else ReadOperation(a, t)
  }

  function ReadOperation(a: Term, t: seq<byte>): (r: Option<Got<Term>>)
    ensures r.Some? ==> |r.value.rest| < |t|
    decreases |t|, 1
  {
    match ReadOperator(t)
    case None => None
    case Some(op) =>
      match ReadPath(op.rest)
      case None => None
      case Some(b) =>
        match Skip(b.rest, ")")
        case None => None
        case Some(rest) => Some(Got(Over(op.value, Some(a), Some(b.value)), rest))
  }

  function ReadPattern(a: Term, t: seq<byte>): (r: Option<Got<Term>>)
    ensures r.Some? ==> |r.value.rest| < |t|
  {
    match ReadString(t)
    case None => None
    case Some(s) =>
      match Skip(s.rest, " flag ")
      case None => None
      case Some(u) =>
        match ReadString(u)
        case None => None
        case Some(f) =>
          var flags, rest := FlagsOf(f.value), Skip(f.rest, ")");
          if flags.None? || rest.None? then None
          else Some(Got(Term(36, s.value, 0, 0, flags.value, Some(a), None, None), rest.value))
  }

  function ReadAccessor(t: seq<byte>): (r: Option<Got<Term>>)
    requires StartsAccessor(t)
    ensures r.Some? ==> |r.value.rest| < |t|
    decreases |t|, 3
  {
    if t[0] == 0x3F then ReadEnclosed(t, 16, "?(", ")")
    else if t[0] == 0x5B then
      if |t| > 1 && t[1] == 0x2A then Keyword(t, "[*]", 12)
      else
        (match ReadSubscripts(t[1..])
         case None => None
         case Some(s) => Some(Got(Over(13, Some(s.value), None), s.rest)))
    else if |t| < 2 then None
    else if t[1] == QUOTE then Quoted(t[1..], 10)
    else if t[1] == 0x2A then
      if |t| > 2 && t[2] == 0x2A then ReadLevels(t) else Some(Got(Plain(11), t[2..]))
    else ReadMethod(t[1..])
  }

  // Subscripts up to the closing bracket, each a path or a range between two.
  function ReadSubscripts(t: seq<byte>): (r: Option<Got<Term>>)
    ensures r.Some? ==> |r.value.rest| < |t|
    decreases |t|, 6
  {
    match ReadPath(t)
    case None => None
    case Some(a) =>
      match ReadUpper(a.rest)
      case None => None
      case Some(b) =>
        if b.rest == [] then None
        else if b.rest[0] == 0x5D then Some(Got(Over(14, Some(a.value), b.value), b.rest[1..]))
        else if b.rest[0] != 0x2C then None
        else match ReadSubscripts(b.rest[1..])
          case None => None
          case Some(more) => Some(Got(Over(14, Some(a.value), b.value).(next := Some(more.value)), more.rest))
  }

  function ReadUpper(t: seq<byte>): (r: Option<Got<Option<Term>>>)
    ensures r.Some? ==> |r.value.rest| <= |t|
    decreases |t|, 1
  {
    match Skip(t, " to ")
    case None => Some(Got(None, t))
    case Some(u) => (match ReadPath(u) case None => None case Some(b) => Some(Got(Some(b.value), b.rest)))
  }

  function ReadLevels(t: seq<byte>): (r: Option<Got<Term>>)
    ensures r.Some? ==> |r.value.rest| < |t|
  {
    match Skip(t, ".**{")
    case None => None
    case Some(u) =>
      match ReadLevel(u)
      case None => None
      case Some(first) =>
        match Skip(first.rest, " to ")
        case None => None
        case Some(v) =>
          match ReadLevel(v)
          case None => None
          case Some(last) =>
            match Skip(last.rest, "}")
            case None => None
            case Some(rest) => Some(Got(Term(15, [], first.value, last.value, 0, None, None, None), rest))
  }

  // A method's name and its arguments, none, one or two.
  function ReadMethod(t: seq<byte>): (r: Option<Got<Term>>)
    ensures r.Some? ==> |r.value.rest| < |t|
    decreases |t|, 1
  {
    var n := Letters(t);
    var kind := MethodKind(Chars(t[..n]));
    if kind.None? then None
    else match Skip(t[n..], "(") case None => None case Some(u) => ReadArguments(kind.value, u)
  }

  function ReadArguments(kind: nat, t: seq<byte>): (r: Option<Got<Term>>)
    ensures r.Some? ==> |r.value.rest| < |t|
    decreases |t|, 6
  {
    if t != [] && t[0] == 0x29 then Some(Got(Plain(kind), t[1..]))
    else match ReadPath(t)
      case None => None
      case Some(a) =>
        match ReadSecond(a.rest)
        case None => None
        case Some(b) =>
          match Skip(b.rest, ")")
          case None => None
          case Some(rest) => Some(Got(Over(kind, Some(a.value), b.value), rest))
  }

  function ReadSecond(t: seq<byte>): (r: Option<Got<Option<Term>>>)
    ensures r.Some? ==> |r.value.rest| <= |t|
    decreases |t|, 1
  {
    match Skip(t, ",")
    case None => Some(Got(None, t))
    case Some(u) => (match ReadPath(u) case None => None case Some(b) => Some(Got(Some(b.value), b.rest)))
  }
}

/** What the renderer of stored paths writes is read back: text and table that are captured say the same. */
module JsonpathText {
  import opened Bytes
  import opened Decimal
  import opened JsonText
  import opened JsonpathTable
  import opened JsonpathGrammar
  import opened Jsonpath
  import opened JsonpathUnfold
  import J = Jsonb
  import N = Numeric
  import S = JsonpathStored

  // -- Paths as terms ---------------------------------------------------------------------------------------------

  function TermOf(p: Path): Term
    decreases p
  {
    var next := if p.next.None? then None else Some(TermOf(p.next.value));
    ItemTerm(p, next)
  }

  // The item with the terms of its arguments, and what is applied to it.
  function ItemTerm(p: Path, next: Option<Term>): Term
    decreases p, 0
  {
    var d := p.detail;
    Term(PortableKind(p.kind, d), TextOf(d), if d.BoundsDetail? then d.first else 0,
         if d.BoundsDetail? then d.last else 0, if d.RegexDetail? then d.flags else 0,
         if p.kind == SUBSCRIPTS then SubscriptTerms(p.args) else ArgTerm(p.args),
         if p.kind == SUBSCRIPTS || p.args.NoArgs? then None else ArgTerm(p.args.rest), next)
  }

  function ArgTerm(args: Args): Option<Term>
    decreases args, 0
  {
    match args case Arg(Some(p), _) => Some(TermOf(p)) case _ => None
  }

  // Every two arguments are the bounds of one subscript.
  function SubscriptTerms(args: Args): Option<Term>
    decreases args, 1
  {
    match args
    case Arg(_, Arg(_, rest)) => Some(Over(14, ArgTerm(args), ArgTerm(args.rest)).(next := SubscriptTerms(rest)))
    case _ => None
  }

  // -- The table grows into the term ------------------------------------------------------------------------------

  // The entry at `index`, followed along its links, is the term.
  predicate Grows(nodes: seq<PathNode>, index: int, e: Term)
    decreases e
  {
    0 < index < |nodes| && nodes[index].kind == e.kind && nodes[index].text == e.text &&
    nodes[index].first == e.first && nodes[index].last == e.last && nodes[index].flags == e.flags &&
    LinkGrows(nodes, nodes[index].left, e.left) && LinkGrows(nodes, nodes[index].right, e.right) &&
    LinkGrows(nodes, nodes[index].next, e.next)
  }

  predicate LinkGrows(nodes: seq<PathNode>, link: int, e: Option<Term>)
    decreases e
  {
    match e case None => link == 0 case Some(x) => Grows(nodes, link, x)
  }

  lemma {:induction false} StandsGrows(nodes: seq<PathNode>, index: int, p: Path)
    requires Stands(nodes, index, p)
    ensures Grows(nodes, index, TermOf(p))
    decreases p
  {
    hide PortableKind, TextOf;
    var n := nodes[index];
    LinkStandsGrows(nodes, n.next, p.next);
    if p.kind == SUBSCRIPTS {
      EntriesGrow(nodes, n.left, p.args);
    } else {
      PairGrows(nodes, n.left, n.right, p.args);
    }
  }

  lemma {:induction false} LinkStandsGrows(nodes: seq<PathNode>, link: int, o: Option<Path>)
    requires LinkStands(nodes, link, o)
    ensures LinkGrows(nodes, link, if o.None? then None else Some(TermOf(o.value)))
    decreases o
  {
    hide Stands, Grows, TermOf;
    if o.Some? { StandsGrows(nodes, link, o.value); }
  }

  lemma {:induction false} PairGrows(nodes: seq<PathNode>, left: int, right: int, args: Args)
    requires PairStands(nodes, left, right, args)
    ensures LinkGrows(nodes, left, ArgTerm(args))
    ensures LinkGrows(nodes, right, if args.NoArgs? then None else ArgTerm(args.rest))
    decreases args
  {
    hide Stands, Grows, TermOf, LinkStands, LinkGrows;
    NoLink(nodes);
    if args.Arg? {
      LinkStandsGrows(nodes, left, args.first);
      if args.rest.Arg? { LinkStandsGrows(nodes, right, args.rest.first); }
    }
  }

  lemma NoLink(nodes: seq<PathNode>)
    ensures LinkGrows(nodes, 0, None)
  {
  }

  lemma {:induction false} EntriesGrow(nodes: seq<PathNode>, link: int, args: Args)
    requires EntriesStand(nodes, link, args)
    ensures LinkGrows(nodes, link, SubscriptTerms(args))
    decreases args
  {
    hide Stands, TermOf, LinkStands;
    if args.Arg? && args.rest.Arg? {
      LinkStandsGrows(nodes, nodes[link].left, args.first);
      LinkStandsGrows(nodes, nodes[link].right, args.rest.first);
      EntriesGrow(nodes, nodes[link].next, args.rest.rest);
    }
  }

  // -- The text of a path, item by item ---------------------------------------------------------------------------

  function HeadOfItem(p: Path): Option<seq<byte>>
  {
    match PrintArgs(p.args)
    case None => None
    case Some(texts) => HeadText(p.kind, p.detail, p.next.Some?, texts)
  }

  // The text of an item and of what is applied to it. Only accessors are applied to something.
  function ChainText(p: Path, root: bool): Option<seq<byte>>
    decreases p
  {
    var head := HeadOfItem(p);
    if head.None? || root == IsAccessor(p.kind) then None
    else if p.next.None? then head
    else match ChainText(p.next.value, false) case None => None case Some(rest) => Some(head.value + rest)
  }

  lemma HeadNotEmpty(p: Path)
    requires FitsDetail(p.kind, p.detail) && HeadOfItem(p).Some?
    ensures HeadOfItem(p).value != []
  {
    hide PrintArgs, AsciiBytes, J.Escaped, SubscriptTexts, Written, FlagText, BoundText, ValidUtf8, Method,
      ArgumentMethod, Operator;
    if p.kind == 2 { NumberNotEmpty(p.detail.number); }
  }

  lemma NumberNotEmpty(t: string)
    requires DecimalPattern(t)
    ensures t != ""
  {
  }

  lemma {:induction false} PrintIsChain(p: Path, prefix: seq<byte>)
    requires Formed(p)
    ensures Print(p, prefix) ==
      match ChainText(p, prefix == []) case None => None case Some(t) => Some(prefix + t)
    decreases p
  {
    hide HeadText, PrintArgs, FitsDetail, FitsArgs, IsKnown, FormedArgs, IsAccessor, HeadOfItem, ChainText, Print;
    FormedParts(p);
    ChainStep(p, prefix == []);
    PrintChained(p, prefix);
    var head := HeadOfItem(p);
    if head.Some? && (prefix != []) == IsAccessor(p.kind) && p.next.Some? {
      HeadNotEmpty(p);
      PrintIsChain(p.next.value, prefix + head.value);
      var rest := ChainText(p.next.value, false);
      if rest.Some? { assert prefix + head.value + rest.value == prefix + (head.value + rest.value); }
    }
  }

  lemma ChainStep(p: Path, root: bool)
    ensures ChainText(p, root) ==
      var head := HeadOfItem(p);
      if head.None? || root == IsAccessor(p.kind) then None
      else if p.next.None? then head
      else match ChainText(p.next.value, false) case None => None case Some(rest) => Some(head.value + rest)
  {
    hide HeadOfItem, IsAccessor;
  }

  lemma PrintChained(p: Path, prefix: seq<byte>)
    ensures Print(p, prefix) ==
      var head := HeadOfItem(p);
      if head.None? || (prefix != []) != IsAccessor(p.kind) then None
      else if p.next.None? then Some(prefix + head.value)
      else Print(p.next.value, prefix + head.value)
  {
    hide HeadText, PrintArgs, IsAccessor;
  }

  // -- Reading one item -------------------------------------------------------------------------------------------

  // What may follow a path: a closing bracket, a comma, a space, or nothing.
  predicate Stops(rest: seq<byte>)
  {
    rest != [] ==> rest[0] == 0x29 || rest[0] == 0x5D || rest[0] == 0x2C || rest[0] == 0x20
  }

  // The text of an argument is read as the argument, whatever may follow it.
  ghost predicate ReadsBack(o: Option<Path>)
  {
    o.Some? && ChainText(o.value, true).Some? ==>
      forall rest :: Stops(rest) ==>
        ReadPath(ChainText(o.value, true).value + rest) == Some(Got(TermOf(o.value), rest))
  }

  ghost predicate AllReadBack(args: Args)
    decreases args
  {
    match args
    case NoArgs => true
    case Arg(first, rest) => ReadsBack(first) && (first.Some? ==> Formed(first.value)) && AllReadBack(rest)
  }

  // The text of the first argument, which reads as that argument.
  lemma FirstText(args: Args)
    requires args.Arg? && AllReadBack(args) && PrintArgs(args).Some?
    ensures var text := PrintArgs(args).value[0];
      PrintArgs(args.rest).Some? && PrintArgs(args).value == [text] + PrintArgs(args.rest).value &&
      (text.Some? <==> args.first.Some?) &&
      (text.Some? ==> ChainText(args.first.value, true) == text && ArgTerm(args) == Some(TermOf(args.first.value))) &&
      (text.None? ==> ArgTerm(args) == None) && AllReadBack(args.rest)
  {
    hide Print, ChainText, TermOf;
    if args.first.Some? {
      PrintIsChain(args.first.value, []);
      var c := ChainText(args.first.value, true);
      if c.Some? { assert [] + c.value == c.value; }
    }
  }

  lemma ArgumentReads(args: Args, text: seq<byte>, rest: seq<byte>)
    requires args.Arg? && args.first.Some? && ReadsBack(args.first) && ChainText(args.first.value, true) == Some(text)
    requires Stops(rest)
    ensures ReadPath(text + rest) == Some(Got(TermOf(args.first.value), rest))
  {
    hide ReadPath, TermOf, ChainText;
  }

  lemma Enclosed(kind: nat, open: string, close: string, text: seq<byte>, e: Term, rest: seq<byte>)
    requires open != "" && ReadPath(text + (AsciiBytes(close) + rest)) == Some(Got(e, AsciiBytes(close) + rest))
    ensures ReadEnclosed(AsciiBytes(open) + text + AsciiBytes(close) + rest, kind, open, close) ==
      Some(Got(Over(kind, Some(e), None), rest))
  {
    hide ReadPath, AsciiBytes, Skip;
    var inner := text + (AsciiBytes(close) + rest);
    assert AsciiBytes(open) + text + AsciiBytes(close) + rest == AsciiBytes(open) + inner;
    SkipsToken(open, inner);
    SkipsToken(close, rest);
  }

  lemma FirstByte(token: string, rest: seq<byte>)
    requires token != "" && token[0] < 128 as char
    ensures (AsciiBytes(token) + rest)[0] == token[0] as int
  {
    AsciiAt(token, 0);
  }

  // Where an item's text leads the reader, by its first byte.
  lemma Dispatch(t: seq<byte>)
    requires t != []
    ensures t[0] == 0x21 ==> ReadPrimary(t) == ReadEnclosed(t, 18, "!(", ")")
    ensures t[0] == 0x65 ==> ReadPrimary(t) == ReadEnclosed(t, 17, "exists(", ")")
    ensures t[0] == 0x28 ==> ReadPrimary(t) == ReadBracket(t)
    ensures t[0] == 0x6C ==> ReadPrimary(t) == Keyword(t, "last", 3)
    ensures t[0] == 0x6E ==> ReadPrimary(t) == Keyword(t, "null", 7)
    ensures t[0] == 0x74 ==> ReadPrimary(t) == Keyword(t, "true", 8)
    ensures t[0] == 0x66 ==> ReadPrimary(t) == Keyword(t, "false", 9)
    ensures t[0] == 0x40 ==> ReadPrimary(t) == Some(Got(Plain(2), t[1..]))
    ensures t[0] == QUOTE ==> ReadPrimary(t) == Quoted(t, 4)
    ensures t[0] == 0x24 ==>
      ReadPrimary(t) == if |t| > 1 && t[1] == QUOTE then Quoted(t[1..], 6) else Some(Got(Plain(1), t[1..]))
    ensures (t[0] == 0x2D || Digit(t[0])) && NumberEnd(t) > 0 ==>
      ReadPrimary(t) == Some(Got(TextTerm(5, t[..NumberEnd(t)]), t[NumberEnd(t)..]))
  {
    hide ReadEnclosed, ReadBracket, Keyword, Quoted, NumberEnd;
  }

  lemma KeywordReads(name: string, kind: nat, rest: seq<byte>)
    requires (name, kind) in {("last", 3), ("null", 7), ("true", 8), ("false", 9)}
    ensures ReadPrimary(AsciiBytes(name) + rest) == Some(Got(Plain(kind), rest))
  {
    hide ReadPrimary, AsciiBytes, Skip;
    FirstByte(name, rest);
    Dispatch(AsciiBytes(name) + rest);
    SkipsToken(name, rest);
  }

  // What may follow the text of an item: an accessor if one is applied, and otherwise what may follow a path.
  predicate Continues(p: Path, rest: seq<byte>)
  {
    if p.next.Some? then StartsAccessor(rest) else Stops(rest)
  }

  lemma ConstantReads(p: Path, rest: seq<byte>)
    requires p.kind == 0 || p.kind == 3 || p.kind == 40 || p.kind == 26 || p.kind == 27
    requires FitsDetail(p.kind, p.detail) && p.args.NoArgs? && HeadOfItem(p).Some? && Continues(p, rest)
    ensures ReadPrimary(HeadOfItem(p).value + rest) == Some(Got(ItemTerm(p, None), rest))
  {
    hide ReadPrimary, AsciiBytes, ItemTerm, HeadOfItem;
    ConstantHead(p);
    ConstantTerm(p);
    var name := ConstantText(p);
    if p.kind == 26 || p.kind == 27 {
      FirstByte(name, rest);
      Dispatch(AsciiBytes(name) + rest);
      assert (AsciiBytes(name) + rest)[1..] == rest;
    } else {
      KeywordReads(name, ConstantKind(p), rest);
    }
  }

  function ConstantText(p: Path): string
  {
    if p.kind == 0 then "null" else if p.kind == 40 then "last" else if p.kind == 26 then "@"
    else if p.kind == 27 then "$" else if p.detail == BoolDetail(true) then "true" else "false"
  }

  function ConstantKind(p: Path): nat
  {
    if p.kind == 0 then 7 else if p.kind == 40 then 3 else if p.kind == 26 then 2
    else if p.kind == 27 then 1 else if p.detail == BoolDetail(true) then 8 else 9
  }

  lemma ConstantHead(p: Path)
    requires p.kind == 0 || p.kind == 3 || p.kind == 40 || p.kind == 26 || p.kind == 27
    requires p.args.NoArgs?
    ensures HeadOfItem(p) == Some(AsciiBytes(ConstantText(p)))
  {
    hide AsciiBytes, J.Quote, SubscriptTexts, FlagText, BoundText, Written;
  }

  lemma ConstantTerm(p: Path)
    requires p.kind == 0 || p.kind == 3 || p.kind == 40 || p.kind == 26 || p.kind == 27
    requires FitsDetail(p.kind, p.detail) && p.args.NoArgs?
    ensures ItemTerm(p, None) == Plain(ConstantKind(p))
  {
    hide AsciiBytes;
  }

  lemma QuotedReads(kind: nat, s: seq<byte>, rest: seq<byte>)
    ensures Quoted(J.Quote(s) + rest, kind) == Some(Got(TextTerm(kind, s), rest))
    ensures (J.Quote(s) + rest)[0] == QUOTE
  {
    hide JsonText.ReadString, J.Quote;
    StringReads(s, rest);
  }

  lemma TextItemReads(p: Path, rest: seq<byte>)
    requires p.kind == 1 || p.kind == 28
    requires FitsDetail(p.kind, p.detail) && p.args.NoArgs? && HeadOfItem(p).Some?
    ensures ReadPrimary(HeadOfItem(p).value + rest) == Some(Got(ItemTerm(p, None), rest))
  {
    hide ReadPrimary, AsciiBytes, J.Quote, Quoted, ValidUtf8;
    var s := p.detail.text;
    if p.kind == 1 {
      assert AsciiBytes("") + J.Quote(s) == J.Quote(s);
      QuotedReads(4, s, rest);
      Dispatch(J.Quote(s) + rest);
    } else {
      var t := AsciiBytes("$") + J.Quote(s) + rest;
      assert t == AsciiBytes("$") + (J.Quote(s) + rest);
      FirstByte("$", J.Quote(s) + rest);
      QuotedReads(6, s, rest);
      assert t[1..] == J.Quote(s) + rest && t[1] == (J.Quote(s) + rest)[0];
      Dispatch(t);
    }
  }

  // -- Numbers --

  lemma DecimalShape(t: string) returns (negative: bool, whole: string, fraction: string)
    requires DecimalPattern(t)
    ensures t == (if negative then "-" else "") + (whole + N.Pointed(fraction))
    ensures AllDigits(whole) && whole != "" && AllDigits(fraction)
  {
    hide J.LeadingDigits;
    negative := t != "" && t[0] == '-';
    var u := if negative then t[1..] else t;
    var n := J.LeadingDigits(u);
    LeadingAreDigits(u);
    whole, fraction := u[..n], if n == |u| then "" else u[n + 1..];
    SplitAtPoint(u, n);
    hide DecimalPattern, N.Pointed, AllDigits;
    assert t == (if negative then "-" else "") + u;
  }

  lemma SplitAtPoint(u: string, n: nat)
    requires n <= |u| && (n < |u| ==> u[n] == '.' && n + 1 < |u|)
    ensures u == u[..n] + N.Pointed(if n == |u| then "" else u[n + 1..])
  {
    if n == |u| { assert u[..n] == u; }
  }

  lemma {:induction false} LeadingAreDigits(u: string)
    ensures AllDigits(u[..J.LeadingDigits(u)])
    decreases |u|
  {
    if u != "" && IsDigit(u[0]) {
      LeadingAreDigits(u[1..]);
      var n := J.LeadingDigits(u[1..]);
      assert u[..n + 1] == [u[0]] + u[1..][..n];
    }
  }

  // A number's text is read to its end when neither digit nor point follows.
  lemma DecimalReads(number: string, rest: seq<byte>)
    requires DecimalPattern(number) && (rest != [] ==> !Digit(rest[0]) && rest[0] != 0x2E)
    ensures ReadPrimary(AsciiBytes(number) + rest) == Some(Got(TextTerm(5, AsciiBytes(number)), rest))
    ensures AsciiBytes(number) != [] && AsciiBytes(number)[0] != 0x2B
    ensures AsciiBytes(number)[0] == 0x2D ==> |number| > 1 && Digit(AsciiBytes(number)[1])
  {
    hide DecimalPattern, ReadPrimary, N.Pointed, NumberEnd, AllDigits;
    var negative, whole, fraction := DecimalShape(number);
    NumberReads(negative, whole, fraction, rest);
    var b := AsciiBytes(number);
    hide AsciiBytes;
    assert (b + rest)[..|b|] == b && (b + rest)[|b|..] == rest && (b + rest)[0] == b[0];
    Dispatch(b + rest);
    if b[0] == 0x2D { SecondIsDigit(negative, whole, N.Pointed(fraction)); }
  }

  lemma SecondIsDigit(negative: bool, whole: string, more: string)
    requires AllDigits(whole) && whole != ""
    ensures var s := (if negative then "-" else "") + (whole + more);
      AsciiBytes(s)[0] == 0x2D ==> |s| > 1 && Digit(AsciiBytes(s)[1])
  {
    var s := (if negative then "-" else "") + (whole + more);
    assert IsDigit(whole[0]);
    assert s[if negative then 1 else 0] == whole[0];
    AsciiAt(s, 0);
    if negative { AsciiAt(s, 1); }
    hide AsciiBytes;
  }

  // A number that something is applied to stands in brackets.
  lemma BracketedReads(number: string, rest: seq<byte>)
    requires DecimalPattern(number) && StartsAccessor(rest)
    ensures ReadPrimary(AsciiBytes("(") + AsciiBytes(number) + AsciiBytes(")") + rest) ==
      Some(Got(TextTerm(5, AsciiBytes(number)), rest))
  {
    hide ReadPrimary, DecimalPattern, AsciiBytes, ReadPath, ReadAfter, ReadBracket;
    var b, after := AsciiBytes(number), AsciiBytes(")") + rest;
    FirstByte(")", rest);
    DecimalReads(number, after);
    var t := AsciiBytes("(") + b + AsciiBytes(")") + rest;
    assert t == AsciiBytes("(") + (b + after);
    FirstByte("(", b + after);
    assert t[1..] == b + after && (b + after)[0] == b[0] && (|b| > 1 ==> (b + after)[1] == b[1]);
    Dispatch(t);
    NotSigned(t, b + after);
    NumberAlone(TextTerm(5, b), rest);
    PlainReads(b + after, TextTerm(5, b), after);
  }

  // In brackets, an operand unless it is a sign before another bracket.
  lemma NotSigned(t: seq<byte>, inner: seq<byte>)
    requires |t| > 1 && t[1..] == inner && inner != []
    requires inner[0] != 0x2B && (inner[0] == 0x2D ==> |inner| > 1 && inner[1] != 0x28)
    ensures ReadBracket(t) == match ReadPath(inner) case None => None case Some(a) => ReadAfter(a.value, a.rest)
  {
    hide ReadPath, ReadAfter, ReadEnclosed;
    assert t[1] == inner[0] && (|t| > 2 ==> t[2] == inner[1]);
  }

  lemma PlainReads(t: seq<byte>, e: Term, rest: seq<byte>)
    requires ReadPrimary(t) == Some(Got(e, rest)) && !StartsAccessor(rest) && e.next.None?
    ensures ReadPath(t) == Some(Got(e, rest))
  {
    hide ReadPrimary, ReadAccessor;
    assert e.(next := None) == e;
  }

  lemma NumberAlone(e: Term, rest: seq<byte>)
    requires e.kind == 5 && e.next.None? && StartsAccessor(rest)
    ensures ReadAfter(e, AsciiBytes(")") + rest) == Some(Got(e, rest))
  {
    hide ReadPattern, ReadOperation, Skip, AsciiBytes;
    var t := AsciiBytes(")") + rest;
    FirstByte(")", rest);
    assert t[1] == rest[0] && t[1..] == rest;
    SkipsNot(t, ") is unknown", 1);
  }

  lemma NumberItemReads(p: Path, rest: seq<byte>)
    requires p.kind == 2 && FitsDetail(p.kind, p.detail) && p.args.NoArgs? && HeadOfItem(p).Some? && Continues(p, rest)
    ensures ReadPrimary(HeadOfItem(p).value + rest) == Some(Got(ItemTerm(p, None), rest))
  {
    hide ReadPrimary, AsciiBytes, DecimalPattern;
    if p.next.Some? {
      BracketedReads(p.detail.number, rest);
    } else {
      DecimalReads(p.detail.number, rest);
    }
  }

  // -- Operators --

  lemma TokenReads(token: string, kind: nat, rest: seq<byte>)
    requires |token| > 2 && token[0] < 128 as char && token[1] < 128 as char && token[2] < 128 as char
    ensures var t := AsciiBytes(token) + rest;
      Token(t, token, kind) == Some(Got(kind, rest)) && |t| >= 3 &&
      t[0] == token[0] as int && t[1] == token[1] as int && t[2] == token[2] as int
  {
    AsciiAt(token, 0);
    AsciiAt(token, 1);
    AsciiAt(token, 2);
    hide AsciiBytes, Skip;
    SkipsToken(token, rest);
  }

  // Which token an operator's second and third byte announce.
  lemma OperatorStarts(t: seq<byte>)
    requires |t| >= 3
    ensures t[1] == 0x26 ==> ReadOperator(t) == Token(t, " && ", 33)
    ensures t[1] == 0x7C ==> ReadOperator(t) == Token(t, " || ", 34)
    ensures t[1] == 0x3D ==> ReadOperator(t) == Token(t, " == ", 27)
    ensures t[1] == 0x21 ==> ReadOperator(t) == Token(t, " != ", 28)
    ensures t[1] == 0x3C ==> ReadOperator(t) == if t[2] == 0x3D then Token(t, " <= ", 30) else Token(t, " < ", 29)
    ensures t[1] == 0x3E ==> ReadOperator(t) == if t[2] == 0x3D then Token(t, " >= ", 32) else Token(t, " > ", 31)
    ensures t[1] == 0x2B ==> ReadOperator(t) == Token(t, " + ", 22)
    ensures t[1] == 0x2D ==> ReadOperator(t) == Token(t, " - ", 23)
    ensures t[1] == 0x2A ==> ReadOperator(t) == Token(t, " * ", 24)
    ensures t[1] == 0x2F ==> ReadOperator(t) == Token(t, " / ", 25)
    ensures t[1] == 0x25 ==> ReadOperator(t) == Token(t, " % ", 26)
    ensures t[1] == 0x73 ==> ReadOperator(t) == Token(t, " starts with ", 35)
  {
    hide Token;
  }

  // The tokens of the grammar.
  function OperatorToken(k: nat): string
  {
    match k
    case 4 => " && " case 5 => " || " case 8 => " == " case 9 => " != " case 10 => " < " case 11 => " > "
    case 12 => " <= " case 13 => " >= " case 14 => " + " case 15 => " - " case 16 => " * " case 17 => " / "
    case 18 => " % " case _ => " starts with "
  }

  lemma OperatorSpaced(k: nat)
    requires IsBinary(k)
    ensures " " + Operator(k) + " " == OperatorToken(k)
  {
  }

  lemma SpacedReads(k: nat, rest: seq<byte>)
    requires IsBinary(k)
    ensures var t := AsciiBytes(OperatorToken(k)) + rest;
      ReadOperator(t) == Some(Got(PortableKind(k, NoDetail), rest)) && |t| >= 3 && t[0] == 0x20 && t[1] != 0x6C
  {
    hide Token, AsciiBytes, ReadOperator;
    var token := OperatorToken(k);
    TokenReads(token, PortableKind(k, NoDetail), rest);
    OperatorStarts(AsciiBytes(token) + rest);
  }

  lemma OperatorReads(k: nat, rest: seq<byte>)
    requires IsBinary(k)
    ensures var t := AsciiBytes(" " + Operator(k) + " ") + rest;
      ReadOperator(t) == Some(Got(PortableKind(k, NoDetail), rest)) && Skip(t, " like_regex ").None? &&
      t != [] && t[0] == 0x20
  {
    OperatorSpaced(k);
    SpacedReads(k, rest);
    hide AsciiBytes, Operator, OperatorToken, ReadOperator, PortableKind, Skip;
    SkipsNot(AsciiBytes(OperatorToken(k)) + rest, " like_regex ", 1);
  }

  // -- How the text of a path starts --

  // Neither with a closing bracket or a star, nor with a sign before a bracket.
  predicate Opens(t: seq<byte>)
  {
    t != [] && t[0] != 0x29 && t[0] != 0x2A && t[0] != 0x2B && (t[0] == 0x2D ==> |t| > 1 && t[1] != 0x28)
  }

  lemma BracketOpens(p: Path)
    requires IsBinary(p.kind) || p.kind == 7 || p.kind == 19 || p.kind == 20 || p.kind == 42
    requires HeadOfItem(p).Some?
    ensures HeadOfItem(p).value != [] && HeadOfItem(p).value[0] == 0x28
  {
    hide PrintArgs, AsciiBytes, J.Quote, SubscriptTexts, Written, FlagText, BoundText, Method, ArgumentMethod, Operator;
    AsciiAt("(", 0);
    AsciiAt("(+(", 0);
    AsciiAt("(-(", 0);
    NotBinary();
    NoMethod();
  }

  lemma NoMethod()
    ensures Method(42) == "" && ArgumentMethod(42) == ""
  {
  }

  lemma WordOpens(p: Path)
    requires p.kind == 0 || p.kind == 3 || p.kind == 6 || p.kind == 26 || p.kind == 27 || p.kind == 30 || p.kind == 40
    requires HeadOfItem(p).Some?
    ensures Opens(HeadOfItem(p).value)
  {
    hide PrintArgs, AsciiBytes, J.Quote, SubscriptTexts, Written, FlagText, BoundText, Method, ArgumentMethod;
    if p.kind == 0 {
      AsciiAt("null", 0);
    } else if p.kind == 3 {
      AsciiAt("true", 0);
      AsciiAt("false", 0);
    } else if p.kind == 6 {
      AsciiAt("!(", 0);
    } else if p.kind == 26 {
      AsciiAt("@", 0);
    } else if p.kind == 27 {
      AsciiAt("$", 0);
    } else if p.kind == 30 {
      AsciiAt("exists(", 0);
    } else {
      AsciiAt("last", 0);
    }
  }

  lemma TextOpens(p: Path)
    requires p.kind == 1 || p.kind == 2 || p.kind == 28
    requires FitsDetail(p.kind, p.detail) && HeadOfItem(p).Some?
    ensures Opens(HeadOfItem(p).value)
  {
    hide PrintArgs, AsciiBytes, J.Quote, SubscriptTexts, Written, FlagText, BoundText, Method, ArgumentMethod,
      DecimalPattern, ReadPrimary, ValidUtf8;
    if p.kind == 2 {
      AsciiAt("(", 0);
      DecimalReads(p.detail.number, []);
      DecimalStarts(p.detail.number);
    } else {
      AsciiAt("$", 0);
      assert AsciiBytes("") == [];
      QuotedReads(4, p.detail.text, []);
      assert J.Quote(p.detail.text) + [] == J.Quote(p.detail.text);
    }
  }

  lemma DecimalStarts(number: string)
    requires DecimalPattern(number)
    ensures number != "" && (AsciiBytes(number)[0] == 0x2D || Digit(AsciiBytes(number)[0]))
  {
    hide DecimalPattern, N.Pointed, NumberEnd, AllDigits, AsciiBytes;
    var negative, whole, fraction := DecimalShape(number);
    NumberReads(negative, whole, fraction, []);
  }

  lemma PathOpens(p: Path)
    requires Formed(p) && ChainText(p, true).Some?
    ensures Opens(ChainText(p, true).value)
  {
    hide HeadOfItem, FitsDetail, FitsArgs, IsKnown, FormedArgs, IsAccessor, Opens;
    FormedParts(p);
    ChainStep(p, true);
    var head := HeadOfItem(p).value;
    HeadOpens(p);
    if p.next.Some? { OpensMore(head, ChainText(p.next.value, false).value); }
  }

  lemma OpensMore(t: seq<byte>, more: seq<byte>)
    requires Opens(t)
    ensures Opens(t + more)
  {
  }

  lemma HeadOpens(p: Path)
    requires IsKnown(p.kind) && FitsDetail(p.kind, p.detail) && !IsAccessor(p.kind) && HeadOfItem(p).Some?
    ensures Opens(HeadOfItem(p).value)
  {
    hide HeadOfItem, FitsDetail, Method, ArgumentMethod, Operator;
    if p.kind == 1 || p.kind == 2 || p.kind == 28 {
      TextOpens(p);
    } else if IsBinary(p.kind) || p.kind == 7 || p.kind == 19 || p.kind == 20 || p.kind == 42 {
      BracketOpens(p);
    } else {
      WordOpens(p);
    }
  }

  // -- Items with arguments --

  lemma BinaryReads(p: Path, rest: seq<byte>)
    requires IsBinary(p.kind) && p.args.Arg? && p.args.first.Some? && p.args.rest.Arg? && p.args.rest.first.Some?
    requires FitsDetail(p.kind, p.detail) && FitsArgs(p.kind, Count(p.args)) && AllReadBack(p.args)
    requires HeadOfItem(p).Some?
    ensures ReadPrimary(HeadOfItem(p).value + rest) == Some(Got(ItemTerm(p, None), rest))
  {
    hide ReadPrimary, ReadPath, AsciiBytes, ReadsBack, AllReadBack, ChainText, TermOf, PortableKind, HeadOfItem, Formed,
      ReadBracket, ReadAfter, FitsDetail, FitsArgs, IsBinary;
    var a, b := BinaryTexts(p);
    var op := AsciiBytes(" " + Operator(p.kind) + " ");
    var closed := AsciiBytes(")") + rest;
    var after := op + (b + closed);
    var t := AsciiBytes("(") + a + op + b + AsciiBytes(")") + rest;
    assert t == AsciiBytes("(") + (a + after);
    BinaryHead(p, a, b);
    FirstByte("(", a + after);
    FirstByte(")", rest);
    OperatorReads(p.kind, b + closed);
    PathOpens(p.args.first.value);
    ArgumentReads(p.args, a, after);
    ArgumentReads(p.args.rest, b, closed);
    assert t[1..] == a + after;
    OpensMore(a, after);
    NotSigned(t, a + after);
    Dispatch(t);
    OperationReads(TermOf(p.args.first.value), op, b, TermOf(p.args.rest.first.value), PortableKind(p.kind, NoDetail),
                   rest);
    BinaryTerm(p);
  }

  lemma BinaryTexts(p: Path) returns (a: seq<byte>, b: seq<byte>)
    requires IsBinary(p.kind) && p.args.Arg? && p.args.first.Some? && p.args.rest.Arg? && p.args.rest.first.Some?
    requires AllReadBack(p.args) && HeadOfItem(p).Some?
    ensures Formed(p.args.first.value) && Formed(p.args.rest.first.value)
    ensures ReadsBack(p.args.first) && ReadsBack(p.args.rest.first)
    ensures ChainText(p.args.first.value, true) == Some(a) && ChainText(p.args.rest.first.value, true) == Some(b)
    ensures PrintArgs(p.args).Some? && |PrintArgs(p.args).value| >= 2
    ensures PrintArgs(p.args).value[0] == Some(a) && PrintArgs(p.args).value[1] == Some(b)
  {
    hide ReadsBack, ChainText, TermOf, HeadText, Formed;
    FirstText(p.args);
    FirstText(p.args.rest);
    a, b := PrintArgs(p.args).value[0].value, PrintArgs(p.args.rest).value[0].value;
  }

  lemma BinaryHead(p: Path, a: seq<byte>, b: seq<byte>)
    requires IsBinary(p.kind) && PrintArgs(p.args).Some? && |PrintArgs(p.args).value| >= 2
    requires PrintArgs(p.args).value[0] == Some(a) && PrintArgs(p.args).value[1] == Some(b)
    ensures HeadOfItem(p) ==
      Some(AsciiBytes("(") + a + AsciiBytes(" " + Operator(p.kind) + " ") + b + AsciiBytes(")"))
  {
    hide PrintArgs, AsciiBytes, J.Quote, SubscriptTexts, FlagText, BoundText, Method, ArgumentMethod, Operator;
    NotBinary();
  }

  lemma NotBinary()
    ensures forall k :: k == 0 || IsText(k) || k == 2 || k == 3 ==> Operator(k) == ""
  {
  }

  lemma OperationReads(a: Term, op: seq<byte>, text: seq<byte>, b: Term, kind: nat, rest: seq<byte>)
    requires var t := op + (text + (AsciiBytes(")") + rest));
      t != [] && t[0] == 0x20 && Skip(t, " like_regex ").None? &&
      ReadOperator(t) == Some(Got(kind, text + (AsciiBytes(")") + rest)))
    requires ReadPath(text + (AsciiBytes(")") + rest)) == Some(Got(b, AsciiBytes(")") + rest))
    ensures ReadAfter(a, op + (text + (AsciiBytes(")") + rest))) == Some(Got(Over(kind, Some(a), Some(b)), rest))
  {
    hide ReadPath, Skip, AsciiBytes, ReadOperator, ReadPattern;
    SkipsToken(")", rest);
  }

  lemma BinaryTerm(p: Path)
    requires IsBinary(p.kind) && p.args.Arg? && p.args.first.Some? && p.args.rest.Arg? && p.args.rest.first.Some?
    requires FitsDetail(p.kind, p.detail)
    ensures ItemTerm(p, None) == Over(PortableKind(p.kind, NoDetail), Some(TermOf(p.args.first.value)),
                                      Some(TermOf(p.args.rest.first.value)))
  {
    hide TermOf, PortableKind;
  }

  // An item around one argument: the text of the argument and what stands in front of it and behind it.
  lemma OneText(p: Path) returns (a: seq<byte>)
    requires p.args.Arg? && p.args.first.Some? && AllReadBack(p.args) && HeadOfItem(p).Some?
    ensures Formed(p.args.first.value) && ReadsBack(p.args.first) && ChainText(p.args.first.value, true) == Some(a)
    ensures PrintArgs(p.args).Some? && |PrintArgs(p.args).value| > 0 && PrintArgs(p.args).value[0] == Some(a)
    ensures ArgTerm(p.args) == Some(TermOf(p.args.first.value))
  {
    hide ReadsBack, ChainText, TermOf, HeadText, Formed;
    FirstText(p.args);
    a := PrintArgs(p.args).value[0].value;
  }

  function Open(k: nat): string
  {
    match k
    case 6 => "!(" case 30 => "exists(" case 19 => "(+(" case 20 => "(-(" case 29 => "?(" case _ => "("
  }

  function Close(k: nat): string
  {
    match k
    case 19 => "))" case 20 => "))" case 7 => ") is unknown" case _ => ")"
  }

  lemma UnaryHead(p: Path, a: seq<byte>)
    requires IsUnary(p.kind) && PrintArgs(p.args).Some? && |PrintArgs(p.args).value| > 0
    requires PrintArgs(p.args).value[0] == Some(a)
    ensures HeadOfItem(p) == Some(AsciiBytes(Open(p.kind)) + a + AsciiBytes(Close(p.kind)))
  {
    hide PrintArgs, AsciiBytes, J.Quote, SubscriptTexts, FlagText, BoundText, Method, ArgumentMethod;
  }

  lemma UnaryTerm(p: Path)
    requires IsUnary(p.kind) && p.args.Arg? && p.args.first.Some? && p.args.rest.NoArgs? && p.detail.NoDetail?
    ensures ItemTerm(p, None) == Over(PortableKind(p.kind, NoDetail), Some(TermOf(p.args.first.value)), None)
  {
    hide TermOf, PortableKind;
  }

  lemma CloseStops(k: nat, rest: seq<byte>)
    ensures Stops(AsciiBytes(Close(k)) + rest)
  {
    FirstByte(Close(k), rest);
    hide AsciiBytes;
  }

  // Between tokens of its own.
  lemma EnclosedReads(p: Path, rest: seq<byte>)
    requires p.kind == 6 || p.kind == 30 || p.kind == 19 || p.kind == 20 || p.kind == 29
    requires p.args.Arg? && p.args.first.Some? && p.args.rest.NoArgs? && p.detail.NoDetail? && AllReadBack(p.args)
    requires HeadOfItem(p).Some?
    ensures ReadEnclosed(HeadOfItem(p).value + rest, PortableKind(p.kind, NoDetail), Open(p.kind), Close(p.kind)) ==
      Some(Got(ItemTerm(p, None), rest))
  {
    hide ReadPath, AsciiBytes, ReadsBack, AllReadBack, ChainText, TermOf, PortableKind, HeadOfItem, Formed,
      ReadEnclosed, Stops;
    var a := OneText(p);
    UnaryHead(p, a);
    UnaryTerm(p);
    CloseStops(p.kind, rest);
    ArgumentReads(p.args, a, AsciiBytes(Close(p.kind)) + rest);
    Enclosed(PortableKind(p.kind, NoDetail), Open(p.kind), Close(p.kind), a, TermOf(p.args.first.value), rest);
  }

  lemma UnaryReads(p: Path, rest: seq<byte>)
    requires p.kind == 6 || p.kind == 30 || p.kind == 19 || p.kind == 20
    requires p.args.Arg? && p.args.first.Some? && p.args.rest.NoArgs? && p.detail.NoDetail? && AllReadBack(p.args)
    requires HeadOfItem(p).Some?
    ensures ReadPrimary(HeadOfItem(p).value + rest) == Some(Got(ItemTerm(p, None), rest))
  {
    hide ReadPrimary, AsciiBytes, AllReadBack, HeadOfItem, ReadEnclosed, ReadBracket, ItemTerm, PrintArgs, ReadsBack,
      ChainText, Formed;
    EnclosedReads(p, rest);
    var a := OneText(p);
    UnaryHead(p, a);
    var open, more := Open(p.kind), a + AsciiBytes(Close(p.kind)) + rest;
    var t := HeadOfItem(p).value + rest;
    assert t == AsciiBytes(open) + more;
    FirstByte(open, more);
    Dispatch(t);
    if p.kind == 19 || p.kind == 20 {
      SignBytes(open, more);
      Signed(t);
    }
  }

  lemma SignBytes(open: string, more: seq<byte>)
    requires open == "(+(" || open == "(-("
    ensures var t := AsciiBytes(open) + more; |t| > 2 && t[2] == 0x28 && t[1] == if open == "(+(" then 0x2B else 0x2D
  {
    AsciiAt(open, 1);
    AsciiAt(open, 2);
    hide AsciiBytes;
  }

  lemma Signed(t: seq<byte>)
    requires |t| > 2 && t[2] == 0x28
    ensures t[1] == 0x2B ==> ReadBracket(t) == ReadEnclosed(t, 20, "(+(", "))")
    ensures t[1] == 0x2D ==> ReadBracket(t) == ReadEnclosed(t, 21, "(-(", "))")
  {
    hide ReadEnclosed, ReadPath, ReadAfter;
  }

  lemma UnknownReads(p: Path, rest: seq<byte>)
    requires p.kind == 7 && p.detail.NoDetail? && AllReadBack(p.args)
    requires p.args.Arg? && p.args.first.Some? && p.args.rest.NoArgs? && HeadOfItem(p).Some?
    ensures ReadPrimary(HeadOfItem(p).value + rest) == Some(Got(ItemTerm(p, None), rest))
  {
    hide ReadPrimary, ReadPath, AsciiBytes, ReadsBack, AllReadBack, ChainText, TermOf, PortableKind, HeadOfItem, Formed,
      ReadBracket, ReadAfter, Stops;
    var a := OneText(p);
    UnaryHead(p, a);
    UnaryTerm(p);
    var after := AsciiBytes(") is unknown") + rest;
    var t := AsciiBytes("(") + a + AsciiBytes(") is unknown") + rest;
    assert t == AsciiBytes("(") + (a + after);
    FirstByte("(", a + after);
    CloseStops(7, rest);
    PathOpens(p.args.first.value);
    ArgumentReads(p.args, a, after);
    assert t[1..] == a + after;
    OpensMore(a, after);
    NotSigned(t, a + after);
    Dispatch(t);
    TestReads(TermOf(p.args.first.value), rest);
    assert PortableKind(7, NoDetail) == 19 by { UnknownKind(); }
  }

  lemma UnknownKind()
    ensures PortableKind(7, NoDetail) == 19
  {
  }

  lemma TestReads(a: Term, rest: seq<byte>)
    ensures ReadAfter(a, AsciiBytes(") is unknown") + rest) == Some(Got(Over(19, Some(a), None), rest))
  {
    hide ReadPattern, ReadOperation, Skip, AsciiBytes;
    FirstByte(") is unknown", rest);
    SkipsToken(") is unknown", rest);
  }

  // -- Patterns --

  function FlagLetter(given: bool, letter: string): string { if given then letter else "" }

  lemma FlagTextIs(flags: nat)
    ensures FlagText(flags) ==
      FlagLetter(flags % 2 == 1, "i") + (FlagLetter(flags / 2 % 2 == 1, "s") + (FlagLetter(flags / 4 % 2 == 1, "m") +
        (FlagLetter(flags / 8 % 2 == 1, "x") + FlagLetter(flags / 16 % 2 == 1, "q"))))
  {
    Regroup(FlagLetter(flags % 2 == 1, "i"), FlagLetter(flags / 2 % 2 == 1, "s"), FlagLetter(flags / 4 % 2 == 1, "m"),
            FlagLetter(flags / 8 % 2 == 1, "x"), FlagLetter(flags / 16 % 2 == 1, "q"));
  }

  lemma Regroup(a: string, b: string, c: string, d: string, e: string)
    ensures a + b + c + d + e == a + (b + (c + (d + e)))
  {
  }

  // Each flag that is set is one letter.
  lemma FlagsRead(flags: nat)
    requires flags <= 31
    ensures FlagsOf(AsciiBytes(FlagText(flags))) == Some(flags)
  {
    hide FlagsOf, AsciiBytes, FlagText, FlagLetter;
    FlagTextIs(flags);
    var q := FlagLetter(flags / 16 % 2 == 1, "q");
    var x := FlagLetter(flags / 8 % 2 == 1, "x") + q;
    var m := FlagLetter(flags / 4 % 2 == 1, "m") + x;
    var s := FlagLetter(flags / 2 % 2 == 1, "s") + m;
    OneFlag(flags / 16 % 2 == 1, "q", 16, "");
    assert q + "" == q;
    OneFlag(flags / 8 % 2 == 1, "x", 8, q);
    OneFlag(flags / 4 % 2 == 1, "m", 4, x);
    OneFlag(flags / 2 % 2 == 1, "s", 2, m);
    OneFlag(flags % 2 == 1, "i", 1, s);
    FiveBits(flags);
  }

  lemma FiveBits(flags: nat)
    requires flags <= 31
    ensures flags == flags % 2 + 2 * (flags / 2 % 2) + 4 * (flags / 4 % 2) + 8 * (flags / 8 % 2) + 16 * (flags / 16 % 2)
  {
  }

  lemma OneFlag(given: bool, letter: string, value: nat, more: string)
    requires (letter, value) in {("i", 1), ("s", 2), ("m", 4), ("x", 8), ("q", 16)}
    ensures var rest := FlagsOf(AsciiBytes(more));
      FlagsOf(AsciiBytes(FlagLetter(given, letter) + more)) ==
        if !given || rest.None? then rest else Some(value + rest.value)
    ensures FlagsOf(AsciiBytes("")) == Some(0)
  {
    AsciiAt(letter, 0);
    AsciiJoins(FlagLetter(given, letter), more);
    hide AsciiBytes;
    assert AsciiBytes("") == [];
    if given {
      FlagsCons(AsciiBytes(letter), AsciiBytes(more), value);
    } else {
      assert [] + AsciiBytes(more) == AsciiBytes(more);
    }
  }

  lemma FlagsCons(b: seq<byte>, more: seq<byte>, value: nat)
    requires |b| == 1 && FlagOf(b[0]) == Some(value)
    ensures var rest := FlagsOf(more); FlagsOf(b + more) == if rest.None? then None else Some(value + rest.value)
  {
    hide FlagOf;
    assert (b + more)[0] == b[0] && (b + more)[1..] == more;
  }

  lemma PatternHead(p: Path, a: seq<byte>)
    requires p.kind == 42 && p.detail.RegexDetail? && PrintArgs(p.args).Some? && |PrintArgs(p.args).value| > 0
    requires PrintArgs(p.args).value[0] == Some(a)
    ensures HeadOfItem(p) == Some(
      AsciiBytes("(") + a + AsciiBytes(" like_regex ") + J.Quote(p.detail.pattern) + AsciiBytes(" flag ") +
      J.Quote(AsciiBytes(FlagText(p.detail.flags))) + AsciiBytes(")"))
  {
    hide PrintArgs, AsciiBytes, J.Quote, SubscriptTexts, FlagText, BoundText;
  }

  lemma PatternReads(a: Term, s: seq<byte>, flags: nat, rest: seq<byte>)
    requires flags <= 31
    ensures ReadAfter(a, AsciiBytes(" like_regex ") + (J.Quote(s) + (AsciiBytes(" flag ") +
                           (J.Quote(AsciiBytes(FlagText(flags))) + (AsciiBytes(")") + rest))))) ==
      Some(Got(Term(36, s, 0, 0, flags, Some(a), None, None), rest))
  {
    hide JsonText.ReadString, Skip, AsciiBytes, J.Quote, FlagsOf, FlagText, ReadOperation;
    var closed := AsciiBytes(")") + rest;
    var flagged := J.Quote(AsciiBytes(FlagText(flags))) + closed;
    var named := AsciiBytes(" flag ") + flagged;
    var quoted := J.Quote(s) + named;
    FirstByte(" like_regex ", quoted);
    SkipsToken(" like_regex ", quoted);
    StringReads(s, named);
    SkipsToken(" flag ", flagged);
    StringReads(AsciiBytes(FlagText(flags)), closed);
    SkipsToken(")", rest);
    FlagsRead(flags);
  }

  lemma RegexReads(p: Path, rest: seq<byte>)
    requires p.kind == 42 && FitsDetail(p.kind, p.detail) && AllReadBack(p.args)
    requires p.args.Arg? && p.args.first.Some? && p.args.rest.NoArgs? && HeadOfItem(p).Some?
    ensures ReadPrimary(HeadOfItem(p).value + rest) == Some(Got(ItemTerm(p, None), rest))
  {
    hide ReadPrimary, ReadPath, AsciiBytes, ReadsBack, AllReadBack, ChainText, TermOf, HeadOfItem, Formed, ReadBracket,
      ReadAfter, Stops, J.Quote, FlagText, ValidUtf8;
    var a := OneText(p);
    PatternHead(p, a);
    var s, f := J.Quote(p.detail.pattern), J.Quote(AsciiBytes(FlagText(p.detail.flags)));
    var after := AsciiBytes(" like_regex ") + (s + (AsciiBytes(" flag ") + (f + (AsciiBytes(")") + rest))));
    var t := HeadOfItem(p).value + rest;
    assert t == AsciiBytes("(") + (a + after);
    FirstByte("(", a + after);
    FirstByte(" like_regex ", s + (AsciiBytes(" flag ") + (f + (AsciiBytes(")") + rest))));
    assert Stops(after) by { SpaceStops(after); }
    PathOpens(p.args.first.value);
    ArgumentReads(p.args, a, after);
    assert t[1..] == a + after;
    OpensMore(a, after);
    NotSigned(t, a + after);
    Dispatch(t);
    PatternReads(TermOf(p.args.first.value), p.detail.pattern, p.detail.flags, rest);
  }

  lemma SpaceStops(t: seq<byte>)
    requires t != [] && t[0] == 0x20
    ensures Stops(t)
  {
  }

  // -- Accessors --------------------------------------------------------------------------------------------------

  // Where an accessor's text leads the reader.
  lemma DispatchAccessor(t: seq<byte>)
    requires |t| > 1
    ensures t[0] == 0x3F ==> ReadAccessor(t) == ReadEnclosed(t, 16, "?(", ")")
    ensures t[0] == 0x5B && t[1] == 0x2A ==> ReadAccessor(t) == Keyword(t, "[*]", 12)
    ensures t[0] == 0x5B && t[1] != 0x2A && ReadSubscripts(t[1..]).Some? ==>
      ReadAccessor(t) ==
        Some(Got(Over(13, Some(ReadSubscripts(t[1..]).value.value), None), ReadSubscripts(t[1..]).value.rest))
    ensures t[0] == 0x2E && t[1] == QUOTE ==> ReadAccessor(t) == Quoted(t[1..], 10)
    ensures t[0] == 0x2E && t[1] == 0x2A ==>
      ReadAccessor(t) == if |t| > 2 && t[2] == 0x2A then ReadLevels(t) else Some(Got(Plain(11), t[2..]))
    ensures t[0] == 0x2E && Letter(t[1]) ==> ReadAccessor(t) == ReadMethod(t[1..])
  {
    hide ReadEnclosed, Keyword, ReadSubscripts, Quoted, ReadLevels, ReadMethod;
  }

  lemma KeyReads(p: Path, rest: seq<byte>)
    requires p.kind == 25 && FitsDetail(p.kind, p.detail) && p.args.NoArgs? && HeadOfItem(p).Some?
    ensures var t := HeadOfItem(p).value + rest;
      StartsAccessor(t) && ReadAccessor(t) == Some(Got(ItemTerm(p, None), rest))
  {
    hide ReadAccessor, AsciiBytes, J.Quote, Quoted, ValidUtf8;
    var s := p.detail.text;
    var t := AsciiBytes(".") + J.Quote(s) + rest;
    assert t == AsciiBytes(".") + (J.Quote(s) + rest);
    FirstByte(".", J.Quote(s) + rest);
    QuotedReads(10, s, rest);
    assert t[1..] == J.Quote(s) + rest && t[1] == (J.Quote(s) + rest)[0];
    DispatchAccessor(t);
  }

  lemma StarReads(p: Path, rest: seq<byte>)
    requires (p.kind == 21 || p.kind == 22) && FitsDetail(p.kind, p.detail) && p.args.NoArgs?
    requires HeadOfItem(p).Some? && Continues(p, rest)
    ensures var t := HeadOfItem(p).value + rest;
      StartsAccessor(t) && ReadAccessor(t) == Some(Got(ItemTerm(p, None), rest))
  {
    hide ReadAccessor, AsciiBytes, Skip;
    var token := if p.kind == 21 then "[*]" else ".*";
    var t := AsciiBytes(token) + rest;
    AsciiAt(token, 0);
    AsciiAt(token, 1);
    DispatchAccessor(t);
    if p.kind == 21 {
      SkipsToken(token, rest);
    } else {
      assert t[2..] == rest;
      if rest != [] { assert t[2] == rest[0]; }
    }
  }

  lemma FilterReads(p: Path, rest: seq<byte>)
    requires p.kind == 29 && p.detail.NoDetail? && AllReadBack(p.args)
    requires p.args.Arg? && p.args.first.Some? && p.args.rest.NoArgs? && HeadOfItem(p).Some?
    ensures var t := HeadOfItem(p).value + rest;
      StartsAccessor(t) && ReadAccessor(t) == Some(Got(ItemTerm(p, None), rest))
  {
    hide ReadAccessor, AsciiBytes, AllReadBack, HeadOfItem, ReadEnclosed, ItemTerm, PrintArgs, ReadsBack, ChainText,
      Formed;
    EnclosedReads(p, rest);
    var a := OneText(p);
    UnaryHead(p, a);
    var more := a + AsciiBytes(")") + rest;
    var t := HeadOfItem(p).value + rest;
    assert t == AsciiBytes("?(") + more;
    FirstByte("?(", more);
    DispatchAccessor(t);
  }

  // -- Levels --

  lemma {:induction false} DigitsValueIs(s: string)
    requires AllDigits(s)
    ensures DigitsValue(AsciiBytes(s)) == Val(s)
    decreases |s|
  {
    hide AsciiBytes;
    if s != "" {
      DigitsValueIs(s[..|s| - 1]);
      LastDigit(s);
    }
  }

  lemma LastDigit(s: string)
    requires AllDigits(s) && s != ""
    ensures var b, n := AsciiBytes(s), |s| - 1;
      |b| == n + 1 && b[..n] == AsciiBytes(s[..n]) && AllDigits(s[..n]) && b[n] == 0x30 + DigitOf(s[n])
  {
    hide AsciiBytes;
    var n := |s| - 1;
    assert s == s[..n] + [s[n]];
    AsciiJoins(s[..n], [s[n]]);
    AsciiAt(s, n);
    assert IsDigit(s[n]);
  }

  lemma LevelReads(b: int, rest: seq<byte>)
    requires b >= -1 && (rest != [] ==> !Digit(rest[0]))
    ensures ReadLevel(AsciiBytes(BoundText(b)) + rest) == Some(Got(b, rest))
  {
    hide NatText, AsciiBytes, Skip, Digits, DigitsValue;
    if b < 0 {
      FirstByte("last", rest);
      SkipsToken("last", rest);
    } else {
      var s := NatText(b);
      NatTextValue(b);
      DigitsRead(s, rest);
      DigitsValueIs(s);
      AsciiAt(s, 0);
      assert IsDigit(s[0]);
      var t := AsciiBytes(s) + rest;
      assert t[..|s|] == AsciiBytes(s) && t[|s|..] == rest && t[0] == AsciiBytes(s)[0];
    }
  }

  lemma LevelsSplit(first: string, last: string, rest: seq<byte>)
    ensures AsciiBytes(".**{" + first + " to " + last + "}") + rest ==
      AsciiBytes(".**{") + (AsciiBytes(first) + (AsciiBytes(" to ") + (AsciiBytes(last) + (AsciiBytes("}") + rest))))
  {
    AsciiJoins(".**{" + first + " to " + last, "}");
    AsciiJoins(".**{" + first + " to ", last);
    AsciiJoins(".**{" + first, " to ");
    AsciiJoins(".**{", first);
    hide AsciiBytes;
  }

  lemma LevelsRead(first: int, last: int, rest: seq<byte>)
    requires first >= -1 && last >= -1
    ensures ReadLevels(AsciiBytes(".**{" + BoundText(first) + " to " + BoundText(last) + "}") + rest) ==
      Some(Got(Term(15, [], first, last, 0, None, None, None), rest))
  {
    hide AsciiBytes, Skip, ReadLevel, BoundText;
    LevelsSplit(BoundText(first), BoundText(last), rest);
    var closed := AsciiBytes("}") + rest;
    var upper := AsciiBytes(BoundText(last)) + closed;
    var ranged := AsciiBytes(" to ") + upper;
    SkipsToken(".**{", AsciiBytes(BoundText(first)) + ranged);
    FirstByte(" to ", upper);
    FirstByte("}", rest);
    LevelReads(first, ranged);
    SkipsToken(" to ", upper);
    LevelReads(last, closed);
    SkipsToken("}", rest);
  }

  lemma DescendantReads(p: Path, rest: seq<byte>)
    requires p.kind == 24 && FitsDetail(p.kind, p.detail) && p.args.NoArgs? && HeadOfItem(p).Some?
    ensures var t := HeadOfItem(p).value + rest;
      StartsAccessor(t) && ReadAccessor(t) == Some(Got(ItemTerm(p, None), rest))
  {
    hide ReadAccessor, AsciiBytes, BoundText, ReadLevels;
    var d := p.detail;
    var token := ".**{" + BoundText(d.first) + " to " + BoundText(d.last) + "}";
    var t := AsciiBytes(token) + rest;
    LevelsRead(d.first, d.last, rest);
    LevelsSplit(BoundText(d.first), BoundText(d.last), rest);
    AsciiAt(".**{", 0);
    AsciiAt(".**{", 1);
    AsciiAt(".**{", 2);
    DispatchAccessor(t);
  }

  // -- Methods --

  lemma CharsBack(s: string)
    requires forall i :: 0 <= i < |s| ==> s[i] < 128 as char
    ensures Chars(AsciiBytes(s)) == s
  {
    forall i | 0 <= i < |s| ensures Chars(AsciiBytes(s))[i] == s[i] { AsciiAt(s, i); }
  }

  predicate Name(s: string) { s != "" && forall i :: 0 <= i < |s| ==> 'a' <= s[i] <= 'z' || s[i] == '_' }

  lemma {:induction false} LettersRead(s: string, rest: seq<byte>)
    requires (s == "" || Name(s)) && (rest != [] ==> !Letter(rest[0]))
    ensures Letters(AsciiBytes(s) + rest) == |s|
    decreases |s|
  {
    var t := AsciiBytes(s) + rest;
    if s == "" {
      assert t == rest;
    } else {
      AsciiAt(s, 0);
      assert t[1..] == AsciiBytes(s[1..]) + rest;
      LettersRead(s[1..], rest);
    }
  }

  lemma MethodNamed(k: nat)
    ensures Method(k) != "" ==>
      Name(Method(k)) && MethodKind(Method(k)) == Some(PortableKind(k, NoDetail)) && ArgumentMethod(k) == "" &&
          k != DECIMAL
  {
  }

  lemma ArgumentMethodNamed(k: nat)
    ensures ArgumentMethod(k) != "" ==>
      Name(ArgumentMethod(k)) && MethodKind(ArgumentMethod(k)) == Some(PortableKind(k, NoDetail)) && Method(k) == "" &&
      k != SUBSCRIPTS
  {
  }

  // A name, its opening bracket, and what stands in the brackets.
  lemma NameReads(name: string, inner: seq<byte>)
    requires Name(name) && MethodKind(name).Some?
    ensures var t := AsciiBytes("." + name + "(") + inner;
      |t| > 1 && t[0] == 0x2E && Letter(t[1]) && ReadMethod(t[1..]) == ReadArguments(MethodKind(name).value, inner)
  {
    hide AsciiBytes, MethodKind, ReadArguments, ReadMethod;
    AsciiJoins("." + name, "(");
    AsciiJoins(".", name);
    AsciiAt(".", 0);
    AsciiAt(name, 0);
    var t := AsciiBytes("." + name + "(") + inner;
    var called := AsciiBytes(name) + (AsciiBytes("(") + inner);
    assert t == AsciiBytes(".") + called;
    assert t[1..] == called && called[0] == AsciiBytes(name)[0];
    CallReads(name, inner);
  }

  lemma CallReads(name: string, inner: seq<byte>)
    requires Name(name) && MethodKind(name).Some?
    ensures ReadMethod(AsciiBytes(name) + (AsciiBytes("(") + inner)) == ReadArguments(MethodKind(name).value, inner)
  {
    hide AsciiBytes, MethodKind, Letters, Chars, ReadArguments, Skip, Name;
    var rest := AsciiBytes("(") + inner;
    FirstByte("(", inner);
    LettersRead(name, rest);
    CharsBack(name) by { NamesAreAscii(name); }
    var t := AsciiBytes(name) + rest;
    assert t[..|name|] == AsciiBytes(name) && t[|name|..] == rest;
    SkipsToken("(", inner);
  }

  lemma NamesAreAscii(name: string)
    requires Name(name)
    ensures forall i :: 0 <= i < |name| ==> name[i] < 128 as char
  {
  }

  lemma NoArguments(kind: nat, rest: seq<byte>)
    ensures ReadArguments(kind, AsciiBytes(")") + rest) == Some(Got(Plain(kind), rest))
  {
    FirstByte(")", rest);
    hide AsciiBytes, ReadPath, ReadSecond, Skip;
    assert (AsciiBytes(")") + rest)[1..] == rest;
  }

  lemma OneArgument(kind: nat, a: seq<byte>, e: Term, rest: seq<byte>)
    requires Opens(a) && ReadPath(a + (AsciiBytes(")") + rest)) == Some(Got(e, AsciiBytes(")") + rest))
    ensures ReadArguments(kind, a + (AsciiBytes(")") + rest)) == Some(Got(Over(kind, Some(e), None), rest))
  {
    hide AsciiBytes, ReadPath, Skip;
    var closed := AsciiBytes(")") + rest;
    FirstByte(")", rest);
    SkipsNot(closed, ",", 0);
    SkipsToken(")", rest);
  }

  lemma TwoArguments(kind: nat, a: seq<byte>, e: Term, b: seq<byte>, f: Term, rest: seq<byte>)
    requires var closed := AsciiBytes(")") + rest; var second := AsciiBytes(",") + (b + closed);
      Opens(a) && ReadPath(a + second) == Some(Got(e, second)) && ReadPath(b + closed) == Some(Got(f, closed))
    ensures ReadArguments(kind, a + (AsciiBytes(",") + (b + (AsciiBytes(")") + rest)))) ==
      Some(Got(Over(kind, Some(e), Some(f)), rest))
  {
    hide AsciiBytes, ReadPath, Skip;
    var closed := AsciiBytes(")") + rest;
    SkipsToken(",", b + closed);
    SkipsToken(")", rest);
  }

  lemma MethodHead(p: Path)
    requires Method(p.kind) != "" && HeadOfItem(p).Some?
    ensures HeadOfItem(p).value == AsciiBytes("." + Method(p.kind) + "(") + AsciiBytes(")")
  {
    hide PrintArgs, AsciiBytes, J.Quote, SubscriptTexts, FlagText, BoundText, Written;
    var name := Method(p.kind);
    assert "." + name + "()" == "." + name + "(" + ")";
    AsciiJoins("." + name + "(", ")");
  }

  lemma PlainTerm(p: Path)
    requires p.args.NoArgs? && p.detail.NoDetail?
    ensures ItemTerm(p, None) == Plain(PortableKind(p.kind, NoDetail))
  {
    assert p.detail == NoDetail;
    hide PortableKind;
  }

  lemma MethodReads(p: Path, rest: seq<byte>)
    requires Method(p.kind) != "" && p.args.NoArgs? && p.detail.NoDetail? && HeadOfItem(p).Some?
    ensures var t := HeadOfItem(p).value + rest;
      StartsAccessor(t) && ReadAccessor(t) == Some(Got(ItemTerm(p, None), rest))
  {
    hide ReadAccessor, AsciiBytes, HeadOfItem, Method, PortableKind, ReadMethod, ReadArguments, MethodKind, Name,
      ItemTerm;
    MethodHead(p);
    MethodNamed(p.kind);
    PlainTerm(p);
    var name, closed := Method(p.kind), AsciiBytes(")") + rest;
    var t := HeadOfItem(p).value + rest;
    assert t == AsciiBytes("." + name + "(") + closed;
    NameReads(name, closed);
    NoArguments(PortableKind(p.kind, NoDetail), rest);
    DispatchAccessor(t);
    assert ReadMethod(t[1..]) == ReadArguments(PortableKind(p.kind, NoDetail), closed);
    assert ReadArguments(PortableKind(p.kind, NoDetail), closed) == Some(Got(ItemTerm(p, None), rest));
  }

  lemma ArgumentHead(p: Path, a: seq<byte>)
    requires ArgumentMethod(p.kind) != "" && PrintArgs(p.args).Some? && Written(PrintArgs(p.args).value, 0) == a
    ensures HeadOfItem(p) == Some(AsciiBytes("." + ArgumentMethod(p.kind) + "(") + a + AsciiBytes(")"))
  {
    hide PrintArgs, AsciiBytes, J.Quote, SubscriptTexts, FlagText, BoundText, Written;
  }

  lemma OneTerm(p: Path)
    requires p.args.Arg? && p.args.rest.NoArgs? && p.detail.NoDetail? && p.kind != SUBSCRIPTS
    ensures ItemTerm(p, None) == Over(PortableKind(p.kind, NoDetail), ArgTerm(p.args), None)
  {
    assert p.detail == NoDetail;
    hide PortableKind, TermOf;
  }

  lemma ArgumentMethodReads(p: Path, rest: seq<byte>)
    requires ArgumentMethod(p.kind) != "" && p.args.Arg? && p.args.rest.NoArgs? && p.detail.NoDetail?
    requires AllReadBack(p.args) && HeadOfItem(p).Some?
    ensures var t := HeadOfItem(p).value + rest;
      StartsAccessor(t) && ReadAccessor(t) == Some(Got(ItemTerm(p, None), rest))
  {
    hide ReadAccessor, AsciiBytes, HeadOfItem, ArgumentMethod, PortableKind, ReadMethod, ReadArguments, MethodKind,
      Name,
      TermOf, ReadsBack, AllReadBack, ChainText, ReadPath, Formed, PrintArgs, ItemTerm, ArgTerm;
    HeadPrints(p);
    FirstText(p.args);
    ArgumentMethodNamed(p.kind);
    var name, kind, closed := ArgumentMethod(p.kind), PortableKind(p.kind, NoDetail), AsciiBytes(")") + rest;
    var a := Written(PrintArgs(p.args).value, 0);
    ArgumentHead(p, a);
    var t := HeadOfItem(p).value + rest;
    var call := AsciiBytes("." + name + "(");
    assert t == call + (a + closed);
    NameReads(name, a + closed);
    CloseStops(6, rest);
    OneTerm(p);
    if p.args.first.Some? {
      FirstReads(p.args);
      ArgumentReads(p.args, a, closed);
      PathOpens(p.args.first.value);
      OneArgument(kind, a, TermOf(p.args.first.value), rest);
    } else {
      assert a + closed == closed;
      NoArguments(kind, rest);
    }
    assert ReadArguments(kind, a + closed) == Some(Got(ItemTerm(p, None), rest));
    DispatchAccessor(t);
    assert ReadMethod(t[1..]) == ReadArguments(kind, a + closed);
  }

  lemma FirstReads(args: Args)
    requires args.Arg? && args.first.Some? && AllReadBack(args)
    ensures ReadsBack(args.first) && Formed(args.first.value)
  {
    hide ReadsBack, Formed;
  }

  lemma HeadPrints(p: Path)
    requires HeadOfItem(p).Some?
    ensures PrintArgs(p.args).Some?
  {
    hide PrintArgs, HeadText;
  }

  lemma DecimalHead(p: Path)
    requires p.kind == DECIMAL && PrintArgs(p.args).Some? && |PrintArgs(p.args).value| == 2
    ensures var texts := PrintArgs(p.args).value;
      HeadOfItem(p) ==
        if texts[0].None? && texts[1].Some? then None
        else Some(AsciiBytes(".decimal(") + Written(texts, 0) +
                  (if texts[1].Some? then AsciiBytes(",") + Written(texts, 1) else []) + AsciiBytes(")"))
  {
    hide PrintArgs, AsciiBytes, J.Quote, SubscriptTexts, FlagText, BoundText, Written;
  }

  lemma DecimalNamed()
    ensures Name("decimal") && MethodKind("decimal") == Some(124) && PortableKind(DECIMAL, NoDetail) == 124
    ensures "." + "decimal" + "(" == ".decimal("
  {
  }

  lemma DecimalReadsBack(p: Path, rest: seq<byte>)
    requires p.kind == DECIMAL && p.args.Arg? && p.args.rest.Arg? && p.args.rest.rest.NoArgs? && p.detail.NoDetail?
    requires AllReadBack(p.args) && HeadOfItem(p).Some?
    ensures var t := HeadOfItem(p).value + rest;
      StartsAccessor(t) && ReadAccessor(t) == Some(Got(ItemTerm(p, None), rest))
  {
    hide ReadAccessor, AsciiBytes, HeadOfItem, PortableKind, ReadMethod, ReadArguments, MethodKind, Name, TermOf,
      ReadsBack, AllReadBack, ChainText, ReadPath, Formed, PrintArgs, Written;
    HeadPrints(p);
    FirstText(p.args);
    FirstText(p.args.rest);
    NothingPrinted(p.args.rest.rest);
    DecimalHead(p);
    DecimalNamed();
    var texts, closed := PrintArgs(p.args).value, AsciiBytes(")") + rest;
    WrittenIs(texts);
    var t := HeadOfItem(p).value + rest;
    if texts[0].None? {
      assert t == AsciiBytes(".decimal(") + closed;
      NameReads("decimal", closed);
      NoArguments(124, rest);
    } else if texts[1].None? {
      var a := texts[0].value;
      assert t == AsciiBytes(".decimal(") + (a + closed);
      NameReads("decimal", a + closed);
      OneDecimal(p.args, a, rest);
    } else {
      var a, b := texts[0].value, texts[1].value;
      assert t == AsciiBytes(".decimal(") + (a + (AsciiBytes(",") + (b + closed)));
      NameReads("decimal", a + (AsciiBytes(",") + (b + closed)));
      TwoDecimals(p.args, a, b, rest);
    }
    DispatchAccessor(t);
  }

  lemma NothingPrinted(args: Args)
    ensures args.NoArgs? ==> PrintArgs(args) == Some([])
  {
  }

  lemma WrittenIs(texts: seq<Option<seq<byte>>>)
    requires |texts| == 2
    ensures texts[0].Some? ==> Written(texts, 0) == texts[0].value
    ensures texts[1].Some? ==> Written(texts, 1) == texts[1].value
    ensures texts[0].None? ==> Written(texts, 0) == []
  {
  }

  lemma OneDecimal(args: Args, a: seq<byte>, rest: seq<byte>)
    requires args.Arg? && args.first.Some? && AllReadBack(args) && ChainText(args.first.value, true) == Some(a)
    ensures ReadArguments(124, a + (AsciiBytes(")") + rest)) ==
      Some(Got(Over(124, Some(TermOf(args.first.value)), None), rest))
  {
    hide AsciiBytes, ReadArguments, TermOf, ReadsBack, AllReadBack, ChainText, ReadPath, Formed;
    FirstReads(args);
    CloseStops(6, rest);
    ArgumentReads(args, a, AsciiBytes(")") + rest);
    PathOpens(args.first.value);
    OneArgument(124, a, TermOf(args.first.value), rest);
  }

  lemma TwoDecimals(args: Args, a: seq<byte>, b: seq<byte>, rest: seq<byte>)
    requires args.Arg? && args.first.Some? && args.rest.Arg? && args.rest.first.Some?
    requires AllReadBack(args) && AllReadBack(args.rest)
    requires ChainText(args.first.value, true) == Some(a) && ChainText(args.rest.first.value, true) == Some(b)
    ensures ReadArguments(124, a + (AsciiBytes(",") + (b + (AsciiBytes(")") + rest)))) ==
      Some(Got(Over(124, Some(TermOf(args.first.value)), Some(TermOf(args.rest.first.value))), rest))
  {
    hide AsciiBytes, ReadArguments, TermOf, ReadsBack, AllReadBack, ChainText, ReadPath, Formed;
    var closed := AsciiBytes(")") + rest;
    FirstReads(args);
    FirstReads(args.rest);
    CloseStops(6, rest);
    FirstByte(",", b + closed);
    ArgumentReads(args, a, AsciiBytes(",") + (b + closed));
    ArgumentReads(args.rest, b, closed);
    PathOpens(args.first.value);
    TwoArguments(124, a, TermOf(args.first.value), b, TermOf(args.rest.first.value), rest);
  }

  // -- Subscripts --

  // The subscripts with commas between them.
  function SubscriptsText(args: Args): seq<byte>
    decreases args
  {
    match args
    case Arg(Some(a), Arg(b, rest)) =>
      TextOrNothing(a) + (if b.Some? then AsciiBytes(" to ") + TextOrNothing(b.value) else []) +
      (if rest.NoArgs? then [] else AsciiBytes(",") + SubscriptsText(rest))
    case _ => []
  }

  function TextOrNothing(p: Path): seq<byte>
  {
    if ChainText(p, true).Some? then ChainText(p, true).value else []
  }

  // Subscripts that have a first bound and a text.
  ghost predicate Listed(args: Args)
    decreases args
  {
    match args
    case Arg(Some(a), Arg(b, rest)) =>
      ChainText(a, true).Some? && (b.Some? ==> ChainText(b.value, true).Some?) && (rest.Arg? ==> Listed(rest))
    case _ => false
  }

  lemma PairCut<T>(s: seq<T>, i: nat, x: T, y: T, rest: seq<T>)
    requires i <= |s| && s[i..] == [x] + ([y] + rest)
    ensures i + 2 <= |s| && s[i] == x && s[i + 1] == y && s[i + 2..] == rest
  {
    var t := s[i..];
    assert t[0] == x && t[1] == y && t[2..] == rest;
    assert s[i..][2..] == s[i + 2..];
  }

  lemma NeedsFirst(i: nat, args: Args)
    requires args.Arg? && Given(SUBSCRIPTS, i, args) && i % 2 == 0
    ensures args.first.Some? && (args.rest.Arg? ==> Given(SUBSCRIPTS, i + 2, args.rest.rest))
  {
  }

  lemma {:induction false} SubscriptsPrinted(args: Args, i: nat, texts: seq<Option<seq<byte>>>)
    requires AllReadBack(args) && PrintArgs(args).Some? && i <= |texts| && texts[i..] == PrintArgs(args).value
    requires i % 2 == 0 && Count(args) % 2 == 0 && Given(SUBSCRIPTS, i, args)
    ensures args.NoArgs? ==> SubscriptTexts(texts, i) == []
    ensures args.Arg? ==> Listed(args)
    ensures args.Arg? ==> SubscriptTexts(texts, i) == (if i > 0 then AsciiBytes(",") else []) + SubscriptsText(args)
    decreases args
  {
    hide AsciiBytes, ReadsBack, AllReadBack, PrintArgs, TermOf, ChainText, Formed, Given, SubscriptTexts,
      SubscriptsText;
    if args.NoArgs? {
      NothingPrinted(args);
      NoMoreTexts(texts, i);
    } else {
      FirstText(args);
      FirstText(args.rest);
      NeedsFirst(i, args);
      var rest := args.rest.rest;
      PairCut(texts, i, PrintArgs(args).value[0], PrintArgs(args.rest).value[0], PrintArgs(rest).value);
      SubscriptsPrinted(rest, i + 2, texts);
      OneSubscript(args, texts, i);
    }
  }

  lemma NoMoreTexts(texts: seq<Option<seq<byte>>>, i: nat)
    requires i >= |texts|
    ensures SubscriptTexts(texts, i) == []
  {
  }

  lemma OneSubscript(args: Args, texts: seq<Option<seq<byte>>>, i: nat)
    requires args.Arg? && args.rest.Arg? && args.first.Some? && i + 2 <= |texts|
    requires texts[i].Some? && texts[i] == ChainText(args.first.value, true)
    requires texts[i + 1].Some? <==> args.rest.first.Some?
    requires texts[i + 1].Some? ==> texts[i + 1] == ChainText(args.rest.first.value, true)
    requires args.rest.rest.NoArgs? ==> SubscriptTexts(texts, i + 2) == []
    requires args.rest.rest.Arg? ==> SubscriptTexts(texts, i + 2) == AsciiBytes(",") + SubscriptsText(args.rest.rest)
    ensures SubscriptTexts(texts, i) == (if i > 0 then AsciiBytes(",") else []) + SubscriptsText(args)
  {
    hide AsciiBytes, ChainText, SubscriptTexts, SubscriptsText;
    var comma := if i > 0 then AsciiBytes(",") else [];
    var b := if texts[i + 1].Some? then AsciiBytes(" to ") + texts[i + 1].value else [];
    TextsStep(texts, i, comma, b);
    TextStep(args, texts[i].value, b);
    FourParts(comma, texts[i].value, b, SubscriptTexts(texts, i + 2));
  }

  lemma TextsStep(texts: seq<Option<seq<byte>>>, i: nat, comma: seq<byte>, b: seq<byte>)
    requires i + 2 <= |texts| && texts[i].Some? && comma == if i > 0 then AsciiBytes(",") else []
    requires b == if texts[i + 1].Some? then AsciiBytes(" to ") + texts[i + 1].value else []
    ensures SubscriptTexts(texts, i) == comma + texts[i].value + b + SubscriptTexts(texts, i + 2)
  {
    hide AsciiBytes;
  }

  lemma TextStep(args: Args, a: seq<byte>, b: seq<byte>)
    requires args.Arg? && args.rest.Arg? && args.first.Some? && ChainText(args.first.value, true) == Some(a)
    requires args.rest.first.Some? ==> ChainText(args.rest.first.value, true).Some?
    requires b == UpperText(args.rest.first)
    ensures SubscriptsText(args) ==
      a + b + if args.rest.rest.NoArgs? then [] else AsciiBytes(",") + SubscriptsText(args.rest.rest)
  {
    hide AsciiBytes, ChainText;
  }

  lemma FourParts(a: seq<byte>, b: seq<byte>, c: seq<byte>, d: seq<byte>)
    ensures a + b + c + d == a + (b + c + d)
    ensures a + b + (c + d) == a + (b + (c + d))
    ensures [] + a == a == a + []
  {
  }

  lemma {:induction false} SubscriptsRead(args: Args, rest: seq<byte>)
    requires Listed(args) && AllReadBack(args)
    ensures SubscriptTerms(args).Some?
    ensures ReadSubscripts(SubscriptsText(args) + (AsciiBytes("]") + rest)) ==
      Some(Got(SubscriptTerms(args).value, rest))
    decreases args
  {
    hide AsciiBytes, ReadsBack, AllReadBack, TermOf, ChainText, Formed, ReadPath, ReadSubscripts, ReadUpper, Listed,
      SubscriptsText, SubscriptTerms;
    ListedParts(args);
    var others := args.rest.rest;
    var closed := AsciiBytes("]") + rest;
    var tail := if others.NoArgs? then closed else AsciiBytes(",") + (SubscriptsText(others) + closed);
    FirstByte("]", rest);
    FirstByte(",", SubscriptsText(others) + closed);
    var a := ChainText(args.first.value, true).value;
    var upper := UpperText(args.rest.first) + tail;
    UpperReads(args.rest, tail);
    ArgumentReads(args, a, upper);
    TextSplits(args, rest);
    if others.NoArgs? {
      assert tail[1..] == rest by { assert AsciiBytes("]") + rest == tail; }
    } else {
      assert tail[1..] == SubscriptsText(others) + closed;
      SubscriptsRead(others, rest);
    }
    SubscriptsStep(a + upper, TermOf(args.first.value), upper, ArgTerm(args.rest), tail);
    TermsStep(args);
  }

  function UpperText(b: Option<Path>): seq<byte>
  {
    if b.Some? then AsciiBytes(" to ") + TextOrNothing(b.value) else []
  }

  lemma ListedParts(args: Args)
    requires Listed(args) && AllReadBack(args)
    ensures args.Arg? && args.first.Some? && args.rest.Arg? && ReadsBack(args.first) && AllReadBack(args.rest)
    ensures ChainText(args.first.value, true).Some?
    ensures args.rest.first.Some? ==> ChainText(args.rest.first.value, true).Some?
    ensures args.rest.rest.Arg? ==> Listed(args.rest.rest)
    ensures AllReadBack(args.rest.rest)
  {
    hide ReadsBack, ChainText, Formed;
  }

  lemma TextSplits(args: Args, rest: seq<byte>)
    requires Listed(args)
    ensures args.Arg? && args.first.Some? && args.rest.Arg? && ChainText(args.first.value, true).Some?
    ensures var others, closed := args.rest.rest, AsciiBytes("]") + rest;
      var tail := if others.NoArgs? then closed else AsciiBytes(",") + (SubscriptsText(others) + closed);
      SubscriptsText(args) + closed ==
        ChainText(args.first.value, true).value + (UpperText(args.rest.first) + tail)
  {
    hide AsciiBytes, ChainText, SubscriptsText;
    var others, closed := args.rest.rest, AsciiBytes("]") + rest;
    var a, b := ChainText(args.first.value, true).value, UpperText(args.rest.first);
    TextStep(args, a, b);
    var more := if others.NoArgs? then [] else AsciiBytes(",") + SubscriptsText(others);
    ThreeParts(a, b, more, closed);
    EndedBy(AsciiBytes(","), SubscriptsText(others), closed);
  }

  lemma EndedBy(a: seq<byte>, b: seq<byte>, closed: seq<byte>)
    ensures [] + closed == closed && a + b + closed == a + (b + closed)
  {
  }

  lemma ThreeParts(a: seq<byte>, b: seq<byte>, c: seq<byte>, d: seq<byte>)
    ensures a + b + c + d == a + (b + (c + d))
  {
  }

  // The upper bound, if there is one; what follows is a comma or the closing bracket.
  lemma UpperReads(args: Args, tail: seq<byte>)
    requires args.Arg? && AllReadBack(args) && (args.first.Some? ==> ChainText(args.first.value, true).Some?)
    requires tail != [] && (tail[0] == 0x2C || tail[0] == 0x5D)
    ensures ReadUpper(UpperText(args.first) + tail) == Some(Got(ArgTerm(args), tail))
    ensures Stops(UpperText(args.first) + tail)
  {
    hide AsciiBytes, ReadsBack, AllReadBack, TermOf, ChainText, Formed, ReadPath, Skip;
    if args.first.Some? {
      var b := ChainText(args.first.value, true).value;
      FirstReads(args);
      ArgumentReads(args, b, tail);
      assert AsciiBytes(" to ") + b + tail == AsciiBytes(" to ") + (b + tail);
      SkipsToken(" to ", b + tail);
      FirstByte(" to ", b + tail);
    } else {
      assert [] + tail == tail;
      SkipsNot(tail, " to ", 0);
    }
  }

  lemma SubscriptsStep(t: seq<byte>, a: Term, upper: seq<byte>, b: Option<Term>, tail: seq<byte>)
    requires ReadPath(t) == Some(Got(a, upper)) && ReadUpper(upper) == Some(Got(b, tail)) && tail != []
    ensures tail[0] == 0x5D ==> ReadSubscripts(t) == Some(Got(Over(14, Some(a), b), tail[1..]))
    ensures tail[0] == 0x2C && ReadSubscripts(tail[1..]).Some? ==>
      ReadSubscripts(t) == Some(Got(Over(14, Some(a), b).(next := Some(ReadSubscripts(tail[1..]).value.value)),
                                    ReadSubscripts(tail[1..]).value.rest))
  {
    hide ReadPath, ReadUpper;
  }

  lemma TermsStep(args: Args)
    requires args.Arg? && args.first.Some? && args.rest.Arg?
    ensures SubscriptTerms(args) ==
      Some(Over(14, Some(TermOf(args.first.value)), ArgTerm(args.rest)).(next := SubscriptTerms(args.rest.rest)))
    ensures args.rest.rest.NoArgs? ==> SubscriptTerms(args.rest.rest) == None
  {
    hide TermOf;
  }

  lemma SubscriptHead(p: Path)
    requires p.kind == SUBSCRIPTS && PrintArgs(p.args).Some?
    ensures HeadOfItem(p) == Some(AsciiBytes("[") + SubscriptTexts(PrintArgs(p.args).value, 0) + AsciiBytes("]"))
  {
    hide PrintArgs, AsciiBytes, J.Quote, SubscriptTexts, FlagText, BoundText, Written;
  }

  lemma SubscriptsReadBack(p: Path, rest: seq<byte>)
    requires p.kind == SUBSCRIPTS && p.detail.NoDetail? && FitsArgs(p.kind, Count(p.args))
    requires Given(p.kind, 0, p.args) && AllReadBack(p.args) && HeadOfItem(p).Some?
    ensures var t := HeadOfItem(p).value + rest;
      StartsAccessor(t) && ReadAccessor(t) == Some(Got(ItemTerm(p, None), rest))
  {
    hide ReadAccessor, AsciiBytes, HeadOfItem, TermOf, ReadsBack, AllReadBack, ChainText, Formed, PrintArgs, Listed,
      SubscriptsText, SubscriptTexts, SubscriptTerms, ReadSubscripts, Given;
    HeadPrints(p);
    SubscriptHead(p);
    var texts := PrintArgs(p.args).value;
    assert texts[0..] == texts;
    SubscriptsPrinted(p.args, 0, texts);
    assert [] + SubscriptsText(p.args) == SubscriptsText(p.args);
    SubscriptsRead(p.args, rest);
    var inner := SubscriptsText(p.args) + (AsciiBytes("]") + rest);
    var t := HeadOfItem(p).value + rest;
    assert t == AsciiBytes("[") + inner;
    FirstByte("[", inner);
    assert t[1..] == inner;
    SubscriptsOpen(p.args, rest);
    assert t[1] == inner[0];
    DispatchAccessor(t);
  }

  lemma SubscriptsOpen(args: Args, rest: seq<byte>)
    requires Listed(args) && AllReadBack(args)
    ensures Opens(SubscriptsText(args) + (AsciiBytes("]") + rest))
  {
    hide AsciiBytes, ReadsBack, TermOf, ChainText, Formed, Opens, AllReadBack, SubscriptsText, Listed;
    ListedParts(args);
    FirstReads(args);
    TextSplits(args, rest);
    PathOpens(args.first.value);
    var a := ChainText(args.first.value, true).value;
    forall more ensures Opens(a + more) { OpensMore(a, more); }
  }

  // -- The whole text -----------------------------------------------------------------------------------------------

  lemma PrimaryReads(p: Path, rest: seq<byte>)
    requires IsKnown(p.kind) && FitsDetail(p.kind, p.detail) && FitsArgs(p.kind, Count(p.args))
    requires Given(p.kind, 0, p.args) && AllReadBack(p.args) && !IsAccessor(p.kind)
    requires HeadOfItem(p).Some? && Continues(p, rest)
    ensures ReadPrimary(HeadOfItem(p).value + rest) == Some(Got(ItemTerm(p, None), rest))
  {
    hide ReadPrimary, HeadOfItem, ItemTerm, AllReadBack, Continues, Method, ArgumentMethod, FitsDetail;
    ArgumentShape(p);
    if p.kind == 1 || p.kind == 28 {
      TextItemReads(p, rest);
    } else if p.kind == 2 {
      NumberItemReads(p, rest);
    } else if IsBinary(p.kind) {
      BinaryReads(p, rest);
    } else if p.kind == 7 {
      UnknownReads(p, rest);
    } else if p.kind == 6 || p.kind == 30 || p.kind == 19 || p.kind == 20 {
      UnaryReads(p, rest);
    } else if p.kind == 42 {
      RegexReads(p, rest);
    } else {
      ConstantReads(p, rest);
    }
  }

  // How many arguments an item has, and which are there.
  lemma ArgumentShape(p: Path)
    requires FitsDetail(p.kind, p.detail) && FitsArgs(p.kind, Count(p.args)) && Given(p.kind, 0, p.args)
    ensures Count(p.args) == 0 ==> p.args.NoArgs?
    ensures Count(p.args) == 1 ==> p.args.Arg? && p.args.rest.NoArgs?
    ensures Count(p.args) == 2 ==> p.args.Arg? && p.args.rest.Arg? && p.args.rest.rest.NoArgs?
    ensures IsBinary(p.kind) ==> Count(p.args) == 2 && p.args.first.Some? && p.args.rest.first.Some?
    ensures IsUnary(p.kind) || p.kind == 42 ==> Count(p.args) == 1 && p.args.first.Some?
    ensures IsUnary(p.kind) ==> p.detail.NoDetail?
  {
    hide ValidUtf8, DecimalPattern;
    UnaryIsNoMethod(p.kind);
    BinaryIsNoMethod(p.kind);
    if p.args.Arg? && p.args.rest.Arg? { assert Count(p.args) == 2 + Count(p.args.rest.rest); }
    hide Operator, Method, ArgumentMethod;
  }

  lemma UnaryIsNoMethod(k: nat)
    ensures IsUnary(k) || k == 42 ==> ArgumentMethod(k) == "" && !IsBinary(k) && k != DECIMAL
  {
  }

  lemma BinaryIsNoMethod(k: nat)
    ensures IsBinary(k) ==> ArgumentMethod(k) == "" && k != SUBSCRIPTS && k != DECIMAL
  {
  }

  lemma AccessorReads(p: Path, rest: seq<byte>)
    requires IsKnown(p.kind) && FitsDetail(p.kind, p.detail) && FitsArgs(p.kind, Count(p.args))
    requires Given(p.kind, 0, p.args) && AllReadBack(p.args) && IsAccessor(p.kind)
    requires HeadOfItem(p).Some? && Continues(p, rest)
    ensures var t := HeadOfItem(p).value + rest;
      StartsAccessor(t) && ReadAccessor(t) == Some(Got(ItemTerm(p, None), rest))
  {
    hide ReadAccessor, HeadOfItem, ItemTerm, AllReadBack, Continues, StartsAccessor, Given;
    ArgumentShape(p);
    AccessorShape(p);
    hide Method, ArgumentMethod, FitsDetail, FitsArgs, IsKnown;
    if p.kind == 25 {
      KeyReads(p, rest);
    } else if p.kind == 21 || p.kind == 22 {
      StarReads(p, rest);
    } else if p.kind == SUBSCRIPTS {
      SubscriptsReadBack(p, rest);
    } else if p.kind == 24 {
      DescendantReads(p, rest);
    } else if p.kind == 29 {
      FilterReads(p, rest);
    } else if p.kind == DECIMAL {
      DecimalReadsBack(p, rest);
    } else if Method(p.kind) != "" {
      MethodReads(p, rest);
    } else {
      ArgumentMethodReads(p, rest);
    }
  }

  lemma AccessorShape(p: Path)
    requires IsAccessor(p.kind) && FitsDetail(p.kind, p.detail) && FitsArgs(p.kind, Count(p.args))
    ensures p.kind == 21 || p.kind == 22 || p.kind == 24 || p.kind == 25 || Method(p.kind) != "" ==> Count(p.args) == 0
    ensures p.kind == DECIMAL ==> Count(p.args) == 2
    ensures p.kind == 29 || ArgumentMethod(p.kind) != "" ==> Count(p.args) == 1
    ensures p.kind != 24 && p.kind != 25 ==> p.detail.NoDetail?
  {
    hide ValidUtf8, DecimalPattern;
    MethodNamed(p.kind);
    ArgumentMethodNamed(p.kind);
    NoOperator(p.kind);
    hide MethodKind, Name;
  }

  lemma NoOperator(k: nat)
    ensures IsAccessor(k) ==> !IsText(k) || k == 25
    ensures IsAccessor(k) ==> Operator(k) == "" && k != 2 && k != 3 && k != 42
    ensures Method(k) != "" || ArgumentMethod(k) != "" ==> k != SUBSCRIPTS && k != DECIMAL && !IsUnary(k)
  {
  }

  lemma {:induction false} ArgsReadBack(args: Args)
    requires FormedArgs(args) && CompleteArgs(args)
    ensures AllReadBack(args)
    decreases args
  {
    hide ReadsBack, Formed, Complete;
    match args
    case NoArgs =>
    case Arg(first, rest) =>
      if first.Some? { PathReads(first.value); } else { NothingReads(); }
      ArgsReadBack(rest);
  }

  lemma NothingReads()
    ensures ReadsBack(None)
  {
  }

  lemma {:induction false} PathReads(p: Path)
    requires Formed(p) && Complete(p)
    ensures ReadsBack(Some(p))
    decreases p
  {
    hide Formed, Complete, ReadPath, TermOf, ChainText, Stops, AllReadBack;
    if ChainText(p, true).Some? {
      forall rest | Stops(rest)
        ensures ReadPath(ChainText(p, true).value + rest) == Some(Got(TermOf(p), rest))
      {
        RootReads(p, rest);
      }
    }
  }

  lemma CompleteParts(p: Path)
    requires Complete(p)
    ensures Given(p.kind, 0, p.args) && CompleteArgs(p.args) && (p.next.Some? ==> Complete(p.next.value))
  {
    hide Given, CompleteArgs;
  }

  // The text of an item in front of what is applied to it.
  lemma ChainSplits(p: Path, root: bool, rest: seq<byte>)
    requires ChainText(p, root).Some?
    ensures HeadOfItem(p).Some? && root != IsAccessor(p.kind)
    ensures p.next.Some? ==> ChainText(p.next.value, false).Some?
    ensures ChainText(p, root).value + rest ==
      HeadOfItem(p).value + if p.next.None? then rest else ChainText(p.next.value, false).value + rest
  {
    hide HeadOfItem, IsAccessor, ChainText;
    ChainStep(p, root);
    if p.next.Some? {
      var a, b := HeadOfItem(p).value, ChainText(p.next.value, false).value;
      assert a + b + rest == a + (b + rest);
    }
  }

  lemma {:induction false} RootReads(p: Path, rest: seq<byte>)
    requires Formed(p) && Complete(p) && ChainText(p, true).Some? && Stops(rest)
    ensures ReadPath(ChainText(p, true).value + rest) == Some(Got(TermOf(p), rest))
    decreases p, 1
  {
    hide Formed, Complete, ReadPath, TermOf, ChainText, Stops, AllReadBack, HeadOfItem, FitsDetail, FitsArgs, IsKnown,
      FormedArgs, CompleteArgs, Given, IsAccessor, ReadPrimary, ReadChain, StartsAccessor, ItemTerm;
    FormedParts(p);
    CompleteParts(p);
    ArgsReadBack(p.args);
    ChainSplits(p, true, rest);
    var after := if p.next.None? then rest else ChainText(p.next.value, false).value + rest;
    NextReads(p, rest);
    PrimaryReads(p, after);
    PathStep(HeadOfItem(p).value + after, ItemTerm(p, None), after, NextTerm(p), rest);
    TermSplits(p);
  }

  function NextTerm(p: Path): Option<Term> { if p.next.None? then None else Some(TermOf(p.next.value)) }

  lemma TermSplits(p: Path)
    ensures TermOf(p) == ItemTerm(p, None).(next := NextTerm(p))
  {
    hide PortableKind, TextOf, SubscriptTerms, ArgTerm;
  }

  lemma PathStep(t: seq<byte>, e: Term, after: seq<byte>, next: Option<Term>, rest: seq<byte>)
    requires ReadPrimary(t) == Some(Got(e, after)) && ReadChain(after) == Some(Got(next, rest))
    ensures ReadPath(t) == Some(Got(e.(next := next), rest))
  {
    hide ReadPrimary, ReadChain;
  }

  lemma AccessorStep(t: seq<byte>, e: Term, after: seq<byte>, next: Option<Term>, rest: seq<byte>)
    requires StartsAccessor(t) && ReadAccessor(t) == Some(Got(e, after)) && ReadChain(after) == Some(Got(next, rest))
    ensures ReadChain(t) == Some(Got(Some(e.(next := next)), rest))
  {
    hide ReadAccessor;
  }

  lemma NoChain(rest: seq<byte>)
    requires Stops(rest)
    ensures ReadChain(rest) == Some(Got(None, rest)) && !StartsAccessor(rest)
  {
    hide ReadAccessor;
  }

  // What is applied to an item, and what follows.
  lemma {:induction false} NextReads(p: Path, rest: seq<byte>)
    requires Stops(rest)
    requires p.next.Some? ==>
      Formed(p.next.value) && Complete(p.next.value) && ChainText(p.next.value, false).Some?
    ensures var after := if p.next.None? then rest else ChainText(p.next.value, false).value + rest;
      Continues(p, after) && ReadChain(after) == Some(Got(NextTerm(p), rest))
    decreases p, 0
  {
    hide Formed, Complete, TermOf, ChainText, AllReadBack, HeadOfItem, FitsDetail, FitsArgs, IsKnown, FormedArgs,
      CompleteArgs, Given, IsAccessor, ReadChain, ReadAccessor, StartsAccessor, ItemTerm, Stops;
    if p.next.None? {
      NoChain(rest);
    } else {
      var q := p.next.value;
      FormedParts(q);
      CompleteParts(q);
      ArgsReadBack(q.args);
      ChainSplits(q, false, rest);
      var after := if q.next.None? then rest else ChainText(q.next.value, false).value + rest;
      NextReads(q, rest);
      AccessorReads(q, after);
      AccessorStep(HeadOfItem(q).value + after, ItemTerm(q, None), after, NextTerm(q), rest);
      TermSplits(q);
    }
  }

  // A path's text, wherever it has one, is read as the path.
  lemma TextReadsBack(p: Path)
    requires Formed(p) && Complete(p) && Print(p, []).Some?
    ensures ReadPath(Print(p, []).value) == Some(Got(TermOf(p), []))
  {
    hide Formed, Complete, ReadPath, TermOf, ChainText, Print;
    PrintIsChain(p, []);
    RootReads(p, []);
    var t := ChainText(p, true).value;
    assert [] + t == t && t + [] == t;
  }

  // -- What is held is complete ---------------------------------------------------------------------------------

  lemma {:induction false} SubscriptsAlternate(at: nat, count: nat)
    ensures forall j :: 0 <= j < 2 * count ==> SubscriptSlots(at, count)[j].optional == (j % 2 == 1)
    decreases count
  {
    if count > 0 { SubscriptsAlternate(at + 8, count - 1); }
  }

  lemma SlotsOptional(x: Image, k: nat, payload: nat)
    requires Slots(x, k, payload).Some?
    ensures var slots := Slots(x, k, payload).value;
      forall j :: 0 <= j < |slots| ==> slots[j].optional == Optional(k, j)
  {
    if k == SUBSCRIPTS { SubscriptsAlternate(payload + 4, |Slots(x, k, payload).value| / 2); }
    UnaryIsNoMethod(k);
    BinaryIsNoMethod(k);
    hide SubscriptSlots, Operator, ArgumentMethod;
  }

  lemma ItemOptional(x: Image, position: nat)
    requires ReadItem(x, position).Some?
    ensures var item := ItemAt(x, position);
      forall j :: 0 <= j < |item.slots| ==> item.slots[j].optional == Optional(item.kind, j)
  {
    hide ReadItem, Slots, Optional, ItemAt;
    ReadParts(x, position);
    SlotsOptional(x, x.data[position], (position + 4) / 4 * 4 + 4);
  }

  lemma {:induction false} HeldGiven(x: Image, position: nat, slots: seq<Slot>, args: Args, k: nat, i: nat)
    requires HoldsArgs(x, position, slots, args)
    requires forall j :: 0 <= j < |slots| && slots[j].optional ==> Optional(k, i + j)
    ensures Given(k, i, args)
    decreases args
  {
    hide Holds, Optional, Jsonpath.Word;
    if args.Arg? {
      assert args.first.None? ==> slots[0].optional && Optional(k, i + 0);
      forall j | 0 <= j < |slots[1..]| && slots[1..][j].optional ensures Optional(k, i + 1 + j) {
        assert slots[1..][j] == slots[j + 1];
      }
      HeldGiven(x, position, slots[1..], args.rest, k, i + 1);
    }
  }

  // Whatever an image holds has every argument that must be there.
  lemma {:induction false} HeldIsComplete(x: Image, position: nat, p: Path)
    requires Holds(x, position, p)
    ensures Complete(p)
    decreases p
  {
    hide Holds, HoldsArgs, ReadItem, ItemAt, Slots, Given, CompleteArgs, Optional;
    HeldItem(x, position, p);
    ItemOptional(x, position);
    HeldGiven(x, position, ItemAt(x, position).slots, p.args, p.kind, 0);
    HeldArgsComplete(x, position, ItemAt(x, position).slots, p.args);
    if p.next.Some? { HeldIsComplete(x, position + ItemAt(x, position).next, p.next.value); }
  }

  lemma {:induction false} HeldArgsComplete(x: Image, position: nat, slots: seq<Slot>, args: Args)
    requires HoldsArgs(x, position, slots, args)
    ensures CompleteArgs(args)
    decreases args
  {
    hide Holds, HoldsArgs, Jsonpath.Word, Complete, TargetOf;
    match args
    case NoArgs =>
    case Arg(first, rest) =>
      HeldArg(x, position, slots, args);
      if first.Some? { HeldIsComplete(x, TargetOf(x, position, slots), first.value); }
      HeldArgsComplete(x, position, Others(slots), rest);
  }

  // -- Stored paths -----------------------------------------------------------------------------------------------

  datatype Reading = Reading(lax: bool, path: Term)

  // The text of a path behind the word for its mode.
  function ReadText(t: seq<byte>): Option<Reading>
  {
    var lax := Skip(t, "lax ");
    var body := if lax.Some? then lax else Skip(t, "strict ");
    if body.None? then None
    else match ReadPath(body.value)
      case None => None
      case Some(r) => if r.rest == [] then Some(Reading(lax.Some?, r.value)) else None
  }

  lemma ModeReads(lax: bool, t: seq<byte>, e: Term)
    requires ReadPath(t) == Some(Got(e, []))
    ensures ReadText(S.ModeText(lax) + t) == Some(Reading(lax, e))
  {
    hide ReadPath, AsciiBytes, Skip;
    SkipsToken("lax ", t);
    SkipsToken("strict ", t);
    if !lax {
      FirstByte("strict ", t);
      SkipsNot(AsciiBytes("strict ") + t, "lax ", 0);
    }
  }

  // The text of a stored path, whatever items it shares, reads as the path that is held.
  lemma StoredTextReads(body: seq<byte>, order: ByteOrder, utf8: bool) returns (p: Path)
    requires S.StoredJsonpath(body, order, utf8).Some?
    ensures S.Versioned(order, body) && |body| >= 4 && Holds(Image(body[4..], order, utf8), 0, p)
    ensures ReadText(S.StoredJsonpath(body, order, utf8).value.source) == Some(Reading(S.Lax(order, body), TermOf(p)))
  {
    hide Print, Holds, Formed, Complete, ReadPath, TermOf, ReadText, S.StoredJsonpath, S.Lax, S.Versioned, S.ModeText;
    var v := S.StoredJsonpath(body, order, utf8).value;
    S.StoredTextIsPath(body, order, utf8, v.source);
    S.VersionedLength(order, body);
    var x := Image(body[4..], order, utf8);
    p :| Holds(x, 0, p) && Print(p, []).Some? && v.source == S.ModeText(S.Lax(order, body)) + Print(p, []).value;
    HeldIsFormed(x, 0, p);
    HeldIsComplete(x, 0, p);
    TextReadsBack(p);
    ModeReads(S.Lax(order, body), Print(p, []).value, TermOf(p));
  }

  // The text and the table captured from a path say the same: the one reads, and the other grows, into one term.
  lemma TextAndTableAgree(body: seq<byte>, order: ByteOrder, utf8: bool, p: Path)
    requires S.Versioned(order, body) && |body| >= 4 && Holds(Image(body[4..], order, utf8), 0, p)
    requires Unshared(Image(body[4..], order, utf8), 0, p) && S.StoredJsonpath(body, order, utf8).Some?
    ensures var v := S.StoredJsonpath(body, order, utf8).value;
      ReadText(v.source) == Some(Reading(v.lax, TermOf(p))) && Grows(v.nodes, v.root, TermOf(p))
  {
    hide Print, Holds, Unshared, Formed, Complete, ReadPath, TermOf, ReadText, S.StoredJsonpath, S.Lax, S.Versioned,
      S.ModeText, Grows, Stands, Flat, Valid, S.Portable;
    var x := Image(body[4..], order, utf8);
    S.StoredPath(body, order, utf8, p);
    HeldIsFormed(x, 0, p);
    HeldIsComplete(x, 0, p);
    TextReadsBack(p);
    var v := S.StoredJsonpath(body, order, utf8).value;
    ModeReads(S.Lax(order, body), Print(p, []).value, TermOf(p));
    StandsGrows(v.nodes, v.root, p);
  }
}
