/** PostgreSQL's printed node trees: the tokenizer and the recursive-descent parser. */
module ExpressionTree {
  import opened Bytes
  import opened Parts
  import opened Loops

  datatype Value =
    | Text(token: string)
    | List(items: seq<Value>)
    | Tree(kind: string, fields: seq<Field>)

  datatype Field = Field(name: string, values: seq<Value>)

  // -- Characters -----------------------------------------------------------------------------------

  predicate Space(c: char)
  {
    '\t' <= c <= '\r' || c == ' ' || c == '\U{00A0}' || c == '\U{1680}' || '\U{2000}' <= c <= '\U{200A}' ||
    c == '\U{2028}' || c == '\U{2029}' || c == '\U{202F}' || c == '\U{205F}' || c == '\U{3000}' || c == '\U{FEFF}'
  }

  predicate Bracket(c: char)
  {
    c == '{' || c == '}' || c == '(' || c == ')' || c == '[' || c == ']'
  }

  predicate Stop(c: char) { Space(c) || Bracket(c) }

  predicate Letter(c: char) { 'A' <= c <= 'Z' || 'a' <= c <= 'z' }

  predicate IsName(s: string)
  {
    s != "" && Letter(s[0]) && forall i :: 0 < i < |s| ==> Letter(s[i]) || '0' <= s[i] <= '9' || s[i] == '_'
  }

  // -- Tokens ---------------------------------------------------------------------------------------

  // Characters of a bare token at the head of `s`; a backslash takes the next character along.
  function BareLength(s: string): (n: nat)
    ensures n <= |s|
    decreases |s|
  {
    if s == "" then 0
    else if s[0] == '\\' then if |s| == 1 then 1 else 2 + BareLength(s[2..])
    else if Stop(s[0]) then 0
    else 1 + BareLength(s[1..])
  }

  // Characters up to and including the closing quote.
  function QuotedLength(s: string): (n: Option<nat>)
    ensures n.Some? ==> 0 < n.value <= |s|
    decreases |s|
  {
    if s == "" then None
    else if s[0] == '\\' then
      if |s| == 1 then None
      else match QuotedLength(s[2..]) case None => None case Some(n) => Some(2 + n)
    else if s[0] == '"' then Some(1)
    else match QuotedLength(s[1..]) case None => None case Some(n) => Some(1 + n)
  }

  // The token at the head of a text that does not start with a space.
  function TokenLength(s: string): (n: Option<nat>)
    requires s != "" && !Space(s[0])
    ensures n.Some? ==> 0 < n.value <= |s|
  {
    if Bracket(s[0]) then Some(1)
    else if s[0] == '"' then match QuotedLength(s[1..]) case None => None case Some(n) => Some(1 + n)
    else Some(BareLength(s))
  }

  function Tokens(s: string): Option<seq<string>>
    decreases |s|
  {
    if s == "" then Some([])
    else if Space(s[0]) then Tokens(s[1..])
    else match TokenLength(s)
      case None => None
      case Some(n) =>
        match Tokens(s[n..])
        case None => None
        case Some(rest) => Some([s[..n]] + rest)
  }

  // -- What the tokenizer inverts: tokens laid out with spaces between them ---------------------------

  predicate BracketToken(t: string) { |t| == 1 && Bracket(t[0]) }

  predicate QuotedToken(t: string) { t != "" && t[0] == '"' && QuotedLength(t[1..]) == Some(|t| - 1) }

  predicate BareToken(t: string) { t != "" && !Stop(t[0]) && t[0] != '"' && BareLength(t) == |t| }

  predicate IsToken(t: string) { BracketToken(t) || QuotedToken(t) || BareToken(t) }

  // Every escape in a bare token is followed by the character it escapes.
  predicate Complete(t: string)
    decreases |t|
  {
    t == "" || (if t[0] == '\\' then |t| > 1 && Complete(t[2..]) else Complete(t[1..]))
  }

  predicate Blank(s: string) { forall i :: 0 <= i < |s| ==> Space(s[i]) }

  // `s` is the tokens in order with blanks around them, where a bare token needs a blank or a bracket
  // behind it, and may end in an unfinished escape only at the very end.
  predicate Follows(t: string, rest: string)
  {
    BareToken(t) ==> rest == "" || (Stop(rest[0]) && Complete(t))
  }

  function Lay(gaps: seq<string>, ts: seq<string>): string
    requires |gaps| == |ts| + 1
    decreases |ts|
  {
    gaps[0] + if ts == [] then "" else ts[0] + Lay(gaps[1..], ts[1..])
  }

  predicate Laid(gaps: seq<string>, ts: seq<string>)
    decreases |ts|
  {
    |gaps| == |ts| + 1 && Blank(gaps[0]) &&
    (ts != [] ==> IsToken(ts[0]) && Laid(gaps[1..], ts[1..]) && Follows(ts[0], Lay(gaps[1..], ts[1..])))
  }

  lemma StopEndsBare(s: string)
    requires s != "" && Stop(s[0])
    ensures BareLength(s) == 0
  {
    var c := s[0];
    assert c == '\\' ==> !Space(c) && !Bracket(c);
  }

  lemma {:induction false} BareStops(t: string, rest: string)
    requires BareLength(t) == |t|
    requires rest == "" || (Stop(rest[0]) && Complete(t))
    ensures BareLength(t + rest) == |t|
    decreases |t|
  {
    var s := t + rest;
    if t == "" {
      assert s == rest;
      if rest != "" { StopEndsBare(rest); }
    } else if t[0] == '\\' {
      if |t| > 1 {
        assert s[2..] == t[2..] + rest;
        BareStops(t[2..], rest);
      } else {
        assert s == t;
      }
    } else {
      assert s[1..] == t[1..] + rest;
      BareStops(t[1..], rest);
    }
  }

  lemma {:induction false} QuotedStops(t: string, rest: string)
    requires QuotedLength(t) == Some(|t|)
    ensures QuotedLength(t + rest) == Some(|t|)
    decreases |t|
  {
    var s := t + rest;
    if t[0] == '\\' {
      assert s[2..] == t[2..] + rest;
      QuotedStops(t[2..], rest);
    } else if t[0] != '"' {
      assert s[1..] == t[1..] + rest;
      QuotedStops(t[1..], rest);
    }
  }

  lemma TokenStops(t: string, rest: string)
    requires IsToken(t) && Follows(t, rest)
    ensures !Space((t + rest)[0]) && TokenLength(t + rest) == Some(|t|)
    ensures (t + rest)[..|t|] == t && (t + rest)[|t|..] == rest
  {
    hide BareLength, QuotedLength, Complete;
    var s := t + rest;
    if BareToken(t) {
      BareStops(t, rest);
    } else if QuotedToken(t) {
      assert s[1..] == t[1..] + rest;
      QuotedStops(t[1..], rest);
    }
  }

  lemma {:induction false} SkipBlank(gap: string, rest: string)
    requires Blank(gap)
    ensures Tokens(gap + rest) == Tokens(rest)
    decreases |gap|
  {
    if gap == "" {
      assert gap + rest == rest;
    } else {
      assert (gap + rest)[1..] == gap[1..] + rest;
      SkipBlank(gap[1..], rest);
    }
  }

  lemma {:induction false} TokensOfLayout(gaps: seq<string>, ts: seq<string>)
    requires Laid(gaps, ts)
    ensures Tokens(Lay(gaps, ts)) == Some(ts)
    decreases |ts|
  {
    hide IsToken, Follows, Blank, TokenLength;
    if ts == [] {
      SkipBlank(gaps[0], "");
    } else {
      var rest := Lay(gaps[1..], ts[1..]);
      TokensOfLayout(gaps[1..], ts[1..]);
      SkipBlank(gaps[0], ts[0] + rest);
      TokenStops(ts[0], rest);
      var s := ts[0] + rest;
      assert s != "" && Tokens(s[|ts[0]|..]) == Some(ts[1..]);
      assert Tokens(s) == Some([ts[0]] + ts[1..]);
      assert ts == [ts[0]] + ts[1..];
    }
  }

  lemma {:induction false} BareHead(s: string)
    ensures var n := BareLength(s);
      BareLength(s[..n]) == n && (n < |s| ==> Stop(s[n]) && Complete(s[..n]))
    decreases |s|
  {
    var n := BareLength(s);
    if s != "" && s[0] == '\\' && |s| > 1 {
      BareHead(s[2..]);
      SliceOfSlice(s, 2, |s|, 0, n - 2);
      assert s[..n][2..] == s[2..][..n - 2];
    } else if s != "" && s[0] != '\\' && !Stop(s[0]) {
      BareHead(s[1..]);
      assert s[..n][1..] == s[1..][..n - 1];
    }
  }

  lemma {:induction false} QuotedHead(s: string)
    requires QuotedLength(s).Some?
    ensures QuotedLength(s[..QuotedLength(s).value]) == QuotedLength(s)
    decreases |s|
  {
    var n := QuotedLength(s).value;
    if s[0] == '\\' {
      QuotedHead(s[2..]);
      assert s[..n][2..] == s[2..][..n - 2];
    } else if s[0] != '"' {
      QuotedHead(s[1..]);
      assert s[..n][1..] == s[1..][..n - 1];
    }
  }

  lemma TokenHead(s: string)
    requires s != "" && !Space(s[0]) && TokenLength(s).Some?
    ensures var n := TokenLength(s).value;
      IsToken(s[..n]) && Follows(s[..n], s[n..])
  {
    hide BareLength, QuotedLength, Complete;
    var n := TokenLength(s).value;
    if Bracket(s[0]) {
    } else if s[0] == '"' {
      QuotedHead(s[1..]);
      assert s[..n][1..] == s[1..][..n - 1];
    } else {
      BareHead(s);
    }
  }

  lemma LaySpace(c: char, inner: seq<string>, ts: seq<string>) returns (gaps: seq<string>)
    requires Space(c) && Laid(inner, ts)
    ensures Laid(gaps, ts) && Lay(gaps, ts) == [c] + Lay(inner, ts)
  {
    hide IsToken, Follows, Space;
    gaps := [[c] + inner[0]] + inner[1..];
    assert gaps[1..] == inner[1..];
  }

  lemma LayToken(t: string, inner: seq<string>, ts: seq<string>)
    requires IsToken(t) && Laid(inner, ts) && Follows(t, Lay(inner, ts))
    ensures Laid([""] + inner, [t] + ts) && Lay([""] + inner, [t] + ts) == t + Lay(inner, ts)
  {
    hide IsToken, Follows, Space;
    var gaps, all := [""] + inner, [t] + ts;
    assert gaps[1..] == inner && all[1..] == ts;
  }

  // Every text the tokenizer accepts is a layout of the tokens it returns.
  lemma {:induction false} LayoutOfTokens(s: string) returns (gaps: seq<string>)
    requires Tokens(s).Some?
    ensures Laid(gaps, Tokens(s).value) && Lay(gaps, Tokens(s).value) == s
    decreases |s|
  {
    hide IsToken, Follows, TokenLength, Space, Laid, Lay;
    if s == "" {
      gaps := [""];
      LayNothing();
    } else if Space(s[0]) {
      var inner := LayoutOfTokens(s[1..]);
      gaps := LaySpace(s[0], inner, Tokens(s).value);
      assert s == [s[0]] + s[1..];
    } else {
      var n := TokenLength(s).value;
      var inner := LayoutOfTokens(s[n..]);
      TokenHead(s);
      gaps := [""] + inner;
      LayToken(s[..n], inner, Tokens(s[n..]).value);
      assert s == s[..n] + s[n..];
    }
  }

  lemma LayNothing()
    ensures Laid([""], []) && Lay([""], []) == ""
  {
  }

  // -- The tokenizer's loops --------------------------------------------------------------------------

  // `index` may run one past the end, when a backslash is the last character.
  method ScanBare(source: string, start: nat) returns (index: nat)
    requires start < |source|
    ensures start + BareLength(source[start..]) == (if index > |source| then |source| else index)
    ensures start <= index
  {
    index := start;
    while index < |source|
      invariant start <= index <= |source| + 1
      invariant index <= |source| ==> start + BareLength(source[start..]) == index + BareLength(source[index..])
      invariant index > |source| ==> start + BareLength(source[start..]) == |source|
      decreases |source| + 1 - index
    {
      var next := source[index];
      var rest := source[index..];
      assert rest[1..] == source[index + 1..];
      if next == '\\' {
        if index + 2 <= |source| { assert rest[2..] == source[index + 2..]; }
        index := index + 2;
      } else {
        if Stop(next) {
          StopEndsBare(rest);
          return;
        }
        index := index + 1;
      }
    }
  }

  method ScanQuoted(source: string, start: nat) returns (index: nat)
    requires start <= |source|
    ensures QuotedLength(source[start..]).None? <==> index >= |source|
    ensures QuotedLength(source[start..]).Some? ==> QuotedLength(source[start..]) == Some(index + 1 - start)
    ensures start <= index
  {
    index := start;
    while index < |source|
      invariant start <= index <= |source| + 1
      invariant index > |source| ==> QuotedLength(source[start..]).None?
      invariant index <= |source| ==>
        QuotedLength(source[start..]) ==
          match QuotedLength(source[index..]) case None => None case Some(n) => Some(index - start + n)
      decreases |source| + 1 - index
    {
      var next := source[index];
      var rest := source[index..];
      assert rest[1..] == source[index + 1..];
      if next == '\\' {
        if index + 2 <= |source| { assert rest[2..] == source[index + 2..]; }
        index := index + 2;
      } else {
        if next == '"' { return; }
        index := index + 1;
      }
    }
  }

  lemma TokenStep(s: string, n: nat, tokens: seq<string>)
    requires s != "" && !Space(s[0]) && TokenLength(s) == Some(n)
    ensures Joined(tokens, Tokens(s)) == Joined(tokens + [s[..n]], Tokens(s[n..]))
  {
    hide TokenLength;
    var rest := Tokens(s[n..]);
    if rest.Some? {
      assert tokens + ([s[..n]] + rest.value) == tokens + [s[..n]] + rest.value;
    }
  }

  method Tokenize(source: string) returns (r: Option<seq<string>>)
    ensures r == Tokens(source)
  {
    hide BareLength, QuotedLength, Tokens, Joined, Space, Bracket;
    var tokens: seq<string> := [];
    var index := 0;
    assert source[0..] == source;
    JoinedEnds([], Tokens(source));
    while index < |source|
      invariant index <= |source|
      invariant Joined(tokens, Tokens(source[index..])) == Tokens(source)
    {
      var start := index;
      var first := source[index];
      ghost var here := source[start..];
      assert here[1..] == source[start + 1..];
      if Space(first) {
        index := index + 1;
        SpaceStep(here);
      } else {
        if Bracket(first) {
          index := index + 1;
        } else if first == '"' {
          index := ScanQuoted(source, index + 1);
          if index >= |source| {
            UnclosedQuote(here, tokens);
            return None;
          }
          index := index + 1;
        } else {
          index := ScanBare(source, index);
          if index > |source| { index := |source|; }
        }
        ghost var n := index - start;
        assert TokenLength(here) == Some(n);
        assert here[n..] == source[index..] && here[..n] == source[start..index];
        TokenStep(here, n, tokens);
        tokens := tokens + [source[start..index]];
      }
    }
    assert source[index..] == "";
    r := Some(tokens);
    NoTokens();
    JoinedEnds(tokens, None);
  }

  lemma SpaceStep(s: string)
    requires s != "" && Space(s[0])
    ensures Tokens(s) == Tokens(s[1..])
  {
  }

  lemma UnclosedQuote(s: string, tokens: seq<string>)
    requires s != "" && s[0] == '"' && QuotedLength(s[1..]).None?
    ensures Joined(tokens, Tokens(s)) == None
  {
    var c := s[0];
    assert !Space(c) && !Bracket(c);
  }

  lemma NoTokens()
    ensures Tokens("") == Some([])
  {
  }

  // -- The parser over tokens ---------------------------------------------------------------------------

  datatype Parsed<+T> = Failed | Parsed(value: T, rest: seq<string>) {
    predicate IsFailure() { Failed? }

    function PropagateFailure<U>(): Parsed<U>
      requires Failed?
    {
      Failed
    }

    function Extract(): (T, seq<string>)
      requires Parsed?
    {
      (value, rest)
    }
  }

  predicate Opens(token: string) { token == "(" || token == "[" }

  predicate Closes(token: string) { token == "}" || token == ")" || token == "]" }

  function CloseOf(token: string): string { if token == "(" then ")" else "]" }

  predicate FieldKey(token: string) { token != "" && token[0] == ':' }

  predicate HasField(fields: seq<Field>, name: string)
  {
    exists i :: 0 <= i < |fields| && fields[i].name == name
  }

  function ParseValue(ts: seq<string>): (p: Parsed<Value>)
    ensures p.Parsed? ==> |p.rest| < |ts|
    decreases |ts|, 0
  {
    if ts == [] then Failed
    else if ts[0] == "{" then
      if |ts| < 2 || !IsName(ts[1]) then Failed
      else
        var (fields, rest) :- ParseFields(ts[2..], []);
        Parsed(Tree(ts[1], fields), rest)
    else if Opens(ts[0]) then
      var (items, rest) :- ParseItems(ts[1..], CloseOf(ts[0]));
      Parsed(List(items), rest)
    else if Closes(ts[0]) then Failed
    else Parsed(Text(ts[0]), ts[1..])
  }

  // Values up to and including the closing token.
  function ParseItems(ts: seq<string>, close: string): (p: Parsed<seq<Value>>)
    ensures p.Parsed? ==> |p.rest| < |ts|
    decreases |ts|, 1
  {
    if ts != [] && ts[0] == close then Parsed([], ts[1..])
    else
      var (item, rest) :- ParseValue(ts);
      var (items, after) :- ParseItems(rest, close);
      Parsed([item] + items, after)
  }

  // Values up to the next field key or the end of the node.
  function ParseField(ts: seq<string>): (p: Parsed<seq<Value>>)
    ensures p.Parsed? ==> |p.rest| <= |ts|
    decreases |ts|, 1
  {
    if ts != [] && (ts[0] == "}" || FieldKey(ts[0])) then Parsed([], ts)
    else
      var (item, rest) :- ParseValue(ts);
      var (items, after) :- ParseField(rest);
      Parsed([item] + items, after)
  }

  function ParseFields(ts: seq<string>, fields: seq<Field>): (p: Parsed<seq<Field>>)
    ensures p.Parsed? ==> |p.rest| < |ts|
    decreases |ts|, 2
  {
    if ts == [] then Failed
    else if ts[0] == "}" then Parsed(fields, ts[1..])
    else if !FieldKey(ts[0]) || !IsName(ts[0][1..]) || HasField(fields, ts[0][1..]) then Failed
    else
      var (values, rest) :- ParseField(ts[1..]);
      ParseFields(rest, fields + [Field(ts[0][1..], values)])
  }

  function ParseTokens(ts: seq<string>): Option<Value>
  {
    var p := ParseValue(ts);
    if p.Parsed? && p.rest == [] then Some(p.value) else None
  }

  // The text of a catalog column to its value; None where the original throws.
  function Parse(source: string): Option<Value>
  {
    match Tokens(source) case None => None case Some(ts) => ParseTokens(ts)
  }

  // -- What the parser inverts: prints ------------------------------------------------------------------

  // A value with the brackets it was printed with.
  datatype Print =
    | PText(token: string)
    | PList(square: bool, items: seq<Print>)
    | PTree(kind: string, fields: seq<PField>)

  datatype PField = PField(name: string, values: seq<Print>)

  function Spell(p: Print): seq<string>
    decreases p, 0
  {
    match p
    case PText(token) => [token]
    case PList(square, items) => [if square then "[" else "("] + SpellAll(items) + [if square then "]" else ")"]
    case PTree(kind, fields) => ["{", kind] + SpellFields(fields) + ["}"]
  }

  function SpellAll(ps: seq<Print>): seq<string>
    decreases ps, 1
  {
    if ps == [] then [] else Spell(ps[0]) + SpellAll(ps[1..])
  }

  function SpellFields(fs: seq<PField>): seq<string>
    decreases fs, 1
  {
    if fs == [] then [] else [":" + fs[0].name] + SpellAll(fs[0].values) + SpellFields(fs[1..])
  }

  function Erase(p: Print): Value
    decreases p, 0
  {
    match p
    case PText(token) => Text(token)
    case PList(_, items) => List(EraseAll(items))
    case PTree(kind, fields) => Tree(kind, EraseFields(fields))
  }

  function EraseAll(ps: seq<Print>): (vs: seq<Value>)
    ensures |vs| == |ps|
    decreases ps, 1
  {
    if ps == [] then [] else [Erase(ps[0])] + EraseAll(ps[1..])
  }

  function EraseFields(fs: seq<PField>): (vs: seq<Field>)
    ensures |vs| == |fs|
    ensures forall i :: 0 <= i < |fs| ==> vs[i].name == fs[i].name
    decreases fs, 1
  {
    if fs == [] then [] else [Field(fs[0].name, EraseAll(fs[0].values))] + EraseFields(fs[1..])
  }

  // A field value that starts with a colon would be read as the next field's key.
  predicate KeyLike(p: Print) { p.PText? && FieldKey(p.token) }

  predicate WellFormed(p: Print)
    decreases p, 0
  {
    match p
    case PText(token) => token != "{" && !Opens(token) && !Closes(token)
    case PList(_, items) => AllWellFormed(items)
    case PTree(kind, fields) =>
      IsName(kind) && FieldsWellFormed(fields) &&
      forall i, j :: 0 <= i < j < |fields| ==> fields[i].name != fields[j].name
  }

  predicate AllWellFormed(ps: seq<Print>)
    decreases ps, 1
  {
    ps == [] || (WellFormed(ps[0]) && AllWellFormed(ps[1..]))
  }

  predicate FieldsWellFormed(fs: seq<PField>)
    decreases fs, 1
  {
    fs == [] ||
    (IsName(fs[0].name) && AllWellFormed(fs[0].values) && (forall p :: p in fs[0].values ==> !KeyLike(p)) &&
     FieldsWellFormed(fs[1..]))
  }

  // -- Parsing a print gives the value ------------------------------------------------------------------

  lemma Head(p: Print)
    requires WellFormed(p)
    ensures Spell(p) != [] && !Closes(Spell(p)[0]) && (!KeyLike(p) ==> !FieldKey(Spell(p)[0]))
  {
  }

  lemma Cons<T>(x: seq<T>, y: seq<T>, z: seq<T>)
    ensures x + y + z == x + (y + z)
  {
  }

  lemma {:induction false} ParsesPrint(p: Print, rest: seq<string>)
    requires WellFormed(p)
    ensures ParseValue(Spell(p) + rest) == Parsed(Erase(p), rest)
    decreases p, 0
  {
    hide ParseItems, ParseFields, SpellAll, SpellFields;
    var ts := Spell(p) + rest;
    match p {
      case PText(token) =>
        assert ts[1..] == rest;
      case PList(square, items) =>
        var close := if square then "]" else ")";
        ParsesItems(items, close, rest);
        assert ts[1..] == SpellAll(items) + ([close] + rest);
      case PTree(kind, fields) =>
        ParsesFields(fields, [], rest);
        assert ts[2..] == SpellFields(fields) + (["}"] + rest);
        assert [] + EraseFields(fields) == EraseFields(fields);
    }
  }

  lemma {:induction false} ParsesItems(ps: seq<Print>, close: string, rest: seq<string>)
    requires AllWellFormed(ps) && (close == ")" || close == "]")
    ensures ParseItems(SpellAll(ps) + ([close] + rest), close) == Parsed(EraseAll(ps), rest)
    decreases ps, 1
  {
    hide ParseValue, Spell, Erase, WellFormed;
    var tail := [close] + rest;
    var ts := SpellAll(ps) + tail;
    if ps == [] {
      assert ts == tail && ts[1..] == rest;
    } else {
      Head(ps[0]);
      var after := SpellAll(ps[1..]) + tail;
      assert ts == Spell(ps[0]) + after;
      ParsesPrint(ps[0], after);
      ParsesItems(ps[1..], close, rest);
    }
  }

  lemma {:induction false} ParsesField(ps: seq<Print>, rest: seq<string>)
    requires AllWellFormed(ps) && forall p :: p in ps ==> !KeyLike(p)
    requires rest != [] && (rest[0] == "}" || FieldKey(rest[0]))
    ensures ParseField(SpellAll(ps) + rest) == Parsed(EraseAll(ps), rest)
    decreases ps, 1
  {
    hide ParseValue, Spell, Erase, WellFormed;
    var ts := SpellAll(ps) + rest;
    if ps == [] {
      assert ts == rest;
    } else {
      Head(ps[0]);
      var after := SpellAll(ps[1..]) + rest;
      assert ts == Spell(ps[0]) + after;
      ParsesPrint(ps[0], after);
      ParsesField(ps[1..], rest);
    }
  }

  predicate NewNames(done: seq<Field>, fs: seq<PField>)
  {
    (forall i :: 0 <= i < |fs| ==> !HasField(done, fs[i].name)) &&
    forall i, j :: 0 <= i < j < |fs| ==> fs[i].name != fs[j].name
  }

  lemma MoreFields(done: seq<Field>, field: Field, name: string)
    ensures HasField(done + [field], name) <==> HasField(done, name) || field.name == name
  {
    var more := done + [field];
    if k :| 0 <= k < |done| && done[k].name == name { assert more[k].name == name; }
    assert more[|done|].name == field.name;
  }

  lemma NextNames(done: seq<Field>, fs: seq<PField>, field: Field)
    requires fs != [] && NewNames(done, fs) && field.name == fs[0].name
    ensures NewNames(done + [field], fs[1..])
  {
    forall i | 0 <= i < |fs[1..]| ensures !HasField(done + [field], fs[1..][i].name) {
      MoreFields(done, field, fs[i + 1].name);
    }
  }

  lemma {:induction false} ParsesFields(fs: seq<PField>, done: seq<Field>, rest: seq<string>)
    requires FieldsWellFormed(fs) && NewNames(done, fs)
    ensures ParseFields(SpellFields(fs) + (["}"] + rest), done) == Parsed(done + EraseFields(fs), rest)
    decreases fs, 1
  {
    hide ParseField, SpellAll, AllWellFormed, HasField, EraseAll, IsName, FieldKey, NewNames, KeyLike, ParseFields,
      SpellFields, EraseFields,
      FieldsWellFormed;
    if fs == [] {
      NoFieldsParse(done, rest);
    } else {
      var field := Field(fs[0].name, EraseAll(fs[0].values));
      FirstWellFormed(fs);
      FirstIsNew(done, fs);
      NextNames(done, fs, field);
      FieldsHead(fs[1..], rest);
      ParsesField(fs[0].values, SpellFields(fs[1..]) + (["}"] + rest));
      FirstFieldParses(fs, done, SpellFields(fs[1..]) + (["}"] + rest), rest);
      ParsesFields(fs[1..], done + [field], rest);
      FirstErased(fs);
      assert done + [field] + EraseFields(fs[1..]) == done + EraseFields(fs);
    }
  }

  lemma NoFieldsParse(done: seq<Field>, rest: seq<string>)
    ensures ParseFields(SpellFields([]) + (["}"] + rest), done) == Parsed(done + EraseFields([]), rest)
  {
    var ts := SpellFields([]) + (["}"] + rest);
    assert ts == ["}"] + rest && ts[1..] == rest && done + [] == done;
  }

  lemma FirstWellFormed(fs: seq<PField>)
    requires fs != [] && FieldsWellFormed(fs)
    ensures IsName(fs[0].name) && AllWellFormed(fs[0].values) && (forall p :: p in fs[0].values ==> !KeyLike(p))
    ensures FieldsWellFormed(fs[1..])
  {
    hide AllWellFormed, IsName, KeyLike;
  }

  lemma FirstErased(fs: seq<PField>)
    requires fs != []
    ensures EraseFields(fs) == [Field(fs[0].name, EraseAll(fs[0].values))] + EraseFields(fs[1..])
  {
    hide EraseAll;
  }

  // The first field is taken off and the others are still to be parsed.
  lemma FirstFieldParses(fs: seq<PField>, done: seq<Field>, after: seq<string>, rest: seq<string>)
    requires fs != [] && IsName(fs[0].name) && !HasField(done, fs[0].name)
    requires after == SpellFields(fs[1..]) + (["}"] + rest)
    requires ParseField(SpellAll(fs[0].values) + after) == Parsed(EraseAll(fs[0].values), after)
    ensures ParseFields(SpellFields(fs) + (["}"] + rest), done) ==
      ParseFields(SpellFields(fs[1..]) + (["}"] + rest), done + [Field(fs[0].name, EraseAll(fs[0].values))])
  {
    hide ParseField, SpellAll, HasField, EraseAll, IsName, ParseFields, SpellFields;
    SpellFieldsHead(fs, ["}"] + rest);
    var ts := [":" + fs[0].name] + (SpellAll(fs[0].values) + after);
    assert ts[1..] == SpellAll(fs[0].values) + after;
    FieldsUnfold(ts, done, fs[0].name);
  }

  lemma FirstIsNew(done: seq<Field>, fs: seq<PField>)
    requires fs != [] && NewNames(done, fs)
    ensures !HasField(done, fs[0].name)
  {
    hide HasField;
  }

  lemma SpellFieldsHead(fs: seq<PField>, tail: seq<string>)
    requires fs != []
    ensures SpellFields(fs) + tail == [":" + fs[0].name] + (SpellAll(fs[0].values) + (SpellFields(fs[1..]) + tail))
  {
    hide SpellAll;
  }

  lemma FieldsUnfold(ts: seq<string>, done: seq<Field>, name: string)
    requires ts != [] && ts[0] == ":" + name && IsName(name) && !HasField(done, name)
    ensures var p := ParseField(ts[1..]);
      ParseFields(ts, done) == if p.Failed? then Failed else ParseFields(p.rest, done + [Field(name, p.value)])
  {
    hide ParseField, IsName, HasField;
    assert (":" + name)[1..] == name;
  }

  lemma FieldsHead(fs: seq<PField>, rest: seq<string>)
    ensures var after := SpellFields(fs) + (["}"] + rest);
      after != [] && (after[0] == "}" || FieldKey(after[0]))
  {
  }

  // -- Every parse is the parse of a print ----------------------------------------------------------------

  lemma {:induction false} PrintOf(ts: seq<string>) returns (p: Print)
    requires ParseValue(ts).Parsed?
    ensures WellFormed(p) && Erase(p) == ParseValue(ts).value && ts == Spell(p) + ParseValue(ts).rest
    decreases |ts|, 0
  {
    hide ParseItems, ParseFields, SpellAll, SpellFields, EraseAll, EraseFields;
    var rest := ParseValue(ts).rest;
    if ts[0] == "{" {
      var fields := FieldsOf(ts[2..], []);
      p := PTree(ts[1], fields);
      assert [] + EraseFields(fields) == EraseFields(fields);
      assert ts == ["{", ts[1]] + ts[2..];
      Cons(["{", ts[1]], SpellFields(fields), ["}"] + rest);
      Cons(["{", ts[1]] + SpellFields(fields), ["}"], rest);
    } else if Opens(ts[0]) {
      var close := CloseOf(ts[0]);
      var items := ItemsOf(ts[1..], close);
      p := PList(ts[0] == "[", items);
      assert ts == [ts[0]] + ts[1..];
      Cons([ts[0]], SpellAll(items), [close] + rest);
      Cons([ts[0]] + SpellAll(items), [close], rest);
    } else {
      p := PText(ts[0]);
      assert ts == [ts[0]] + ts[1..];
    }
  }

  lemma {:induction false} ItemsOf(ts: seq<string>, close: string) returns (ps: seq<Print>)
    requires ParseItems(ts, close).Parsed?
    ensures AllWellFormed(ps) && EraseAll(ps) == ParseItems(ts, close).value
    ensures ts == SpellAll(ps) + ([close] + ParseItems(ts, close).rest)
    decreases |ts|, 1
  {
    hide ParseValue, Spell, Erase, WellFormed;
    if ts != [] && ts[0] == close {
      ps := [];
      assert ts == [close] + ts[1..];
    } else {
      var p := PrintOf(ts);
      var rest := ParseValue(ts).rest;
      var inner := ItemsOf(rest, close);
      ps := [p] + inner;
      assert ps[1..] == inner;
      Cons(Spell(p), SpellAll(inner), [close] + ParseItems(rest, close).rest);
    }
  }

  lemma {:induction false} FieldOf(ts: seq<string>) returns (ps: seq<Print>)
    requires ParseField(ts).Parsed?
    ensures AllWellFormed(ps) && EraseAll(ps) == ParseField(ts).value && (forall p :: p in ps ==> !KeyLike(p))
    ensures ts == SpellAll(ps) + ParseField(ts).rest
    decreases |ts|, 1
  {
    hide ParseValue, Erase, WellFormed;
    if ts != [] && (ts[0] == "}" || FieldKey(ts[0])) {
      ps := [];
      assert ts == [] + ts;
    } else {
      var p := PrintOf(ts);
      var rest := ParseValue(ts).rest;
      var inner := FieldOf(rest);
      ps := [p] + inner;
      assert ps[1..] == inner;
      Head(p);
      Cons(Spell(p), SpellAll(inner), ParseField(rest).rest);
    }
  }

  lemma {:induction false} FieldsOf(ts: seq<string>, done: seq<Field>) returns (fs: seq<PField>)
    requires ParseFields(ts, done).Parsed?
    ensures FieldsWellFormed(fs) && NewNames(done, fs)
    ensures ParseFields(ts, done).value == done + EraseFields(fs)
    ensures ts == SpellFields(fs) + (["}"] + ParseFields(ts, done).rest)
    decreases |ts|, 2
  {
    hide ParseField, Spell, SpellAll, AllWellFormed, WellFormed, EraseAll;
    var rest := ParseFields(ts, done).rest;
    if ts[0] == "}" {
      fs := [];
      assert ts == ["}"] + ts[1..];
      assert done + [] == done;
    } else {
      var name := ts[0][1..];
      var values := FieldOf(ts[1..]);
      var field := Field(name, EraseAll(values));
      var after := ParseField(ts[1..]).rest;
      var inner := FieldsOf(after, done + [field]);
      fs := [PField(name, values)] + inner;
      assert fs[1..] == inner;
      PreviousNames(done, fs, field);
      assert ts[0] == ":" + name && ts == [ts[0]] + ts[1..];
      Cons([ts[0]], SpellAll(values), after);
      Cons([ts[0]] + SpellAll(values), SpellFields(inner), ["}"] + rest);
      Cons(done, [field], EraseFields(inner));
    }
  }

  lemma PreviousNames(done: seq<Field>, fs: seq<PField>, field: Field)
    requires fs != [] && field.name == fs[0].name && !HasField(done, field.name) && NewNames(done + [field], fs[1..])
    ensures NewNames(done, fs)
  {
    forall i | 0 < i < |fs| ensures !HasField(done, fs[i].name) && fs[i].name != fs[0].name {
      assert fs[i] == fs[1..][i - 1];
      MoreFields(done, field, fs[i].name);
    }
    forall i, j | 0 < i < j < |fs| ensures fs[i].name != fs[j].name {
      assert fs[i] == fs[1..][i - 1] && fs[j] == fs[1..][j - 1];
    }
  }

  // -- The two together -----------------------------------------------------------------------------------

  // `source` prints `v`: its tokens, with blanks between them, spell some bracketing of `v`.
  ghost predicate Prints(source: string, v: Value, p: Print, gaps: seq<string>)
  {
    WellFormed(p) && Erase(p) == v && Laid(gaps, Spell(p)) && Lay(gaps, Spell(p)) == source
  }

  // A text parses to a value exactly when it is a print of it; so trailing tokens, unbalanced brackets,
  // repeated fields and anything else that no value prints is refused.
  lemma ParseInvertsPrint(source: string, v: Value)
    ensures Parse(source) == Some(v) <==> exists p, gaps :: Prints(source, v, p, gaps)
  {
    hide Tokens, ParseValue, Spell, Erase, WellFormed, Laid, Lay;
    if p, gaps :| Prints(source, v, p, gaps) {
      TokensOfLayout(gaps, Spell(p));
      ParsesPrint(p, []);
      assert Spell(p) + [] == Spell(p);
    }
    if Parse(source) == Some(v) {
      var ts := Tokens(source).value;
      var gaps := LayoutOfTokens(source);
      var p := PrintOf(ts);
      assert ts == Spell(p) + [] == Spell(p);
      assert Prints(source, v, p, gaps);
    }
  }

  // -- The parser's cursor ----------------------------------------------------------------------------------

  function WithItems(before: seq<Value>, p: Parsed<seq<Value>>): Parsed<seq<Value>>
  {
    match p case Failed => Failed case Parsed(items, rest) => Parsed(before + items, rest)
  }

  lemma ItemsStep(before: seq<Value>, item: Value, p: Parsed<seq<Value>>)
    ensures WithItems(before + [item], p) == WithItems(before, WithItems([item], p))
  {
    if p.Parsed? { assert before + [item] + p.value == before + ([item] + p.value); }
  }

  lemma ItemsStart(p: Parsed<seq<Value>>)
    ensures WithItems([], p) == p
  {
    if p.Parsed? { assert [] + p.value == p.value; }
  }

  // A reading of the tokens from some position on left the cursor at `next`.
  ghost predicate Reads<T>(p: Parsed<T>, tokens: seq<string>, value: Option<T>, next: nat)
  {
    if p.Failed? then value == None
    else value == Some(p.value) && next <= |tokens| && p.rest == tokens[next..]
  }

  // Reads the value at `position`; None where the original throws.
  method ReadValue(tokens: seq<string>, position: nat) returns (value: Option<Value>, next: nat)
    requires position <= |tokens|
    ensures Reads(ParseValue(tokens[position..]), tokens, value, next)
    ensures value.Some? ==> position < next
    decreases |tokens| - position, 0
  {
    hide ParseItems, ParseFields;
    next := position;
    value := None;
    if position == |tokens| { return; }
    var token := tokens[position];
    ghost var here := tokens[position..];
    assert here[1..] == tokens[position + 1..];
    if token == "{" {
      if position + 2 > |tokens| || !IsName(tokens[position + 1]) { return; }
      assert here[2..] == tokens[position + 2..];
      var fields, after := ReadFields(tokens, position + 2);
      if fields.Some? {
        value, next := Some(Tree(tokens[position + 1], fields.value)), after;
      }
    } else if Opens(token) {
      var items, after := ReadItems(tokens, position + 1, CloseOf(token));
      if items.Some? {
        value, next := Some(List(items.value)), after;
      }
    } else if !Closes(token) {
      value, next := Some(Text(token)), position + 1;
    }
  }

  method ReadItems(tokens: seq<string>, position: nat, close: string) returns (list: Option<seq<Value>>, next: nat)
    requires position <= |tokens|
    ensures Reads(ParseItems(tokens[position..], close), tokens, list, next)
    ensures list.Some? ==> position < next
    decreases |tokens| - position, 1
  {
    hide ParseValue, WithItems;
    var items: seq<Value> := [];
    next := position;
    ItemsStart(ParseItems(tokens[position..], close));
    while next == |tokens| || tokens[next] != close
      invariant position <= next <= |tokens|
      invariant WithItems(items, ParseItems(tokens[next..], close)) == ParseItems(tokens[position..], close)
      decreases |tokens| - next
    {
      var item, after := ReadValue(tokens, next);
      ItemsUnfold(tokens[next..], close, items);
      if item.None? { return None, next; }
      items, next := items + [item.value], after;
    }
    assert tokens[next..][1..] == tokens[next + 1..];
    assert WithItems(items, Parsed([], tokens[next + 1..])) == Parsed(items,
      tokens[next + 1..]) by { ItemsEnd(items, tokens[next + 1..]); }
    list, next := Some(items), next + 1;
  }

  lemma ItemsEnd(items: seq<Value>, rest: seq<string>)
    ensures WithItems(items, Parsed([], rest)) == Parsed(items, rest)
  {
    assert items + [] == items;
  }

  lemma ItemsUnfold(ts: seq<string>, close: string, items: seq<Value>)
    requires ts == [] || ts[0] != close
    ensures ParseValue(ts).Failed? ==> WithItems(items, ParseItems(ts, close)).Failed?
    ensures ParseValue(ts).Parsed? ==>
      WithItems(items, ParseItems(ts, close)) == WithItems(items + [ParseValue(ts).value],
                                                           ParseItems(ParseValue(ts).rest, close))
  {
    hide ParseValue;
    var p := ParseValue(ts);
    if p.Parsed? { ItemsStep(items, p.value, ParseItems(p.rest, close)); }
  }

  lemma FieldUnfold(ts: seq<string>, items: seq<Value>)
    requires ts == [] || (ts[0] != "}" && !FieldKey(ts[0]))
    ensures ParseValue(ts).Failed? ==> WithItems(items, ParseField(ts)).Failed?
    ensures ParseValue(ts).Parsed? ==>
      WithItems(items, ParseField(ts)) == WithItems(items + [ParseValue(ts).value], ParseField(ParseValue(ts).rest))
  {
    hide ParseValue;
    var p := ParseValue(ts);
    if p.Parsed? { ItemsStep(items, p.value, ParseField(p.rest)); }
  }

  method ReadField(tokens: seq<string>, position: nat) returns (values: Option<seq<Value>>, next: nat)
    requires position <= |tokens|
    ensures Reads(ParseField(tokens[position..]), tokens, values, next)
    ensures values.Some? ==> position <= next
    decreases |tokens| - position, 1
  {
    hide ParseValue, WithItems;
    var items: seq<Value> := [];
    next := position;
    ItemsStart(ParseField(tokens[position..]));
    while next == |tokens| || (tokens[next] != "}" && !FieldKey(tokens[next]))
      invariant position <= next <= |tokens|
      invariant WithItems(items, ParseField(tokens[next..])) == ParseField(tokens[position..])
      decreases |tokens| - next
    {
      var item, after := ReadValue(tokens, next);
      FieldUnfold(tokens[next..], items);
      if item.None? { return None, next; }
      items, next := items + [item.value], after;
    }
    ItemsEnd(items, tokens[next..]);
    values := Some(items);
  }

  method ReadFields(tokens: seq<string>, position: nat) returns (fields: Option<seq<Field>>, next: nat)
    requires position <= |tokens|
    ensures Reads(ParseFields(tokens[position..], []), tokens, fields, next)
    ensures fields.Some? ==> position < next
    decreases |tokens| - position, 2
  {
    hide ParseField, IsName, HasField;
    var done: seq<Field> := [];
    next := position;
    while next == |tokens| || tokens[next] != "}"
      invariant position <= next <= |tokens|
      invariant ParseFields(tokens[next..], done) == ParseFields(tokens[position..], [])
      decreases |tokens| - next
    {
      if next == |tokens| { return None, next; }
      var key := tokens[next];
      assert tokens[next..][1..] == tokens[next + 1..];
      if !FieldKey(key) || !IsName(key[1..]) || HasField(done, key[1..]) { return None, next; }
      var values, after := ReadField(tokens, next + 1);
      if values.None? { return None, next; }
      done, next := done + [Field(key[1..], values.value)], after;
    }
    assert tokens[next..][1..] == tokens[next + 1..];
    fields, next := Some(done), next + 1;
  }

  method ParseTree(source: string) returns (r: Option<Value>)
    ensures r == Parse(source)
  {
    hide Tokens, ParseValue;
    var tokens := Tokenize(source);
    if tokens.None? { return None; }
    assert tokens.value[0..] == tokens.value;
    var value, position := ReadValue(tokens.value, 0);
    if value.None? || position != |tokens.value| { return None; }
    assert tokens.value[position..] == [];
    r := value;
  }

  // -- Reading fields -----------------------------------------------------------------------------------------

  function FieldValues(fields: seq<Field>, name: string): Option<seq<Value>>
    decreases |fields|
  {
    if fields == [] then None else if fields[0].name == name then Some(fields[0].values) else FieldValues(fields[1..],
        name)
  }

  // The text of a field that holds one bare value.
  function Scalar(node: Value, name: string): Option<string>
  {
    if !node.Tree? then None
    else match FieldValues(node.fields, name)
      case None => None
      case Some(values) => if |values| == 1 && values[0].Text? then Some(values[0].token) else None
  }
}
