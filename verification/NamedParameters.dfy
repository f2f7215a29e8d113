/** Named parameters in query files (src/query-file.ts): `@name` becomes `$k`, and positions are carried back. */
module NamedParameters {
  import opened Bytes
  import opened Parts
  import opened Decimal

  // A scanned token. `name` is what the token stands for as an identifier, folded or unquoted; other tokens
  // have none.
  datatype Token = Token(start: nat, end: nat, isAt: bool, isParam: bool, name: Option<string>)

  predicate Scanned(source: seq<byte>, tokens: seq<Token>)
  {
    (forall i :: 0 <= i < |tokens| ==>
      tokens[i].start < tokens[i].end <= |source| && (tokens[i].isAt ==> tokens[i].name.None?)) &&
    (forall i :: 0 < i < |tokens| ==> tokens[i - 1].end <= tokens[i].start)
  }

  datatype Replacement = Replacement(name: string, index: nat, start: nat, end: nat)

  datatype Occurrence = Occurrence(sourceStart: nat, sourceEnd: nat, sqlStart: nat, sqlEnd: nat)

  datatype Parameter = Parameter(name: string, index: nat, occurrences: seq<Occurrence>)

  // An `@` with an identifier right behind it.
  predicate Names(tokens: seq<Token>, i: nat)
  {
    i + 1 < |tokens| && tokens[i].isAt && tokens[i].end == tokens[i + 1].start && tokens[i + 1].name.Some?
  }

  // -- Numbering -------------------------------------------------------------------------------------------

  function IndexOf(names: seq<string>, name: string): (k: nat)
    ensures k <= |names| && (k < |names| ==> names[k] == name) && (k == |names| <==> name !in names)
  {
    if names == [] || names[0] == name then 0 else 1 + IndexOf(names[1..], name)
  }

  function Noted(names: seq<string>, name: string): seq<string> { if name in names then names else names + [name] }

  // The names from token `i` on, in order of first appearance behind those already known.
  function NamesFrom(tokens: seq<Token>, i: nat, names: seq<string>): seq<string>
    decreases |tokens| - i
  {
    if i + 1 >= |tokens| then names
    else NamesFrom(tokens, i + 1, if Names(tokens, i) then Noted(names, tokens[i + 1].name.value) else names)
  }

  function ReplacementsFrom(tokens: seq<Token>, i: nat, names: seq<string>): seq<Replacement>
    decreases |tokens| - i
  {
    if i + 1 >= |tokens| then []
    else if !Names(tokens, i) then ReplacementsFrom(tokens, i + 1, names)
    else
      var name := tokens[i + 1].name.value;
      [Replacement(name, IndexOf(names, name) + 1, tokens[i].start, tokens[i + 1].end)] +
      ReplacementsFrom(tokens, i + 1, Noted(names, name))
  }

  predicate Distinct(names: seq<string>) { forall i, j :: 0 <= i < j < |names| ==> names[i] != names[j] }

  lemma {:induction false} NamesGrow(tokens: seq<Token>, i: nat, names: seq<string>)
    requires Distinct(names)
    ensures Distinct(NamesFrom(tokens, i, names)) && names <= NamesFrom(tokens, i, names)
    decreases |tokens| - i
  {
    if i + 1 < |tokens| {
      NamesGrow(tokens, i + 1, if Names(tokens, i) then Noted(names, tokens[i + 1].name.value) else names);
    }
  }

  // The scan's step at token `i`.
  lemma ScanStep(tokens: seq<Token>, i: nat, names: seq<string>)
    requires i + 1 < |tokens|
    ensures Names(tokens, i) ==>
      var name := tokens[i + 1].name.value;
      ReplacementsFrom(tokens, i, names) ==
        [Replacement(name, IndexOf(names, name) + 1, tokens[i].start, tokens[i + 1].end)] +
        ReplacementsFrom(tokens, i + 1, Noted(names, name)) &&
      NamesFrom(tokens, i, names) == NamesFrom(tokens, i + 1, Noted(names, name))
    ensures !Names(tokens, i) ==>
      ReplacementsFrom(tokens, i, names) == ReplacementsFrom(tokens, i + 1, names) &&
      NamesFrom(tokens, i, names) == NamesFrom(tokens, i + 1, names)
  {
    hide IndexOf, Noted;
  }

  lemma ScanEnd(tokens: seq<Token>, i: nat, names: seq<string>)
    requires i + 1 >= |tokens|
    ensures ReplacementsFrom(tokens, i, names) == [] && NamesFrom(tokens, i, names) == names
  {
  }

  lemma NotedDistinct(names: seq<string>, name: string)
    requires Distinct(names)
    ensures Distinct(Noted(names, name)) && names <= Noted(names, name)
    ensures |Noted(names, name)| == |names| + if name in names then 0 else 1
    ensures IndexOf(names, name) < |Noted(names, name)| && Noted(names, name)[IndexOf(names, name)] == name
  {
  }

  // Every replacement carries the number of its name among the distinct names, counted from 1.
  lemma {:induction false} Numbered(tokens: seq<Token>, i: nat, names: seq<string>, k: nat)
    requires Distinct(names) && k < |ReplacementsFrom(tokens, i, names)|
    ensures var r, all := ReplacementsFrom(tokens, i, names)[k], NamesFrom(tokens, i, names);
      1 <= r.index <= |all| && all[r.index - 1] == r.name
    decreases |tokens| - i
  {
    hide ReplacementsFrom, NamesFrom, Distinct, IndexOf, Noted, Names;
    if i + 1 >= |tokens| {
      ScanEnd(tokens, i, names);
    } else {
      ScanStep(tokens, i, names);
      if Names(tokens, i) {
        NamedTokens(tokens, i);
        var name := tokens[i + 1].name.value;
        NotedDistinct(names, name);
        if k == 0 {
          NamesGrow(tokens, i + 1, Noted(names, name));
        } else {
          Numbered(tokens, i + 1, Noted(names, name), k - 1);
        }
      } else {
        Numbered(tokens, i + 1, names, k);
      }
    }
  }

  lemma NamedTokens(tokens: seq<Token>, i: nat)
    requires Names(tokens, i)
    ensures i + 1 < |tokens| && tokens[i + 1].name.Some?
  {
  }

  // A number is new only when it is the next one: the n-th distinct name is the n-th to appear.
  lemma {:induction false} FirstAppearance(tokens: seq<Token>, i: nat, names: seq<string>, k: nat,
      n: nat) returns (j: nat)
    requires Distinct(names) && k < |ReplacementsFrom(tokens, i, names)|
    requires |names| < n < ReplacementsFrom(tokens, i, names)[k].index
    ensures j < k && ReplacementsFrom(tokens, i, names)[j].index == n
    decreases |tokens| - i
  {
    hide ReplacementsFrom, NamesFrom, Distinct, IndexOf, Noted, Names;
    j := 0;
    if i + 1 >= |tokens| {
      ScanEnd(tokens, i, names);
    } else {
      ScanStep(tokens, i, names);
      if Names(tokens, i) {
        NamedTokens(tokens, i);
        var name := tokens[i + 1].name.value;
        NotedDistinct(names, name);
        IndexBound(names, name);
        if name in names || n != |names| + 1 {
          var before := FirstAppearance(tokens, i + 1, Noted(names, name), k - 1, n);
          j := before + 1;
        }
      } else {
        j := FirstAppearance(tokens, i + 1, names, k, n);
      }
    }
  }

  lemma IndexBound(names: seq<string>, name: string)
    ensures IndexOf(names, name) <= |names| && (IndexOf(names, name) == |names| <==> name !in names)
  {
  }

  predicate SeenBefore(rs: seq<Replacement>, k: nat, n: nat)
    requires k <= |rs|
  {
    exists j :: 0 <= j < k && rs[j].index == n
  }

  // Distinct names are numbered 1, 2, .. by first appearance, and equal names share their number.
  lemma NumberingIsExact(tokens: seq<Token>)
    ensures var rs, all := ReplacementsFrom(tokens, 0, []), NamesFrom(tokens, 0, []);
      Distinct(all) &&
      (forall k :: 0 <= k < |rs| ==> 1 <= rs[k].index <= |all| && all[rs[k].index - 1] == rs[k].name) &&
      (forall j, k :: 0 <= j < |rs| && 0 <= k < |rs| ==> (rs[j].name == rs[k].name <==> rs[j].index == rs[k].index)) &&
      (forall k, n: nat {:trigger SeenBefore(rs, k, n)} :: 0 <= k < |rs| && 0 < n < rs[k].index ==> SeenBefore(rs, k, n))
  {
    hide ReplacementsFrom, NamesFrom;
    var rs, all := ReplacementsFrom(tokens, 0, []), NamesFrom(tokens, 0, []);
    NamesGrow(tokens, 0, []);
    forall k | 0 <= k < |rs| ensures 1 <= rs[k].index <= |all| && all[rs[k].index - 1] == rs[k].name {
      Numbered(tokens, 0, [], k);
    }
    forall k, n: nat {:trigger SeenBefore(rs, k, n)} | 0 <= k < |rs| &&
        0 < n < rs[k].index ensures SeenBefore(rs, k, n) {
      var j := FirstAppearance(tokens, 0, [], k, n);
    }
  }

  // -- Splicing ----------------------------------------------------------------------------------------------

  function Placeholder(index: nat): (b: seq<byte>)
    ensures |b| >= 2
  {
    AsciiBytes("$" + NatText(index))
  }

  // Replacements from `from` on, in order and apart.
  predicate Apart(rs: seq<Replacement>, from: nat, to: nat)
    decreases |rs|
  {
    if rs == [] then from <= to
    else from <= rs[0].start < rs[0].end <= to && Apart(rs[1..], rs[0].end, to)
  }

  lemma {:induction false} ReplacementsApart(source: seq<byte>, tokens: seq<Token>, i: nat, names: seq<string>,
      from: nat)
    requires Scanned(source, tokens) && from <= |source|
    requires i < |tokens| ==> from <= tokens[i].start || (!tokens[i].isAt && from <= tokens[i].end)
    ensures Apart(ReplacementsFrom(tokens, i, names), from, |source|)
    decreases |tokens| - i
  {
    if i + 1 < |tokens| {
      assert tokens[i].end <= tokens[i + 1].start;
      if Names(tokens, i) {
        var name := tokens[i + 1].name.value;
        ReplacementsApart(source, tokens, i + 1, Noted(names, name), tokens[i + 1].end);
      } else {
        ReplacementsApart(source, tokens, i + 1, names, from);
      }
    }
  }

  function Spliced(source: seq<byte>, rs: seq<Replacement>, cursor: nat): seq<byte>
    requires Apart(rs, cursor, |source|)
    decreases |rs|
  {
    if rs == [] then source[cursor..]
    else source[cursor..rs[0].start] + (Placeholder(rs[0].index) + Spliced(source, rs[1..], rs[0].end))
  }

  // Where the replaced spans end up when the text from `cursor` on starts at `at`.
  function Occurrences(rs: seq<Replacement>, cursor: nat, at: nat, to: nat): (os: seq<Occurrence>)
    requires Apart(rs, cursor, to)
    ensures |os| == |rs|
    decreases |rs|
  {
    if rs == [] then []
    else
      var start := at + (rs[0].start - cursor);
      var end := start + |Placeholder(rs[0].index)|;
      [Occurrence(rs[0].start, rs[0].end, start, end)] + Occurrences(rs[1..], rs[0].end, end, to)
  }

  datatype Rewritten =
    | Mixed(start: nat, end: nat)
    | Rewritten(sql: seq<byte>, parameters: seq<Parameter>, replacements: seq<Occurrence>)

  // The occurrences of one name among the first n replacements.
  function OccurrencesOf(rs: seq<Replacement>, os: seq<Occurrence>, n: nat, name: string): seq<Occurrence>
    requires n <= |rs| == |os|
  {
    if n == 0 then [] else OccurrencesOf(rs, os, n - 1, name) + if rs[n - 1].name == name then [os[n - 1]] else []
  }

  function Grouped(grouped: map<string, seq<Occurrence>>, name: string): seq<Occurrence>
  {
    if name in grouped then grouped[name] else []
  }

  ghost predicate AllGrouped(grouped: map<string, seq<Occurrence>>, rs: seq<Replacement>, os: seq<Occurrence>, n: nat)
    requires n <= |rs| == |os|
  {
    forall name :: Grouped(grouped, name) == OccurrencesOf(rs, os, n, name)
  }

  lemma NoneGrouped(rs: seq<Replacement>, os: seq<Occurrence>)
    requires |rs| == |os|
    ensures AllGrouped(map[], rs, os, 0)
  {
  }

  lemma GroupMore(grouped: map<string, seq<Occurrence>>, rs: seq<Replacement>, os: seq<Occurrence>, n: nat)
    requires n < |rs| == |os| && AllGrouped(grouped, rs, os, n)
    ensures AllGrouped(grouped[rs[n].name := Grouped(grouped, rs[n].name) + [os[n]]], rs, os, n + 1)
  {
    var more := grouped[rs[n].name := Grouped(grouped, rs[n].name) + [os[n]]];
    forall name ensures Grouped(more, name) == OccurrencesOf(rs, os, n + 1, name) {
      assert Grouped(grouped, name) + [] == Grouped(grouped, name);
    }
  }

  function Parameters(rs: seq<Replacement>, os: seq<Occurrence>, names: seq<string>): seq<Parameter>
    requires |rs| == |os|
  {
    seq(|names|, i requires 0 <= i < |names| => Parameter(names[i], i + 1, OccurrencesOf(rs, os, |rs|, names[i])))
  }

  function FirstParam(tokens: seq<Token>): Option<Token>
  {
    if tokens == [] then None else if tokens[0].isParam then Some(tokens[0]) else FirstParam(tokens[1..])
  }

  // The scan for replacements.
  method FindReplacements(tokens: seq<Token>) returns (replacements: seq<Replacement>, names: seq<string>)
    ensures replacements == ReplacementsFrom(tokens, 0, []) && names == NamesFrom(tokens, 0, [])
  {
    hide ReplacementsFrom, NamesFrom, Names;
    names := [];
    replacements := [];
    var index := 0;
    while index + 1 < |tokens|
      invariant replacements + ReplacementsFrom(tokens, index, names) == ReplacementsFrom(tokens, 0, [])
      invariant NamesFrom(tokens, index, names) == NamesFrom(tokens, 0, [])
    {
      ScanStep(tokens, index, names);
      if Names(tokens, index) {
        NamedTokens(tokens, index);
        var name := tokens[index + 1].name.value;
        var r := Replacement(name, IndexOf(names, name) + 1, tokens[index].start, tokens[index + 1].end);
        ghost var rest := ReplacementsFrom(tokens, index + 1, Noted(names, name));
        assert replacements + ([r] + rest) == replacements + [r] + rest;
        replacements := replacements + [r];
        names := Noted(names, name);
      }
      index := index + 1;
    }
    ScanEnd(tokens, index, names);
    assert replacements + [] == replacements;
  }

  predicate IsRewrite(source: seq<byte>, tokens: seq<Token>, r: Rewritten)
    requires Scanned(source, tokens)
  {
    ReplacementsApart(source, tokens, 0, [], 0);
    var rs, param := ReplacementsFrom(tokens, 0, []), FirstParam(tokens);
    if param.Some? && rs != [] then r == Mixed(param.value.start, param.value.end)
    else
      var os := Occurrences(rs, 0, 0, |source|);
      r == Rewritten(Spliced(source, rs, 0), Parameters(rs, os, NamesFrom(tokens, 0, [])), os)
  }

  method RewriteNamedParameters(source: seq<byte>, tokens: seq<Token>) returns (r: Rewritten)
    requires Scanned(source, tokens)
    ensures IsRewrite(source, tokens, r)
  {
    hide Scanned, ReplacementsFrom, NamesFrom, Placeholder, Spliced, Occurrences, OccurrencesOf, Apart;
    var positional := FirstParam(tokens);
    var replacements, names := FindReplacements(tokens);
    ReplacementsApart(source, tokens, 0, [], 0);
    if positional.Some? && replacements != [] {
      return Mixed(positional.value.start, positional.value.end);
    }
    var sql, rewritten, grouped := Splice(source, replacements);
    var parameters: seq<Parameter> := [];
    assert AllGrouped(grouped, replacements, rewritten, |replacements|);
    for i := 0 to |names|
      invariant |parameters| == i
      invariant forall k :: 0 <= k < i ==>
        parameters[k] == Parameter(names[k], k + 1, OccurrencesOf(replacements, rewritten, |replacements|, names[k]))
    {
      parameters := parameters + [Parameter(names[i], i + 1, Grouped(grouped, names[i]))];
    }
    assert parameters == Parameters(replacements, rewritten, names);
    r := Rewritten(sql, parameters, rewritten);
  }

  method Splice(source: seq<byte>, replacements: seq<Replacement>)
    returns (sql: seq<byte>, rewritten: seq<Occurrence>, grouped: map<string, seq<Occurrence>>)
    requires Apart(replacements, 0, |source|)
    ensures sql == Spliced(source, replacements, 0) && rewritten == Occurrences(replacements, 0, 0, |source|)
    ensures AllGrouped(grouped, replacements, rewritten, |replacements|)
  {
    hide Placeholder, Spliced, Occurrences, Apart, AllGrouped, Grouped;
    sql, rewritten, grouped := [], [], map[];
    NoneGrouped(replacements, Occurrences(replacements, 0, 0, |source|));
    ghost var all := Occurrences(replacements, 0, 0, |source|);
    var sourceCursor: nat, sqlCursor: nat := 0, 0;
    assert replacements[0..] == replacements;
    for i := 0 to |replacements|
      invariant Apart(replacements[i..], sourceCursor, |source|) && sqlCursor == |sql|
      invariant sql + Spliced(source, replacements[i..], sourceCursor) == Spliced(source, replacements, 0)
      invariant rewritten + Occurrences(replacements[i..], sourceCursor, sqlCursor, |source|) == all && |rewritten| == i
      invariant AllGrouped(grouped, replacements, all, i)
    {
      var replacement := replacements[i];
      assert replacements[i..][0] == replacement && replacements[i..][1..] == replacements[i + 1..];
      SpliceStep(source, replacements[i..], sourceCursor, sqlCursor, sql, rewritten);
      var before, parameter := source[sourceCursor..replacement.start], Placeholder(replacement.index);
      sql := sql + before + parameter;
      sqlCursor := sqlCursor + |before|;
      var occurrence := Occurrence(replacement.start, replacement.end, sqlCursor, sqlCursor + |parameter|);
      OccurrenceAt(rewritten, occurrence,
                   Occurrences(replacements[i + 1..], replacement.end, sqlCursor + |parameter|, |source|));
      rewritten := rewritten + [occurrence];
      GroupMore(grouped, replacements, all, i);
      grouped := grouped[replacement.name := Grouped(grouped, replacement.name) + [occurrence]];
      sqlCursor := sqlCursor + |parameter|;
      sourceCursor := replacement.end;
    }
    SpliceDone(source, sourceCursor, sqlCursor);
    sql := sql + source[sourceCursor..];
    assert rewritten + [] == rewritten;
  }

  lemma SpliceDone(source: seq<byte>, cursor: nat, at: nat)
    requires Apart([], cursor, |source|)
    ensures cursor <= |source| && Spliced(source, [], cursor) == source[cursor..]
    ensures Occurrences([], cursor, at, |source|) == []
  {
  }

  lemma OccurrenceAt(before: seq<Occurrence>, o: Occurrence, later: seq<Occurrence>)
    ensures before + ([o] + later) == before + [o] + later && (before + ([o] + later))[|before|] == o
  {
  }

  // The next replacement moved over from what is to come.
  lemma SpliceStep(source: seq<byte>, rs: seq<Replacement>, cursor: nat, at: nat, sql: seq<byte>,
      rewritten: seq<Occurrence>)
    requires rs != [] && Apart(rs, cursor, |source|)
    ensures cursor <= rs[0].start < rs[0].end <= |source| && Apart(rs[1..], rs[0].end, |source|)
    ensures var before, parameter := source[cursor..rs[0].start], Placeholder(rs[0].index);
      var start := at + |before|;
      sql + Spliced(source, rs, cursor) == sql + before + parameter + Spliced(source, rs[1..], rs[0].end) &&
      Occurrences(rs, cursor, at, |source|) ==
        [Occurrence(rs[0].start, rs[0].end, start, start + |parameter|)] +
            Occurrences(rs[1..], rs[0].end, start + |parameter|, |source|)
  {
    hide Placeholder;
    Regroup(sql, source[cursor..rs[0].start], Placeholder(rs[0].index), Spliced(source, rs[1..], rs[0].end));
  }

  lemma {:induction false} OccurrencesOfName(rs: seq<Replacement>, os: seq<Occurrence>, n: nat, name: string,
      o: Occurrence)
    requires n <= |rs| == |os|
    ensures o in OccurrencesOf(rs, os, n, name) <==> exists k :: 0 <= k < n && rs[k].name == name && os[k] == o
  {
    if n > 0 { OccurrencesOfName(rs, os, n - 1, name, o); }
  }

  // The replaced span at `os[k]` of the new text is the placeholder of its replacement.
  lemma {:induction false} PlacedText(source: seq<byte>, rs: seq<Replacement>, cursor: nat, at: nat, k: nat)
    requires Apart(rs, cursor, |source|) && k < |rs|
    ensures var o := Occurrences(rs, cursor, at, |source|)[k];
      at <= o.sqlStart && o.sqlEnd == o.sqlStart + |Placeholder(rs[k].index)| &&
      At(Spliced(source, rs, cursor), o.sqlStart - at, Placeholder(rs[k].index))
    decreases |rs|
  {
    hide Placeholder, Spliced, Occurrences, Apart, At;
    FirstSpliced(source, rs, cursor, at);
    var before, mark := source[cursor..rs[0].start], Placeholder(rs[0].index);
    if k == 0 {
      AtMiddle(before, mark, Spliced(source, rs[1..], rs[0].end));
    } else {
      var next := at + |before| + |mark|;
      PlacedText(source, rs[1..], rs[0].end, next, k - 1);
      assert rs[1..][k - 1] == rs[k];
      AtFurther(before, mark, Spliced(source, rs[1..], rs[0].end),
                Occurrences(rs[1..], rs[0].end, next, |source|)[k - 1].sqlStart - next, Placeholder(rs[k].index));
    }
  }

  lemma FirstSpliced(source: seq<byte>, rs: seq<Replacement>, cursor: nat, at: nat)
    requires rs != [] && Apart(rs, cursor, |source|)
    ensures cursor <= rs[0].start < rs[0].end <= |source| && Apart(rs[1..], rs[0].end, |source|)
    ensures Spliced(source, rs, cursor) == source[cursor..rs[0].start] + Placeholder(rs[0].index) +
      Spliced(source, rs[1..], rs[0].end)
    ensures var start := at + (rs[0].start - cursor); var end := start + |Placeholder(rs[0].index)|;
      Occurrences(rs, cursor, at, |source|)[0] == Occurrence(rs[0].start, rs[0].end, start, end) &&
      forall k {:trigger Occurrences(rs, cursor, at, |source|)[k]} :: 0 < k < |rs| ==>
        Occurrences(rs, cursor, at, |source|)[k] == Occurrences(rs[1..], rs[0].end, end, |source|)[k - 1]
  {
    hide Placeholder;
  }

  lemma AtMiddle(a: seq<byte>, b: seq<byte>, c: seq<byte>)
    ensures At(a + b + c, |a|, b)
  {
    assert a + b + c == a + (b + c);
  }

  lemma AtFurther(a: seq<byte>, b: seq<byte>, c: seq<byte>, i: nat, part: seq<byte>)
    requires At(c, i, part)
    ensures At(a + b + c, |a| + |b| + i, part)
  {
    forall k | 0 <= k < |part| ensures ((a + b) + c)[|a| + |b| + i + k] == part[k] { assert c[i + k] == part[k]; }
  }

  lemma OneNumber(tokens: seq<Token>, k: nat, i: nat)
    requires k < |ReplacementsFrom(tokens, 0, [])| && i < |NamesFrom(tokens, 0, [])|
    ensures var r := ReplacementsFrom(tokens, 0, [])[k]; r.name == NamesFrom(tokens, 0, [])[i] <==> r.index == i + 1
  {
    hide ReplacementsFrom, NamesFrom, SeenBefore;
    NumberingIsExact(tokens);
    var rs, all := ReplacementsFrom(tokens, 0, []), NamesFrom(tokens, 0, []);
    assert 1 <= rs[k].index <= |all| && all[rs[k].index - 1] == rs[k].name;
  }

  // The k-th parameter lists exactly the occurrences that were replaced by `$k`.
  lemma ParametersAreExact(source: seq<byte>, tokens: seq<Token>, r: Rewritten, i: nat, o: Occurrence)
    requires Scanned(source, tokens) && IsRewrite(source, tokens, r) && r.Rewritten? && i < |r.parameters|
    ensures r.parameters[i].index == i + 1
    ensures o in r.parameters[i].occurrences <==>
      exists k :: 0 <= k < |r.replacements| && r.replacements[k] == o && ReplacementsFrom(tokens, 0, [])[k].index == i +
          1
    ensures o in r.parameters[i].occurrences ==>
      o.sqlStart <= o.sqlEnd <= |r.sql| && r.sql[o.sqlStart..o.sqlEnd] == Placeholder(i + 1)
  {
    hide Scanned, Placeholder, Spliced, Occurrences, OccurrencesOf, Apart, ReplacementsFrom, NamesFrom;
    ReplacementsApart(source, tokens, 0, [], 0);
    var rs, names := ReplacementsFrom(tokens, 0, []), NamesFrom(tokens, 0, []);
    OccurrencesOfName(rs, r.replacements, |rs|, names[i], o);
    forall k | 0 <= k < |rs| ensures rs[k].name == names[i] <==> rs[k].index == i + 1 { OneNumber(tokens, k, i); }
    if o in r.parameters[i].occurrences {
      var k :| 0 <= k < |rs| && rs[k].name == names[i] && r.replacements[k] == o;
      PlacedText(source, rs, 0, 0, k);
      AtSlice(r.sql, o.sqlStart, Placeholder(i + 1));
    }
  }

  lemma Regroup<T>(a: seq<T>, b: seq<T>, c: seq<T>, d: seq<T>)
    ensures a + (b + (c + d)) == a + b + c + d
  {
  }

  // -- Carrying offsets back --------------------------------------------------------------------------------

  // The loop of mapRewrittenOffset.
  function MapFrom(os: seq<Occurrence>, adjustment: int, offset: nat): int
    decreases |os|
  {
    if os == [] || offset < os[0].sqlStart then offset + adjustment
    else if offset < os[0].sqlEnd then os[0].sourceStart
    else MapFrom(os[1..], adjustment + (os[0].sourceEnd - os[0].sourceStart) - (os[0].sqlEnd - os[0].sqlStart), offset)
  }

  method MapRewrittenOffset(replacements: seq<Occurrence>, offset: nat) returns (r: int)
    ensures r == MapFrom(replacements, 0, offset)
  {
    var adjustment: int := 0;
    assert replacements[0..] == replacements;
    for i := 0 to |replacements|
      invariant MapFrom(replacements, 0, offset) == MapFrom(replacements[i..], adjustment, offset)
    {
      var replacement := replacements[i];
      assert replacements[i..][0] == replacement && replacements[i..][1..] == replacements[i + 1..];
      if offset < replacement.sqlStart { break; }
      if offset < replacement.sqlEnd { return replacement.sourceStart; }
      adjustment := adjustment +
          (replacement.sourceEnd - replacement.sourceStart) - (replacement.sqlEnd - replacement.sqlStart);
    }
    r := offset + adjustment;
  }

  // The replacement whose placeholder an output byte belongs to.
  function Owner(os: seq<Occurrence>, offset: nat): Option<Occurrence>
  {
    if os == [] then None else if os[0].sqlStart <= offset < os[0].sqlEnd then Some(os[0]) else Owner(os[1..], offset)
  }

  // Does source byte `m` belong to a replaced span?
  predicate Replaced(os: seq<Occurrence>, m: int)
  {
    os != [] && (os[0].sourceStart <= m < os[0].sourceEnd || Replaced(os[1..], m))
  }

  // Nothing behind `cursor` and `at` concerns earlier bytes.
  lemma {:induction false} Behind(rs: seq<Replacement>, cursor: nat, at: nat, to: nat, offset: nat, m: int)
    requires Apart(rs, cursor, to)
    ensures offset < at ==> Owner(Occurrences(rs, cursor, at, to), offset).None?
    ensures m < cursor ==> !Replaced(Occurrences(rs, cursor, at, to), m)
    decreases |rs|
  {
    hide Placeholder;
    if rs != [] {
      var end := at + (rs[0].start - cursor) + |Placeholder(rs[0].index)|;
      OccurrencesTail(rs, cursor, at, to);
      hide Occurrences;
      Behind(rs[1..], rs[0].end, end, to, offset, m);
    }
  }

  lemma OccurrencesTail(rs: seq<Replacement>, cursor: nat, at: nat, to: nat)
    requires Apart(rs, cursor, to) && rs != []
    ensures var start := at + (rs[0].start - cursor); var end := start + |Placeholder(rs[0].index)|;
      var os := Occurrences(rs, cursor, at, to);
      os != [] && os[0] == Occurrence(rs[0].start, rs[0].end, start, end) &&
          os[1..] == Occurrences(rs[1..], rs[0].end, end, to)
  {
    hide Placeholder;
  }

  lemma SplicedAt(source: seq<byte>, rs: seq<Replacement>, cursor: nat, k: nat)
    requires Apart(rs, cursor, |source|) && rs != [] && k < |Spliced(source, rs, cursor)|
    ensures var n := rs[0].start - cursor; var end := n + |Placeholder(rs[0].index)|;
      (k < n ==> Spliced(source, rs, cursor)[k] == source[cursor + k]) &&
      (k >= end ==> k - end < |Spliced(source, rs[1..], rs[0].end)| &&
                    Spliced(source, rs, cursor)[k] == Spliced(source, rs[1..], rs[0].end)[k - end])
  {
    hide Placeholder;
  }

  // Output positions from `at` on, source positions from `cursor` on.
  lemma {:induction false} MapsFrom(source: seq<byte>, rs: seq<Replacement>, cursor: nat, at: nat, offset: nat)
    requires Apart(rs, cursor, |source|) && at <= offset < at + |Spliced(source, rs, cursor)|
    ensures var os, m := Occurrences(rs, cursor, at, |source|), MapFrom(Occurrences(rs, cursor, at, |source|),
      cursor - at, offset);
      cursor <= m < |source| &&
      if Owner(os, offset).Some? then m == Owner(os, offset).value.sourceStart
      else source[m] == Spliced(source, rs, cursor)[offset - at] && !Replaced(os, m)
    decreases |rs|
  {
    hide Placeholder;
    if rs != [] {
      var start := at + (rs[0].start - cursor);
      var end := start + |Placeholder(rs[0].index)|;
      SplicedAt(source, rs, cursor, offset - at);
      OccurrencesTail(rs, cursor, at, |source|);
      hide Occurrences, Spliced;
      if offset < start {
        Behind(rs[1..], rs[0].end, end, |source|, offset, cursor + offset - at);
      } else if offset >= end {
        MapsFrom(source, rs[1..], rs[0].end, end, offset);
      }
    }
  }

  // Each byte of a `$k` is sent to the start of the name it stands for, every other byte to the same byte of
  // the source, outside the replaced spans.
  lemma MapsBytes(source: seq<byte>, tokens: seq<Token>, r: Rewritten, offset: nat)
    requires Scanned(source, tokens) && IsRewrite(source, tokens, r) && r.Rewritten? && offset < |r.sql|
    ensures var m, owner := MapFrom(r.replacements, 0, offset), Owner(r.replacements, offset);
      0 <= m < |source| &&
      if owner.Some? then m == owner.value.sourceStart else source[m] == r.sql[offset] && !Replaced(r.replacements, m)
  {
    hide Scanned, ReplacementsFrom, NamesFrom, Spliced, Occurrences, MapFrom, Owner, Replaced;
    ReplacementsApart(source, tokens, 0, [], 0);
    MapsFrom(source, ReplacementsFrom(tokens, 0, []), 0, 0, offset);
  }

  // Offsets keep their order.
  lemma {:induction false} MapMonotone(rs: seq<Replacement>, cursor: nat, at: nat, to: nat, a: nat, b: nat)
    requires Apart(rs, cursor, to) && at <= a <= b
    ensures var os := Occurrences(rs, cursor, at, to);
      cursor <= MapFrom(os, cursor - at, a) <= MapFrom(os, cursor - at, b)
    decreases |rs|
  {
    hide Placeholder;
    if rs != [] {
      var end := at + (rs[0].start - cursor) + |Placeholder(rs[0].index)|;
      assert Occurrences(rs, cursor, at, to)[1..] == Occurrences(rs[1..], rs[0].end, end, to);
      if b >= end {
        MapMonotone(rs[1..], rs[0].end, end, to, if a >= end then a else end, b);
      }
    }
  }

  lemma RewriteMonotone(source: seq<byte>, tokens: seq<Token>, r: Rewritten, a: nat, b: nat)
    requires Scanned(source, tokens) && IsRewrite(source, tokens, r) && r.Rewritten? && a <= b
    ensures MapFrom(r.replacements, 0, a) <= MapFrom(r.replacements, 0, b)
  {
    hide Scanned, ReplacementsFrom, NamesFrom, Spliced, Occurrences, MapFrom;
    ReplacementsApart(source, tokens, 0, [], 0);
    MapMonotone(ReplacementsFrom(tokens, 0, []), 0, 0, |source|, a, b);
  }
}
