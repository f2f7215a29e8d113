/** From a server's error position to a range in the migration file (src/errors.ts and the position arithmetic of
    src/schema-builder.ts). */
module ErrorRange {
  import opened Bytes
  import opened Parts
  import opened Removals
  import U = Utf8

  // -- The word around a position --------------------------------------------------------------------------

  predicate WordByte(b: byte)
  {
    0x41 <= b <= 0x5a || 0x61 <= b <= 0x7a || 0x30 <= b <= 0x39 || b == 0x5f
  }

  // ASCII letters, digits and the underscore.
  lemma WordBytes(b: byte)
    ensures var c := b as char;
      WordByte(b) <==> 'A' <= c <= 'Z' || 'a' <= c <= 'z' || '0' <= c <= '9' || c == '_'
  {
  }

  // Word bytes as far as they go to the left and to the right of `pos`, and `pos` itself whatever it is.
  predicate Around(source: seq<byte>, pos: int, start: int, end: int)
  {
    0 <= start <= pos < end <= |source| &&
    (forall i :: start <= i < pos ==> WordByte(source[i])) && (start > 0 ==> !WordByte(source[start - 1])) &&
    (forall i :: pos < i < end ==> WordByte(source[i])) && (end < |source| ==> !WordByte(source[end]))
  }

  lemma AroundUnique(source: seq<byte>, pos: int, a: int, b: int, c: int, d: int)
    requires Around(source, pos, a, b) && Around(source, pos, c, d)
    ensures a == c && b == d
  {
    hide WordByte;
  }

  method ExpandTokenRange(source: seq<byte>, pos: int) returns (start: int, end: int)
    ensures 0 <= pos < |source| ==> Around(source, pos, start, end)
    ensures !(0 <= pos < |source|) ==> start == (if pos < 0 then 0 else pos) && end == start + 1
  {
    hide WordByte;
    if pos < 0 || pos >= |source| {
      start := if pos < 0 then 0 else pos;
      return start, start + 1;
    }
    start, end := pos, pos + 1;
    while start > 0 && WordByte(source[start - 1])
      invariant 0 <= start <= pos
      invariant forall i :: start <= i < pos ==> WordByte(source[i])
    {
      start := start - 1;
    }
    while end < |source| && WordByte(source[end])
      invariant pos < end <= |source|
      invariant forall i :: pos < i < end ==> WordByte(source[i])
    {
      end := end + 1;
    }
  }

  // What the function's own description promises: the word a position lies in, or that byte alone.
  predicate Described(source: seq<byte>, pos: int, start: int, end: int)
    requires 0 <= pos < |source|
  {
    if WordByte(source[pos]) then Around(source, pos, start, end) else start == pos && end == pos + 1
  }

  // The promise is kept unless the byte is no word byte and touches one.
  lemma AroundIsDescribed(source: seq<byte>, pos: int, start: int, end: int)
    requires Around(source, pos, start, end)
    ensures Described(source, pos, start, end) <==>
      (WordByte(source[pos]) ||
       ((pos > 0 ==> !WordByte(source[pos - 1])) && (pos + 1 < |source| ==> !WordByte(source[pos + 1]))))
  {
    hide WordByte;
    assert start < pos ==> WordByte(source[pos - 1]);
    assert end > pos + 1 ==> WordByte(source[pos + 1]);
  }

  // At the parenthesis of "a(b" the range takes in both letters.
  lemma PunctuationIsNotAlone()
    ensures var source: seq<byte> := [0x61, 0x28, 0x62];
      Around(source, 1, 0, 3) && !Described(source, 1, 0, 3)
  {
  }

  // -- Errors in a re-issued SQL function -------------------------------------------------------------------

  // The stripped text holds the body at `at`, the re-issued definition at `defAt`; the byte the server points
  // at in the definition is this one in the file.
  function FilePosition(removals: seq<Removal>, at: nat, defAt: nat, pos1: int): nat
    requires pos1 > defAt
  {
    StrippedToOriginal(removals, at + (pos1 - 1 - defAt))
  }

  // The reported byte, the body's byte and the file's byte are the same byte, and it was not cut out.
  lemma SameBodyByte(source: seq<byte>, removals: seq<Removal>, body: seq<byte>, at: nat, def: seq<byte>, defAt: nat,
      pos1: int)
    requires InRange(source, removals) && Separated(removals)
    requires At(Kept(source, removals, 0), at, body) && At(def, defAt, body) && defAt < pos1 <= defAt + |body|
    ensures var f := FilePosition(removals, at, defAt, pos1); var k := pos1 - 1 - defAt;
      f < |source| && source[f] == body[k] == def[pos1 - 1] && !Covered(removals, f) &&
      OriginalToStripped(removals, f) == at + k
  {
    hide Covered, Separated, InRange, Kept, StrippedToOriginal, OriginalToStripped;
    var k := pos1 - 1 - defAt;
    SameByte(source, removals, at + k);
    RoundTrip(removals, at + k);
    assert def[defAt + k] == body[k];
  }

  // `bodyOffset` and `defBodyOffset` are -1 when the body was not found; without a position inside the
  // definition's body the whole statement is reported.
  method SqlFunctionRange(
    source: seq<byte>, removals: seq<Removal>, stmtStart: nat, stmtEnd: nat, bodyOffset: int, defBodyOffset: int,
    position: Option<int>)
    returns (start: int, end: int)
    ensures var placed := defBodyOffset >= 0 && bodyOffset >= 0 && position.Some? && position.value > defBodyOffset;
      (placed && FilePosition(removals, stmtStart + bodyOffset, defBodyOffset, position.value) < |source| ==>
         Around(source, FilePosition(removals, stmtStart + bodyOffset, defBodyOffset, position.value), start, end)) &&
      (placed && FilePosition(removals, stmtStart + bodyOffset, defBodyOffset, position.value) >= |source| ==>
         start == FilePosition(removals, stmtStart + bodyOffset, defBodyOffset, position.value) && end == start + 1) &&
      (!placed ==> start == StrippedToOriginal(removals, stmtStart) && end == StrippedToOriginal(removals, stmtEnd))
  {
    hide Around, StrippedToOriginal;
    if defBodyOffset >= 0 && position.Some? && position.value > defBodyOffset && bodyOffset >= 0 {
      var strippedOffset := stmtStart + bodyOffset - defBodyOffset;
      var intoQuery := position.value - 1;
      var file := MapStrippedToOriginal(removals, strippedOffset + intoQuery);
      start, end := ExpandTokenRange(source, file);
    } else {
      start := MapStrippedToOriginal(removals, stmtStart);
      end := MapStrippedToOriginal(removals, stmtEnd);
    }
  }

  function CharacterCount(s: seq<byte>): (n: nat)
    requires ValidUtf8(s)
    ensures n <= |s|
    decreases |s|
  {
    if s == [] then 0 else 1 + CharacterCount(s[CharLength(s)..])
  }

  // Where the k-th character of a text starts, in bytes.
  function CharacterStart(s: seq<byte>, k: nat): (at: nat)
    requires ValidUtf8(s) && k <= CharacterCount(s)
    ensures k <= at <= |s|
    decreases k
  {
    if k == 0 then 0 else CharLength(s) + CharacterStart(s[CharLength(s)..], k - 1)
  }

  // They are the characters that are encoded, each behind the octets of those in front of it.
  lemma {:induction false} CharactersCounted(cs: seq<nat>, k: nat)
    requires U.Characters(cs) && k <= |cs|
    ensures var s := U.Encoded(cs);
      ValidUtf8(s) && CharacterCount(s) == |cs| && CharacterStart(s, k) == |U.Encoded(cs[..k])|
    decreases |cs|
  {
    hide CharLength, U.Octets;
    U.EncodedIsValid(cs);
    if cs != [] {
      var first, rest := U.Octets(cs[0]), U.Encoded(cs[1..]);
      U.OctetsAreCharacter(cs[0], rest);
      assert (first + rest)[|first|..] == rest;
      CharactersCounted(cs[1..], if k > 0 then k - 1 else 0);
      if k > 0 { assert cs[..k][1..] == cs[1..][..k - 1]; }
    }
  }

  // Taking a position that the server counts in characters for one in bytes is right exactly when there are
  // only ASCII characters in front of it.
  lemma {:induction false} CharactersAreBytes(s: seq<byte>, k: nat)
    requires ValidUtf8(s) && k <= CharacterCount(s)
    ensures CharacterStart(s, k) == k <==> Ascii(s[..k])
    decreases k
  {
    if k > 0 {
      var n := CharLength(s);
      CharactersAreBytes(s[n..], k - 1);
      OneByteCharacter(s);
      hide CharLength, ValidUtf8;
      AsciiSplit(s, k);
      if n == 1 { assert s[1..][..k - 1] == s[1..k]; }
    }
  }

  lemma OneByteCharacter(s: seq<byte>)
    requires CharLength(s) > 0
    ensures CharLength(s) == 1 <==> s[0] <= 127
  {
  }

  lemma AsciiSplit(s: seq<byte>, k: nat)
    requires 0 < k <= |s|
    ensures Ascii(s[..k]) <==> s[0] <= 127 && Ascii(s[1..k])
  {
    var a, b := s[..k], s[1..k];
    if Ascii(a) { forall i | 0 <= i < |b| ensures b[i] <= 127 { assert a[i + 1] == b[i]; } }
    if s[0] <= 127 && Ascii(b) { forall i | 0 <= i < |a| ensures a[i] <= 127 { assert i > 0 ==> b[i - 1] == a[i]; } }
  }

  // -- Errors plpgsql_check reports by offset into the body ----------------------------------------------------

  // The extractor adds an offset to the file position of the body's start. That is the file position of the
  // byte meant exactly when nothing was cut out in between.
  lemma {:induction false} OffsetAddsFrom(rs: seq<Removal>, removed: nat, from: nat, p: nat, k: nat)
    requires Separated(rs) && StartsAt(rs, from) && removed <= from <= p + removed
    ensures Restore(rs, removed, p) + k <= Restore(rs, removed, p + k)
    ensures Restore(rs, removed, p) + k == Restore(rs, removed, p + k) <==>
      Uncut(rs, Restore(rs, removed, p), Restore(rs, removed, p + k))
    decreases |rs|, 1
  {
    hide Covered, Separated, Restore, Uncut;
    if rs == [] || p + k + removed < rs[0].offset {
      RestoreStops(rs, removed, p);
      RestoreStops(rs, removed, p + k);
      UncutBefore(rs, p + removed, p + k + removed);
    } else {
      SeparatedTail(rs);
      RestoreSkips(rs, removed, p + k);
      if p + removed >= rs[0].offset {
        RestoreSkips(rs, removed, p);
        RestoreNext(rs, removed, p);
        OffsetAddsFrom(rs[1..], removed + rs[0].length, EndOf(rs[0]), p, k);
        UncutBehind(rs, Restore(rs, removed, p), Restore(rs, removed, p + k));
      } else {
        OffsetPasses(rs, removed, p, k);
      }
    }
  }

  // No byte from `lo` to `hi` was cut out.
  ghost predicate Uncut(rs: seq<Removal>, lo: nat, hi: nat) { forall i :: lo <= i < hi ==> !Covered(rs, i) }

  lemma UncutBefore(rs: seq<Removal>, lo: nat, hi: nat)
    requires Separated(rs) && (rs != [] ==> hi <= rs[0].offset)
    ensures Uncut(rs, lo, hi)
  {
    hide Covered, Separated;
    forall i | lo <= i < hi ensures !Covered(rs, i) {
      if rs == [] { NothingCovers(i); } else { NothingBefore(rs, rs[0].offset, i); }
    }
  }

  lemma UncutBehind(rs: seq<Removal>, lo: nat, hi: nat)
    requires rs != [] && EndOf(rs[0]) <= lo
    ensures Uncut(rs, lo, hi) <==> Uncut(rs[1..], lo, hi)
  {
    hide Covered;
    assert rs == [rs[0]] + rs[1..];
    forall i | lo <= i < hi ensures Covered(rs, i) <==> Covered(rs[1..], i) { CoveredCons(rs[0], rs[1..], i); }
  }

  // An empty removal in front cuts nothing.
  lemma UncutOver(rs: seq<Removal>, lo: nat, hi: nat)
    requires Separated(rs) && rs != [] && rs[0].length == 0 && lo <= rs[0].offset
    ensures Uncut(rs, lo, hi) <==> Uncut(rs[1..], rs[0].offset, hi)
  {
    hide Covered, Separated;
    assert rs == [rs[0]] + rs[1..];
    forall i: nat ensures i < rs[0].offset ==> !Covered(rs, i) { if i < rs[0].offset { NothingBefore(rs, rs[0].offset, i); } }
    forall i ensures Covered(rs, i) <==> Covered(rs[1..], i) { CoveredCons(rs[0], rs[1..], i); }
  }

  lemma CutInside(rs: seq<Removal>, lo: nat, hi: nat)
    requires rs != [] && rs[0].length > 0 && lo <= rs[0].offset < hi
    ensures !Uncut(rs, lo, hi)
  {
    assert Covered(rs, rs[0].offset);
  }

  lemma RestoreStops(rs: seq<Removal>, removed: nat, p: nat)
    requires rs != [] ==> p + removed < rs[0].offset
    ensures Restore(rs, removed, p) == p + removed
  {
  }

  lemma RestoreSkips(rs: seq<Removal>, removed: nat, p: nat)
    requires rs != [] && rs[0].offset <= p + removed
    ensures Restore(rs, removed, p) == Restore(rs[1..], removed + rs[0].length, p)
  {
  }

  // The start lies before the first removal, the end behind it.
  lemma {:induction false} OffsetPasses(rs: seq<Removal>, removed: nat, p: nat, k: nat)
    requires Separated(rs) && rs != [] && p + removed < rs[0].offset <= p + k + removed
    ensures Restore(rs, removed, p) == p + removed
    ensures p + removed + k <= Restore(rs, removed, p + k)
    ensures p + removed + k == Restore(rs, removed, p + k) <==> Uncut(rs, p + removed, Restore(rs, removed, p + k))
    decreases |rs|, 0
  {
    hide Covered, Separated, Restore, Uncut;
    var r, rest, before := rs[0], rs[1..], rs[0].offset - removed;
    SeparatedTail(rs);
    RestoreStops(rs, removed, p);
    RestoreSkips(rs, removed, p + k);
    RestoreNext(rs, removed, p + k);
    if r.length > 0 {
      CutInside(rs, p + removed, Restore(rs, removed, p + k));
    } else {
      OffsetAddsFrom(rest, removed, EndOf(r), before, p + k - before);
      RestoreStops(rest, removed, before);
      UncutOver(rs, p + removed, Restore(rs, removed, p + k));
    }
  }

  lemma OffsetAdds(removals: seq<Removal>, p: nat, k: nat)
    requires Separated(removals)
    ensures StrippedToOriginal(removals, p) + k == StrippedToOriginal(removals, p + k) <==>
      Uncut(removals, StrippedToOriginal(removals, p), StrippedToOriginal(removals, p + k))
  {
    hide Separated, Covered, Restore, Uncut;
    OffsetAddsFrom(removals, 0, 0, p, k);
  }

  // -- Whole lines ---------------------------------------------------------------------------------------------

  const NEWLINE: byte := 0x0a

  function Newlines(s: seq<byte>): nat
  {
    if s == [] then 0 else (if s[0] == NEWLINE then 1 else 0) + Newlines(s[1..])
  }

  // The pieces between newlines.
  function Lines(s: seq<byte>): (ls: seq<seq<byte>>)
    ensures ls != []
  {
    if s == [] then [[]]
    else
      var rest := Lines(s[1..]);
      if s[0] == NEWLINE then [[]] + rest else [[s[0]] + rest[0]] + rest[1..]
  }

  // Where line `i` starts.
  function LineStart(ls: seq<seq<byte>>, i: nat): nat
    requires i < |ls|
  {
    if i == 0 then 0 else LineStart(ls, i - 1) + |ls[i - 1]| + 1
  }

  // Line `i` of the text: `i` newlines before it, none in it, and a newline or an end on either side.
  predicate IsLine(s: seq<byte>, i: nat, start: nat, end: nat)
  {
    start <= end <= |s| && Newlines(s[..start]) == i && (start == 0 || s[start - 1] == NEWLINE) &&
    (forall k :: start <= k < end ==> s[k] != NEWLINE) && (end == |s| || s[end] == NEWLINE)
  }

  lemma {:induction false} LinesCount(s: seq<byte>)
    ensures |Lines(s)| == Newlines(s) + 1
  {
    if s != [] { LinesCount(s[1..]); }
  }

  lemma {:induction false} LineStartTail(ls: seq<seq<byte>>, i: nat)
    requires 0 < i < |ls|
    ensures LineStart(ls, i) == |ls[0]| + 1 + LineStart(ls[1..], i - 1)
    decreases i
  {
    if i > 1 { LineStartTail(ls, i - 1); }
  }

  lemma {:induction false} LineIs(s: seq<byte>, i: nat)
    requires i < |Lines(s)|
    ensures IsLine(s, i, LineStart(Lines(s), i), LineStart(Lines(s), i) + |Lines(s)[i]|)
    decreases |s|
  {
    hide IsLine, Newlines;
    var ls := Lines(s);
    if s == [] {
      EmptyLine(s);
    } else {
      var tail := s[1..];
      var rest := Lines(tail);
      if s[0] == NEWLINE {
        if i == 0 {
          EmptyLine(s);
        } else {
          LineIs(tail, i - 1);
          LineStartTail(ls, i);
          assert ls[1..] == rest;
          LineBehind(s, i - 1, i, LineStart(rest, i - 1), LineStart(rest, i - 1) + |rest[i - 1]|);
        }
      } else if i == 0 {
        LineIs(tail, 0);
        LineInFront(s, |rest[0]|);
      } else {
        LineIs(tail, i);
        LineStartTail(ls, i);
        LineStartTail(rest, i);
        assert ls[1..] == rest[1..];
        LineBehind(s, i, i, LineStart(rest, i), LineStart(rest, i) + |rest[i]|);
      }
    }
  }

  lemma EmptyLine(s: seq<byte>)
    requires s == [] || s[0] == NEWLINE
    ensures IsLine(s, 0, 0, 0)
  {
    assert s[..0] == [];
  }

  lemma LineBehind(s: seq<byte>, i: nat, j: nat, start: nat, end: nat)
    requires s != [] && IsLine(s[1..], i, start, end) && (start > 0 || s[0] == NEWLINE)
    requires j == i + if s[0] == NEWLINE then 1 else 0
    ensures IsLine(s, j, start + 1, end + 1)
  {
    var t := s[1..];
    assert s[..start + 1] == [s[0]] + t[..start];
    forall k | start + 1 <= k < end + 1 ensures s[k] != NEWLINE { assert s[k] == t[k - 1]; }
  }

  lemma LineInFront(s: seq<byte>, n: nat)
    requires s != [] && s[0] != NEWLINE && IsLine(s[1..], 0, 0, n)
    ensures IsLine(s, 0, 0, n + 1)
  {
    var t := s[1..];
    assert s[..0] == [];
    forall k | 0 <= k < n + 1 ensures s[k] != NEWLINE { assert k > 0 ==> s[k] == t[k - 1]; }
  }

  // The byte range of a body's line, by its number from 1.
  method LineRange(body: seq<byte>, lineno: int) returns (r: Option<(nat, nat)>)
    ensures r.Some? <==> 1 <= lineno <= Newlines(body) + 1
    ensures r.Some? ==> IsLine(body, lineno - 1, r.value.0, r.value.1)
  {
    hide IsLine, Lines, Newlines;
    LinesCount(body);
    var lines := Lines(body);
    if lineno < 1 || lineno > |lines| { return None; }
    var lineStart: nat := 0;
    for i := 0 to lineno - 1
      invariant lineStart == LineStart(lines, i)
    {
      lineStart := lineStart + |lines[i]| + 1;
    }
    LineIs(body, lineno - 1);
    r := Some((lineStart, lineStart + |lines[lineno - 1]|));
  }
}
