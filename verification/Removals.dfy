/** Cutting byte ranges out of a file and carrying positions through the cut (src/ast.ts). */
module Removals {
  import opened Bytes

  datatype Removal = Removal(offset: nat, length: nat)

  function EndOf(r: Removal): nat { r.offset + r.length }

  predicate Covered(rs: seq<Removal>, i: int)
  {
    exists r :: r in rs && r.offset <= i < EndOf(r)
  }

  predicate InRange(source: seq<byte>, rs: seq<Removal>)
  {
    forall k :: 0 <= k < |rs| ==> EndOf(rs[k]) <= |source|
  }

  // Sorted, and with at least one byte kept between neighbours.
  predicate Separated(rs: seq<Removal>)
  {
    forall k :: 0 < k < |rs| ==> EndOf(rs[k - 1]) < rs[k].offset
  }

  // The bytes from `from` on that no removal covers, in their order.
  function Kept(source: seq<byte>, rs: seq<Removal>, from: nat): seq<byte>
    decreases |source| - from
  {
    if from >= |source| then []
    else (if Covered(rs, from) then [] else [source[from]]) + Kept(source, rs, from + 1)
  }

  ghost predicate SameCover(a: seq<Removal>, b: seq<Removal>) { forall i :: Covered(a, i) <==> Covered(b, i) }

  lemma {:induction false} SameKept(source: seq<byte>, a: seq<Removal>, b: seq<Removal>, from: nat)
    requires SameCover(a, b)
    ensures Kept(source, a, from) == Kept(source, b, from)
    decreases |source| - from
  {
    hide Covered;
    if from < |source| { SameKept(source, a, b, from + 1); }
  }

  lemma CoveredCons(r: Removal, rs: seq<Removal>, i: int)
    ensures Covered([r] + rs, i) <==> r.offset <= i < EndOf(r) || Covered(rs, i)
  {
    var all := [r] + rs;
    if Covered(rs, i) {
      var q :| q in rs && q.offset <= i < EndOf(q);
      assert q in all;
    }
    if r.offset <= i < EndOf(r) { assert all[0] in all; }
  }

  lemma CoveredJoin(a: seq<Removal>, b: seq<Removal>, i: int)
    ensures Covered(a + b, i) <==> Covered(a, i) || Covered(b, i)
  {
    var all := a + b;
    if Covered(a, i) {
      var q :| q in a && q.offset <= i < EndOf(q);
      assert q in all;
    }
    if Covered(b, i) {
      var q :| q in b && q.offset <= i < EndOf(q);
      assert q in all;
    }
  }

  // -- Sorting by offset ------------------------------------------------------------------------------------

  function Insert(r: Removal, rs: seq<Removal>): seq<Removal>
  {
    if rs == [] || r.offset < rs[0].offset then [r] + rs else [rs[0]] + Insert(r, rs[1..])
  }

  function Sorted(rs: seq<Removal>): seq<Removal>
  {
    if rs == [] then [] else Insert(rs[|rs| - 1], Sorted(rs[..|rs| - 1]))
  }

  predicate Ascending(rs: seq<Removal>)
  {
    |rs| < 2 || (rs[0].offset <= rs[1].offset && Ascending(rs[1..]))
  }

  lemma {:induction false} AscendingAt(rs: seq<Removal>, k: nat)
    requires Ascending(rs) && 0 < k < |rs|
    ensures rs[k - 1].offset <= rs[k].offset
    decreases k
  {
    if k > 1 { AscendingAt(rs[1..], k - 1); }
  }

  lemma {:induction false} InsertAscends(r: Removal, rs: seq<Removal>)
    requires Ascending(rs)
    ensures Ascending(Insert(r, rs))
    ensures Insert(r, rs) != [] && (Insert(r, rs)[0] == r || (rs != [] && Insert(r, rs)[0] == rs[0]))
    decreases |rs|
  {
    if rs != [] {
      if r.offset >= rs[0].offset {
        var rest := Insert(r, rs[1..]);
        InsertAscends(r, rs[1..]);
        assert ([rs[0]] + rest)[1..] == rest;
      } else {
        assert ([r] + rs)[1..] == rs;
      }
    }
  }

  lemma {:induction false} InsertKeeps(r: Removal, rs: seq<Removal>)
    ensures multiset(Insert(r, rs)) == multiset{r} + multiset(rs)
    decreases |rs|
  {
    if rs != [] && r.offset >= rs[0].offset {
      InsertKeeps(r, rs[1..]);
      assert rs == [rs[0]] + rs[1..];
    }
  }

  // In order, and nothing lost.
  lemma {:induction false} SortedSorts(rs: seq<Removal>)
    ensures Ascending(Sorted(rs)) && multiset(Sorted(rs)) == multiset(rs)
    decreases |rs|
  {
    hide Insert;
    if rs != [] {
      var n := |rs| - 1;
      SortedSorts(rs[..n]);
      InsertAscends(rs[n], Sorted(rs[..n]));
      InsertKeeps(rs[n], Sorted(rs[..n]));
      assert rs == rs[..n] + [rs[n]];
    }
  }

  lemma SortedCovers(source: seq<byte>, rs: seq<Removal>)
    ensures SameCover(Sorted(rs), rs)
    ensures InRange(source, rs) ==> InRange(source, Sorted(rs))
  {
    SortedSorts(rs);
    hide Sorted, Ascending;
    SameMembers(Sorted(rs), rs);
    if InRange(source, rs) {
      forall k | 0 <= k < |Sorted(rs)| ensures EndOf(Sorted(rs)[k]) <= |source| {
        assert Sorted(rs)[k] in rs;
      }
    }
  }

  lemma SameMembers(a: seq<Removal>, b: seq<Removal>)
    requires multiset(a) == multiset(b)
    ensures forall r :: r in a <==> r in b
    ensures SameCover(a, b)
  {
    forall r ensures r in a <==> r in b {
      assert r in a <==> r in multiset(a);
      assert r in b <==> r in multiset(b);
    }
  }

  // -- Merging -----------------------------------------------------------------------------------------------

  function Merged(last: Removal, r: Removal): Removal
  {
    Removal(last.offset, if EndOf(r) > EndOf(last) then EndOf(r) - last.offset else last.length)
  }

  // A removal that starts no later than the one before it ends extends that one.
  lemma MergeCovers(front: seq<Removal>, last: Removal, r: Removal)
    requires last.offset <= r.offset <= EndOf(last)
    ensures SameCover(front + [Merged(last, r)], front + [last] + [r])
  {
    forall i ensures Covered(front + [Merged(last, r)], i) <==> Covered(front + [last] + [r], i) {
      CoveredJoin(front, [Merged(last, r)], i);
      CoveredJoin(front + [last], [r], i);
      CoveredJoin(front, [last], i);
      CoveredOne(Merged(last, r), i);
      CoveredOne(last, i);
      CoveredOne(r, i);
    }
  }

  lemma CoveredOne(r: Removal, i: int)
    ensures Covered([r], i) <==> r.offset <= i < EndOf(r)
  {
    CoveredCons(r, [], i);
    assert [r] + [] == [r];
  }

  lemma SameCoverJoin(a: seq<Removal>, b: seq<Removal>, c: seq<Removal>)
    requires SameCover(a, b)
    ensures SameCover(a + c, b + c)
  {
    forall i ensures Covered(a + c, i) <==> Covered(b + c, i) {
      CoveredJoin(a, c, i);
      CoveredJoin(b, c, i);
    }
  }

  predicate MergedSoFar(source: seq<byte>, merged: seq<Removal>, removals: seq<Removal>, i: nat)
    requires i <= |removals|
  {
    Separated(merged) && InRange(source, merged) &&
    (merged != [] ==> i > 0 && merged[|merged| - 1].offset <= removals[i - 1].offset)
  }

  lemma Extends(source: seq<byte>, merged: seq<Removal>, removals: seq<Removal>, i: nat)
    requires i < |removals| && MergedSoFar(source, merged, removals, i) && InRange(source, removals)
    requires Ascending(removals)
    requires merged != [] && removals[i].offset <= EndOf(merged[|merged| - 1])
    ensures merged[|merged| - 1].offset <= removals[i].offset
    ensures MergedSoFar(source, merged[..|merged| - 1] + [Merged(merged[|merged| - 1], removals[i])], removals, i + 1)
  {
    hide Separated, Ascending;
    AscendingAt(removals, i);
    SeparatedLonger(merged, Merged(merged[|merged| - 1], removals[i]));
  }

  lemma Appends(source: seq<byte>, merged: seq<Removal>, removals: seq<Removal>, i: nat)
    requires i < |removals| && MergedSoFar(source, merged, removals, i) && InRange(source, removals)
    requires merged != [] ==> EndOf(merged[|merged| - 1]) < removals[i].offset
    ensures MergedSoFar(source, merged + [removals[i]], removals, i + 1)
  {
    hide Separated;
    SeparatedMore(merged, removals[i]);
  }

  method Merge(ghost source: seq<byte>, removals: seq<Removal>) returns (merged: seq<Removal>)
    requires Ascending(removals) && InRange(source, removals)
    ensures Separated(merged) && SameCover(merged, removals) && InRange(source, merged)
  {
    hide Covered, Separated, SameCover, MergedSoFar, InRange, Ascending;
    merged := [];
    NothingMerged(source, removals);
    SameItself(merged);
    for i := 0 to |removals|
      invariant MergedSoFar(source, merged, removals, i) && SameCover(merged, removals[..i])
    {
      var r := removals[i];
      var k := |merged| - 1;
      if merged != [] && r.offset <= EndOf(merged[k]) {
        Extends(source, merged, removals, i);
        MergesOne(merged, removals, i);
        merged := merged[..k] + [Merged(merged[k], r)];
      } else {
        Appends(source, merged, removals, i);
        AddsOne(merged, removals, i);
        merged := merged + [r];
      }
    }
    assert removals[..|removals|] == removals;
    AllMerged(source, merged, removals);
  }

  lemma AddsOne(merged: seq<Removal>, removals: seq<Removal>, i: nat)
    requires i < |removals| && SameCover(merged, removals[..i])
    ensures SameCover(merged + [removals[i]], removals[..i + 1])
  {
    hide SameCover;
    assert removals[..i + 1] == removals[..i] + [removals[i]];
    SameCoverJoin(merged, removals[..i], [removals[i]]);
  }

  lemma MergesOne(merged: seq<Removal>, removals: seq<Removal>, i: nat)
    requires i < |removals| && SameCover(merged, removals[..i]) && merged != []
    requires merged[|merged| - 1].offset <= removals[i].offset <= EndOf(merged[|merged| - 1])
    ensures SameCover(merged[..|merged| - 1] + [Merged(merged[|merged| - 1], removals[i])], removals[..i + 1])
  {
    hide SameCover;
    var front, last, r := merged[..|merged| - 1], merged[|merged| - 1], removals[i];
    assert merged == front + [last];
    AddsOne(merged, removals, i);
    MergeCovers(front, last, r);
    SameCoverTwice(front + [Merged(last, r)], merged + [r], removals[..i + 1]);
  }

  lemma NothingMerged(source: seq<byte>, removals: seq<Removal>)
    ensures MergedSoFar(source, [], removals, 0)
  {
  }

  lemma AllMerged(source: seq<byte>, merged: seq<Removal>, removals: seq<Removal>)
    requires MergedSoFar(source, merged, removals, |removals|)
    ensures Separated(merged) && InRange(source, merged)
  {
  }

  lemma SameItself(a: seq<Removal>)
    ensures SameCover(a, a)
  {
  }

  lemma SeparatedFew(r: Removal)
    ensures Separated([]) && Separated([r])
  {
  }

  lemma SeparatedMore(rs: seq<Removal>, r: Removal)
    requires Separated(rs) && (rs != [] ==> EndOf(rs[|rs| - 1]) < r.offset)
    ensures Separated(rs + [r])
  {
  }

  lemma SeparatedLonger(rs: seq<Removal>, r: Removal)
    requires Separated(rs) && rs != [] && r.offset == rs[|rs| - 1].offset
    ensures Separated(rs[..|rs| - 1] + [r])
  {
  }

  // -- Stitching ---------------------------------------------------------------------------------------------

  // What is kept from `cursor` on, piece by piece.
  function Stitched(source: seq<byte>, rs: seq<Removal>, cursor: nat): seq<byte>
    requires InRange(source, rs) && cursor <= |source|
    decreases |rs|
  {
    if rs == [] then source[cursor..]
    else (if rs[0].offset > cursor then source[cursor..rs[0].offset] else []) + Stitched(source, rs[1..], EndOf(rs[0]))
  }

  // No removal of `rs` starts before `from`.
  predicate StartsAt(rs: seq<Removal>, from: nat) { rs != [] ==> from <= rs[0].offset }

  lemma SeparatedTail(rs: seq<Removal>)
    requires Separated(rs) && rs != []
    ensures Separated(rs[1..]) && StartsAt(rs[1..], EndOf(rs[0]) + 1)
    ensures forall r :: r in rs[1..] ==> r in rs
  {
    var rest := rs[1..];
    forall k | 0 < k < |rest| ensures EndOf(rest[k - 1]) < rest[k].offset {
      assert rest[k - 1] == rs[k] && rest[k] == rs[k + 1];
    }
    if rest != [] { assert rest[0] == rs[1]; }
  }

  lemma {:induction false} NothingBefore(rs: seq<Removal>, from: nat, i: int)
    requires Separated(rs) && StartsAt(rs, from) && i < from
    ensures !Covered(rs, i)
    decreases |rs|
  {
    if rs != [] {
      SeparatedTail(rs);
      NothingBefore(rs[1..], EndOf(rs[0]) + 1, i);
      CoveredCons(rs[0], rs[1..], i);
      assert rs == [rs[0]] + rs[1..];
    }
  }

  lemma KeptHere(source: seq<byte>, rs: seq<Removal>, a: nat)
    requires a < |source| && !Covered(rs, a)
    ensures Kept(source, rs, a) == [source[a]] + Kept(source, rs, a + 1)
  {
    hide Covered;
  }

  lemma {:induction false} KeptSlice(source: seq<byte>, rs: seq<Removal>, a: nat, b: nat)
    requires a <= b <= |source| && forall i :: a <= i < b ==> !Covered(rs, i)
    ensures Kept(source, rs, a) == source[a..b] + Kept(source, rs, b)
    decreases b - a
  {
    hide Covered, Kept;
    if a < b {
      KeptHere(source, rs, a);
      KeptSlice(source, rs, a + 1, b);
      SliceHead(source, a, b, Kept(source, rs, b));
    } else {
      assert source[a..b] + Kept(source, rs, b) == Kept(source, rs, b);
    }
  }

  lemma SliceHead<T>(s: seq<T>, a: nat, b: nat, rest: seq<T>)
    requires a < b <= |s|
    ensures [s[a]] + (s[a + 1..b] + rest) == s[a..b] + rest
  {
  }

  lemma {:induction false} KeptSkip(source: seq<byte>, rs: seq<Removal>, a: nat, b: nat)
    requires a <= b <= |source| && forall i :: a <= i < b ==> Covered(rs, i)
    ensures Kept(source, rs, a) == Kept(source, rs, b)
    decreases b - a
  {
    hide Covered;
    if a < b { KeptSkip(source, rs, a + 1, b); }
  }

  lemma KeptEnd(source: seq<byte>, rs: seq<Removal>)
    ensures Kept(source, rs, |source|) == []
  {
  }

  // A removal in front of everything that is looked at covers nothing there.
  lemma {:induction false} KeptBehind(source: seq<byte>, r: Removal, rs: seq<Removal>, from: nat)
    requires EndOf(r) <= from
    ensures Kept(source, [r] + rs, from) == Kept(source, rs, from)
    decreases |source| - from
  {
    hide Covered;
    CoveredCons(r, rs, from);
    if from < |source| { KeptBehind(source, r, rs, from + 1); }
  }

  lemma {:induction false} StitchedIsKept(source: seq<byte>, rs: seq<Removal>, cursor: nat)
    requires InRange(source, rs) && Separated(rs) && StartsAt(rs, cursor) && cursor <= |source|
    ensures Stitched(source, rs, cursor) == Kept(source, rs, cursor)
    decreases |rs|
  {
    hide Covered, Kept, Separated;
    if rs == [] {
      forall i | cursor <= i < |source| ensures !Covered(rs, i) { NothingCovers(i); }
      KeptSlice(source, rs, cursor, |source|);
      KeptEnd(source, rs);
    } else {
      var r, rest := rs[0], rs[1..];
      SeparatedTail(rs);
      assert rs == [r] + rest;
      forall i | cursor <= i < r.offset ensures !Covered(rs, i) { NothingBefore(rs, r.offset, i); }
      forall i | r.offset <= i < EndOf(r) ensures Covered(rs, i) { CoveredCons(r, rest, i); }
      KeptSlice(source, rs, cursor, r.offset);
      KeptSkip(source, rs, r.offset, EndOf(r));
      KeptBehind(source, r, rest, EndOf(r));
      StitchedIsKept(source, rest, EndOf(r));
    }
  }

  lemma NothingCovers(i: int)
    ensures !Covered([], i)
  {
  }

  method Stitch(source: seq<byte>, merged: seq<Removal>) returns (content: seq<byte>)
    requires InRange(source, merged) && Separated(merged)
    ensures content == Kept(source, merged, 0)
  {
    hide Kept, Separated;
    StitchedIsKept(source, merged, 0);
    content := [];
    var cursor: nat := 0;
    assert merged[0..] == merged;
    for i := 0 to |merged|
      invariant cursor <= |source| && InRange(source, merged[i..])
      invariant content + Stitched(source, merged[i..], cursor) == Stitched(source, merged, 0)
    {
      var r := merged[i];
      assert merged[i..][1..] == merged[i + 1..];
      ghost var rest := Stitched(source, merged[i + 1..], EndOf(r));
      if r.offset > cursor {
        assert content + (source[cursor..r.offset] + rest) == content + source[cursor..r.offset] + rest;
        content := content + source[cursor..r.offset];
      } else {
        assert [] + rest == rest;
      }
      cursor := EndOf(r);
    }
    content := content + source[cursor..];
  }

  // -- Statement ranges ----------------------------------------------------------------------------------------

  datatype Statement = Statement(location: Option<nat>, length: Option<nat>)

  predicate Separator(b: byte) { b == 0x3b || b == 0x20 || b == 0x09 || b == 0x0a || b == 0x0d }

  // The semicolon and the white space of SQL text.
  lemma Separators(b: byte)
    ensures Separator(b) <==> b as char in "; \t\n\r"
  {
  }

  // Back over separators, but not past `start`.
  function TrimEnd(source: seq<byte>, start: nat, end: nat): (e: nat)
    requires end <= |source|
    ensures e <= end && (start <= end ==> start <= e)
    ensures forall i :: e <= i < end ==> Separator(source[i])
    ensures e > start ==> !Separator(source[e - 1])
    decreases end
  {
    if end > start && Separator(source[end - 1]) then TrimEnd(source, start, end - 1) else end
  }

  function SkipSeparators(source: seq<byte>, end: nat): (e: nat)
    ensures end <= e && (end <= |source| ==> e <= |source|)
    ensures forall i :: end <= i < e && i < |source| ==> Separator(source[i])
    ensures e < |source| ==> !Separator(source[e])
    decreases |source| - end
  {
    if end < |source| && Separator(source[end]) then SkipSeparators(source, end + 1) else end
  }

  function StartOf(s: Statement): nat { if s.location.Some? then s.location.value else 0 }

  predicate Located(source: seq<byte>, stmts: seq<Statement>)
  {
    forall s :: s in stmts ==> StartOf(s) <= |source| && (s.length.Some? ==> StartOf(s) + s.length.value <= |source|)
  }

  // The end of statement `i`: stated, or what is left before the next one or the end of the file.
  function StatementEnd(source: seq<byte>, stmts: seq<Statement>, i: nat): (e: nat)
    requires i < |stmts| && Located(source, stmts)
    ensures StartOf(stmts[i]) <= e <= |source|
    ensures stmts[i].length.Some? ==> e == StartOf(stmts[i]) + stmts[i].length.value
    ensures stmts[i].length.None? && e > StartOf(stmts[i]) ==> !Separator(source[e - 1])
    ensures stmts[i].length.None? ==>
      forall k :: e <= k < (if i + 1 < |stmts| then StartOf(stmts[i + 1]) else |source|) ==> Separator(source[k])
  {
    var start := StartOf(stmts[i]);
    var limit := if i + 1 < |stmts| then StartOf(stmts[i + 1]) else |source|;
    if stmts[i].length.Some? then start + stmts[i].length.value
    else if limit < start then start
    else TrimEnd(source, start, limit)
  }

  // A removal as a filter states it, relative to the statement; one of the whole statement takes the
  // separators behind it along.
  function Absolute(source: seq<byte>, start: nat, end: nat, r: Removal): Removal
    requires start <= end
  {
    if r.offset == 0 && r.length >= end - start then Removal(start, SkipSeparators(source, start + r.length) - start)
    else Removal(start + r.offset, r.length)
  }

  function AbsoluteAll(source: seq<byte>, start: nat, end: nat, rs: seq<Removal>): seq<Removal>
    requires start <= end
  {
    if rs == [] then [] else [Absolute(source, start, end, rs[0])] + AbsoluteAll(source, start, end, rs[1..])
  }

  // What the filter removes from the statements from `i` on; `filtered` is its answer for each of them.
  function Requested(source: seq<byte>, stmts: seq<Statement>, filtered: seq<seq<Removal>>, i: nat): seq<Removal>
    requires |filtered| == |stmts| && Located(source, stmts)
    decreases |stmts| - i
  {
    if i >= |stmts| then []
    else AbsoluteAll(source, StartOf(stmts[i]), StatementEnd(source, stmts, i), filtered[i]) + Requested(source, stmts, filtered, i + 1)
  }

  lemma RequestedStep(source: seq<byte>, stmts: seq<Statement>, filtered: seq<seq<Removal>>, i: nat)
    requires |filtered| == |stmts| && Located(source, stmts) && i < |stmts|
    ensures Requested(source, stmts, filtered, i) ==
            AbsoluteAll(source, StartOf(stmts[i]), StatementEnd(source, stmts, i), filtered[i]) +
                Requested(source, stmts, filtered, i + 1)
  {
    hide AbsoluteAll, StatementEnd;
  }

  method Collect(source: seq<byte>, stmts: seq<Statement>, filtered: seq<seq<Removal>>) returns (all: seq<Removal>)
    requires |filtered| == |stmts| && Located(source, stmts)
    ensures all == Requested(source, stmts, filtered, 0)
  {
    hide StatementEnd, Requested, Located, AbsoluteAll;
    all := [];
    for i := 0 to |stmts|
      invariant all + Requested(source, stmts, filtered, i) == Requested(source, stmts, filtered, 0)
    {
      RequestedStep(source, stmts, filtered, i);
      var more := AbsoluteEach(source, StartOf(stmts[i]), StatementEnd(source, stmts, i), filtered[i]);
      assert all + (more + Requested(source, stmts, filtered, i + 1)) == all + more +
        Requested(source, stmts, filtered, i + 1);
      all := all + more;
    }
    NothingRequested(source, stmts, filtered);
    assert all + [] == all;
  }

  lemma NothingRequested(source: seq<byte>, stmts: seq<Statement>, filtered: seq<seq<Removal>>)
    requires |filtered| == |stmts| && Located(source, stmts)
    ensures Requested(source, stmts, filtered, |stmts|) == []
  {
  }

  // The bytes a filter's removal takes from the statement between `start` and `end`: the stated ones, and for a
  // whole statement also the run of separators right behind them.
  predicate Takes(source: seq<byte>, start: nat, end: nat, r: Removal, b: nat)
  {
    start + r.offset <= b < start + r.offset + r.length ||
    (r.offset == 0 && r.length >= end - start && start + r.length <= b < |source| &&
     forall k :: start + r.length <= k <= b ==> Separator(source[k]))
  }

  lemma AbsoluteTakes(source: seq<byte>, start: nat, end: nat, r: Removal, b: nat)
    requires start <= end
    ensures Absolute(source, start, end, r).offset <= b < EndOf(Absolute(source, start, end, r)) <==> Takes(source,
      start, end, r, b)
  {
  }

  lemma {:induction false} AbsoluteAllTake(source: seq<byte>, start: nat, end: nat, rs: seq<Removal>, b: nat)
    requires start <= end
    ensures Covered(AbsoluteAll(source, start, end, rs), b) <==> exists r :: r in rs && Takes(source, start, end, r, b)
    decreases |rs|
  {
    hide Absolute, Takes;
    if rs != [] {
      AbsoluteAllTake(source, start, end, rs[1..], b);
      CoveredCons(Absolute(source, start, end, rs[0]), AbsoluteAll(source, start, end, rs[1..]), b);
      AbsoluteTakes(source, start, end, rs[0], b);
      assert forall r :: r in rs <==> r == rs[0] || r in rs[1..];
    } else {
      NothingCovers(b);
    }
  }

  ghost predicate TakenFrom(source: seq<byte>, stmts: seq<Statement>, filtered: seq<seq<Removal>>, k: nat, b: nat)
    requires k < |filtered| == |stmts| && Located(source, stmts)
  {
    exists r :: r in filtered[k] && Takes(source, StartOf(stmts[k]), StatementEnd(source, stmts, k), r, b)
  }

  // A byte is requested exactly when a removal takes it from one of the statements.
  lemma {:induction false} RequestedBytes(source: seq<byte>, stmts: seq<Statement>, filtered: seq<seq<Removal>>,
      i: nat, b: nat)
    requires |filtered| == |stmts| && Located(source, stmts) && i <= |stmts|
    ensures Covered(Requested(source, stmts, filtered, i), b) <==>
      exists k :: i <= k < |stmts| && TakenFrom(source, stmts, filtered, k, b)
    decreases |stmts| - i
  {
    hide Takes, AbsoluteAll, StatementEnd, Requested, Located, TakenFrom;
    if i < |stmts| {
      RequestedStep(source, stmts, filtered, i);
      RequestedBytes(source, stmts, filtered, i + 1, b);
      TakenHere(source, stmts, filtered, i, b);
      CoveredJoin(AbsoluteAll(source, StartOf(stmts[i]), StatementEnd(source, stmts, i), filtered[i]),
                  Requested(source, stmts, filtered, i + 1), b);
    } else {
      NothingRequested(source, stmts, filtered);
      NothingCovers(b);
    }
  }

  lemma TakenHere(source: seq<byte>, stmts: seq<Statement>, filtered: seq<seq<Removal>>, k: nat, b: nat)
    requires k < |filtered| == |stmts| && Located(source, stmts)
    ensures TakenFrom(source, stmts, filtered, k, b) <==>
      Covered(AbsoluteAll(source, StartOf(stmts[k]), StatementEnd(source, stmts, k), filtered[k]), b)
  {
    hide Takes, AbsoluteAll, StatementEnd, Located;
    AbsoluteAllTake(source, StartOf(stmts[k]), StatementEnd(source, stmts, k), filtered[k], b);
  }

  method AbsoluteEach(source: seq<byte>, start: nat, end: nat, rs: seq<Removal>) returns (all: seq<Removal>)
    requires start <= end
    ensures all == AbsoluteAll(source, start, end, rs)
  {
    hide Absolute;
    all := [];
    assert rs[0..] == rs && [] + AbsoluteAll(source, start, end, rs) == AbsoluteAll(source, start, end, rs);
    for k := 0 to |rs|
      invariant all + AbsoluteAll(source, start, end, rs[k..]) == AbsoluteAll(source, start, end, rs)
    {
      ghost var rest := AbsoluteAll(source, start, end, rs[k + 1..]);
      assert rs[k..][1..] == rs[k + 1..];
      assert all + ([Absolute(source, start, end, rs[k])] + rest) == all + [Absolute(source, start, end, rs[k])] + rest;
      all := all + [Absolute(source, start, end, rs[k])];
    }
    assert rs[|rs|..] == [] && all + [] == all;
  }

  // Exactly the bytes outside all requested ranges are kept, and the reported removals are those ranges,
  // sorted and separated.
  method Preprocess(source: seq<byte>, stmts: seq<Statement>, filtered: seq<seq<Removal>>)
    returns (modified: bool, content: seq<byte>, removals: seq<Removal>)
    requires |filtered| == |stmts| && Located(source, stmts)
    requires InRange(source, Requested(source, stmts, filtered, 0))
    ensures modified <==> Requested(source, stmts, filtered, 0) != []
    ensures content == Kept(source, Requested(source, stmts, filtered, 0), 0)
    ensures InRange(source, removals) && Separated(removals)
    ensures SameCover(removals, Requested(source, stmts, filtered, 0))
  {
    hide Kept, Covered, Separated, Requested, SameCover, Sorted, InRange, Located;
    var all := Collect(source, stmts, filtered);
    if all == [] {
      KeptAll(source);
      SeparatedFew(Removal(0, 0));
      SameItself([]);
      NothingInRange(source);
      return false, source, [];
    }
    SortedSorts(all);
    SortedCovers(source, all);
    removals := Merge(source, Sorted(all));
    content := Stitch(source, removals);
    SameCoverTwice(removals, Sorted(all), all);
    SameKept(source, removals, all, 0);
    modified := true;
  }

  lemma NothingInRange(source: seq<byte>)
    ensures InRange(source, [])
  {
  }

  lemma SameCoverTwice(a: seq<Removal>, b: seq<Removal>, c: seq<Removal>)
    requires SameCover(a, b) && SameCover(b, c)
    ensures SameCover(a, c)
  {
  }

  lemma KeptAll(source: seq<byte>)
    ensures Kept(source, [], 0) == source
  {
    forall i | 0 <= i < |source| ensures !Covered([], i) { NothingCovers(i); }
    KeptSlice(source, [], 0, |source|);
    KeptEnd(source, []);
    assert source[0..|source|] == source;
  }

  // -- The two position maps ------------------------------------------------------------------------------------

  // The loop of mapStrippedToOriginal with `removed` bytes counted so far.
  function Restore(rs: seq<Removal>, removed: nat, p: nat): (q: nat)
    ensures q >= p + removed
    decreases |rs|
  {
    if rs == [] || p + removed < rs[0].offset then p + removed
    else Restore(rs[1..], removed + rs[0].length, p)
  }

  // The loop of mapOriginalToStripped.
  function Strip(rs: seq<Removal>, removed: nat, q: nat): int
    decreases |rs|
  {
    if rs == [] || q < rs[0].offset then q - removed
    else if q < EndOf(rs[0]) then rs[0].offset - removed
    else Strip(rs[1..], removed + rs[0].length, q)
  }

  function StrippedToOriginal(rs: seq<Removal>, p: nat): nat { Restore(rs, 0, p) }

  function OriginalToStripped(rs: seq<Removal>, q: nat): int { Strip(rs, 0, q) }

  method MapStrippedToOriginal(removals: seq<Removal>, strippedPos: nat) returns (r: nat)
    ensures r == StrippedToOriginal(removals, strippedPos)
  {
    var removedSoFar: nat := 0;
    assert removals[0..] == removals;
    for i := 0 to |removals|
      invariant Restore(removals, 0, strippedPos) == Restore(removals[i..], removedSoFar, strippedPos)
    {
      var strippedOffsetOfThisRemoval: int := removals[i].offset - removedSoFar;
      assert removals[i..][0] == removals[i] && removals[i..][1..] == removals[i + 1..];
      if strippedPos < strippedOffsetOfThisRemoval { return strippedPos + removedSoFar; }
      removedSoFar := removedSoFar + removals[i].length;
    }
    r := strippedPos + removedSoFar;
  }

  method MapOriginalToStripped(removals: seq<Removal>, originalPos: nat) returns (r: int)
    ensures r == OriginalToStripped(removals, originalPos)
  {
    var removedSoFar: nat := 0;
    assert removals[0..] == removals;
    for i := 0 to |removals|
      invariant Strip(removals, 0, originalPos) == Strip(removals[i..], removedSoFar, originalPos)
    {
      assert removals[i..][0] == removals[i] && removals[i..][1..] == removals[i + 1..];
      if originalPos < removals[i].offset { return originalPos - removedSoFar; }
      if originalPos < EndOf(removals[i]) { return removals[i].offset - removedSoFar; }
      removedSoFar := removedSoFar + removals[i].length;
    }
    r := originalPos - removedSoFar;
  }

  // `removed` bytes were cut before `from`, which is where the remaining removals begin at the earliest.
  lemma {:induction false} RestoreBound(rs: seq<Removal>, removed: nat, from: nat, p: nat)
    requires Separated(rs) && StartsAt(rs, from) && removed <= from <= p + removed
    ensures p + removed <= Restore(rs, removed, p) && !Covered(rs, Restore(rs, removed, p))
    decreases |rs|
  {
    hide Covered, Separated;
    if rs == [] {
      NothingCovers(p + removed);
    } else {
      SeparatedTail(rs);
      var r, rest := rs[0], rs[1..];
      assert rs == [r] + rest;
      if p + removed < r.offset {
        NothingBefore(rs, r.offset, p + removed);
      } else {
        RestoreNext(rs, removed, p);
        CoveredCons(r, rest, Restore(rest, removed + r.length, p));
      }
    }
  }

  // Past a removal, the search goes on behind it.
  lemma {:induction false} RestoreNext(rs: seq<Removal>, removed: nat, p: nat)
    requires Separated(rs) && rs != [] && removed <= rs[0].offset <= p + removed
    ensures EndOf(rs[0]) <= Restore(rs[1..], removed + rs[0].length, p)
    ensures !Covered(rs[1..], Restore(rs[1..], removed + rs[0].length, p))
    decreases |rs|, 0
  {
    hide Covered, Separated;
    var r, rest := rs[0], rs[1..];
    SeparatedTail(rs);
    if rest == [] {
      NothingCovers(p + removed + r.length);
    } else if p + removed + r.length < rest[0].offset {
      NothingBefore(rest, rest[0].offset, p + removed + r.length);
    } else {
      RestoreNext(rest, removed + r.length, p);
      assert rest == [rest[0]] + rest[1..];
      CoveredCons(rest[0], rest[1..], Restore(rest[1..], removed + r.length + rest[0].length, p));
    }
  }

  // The two maps form a Galois connection.
  lemma {:induction false} GaloisFrom(rs: seq<Removal>, removed: nat, from: nat, p: nat, q: nat)
    requires Separated(rs) && StartsAt(rs, from) && removed <= from <= p + removed && from <= q
    ensures Strip(rs, removed, q) <= p <==> q <= Restore(rs, removed, p)
    decreases |rs|
  {
    hide Covered, Separated;
    if rs != [] {
      var r := rs[0];
      SeparatedTail(rs);
      if p + removed < r.offset {
        if q >= EndOf(r) { StripBound(rs[1..], removed + r.length, EndOf(r), q); }
      } else {
        RestoreNext(rs, removed, p);
        if q >= EndOf(r) { GaloisFrom(rs[1..], removed + r.length, EndOf(r), p, q); }
      }
    }
  }

  lemma {:induction false} StripBound(rs: seq<Removal>, removed: nat, from: nat, q: nat)
    requires Separated(rs) && StartsAt(rs, from) && removed <= from <= q
    ensures Strip(rs, removed, q) >= from - removed
    decreases |rs|
  {
    hide Covered, Separated;
    if rs != [] {
      SeparatedTail(rs);
      if q >= EndOf(rs[0]) { StripBound(rs[1..], removed + rs[0].length, EndOf(rs[0]), q); }
    }
  }

  lemma Galois(rs: seq<Removal>, p: nat, q: nat)
    requires Separated(rs)
    ensures OriginalToStripped(rs, q) >= 0
    ensures OriginalToStripped(rs, q) <= p <==> q <= StrippedToOriginal(rs, p)
  {
    hide Separated;
    GaloisFrom(rs, 0, 0, p, q);
    StripBound(rs, 0, 0, q);
  }

  // Going to the original and back changes no stripped position; the original one is kept text.
  lemma {:induction false} RoundTripFrom(rs: seq<Removal>, removed: nat, from: nat, p: nat)
    requires Separated(rs) && StartsAt(rs, from) && removed <= from <= p + removed
    ensures Strip(rs, removed, Restore(rs, removed, p)) == p
    decreases |rs|
  {
    hide Covered, Separated;
    if rs != [] && p + removed >= rs[0].offset {
      SeparatedTail(rs);
      RestoreNext(rs, removed, p);
      RoundTripFrom(rs[1..], removed + rs[0].length, EndOf(rs[0]), p);
    }
  }

  lemma RoundTrip(rs: seq<Removal>, p: nat)
    requires Separated(rs)
    ensures OriginalToStripped(rs, StrippedToOriginal(rs, p)) == p
    ensures !Covered(rs, StrippedToOriginal(rs, p))
  {
    hide Covered, Separated;
    RoundTripFrom(rs, 0, 0, p);
    RestoreBound(rs, 0, 0, p);
  }

  // The byte at a stripped position is the byte at the original position it maps to.
  lemma {:induction false} SameByteFrom(source: seq<byte>, rs: seq<Removal>, removed: nat, cursor: nat, k: nat)
    requires InRange(source, rs) && Separated(rs) && StartsAt(rs, cursor) && removed <= cursor <= |source|
    requires k < |Stitched(source, rs, cursor)|
    ensures Restore(rs, removed, cursor - removed + k) < |source|
    ensures Stitched(source, rs, cursor)[k] == source[Restore(rs, removed, cursor - removed + k)]
    decreases |rs|
  {
    hide Covered, Separated;
    if rs != [] {
      var r := rs[0];
      SeparatedTail(rs);
      var piece := if r.offset > cursor then source[cursor..r.offset] else [];
      if k >= |piece| {
        SameByteFrom(source, rs[1..], removed + r.length, EndOf(r), k - |piece|);
      }
    }
  }

  lemma SameByte(source: seq<byte>, rs: seq<Removal>, p: nat)
    requires InRange(source, rs) && Separated(rs) && p < |Kept(source, rs, 0)|
    ensures StrippedToOriginal(rs, p) < |source| && Kept(source, rs, 0)[p] == source[StrippedToOriginal(rs, p)]
  {
    hide Covered, Separated, Kept, Stitched, Restore;
    StitchedIsKept(source, rs, 0);
    SameByteFrom(source, rs, 0, 0, p);
  }
}
