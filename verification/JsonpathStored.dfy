/** Stored jsonpath constants as a whole: the text of any image, and when the captured table is
    accepted. */
module JsonpathStored {
  import opened Bytes
  import opened Parts
  import opened Decimal
  import opened JsonpathTable
  import opened Jsonpath
  import opened JsonpathUnfold
  import J = Jsonb

  // -- The table of a path is one tree --------------------------------------------------------------------------

  function ShapeOf(p: Path, base: nat): Shape
    decreases p
  {
    var shapes, start := ArgShapes(p.args, base + 1), base + 1 + ArgsSize(p.args);
    Node(base, if p.next.None? then Nothing else ShapeOf(p.next.value, NextIndex(p, base)),
         if p.kind == SUBSCRIPTS then EntryShapes(shapes, start) else ShapeAt(shapes, 0),
         if p.kind == SUBSCRIPTS then Nothing else ShapeAt(shapes, 1))
  }

  function ArgShapes(args: Args, base: nat): (shapes: seq<Shape>)
    ensures |shapes| == Count(args)
    decreases args
  {
    match args
    case NoArgs => []
    case Arg(first, rest) =>
      [if first.None? then Nothing else ShapeOf(first.value, base)] +
          ArgShapes(rest, base + if first.None? then 0 else Size(first.value))
  }

  function ShapeAt(shapes: seq<Shape>, i: nat): Shape { if i < |shapes| then shapes[i] else Nothing }

  function EntryShapes(shapes: seq<Shape>, start: nat): Shape
    decreases |shapes|
  {
    if |shapes| < 2 then Nothing else Node(start, EntryShapes(shapes[2..], start + 1), shapes[0], shapes[1])
  }

  predicate AllUnroll(nodes: seq<PathNode>, links: seq<nat>, shapes: seq<Shape>)
  {
    |links| == |shapes| && forall i :: 0 <= i < |links| ==> Unrolls(nodes, links[i], shapes[i])
  }

  lemma {:induction false} FlatUnrolls(nodes: seq<PathNode>, p: Path, base: nat)
    requires base > 0 && Formed(p) && At(nodes, base, Flat(p, base))
    ensures Unrolls(nodes, base, ShapeOf(p, base))
    decreases p
  {
    hide Flat, FlatArgs, At, NodeOf, EntriesAt, ArgLinks, ArgShapes, FormedArgs, ShapeOf, AllUnroll, Unrolls;
    FormedParts(p);
    FlatParts(nodes, p, base);
    FlatArgsUnroll(nodes, p.args, base + 1);
    HeadShows(p, base);
    if p.kind == SUBSCRIPTS {
      EntriesMatch(p, base);
      EntriesUnroll(nodes, ArgLinks(p.args, base + 1), ArgShapes(p.args, base + 1), base + 1 + ArgsSize(p.args));
    } else {
      FewArgs(p);
      FewUnroll(nodes, ArgLinks(p.args, base + 1), ArgShapes(p.args, base + 1));
    }
    if p.next.Some? { FlatUnrolls(nodes, p.next.value, NextIndex(p, base)); }
    NothingUnrolls(nodes);
    WholeShape(nodes, p, base);
  }

  lemma NothingUnrolls(nodes: seq<PathNode>)
    ensures Unrolls(nodes, 0, Nothing)
  {
  }

  lemma WholeShape(nodes: seq<PathNode>, p: Path, base: nat)
    requires 0 < base < |nodes|
    requires Unrolls(nodes, nodes[base].left,
                     if p.kind == SUBSCRIPTS then EntryShapes(ArgShapes(p.args, base + 1), base + 1 + ArgsSize(p.args))
                     else ShapeAt(ArgShapes(p.args, base + 1), 0))
    requires Unrolls(nodes, nodes[base].right,
                     if p.kind == SUBSCRIPTS then Nothing else ShapeAt(ArgShapes(p.args, base + 1), 1))
    requires Unrolls(nodes, nodes[base].next,
                     if p.next.None? then Nothing else ShapeOf(p.next.value, NextIndex(p, base)))
    ensures Unrolls(nodes, base, ShapeOf(p, base))
  {
    hide ArgShapes, EntryShapes, ShapeAt, NextIndex;
  }

  lemma FewUnroll(nodes: seq<PathNode>, links: seq<nat>, shapes: seq<Shape>)
    requires AllUnroll(nodes, links, shapes)
    ensures Unrolls(nodes, LinkAt(links, 0), ShapeAt(shapes, 0)) && Unrolls(nodes, LinkAt(links, 1), ShapeAt(shapes, 1))
  {
  }

  lemma {:induction false} EntriesUnroll(nodes: seq<PathNode>, links: seq<nat>, shapes: seq<Shape>, start: nat)
    requires start > 0 && AllUnroll(nodes, links, shapes) && |links| % 2 == 0
    requires At(nodes, start, SubscriptNodes(links, start))
    ensures Unrolls(nodes, if links == [] then 0 else start, EntryShapes(shapes, start))
    decreases |links|
  {
    hide At;
    if links != [] {
      var e := PathNode(14, if |links| >= 4 then start + 1 else 0, links[0], links[1], [], 0, 0, 0);
      AtSplit(nodes, start, [e], SubscriptNodes(links[2..], start + 1));
      AtOne(nodes, start, e);
      EntriesUnroll(nodes, links[2..], shapes[2..], start + 1);
    }
  }

  lemma {:induction false} FlatArgsUnroll(nodes: seq<PathNode>, args: Args, base: nat)
    requires base > 0 && FormedArgs(args) && At(nodes, base, FlatArgs(args, base))
    ensures AllUnroll(nodes, ArgLinks(args, base), ArgShapes(args, base))
    decreases args
  {
    hide Flat, FlatArgs, At, Formed, ShapeOf, Size, Unrolls, AllUnroll;
    match args
    case NoArgs =>
      NoneUnroll(nodes);
    case Arg(first, rest) =>
      FlatArgsParts(nodes, args, base);
      NothingUnrolls(nodes);
      var size := if first.None? then 0 else Size(first.value);
      if first.Some? { FlatUnrolls(nodes, first.value, base); }
      FlatArgsUnroll(nodes, rest, base + size);
      MoreUnroll(nodes, if first.None? then 0 else base, ArgLinks(rest, base + size),
                 if first.None? then Nothing else ShapeOf(first.value, base), ArgShapes(rest, base + size));
  }

  lemma NoneUnroll(nodes: seq<PathNode>)
    ensures AllUnroll(nodes, [], [])
  {
  }

  lemma MoreUnroll(nodes: seq<PathNode>, link: int, links: seq<nat>, s: Shape, shapes: seq<Shape>)
    requires Unrolls(nodes, link, s) && AllUnroll(nodes, links, shapes)
    ensures AllUnroll(nodes, [link] + links, [s] + shapes)
  {
    hide Unrolls;
  }

  // -- It has every entry once ---------------------------------------------------------------------------------------

  // As many visits as there are indices from `lo` to `hi`, and exactly to those.
  ghost predicate Covers(visits: seq<nat>, lo: nat, hi: nat)
  {
    lo + |visits| == hi && forall i :: i in visits <==> lo <= i < hi
  }

  // The visits `a` and those of the indices from `lo` to `hi`, in some order.
  ghost predicate Adds(visits: seq<nat>, a: seq<nat>, lo: nat, hi: nat)
  {
    lo + |visits| == |a| + hi && forall i :: i in visits <==> i in a || lo <= i < hi
  }

  function AllVisits(shapes: seq<Shape>): seq<nat>
  {
    if shapes == [] then [] else Visits(shapes[0]) + AllVisits(shapes[1..])
  }

  lemma {:induction false} ShapeCovers(p: Path, base: nat)
    requires Formed(p)
    ensures Covers(Visits(ShapeOf(p, base)), base, base + Size(p))
    decreases p
  {
    hide Visits, Covers, Adds, EntryShapes, ArgShapes, FormedArgs, ArgsSize, EntryCount, AllVisits, ShapeAt,
      FitsDetail, IsKnown;
    FormedParts(p);
    var shapes := ArgShapes(p.args, base + 1);
    var s := ShapeOf(p, base);
    ArgShapesCover(p.args, base + 1);
    if p.kind == SUBSCRIPTS {
      EntryVisits(shapes, base + 1 + ArgsSize(p.args));
    } else {
      FewArgs(p);
      FewVisits(shapes);
    }
    if p.next.Some? { ShapeCovers(p.next.value, NextIndex(p, base)); } else { NothingCovers(NextIndex(p, base)); }
    NodeVisits(s);
    ArgsAdd(p, base, s);
    JoinCovers(base, Visits(s.right) + Visits(s.left), Visits(s.next), base + 1 + ArgsSize(p.args) + EntryCount(p),
               base + Size(p));
  }

  lemma NodeVisits(s: Shape)
    requires s.Node?
    ensures Visits(s) == [s.index] + (Visits(s.right) + Visits(s.left)) + Visits(s.next)
  {
  }

  lemma NothingCovers(at: nat)
    ensures Covers(Visits(Nothing), at, at)
  {
  }

  lemma JoinCovers(base: nat, a: seq<nat>, b: seq<nat>, middle: nat, end: nat)
    requires Covers(a, base + 1, middle) && Covers(b, middle, end)
    ensures Covers([base] + a + b, base, end)
  {
    assert base + 1 <= middle <= end;
  }

  // Both links of the item together: the arguments, and a subscript list's own entries.
  lemma ArgsAdd(p: Path, base: nat, s: Shape)
    requires s == ShapeOf(p, base)
    requires Covers(AllVisits(ArgShapes(p.args, base + 1)), base + 1, base + 1 + ArgsSize(p.args))
    requires p.kind == SUBSCRIPTS ==>
      Adds(Visits(s.left), AllVisits(ArgShapes(p.args, base + 1)), base + 1 + ArgsSize(p.args),
           base + 1 + ArgsSize(p.args) + Count(p.args) / 2)
    requires p.kind != SUBSCRIPTS ==>
      Adds(Visits(s.right) + Visits(s.left), AllVisits(ArgShapes(p.args, base + 1)), base + 1 + ArgsSize(p.args), base +
           1 + ArgsSize(p.args))
    ensures Covers(Visits(s.right) + Visits(s.left), base + 1, base + 1 + ArgsSize(p.args) + EntryCount(p))
  {
    var middle := base + 1 + ArgsSize(p.args);
    if p.kind == SUBSCRIPTS { assert Visits(s.right) == []; assert [] + Visits(s.left) == Visits(s.left); }
    hide ArgShapes, Covers, Adds, Visits, AllVisits;
    AddedCovers(Visits(s.right) + Visits(s.left), AllVisits(ArgShapes(p.args, base + 1)), base + 1, middle, middle +
                EntryCount(p));
  }

  lemma AddedCovers(visits: seq<nat>, a: seq<nat>, lo: nat, middle: nat, hi: nat)
    requires Covers(a, lo, middle) && Adds(visits, a, middle, hi) && middle <= hi
    ensures Covers(visits, lo, hi)
  {
  }

  lemma {:induction false} EntryVisits(shapes: seq<Shape>, start: nat)
    requires |shapes| % 2 == 0
    ensures Adds(Visits(EntryShapes(shapes, start)), AllVisits(shapes), start, start + |shapes| / 2)
    decreases |shapes|
  {
    if shapes != [] {
      EntryVisits(shapes[2..], start + 1);
      assert shapes[1..][1..] == shapes[2..];
      hide Visits, Adds;
      NodeVisits(EntryShapes(shapes, start));
      MoreAdds(Visits(shapes[0]), Visits(shapes[1]), Visits(EntryShapes(shapes[2..], start + 1)),
               AllVisits(shapes[2..]), start, start + |shapes| / 2);
    }
  }

  lemma MoreAdds(a: seq<nat>, b: seq<nat>, v: seq<nat>, rest: seq<nat>, lo: nat, hi: nat)
    requires lo < hi && Adds(v, rest, lo + 1, hi)
    ensures Adds([lo] + (b + a) + v, a + (b + rest), lo, hi)
  {
  }

  lemma FewVisits(shapes: seq<Shape>)
    requires |shapes| <= 2
    ensures forall at: nat :: Adds(Visits(ShapeAt(shapes, 1)) + Visits(ShapeAt(shapes, 0)), AllVisits(shapes), at, at)
  {
    if |shapes| == 2 { assert AllVisits(shapes[1..]) == Visits(shapes[1]) + AllVisits(shapes[1..][1..]); }
    if |shapes| == 1 { assert AllVisits(shapes[1..]) == []; }
  }

  lemma {:induction false} ArgShapesCover(args: Args, base: nat)
    requires FormedArgs(args)
    ensures Covers(AllVisits(ArgShapes(args, base)), base, base + ArgsSize(args))
    decreases args
  {
    hide ShapeOf, Visits, Formed, Covers, Size;
    match args
    case NoArgs =>
      NothingCovers(base);
      assert AllVisits([]) == Visits(Nothing) by { NothingVisited(); }
    case Arg(first, rest) =>
      var size := if first.None? then 0 else Size(first.value);
      if first.Some? { ShapeCovers(first.value, base); } else { NothingCovers(base); }
      ArgShapesCover(rest, base + size);
      assert ArgShapes(args, base)[1..] == ArgShapes(rest, base + size);
      TwoCovers(base, Visits(ArgShapes(args, base)[0]), AllVisits(ArgShapes(rest, base + size)), base + size, base +
                ArgsSize(args));
  }

  lemma NothingVisited()
    ensures Visits(Nothing) == []
  {
  }

  lemma TwoCovers(lo: nat, a: seq<nat>, b: seq<nat>, middle: nat, hi: nat)
    requires Covers(a, lo, middle) && Covers(b, middle, hi)
    ensures Covers(a + b, lo, hi)
  {
  }

  lemma {:induction false} AsManyMembers(s: seq<nat>)
    ensures |Members(s)| <= |s|
    ensures |Members(s)| == |s| ==> Distinct(s)
  {
    if s != [] {
      AsManyMembers(s[1..]);
      assert Members(s) == Members(s[1..]) + {s[0]};
      if |Members(s)| == |s| {
        assert s[0] !in Members(s[1..]);
        forall i, j | 0 <= i < j < |s| ensures s[i] != s[j] {
          assert s[j] == s[1..][j - 1] && (i > 0 ==> s[i] == s[1..][i - 1]);
        }
      }
    }
  }

  lemma CoversAll(visits: seq<nat>, n: nat)
    requires Covers(visits, 1, n)
    ensures Distinct(visits) && Members(visits) == Indices(n)
  {
    hide Distinct;
    AsManyMembers(visits);
    assert Members(visits) == Indices(n);
  }

  // The table captured from a path is one tree.
  lemma CapturedIsOneTree(p: Path)
    requires Formed(p)
    ensures OneTree([EMPTY] + Flat(p, 1), 1)
  {
    hide Flat, ShapeOf, Visits, Unrolls, Formed, Distinct, Covers;
    FlatLength(p, 1);
    ShapeCovers(p, 1);
    FlatUnrolls([EMPTY] + Flat(p, 1), p, 1);
    CoversAll(Visits(ShapeOf(p, 1)), 1 + Size(p));
  }

  // -- Entries within the limits ------------------------------------------------------------------------------------

  // The text of an item has no zero byte, and its bounds are signed words.
  predicate PortableDetail(d: Detail)
  {
    match d
    case TextDetail(s) => 0 !in s
    case RegexDetail(_, s) => 0 !in s
    case BoundsDetail(first, last) => first <= 0x7FFF_FFFF && last <= 0x7FFF_FFFF
    case _ => true
  }

  predicate Portable(p: Path)
    decreases p
  {
    PortableDetail(p.detail) && PortableArgs(p.args) && (p.next.Some? ==> Portable(p.next.value))
  }

  predicate PortableArgs(args: Args)
    decreases args
  {
    match args case NoArgs => true case Arg(first, rest) => (first.Some? ==> Portable(first.value)) && PortableArgs(rest)
  }

  predicate EntriesValid(part: seq<PathNode>, count: nat)
  {
    forall i :: 0 <= i < |part| ==> NodeValid(part[i], 1, count)
  }

  lemma JoinValid(a: seq<PathNode>, b: seq<PathNode>, count: nat)
    ensures EntriesValid(a + b, count) <==> EntriesValid(a, count) && EntriesValid(b, count)
  {
    hide NodeValid;
    if EntriesValid(a + b, count) {
      forall i | 0 <= i < |a| ensures NodeValid(a[i], 1, count) { assert (a + b)[i] == a[i]; }
      forall i | 0 <= i < |b| ensures NodeValid(b[i], 1, count) { assert (a + b)[|a| + i] == b[i]; }
    }
  }

  lemma {:induction false} FlatValid(p: Path, base: nat, count: nat)
    requires Formed(p) && base + Size(p) <= count
    ensures EntriesValid(Flat(p, base), count) <==> Portable(p)
    decreases p
  {
    hide Flat, FlatArgs, NodeOf, EntriesAt, FormedArgs, PortableDetail, PortableArgs, EntriesValid, NodeValid;
    FormedParts(p);
    FlatSplit(p, base);
    FlatArgsValid(p.args, base + 1, count);
    var rest := if p.next.None? then [] else Flat(p.next.value, NextIndex(p, base));
    if p.next.Some? { FlatValid(p.next.value, NextIndex(p, base), count); } else { NoneValid(count); }
    JoinValid([NodeOf(p, base)] + FlatArgs(p.args, base + 1) + EntriesAt(p, base), rest, count);
    JoinValid([NodeOf(p, base)] + FlatArgs(p.args, base + 1), EntriesAt(p, base), count);
    JoinValid([NodeOf(p, base)], FlatArgs(p.args, base + 1), count);
    HeadValidity(p, base, count);
    OneValid(NodeOf(p, base), count);
    EntriesAtValid(p, base, count);
  }

  lemma NoneValid(count: nat)
    ensures EntriesValid([], count)
  {
  }

  lemma OneValid(n: PathNode, count: nat)
    ensures EntriesValid([n], count) <==> NodeValid(n, 1, count)
  {
    hide NodeValid;
    assert [n][0] == n;
  }

  lemma {:induction false} FlatArgsValid(args: Args, base: nat, count: nat)
    requires FormedArgs(args) && base + ArgsSize(args) <= count
    ensures EntriesValid(FlatArgs(args, base), count) <==> PortableArgs(args)
    decreases args
  {
    hide Flat, Formed, Portable, EntriesValid, Size;
    match args
    case NoArgs =>
      NoneValid(count);
    case Arg(first, rest) =>
      var size := if first.None? then 0 else Size(first.value);
      if first.Some? { FlatValid(first.value, base, count); } else { NoneValid(count); }
      FlatArgsValid(rest, base + size, count);
      JoinValid(if first.None? then [] else Flat(first.value, base), FlatArgs(rest, base + size), count);
  }

  lemma {:induction false} LinksBelow(args: Args, base: nat, count: nat)
    requires base + ArgsSize(args) <= count && count > 0
    ensures forall i :: 0 <= i < |ArgLinks(args, base)| ==> ArgLinks(args, base)[i] < count
    decreases args
  {
    hide Size;
    match args
    case NoArgs =>
    case Arg(first, rest) =>
      LinksBelow(rest, base + if first.None? then 0 else Size(first.value), count);
  }

  lemma HeadValidity(p: Path, base: nat, count: nat)
    requires IsKnown(p.kind) && FitsDetail(p.kind, p.detail) && FitsArgs(p.kind, Count(p.args))
    requires base + Size(p) <= count
    ensures NodeValid(NodeOf(p, base), 1, count) <==> PortableDetail(p.detail)
  {
    hide ArgLinks, KnownKind, IsKnown, PlainText, PortableKind;
    LinksBelow(p.args, base + 1, count);
    KindIsNative(p.kind, p.detail);
    HeadShows(p, base);
    TextValidity(p.kind, p.detail);
    LinksWithin(p, base, count);
    hide NodeOf, TextOf, PortableDetail, FitsDetail, NextIndex;
    DetailValidity(NodeOf(p, base), p.kind, p.detail, count);
  }

  lemma LinksWithin(p: Path, base: nat, count: nat)
    requires base + Size(p) <= count && FitsArgs(p.kind, Count(p.args))
    ensures 0 <= NodeOf(p, base).next < count && 0 <= NodeOf(p, base).left < count && 0 <= NodeOf(p, base).right < count
  {
    hide PortableKind, TextOf;
    LinksBelow(p.args, base + 1, count);
    EntriesLength(ArgLinks(p.args, base + 1), 0);
    hide ArgLinks;
  }

  lemma DetailValidity(n: PathNode, k: nat, d: Detail, count: nat)
    requires IsKnown(k) && FitsDetail(k, d) && Shows(n, k, d)
    requires 0 <= n.next < count && 0 <= n.left < count && 0 <= n.right < count
    ensures NodeValid(n, 1, count) <==> PortableDetail(d)
  {
    hide KnownKind, IsKnown, PlainText, PortableKind, ValidUtf8, DecimalPattern;
    KindIsNative(k, d);
    TextValidity(k, d);
  }

  // What an item stores as text is plain unless a zero byte is in it.
  lemma TextValidity(k: nat, d: Detail)
    requires FitsDetail(k, d)
    ensures PlainText(true, TextOf(d)) <==> (d.TextDetail? ==> 0 !in d.text) && (d.RegexDetail? ==> 0 !in d.pattern)
    ensures !IsText(k) && k != 2 && k != 42 ==> TextOf(d) == []
  {
    if d.NumberDetail? {
      NumberChars(d.number);
      hide AsciiBytes, DecimalPattern;
      AsciiPlain(d.number);
    }
    hide AsciiBytes, DecimalPattern;
  }

  lemma {:induction false} EntriesAtValid(p: Path, base: nat, count: nat)
    requires base + Size(p) <= count
    ensures EntriesValid(EntriesAt(p, base), count)
  {
    if p.kind == SUBSCRIPTS {
      LinksBelow(p.args, base + 1, count);
      SubscriptsValid(ArgLinks(p.args, base + 1), base + 1 + ArgsSize(p.args), count);
    } else {
      NoneValid(count);
    }
  }

  lemma {:induction false} SubscriptsValid(links: seq<nat>, start: nat, count: nat)
    requires start + |links| / 2 <= count && forall i :: 0 <= i < |links| ==> links[i] < count
    ensures EntriesValid(SubscriptNodes(links, start), count)
    decreases |links|
  {
    if |links| >= 2 {
      SubscriptsValid(links[2..], start + 1, count);
      var e := PathNode(14, if |links| >= 4 then start + 1 else 0, links[0], links[1], [], 0, 0, 0);
      JoinValid([e], SubscriptNodes(links[2..], start + 1), count);
      OneValid(e, count);
    }
  }

  // -- Texts without zero bytes -------------------------------------------------------------------------------------

  predicate AsciiOnly(s: string) { forall i :: 0 <= i < |s| ==> 0 as char < s[i] < 128 as char }

  lemma {:induction false} ValidJoin(a: seq<byte>, b: seq<byte>)
    requires ValidUtf8(a) && ValidUtf8(b)
    ensures ValidUtf8(a + b)
    decreases |a|
  {
    if a == [] {
      assert a + b == b;
    } else {
      var n := CharLength(a);
      SameFirst(a, b);
      hide CharLength;
      Beyond(a, b, n);
      ValidJoin(a[n..], b);
    }
  }

  lemma Beyond(a: seq<byte>, b: seq<byte>, n: nat)
    requires n <= |a|
    ensures (a + b)[n..] == a[n..] + b
  {
  }

  lemma SameFirst(a: seq<byte>, b: seq<byte>)
    requires CharLength(a) > 0
    ensures CharLength(a + b) == CharLength(a)
  {
    var c := a + b;
    assert forall i :: 0 <= i < |a| ==> c[i] == a[i];
  }

  lemma PlainJoin(a: seq<byte>, b: seq<byte>)
    requires PlainText(true, a) && PlainText(true, b)
    ensures PlainText(true, a + b)
  {
    hide ValidUtf8;
    ValidJoin(a, b);
  }

  lemma {:induction false} AsciiPlain(s: string)
    requires AsciiOnly(s)
    ensures PlainText(true, AsciiBytes(s))
  {
    if s != "" {
      AsciiPlain(s[1..]);
      var b := AsciiBytes(s);
      assert b[0] == s[0] as int && CharLength(b) == 1 && b[1..] == AsciiBytes(s[1..]);
    }
  }

  lemma {:induction false} EscapedHigh(s: seq<byte>, n: nat)
    requires n <= |s| && forall i :: 0 <= i < n ==> s[i] >= 0x80
    ensures J.Escaped(s) == s[..n] + J.Escaped(s[n..])
  {
    if n == 0 {
      assert s[0..] == s && [] + J.Escaped(s) == J.Escaped(s);
    } else {
      assert J.Escape(s[0]) == [s[0]];
      hide J.Escape;
      EscapedHigh(s[1..], n - 1);
      assert s[1..][..n - 1] == s[1..n] && s[1..][n - 1..] == s[n..] && [s[0]] + s[1..n] == s[..n];
      Regrouped([s[0]], s[1..n], J.Escaped(s[n..]));
    }
  }

  lemma EscapePlain(b: byte)
    requires b < 0x80
    ensures PlainText(true, J.Escape(b))
  {
    hide PlainText, AsciiBytes, J.Hex;
    AsciiPlain("\\b");
    AsciiPlain("\\t");
    AsciiPlain("\\n");
    AsciiPlain("\\f");
    AsciiPlain("\\r");
    AsciiPlain("\\u00");
    if b == 0x22 || b == 0x5C {
      LowPlain([0x5C, b]);
    } else if b < 0x20 {
      HexPlain(b / 16, b % 16);
      PlainJoin(AsciiBytes("\\u00"), [J.Hex(b / 16), J.Hex(b % 16)]);
    } else {
      LowPlain([b]);
    }
  }

  lemma HexPlain(high: nat, low: nat)
    requires high < 16 && low < 16
    ensures PlainText(true, [J.Hex(high), J.Hex(low)])
  {
    LowPlain([J.Hex(high), J.Hex(low)]);
  }

  lemma {:induction false} LowPlain(b: seq<byte>)
    requires forall i :: 0 <= i < |b| ==> 0 < b[i] < 0x80
    ensures PlainText(true, b)
  {
    if b != [] { LowPlain(b[1..]); }
  }

  lemma {:induction false} EscapedPlain(s: seq<byte>)
    requires ValidUtf8(s)
    ensures PlainText(true, J.Escaped(s))
    decreases |s|
  {
    if s != [] {
      var n := CharLength(s);
      EscapedPlain(s[n..]);
      if s[0] < 0x80 {
        EscapePlain(s[0]);
        PlainJoin(J.Escape(s[0]), J.Escaped(s[1..]));
      } else {
        CharHigh(s);
        EscapedHigh(s, n);
        PlainJoin(s[..n], J.Escaped(s[n..]));
      }
    }
  }

  // A character of several bytes has no zero byte and is well-formed by itself.
  lemma CharHigh(s: seq<byte>)
    requires CharLength(s) > 0 && s[0] >= 0x80
    ensures PlainText(true, s[..CharLength(s)]) && forall i :: 0 <= i < CharLength(s) ==> s[i] >= 0x80
  {
    var n := CharLength(s);
    var c := s[..n];
    assert CharLength(c) == n && c[n..] == [];
  }

  lemma QuotePlain(s: seq<byte>)
    requires ValidUtf8(s)
    ensures PlainText(true, J.Quote(s))
  {
    hide PlainText;
    AsciiPlain("\"");
    EscapedPlain(s);
    hide J.Escaped, AsciiBytes;
    PlainJoin(AsciiBytes("\""), J.Escaped(s));
    PlainJoin(AsciiBytes("\"") + J.Escaped(s), AsciiBytes("\""));
  }

  // Every text that rendering writes is plain.
  predicate AllPlain(texts: seq<Option<seq<byte>>>)
  {
    forall i :: 0 <= i < |texts| && texts[i].Some? ==> PlainText(true, texts[i].value)
  }

  lemma NothingPlain()
    ensures PlainText(true, [])
  {
  }

  lemma Between(before: string, a: seq<byte>, after: string)
    requires AsciiOnly(before) && PlainText(true, a) && AsciiOnly(after)
    ensures PlainText(true, AsciiBytes(before) + a + AsciiBytes(after))
  {
    AsciiPlain(before);
    AsciiPlain(after);
    hide PlainText, AsciiBytes;
    PlainJoin(AsciiBytes(before), a);
    PlainJoin(AsciiBytes(before) + a, AsciiBytes(after));
  }

  lemma WrittenPlain(texts: seq<Option<seq<byte>>>, i: nat)
    requires AllPlain(texts)
    ensures PlainText(true, Written(texts, i))
  {
    NothingPlain();
    hide PlainText;
  }

  lemma {:induction false} SubscriptsPlain(texts: seq<Option<seq<byte>>>, i: nat)
    requires AllPlain(texts)
    ensures PlainText(true, SubscriptTexts(texts, i))
    decreases |texts| - i
  {
    NothingPlain();
    hide PlainText, AllPlain, Written;
    if i < |texts| {
      AsciiPlain(",");
      AsciiPlain(" to ");
      hide AsciiBytes;
      WrittenPlain(texts, i);
      WrittenPlain(texts, i + 1);
      SubscriptsPlain(texts, i + 2);
      var comma := if i > 0 then AsciiBytes(",") else [];
      var to := if i + 1 < |texts| && texts[i + 1].Some? then AsciiBytes(" to ") + Written(texts, i + 1) else [];
      PlainJoin(AsciiBytes(" to "), Written(texts, i + 1));
      PlainJoin(comma, Written(texts, i));
      PlainJoin(comma + Written(texts, i), to);
      PlainJoin(comma + Written(texts, i) + to, SubscriptTexts(texts, i + 2));
    }
  }

  lemma OperatorIsAscii(k: nat)
    ensures AsciiOnly(Operator(k))
  {
  }

  lemma MethodIsAscii(k: nat)
    ensures AsciiOnly(Method(k))
  {
  }

  lemma ArgumentMethodIsAscii(k: nat)
    ensures AsciiOnly(ArgumentMethod(k))
  {
  }

  lemma AsciiJoin(a: string, b: string)
    requires AsciiOnly(a) && AsciiOnly(b)
    ensures AsciiOnly(a + b)
  {
  }

  lemma FlagsAreAscii(flags: nat)
    ensures AsciiOnly(FlagText(flags))
  {
  }

  lemma BoundIsAscii(b: int)
    ensures AsciiOnly(BoundText(b))
  {
    if b >= 0 { NatTextValue(b); hide NatText, Val; }
  }

  // Items without arguments.
  lemma PlainHead(k: nat, d: Detail, hasNext: bool, texts: seq<Option<seq<byte>>>)
    requires FitsDetail(k, d) &&
      (k == 0 || IsText(k) || k == 2 || k == 3 || k == 21 || k == 22 || k == 24 || k == 26 || k == 27 || k == 40)
    ensures HeadText(k, d, hasNext, texts).Some? ==> PlainText(true, HeadText(k, d, hasNext, texts).value)
  {
    hide PlainText, AsciiBytes, DecimalPattern, AllPlain, Written, J.Quote, ValidUtf8, BoundText, Method,
      ArgumentMethod;
    if k == 0 { AsciiPlain("null"); }
    else if IsText(k) {
      QuotePlain(d.text);
      var mark := if k == 25 then "." else if k == 28 then "$" else "";
      AsciiPlain(mark);
      PlainJoin(AsciiBytes(mark), J.Quote(d.text));
    } else if k == 2 {
      NumberChars(d.number);
      AsciiPlain(d.number);
      Between("(", AsciiBytes(d.number), ")");
    } else if k == 3 { AsciiPlain("true"); AsciiPlain("false"); }
    else if k == 21 { AsciiPlain("[*]"); }
    else if k == 22 { AsciiPlain(".*"); }
    else if k == 24 { BoundsPlain(d.first, d.last); }
    else if k == 26 { AsciiPlain("@"); }
    else if k == 27 { AsciiPlain("$"); }
    else { AsciiPlain("last"); }
  }

  lemma BoundsPlain(first: int, last: int)
    ensures PlainText(true, AsciiBytes(".**{" + BoundText(first) + " to " + BoundText(last) + "}"))
  {
    hide PlainText, AsciiBytes, BoundText;
    BoundIsAscii(first);
    BoundIsAscii(last);
    AsciiJoin(".**{", BoundText(first));
    AsciiJoin(".**{" + BoundText(first), " to ");
    AsciiJoin(".**{" + BoundText(first) + " to ", BoundText(last));
    AsciiJoin(".**{" + BoundText(first) + " to " + BoundText(last), "}");
    AsciiPlain(".**{" + BoundText(first) + " to " + BoundText(last) + "}");
  }

  // Items around one argument.
  lemma AroundHead(k: nat, d: Detail, hasNext: bool, texts: seq<Option<seq<byte>>>)
    requires AllPlain(texts) && (IsUnary(k) || k == SUBSCRIPTS)
    ensures HeadText(k, d, hasNext, texts).Some? ==> PlainText(true, HeadText(k, d, hasNext, texts).value)
  {
    hide PlainText, AsciiBytes, AllPlain, Written, J.Quote, BoundText;
    WrittenPlain(texts, 0);
    var a := Written(texts, 0);
    if k == 6 { Between("!(", a, ")"); }
    else if k == 7 { Between("(", a, ") is unknown"); }
    else if k == 19 { Between("(+(", a, "))"); }
    else if k == 20 { Between("(-(", a, "))"); }
    else if k == SUBSCRIPTS { SubscriptsPlain(texts, 0); Between("[", SubscriptTexts(texts, 0), "]"); }
    else if k == 29 { Between("?(", a, ")"); }
    else { Between("exists(", a, ")"); }
  }

  lemma MethodHead(k: nat, d: Detail, hasNext: bool, texts: seq<Option<seq<byte>>>)
    requires AllPlain(texts) && (ArgumentMethod(k) != "" || Method(k) != "")
    ensures HeadText(k, d, hasNext, texts).Some? ==> PlainText(true, HeadText(k, d, hasNext, texts).value)
  {
    hide PlainText, AsciiBytes, AllPlain, Written, J.Quote, BoundText;
    WrittenPlain(texts, 0);
    MethodPlain(k);
    ArgumentMethodPlain(k, Written(texts, 0));
  }

  lemma MethodPlain(k: nat)
    ensures PlainText(true, AsciiBytes("." + Method(k) + "()"))
  {
    hide PlainText, AsciiBytes, Method;
    MethodIsAscii(k);
    AsciiJoin(".", Method(k));
    AsciiJoin("." + Method(k), "()");
    AsciiPlain("." + Method(k) + "()");
  }

  lemma ArgumentMethodPlain(k: nat, a: seq<byte>)
    requires PlainText(true, a)
    ensures PlainText(true, AsciiBytes("." + ArgumentMethod(k) + "(") + a + AsciiBytes(")"))
  {
    hide PlainText, AsciiBytes, ArgumentMethod;
    ArgumentMethodIsAscii(k);
    AsciiJoin(".", ArgumentMethod(k));
    AsciiJoin("." + ArgumentMethod(k), "(");
    Between("." + ArgumentMethod(k) + "(", a, ")");
  }

  lemma BinaryPlain(k: nat, a: seq<byte>, b: seq<byte>)
    requires PlainText(true, a) && PlainText(true, b)
    ensures PlainText(true, AsciiBytes("(") + a + AsciiBytes(" " + Operator(k) + " ") + b + AsciiBytes(")"))
  {
    hide PlainText, AsciiBytes, Operator;
    OperatorIsAscii(k);
    AsciiJoin(" ", Operator(k));
    AsciiJoin(" " + Operator(k), " ");
    Between("(", a, " " + Operator(k) + " ");
    AsciiPlain(")");
    PlainJoin(AsciiBytes("(") + a + AsciiBytes(" " + Operator(k) + " "), b);
    PlainJoin(AsciiBytes("(") + a + AsciiBytes(" " + Operator(k) + " ") + b, AsciiBytes(")"));
  }

  lemma RegexPlain(a: seq<byte>, pattern: seq<byte>, flags: nat)
    requires PlainText(true, a) && ValidUtf8(pattern)
    ensures PlainText(true, AsciiBytes("(") + a + AsciiBytes(" like_regex ") + J.Quote(pattern) + AsciiBytes(" flag ") +
                      J.Quote(AsciiBytes(FlagText(flags))) + AsciiBytes(")"))
  {
    hide FlagText, J.Quote, AsciiBytes, ValidUtf8, PlainText;
    FlagsPlain(flags);
    QuotePlain(pattern);
    Between("(", a, " like_regex ");
    AsciiPlain(" flag ");
    AsciiPlain(")");
    JoinFive(AsciiBytes("(") + a + AsciiBytes(" like_regex "), J.Quote(pattern), AsciiBytes(" flag "),
             J.Quote(AsciiBytes(FlagText(flags))),
             AsciiBytes(")"));
  }

  lemma FlagsPlain(flags: nat)
    ensures PlainText(true, J.Quote(AsciiBytes(FlagText(flags))))
  {
    hide FlagText, J.Quote, AsciiBytes;
    FlagsAreAscii(flags);
    AsciiPlain(FlagText(flags));
    QuotePlain(AsciiBytes(FlagText(flags)));
  }

  lemma JoinFive(a: seq<byte>, b: seq<byte>, c: seq<byte>, d: seq<byte>, e: seq<byte>)
    requires PlainText(true, a) && PlainText(true, b) && PlainText(true, c) && PlainText(true, d) && PlainText(true, e)
    ensures PlainText(true, a + b + c + d + e)
  {
    hide PlainText;
    PlainJoin(a, b);
    PlainJoin(a + b, c);
    PlainJoin(a + b + c, d);
    PlainJoin(a + b + c + d, e);
  }

  lemma DecimalPlain(a: seq<byte>, b: seq<byte>)
    requires PlainText(true, a) && PlainText(true, b)
    ensures PlainText(true, AsciiBytes(".decimal(") + a + [] + AsciiBytes(")"))
    ensures PlainText(true, AsciiBytes(".decimal(") + a + (AsciiBytes(",") + b) + AsciiBytes(")"))
  {
    hide PlainText, AsciiBytes;
    assert AsciiBytes(".decimal(") + a + [] == AsciiBytes(".decimal(") + a;
    Between(".decimal(", a, ")");
    AsciiPlain(".decimal(");
    AsciiPlain(",");
    AsciiPlain(")");
    PlainJoin(AsciiBytes(".decimal("), a);
    PlainJoin(AsciiBytes(","), b);
    PlainJoin(AsciiBytes(".decimal(") + a, AsciiBytes(",") + b);
    PlainJoin(AsciiBytes(".decimal(") + a + (AsciiBytes(",") + b), AsciiBytes(")"));
  }

  lemma HeadPlain(k: nat, d: Detail, hasNext: bool, texts: seq<Option<seq<byte>>>)
    requires FitsDetail(k, d) && AllPlain(texts)
    ensures HeadText(k, d, hasNext, texts).Some? ==> PlainText(true, HeadText(k, d, hasNext, texts).value)
  {
    hide PlainText, AsciiBytes, DecimalPattern, AllPlain, Written, J.Quote, ValidUtf8, BoundText, SubscriptTexts,
      FlagText;
    if k == 0 || IsText(k) || k == 2 || k == 3 || k == 21 || k == 22 || k == 24 || k == 26 || k == 27 || k == 40 {
      PlainHead(k, d, hasNext, texts);
    } else if IsUnary(k) || k == SUBSCRIPTS {
      AroundHead(k, d, hasNext, texts);
    } else if ArgumentMethod(k) != "" || Method(k) != "" {
      MethodHead(k, d, hasNext, texts);
    } else {
      WrittenPlain(texts, 0);
      WrittenPlain(texts, 1);
      var a, b := Written(texts, 0), Written(texts, 1);
      if IsBinary(k) { BinaryPlain(k, a, b); }
      else if k == DECIMAL { DecimalPlain(a, b); }
      else if k == 42 { RegexPlain(a, d.pattern, d.flags); }
    }
  }

  lemma {:induction false} PrintPlain(p: Path, prefix: seq<byte>)
    requires Formed(p) && PlainText(true, prefix) && Print(p, prefix).Some?
    ensures PlainText(true, Print(p, prefix).value)
    decreases p
  {
    hide HeadText, PrintArgs, PlainText, FitsDetail, FitsArgs, IsKnown, FormedArgs, AllPlain, Print, IsAccessor;
    FormedParts(p);
    if PrintArgs(p.args).None? {
      PrintNothing(p, prefix);
    } else {
      var texts := PrintArgs(p.args).value;
      PrintArgsPlain(p.args);
      HeadPlain(p.kind, p.detail, p.next.Some?, texts);
      PrintStep(p, prefix, texts);
      var head := HeadText(p.kind, p.detail, p.next.Some?, texts);
      if head.Some? { PlainJoin(prefix, head.value); }
      if p.next.Some? { PrintPlain(p.next.value, HeadOf(p, prefix, texts).value); }
    }
  }

  lemma {:induction false} PrintArgsPlain(args: Args)
    requires FormedArgs(args) && PrintArgs(args).Some?
    ensures AllPlain(PrintArgs(args).value)
    decreases args
  {
    hide Print, PlainText, Formed;
    match args
    case NoArgs =>
    case Arg(first, rest) =>
      NothingPlain();
      if first.Some? { PrintPlain(first.value, []); }
      PrintArgsPlain(rest);
  }

  // -- Text of any image --------------------------------------------------------------------------------------------

  predicate SameText(r: Option<Rendered>, t: Option<seq<byte>>)
  {
    match r case None => t.None? case Some(rendered) => t == Some(rendered.text)
  }

  predicate SameTexts(r: Option<RenderedArgs>, t: Option<seq<Option<seq<byte>>>>)
  {
    match r case None => t.None? case Some(rendered) => t == Some(rendered.texts)
  }

  // Even when items are shared, the text is that of the path held.
  lemma {:induction false} RendersText(x: Image, position: nat, p: Path, prefix: seq<byte>, s: State)
    requires Holds(x, position, p)
    ensures SameText(Render(x, position, prefix, s), Print(p, prefix))
    decreases p
  {
    hide ReadItem, ItemAt, Word, Render, RenderArgs, Links, Print, PrintArgs, Holds, HoldsArgs, Filled;
    HeldItem(x, position, p);
    var slots := ItemAt(x, position).slots;
    var s0 := State(s.nodes + [EMPTY], s.positions[position := |s.nodes|]);
    RendersArgsText(x, position, slots, p.args, s0);
    if PrintArgs(p.args).None? {
      RenderNothing(x, position, prefix, s);
      PrintNothing(p, prefix);
    } else {
      var args := RenderArgs(x, position, slots, s0).value;
      var links := Links(x, position, slots, args.state.positions).value;
      RenderOpened(x, position, prefix, s, args, links);
      PrintStep(p, prefix, args.texts);
      var t := HeadOf(p, prefix, args.texts);
      if t.Some? && p.next.Some? {
        var at, s1 := position + ItemAt(x, position).next, Filled(|s.nodes|, ItemAt(x, position), links, args.state);
        RendersText(x, at, p.next.value, t.value, s1);
        LinkedText(|s.nodes|, at, Render(x, at, t.value, s1));
      }
    }
  }

  lemma LinkedText(base: nat, at: nat, r: Option<Rendered>)
    requires r.Some? ==> base < |r.value.state.nodes| && at in r.value.state.positions
    ensures LinkedTo(base, at, r).Some? == r.Some? && (r.Some? ==> LinkedTo(base, at, r).value.text == r.value.text)
  {
  }

  lemma {:induction false} RendersArgsText(x: Image, position: nat, slots: seq<Slot>, args: Args, s: State)
    requires position <= |x.data| && HoldsArgs(x, position, slots, args)
    ensures SameTexts(RenderArgs(x, position, slots, s), PrintArgs(args))
    ensures RenderArgs(x, position, slots, s).Some? ==>
      Links(x, position, slots, RenderArgs(x, position, slots, s).value.state.positions).Some?
    decreases args
  {
    hide Word, Holds, Render, Print, TargetOf, RenderArgs, HoldsArgs, Links;
    match args
    case NoArgs =>
      NoneToRender(x, position, slots, s);
      NoLinks(x, position, slots, s);
    case Arg(first, rest) =>
      HeldArg(x, position, slots, args);
      RenderArgsStep(x, position, slots, s);
      var at := TargetOf(x, position, slots);
      if first.Some? { RendersText(x, at, first.value, [], s); }
      var s1 := if first.None? then s else if Render(x, at, [], s).Some? then Render(x, at, [], s).value.state else s;
      RendersArgsText(x, position, Others(slots), rest, s1);
      if RenderArgs(x, position, slots,
                    s).Some? { MoreLinks(x, position, slots,
                                         RenderArgs(x, position, Others(slots), s1).value.state.positions); }
  }

  lemma NoLinks(x: Image, position: nat, slots: seq<Slot>, s: State)
    requires HoldsArgs(x, position, slots, NoArgs)
    ensures RenderArgs(x, position, slots, s) == Some(RenderedArgs([], s))
    ensures Links(x, position, slots, s.positions).Some?
  {
  }

  lemma MoreLinks(x: Image, position: nat, slots: seq<Slot>, positions: map<nat, nat>)
    requires slots != [] && Word(x, slots[0].at) == Some(TargetOf(x, position, slots) - position)
    requires TargetOf(x, position, slots) == position || TargetOf(x, position, slots) in positions
    requires Links(x, position, Others(slots), positions).Some?
    ensures Links(x, position, slots, positions).Some?
  {
    hide Word;
  }

  // -- Reading the path back ----------------------------------------------------------------------------------------

  function PathAt(x: Image, position: nat): Option<Path>
    decreases |x.data| - position, 2
  {
    match ReadItem(x, position)
    case None => None
    case Some(item) =>
      match ArgsAt(x, position, item.slots)
      case None => None
      case Some(args) =>
        if item.next == 0 then Some(Path(item.kind, item.detail, args, None))
        else if item.next > |x.data| - position then None
        else match PathAt(x, position + item.next)
          case None => None
          case Some(next) => Some(Path(item.kind, item.detail, args, Some(next)))
  }

  function ArgsAt(x: Image, position: nat, slots: seq<Slot>): Option<Args>
    decreases |x.data| - position, 1, |slots|
  {
    if slots == [] then Some(NoArgs)
    else
      var relative := Word(x, slots[0].at);
      if relative.None? || (relative.value == 0 && !slots[0].optional) || relative.value > |x.data| - position then None
      else
        var rest := ArgsAt(x, position, slots[1..]);
        var first := if relative.value == 0 then None else PathAt(x, position + relative.value);
        if rest.None? || (relative.value != 0 && first.None?) then None else Some(Arg(first, rest.value))
  }

  // Reading back finds the path an image holds, and nothing else.
  lemma {:induction false} PathIsHeld(x: Image, position: nat, p: Path)
    requires PathAt(x, position) == Some(p)
    ensures Holds(x, position, p)
    decreases p
  {
    hide ReadItem, ArgsAt, HoldsArgs;
    var item := ReadItem(x, position).value;
    ArgsAreHeld(x, position, item.slots, p.args);
    if item.next != 0 { PathIsHeld(x, position + item.next, p.next.value); }
  }

  lemma {:induction false} ArgsAreHeld(x: Image, position: nat, slots: seq<Slot>, args: Args)
    requires ArgsAt(x, position, slots) == Some(args)
    ensures HoldsArgs(x, position, slots, args)
    decreases args
  {
    hide Word, PathAt, Holds;
    if slots != [] {
      if args.first.Some? { PathIsHeld(x, position + Word(x, slots[0].at).value, args.first.value); }
      ArgsAreHeld(x, position, slots[1..], args.rest);
    }
  }

  // What is rendered is a path.
  lemma {:induction false} RenderedIsPath(x: Image, position: nat, prefix: seq<byte>, s: State)
    requires Render(x, position, prefix, s).Some?
    ensures PathAt(x, position).Some?
    decreases |x.data| - position, 2
  {
    hide ReadItem, ArgsAt, RenderArgs, HeadText, Links, Filled, LinkedTo, Chained;
    var item := ReadItem(x, position).value;
    var s0 := State(s.nodes + [EMPTY], s.positions[position := |s.nodes|]);
    RenderedAreArgs(x, position, item.slots, s0);
    if item.next != 0 {
      var args := RenderArgs(x, position, item.slots, s0).value;
      var text := Chained(item.kind, prefix, HeadText(item.kind, item.detail, item.next != 0, args.texts));
      var s1 := Filled(|s.nodes|, item, Links(x, position, item.slots, args.state.positions).value, args.state);
      assert Render(x, position, prefix, s) == LinkedTo(|s.nodes|, position + item.next,
                                                        Render(x, position + item.next, text.value, s1));
      NothingLinked(|s.nodes|, position + item.next);
      ReadInside(x, position);
      RenderedIsPath(x, position + item.next, text.value, s1);
    }
  }

  lemma {:induction false} RenderedAreArgs(x: Image, position: nat, slots: seq<Slot>, s: State)
    requires RenderArgs(x, position, slots, s).Some?
    ensures ArgsAt(x, position, slots).Some?
    decreases |x.data| - position, 1, |slots|
  {
    hide Word, PathAt, Render;
    if slots != [] {
      var relative := Word(x, slots[0].at).value;
      if relative == 0 {
        RenderedAreArgs(x, position, slots[1..], s);
      } else {
        var r := Render(x, position + relative, [], s);
        RenderedIsPath(x, position + relative, [], s);
        RenderedAreArgs(x, position, slots[1..], r.value.state);
      }
    }
  }

  // -- Constants ----------------------------------------------------------------------------------------------------

  const START := State([EMPTY], map[])

  predicate Lax(order: ByteOrder, body: seq<byte>)
    requires |body| >= 4
  {
    U32(order, body, 0) >= 0x8000_0000
  }

  // Version 1, with a bit for lax mode on top.
  predicate Versioned(order: ByteOrder, body: seq<byte>)
  {
    |body| >= 12 && U32(order, body, 0) % 0x8000_0000 == 1
  }

  function ModeText(lax: bool): seq<byte> { AsciiBytes(if lax then "lax " else "strict ") }

  function StoredJsonpath(body: seq<byte>, order: ByteOrder, utf8: bool): Option<Storage>
  {
    if !Versioned(order, body) then None
    else match Render(Image(body[4..], order, utf8), 0, [], START)
      case None => None
      case Some(r) =>
        Some(Storage(r.state.nodes, 1, Lax(order, body), ModeText(Lax(order, body)) + r.text))
  }

  // The stored text is the text of the one path that the image holds.
  lemma StoredTextIsPath(body: seq<byte>, order: ByteOrder, utf8: bool, text: seq<byte>)
    ensures (StoredJsonpath(body, order, utf8).Some? && StoredJsonpath(body, order, utf8).value.source == text) <==>
      Versioned(order, body) &&
      exists p :: Holds(Image(body[4..], order, utf8), 0, p) && Print(p, []).Some? &&
          text == ModeText(Lax(order, body)) + Print(p, []).value
  {
    hide Render, Print, Holds, PathAt, ModeText, Versioned, Lax;
    if Versioned(order, body) {
      VersionedLength(order, body);
      var x := Image(body[4..], order, utf8);
      if Render(x, 0, [], START).Some? {
        RenderedIsPath(x, 0, [], START);
        var p := PathAt(x, 0).value;
        PathIsHeld(x, 0, p);
        RendersText(x, 0, p, [], START);
      }
      forall p | Holds(x, 0, p) ensures SameText(Render(x, 0, [], START), Print(p, [])) { RendersText(x, 0, p, [], START); }
    }
  }

  lemma VersionedLength(order: ByteOrder, body: seq<byte>)
    requires Versioned(order, body)
    ensures |body| >= 12
  {
  }

  // The capture of a path without shared items: its text, and a table that unfolds to it, and to nothing else.
  // The validator accepts it exactly when the path is portable.
  lemma StoredPath(body: seq<byte>, order: ByteOrder, utf8: bool, p: Path)
    requires Versioned(order, body) && Holds(Image(body[4..], order, utf8), 0, p)
    requires Unshared(Image(body[4..], order, utf8), 0, p)
    ensures Print(p, []).None? ==> StoredJsonpath(body, order, utf8).None?
    ensures Print(p, []).Some? ==> var v := Captured(p, Lax(order, body));
      StoredJsonpath(body, order, utf8) == Some(v) &&
      Stands(v.nodes, v.root, p) && (forall q :: Formed(q) && Stands(v.nodes, v.root, q) ==> q == p) &&
          (Valid(v) <==> Portable(p))
  {
    var x := Image(body[4..], order, utf8);
    var lax := Lax(order, body);
    hide Render, Print, Holds, Unshared, Valid, Portable, Stands, Flat, ModeText, Lax, Versioned, Formed, U32;
    NoKeys(x, p);
    Renders(x, 0, p, [], START);
    HeldIsFormed(x, 0, p);
    NoPositions(x, p);
    if Print(p, []).Some? {
      CapturedUnfolds(p);
      CapturedValid(p, lax);
    }
  }

  function Captured(p: Path, lax: bool): Storage
  {
    Storage([EMPTY] + Flat(p, 1), 1, lax, ModeText(lax) + if Print(p, []).Some? then Print(p, []).value else [])
  }

  lemma NoKeys(x: Image, p: Path)
    ensures Positions(x, 0, p, 0).Keys !! START.positions.Keys
  {
    hide Positions;
  }

  lemma NoPositions(x: Image, p: Path)
    ensures START.positions + Positions(x, 0, p, 1) == Positions(x, 0, p, 1)
  {
    hide Positions;
  }

  lemma CapturedUnfolds(p: Path)
    requires Formed(p)
    ensures Stands([EMPTY] + Flat(p, 1), 1, p)
    ensures forall q :: Formed(q) && Stands([EMPTY] + Flat(p, 1), 1, q) ==> q == p
  {
    hide Formed, Flat, Stands;
    var nodes := [EMPTY] + Flat(p, 1);
    FlatStands(nodes, p, 1);
    forall q | Formed(q) && Stands(nodes, 1, q) ensures q == p { StandsForOne(nodes, 1, p, q); }
  }

  lemma CapturedValid(p: Path, lax: bool)
    requires Formed(p) && Print(p, []).Some?
    ensures Valid(Captured(p, lax)) <==> Portable(p)
  {
    var v := Captured(p, lax);
    CapturedHead(p, lax);
    CapturedIsOneTree(p);
    CapturedTable(p);
    hide HeadValid, TableValid, OneTree, Portable, Flat, Print, ModeText, Formed;
  }

  lemma CapturedHead(p: Path, lax: bool)
    requires Formed(p) && Print(p, []).Some?
    ensures HeadValid(Captured(p, lax))
  {
    AsciiPlain(if lax then "lax " else "strict ");
    NothingPlain();
    PrintPlain(p, []);
    FlatLength(p, 1);
    hide Flat, Print, AsciiBytes, Formed, Size, PlainText;
    PlainJoin(ModeText(lax), Print(p, []).value);
  }

  lemma CapturedTable(p: Path)
    requires Formed(p)
    ensures TableValid([EMPTY] + Flat(p, 1)) <==> Portable(p)
  {
    hide Formed, Flat, Size, NodeValid, Portable;
    FlatLength(p, 1);
    FlatValid(p, 1, 1 + Size(p));
    var nodes := [EMPTY] + Flat(p, 1);
    FirstValid(|nodes|);
    forall i | 1 <= i < |nodes| ensures NodeValid(nodes[i], i, |nodes|) <==> NodeValid(Flat(p, 1)[i - 1], 1, |nodes|) {
      SameLimits(nodes[i], i, |nodes|);
    }
    if TableValid(nodes) {
      forall i | 0 <= i < |Flat(p, 1)| ensures NodeValid(Flat(p, 1)[i], 1, |nodes|) { assert NodeValid(nodes[i + 1], i +
          1, |nodes|); }
    }
  }

  lemma FirstValid(count: nat)
    requires count > 0
    ensures NodeValid(EMPTY, 0, count)
  {
  }

  lemma SameLimits(n: PathNode, i: nat, count: nat)
    requires i > 0
    ensures NodeValid(n, i, count) <==> NodeValid(n, 1, count)
  {
    hide PlainText, KnownKind;
  }
}
