/** What a captured jsonpath table says: it unfolds to the path it was captured from, and to no other. */
module JsonpathUnfold {
  import opened Bytes
  import opened Parts
  import opened Decimal
  import opened JsonpathTable
  import opened Jsonpath
  import N = Numeric
  import J = Jsonb

  // -- Paths that an item can spell ----------------------------------------------------------------------------

  predicate FitsArgs(k: nat, count: nat)
  {
    if IsBinary(k) then count == 2
    else if IsUnary(k) then count == 1
    else if k == SUBSCRIPTS then count > 0 && count % 2 == 0
    else if ArgumentMethod(k) != "" then count == 1
    else if k == DECIMAL then count == 2
    else if k == 42 then count == 1
    else count == 0
  }

  predicate FitsDetail(k: nat, d: Detail)
  {
    if IsText(k) then d.TextDetail? && ValidUtf8(d.text)
    else if k == 2 then d.NumberDetail? && DecimalPattern(d.number)
    else if k == 3 then d.BoolDetail?
    else if k == 24 then d.BoundsDetail? && -1 <= d.first < 0xFFFF_FFFF && -1 <= d.last < 0xFFFF_FFFF
    else if k == 42 then d.RegexDetail? && d.flags <= 31 && ValidUtf8(d.pattern)
    else d.NoDetail?
  }

  predicate Formed(p: Path)
    decreases p
  {
    IsKnown(p.kind) && FitsDetail(p.kind, p.detail) && FitsArgs(p.kind, Count(p.args)) && FormedArgs(p.args) &&
    (p.next.Some? ==> Formed(p.next.value))
  }

  predicate FormedArgs(args: Args)
    decreases args
  {
    match args case NoArgs => true case Arg(first, rest) => (first.Some? ==> Formed(first.value)) && FormedArgs(rest)
  }

  // Whether the i-th argument may be left out.
  predicate Optional(k: nat, i: nat) { ArgumentMethod(k) != "" || k == DECIMAL || (k == SUBSCRIPTS && i % 2 == 1) }

  predicate Given(k: nat, i: nat, args: Args)
    decreases args
  {
    match args case NoArgs => true case Arg(first, rest) => (first.None? ==> Optional(k, i)) && Given(k, i + 1, rest)
  }

  // Every argument that must be there is.
  predicate Complete(p: Path)
    decreases p
  {
    Given(p.kind, 0, p.args) && CompleteArgs(p.args) && (p.next.Some? ==> Complete(p.next.value))
  }

  predicate CompleteArgs(args: Args)
    decreases args
  {
    match args case NoArgs => true case Arg(first, rest) => (first.Some? ==> Complete(first.value)) && CompleteArgs(rest)
  }

  lemma ReadFits(x: Image, position: nat)
    requires ReadItem(x, position).Some?
    ensures var item := ItemAt(x, position);
      IsKnown(item.kind) && FitsDetail(item.kind, item.detail) && FitsArgs(item.kind, |item.slots|)
  {
    hide IsKnown, FitsDetail, FitsArgs, ReadDetail, Slots, Word;
    var k, payload := x.data[position], (position + 4) / 4 * 4 + 4;
    ReadParts(x, position);
    DetailFits(x, k, payload);
    SlotsFit(x, k, payload);
  }

  lemma ReadParts(x: Image, position: nat)
    requires ReadItem(x, position).Some?
    ensures position < |x.data|
    ensures var k, payload, item := x.data[position], (position + 4) / 4 * 4 + 4, ItemAt(x, position);
      item.kind == k && ReadDetail(x, k, payload) == Some(item.detail) && Slots(x, k, payload) == Some(item.slots)
  {
    hide IsKnown, ReadDetail, Slots, Word;
  }

  lemma DetailFits(x: Image, k: nat, payload: nat)
    requires ReadDetail(x, k, payload).Some?
    ensures IsKnown(k) && FitsDetail(k, ReadDetail(x, k, payload).value)
  {
    hide ReadString, ReadNumber, DecimalPattern, IsKnown, Operator, Method, ArgumentMethod, U32, ValidUtf8;
    StringsAreText(x, payload);
    NumbersAreDecimal(x, payload);
  }

  lemma StringsAreText(x: Image, payload: nat)
    ensures forall at: nat, n: nat :: ReadString(x, at, n).Some? ==> ValidUtf8(ReadString(x, at, n).value)
  {
    hide ValidUtf8;
  }

  lemma NumbersAreDecimal(x: Image, payload: nat)
    ensures ReadNumber(x, payload).Some? ==> DecimalPattern(ReadNumber(x, payload).value)
  {
    hide DecimalPattern, Word, N.StorageText;
  }

  lemma SlotsFit(x: Image, k: nat, payload: nat)
    requires Slots(x, k, payload).Some?
    ensures FitsArgs(k, |Slots(x, k, payload).value|)
  {
    hide Operator, ArgumentMethod, Word, SubscriptSlots;
  }

  lemma {:induction false} HeldCount(x: Image, position: nat, slots: seq<Slot>, args: Args)
    requires HoldsArgs(x, position, slots, args)
    ensures |slots| == Count(args)
    decreases args
  {
    hide Word, Holds;
    if args.Arg? { HeldCount(x, position, slots[1..], args.rest); }
  }

  // Whatever an image holds is formed.
  lemma {:induction false} HeldIsFormed(x: Image, position: nat, p: Path)
    requires Holds(x, position, p)
    ensures Formed(p)
    decreases p
  {
    hide Holds, HoldsArgs, ReadItem, ItemAt, IsKnown, FitsDetail, FitsArgs, FormedArgs;
    HeldItem(x, position, p);
    ReadFits(x, position);
    HeldCount(x, position, ItemAt(x, position).slots, p.args);
    HeldArgsFormed(x, position, ItemAt(x, position).slots, p.args);
    if p.next.Some? { HeldIsFormed(x, position + ItemAt(x, position).next, p.next.value); }
  }

  lemma {:induction false} HeldArgsFormed(x: Image, position: nat, slots: seq<Slot>, args: Args)
    requires HoldsArgs(x, position, slots, args)
    ensures FormedArgs(args)
    decreases args
  {
    hide Holds, HoldsArgs, Word, Formed, TargetOf;
    match args
    case NoArgs =>
    case Arg(first, rest) =>
      HeldArg(x, position, slots, args);
      if first.Some? { HeldIsFormed(x, TargetOf(x, position, slots), first.value); }
      HeldArgsFormed(x, position, Others(slots), rest);
  }

  // -- Unfolding a table -----------------------------------------------------------------------------------------

  predicate Shows(n: PathNode, k: nat, d: Detail)
  {
    n.kind == PortableKind(k, d) && n.text == TextOf(d) &&
    n.first == (if d.BoundsDetail? then d.first else 0) && n.last == (if d.BoundsDetail? then d.last else 0) &&
    n.flags == (if d.RegexDetail? then d.flags else 0)
  }

  // The entry at `index`, followed along its links, spells `p`.
  predicate Stands(nodes: seq<PathNode>, index: int, p: Path)
    decreases p
  {
    0 < index < |nodes| && Shows(nodes[index], p.kind, p.detail) &&
    ArgsStand(nodes, nodes[index], p) && LinkStands(nodes, nodes[index].next, p.next)
  }

  predicate ArgsStand(nodes: seq<PathNode>, n: PathNode, p: Path)
    decreases p, 0
  {
    if p.kind == SUBSCRIPTS then n.right == 0 && EntriesStand(nodes, n.left, p.args)
    else PairStands(nodes, n.left, n.right, p.args)
  }

  // At most two arguments stand behind the two links of one entry.
  predicate PairStands(nodes: seq<PathNode>, left: int, right: int, args: Args)
    decreases args
  {
    match args
    case NoArgs => left == 0 && right == 0
    case Arg(a, NoArgs) => LinkStands(nodes, left, a) && right == 0
    case Arg(a, Arg(b, NoArgs)) => LinkStands(nodes, left, a) && LinkStands(nodes, right, b)
    case _ => false
  }

  predicate LinkStands(nodes: seq<PathNode>, link: int, o: Option<Path>)
    decreases o
  {
    match o case None => link == 0 case Some(p) => Stands(nodes, link, p)
  }

  // A subscript list stands in entries of its own, linked one to the next.
  predicate EntriesStand(nodes: seq<PathNode>, link: int, args: Args)
    decreases args
  {
    match args
    case NoArgs => link == 0
    case Arg(a, Arg(b, rest)) =>
      0 < link < |nodes| && nodes[link].kind == 14 && nodes[link].text == [] && nodes[link].first == 0 &&
          nodes[link].last == 0 &&
      nodes[link].flags == 0 && LinkStands(nodes, nodes[link].left, a) && LinkStands(nodes, nodes[link].right, b) &&
      EntriesStand(nodes, nodes[link].next, rest)
    case _ => false
  }

  // Links to all the arguments, in order.
  predicate AllStand(nodes: seq<PathNode>, links: seq<nat>, args: Args)
    decreases args
  {
    match args
    case NoArgs => links == []
    case Arg(a, rest) => links != [] && LinkStands(nodes, links[0], a) && AllStand(nodes, links[1..], rest)
  }

  // Where the parts of a flat path are.
  lemma FlatParts(nodes: seq<PathNode>, p: Path, base: nat)
    requires At(nodes, base, Flat(p, base))
    ensures base < |nodes| && nodes[base] == NodeOf(p, base)
    ensures At(nodes, base + 1, FlatArgs(p.args, base + 1))
    ensures At(nodes, base + 1 + ArgsSize(p.args), EntriesAt(p, base))
    ensures p.next.Some? ==> At(nodes, NextIndex(p, base), Flat(p.next.value, NextIndex(p, base)))
  {
    hide Flat, FlatArgs, NodeOf, EntriesAt, At, ArgsSize, EntryCount;
    FlatSplit(p, base);
    FlatArgsLength(p.args, base + 1);
    AtParts(nodes, base, NodeOf(p, base), FlatArgs(p.args, base + 1), EntriesAt(p, base),
            if p.next.None? then [] else Flat(p.next.value, NextIndex(p, base)));
  }

  lemma AtParts<T>(s: seq<T>, at: nat, head: T, a: seq<T>, b: seq<T>, c: seq<T>)
    requires At(s, at, [head] + a + b + c)
    ensures at < |s| && s[at] == head && At(s, at + 1, a) && At(s, at + 1 + |a|, b) && At(s, at + 1 + |a| + |b|, c)
  {
    hide At;
    AtSplit(s, at, [head] + a + b, c);
    AtSplit(s, at, [head] + a, b);
    AtSplit(s, at, [head], a);
    AtOne(s, at, head);
  }

  lemma AtOne<T>(s: seq<T>, at: nat, e: T)
    requires At(s, at, [e])
    ensures at < |s| && s[at] == e
  {
    assert s[at + 0] == [e][0];
  }

  lemma FlatSplit(p: Path, base: nat)
    ensures Flat(p, base) ==
      [NodeOf(p, base)] + FlatArgs(p.args, base + 1) + EntriesAt(p, base) +
      if p.next.None? then [] else Flat(p.next.value, NextIndex(p, base))
  {
    hide NodeOf, FlatArgs, EntriesOf, ArgLinks;
  }

  lemma FlatArgsParts(nodes: seq<PathNode>, args: Args, base: nat)
    requires args.Arg? && At(nodes, base, FlatArgs(args, base))
    ensures var size := if args.first.None? then 0 else Size(args.first.value);
      At(nodes, base + size, FlatArgs(args.rest, base + size))
    ensures args.first.Some? ==> At(nodes, base, Flat(args.first.value, base))
  {
    hide Flat, Size, At;
    if args.first.Some? {
      FlatLength(args.first.value, base);
      AtSplit(nodes, base, Flat(args.first.value, base), FlatArgs(args.rest, base + Size(args.first.value)));
    } else {
      assert [] + FlatArgs(args.rest, base) == FlatArgs(args.rest, base);
    }
  }

  // A table that contains the flat form of a path unfolds to it.
  lemma {:induction false} FlatStands(nodes: seq<PathNode>, p: Path, base: nat)
    requires base > 0 && Formed(p) && At(nodes, base, Flat(p, base))
    ensures Stands(nodes, base, p)
    decreases p
  {
    hide Flat, FlatArgs, At, NodeOf, EntriesAt, ArgLinks, FormedArgs, Shows, AllStand, ArgsStand, Stands;
    FormedParts(p);
    FlatParts(nodes, p, base);
    FlatArgsStand(nodes, p.args, base + 1);
    HeadStands(nodes, p, base);
    if p.next.Some? { FlatStands(nodes, p.next.value, NextIndex(p, base)); }
    Whole(nodes, p, base);
  }

  lemma FormedParts(p: Path)
    requires Formed(p)
    ensures IsKnown(p.kind) && FitsDetail(p.kind, p.detail) && FitsArgs(p.kind, Count(p.args)) && FormedArgs(p.args)
    ensures p.next.Some? ==> Formed(p.next.value)
  {
    hide IsKnown, FitsDetail, FitsArgs, FormedArgs;
  }

  lemma Whole(nodes: seq<PathNode>, p: Path, base: nat)
    requires 0 < base < |nodes| && Shows(nodes[base], p.kind, p.detail) && ArgsStand(nodes, nodes[base], p)
    requires nodes[base].next == (if p.next.None? then 0 else NextIndex(p, base))
    requires p.next.Some? ==> Stands(nodes, NextIndex(p, base), p.next.value)
    ensures Stands(nodes, base, p)
  {
    hide Shows, ArgsStand, NextIndex;
  }

  lemma HeadStands(nodes: seq<PathNode>, p: Path, base: nat)
    requires 0 < base < |nodes| && nodes[base] == NodeOf(p, base) && FitsArgs(p.kind, Count(p.args))
    requires AllStand(nodes, ArgLinks(p.args, base + 1), p.args)
    requires At(nodes, base + 1 + ArgsSize(p.args), EntriesAt(p, base))
    ensures Shows(nodes[base], p.kind, p.detail) && ArgsStand(nodes, nodes[base], p)
    ensures nodes[base].next == if p.next.None? then 0 else NextIndex(p, base)
  {
    HeadShows(p, base);
    hide Shows, PortableKind, TextOf, At, AllStand;
    if p.kind == SUBSCRIPTS {
      hide ArgLinks, NodeOf, LinkStands;
      EntriesMatch(p, base);
      SubscriptsStand(nodes, ArgLinks(p.args, base + 1), p.args, base + 1 + ArgsSize(p.args));
    } else {
      FewArgs(p);
      hide ArgLinks, NextIndex;
      FewStand(nodes, ArgLinks(p.args, base + 1), p.args);
    }
  }

  lemma HeadShows(p: Path, base: nat)
    ensures Shows(NodeOf(p, base), p.kind, p.detail)
    ensures NodeOf(p, base).next == if p.next.None? then 0 else NextIndex(p, base)
    ensures p.kind == SUBSCRIPTS ==>
      NodeOf(p, base).right == 0 && NodeOf(p, base).left == if p.args.NoArgs? then 0 else base + 1 + ArgsSize(p.args)
    ensures p.kind != SUBSCRIPTS ==> var links := ArgLinks(p.args, base + 1);
      NodeOf(p, base).left == LinkAt(links, 0) && NodeOf(p, base).right == LinkAt(links, 1)
  {
    hide PortableKind, TextOf, ArgLinks, NextIndex;
  }

  lemma FewArgs(p: Path)
    requires FitsArgs(p.kind, Count(p.args)) && p.kind != SUBSCRIPTS
    ensures Count(p.args) <= 2
  {
    hide Operator, ArgumentMethod;
  }

  lemma FewStand(nodes: seq<PathNode>, links: seq<nat>, args: Args)
    requires Count(args) <= 2 && AllStand(nodes, links, args)
    ensures PairStands(nodes, LinkAt(links, 0), LinkAt(links, 1), args)
  {
    hide LinkStands;
    if args.Arg? && args.rest.Arg? {
      assert links[1..][0] == links[1];
      assert Count(args) == 2 + Count(args.rest.rest);
    }
  }

  lemma {:induction false} SubscriptsStand(nodes: seq<PathNode>, links: seq<nat>, args: Args, start: nat)
    requires start > 0 && AllStand(nodes, links, args) && Count(args) % 2 == 0
    requires At(nodes, start, SubscriptNodes(links, start))
    ensures EntriesStand(nodes, if args.NoArgs? then 0 else start, args)
    decreases args
  {
    hide LinkStands, At;
    match args
    case NoArgs =>
    case Arg(a, Arg(b, rest)) =>
      StandingPair(nodes, links, args);
      var e := PathNode(14, if |links| >= 4 then start + 1 else 0, links[0], links[1], [], 0, 0, 0);
      AtSplit(nodes, start, [e], SubscriptNodes(links[2..], start + 1));
      AtOne(nodes, start, e);
      SubscriptsStand(nodes, links[2..], rest, start + 1);
      StandingCount(nodes, links[2..], rest);
    case Arg(a, NoArgs) => assert false;
  }

  lemma StandingPair(nodes: seq<PathNode>, links: seq<nat>, args: Args)
    requires AllStand(nodes, links, args) && args.Arg? && args.rest.Arg?
    ensures |links| >= 2 && LinkStands(nodes, links[0], args.first) && LinkStands(nodes, links[1], args.rest.first)
    ensures AllStand(nodes, links[2..], args.rest.rest)
  {
    hide LinkStands;
    assert links[1..][0] == links[1] && links[1..][1..] == links[2..];
  }

  lemma {:induction false} StandingCount(nodes: seq<PathNode>, links: seq<nat>, args: Args)
    requires AllStand(nodes, links, args)
    ensures |links| == Count(args)
    decreases args
  {
    hide LinkStands;
    if args.Arg? { StandingCount(nodes, links[1..], args.rest); }
  }

  lemma {:induction false} FlatArgsStand(nodes: seq<PathNode>, args: Args, base: nat)
    requires base > 0 && FormedArgs(args) && At(nodes, base, FlatArgs(args, base))
    ensures AllStand(nodes, ArgLinks(args, base), args)
    decreases args
  {
    hide Flat, FlatArgs, At, Formed, Stands, Size;
    match args
    case NoArgs =>
    case Arg(first, rest) =>
      FlatArgsParts(nodes, args, base);
      var size := if first.None? then 0 else Size(first.value);
      if first.Some? { FlatStands(nodes, first.value, base); }
      FlatArgsStand(nodes, rest, base + size);
      assert ArgLinks(args, base)[1..] == ArgLinks(rest, base + size);
  }

  // -- Only one path to a table ------------------------------------------------------------------------------------

  // The native kind an entry's kind stands for.
  function NativeKind(k: int): nat
  {
    match k
    case 7 => 0 case 4 => 1 case 5 => 2 case 8 => 3 case 9 => 3 case 33 => 4 case 34 => 5 case 18 => 6 case 19 => 7 case 27 => 8
    case 28 => 9 case 29 => 10 case 31 => 11 case 30 => 12 case 32 => 13 case 22 => 14 case 23 => 15 case 24 => 16 case 25 => 17
    case 26 => 18 case 20 => 19 case 21 => 20 case 12 => 21 case 11 => 22 case 13 => 23 case 15 => 24 case 10 => 25 case 2 => 26
    case 1 => 27 case 6 => 28 case 16 => 29 case 17 => 30 case 111 => 31 case 108 => 32 case 102 => 33 case 114 => 34
    case 123 => 35 case 116 => 36 case 128 => 37 case 129 => 38 case 3 => 40 case 35 => 41 case 36 => 42 case 115 => 43
    case 122 => 44 case 104 => 45 case 124 => 46 case 125 => 47 case 118 => 48 case 121 => 49 case 109 => 50 case 126 => 51
    case 130 => 52 case 132 => 53
    case _ => 54
  }

  lemma KindIsNative(k: nat, d: Detail)
    requires IsKnown(k)
    ensures NativeKind(PortableKind(k, d)) == k && KnownKind(PortableKind(k, d)) && PortableKind(k, d) != 0
    ensures PortableKind(k, d) == 15 <==> k == 24
    ensures PortableKind(k, d) == 36 <==> k == 42
    ensures PortableKind(k, d) in {4, 5, 6, 10, 36} <==> IsText(k) || k == 2 || k == 42
  {
    if k < 24 {
      LowKinds(k, d);
    } else if k < 37 {
      MiddleKinds(k, d);
    } else if k < 44 {
      HigherKinds(k, d);
    } else {
      HighestKinds(k, d);
    }
  }

  lemma LowKinds(k: nat, d: Detail)
    requires IsKnown(k) && k < 24
    ensures NativeKind(PortableKind(k, d)) == k && KnownKind(PortableKind(k, d)) && PortableKind(k, d) !in {0, 15, 36}
    ensures PortableKind(k, d) in {4, 5, 6, 10} <==> k == 1 || k == 2
  {
  }

  lemma MiddleKinds(k: nat, d: Detail)
    requires IsKnown(k) && 24 <= k < 37
    ensures NativeKind(PortableKind(k, d)) == k && KnownKind(PortableKind(k, d)) && PortableKind(k, d) !in {0, 36}
    ensures PortableKind(k, d) == 15 <==> k == 24
    ensures PortableKind(k, d) in {4, 5, 6, 10} <==> k == 25 || k == 28
  {
  }

  lemma HigherKinds(k: nat, d: Detail)
    requires IsKnown(k) && 37 <= k < 44
    ensures NativeKind(PortableKind(k, d)) == k && KnownKind(PortableKind(k, d))
    ensures PortableKind(k, d) !in {0, 4, 5, 6, 10, 15}
    ensures PortableKind(k, d) == 36 <==> k == 42
  {
  }

  lemma HighestKinds(k: nat, d: Detail)
    requires IsKnown(k) && k >= 44
    ensures NativeKind(PortableKind(k, d)) == k && KnownKind(PortableKind(k, d))
    ensures PortableKind(k, d) !in {0, 4, 5, 6, 10, 15, 36}
  {
  }

  lemma {:induction false} AsciiInjective(a: string, b: string)
    requires AsciiBytes(a) == AsciiBytes(b) && (forall i :: 0 <= i < |a| ==> a[i] < 128 as char) &&
      (forall i :: 0 <= i < |b| ==> b[i] < 128 as char)
    ensures a == b
  {
    if a != "" {
      assert AsciiBytes(a)[1..] == AsciiBytes(a[1..]) && AsciiBytes(b)[1..] == AsciiBytes(b[1..]);
      assert AsciiBytes(a)[0] == AsciiBytes(b)[0];
      AsciiInjective(a[1..], b[1..]);
      assert a == [a[0]] + a[1..] && b == [b[0]] + b[1..];
    }
  }

  // A number is written in digits, a point and a sign.
  predicate NumberChar(c: char) { IsDigit(c) || c == '.' || c == '-' }

  lemma {:induction false} LeadingAreDigits(t: string)
    ensures AllDigits(t[..J.LeadingDigits(t)])
  {
    if t != "" && IsDigit(t[0]) {
      LeadingAreDigits(t[1..]);
      var n := J.LeadingDigits(t);
      forall i | 0 <= i < n ensures IsDigit(t[i]) { if i > 0 { assert t[1..][..n - 1][i - 1] == t[i]; } }
    }
  }

  lemma NumberChars(t: string)
    requires DecimalPattern(t)
    ensures forall i :: 0 <= i < |t| ==> NumberChar(t[i])
  {
    var sign := if t != "" && t[0] == '-' then 1 else 0;
    var u := if sign == 1 then t[1..] else t;
    var n := J.LeadingDigits(u);
    LeadingAreDigits(u);
    forall i | 0 <= i < |u| ensures NumberChar(u[i]) {
      if i < n {
        assert u[..n][i] == u[i];
      } else if i > n {
        assert u[n + 1..][i - n - 1] == u[i];
      }
    }
    forall i | 0 <= i < |t| ensures NumberChar(t[i]) { assert i >= sign ==> u[i - sign] == t[i]; }
  }

  lemma OneDetail(n: PathNode, k: nat, d: Detail, l: nat, e: Detail)
    requires IsKnown(k) && IsKnown(l) && FitsDetail(k, d) && FitsDetail(l, e) && Shows(n, k, d) && Shows(n, l, e)
    ensures k == l && d == e
  {
    KindIsNative(k, d);
    KindIsNative(l, e);
    hide NativeKind, KnownKind, IsKnown, ValidUtf8, DecimalPattern;
    if k == 2 {
      SameNumber(d.number, e.number);
    } else if k != 3 {
      hide PortableKind;
    }
  }

  lemma SameNumber(a: string, b: string)
    requires DecimalPattern(a) && DecimalPattern(b) && AsciiBytes(a) == AsciiBytes(b)
    ensures a == b
  {
    NumberChars(a);
    NumberChars(b);
    hide DecimalPattern, AsciiBytes;
    AsciiInjective(a, b);
  }

  // A table entry spells one path at most, so capturing loses nothing.
  lemma {:induction false} StandsForOne(nodes: seq<PathNode>, index: int, p: Path, q: Path)
    requires Formed(p) && Formed(q) && Stands(nodes, index, p) && Stands(nodes, index, q)
    ensures p == q
    decreases p
  {
    hide FormedArgs, FitsDetail, IsKnown, FitsArgs, Shows, PairStands, EntriesStand, Stands;
    FormedParts(p);
    FormedParts(q);
    StandsParts(nodes, index, p);
    StandsParts(nodes, index, q);
    var n := nodes[index];
    OneDetail(n, p.kind, p.detail, q.kind, q.detail);
    hide Formed;
    if p.kind == SUBSCRIPTS {
      EntriesForOne(nodes, n.left, p.args, q.args);
    } else {
      SameCount(p.kind, Count(p.args), Count(q.args));
      PairForOne(nodes, n.left, n.right, p.args, q.args);
    }
    LinkForOne(nodes, n.next, p.next, q.next);
  }

  lemma StandsParts(nodes: seq<PathNode>, index: int, p: Path)
    requires Stands(nodes, index, p)
    ensures 0 < index < |nodes| && Shows(nodes[index], p.kind, p.detail)
    ensures ArgsStand(nodes, nodes[index], p) && LinkStands(nodes, nodes[index].next, p.next)
  {
    hide Shows, ArgsStand, LinkStands;
  }

  lemma SameCount(k: nat, a: nat, b: nat)
    requires FitsArgs(k, a) && FitsArgs(k, b) && k != SUBSCRIPTS
    ensures a == b
  {
    hide Operator, ArgumentMethod;
  }

  lemma {:induction false} LinkForOne(nodes: seq<PathNode>, link: int, a: Option<Path>, b: Option<Path>)
    requires LinkStands(nodes, link, a) && LinkStands(nodes, link, b)
    requires (a.Some? ==> Formed(a.value)) && (b.Some? ==> Formed(b.value))
    ensures a == b
    decreases a
  {
    hide Formed, Shows, ArgsStand;
    if a.Some? && b.Some? { StandsForOne(nodes, link, a.value, b.value); }
  }

  lemma {:induction false} PairForOne(nodes: seq<PathNode>, left: int, right: int, a: Args, b: Args)
    requires FormedArgs(a) && FormedArgs(b) && Count(a) == Count(b) && PairStands(nodes, left, right, a)
    requires PairStands(nodes, left, right, b)
    ensures a == b
    decreases a
  {
    hide Formed, LinkStands;
    if a.Arg? {
      LinkForOne(nodes, left, a.first, b.first);
      if a.rest.Arg? { LinkForOne(nodes, right, a.rest.first, b.rest.first); }
    }
  }

  lemma {:induction false} EntriesForOne(nodes: seq<PathNode>, link: int, a: Args, b: Args)
    requires FormedArgs(a) && FormedArgs(b) && EntriesStand(nodes, link, a) && EntriesStand(nodes, link, b)
    ensures a == b
    decreases a
  {
    hide Formed, LinkStands;
    if a.Arg? {
      LinkForOne(nodes, nodes[link].left, a.first, b.first);
      LinkForOne(nodes, nodes[link].right, a.rest.first, b.rest.first);
      EntriesForOne(nodes, nodes[link].next, a.rest.rest, b.rest.rest);
    }
  }

  // Different paths are captured differently.
  lemma CaptureIsInjective(p: Path, q: Path)
    requires Formed(p) && Formed(q) && Flat(p, 1) == Flat(q, 1)
    ensures p == q
  {
    hide Formed, Flat, Stands;
    var nodes := [EMPTY] + Flat(p, 1);
    FlatStands(nodes, p, 1);
    FlatStands(nodes, q, 1);
    StandsForOne(nodes, 1, p, q);
  }
}
