/** jsonb constants: PostgreSQL's binary documents and their JSON text (src/catalog/jsonb-constant-storage.ts). */
module Jsonb {
  import opened Bytes
  import opened Parts
  import opened Loops
  import opened Decimal
  import opened Numeric

  datatype Json =
    | Null
    | Bool(b: bool)
    | Text(s: seq<byte>)
    | Number(n: Stored)
    | Array(items: List)
    | Object(keys: seq<seq<byte>>, values: List)

  datatype List = Nil | Cons(head: Json, tail: List)

  // The bytes behind the varlena header, and how the server that wrote them reads words and text.
  datatype Source = Source(body: seq<byte>, order: ByteOrder, utf8: bool)

  datatype Entry = Entry(tag: nat, start: nat, end: nat)

  datatype Work =
    | Literal(text: seq<byte>)
    | Value(entry: Entry)
    | Container(start: nat, end: nat, root: bool)

  datatype Stack = Empty | Push(top: Work, below: Stack)

  const LENGTHS: nat := 0x1000_0000

  // -- JSON text (sections 4 to 7 of RFC 8259) ------------------------------------------------------------

  function Hex(d: nat): byte
    requires d < 16
  {
    if d < 10 then 0x30 + d else 0x57 + d
  }

  // What JSON.stringify writes for one byte of the UTF-8 form of a string.
  function Escape(b: byte): seq<byte>
  {
    if b == 0x22 || b == 0x5C then [0x5C, b]
    else if b == 8 then AsciiBytes("\\b")
    else if b == 9 then AsciiBytes("\\t")
    else if b == 10 then AsciiBytes("\\n")
    else if b == 12 then AsciiBytes("\\f")
    else if b == 13 then AsciiBytes("\\r")
    else if b < 0x20 then AsciiBytes("\\u00") + [Hex(b / 16), Hex(b % 16)]
    else [b]
  }

  function Escaped(s: seq<byte>): seq<byte>
  {
    if s == [] then [] else Escape(s[0]) + Escaped(s[1..])
  }

  function Quote(s: seq<byte>): seq<byte>
  {
    AsciiBytes("\"") + Escaped(s) + AsciiBytes("\"")
  }

  function NumberText(n: Stored): seq<byte>
  {
    if n.Finite? && Base10000(n.digits) && FiniteText(n).Some? then AsciiBytes(FiniteText(n).value) else []
  }

  function Print(v: Json): seq<byte>
    decreases v
  {
    match v
    case Null => AsciiBytes("null")
    case Bool(b) => AsciiBytes(if b then "true" else "false")
    case Text(s) => Quote(s)
    case Number(n) => NumberText(n)
    case Array(items) => AsciiBytes("[") + PrintItems(items, true)
    case Object(keys, values) => AsciiBytes("{") + PrintMembers(keys, 0, values)
  }

  function PrintItems(items: List, first: bool): seq<byte>
    decreases items
  {
    match items
    case Nil => AsciiBytes("]")
    case Cons(v, rest) => Comma(first) + (Print(v) + PrintItems(rest, false))
  }

  function PrintMembers(keys: seq<seq<byte>>, i: nat, values: List): seq<byte>
    decreases values
  {
    match values
    case Nil => AsciiBytes("}")
    case Cons(v, rest) =>
      Comma(i == 0) + (Label(keys, i) + (Print(v) + PrintMembers(keys, i + 1, rest)))
  }

  function Comma(first: bool): seq<byte> { if first then [] else AsciiBytes(",") }

  function Label(keys: seq<seq<byte>>, i: nat): seq<byte>
  {
    if i < |keys| then Quote(keys[i]) + AsciiBytes(":") else []
  }

  // The pattern a number's text must match.
  predicate JsonNumber(t: string)
  {
    Unsigned(if t != "" && t[0] == '-' then t[1..] else t)
  }

  function LeadingDigits(s: string): (n: nat)
    ensures n <= |s|
  {
    if s != "" && IsDigit(s[0]) then 1 + LeadingDigits(s[1..]) else 0
  }

  // -- Keys ------------------------------------------------------------------------------------------------

  predicate LexLess(a: seq<byte>, b: seq<byte>)
    requires |a| == |b|
  {
    a != [] && (a[0] < b[0] || (a[0] == b[0] && LexLess(a[1..], b[1..])))
  }

  // The order of an object's keys: shorter first, then bytewise.
  predicate KeyBefore(a: seq<byte>, b: seq<byte>)
  {
    |a| < |b| || (|a| == |b| && LexLess(a, b))
  }

  // The first byte that differs is smaller in `a`.
  predicate DiffersAt(a: seq<byte>, b: seq<byte>, k: nat)
  {
    k < |a| && k < |b| && a[..k] == b[..k] && a[k] < b[k]
  }

  lemma {:induction false} FirstDifference(a: seq<byte>, b: seq<byte>) returns (k: nat)
    requires |a| == |b| && LexLess(a, b)
    ensures DiffersAt(a, b, k)
    decreases |a|
  {
    if a[0] < b[0] {
      k := 0;
    } else {
      k := FirstDifference(a[1..], b[1..]);
      assert a[..k + 1] == [a[0]] + a[1..][..k] && b[..k + 1] == [b[0]] + b[1..][..k];
      k := k + 1;
    }
  }

  lemma {:induction false} DifferenceDecides(a: seq<byte>, b: seq<byte>, k: nat)
    requires |a| == |b| && DiffersAt(a, b, k)
    ensures LexLess(a, b)
    decreases k
  {
    if k > 0 {
      assert a[0] == a[..k][0] == b[..k][0] == b[0];
      assert a[1..][..k - 1] == a[..k][1..] && b[1..][..k - 1] == b[..k][1..];
      DifferenceDecides(a[1..], b[1..], k - 1);
    }
  }

  // A key stands before another of its length when the first byte in which they differ is smaller.
  lemma KeyOrder(a: seq<byte>, b: seq<byte>)
    ensures KeyBefore(a, b) <==> |a| < |b| || (|a| == |b| && exists k: nat :: DiffersAt(a, b, k))
  {
    hide LexLess, DiffersAt;
    if |a| == |b| {
      if LexLess(a, b) { var k := FirstDifference(a, b); }
      if k: nat :| DiffersAt(a, b, k) { DifferenceDecides(a, b, k); }
    }
  }

  predicate Ordered(keys: seq<seq<byte>>)
  {
    forall i :: 0 < i < |keys| ==> KeyBefore(keys[i - 1], keys[i])
  }

  lemma {:induction false} LexTransitive(a: seq<byte>, b: seq<byte>, c: seq<byte>)
    requires |a| == |b| == |c| && LexLess(a, b) && LexLess(b, c)
    ensures LexLess(a, c) && a != c
    decreases |a|
  {
    if a[0] == b[0] == c[0] { LexTransitive(a[1..], b[1..], c[1..]); }
  }

  lemma {:induction false} LexIrreflexive(a: seq<byte>)
    ensures !LexLess(a, a)
  {
    if a != [] { LexIrreflexive(a[1..]); }
  }

  lemma {:induction false} OrderedPairs(keys: seq<seq<byte>>, i: nat, j: nat)
    requires Ordered(keys) && i < j < |keys|
    ensures KeyBefore(keys[i], keys[j])
    decreases j
  {
    hide LexLess;
    if i + 1 < j {
      OrderedPairs(keys, i, j - 1);
      if |keys[i]| == |keys[j - 1]| == |keys[j]| { LexTransitive(keys[i], keys[j - 1], keys[j]); }
    }
  }

  // Neighbours in order means no key twice.
  lemma OrderedDistinct(keys: seq<seq<byte>>)
    requires Ordered(keys)
    ensures forall i, j :: 0 <= i < j < |keys| ==> keys[i] != keys[j]
  {
    hide LexLess, KeyBefore, Ordered;
    forall i, j | 0 <= i < j < |keys| ensures keys[i] != keys[j] {
      OrderedPairs(keys, i, j);
      assert KeyBefore(keys[j], keys[j]) ==> LexLess(keys[j], keys[j]) by { KeyOfSameLength(keys[j]); }
      LexIrreflexive(keys[j]);
    }
  }

  lemma KeyOfSameLength(a: seq<byte>)
    ensures KeyBefore(a, a) ==> LexLess(a, a)
  {
  }

  // -- Containers ----------------------------------------------------------------------------------------

  function From(entries: seq<Entry>, i: nat, end: nat): nat
  {
    if i < |entries| then entries[i].start else end
  }

  // The entries lie side by side and fill the data area.
  predicate Contiguous(entries: seq<Entry>, data: nat, end: nat)
  {
    From(entries, 0, end) == data && data <= end &&
    forall i :: 0 <= i < |entries| ==>
      data <= entries[i].start <= entries[i].end <= end && entries[i].end == From(entries, i + 1, end)
  }

  // An entry word states its length or, with the top bit set, its end within the data area.
  predicate Describes(w: nat, e: Entry, data: nat)
  {
    e.tag <= 5 && data <= e.start <= e.end &&
    (|| (e.end - e.start < LENGTHS && w == e.tag * LENGTHS + (e.end - e.start))
     || (e.end - data < LENGTHS && w == 8 * LENGTHS + e.tag * LENGTHS + (e.end - data)))
  }

  predicate Described(x: Source, at: nat, entries: seq<Entry>, data: nat)
    requires at + 4 * |entries| <= |x.body|
  {
    forall i :: 0 <= i < |entries| ==> Describes(U32(x.order, x.body, at + 4 * i), entries[i], data)
  }

  predicate Tiles(x: Source, at: nat, entries: seq<Entry>, data: nat, from: nat, end: nat)
  {
    at + 4 * |entries| <= |x.body| && data <= from && Described(x, at, entries, data) && Contiguous(entries, from, end)
  }

  function EntryTag(w: nat): nat { w / LENGTHS % 8 }

  function EntryNext(w: nat, offset: nat): nat
  {
    if w >= 8 * LENGTHS then w % LENGTHS else offset + w % LENGTHS
  }

  lemma DescribesIff(w: nat, e: Entry, data: nat)
    requires w < 16 * LENGTHS && data <= e.start
    ensures Describes(w, e, data) <==>
      e.tag == EntryTag(w) && e.tag <= 5 && e.end >= e.start && e.end - data == EntryNext(w, e.start - data)
  {
    var tag, low := w / LENGTHS, w % LENGTHS;
    assert w == tag * LENGTHS + low && tag < 16;
    if Describes(w, e, data) {
      if e.end - e.start < LENGTHS && w == e.tag * LENGTHS + (e.end - e.start) {
        assert tag == e.tag;
      } else {
        assert tag == 8 + e.tag;
      }
    }
  }

  // The loop over a container's entry words, from the entry at `at` on.
  function Scan(x: Source, at: nat, left: nat, data: nat, offset: nat, end: nat): (r: Option<seq<Entry>>)
    requires at + 4 * left <= data && data + offset <= end <= |x.body|
    ensures r.Some? ==> |r.value| == left
    decreases left
  {
    if left == 0 then if data + offset == end then Some([]) else None
    else
      var w := U32(x.order, x.body, at);
      var next := EntryNext(w, offset);
      if EntryTag(w) > 5 || next < offset || data + next > end then None
      else match Scan(x, at + 4, left - 1, data, next, end)
        case None => None
        case Some(rest) => Some([Entry(EntryTag(w), data + offset, data + next)] + rest)
  }

  lemma {:induction false} ScanTiles(x: Source, at: nat, left: nat, data: nat, offset: nat, end: nat)
    requires at + 4 * left <= data && data + offset <= end <= |x.body|
    requires Scan(x, at, left, data, offset, end).Some?
    ensures Tiles(x, at, Scan(x, at, left, data, offset, end).value, data, data + offset, end)
    decreases left
  {
    hide U32, Describes, EntryTag, EntryNext, Scan, Tiles;
    if left > 0 {
      ScanHead(x, at, left, data, offset, end);
      var w := U32(x.order, x.body, at);
      var next := EntryNext(w, offset);
      ScanTiles(x, at + 4, left - 1, data, next, end);
      var e := Entry(EntryTag(w), data + offset, data + next);
      DescribesIff(w, e, data);
      TilesCons(x, at, e, Scan(x, at + 4, left - 1, data, next, end).value, data, end);
    } else {
      ScanEnd(x, at, data, offset, end);
    }
  }

  lemma ScanHead(x: Source, at: nat, left: nat, data: nat, offset: nat, end: nat)
    requires 0 < left && at + 4 * left <= data && data + offset <= end <= |x.body|
    requires Scan(x, at, left, data, offset, end).Some?
    ensures var w := U32(x.order, x.body, at); var next := EntryNext(w, offset);
      EntryTag(w) <= 5 && offset <= next && data + next <= end &&
      var rest := Scan(x, at + 4, left - 1, data, next, end);
      rest.Some? && Scan(x, at, left, data, offset, end).value ==
                    [Entry(EntryTag(w), data + offset, data + next)] + rest.value
  {
    hide U32, EntryTag, EntryNext;
  }

  lemma ScanEnd(x: Source, at: nat, data: nat, offset: nat, end: nat)
    requires at <= data && data + offset <= end <= |x.body| && Scan(x, at, 0, data, offset, end).Some?
    ensures Tiles(x, at, Scan(x, at, 0, data, offset, end).value, data, data + offset, end)
  {
  }

  lemma TilesCons(x: Source, at: nat, e: Entry, rest: seq<Entry>, data: nat, end: nat)
    requires at + 4 <= |x.body| && Tiles(x, at + 4, rest, data, e.end, end)
    requires Describes(U32(x.order, x.body, at), e, data)
    ensures Tiles(x, at, [e] + rest, data, e.start, end)
  {
    hide U32, Describes, Contiguous;
    DescribedForward(U32(x.order, x.body, at), e, data);
    ContiguousCons(e, rest, end);
    var all := [e] + rest;
    forall i | 0 <= i < |all| ensures Describes(U32(x.order, x.body, at + 4 * i), all[i], data) {
      if i > 0 {
        assert all[i] == rest[i - 1] && at + 4 * i == at + 4 + 4 * (i - 1);
      }
    }
  }

  lemma ContiguousCons(e: Entry, rest: seq<Entry>, end: nat)
    requires Contiguous(rest, e.end, end) && e.start <= e.end
    ensures Contiguous([e] + rest, e.start, end)
  {
    var all := [e] + rest;
    forall i | 0 <= i < |all|
      ensures e.start <= all[i].start <= all[i].end <= end && all[i].end == From(all, i + 1, end)
    {
      if i > 0 {
        assert all[i] == rest[i - 1] && From(all, i + 1, end) == From(rest, i, end);
      } else {
        assert From(all, 1, end) == From(rest, 0, end);
      }
    }
  }

  lemma DescribedForward(w: nat, e: Entry, data: nat)
    requires Describes(w, e, data)
    ensures data <= e.start <= e.end
  {
  }

  // Whatever tiles the data area is what the loop finds.
  lemma {:induction false} TilesScan(x: Source, at: nat, entries: seq<Entry>, data: nat, offset: nat, end: nat)
    requires at + 4 * |entries| <= data && data + offset <= end <= |x.body|
    requires Tiles(x, at, entries, data, data + offset, end)
    ensures Scan(x, at, |entries|, data, offset, end) == Some(entries)
    decreases |entries|
  {
    hide U32, Describes, EntryTag, EntryNext, Tiles;
    if entries != [] {
      var w, e := U32(x.order, x.body, at), entries[0];
      TilesHead(x, at, entries, data, data + offset, end);
      DescribesIff(w, e, data);
      TilesTail(x, at, entries, data, data + offset, end);
      TilesScan(x, at + 4, entries[1..], data, e.end - data, end);
      assert entries == [e] + entries[1..];
    } else {
      assert data + offset == end by { NothingTiles(x, at, data, data + offset, end); }
    }
  }

  lemma NothingTiles(x: Source, at: nat, data: nat, from: nat, end: nat)
    requires Tiles(x, at, [], data, from, end)
    ensures from == end
  {
  }

  lemma TilesHead(x: Source, at: nat, entries: seq<Entry>, data: nat, from: nat, end: nat)
    requires entries != [] && Tiles(x, at, entries, data, from, end)
    ensures at + 4 <= |x.body| && Describes(U32(x.order, x.body, at), entries[0], data)
    ensures data <= from == entries[0].start <= entries[0].end <= end
  {
    hide U32, Describes;
    assert U32(x.order, x.body, at) == U32(x.order, x.body, at + 4 * 0);
  }

  lemma TilesTail(x: Source, at: nat, entries: seq<Entry>, data: nat, from: nat, end: nat)
    requires entries != [] && Tiles(x, at, entries, data, from, end)
    ensures Tiles(x, at + 4, entries[1..], data, entries[0].end, end)
  {
    hide U32, Describes;
    var rest := entries[1..];
    ContiguousTail(entries, from, end);
    hide Contiguous;
    forall i | 0 <= i < |rest| ensures Describes(U32(x.order, x.body, at + 4 + 4 * i), rest[i], data) {
      assert rest[i] == entries[i + 1] && at + 4 + 4 * i == at + 4 * (i + 1);
    }
  }

  lemma ContiguousTail(entries: seq<Entry>, from: nat, end: nat)
    requires entries != [] && Contiguous(entries, from, end)
    ensures Contiguous(entries[1..], entries[0].end, end) && from <= entries[0].end
  {
    var rest := entries[1..];
    assert entries[0].end == From(entries, 1, end) == From(rest, 0, end);
    forall i | 0 <= i < |rest|
      ensures entries[0].end <= rest[i].start <= rest[i].end <= end && rest[i].end == From(rest, i + 1, end)
    {
      assert rest[i] == entries[i + 1];
      assert From(rest, i + 1, end) == From(entries, i + 2, end);
      Increasing(entries, from, end, 0, i + 1);
    }
  }

  lemma {:induction false} Increasing(entries: seq<Entry>, from: nat, end: nat, i: nat, j: nat)
    requires Contiguous(entries, from, end) && i < j < |entries|
    ensures entries[i].end <= entries[j].start
    decreases j
  {
    if i + 1 < j {
      Increasing(entries, from, end, i, j - 1);
      assert entries[j - 1].end == From(entries, j, end);
    } else {
      assert entries[i].end == From(entries, j, end);
    }
  }

  // -- Documents in their native form -------------------------------------------------------------------

  function Length(items: List): nat
  {
    match items case Nil => 0 case Cons(_, rest) => 1 + Length(rest)
  }

  // The least multiple of 4 not below `at`.
  function Boundary(at: nat): (b: nat)
    ensures b % 4 == 0 && at <= b < at + 4
  {
    at + (4 - at % 4) % 4
  }

  // Zero bytes up to that boundary, which lies before the end.
  predicate Padded(x: Source, start: nat, end: nat)
  {
    Boundary(start) < end <= |x.body| && forall i :: start <= i < Boundary(start) ==> x.body[i] == 0
  }

  ghost predicate HoldsValue(x: Source, e: Entry, v: Json)
    decreases v
  {
    e.start <= e.end <= |x.body| &&
    match v
    case Null => e.tag == 4 && e.start == e.end
    case Bool(b) => e.tag == (if b then 3 else 2) && e.start == e.end
    case Text(s) => e.tag == 0 && PlainText(x.utf8, s) && e.start + |s| == e.end && At(x.body, e.start, s)
    case Number(n) => e.tag == 1 && Padded(x, e.start, e.end) && HoldsNumber(x, Boundary(e.start), e.end, n)
    case Array(_) => e.tag == 5 && Padded(x, e.start, e.end) && HoldsContainer(x, Boundary(e.start), e.end, v)
    case Object(_, _) => e.tag == 5 && Padded(x, e.start, e.end) && HoldsContainer(x, Boundary(e.start), e.end, v)
  }

  ghost predicate HoldsNumber(x: Source, start: nat, end: nat, n: Stored)
    requires start <= end <= |x.body|
  {
    ReadNumeric(x.order, x.body[start..end]) == Some(n) && n.Finite? && Exact(n)
  }

  ghost predicate HoldsItems(x: Source, entries: seq<Entry>, i: nat, items: List)
    decreases items
  {
    match items
    case Nil => i == |entries|
    case Cons(v, rest) => i < |entries| && HoldsValue(x, entries[i], v) && HoldsItems(x, entries, i + 1, rest)
  }

  // The container's header word and the entries its words describe.
  predicate Header(x: Source, start: nat, end: nat, flags: nat, count: nat, size: nat, entries: seq<Entry>)
  {
    count < LENGTHS && |entries| == size && start + 4 + 4 * size <= end <= |x.body| &&
    U32(x.order, x.body, start) == flags * LENGTHS + count &&
    Tiles(x, start + 4, entries, start + 4 + 4 * size, start + 4 + 4 * size, end)
  }

  predicate HoldsKeys(x: Source, entries: seq<Entry>, keys: seq<seq<byte>>)
  {
    |keys| <= |entries| && Ordered(keys) && forall i :: 0 <= i < |keys| ==> HoldsKey(x, entries[i], keys[i])
  }

  predicate HoldsKey(x: Source, e: Entry, key: seq<byte>)
  {
    e.tag == 0 && e.start + |key| == e.end && At(x.body, e.start, key) && PlainText(x.utf8, key)
  }

  ghost predicate HoldsContainer(x: Source, start: nat, end: nat, v: Json)
    decreases v, 1
  {
    exists entries :: HoldsEntries(x, start, end, entries, v)
  }

  ghost predicate HoldsEntries(x: Source, start: nat, end: nat, entries: seq<Entry>, v: Json)
    decreases v, 0
  {
    match v
    case Array(items) =>
      Header(x, start, end, 4, Length(items), Length(items), entries) && HoldsItems(x, entries, 0, items)
    case Object(keys, values) =>
      Header(x, start, end, 2, |keys|, 2 * |keys|, entries) && HoldsKeys(x, entries, keys) &&
      HoldsItems(x, entries, |keys|, values)
    case _ => false
  }

  // A whole document: a container, or a single other value behind a scalar header.
  ghost predicate Holds(x: Source, v: Json)
  {
    if v.Array? || v.Object? then HoldsContainer(x, 0, |x.body|, v)
    else exists e :: Header(x, 0, |x.body|, 5, 1, 1, [e]) && HoldsValue(x, e, v)
  }

  // -- The decoder, one work item at a time ---------------------------------------------------------------

  // Rounded up to a word.
  function Aligned(at: nat): nat { (at + 3) / 4 * 4 }

  predicate ZeroPadded(x: Source, start: nat, end: nat)
  {
    Aligned(start) < end <= |x.body| && forall i :: start <= i < Aligned(start) ==> x.body[i] == 0
  }

  lemma AlignedIs(at: nat)
    ensures Aligned(at) == Boundary(at)
  {
    assert at == at / 4 * 4 + at % 4;
  }

  lemma PaddedIs(x: Source, start: nat, end: nat)
    ensures Padded(x, start, end) <==> ZeroPadded(x, start, end)
    ensures start <= Aligned(start) == Boundary(start) &&
      (ZeroPadded(x, start, end) ==> Aligned(start) < end <= |x.body|)
  {
    AlignedIs(start);
    hide Aligned, Boundary;
    assert start <= Boundary(start);
  }

  datatype Step = Reject | Emit(text: seq<byte>) | Open(start: nat)

  function ValueStep(x: Source, e: Entry): Step
    requires e.start <= e.end <= |x.body|
  {
    if e.tag == 0 then
      var s := x.body[e.start..e.end];
      if PlainText(x.utf8, s) then Emit(Quote(s)) else Reject
    else if e.tag == 1 || e.tag == 5 then
      if !ZeroPadded(x, e.start, e.end) then Reject
      else if e.tag == 5 then Open(Aligned(e.start))
      else NumberStep(x.order, x.body[Aligned(e.start)..e.end])
    else if e.start != e.end || e.tag < 2 || e.tag > 4 then Reject
    else Emit(AsciiBytes(if e.tag == 2 then "false" else if e.tag == 3 then "true" else "null"))
  }

  function NumberStep(order: ByteOrder, b: seq<byte>): Step
  {
    match StorageText(order, b)
    case None => Reject
    case Some(t) => if JsonNumber(t) then Emit(AsciiBytes(t)) else Reject
  }

  datatype Shape =
    | Scalar(value: Entry)
    | Elements(entries: seq<Entry>)
    | Members(keys: seq<seq<byte>>, entries: seq<Entry>)

  // The loop over an object's keys, from key `i` on.
  function ReadKeys(x: Source, entries: seq<Entry>, i: nat, n: nat): (r: Option<seq<seq<byte>>>)
    requires i <= n <= |entries| && EntriesWithin(x, entries)
    ensures r.Some? ==> |r.value| == n - i
    decreases n - i
  {
    if i == n then Some([])
    else
      var key := KeyAt(x, entries[i]);
      if entries[i].tag != 0 || !PlainText(x.utf8, key) then None
      else if i > 0 && !KeyBefore(KeyAt(x, entries[i - 1]), key) then None
      else match ReadKeys(x, entries, i + 1, n)
        case None => None
        case Some(rest) => Some([key] + rest)
  }

  function KeyAt(x: Source, e: Entry): seq<byte>
    requires e.start <= e.end <= |x.body|
  {
    x.body[e.start..e.end]
  }

  predicate EntriesWithin(x: Source, entries: seq<Entry>)
  {
    forall i :: 0 <= i < |entries| ==> entries[i].start <= entries[i].end <= |x.body|
  }

  lemma ScanWithin(x: Source, at: nat, left: nat, data: nat, end: nat)
    requires at + 4 * left <= data <= end <= |x.body| && Scan(x, at, left, data, 0, end).Some?
    ensures EntriesWithin(x, Scan(x, at, left, data, 0, end).value)
  {
    ScanTiles(x, at, left, data, 0, end);
    hide Scan, Describes, U32;
  }

  function ReadContainer(x: Source, start: nat, end: nat, root: bool): Option<Shape>
    requires start <= end <= |x.body|
  {
    if end - start < 4 then None
    else
      var w := U32(x.order, x.body, start);
      var count, flags := w % LENGTHS, w / LENGTHS;
      var isObject, isScalar := flags == 2, flags == 5;
      var size := if isObject then 2 * count else count;
      var data := start + 4 + 4 * size;
      if (!isObject && flags != 4 && !isScalar) || (isScalar && (!root || count != 1)) || data > end then None
      else match Scan(x, start + 4, size, data, 0, end)
        case None => None
        case Some(entries) =>
          if isScalar then if entries[0].tag == 5 then None else Some(Scalar(entries[0]))
          else if isObject then
            ScanWithin(x, start + 4, size, data, end);
            match ReadKeys(x, entries, 0, count)
            case None => None
            case Some(keys) => Some(Members(keys, entries))
          else Some(Elements(entries))
  }

  function Opening(shape: Shape): seq<byte>
  {
    if shape.Scalar? then [] else AsciiBytes(if shape.Elements? then "[" else "{")
  }

  function WithComma(first: bool, stack: Stack): Stack
  {
    if first then stack else Push(Literal(AsciiBytes(",")), stack)
  }

  function ItemsFrom(entries: seq<Entry>, i: nat, below: Stack): Stack
    requires i <= |entries|
    decreases |entries| - i
  {
    if i == |entries| then Push(Literal(AsciiBytes("]")), below)
    else WithComma(i == 0, Push(Value(entries[i]), ItemsFrom(entries, i + 1, below)))
  }

  function MembersFrom(keys: seq<seq<byte>>, entries: seq<Entry>, i: nat, below: Stack): Stack
    requires i <= |keys| && 2 * |keys| == |entries|
    decreases |keys| - i
  {
    if i == |keys| then Push(Literal(AsciiBytes("}")), below)
    else WithComma(i == 0,
      Push(Literal(Quote(keys[i])), Push(Literal(AsciiBytes(":")),
        Push(Value(entries[|keys| + i]), MembersFrom(keys, entries, i + 1, below)))))
  }

  predicate ShapeValid(shape: Shape) { shape.Members? ==> 2 * |shape.keys| == |shape.entries| }

  // What the container leaves on the stack.
  function Pushed(shape: Shape, below: Stack): Stack
    requires ShapeValid(shape)
  {
    match shape
    case Scalar(e) => Push(Value(e), below)
    case Elements(entries) => ItemsFrom(entries, 0, below)
    case Members(keys, entries) => MembersFrom(keys, entries, 0, below)
  }

  // -- The work stack shrinks -----------------------------------------------------------------------------

  predicate WorkWithin(x: Source, w: Work)
  {
    match w
    case Literal(_) => true
    case Value(e) => e.start <= e.end <= |x.body|
    case Container(start, end, _) => start <= end <= |x.body|
  }

  predicate Within(x: Source, stack: Stack)
  {
    match stack case Empty => true case Push(w, below) => WorkWithin(x, w) && Within(x, below)
  }

  // Eight for every byte still to be read, and a little for every item.
  function WorkWeight(w: Work): nat
  {
    match w
    case Literal(_) => 1
    case Value(e) => if e.start <= e.end then 8 * (e.end - e.start) + 2 else 0
    case Container(start, end, _) => if start <= end then 8 * (end - start) + 1 else 0
  }

  function Weight(stack: Stack): nat
  {
    match stack case Empty => 0 case Push(w, below) => WorkWeight(w) + Weight(below)
  }

  lemma {:induction false} ItemsWeight(x: Source, entries: seq<Entry>, data: nat, end: nat, i: nat, below: Stack)
    requires Contiguous(entries, data, end) && end <= |x.body| && i <= |entries| && Within(x, below)
    ensures From(entries, i, end) <= end && Within(x, ItemsFrom(entries, i, below))
    ensures Weight(ItemsFrom(entries, i, below)) <= 8 * (end - From(entries, i, end)) + 3 * (|entries| - i) + 1 +
      Weight(below)
    decreases |entries| - i
  {
    hide AsciiBytes;
    if i < |entries| {
      ItemsWeight(x, entries, data, end, i + 1, below);
    }
  }

  lemma {:induction false} MembersWeight(x: Source, keys: seq<seq<byte>>, entries: seq<Entry>, data: nat, end: nat,
      i: nat, below: Stack)
    requires Contiguous(entries, data, end) && end <= |x.body| && i <= |keys| && 2 * |keys| == |entries|
    requires Within(x, below)
    ensures From(entries, |keys| + i, end) <= end && Within(x, MembersFrom(keys, entries, i, below))
    ensures Weight(MembersFrom(keys, entries, i, below)) <=
            8 * (end - From(entries, |keys| + i, end)) + 5 * (|keys| - i) + 1 + Weight(below)
    decreases |keys| - i
  {
    hide AsciiBytes, Quote, Weight, Within, Contiguous;
    if i < |keys| {
      MembersWeight(x, keys, entries, data, end, i + 1, below);
      EntryFrom(entries, data, end, |keys| + i);
      MemberWeight(x, keys, entries, i, MembersFrom(keys, entries, i + 1, below));
    } else {
      ClosingWeight(x, AsciiBytes("}"), below);
    }
  }

  lemma ClosingWeight(x: Source, t: seq<byte>, below: Stack)
    requires Within(x, below)
    ensures Within(x, Push(Literal(t), below)) && Weight(Push(Literal(t), below)) == 1 + Weight(below)
  {
  }

  lemma EntryFrom(entries: seq<Entry>, data: nat, end: nat, i: nat)
    requires Contiguous(entries, data, end) && i < |entries|
    ensures From(entries, i, end) == entries[i].start <= entries[i].end == From(entries, i + 1, end) <= end
  {
  }

  lemma MemberWeight(x: Source, keys: seq<seq<byte>>, entries: seq<Entry>, i: nat, rest: Stack)
    requires i < |keys| && |keys| + i < |entries| && entries[|keys| + i].start <= entries[|keys| + i].end <= |x.body|
    requires Within(x, rest)
    ensures var named := Named(keys, i, Push(Value(entries[|keys| + i]), rest)); var e := entries[|keys| + i];
      Within(x, WithComma(i == 0, named)) && Weight(WithComma(i == 0, named)) <= 8 * (e.end - e.start) + 5 +
          Weight(rest)
  {
    hide AsciiBytes, Quote;
    var value := Push(Value(entries[|keys| + i]), rest);
    var colon := Push(Literal(AsciiBytes(":")), value);
    var named := Push(Literal(Quote(keys[i])), colon);
    assert Within(x, value) && Within(x, colon) && Within(x, named);
    assert Weight(named) == 1 + Weight(colon) == 2 + Weight(value);
  }

  lemma ContainerShrinks(x: Source, start: nat, end: nat, root: bool, below: Stack)
    requires start <= end <= |x.body| && Within(x, below) && ReadContainer(x, start, end, root).Some?
    ensures ShapeValid(ReadContainer(x, start, end, root).value)
    ensures Within(x, Pushed(ReadContainer(x, start, end, root).value, below))
    ensures Weight(Pushed(ReadContainer(x, start, end, root).value, below)) < 8 * (end - start) + 1 + Weight(below)
  {
    hide Contiguous, Describes, U32, ItemsFrom, MembersFrom, AsciiBytes, PlainText;
    var shape := ReadContainer(x, start, end, root).value;
    var w := U32(x.order, x.body, start);
    var count := w % LENGTHS;
    var size := if w / LENGTHS == 2 then 2 * count else count;
    var data := start + 4 + 4 * size;
    ScanTiles(x, start + 4, size, data, 0, end);
    var entries := Scan(x, start + 4, size, data, 0, end).value;
    hide Scan, ReadKeys;
    if shape.Elements? {
      ItemsWeight(x, entries, data, end, 0, below);
      FromFirst(entries, data, end, 0);
    } else if shape.Members? {
      MembersWeight(x, shape.keys, entries, data, end, 0, below);
      FromFirst(entries, data, end, count);
    } else {
      FromFirst(entries, data, end, 0);
    }
  }

  lemma FromFirst(entries: seq<Entry>, data: nat, end: nat, i: nat)
    requires Contiguous(entries, data, end)
    ensures data <= From(entries, i, end) <= end
    ensures i < |entries| ==> data <= entries[i].start <= entries[i].end <= end
  {
  }

  // What the loop still writes from a given stack on.
  function Run(x: Source, stack: Stack): Option<seq<byte>>
    requires Within(x, stack)
    decreases Weight(stack)
  {
    match stack
    case Empty => Some([])
    case Push(Literal(t), below) => Joined(t, Run(x, below))
    case Push(Value(e), below) =>
      (match ValueStep(x, e)
       case Reject => None
       case Emit(t) => Joined(t, Run(x, below))
       case Open(start) => Run(x, Push(Container(start, e.end, false), below)))
    case Push(Container(start, end, root), below) =>
      if ReadContainer(x, start, end, root).None? then None
      else
        ContainerShrinks(x, start, end, root, below);
        var shape := ReadContainer(x, start, end, root).value;
        Joined(Opening(shape), Run(x, Pushed(shape, below)))
  }

  function StoredJsonb(x: Source): Option<seq<byte>>
  {
    Run(x, Push(Container(0, |x.body|, true), Empty))
  }

  // -- Numbers -----------------------------------------------------------------------------------------------

  lemma {:induction false} LeadingOf(whole: string, rest: string)
    requires AllDigits(whole) && (rest == "" || !IsDigit(rest[0]))
    ensures LeadingDigits(whole + rest) == |whole|
  {
    if whole == "" {
      assert whole + rest == rest;
    } else {
      assert (whole + rest)[1..] == whole[1..] + rest;
      LeadingOf(whole[1..], rest);
    }
  }

  predicate Unsigned(u: string)
  {
    var n := LeadingDigits(u);
    NoSurplusZeros(u[..n]) && (n == |u| || (u[n] == '.' && n + 1 < |u| && AllDigits(u[n + 1..])))
  }

  lemma UnsignedShape(whole: string, fraction: string)
    requires AllDigits(whole) && NoSurplusZeros(whole) && AllDigits(fraction)
    ensures Unsigned(whole + Pointed(fraction))
  {
    var u := whole + Pointed(fraction);
    LeadingOf(whole, Pointed(fraction));
    assert u[..|whole|] == whole;
    if fraction != "" {
      assert u[|whole| + 1..] == fraction;
    }
  }

  lemma NumberShape(sign: string, whole: string, fraction: string)
    requires (sign == "" || sign == "-") && AllDigits(whole) && NoSurplusZeros(whole) && AllDigits(fraction)
    ensures JsonNumber(sign + whole + Pointed(fraction))
  {
    UnsignedShape(whole, fraction);
    hide Unsigned, Pointed;
    var u := whole + Pointed(fraction);
    assert sign + whole + Pointed(fraction) == sign + u;
    assert IsDigit(whole[0]) && u[0] == whole[0];
    assert (sign + u)[|sign|..] == u;
  }

  lemma FiniteIsJson(n: Stored)
    requires n.Finite? && Canonical(n.digits) && FiniteText(n).Some?
    ensures JsonNumber(FiniteText(n).value)
  {
    hide FiniteText, JsonNumber, Val, Pow10, Coefficient, SameValue, Unsigned;
    var whole, fraction := TextDenotes(n);
    NumberShape(if n.negative && n.digits != [] then "-" else "", whole, fraction);
  }

  lemma SpecialIsNotJson()
    ensures !JsonNumber("NaN") && !JsonNumber("Infinity") && !JsonNumber("-Infinity")
  {
    assert "-Infinity"[1..] == "Infinity";
  }

  lemma NumberEmits(order: ByteOrder, b: seq<byte>, n: Stored)
    requires n.Finite? && Exact(n)
    ensures ReadNumeric(order, b) == Some(n) ==> NumberStep(order, b) == Emit(NumberText(n))
  {
    hide ReadNumeric, FiniteText, JsonNumber, Exact, AsciiBytes;
    if ReadNumeric(order, b) == Some(n) {
      Canonicals(order, b);
      TextIffExact(n);
      FiniteIsJson(n);
    }
  }

  lemma Canonicals(order: ByteOrder, b: seq<byte>)
    requires ReadNumeric(order, b).Some? && ReadNumeric(order, b).value.Finite?
    ensures Canonical(ReadNumeric(order, b).value.digits)
  {
    ReadIsBase10000(order, b);
  }

  lemma NumberHeld(order: ByteOrder, b: seq<byte>) returns (n: Stored)
    requires NumberStep(order, b).Emit?
    ensures ReadNumeric(order, b) == Some(n) && n.Finite? && Exact(n)
  {
    hide ReadNumeric, FiniteText, JsonNumber, Exact, AsciiBytes;
    n := ReadNumeric(order, b).value;
    SpecialIsNotJson();
    assert n.Finite?;
    Canonicals(order, b);
    TextIffExact(n);
  }

  // -- One value ------------------------------------------------------------------------------------------------

  lemma ScalarStep(x: Source, e: Entry, v: Json)
    requires HoldsValue(x, e, v) && !v.Array? && !v.Object?
    ensures ValueStep(x, e) == Emit(Print(v))
  {
    hide AsciiBytes, Quote, PlainText, ReadNumeric, NumberStep, NumberText, Exact, Aligned, Boundary, Padded,
      ZeroPadded;
    PaddedIs(x, e.start, e.end);
    if v.Text? {
      AtSlice(x.body, e.start, v.s);
    } else if v.Number? {
      NumberEmits(x.order, x.body[Aligned(e.start)..e.end], v.n);
    }
  }

  lemma ScalarHeld(x: Source, e: Entry) returns (v: Json)
    requires e.start <= e.end <= |x.body| && ValueStep(x, e).Emit?
    ensures HoldsValue(x, e, v) && !v.Array? && !v.Object?
  {
    hide AsciiBytes, Quote, PlainText, ReadNumeric, NumberStep, NumberText, Exact, Aligned, Boundary, Padded,
      ZeroPadded;
    PaddedIs(x, e.start, e.end);
    if e.tag == 0 {
      v := Text(x.body[e.start..e.end]);
      AtSlice(x.body, e.start, v.s);
    } else if e.tag == 1 {
      var n := NumberHeld(x.order, x.body[Aligned(e.start)..e.end]);
      v := Number(n);
    } else {
      v := if e.tag == 4 then Null else Bool(e.tag == 3);
    }
  }

  lemma OpensNested(x: Source, e: Entry, v: Json)
    requires HoldsValue(x, e, v) && (v.Array? || v.Object?)
    ensures ValueStep(x, e) == Open(Boundary(e.start)) && Boundary(e.start) <= e.end
    ensures HoldsContainer(x, Boundary(e.start), e.end, v)
  {
    hide HoldsContainer, PlainText, NumberStep, AsciiBytes, Boundary, Aligned;
    PaddedIs(x, e.start, e.end);
  }

  // -- Reading what is held -----------------------------------------------------------------------------------

  lemma {:induction false} ReadsKeys(x: Source, entries: seq<Entry>, keys: seq<seq<byte>>, i: nat)
    requires HoldsKeys(x, entries, keys) && EntriesWithin(x, entries) && i <= |keys|
    ensures ReadKeys(x, entries, i, |keys|) == Some(keys[i..])
    decreases |keys| - i
  {
    hide PlainText, KeyBefore;
    if i < |keys| {
      ReadsKeys(x, entries, keys, i + 1);
      KeyIsSlice(x, entries[i], keys[i]);
      if i > 0 { KeyIsSlice(x, entries[i - 1], keys[i - 1]); }
      assert keys[i..] == [keys[i]] + keys[i + 1..];
    }
  }

  lemma KeyIsSlice(x: Source, e: Entry, key: seq<byte>)
    requires HoldsKey(x, e, key) && e.start <= e.end <= |x.body|
    ensures KeyAt(x, e) == key
  {
    AtSlice(x.body, e.start, key);
  }

  lemma HeaderScans(x: Source, start: nat, end: nat, flags: nat, count: nat, size: nat, entries: seq<Entry>)
    requires Header(x, start, end, flags, count, size, entries) && flags < 16
    ensures start + 4 + 4 * size <= end <= |x.body|
    ensures U32(x.order, x.body, start) % LENGTHS == count && U32(x.order, x.body, start) / LENGTHS == flags
    ensures Scan(x, start + 4, size, start + 4 + 4 * size, 0, end) == Some(entries) && EntriesWithin(x, entries)
  {
    hide U32, Tiles, Scan;
    TilesScan(x, start + 4, entries, start + 4 + 4 * size, 0, end);
    ScanWithin(x, start + 4, size, start + 4 + 4 * size, end);
    WordParts(flags, count);
  }

  lemma WordParts(flags: nat, count: nat)
    requires count < LENGTHS
    ensures (flags * LENGTHS + count) % LENGTHS == count && (flags * LENGTHS + count) / LENGTHS == flags
  {
  }

  function ShapeOf(v: Json, entries: seq<Entry>): Shape
    requires v.Array? || v.Object?
  {
    if v.Array? then Elements(entries) else Members(v.keys, entries)
  }

  lemma ContainerReads(x: Source, start: nat, end: nat, root: bool, entries: seq<Entry>, v: Json)
    requires HoldsEntries(x, start, end, entries, v)
    ensures start <= end <= |x.body| && EntriesWithin(x, entries)
    ensures ReadContainer(x, start, end, root) == Some(ShapeOf(v, entries))
  {
    hide U32, Header, HoldsKeys, HoldsItems, ReadKeys, Scan, EntriesWithin;
    if v.Array? {
      HeaderScans(x, start, end, 4, Length(v.items), Length(v.items), entries);
    } else {
      HeaderScans(x, start, end, 2, |v.keys|, 2 * |v.keys|, entries);
      ReadsKeys(x, entries, v.keys, 0);
      assert v.keys[0..] == v.keys;
    }
  }

  // -- The run from one item on ---------------------------------------------------------------------------

  lemma RunLiteral(x: Source, t: seq<byte>, below: Stack)
    requires Within(x, below)
    ensures Run(x, Push(Literal(t), below)) == Joined(t, Run(x, below))
  {
    hide Joined;
  }

  lemma RunScalar(x: Source, e: Entry, t: seq<byte>, below: Stack)
    requires Within(x, below) && e.start <= e.end <= |x.body| && ValueStep(x, e) == Emit(t)
    ensures Run(x, Push(Value(e), below)) == Joined(t, Run(x, below))
  {
    hide Joined, ValueStep;
  }

  lemma RunOpen(x: Source, e: Entry, start: nat, below: Stack)
    requires Within(x, below) && e.start <= e.end <= |x.body| && ValueStep(x, e) == Open(start)
    ensures start <= e.end
    ensures Run(x, Push(Value(e), below)) == Run(x, Push(Container(start, e.end, false), below))
  {
    OpensAligned(x, e);
    hide Joined, ValueStep, ReadContainer, Pushed;
  }

  lemma OpensAligned(x: Source, e: Entry)
    requires e.start <= e.end <= |x.body| && ValueStep(x, e).Open?
    ensures e.tag == 5 && Padded(x, e.start, e.end) && ValueStep(x, e).start == Boundary(e.start) <= e.end
  {
    hide PlainText, StorageText, JsonNumber, AsciiBytes, Boundary, Aligned;
    PaddedIs(x, e.start, e.end);
  }

  lemma RunContainer(x: Source, start: nat, end: nat, root: bool, shape: Shape, below: Stack)
    requires Within(x, below) && start <= end <= |x.body| && ReadContainer(x, start, end, root) == Some(shape)
    ensures ShapeValid(shape) && Within(x, Pushed(shape, below))
    ensures Run(x, Push(Container(start, end, root), below)) == Joined(Opening(shape), Run(x, Pushed(shape, below)))
  {
    ContainerShrinks(x, start, end, root, below);
    hide Joined, ReadContainer, Pushed, Opening, ShapeValid;
  }

  lemma RunComma(x: Source, first: bool, stack: Stack)
    requires Within(x, stack)
    ensures Within(x, WithComma(first, stack))
    ensures Run(x, WithComma(first, stack)) == Joined(Comma(first), Run(x, stack))
  {
    hide Run, AsciiBytes;
    if first {
      if Run(x, stack).Some? { assert [] + Run(x, stack).value == Run(x, stack).value; }
    } else {
      RunLiteral(x, AsciiBytes(","), stack);
    }
  }

  // -- Every held document is rendered as its text -----------------------------------------------------------

  lemma {:induction false} RunValue(x: Source, e: Entry, v: Json, below: Stack)
    requires HoldsValue(x, e, v) && Within(x, below)
    ensures Run(x, Push(Value(e), below)) == Joined(Print(v), Run(x, below))
    decreases v, 2
  {
    hide Run, Print, Joined, HoldsContainer, ValueStep;
    if v.Array? || v.Object? {
      OpensNested(x, e, v);
      RunOpen(x, e, Boundary(e.start), below);
      RunHeld(x, Boundary(e.start), e.end, false, v, below);
    } else {
      ScalarStep(x, e, v);
      RunScalar(x, e, Print(v), below);
    }
  }

  lemma {:induction false} RunHeld(x: Source, start: nat, end: nat, root: bool, v: Json, below: Stack)
    requires HoldsContainer(x, start, end, v) && Within(x, below) && start <= end <= |x.body|
    ensures Run(x, Push(Container(start, end, root), below)) == Joined(Print(v), Run(x, below))
    decreases v, 1
  {
    hide Run, Joined, HoldsEntries, AsciiBytes, ReadContainer, HoldsItems, Within;
    var entries :| HoldsEntries(x, start, end, entries, v);
    ItemsHeld(x, start, end, entries, v);
    ContainerReads(x, start, end, root, entries, v);
    RunContainer(x, start, end, root, ShapeOf(v, entries), below);
    if v.Array? {
      RunItems(x, entries, 0, v.items, below);
      JoinedTwice(AsciiBytes("["), PrintItems(v.items, true), Run(x, below));
    } else {
      RunMembers(x, v.keys, entries, 0, v.values, below);
      JoinedTwice(AsciiBytes("{"), PrintMembers(v.keys, 0, v.values), Run(x, below));
    }
  }

  lemma ItemsHeld(x: Source, start: nat, end: nat, entries: seq<Entry>, v: Json)
    requires HoldsEntries(x, start, end, entries, v)
    ensures v.Array? || (v.Object? && 2 * |v.keys| == |entries|)
    ensures HoldsItems(x, entries, if v.Array? then 0 else |v.keys|, if v.Array? then v.items else v.values)
  {
    hide HoldsItems, Tiles, HoldsKeys, U32;
  }

  lemma {:induction false} RunItems(x: Source, entries: seq<Entry>, i: nat, items: List, below: Stack)
    requires i <= |entries| && HoldsItems(x, entries, i, items) && Within(x, below)
    requires Within(x, ItemsFrom(entries, i, below))
    ensures Run(x, ItemsFrom(entries, i, below)) == Joined(PrintItems(items, i == 0), Run(x, below))
    decreases items
  {
    hide Run, Joined, HoldsValue, AsciiBytes, Print;
    if i == |entries| {
      RunLiteral(x, AsciiBytes("]"), below);
    } else {
      var v, later := items.head, ItemsFrom(entries, i + 1, below);
      assert Within(x, later) && Within(x, Push(Value(entries[i]), later));
      RunItems(x, entries, i + 1, items.tail, below);
      RunValue(x, entries[i], v, later);
      RunComma(x, i == 0, Push(Value(entries[i]), later));
      JoinedTwice(Print(v), PrintItems(items.tail, false), Run(x, below));
      JoinedTwice(Comma(i == 0), Print(v) + PrintItems(items.tail, false), Run(x, below));
    }
  }

  lemma {:induction false} RunMembers(x: Source, keys: seq<seq<byte>>, entries: seq<Entry>, i: nat, values: List,
      below: Stack)
    requires i <= |keys| && 2 * |keys| == |entries| && HoldsItems(x, entries, |keys| + i, values) && Within(x, below)
    requires Within(x, MembersFrom(keys, entries, i, below))
    ensures Run(x, MembersFrom(keys, entries, i, below)) == Joined(PrintMembers(keys, i, values), Run(x, below))
    decreases values
  {
    hide Run, Joined, HoldsValue, AsciiBytes, Print, Quote;
    if i == |keys| {
      RunLiteral(x, AsciiBytes("}"), below);
    } else {
      var v, e, later := values.head, entries[|keys| + i], MembersFrom(keys, entries, i + 1, below);
      MemberWithin(x, keys, entries, i, below);
      RunMembers(x, keys, entries, i + 1, values.tail, below);
      RunValue(x, e, v, later);
      RunNamed(x, keys, i, Push(Value(e), later));
      JoinedTwice(Print(v), PrintMembers(keys, i + 1, values.tail), Run(x, below));
      JoinedTwice(Label(keys, i), Print(v) + PrintMembers(keys, i + 1, values.tail), Run(x, below));
      JoinedTwice(Comma(i == 0), Label(keys, i) + (Print(v) + PrintMembers(keys, i + 1, values.tail)), Run(x, below));
    }
  }

  function Named(keys: seq<seq<byte>>, i: nat, stack: Stack): Stack
    requires i < |keys|
  {
    Push(Literal(Quote(keys[i])), Push(Literal(AsciiBytes(":")), stack))
  }

  lemma MemberWithin(x: Source, keys: seq<seq<byte>>, entries: seq<Entry>, i: nat, below: Stack)
    requires i < |keys| && 2 * |keys| == |entries| && Within(x, MembersFrom(keys, entries, i, below))
    ensures var later := MembersFrom(keys, entries, i + 1, below);
      Within(x, later) && Within(x, Push(Value(entries[|keys| + i]), later)) &&
      MembersFrom(keys, entries, i, below) == WithComma(i == 0, Named(keys, i, Push(Value(entries[|keys| + i]), later)))
  {
    hide AsciiBytes, Quote;
    var later := MembersFrom(keys, entries, i + 1, below);
    var value := Push(Value(entries[|keys| + i]), later);
    var colon := Push(Literal(AsciiBytes(":")), value);
    var named := Named(keys, i, value);
    assert MembersFrom(keys, entries, i, below) == WithComma(i == 0, named);
    assert Within(x, named);
    assert Within(x, colon);
    assert Within(x, value);
  }

  lemma RunNamed(x: Source, keys: seq<seq<byte>>, i: nat, stack: Stack)
    requires i < |keys| && Within(x, stack)
    ensures Within(x, WithComma(i == 0, Named(keys, i, stack)))
    ensures Run(x, WithComma(i == 0, Named(keys, i, stack))) == Joined(Comma(i == 0),
      Joined(Label(keys, i), Run(x, stack)))
  {
    hide Run, Joined, AsciiBytes, Quote, WithComma, Comma;
    var colon := Push(Literal(AsciiBytes(":")), stack);
    RunLiteral(x, AsciiBytes(":"), stack);
    RunLiteral(x, Quote(keys[i]), colon);
    JoinedTwice(Quote(keys[i]), AsciiBytes(":"), Run(x, stack));
    RunComma(x, i == 0, Named(keys, i, stack));
  }

  // -- Whatever is rendered is a held document ----------------------------------------------------------------

  lemma {:induction false} KeysHeld(x: Source, entries: seq<Entry>, i: nat, n: nat, k: nat)
    requires i <= n <= |entries| && EntriesWithin(x, entries) && ReadKeys(x, entries, i, n).Some? && k < n - i
    ensures HoldsKey(x, entries[i + k], ReadKeys(x, entries, i, n).value[k])
    ensures i + k > 0 ==> KeyBefore(KeyAt(x, entries[i + k - 1]), ReadKeys(x, entries, i, n).value[k])
    decreases n - i
  {
    hide PlainText, KeyBefore;
    if k == 0 {
      AtSlice(x.body, entries[i].start, KeyAt(x, entries[i]));
    } else {
      KeysHeld(x, entries, i + 1, n, k - 1);
    }
  }

  lemma AllKeysHeld(x: Source, entries: seq<Entry>, n: nat)
    requires n <= |entries| && EntriesWithin(x, entries) && ReadKeys(x, entries, 0, n).Some?
    ensures HoldsKeys(x, entries, ReadKeys(x, entries, 0, n).value)
  {
    hide PlainText, KeyBefore, ReadKeys, HoldsKey;
    var keys := ReadKeys(x, entries, 0, n).value;
    forall i | 0 <= i < n ensures HoldsKey(x, entries[i], keys[i]) { KeysHeld(x, entries, 0, n, i); }
    forall i | 0 < i < n ensures KeyBefore(keys[i - 1], keys[i]) {
      KeysHeld(x, entries, 0, n, i);
      KeysHeld(x, entries, 0, n, i - 1);
      KeyIsSlice(x, entries[i - 1], keys[i - 1]);
    }
  }

  lemma HeaderHeld(x: Source, start: nat, end: nat, root: bool) returns (count: nat, size: nat, entries: seq<Entry>)
    requires start <= end <= |x.body| && ReadContainer(x, start, end, root).Some?
    ensures EntriesWithin(x, entries)
    ensures var shape := ReadContainer(x, start, end, root).value;
      Header(x, start, end, if shape.Scalar? then 5 else if shape.Elements? then 4 else 2, count, size, entries) &&
      (shape.Scalar? ==> root && size == count == 1 && shape.value == entries[0] && entries[0].tag != 5) &&
      (shape.Elements? ==> shape.entries == entries && size == count) &&
      (shape.Members? ==> shape.entries == entries && size == 2 * count && |shape.keys| == count &&
                          ReadKeys(x, entries, 0, count) == Some(shape.keys))
  {
    hide U32, Scan, ReadKeys, Tiles, EntriesWithin;
    var w := U32(x.order, x.body, start);
    count := w % LENGTHS;
    size := if w / LENGTHS == 2 then 2 * count else count;
    var data := start + 4 + 4 * size;
    entries := Scan(x, start + 4, size, data, 0, end).value;
    ScanTiles(x, start + 4, size, data, 0, end);
    ScanWithin(x, start + 4, size, data, end);
  }

  lemma {:induction false} ValueHeld(x: Source, e: Entry, below: Stack) returns (v: Json)
    requires e.start <= e.end <= |x.body| && Within(x, below) && Run(x, Push(Value(e), below)).Some?
    ensures HoldsValue(x, e, v) && Run(x, below).Some?
    decreases e.end - e.start, 1
  {
    hide Run, ValueStep, HoldsContainer, PlainText;
    RunDefined(x, e, below);
    if ValueStep(x, e).Emit? {
      v := ScalarHeld(x, e);
      RunScalar(x, e, ValueStep(x, e).text, below);
    } else {
      OpensAligned(x, e);
      RunOpen(x, e, Boundary(e.start), below);
      v := ContainerHeld(x, Boundary(e.start), e.end, false, below);
    }
  }

  lemma RunDefined(x: Source, e: Entry, below: Stack)
    requires e.start <= e.end <= |x.body| && Within(x, below) && Run(x, Push(Value(e), below)).Some?
    ensures !ValueStep(x, e).Reject?
  {
    hide ValueStep;
  }

  lemma ContainerDefined(x: Source, start: nat, end: nat, root: bool, below: Stack)
    requires start <= end <= |x.body| && Within(x, below) && Run(x, Push(Container(start, end, root), below)).Some?
    ensures ReadContainer(x, start, end, root).Some?
  {
    hide ReadContainer;
  }

  // Unless a scalar at the root, the container is an array or object.
  lemma {:induction false} ContainerHeld(x: Source, start: nat, end: nat, root: bool, below: Stack) returns (v: Json)
    requires start <= end <= |x.body| && Within(x, below) && Run(x, Push(Container(start, end, root), below)).Some?
    ensures Run(x, below).Some?
    ensures ReadContainer(x, start, end, root).Some?
    ensures v.Array? || v.Object? ==> HoldsContainer(x, start, end, v)
    ensures !(v.Array? || v.Object?) ==> root && exists e :: Header(x, start, end, 5, 1, 1, [e]) && HoldsValue(x, e, v)
    decreases end - start, 0
  {
    hide Run, ReadContainer, Header, HoldsItems, HoldsValue, HoldsContainer, Pushed, Within, ItemsFrom, MembersFrom,
      Contiguous;
    ContainerDefined(x, start, end, root, below);
    var shape := ReadContainer(x, start, end, root).value;
    RunContainer(x, start, end, root, shape, below);
    var count, size, entries := HeaderHeld(x, start, end, root);
    HeaderTiles(x, start, end, if shape.Scalar? then 5 else if shape.Elements? then 4 else 2, count, size, entries);
    PushedOf(shape, below);
    if shape.Elements? {
      var items := ItemsAccepted(x, entries, 0, start + 4 + 4 * size, end, below);
      ItemsLength(x, entries, 0, items);
      v := Array(items);
      EntriesOfArray(x, start, end, entries, items);
    } else if shape.Members? {
      AllKeysHeld(x, entries, count);
      var values := MembersAccepted(x, shape.keys, entries, 0, start + 4 + 4 * size, end, below);
      v := Object(shape.keys, values);
      EntriesOfObject(x, start, end, entries, shape.keys, values);
    } else {
      FromFirst(entries, start + 4 + 4 * size, end, 0);
      v := ScalarAccepted(x, start, end, entries[0], below);
      assert entries == [entries[0]];
    }
  }

  lemma EntriesOfArray(x: Source, start: nat, end: nat, entries: seq<Entry>, items: List)
    requires Header(x, start, end, 4, Length(items), Length(items), entries) && HoldsItems(x, entries, 0, items)
    ensures HoldsContainer(x, start, end, Array(items))
  {
    hide Header, HoldsItems;
    assert HoldsEntries(x, start, end, entries, Array(items));
  }

  lemma EntriesOfObject(x: Source, start: nat, end: nat, entries: seq<Entry>, keys: seq<seq<byte>>, values: List)
    requires Header(x, start, end, 2, |keys|, 2 * |keys|, entries) && HoldsKeys(x, entries, keys)
    requires HoldsItems(x, entries, |keys|, values)
    ensures HoldsContainer(x, start, end, Object(keys, values))
  {
    hide Header, HoldsItems, HoldsKeys;
    assert HoldsEntries(x, start, end, entries, Object(keys, values));
  }

  lemma PushedOf(shape: Shape, below: Stack)
    requires ShapeValid(shape)
    ensures shape.Scalar? ==> Pushed(shape, below) == Push(Value(shape.value), below)
    ensures shape.Elements? ==> Pushed(shape, below) == ItemsFrom(shape.entries, 0, below)
    ensures shape.Members? ==> Pushed(shape, below) == MembersFrom(shape.keys, shape.entries, 0, below)
  {
    hide ItemsFrom, MembersFrom;
  }

  lemma HeaderTiles(x: Source, start: nat, end: nat, flags: nat, count: nat, size: nat, entries: seq<Entry>)
    requires Header(x, start, end, flags, count, size, entries)
    ensures |entries| == size && count < LENGTHS && end <= |x.body| && Contiguous(entries, start + 4 + 4 * size, end)
  {
    hide U32, Contiguous, Described;
  }

  lemma ScalarAccepted(x: Source, start: nat, end: nat, e: Entry, below: Stack) returns (v: Json)
    requires start + 4 <= e.start <= e.end <= end <= |x.body| && Within(x, below) && e.tag != 5
    requires Run(x, Push(Value(e), below)).Some?
    ensures HoldsValue(x, e, v) && !v.Array? && !v.Object? && Run(x, below).Some?
  {
    hide Run, ValueStep, HoldsValue;
    RunDefined(x, e, below);
    if ValueStep(x, e).Open? { OpensAligned(x, e); }
    v := ScalarHeld(x, e);
    RunScalar(x, e, ValueStep(x, e).text, below);
  }

  lemma {:induction false} ItemsLength(x: Source, entries: seq<Entry>, i: nat, items: List)
    requires HoldsItems(x, entries, i, items)
    ensures Length(items) == |entries| - i
    decreases items
  {
    hide HoldsValue;
    if items.Cons? { ItemsLength(x, entries, i + 1, items.tail); }
  }

  lemma {:induction false} ItemsAccepted(x: Source, entries: seq<Entry>, i: nat, data: nat, end: nat, below: Stack)
    returns (items: List)
    requires Contiguous(entries, data, end) && end <= |x.body| && i <= |entries| && Within(x, below)
    requires Within(x, ItemsFrom(entries, i, below)) && Run(x, ItemsFrom(entries, i, below)).Some?
    ensures HoldsItems(x, entries, i, items) && Run(x, below).Some?
    decreases end - data, 2, |entries| - i
  {
    hide Run, HoldsValue, AsciiBytes, Contiguous;
    if i == |entries| {
      items := Nil;
      RunLiteral(x, AsciiBytes("]"), below);
    } else {
      FromFirst(entries, data, end, i);
      var later := ItemsFrom(entries, i + 1, below);
      assert Within(x, later) && Within(x, Push(Value(entries[i]), later));
      RunComma(x, i == 0, Push(Value(entries[i]), later));
      var v := ValueHeld(x, entries[i], later);
      var rest := ItemsAccepted(x, entries, i + 1, data, end, below);
      items := Cons(v, rest);
    }
  }

  lemma {:induction false} MembersAccepted(x: Source, keys: seq<seq<byte>>, entries: seq<Entry>, i: nat, data: nat,
      end: nat, below: Stack)
    returns (values: List)
    requires Contiguous(entries, data, end) && end <= |x.body| && i <= |keys| && 2 * |keys| == |entries|
    requires Within(x, below)
    requires Within(x, MembersFrom(keys, entries, i, below)) && Run(x, MembersFrom(keys, entries, i, below)).Some?
    ensures HoldsItems(x, entries, |keys| + i, values) && Run(x, below).Some?
    decreases end - data, 2, |keys| - i
  {
    hide Run, HoldsValue, AsciiBytes, Contiguous, Quote;
    if i == |keys| {
      values := Nil;
      RunLiteral(x, AsciiBytes("}"), below);
    } else {
      var e := entries[|keys| + i];
      FromFirst(entries, data, end, |keys| + i);
      var later := MembersFrom(keys, entries, i + 1, below);
      MemberWithin(x, keys, entries, i, below);
      RunNamed(x, keys, i, Push(Value(e), later));
      var v := ValueHeld(x, e, later);
      var rest := MembersAccepted(x, keys, entries, i + 1, data, end, below);
      values := Cons(v, rest);
    }
  }

  // -- Main results ---------------------------------------------------------------------------------------------

  // Every stored document is rendered as its JSON text.
  lemma RendersDocument(x: Source, v: Json)
    requires Holds(x, v)
    ensures StoredJsonb(x) == Some(Print(v))
  {
    hide Run, Print, Header, HoldsValue, HoldsContainer;
    if v.Array? || v.Object? {
      RunHeld(x, 0, |x.body|, true, v, Empty);
    } else {
      var e :| Header(x, 0, |x.body|, 5, 1, 1, [e]) && HoldsValue(x, e, v);
      ScalarTag(x, e, v);
      ScalarRoot(x, e);
      RunContainer(x, 0, |x.body|, true, Scalar(e), Empty);
      RunValue(x, e, v, Empty);
      JoinedTwice([], Print(v), Run(x, Empty));
    }
    RunNothing(x);
    assert Print(v) + [] == Print(v) && [] + Print(v) == Print(v);
  }

  lemma RunNothing(x: Source)
    ensures Run(x, Empty) == Some([])
  {
  }

  lemma ScalarRoot(x: Source, e: Entry)
    requires e.tag != 5
    ensures Header(x, 0, |x.body|, 5, 1, 1, [e]) ==> ReadContainer(x, 0, |x.body|, true) == Some(Scalar(e))
  {
    hide Header, Scan, U32, HoldsValue, ReadKeys, EntriesWithin;
    if Header(x, 0, |x.body|, 5, 1, 1, [e]) { HeaderScans(x, 0, |x.body|, 5, 1, 1, [e]); }
  }

  lemma ScalarTag(x: Source, e: Entry, v: Json)
    requires HoldsValue(x, e, v) && !v.Array? && !v.Object?
    ensures e.tag != 5
  {
    hide PlainText, HoldsNumber, Padded;
  }

  // And nothing else is: text comes out exactly when the bytes hold a document, and it is that
  // document's text.
  lemma RendersOnlyDocuments(x: Source) returns (v: Json)
    requires StoredJsonb(x).Some?
    ensures Holds(x, v) && StoredJsonb(x) == Some(Print(v))
  {
    hide Run, Header, HoldsValue, HoldsContainer, Print;
    v := ContainerHeld(x, 0, |x.body|, true, Empty);
    RendersDocument(x, v);
  }

  // No object in a document has a key twice, and every number is finite and has a text.
  ghost predicate Sound(v: Json)
    decreases v
  {
    match v
    case Number(n) => n.Finite? && Canonical(n.digits) && Exact(n)
    case Array(items) => AllSound(items)
    case Object(keys, values) =>
      (forall i, j :: 0 <= i < j < |keys| ==> keys[i] != keys[j]) && |keys| == Length(values) && AllSound(values)
    case _ => true
  }

  ghost predicate AllSound(items: List)
    decreases items
  {
    match items case Nil => true case Cons(v, rest) => Sound(v) && AllSound(rest)
  }

  lemma {:induction false} ValueSound(x: Source, e: Entry, v: Json)
    requires HoldsValue(x, e, v)
    ensures Sound(v)
    decreases v, 2
  {
    hide HoldsContainer, Sound, PlainText;
    if v.Array? || v.Object? {
      ContainerSound(x, Boundary(e.start), e.end, v);
    } else {
      ScalarSound(x, e, v);
    }
  }

  lemma ScalarSound(x: Source, e: Entry, v: Json)
    requires !v.Array? && !v.Object? && HoldsValue(x, e, v)
    ensures Sound(v)
  {
    hide ReadNumeric, Exact, Canonical, PlainText, At, Boundary;
    if v.Number? { NumberSound(x, Boundary(e.start), e.end, v.n); }
  }

  lemma NumberSound(x: Source, start: nat, end: nat, n: Stored)
    requires start <= end <= |x.body| && HoldsNumber(x, start, end, n)
    ensures n.Finite? && Canonical(n.digits) && Exact(n)
  {
    hide ReadNumeric, Exact, Canonical;
    Canonicals(x.order, x.body[start..end]);
  }

  lemma {:induction false} ContainerSound(x: Source, start: nat, end: nat, v: Json)
    requires HoldsContainer(x, start, end, v)
    ensures Sound(v)
    decreases v, 1
  {
    hide Header, HoldsItems, Ordered, HoldsKey;
    var entries :| HoldsEntries(x, start, end, entries, v);
    if v.Array? {
      ItemsSound(x, entries, 0, v.items);
    } else {
      ObjectLengths(x, start, end, entries, v);
      ItemsSound(x, entries, |v.keys|, v.values);
      OrderedDistinct(v.keys);
    }
  }

  lemma ObjectLengths(x: Source, start: nat, end: nat, entries: seq<Entry>, v: Json)
    requires HoldsEntries(x, start, end, entries, v) && v.Object?
    ensures |entries| == 2 * |v.keys| && Length(v.values) == |v.keys|
  {
    hide HoldsItems, HoldsKeys, Tiles, U32;
    ItemsLength(x, entries, |v.keys|, v.values);
  }

  lemma {:induction false} ItemsSound(x: Source, entries: seq<Entry>, i: nat, items: List)
    requires HoldsItems(x, entries, i, items)
    ensures AllSound(items)
    decreases items
  {
    hide HoldsValue, Sound;
    if items.Cons? {
      ValueSound(x, entries[i], items.head);
      ItemsSound(x, entries, i + 1, items.tail);
    }
  }

  lemma DocumentSound(x: Source, v: Json)
    requires Holds(x, v)
    ensures Sound(v)
  {
    hide HoldsContainer, Header, HoldsValue, Sound;
    if v.Array? || v.Object? {
      ContainerSound(x, 0, |x.body|, v);
    } else {
      var e :| Header(x, 0, |x.body|, 5, 1, 1, [e]) && HoldsValue(x, e, v);
      ScalarSound(x, e, v);
    }
  }

  // -- One document per buffer --------------------------------------------------------------------------------

  lemma {:induction false} ValueUnique(x: Source, e: Entry, v: Json, w: Json)
    requires HoldsValue(x, e, v) && HoldsValue(x, e, w)
    ensures v == w
    decreases v, 2
  {
    hide HoldsContainer, PlainText, ReadNumeric, Exact;
    if v.Array? || v.Object? {
      ContainerUnique(x, Boundary(e.start), e.end, v, w);
    } else if v.Text? {
      AtSlice(x.body, e.start, v.s);
      AtSlice(x.body, e.start, w.s);
    }
  }

  lemma EntriesScan(x: Source, start: nat, end: nat, entries: seq<Entry>, v: Json)
    requires HoldsEntries(x, start, end, entries, v)
    ensures ReadContainer(x, start, end, false) == Some(ShapeOf(v, entries)) && start <= end <= |x.body|
    ensures HoldsItems(x, entries, if v.Array? then 0 else |v.keys|, if v.Array? then v.items else v.values)
  {
    hide ReadContainer, HoldsItems, Header, HoldsKeys;
    ContainerReads(x, start, end, false, entries, v);
    ItemsHeld(x, start, end, entries, v);
  }

  lemma {:induction false} ContainerUnique(x: Source, start: nat, end: nat, v: Json, w: Json)
    requires HoldsContainer(x, start, end, v) && HoldsContainer(x, start, end, w)
    ensures v == w
    decreases v, 1
  {
    hide HoldsEntries, ReadContainer, HoldsItems;
    var a :| HoldsEntries(x, start, end, a, v);
    var b :| HoldsEntries(x, start, end, b, w);
    ItemsHeld(x, start, end, a, v);
    ItemsHeld(x, start, end, b, w);
    EntriesScan(x, start, end, a, v);
    EntriesScan(x, start, end, b, w);
    ItemsUnique(x, a, if v.Array? then 0 else |v.keys|, if v.Array? then v.items else v.values,
                if w.Array? then w.items else w.values);
  }

  lemma {:induction false} ItemsUnique(x: Source, entries: seq<Entry>, i: nat, a: List, b: List)
    requires HoldsItems(x, entries, i, a) && HoldsItems(x, entries, i, b)
    ensures a == b
    decreases a
  {
    hide HoldsValue;
    if a.Cons? {
      ValueUnique(x, entries[i], a.head, b.head);
      ItemsUnique(x, entries, i + 1, a.tail, b.tail);
    }
  }

  // -- The native encoder -----------------------------------------------------------------------------------------

  ghost predicate Encodable(utf8: bool, v: Json)
    decreases v
  {
    match v
    case Text(s) => PlainText(utf8, s)
    case Number(n) => FitsLong(n) && Exact(n) && 2 * |n.digits| + 8 < LENGTHS
    case Array(items) => Length(items) < LENGTHS && AllEncodable(utf8, items)
    case Object(keys, values) =>
      |keys| == Length(values) < LENGTHS && Ordered(keys) && AllEncodable(utf8, values) &&
      forall i :: 0 <= i < |keys| ==> PlainText(utf8, keys[i])
    case _ => true
  }

  ghost predicate AllEncodable(utf8: bool, items: List)
    decreases items
  {
    match items case Nil => true case Cons(v, rest) => Encodable(utf8, v) && AllEncodable(utf8, rest)
  }

  function TagOf(v: Json): (tag: nat)
    ensures tag <= 5
  {
    match v
    case Text(_) => 0
    case Number(_) => 1
    case Bool(b) => if b then 3 else 2
    case Null => 4
    case _ => 5
  }

  function Padding(at: nat): (b: seq<byte>)
    ensures |b| == Boundary(at) - at
  {
    seq(Boundary(at) - at, i => 0)
  }

  // The short numeric form when it has room, behind a four-byte header.
  ghost function PutNumber(order: ByteOrder, n: Stored): seq<byte>
  {
    if !FitsLong(n) || 2 * |n.digits| + 8 >= LENGTHS then []
    else Framed(order, false, if FitsShort(n) then PutShort(order, n) else PutLong(order, n))
  }

  // The bytes of a value whose room starts at position `at`.
  ghost function EncodeValue(order: ByteOrder, at: nat, v: Json): seq<byte>
    decreases v, 1
  {
    match v
    case Text(s) => s
    case Number(n) => Padding(at) + PutNumber(order, n)
    case Array(_) => Padding(at) + EncodeContainer(order, Boundary(at), v)
    case Object(_, _) => Padding(at) + EncodeContainer(order, Boundary(at), v)
    case _ => []
  }

  ghost function EncodeItems(order: ByteOrder, at: nat, items: List): seq<byte>
    decreases items
  {
    match items
    case Nil => []
    case Cons(v, rest) =>
      var b := EncodeValue(order, at, v);
      b + EncodeItems(order, at + |b|, rest)
  }

  ghost function ItemEntries(order: ByteOrder, at: nat, items: List): seq<Entry>
    decreases items
  {
    match items
    case Nil => []
    case Cons(v, rest) =>
      var end := at + |EncodeValue(order, at, v)|;
      [Entry(TagOf(v), at, end)] + ItemEntries(order, end, rest)
  }

  function EncodeKeys(keys: seq<seq<byte>>): seq<byte>
  {
    if keys == [] then [] else keys[0] + EncodeKeys(keys[1..])
  }

  function KeyEntries(at: nat, keys: seq<seq<byte>>): (r: seq<Entry>)
    ensures |r| == |keys|
    decreases |keys|
  {
    if keys == [] then [] else [Entry(0, at, at + |keys[0]|)] + KeyEntries(at + |keys[0]|, keys[1..])
  }

  function Low28(n: nat): (w: nat)
    ensures w < LENGTHS
  {
    if n < LENGTHS then n else 0
  }

  // Every 32nd word holds an end offset, the others a length.
  function EntryWord(e: Entry, i: nat, data: nat): (w: nat)
    requires e.tag <= 5 && data <= e.start <= e.end
    ensures w < 16 * LENGTHS
  {
    e.tag * LENGTHS + if i % 32 == 0 then 8 * LENGTHS + Low28(e.end - data) else Low28(e.end - e.start)
  }

  ghost function EncodeWords(order: ByteOrder, entries: seq<Entry>, i: nat, data: nat): seq<byte>
    decreases |entries|
  {
    if entries == [] || !(entries[0].tag <= 5 && data <= entries[0].start <= entries[0].end) then []
    else PutU32(order, EntryWord(entries[0], i, data)) + EncodeWords(order, entries[1..], i + 1, data)
  }

  ghost function EncodeContainer(order: ByteOrder, at: nat, v: Json): seq<byte>
    decreases v, 0
  {
    match v
    case Array(items) =>
      var data := at + 4 + 4 * Length(items);
      Assemble(order, 4, Length(items), ItemEntries(order, data, items), data, EncodeItems(order, data, items))
    case Object(keys, values) =>
      var data := at + 4 + 8 * |keys|;
      var next := data + |EncodeKeys(keys)|;
      Assemble(order, 2, |keys|, KeyEntries(data, keys) + ItemEntries(order, next, values), data,
               EncodeKeys(keys) + EncodeItems(order, next, values))
    case _ => []
  }

  ghost function Assemble(order: ByteOrder, flags: nat, count: nat, entries: seq<Entry>, data: nat,
      bytes: seq<byte>): seq<byte>
    requires flags < 16
  {
    PutU32(order, flags * LENGTHS + Low28(count)) + EncodeWords(order, entries, 0, data) + bytes
  }

  ghost function Encode(order: ByteOrder, v: Json): seq<byte>
  {
    if v.Array? || v.Object? then EncodeContainer(order, 0, v)
    else
      var b := EncodeValue(order, 8, v);
      Assemble(order, 5, 1, [Entry(TagOf(v), 8, 8 + |b|)], 8, b)
  }

  // -- What the encoder writes is held ------------------------------------------------------------------------

  lemma {:induction false} WordsTile(x: Source, at: nat, entries: seq<Entry>, i: nat, data: nat, from: nat, end: nat)
    requires Contiguous(entries, from, end) && data <= from && end - data < LENGTHS
    requires forall k :: 0 <= k < |entries| ==> entries[k].tag <= 5
    requires At(x.body, at, EncodeWords(x.order, entries, i, data))
    ensures Tiles(x, at, entries, data, from, end)
    decreases |entries|
  {
    hide PutU32, U32, EntryWord, Tiles, At, Describes, Contiguous;
    if entries == [] {
      NothingWritten(x, at, data, from, end);
    } else {
      var e := entries[0];
      HeadBounds(entries, from, end);
      var w := EntryWord(e, i, data);
      AtSplit(x.body, at, PutU32(x.order, w), EncodeWords(x.order, entries[1..], i + 1, data));
      WrittenWord(x, at, w);
      ContiguousTail(entries, from, end);
      WordsTile(x, at + 4, entries[1..], i + 1, data, e.end, end);
      WordDescribes(e, i, data);
      TilesCons(x, at, e, entries[1..], data, end);
      assert entries == [e] + entries[1..];
    }
  }

  lemma HeadBounds(entries: seq<Entry>, from: nat, end: nat)
    requires Contiguous(entries, from, end) && entries != []
    ensures entries[0].start == from && from <= entries[0].end <= end
  {
  }

  lemma NothingWritten(x: Source, at: nat, data: nat, from: nat, end: nat)
    requires At(x.body, at, []) && data <= from && Contiguous([], from, end)
    ensures Tiles(x, at, [], data, from, end)
  {
  }

  lemma WrittenWord(x: Source, at: nat, w: nat)
    requires w < 16 * LENGTHS && At(x.body, at, PutU32(x.order, w))
    ensures at + 4 <= |x.body| && U32(x.order, x.body, at) == w
  {
    U32At(x.order, x.body, at, w);
  }

  lemma WordDescribes(e: Entry, i: nat, data: nat)
    requires e.tag <= 5 && data <= e.start <= e.end && e.end - data < LENGTHS
    ensures Describes(EntryWord(e, i, data), e, data)
  {
  }

  // Entries planned for consecutive pieces.
  predicate Planned(entries: seq<Entry>, at: nat, end: nat)
  {
    Contiguous(entries, at, end) && forall k :: 0 <= k < |entries| ==> entries[k].tag <= 5
  }

  lemma PlannedCons(e: Entry, rest: seq<Entry>, end: nat)
    requires Planned(rest, e.end, end) && e.start <= e.end && e.tag <= 5
    ensures Planned([e] + rest, e.start, end)
  {
    ContiguousCons(e, rest, end);
    hide Contiguous;
  }

  lemma NothingPlanned(at: nat)
    ensures Planned([], at, at)
  {
  }

  lemma {:induction false} ItemsPlanned(order: ByteOrder, at: nat, items: List)
    ensures Planned(ItemEntries(order, at, items), at, at + |EncodeItems(order, at, items)|)
    ensures |ItemEntries(order, at, items)| == Length(items)
    decreases items
  {
    hide EncodeValue, Planned;
    if items.Nil? {
      assert Planned([], at, at) by { NothingPlanned(at); }
    } else {
      var end := at + |EncodeValue(order, at, items.head)|;
      ItemsPlanned(order, end, items.tail);
      PlannedCons(Entry(TagOf(items.head), at, end), ItemEntries(order, end, items.tail), at +
                  |EncodeItems(order, at, items)|);
    }
  }

  lemma {:induction false} KeysPlanned(at: nat, keys: seq<seq<byte>>, rest: seq<Entry>, end: nat)
    requires Planned(rest, at + |EncodeKeys(keys)|, end)
    ensures Planned(KeyEntries(at, keys) + rest, at, end)
    decreases |keys|
  {
    hide Planned;
    if keys == [] {
      assert KeyEntries(at, keys) + rest == rest;
    } else {
      var e := Entry(0, at, at + |keys[0]|);
      KeysPlanned(e.end, keys[1..], rest, end);
      PlannedCons(e, KeyEntries(e.end, keys[1..]) + rest, end);
      assert KeyEntries(at, keys) + rest == [e] + (KeyEntries(e.end, keys[1..]) + rest);
    }
  }

  // The pieces of an assembled container are where the reader looks for them.
  lemma AssembledHeader(x: Source, at: nat, flags: nat, count: nat, entries: seq<Entry>, data: nat, bytes: seq<byte>)
    requires flags < 16 && count < LENGTHS && Planned(entries, data, data + |bytes|) && data == at + 4 + 4 * |entries|
    requires |bytes| < LENGTHS && At(x.body, at, Assemble(x.order, flags, count, entries, data, bytes))
    ensures data + |bytes| <= |x.body| && Header(x, at, data + |bytes|, flags, count, |entries|, entries)
    ensures At(x.body, data, bytes)
    ensures |Assemble(x.order, flags, count, entries, data, bytes)| == 4 + 4 * |entries| + |bytes|
  {
    hide PutU32, U32, EncodeWords, Tiles, Contiguous, At;
    var head, words := PutU32(x.order, flags * LENGTHS + count), EncodeWords(x.order, entries, 0, data);
    WordsLength(x.order, entries, 0, data, data, data + |bytes|);
    AtSplit(x.body, at, head + words, bytes);
    AtSplit(x.body, at, head, words);
    WrittenWord(x, at, flags * LENGTHS + count);
    WordsTile(x, at + 4, entries, 0, data, data, data + |bytes|);
    AtFits(x.body, data, bytes);
  }

  lemma AtFits(s: seq<byte>, at: nat, part: seq<byte>)
    requires At(s, at, part)
    ensures at + |part| <= |s|
  {
  }

  lemma {:induction false} WordsLength(order: ByteOrder, entries: seq<Entry>, i: nat, data: nat, from: nat, end: nat)
    requires Planned(entries, from, end) && data <= from
    ensures |EncodeWords(order, entries, i, data)| == 4 * |entries|
    decreases |entries|
  {
    hide PutU32, EntryWord, Contiguous;
    if entries != [] {
      ContiguousTail(entries, from, end);
      HeadBounds(entries, from, end);
      WordsLength(order, entries[1..], i + 1, data, entries[0].end, end);
    }
  }

  lemma {:induction false} EncodedValue(x: Source, at: nat, v: Json)
    requires Encodable(x.utf8, v) && At(x.body, at, EncodeValue(x.order, at, v))
    requires |EncodeValue(x.order, at, v)| < LENGTHS
    ensures HoldsValue(x, Entry(TagOf(v), at, at + |EncodeValue(x.order, at, v)|), v)
    decreases v, 2
  {
    hide At, PlainText, Padding, PutNumber, EncodeContainer, HoldsContainer, HoldsNumber, Padded, Encodable;
    var b := EncodeValue(x.order, at, v);
    AtFits(x.body, at, b);
    if v.Array? || v.Object? {
      var c := EncodeContainer(x.order, Boundary(at), v);
      AtSplit(x.body, at, Padding(at), c);
      ContainerNotEmpty(x.order, Boundary(at), v);
      PaddingIsZero(x, at, at + |b|);
      EncodedContainer(x, Boundary(at), v);
    } else if v.Number? {
      AtSplit(x.body, at, Padding(at), PutNumber(x.order, v.n));
      EncodableNumber(x.utf8, v);
      EncodedNumber(x, Boundary(at), v.n);
      PaddingIsZero(x, at, at + |b|);
    } else {
      EncodableText(x.utf8, v);
    }
  }

  lemma EncodableText(utf8: bool, v: Json)
    requires Encodable(utf8, v)
    ensures v.Text? ==> PlainText(utf8, v.s)
  {
  }

  lemma EncodableNumber(utf8: bool, v: Json)
    requires Encodable(utf8, v) && v.Number?
    ensures FitsLong(v.n) && Exact(v.n) && 2 * |v.n.digits| + 8 < LENGTHS
  {
  }

  lemma ContainerNotEmpty(order: ByteOrder, at: nat, v: Json)
    requires v.Array? || v.Object?
    ensures |EncodeContainer(order, at, v)| >= 4
  {
    hide EncodeItems, EncodeKeys, ItemEntries, KeyEntries, EncodeWords, PutU32;
  }

  lemma PaddingIsZero(x: Source, at: nat, end: nat)
    requires At(x.body, at, Padding(at)) && Boundary(at) < end <= |x.body|
    ensures Padded(x, at, end)
  {
    var p := Padding(at);
    forall i | at <= i < Boundary(at) ensures x.body[i] == 0 {
      assert x.body[at + (i - at)] == p[i - at];
    }
  }

  lemma EncodedNumber(x: Source, at: nat, n: Stored)
    requires FitsLong(n) && Exact(n) && 2 * |n.digits| + 8 < LENGTHS && At(x.body, at, PutNumber(x.order, n))
    ensures |PutNumber(x.order, n)| > 0 && at + |PutNumber(x.order, n)| <= |x.body|
    ensures HoldsNumber(x, at, at + |PutNumber(x.order, n)|, n)
  {
    hide PutShort, PutLong, ReadBody, FitsShort, FitsLong, Exact, HeaderLength, At, Framed;
    var body := if FitsShort(n) then PutShort(x.order, n) else PutLong(x.order, n);
    if FitsShort(n) { ShortReads(x.order, n); } else { LongReads(x.order, n); }
    BodyLength(x.order, n);
    FramedHeader(x.order, false, body);
    AtSlice(x.body, at, PutNumber(x.order, n));
    AtFits(x.body, at, PutNumber(x.order, n));
  }

  lemma BodyLength(order: ByteOrder, n: Stored)
    requires FitsLong(n)
    ensures n.Finite? && |PutLong(order, n)| <= 2 * |n.digits| + 4
    ensures FitsShort(n) ==> |PutShort(order, n)| <= 2 * |n.digits| + 4
  {
    hide PutDigits, PutU16, PutI16;
  }

  lemma {:induction false} EncodedItems(x: Source, at: nat, items: List, entries: seq<Entry>, i: nat)
    requires AllEncodable(x.utf8, items) && At(x.body, at, EncodeItems(x.order, at, items))
    requires |EncodeItems(x.order, at, items)| < LENGTHS
    requires i <= |entries| && entries[i..] == ItemEntries(x.order, at, items)
    ensures HoldsItems(x, entries, i, items)
    decreases items, 2
  {
    hide At, Encodable, EncodeValue, HoldsValue;
    if items.Cons? {
      var b := EncodeValue(x.order, at, items.head);
      AtSplit(x.body, at, b, EncodeItems(x.order, at + |b|, items.tail));
      EncodedValue(x, at, items.head);
      var e := Entry(TagOf(items.head), at, at + |b|);
      assert entries[i..][0] == e;
      assert entries[i + 1..] == entries[i..][1..];
      assert ([e] + ItemEntries(x.order, at + |b|, items.tail))[1..] == ItemEntries(x.order, at + |b|, items.tail);
      EncodedItems(x, at + |b|, items.tail, entries, i + 1);
    }
  }

  lemma {:induction false} EncodedKeys(x: Source, at: nat, keys: seq<seq<byte>>, i: nat)
    requires At(x.body, at, EncodeKeys(keys)) && i < |keys| && PlainText(x.utf8, keys[i])
    ensures HoldsKey(x, KeyEntries(at, keys)[i], keys[i])
    decreases |keys|
  {
    hide At, PlainText;
    AtSplit(x.body, at, keys[0], EncodeKeys(keys[1..]));
    if i > 0 {
      EncodedKeys(x, at + |keys[0]|, keys[1..], i - 1);
    }
  }

  lemma {:induction false} EncodedContainer(x: Source, at: nat, v: Json)
    requires (v.Array? || v.Object?) && Encodable(x.utf8, v)
    requires At(x.body, at, EncodeContainer(x.order, at, v)) && |EncodeContainer(x.order, at, v)| < LENGTHS
    ensures HoldsContainer(x, at, at + |EncodeContainer(x.order, at, v)|, v)
    decreases v, 1
  {
    hide At, Assemble, EncodeItems, EncodeKeys, ItemEntries, KeyEntries, AllEncodable, HoldsItems, Header, HoldsKeys,
      Planned, PlainText, Ordered;
    if v.Array? {
      var data := at + 4 + 4 * Length(v.items);
      var bytes, entries := EncodeItems(x.order, data, v.items), ItemEntries(x.order, data, v.items);
      ItemsPlanned(x.order, data, v.items);
      AssembledLength(x.order, 4, Length(v.items), entries, data, bytes);
      AssembledHeader(x, at, 4, Length(v.items), entries, data, bytes);
      assert entries[0..] == entries;
      EncodedItems(x, data, v.items, entries, 0);
      assert HoldsEntries(x, at, data + |bytes|, entries, v);
    } else {
      EncodedObject(x, at, v.keys, v.values);
    }
  }

  lemma AssembledLength(order: ByteOrder, flags: nat, count: nat, entries: seq<Entry>, data: nat, bytes: seq<byte>)
    requires flags < 16
    ensures |Assemble(order, flags, count, entries, data, bytes)| >= |bytes|
  {
    hide PutU32, EncodeWords;
  }

  lemma {:induction false} EncodedObject(x: Source, at: nat, keys: seq<seq<byte>>, values: List)
    requires Encodable(x.utf8, Object(keys, values))
    requires At(x.body, at, EncodeContainer(x.order, at, Object(keys, values)))
    requires |EncodeContainer(x.order, at, Object(keys, values))| < LENGTHS
    ensures HoldsContainer(x, at, at + |EncodeContainer(x.order, at, Object(keys, values))|, Object(keys, values))
    decreases values, 3
  {
    hide At, Assemble, EncodeItems, EncodeKeys, ItemEntries, KeyEntries, AllEncodable, HoldsItems, Header, HoldsKeys,
      Planned, PlainText, Ordered;
    var data := at + 4 + 8 * |keys|;
    var next := data + |EncodeKeys(keys)|;
    var items := ItemEntries(x.order, next, values);
    var bytes, entries := EncodeKeys(keys) + EncodeItems(x.order, next, values), KeyEntries(data, keys) + items;
    ItemsPlanned(x.order, next, values);
    KeysPlanned(data, keys, items, data + |bytes|);
    AssembledLength(x.order, 2, |keys|, entries, data, bytes);
    AssembledHeader(x, at, 2, |keys|, entries, data, bytes);
    AtSplit(x.body, data, EncodeKeys(keys), EncodeItems(x.order, next, values));
    assert entries[|keys|..] == items;
    EncodedItems(x, next, values, entries, |keys|);
    KeysEncoded(x, data, keys, entries, items);
    EntriesOfObject(x, at, data + |bytes|, entries, keys, values);
  }

  lemma KeysEncoded(x: Source, data: nat, keys: seq<seq<byte>>, entries: seq<Entry>, items: seq<Entry>)
    requires At(x.body, data, EncodeKeys(keys)) && entries == KeyEntries(data, keys) + items && Ordered(keys)
    requires forall i :: 0 <= i < |keys| ==> PlainText(x.utf8, keys[i])
    ensures HoldsKeys(x, entries, keys)
  {
    hide At, PlainText, Ordered, HoldsKey, EncodeKeys, KeyEntries;
    forall i | 0 <= i < |keys| ensures HoldsKey(x, entries[i], keys[i]) {
      EncodedKeys(x, data, keys, i);
    }
  }

  // The text of a document does not depend on how a server stored it.
  lemma RoundTrip(order: ByteOrder, utf8: bool, v: Json)
    requires Encodable(utf8, v) && |Encode(order, v)| < LENGTHS
    ensures Holds(Source(Encode(order, v), order, utf8), v)
    ensures StoredJsonb(Source(Encode(order, v), order, utf8)) == Some(Print(v))
  {
    hide EncodeContainer, EncodeValue, HoldsContainer, HoldsValue, StoredJsonb, Print, Assemble, Header, Encodable,
      Planned, At;
    var x := Source(Encode(order, v), order, utf8);
    AtWhole(x.body);
    if v.Array? || v.Object? {
      EncodedContainer(x, 0, v);
    } else {
      var b := EncodeValue(order, 8, v);
      var e := Entry(TagOf(v), 8, 8 + |b|);
      assert Planned([e], 8, 8 + |b|) by { PlannedOne(e); }
      AssembledLength(order, 5, 1, [e], 8, b);
      AssembledHeader(x, 0, 5, 1, [e], 8, b);
      EncodedValue(x, 8, v);
    }
    RendersDocument(x, v);
  }

  lemma PlannedOne(e: Entry)
    requires e.tag <= 5 && e.start <= e.end
    ensures Planned([e], e.start, e.end)
  {
  }

  // -- The decoder's loops ----------------------------------------------------------------------------------------

  lemma RunUnfolds(x: Source, e: Entry, below: Stack)
    requires e.start <= e.end <= |x.body| && Within(x, below)
    ensures ValueStep(x, e).Reject? ==> Run(x, Push(Value(e), below)) == None
    ensures ValueStep(x, e).Open? ==> ValueStep(x, e).start <= e.end
  {
    hide Joined, PlainText, NumberStep, ReadContainer, Pushed;
    if ValueStep(x, e).Open? { OpensAligned(x, e); }
  }

  lemma RunFails(x: Source, start: nat, end: nat, root: bool, below: Stack)
    requires start <= end <= |x.body| && Within(x, below) && ReadContainer(x, start, end, root).None?
    ensures Run(x, Push(Container(start, end, root), below)) == None
  {
    hide ReadContainer;
  }

  // The work loop: what is written followed by what the stack will write never changes.
  method Render(x: Source) returns (r: Option<seq<byte>>)
    ensures r == StoredJsonb(x)
  {
    hide Run, ValueStep, ReadContainer, Pushed, Opening, Joined;
    var output: seq<byte> := [];
    var work := Push(Container(0, |x.body|, true), Empty);
    assert Run(x, work) == Joined([], Run(x, work)) by { JoinedEnds([], Run(x, work)); }
    while work.Push?
      invariant Within(x, work)
      invariant StoredJsonb(x) == Joined(output, Run(x, work))
      decreases Weight(work)
    {
      var item, below := work.top, work.below;
      match item {
        case Literal(text) =>
          RunLiteral(x, text, below);
          JoinedTwice(output, text, Run(x, below));
          output, work := output + text, below;
        case Value(entry) =>
          RunUnfolds(x, entry, below);
          var step := ValueStep(x, entry);
          if step.Reject? {
            JoinedEnds(output, None);
            return None;
          }
          if step.Emit? {
            RunScalar(x, entry, step.text, below);
            JoinedTwice(output, step.text, Run(x, below));
            output, work := output + step.text, below;
          } else {
            RunOpen(x, entry, step.start, below);
            OpensAligned(x, entry);
            work := Push(Container(step.start, entry.end, false), below);
          }
        case Container(start, end, root) =>
          var shape := OpenContainer(x, start, end, root);
          if shape.None? {
            RunFails(x, start, end, root, below);
            JoinedEnds(output, None);
            return None;
          }
          RunContainer(x, start, end, root, shape.value, below);
          ContainerShrinks(x, start, end, root, below);
          JoinedTwice(output, Opening(shape.value), Run(x, Pushed(shape.value, below)));
          output := output + Opening(shape.value);
          work := PushContents(shape.value, below);
      }
    }
    RunNothing(x);
    JoinedEnds(output, None);
    r := Some(output);
  }

  method OpenContainer(x: Source, start: nat, end: nat, root: bool) returns (r: Option<Shape>)
    requires start <= end <= |x.body|
    ensures r == ReadContainer(x, start, end, root)
  {
    hide U32, Scan, ReadKeys, EntriesWithin;
    if end - start < 4 { return None; }
    var header := U32(x.order, x.body, start);
    var count, flags := header % LENGTHS, header / LENGTHS;
    var isObject, isScalar := flags == 2, flags == 5;
    var size := if isObject then 2 * count else count;
    var data := start + 4 + 4 * size;
    if (!isObject && flags != 4 && !isScalar) || (isScalar && (!root || count != 1)) || data > end { return None; }
    var entries := ScanEntries(x, start + 4, size, data, end);
    if entries.None? { return None; }
    ScanWithin(x, start + 4, size, data, end);
    if isScalar {
      return if entries.value[0].tag == 5 then None else Some(Scalar(entries.value[0]));
    }
    if isObject {
      var keys := CollectKeys(x, entries.value, count);
      return if keys.None? then None else Some(Members(keys.value, entries.value));
    }
    r := Some(Elements(entries.value));
  }

  lemma ScanStep(x: Source, at: nat, left: nat, data: nat, offset: nat, end: nat)
    requires 0 < left && at + 4 * left <= data && data + offset <= end <= |x.body|
    ensures var w := U32(x.order, x.body, at); var next := EntryNext(w, offset);
      Scan(x, at, left, data, offset, end) ==
        if EntryTag(w) > 5 || next < offset || data + next > end then None
        else Joined([Entry(EntryTag(w), data + offset, data + next)], Scan(x, at + 4, left - 1, data, next, end))
  {
    hide U32, EntryTag, EntryNext;
  }

  lemma ScanDone(x: Source, at: nat, data: nat, offset: nat, end: nat)
    requires at <= data && data + offset <= end <= |x.body|
    ensures Scan(x, at, 0, data, offset, end) == if data + offset == end then Some([]) else None
  {
  }

  method ScanEntries(x: Source, at: nat, size: nat, data: nat, end: nat) returns (r: Option<seq<Entry>>)
    requires at + 4 * size == data && data <= end <= |x.body|
    ensures r == Scan(x, at, size, data, 0, end)
  {
    hide Scan, Joined, U32, EntryTag, EntryNext;
    var entries: seq<Entry> := [];
    var offset := 0;
    JoinedEnds([], Scan(x, at, size, data, 0, end));
    for i := 0 to size
      invariant data + offset <= end
      invariant Scan(x, at, size, data, 0, end) == Joined(entries, Scan(x, at + 4 * i, size - i, data, offset, end))
    {
      ScanStep(x, at + 4 * i, size - i, data, offset, end);
      var word := U32(x.order, x.body, at + 4 * i);
      var tag, next := EntryTag(word), EntryNext(word, offset);
      if tag > 5 || next < offset || data + next > end {
        JoinedEnds(entries, None);
        return None;
      }
      JoinedTwice(entries, [Entry(tag, data + offset, data + next)],
                  Scan(x, at + 4 * (i + 1), size - i - 1, data, next, end));
      entries := entries + [Entry(tag, data + offset, data + next)];
      offset := next;
    }
    ScanDone(x, at + 4 * size, data, offset, end);
    JoinedEnds(entries, None);
    JoinedEnds(entries, None);
    r := if data + offset == end then Some(entries) else None;
  }

  lemma KeysStep(x: Source, entries: seq<Entry>, i: nat, n: nat)
    requires i < n <= |entries| && EntriesWithin(x, entries)
    ensures var key := KeyAt(x, entries[i]);
      ReadKeys(x, entries, i, n) ==
        if entries[i].tag != 0 || !PlainText(x.utf8, key) then None
        else if i > 0 && !KeyBefore(KeyAt(x, entries[i - 1]), key) then None
        else Joined([key], ReadKeys(x, entries, i + 1, n))
  {
    hide PlainText, KeyBefore, KeyAt;
  }

  lemma KeysDone(x: Source, entries: seq<Entry>, n: nat)
    requires n <= |entries| && EntriesWithin(x, entries)
    ensures ReadKeys(x, entries, n, n) == Some([])
  {
  }

  method CollectKeys(x: Source, entries: seq<Entry>, count: nat) returns (r: Option<seq<seq<byte>>>)
    requires count <= |entries| && EntriesWithin(x, entries)
    ensures r == ReadKeys(x, entries, 0, count)
  {
    hide ReadKeys, Joined, PlainText, KeyBefore;
    var keys: seq<seq<byte>> := [];
    JoinedEnds([], ReadKeys(x, entries, 0, count));
    for i := 0 to count
      invariant ReadKeys(x, entries, 0, count) == Joined(keys, ReadKeys(x, entries, i, count))
    {
      KeysStep(x, entries, i, count);
      JoinedEnds(keys, None);
      var entry := entries[i];
      var key := x.body[entry.start..entry.end];
      if entry.tag != 0 || !PlainText(x.utf8, key) { return None; }
      if i > 0 {
        var previous := entries[i - 1];
        if !KeyBefore(x.body[previous.start..previous.end], key) { return None; }
      }
      JoinedTwice(keys, [key], ReadKeys(x, entries, i + 1, count));
      keys := keys + [key];
    }
    KeysDone(x, entries, count);
    JoinedEnds(keys, None);
    r := Some(keys);
  }

  method PushContents(shape: Shape, below: Stack) returns (work: Stack)
    requires ShapeValid(shape)
    ensures work == Pushed(shape, below)
  {
    hide AsciiBytes, Quote;
    match shape {
      case Scalar(e) => return Push(Value(e), below);
      case Elements(entries) =>
        work := Push(Literal(AsciiBytes("]")), below);
        for i := |entries| downto 0
          invariant work == ItemsFrom(entries, i, below)
        {
          work := Push(Value(entries[i]), work);
          if i > 0 { work := Push(Literal(AsciiBytes(",")), work); }
        }
      case Members(keys, entries) =>
        work := Push(Literal(AsciiBytes("}")), below);
        for i := |keys| downto 0
          invariant work == MembersFrom(keys, entries, i, below)
        {
          work := Push(Value(entries[|keys| + i]), work);
          work := Push(Literal(AsciiBytes(":")), work);
          work := Push(Literal(Quote(keys[i])), work);
          if i > 0 { work := Push(Literal(AsciiBytes(",")), work); }
        }
    }
  }
}
