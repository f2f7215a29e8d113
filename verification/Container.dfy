/** Container constants (src/catalog/container-constant-storage.ts): arrays, rows, ranges and multiranges in
    PostgreSQL's native layout, nested to any depth, read in either byte order and double alignment. */
module Container {
  import opened Bytes
  import opened Parts
  import opened Loops
  import N = Numeric

  // -- The catalog ------------------------------------------------------------------------------------------

  datatype Attribute = Attribute(oid: nat, length: int, alignment: char, dropped: bool)

  // An absent element, range subtype or range type is 0.
  datatype StorageType = StorageType(
    oid: nat, identity: string, kind: char, base: nat, element: nat, rangeSubtype: nat, rangeType: nat,
    length: int, alignment: char, delimiter: string, attributes: seq<Attribute>)

  datatype Dimension = Dimension(lower: int, length: nat)

  datatype Facet<L> =
    | Leaf(leaf: L)
    | Record(fields: seq<Option<Facet<L>>>)
    | Range(flags: nat, bounds: seq<Option<Facet<L>>>)
    | Multirange(ranges: seq<Facet<L>>)
    | Array(nullBitmap: Option<bool>, delimiter: string, dimensions: seq<Dimension>, elements: seq<Option<Facet<L>>>)

  // What a caller asks for: the type whose values are leaves, the types that may hold such a value, and how
  // leaves and other scalars are read. `rank` falls along domains, which makes them acyclic.
  datatype Context<!L> = Context(
    types: map<nat, StorageType>, identity: string, containers: set<nat>, ranges: bool, arrayStorage: bool,
    leaf: (seq<byte>, nat) -> Option<L>, scalar: Option<(seq<byte>, StorageType) -> Option<L>>, rank: nat -> nat)

  ghost predicate Grounded<L(!new)>(c: Context<L>)
  {
    forall oid :: oid in c.types && c.types[oid].kind == 'd' ==> c.rank(c.types[oid].base) < c.rank(oid)
  }

  // -- Layout -----------------------------------------------------------------------------------------------

  datatype Layout = Layout(order: ByteOrder, wide: bool)

  function Align(l: Layout, offset: nat, alignment: char): (r: Option<nat>)
    ensures r.Some? ==> offset <= r.value <= offset + 7
  {
    if alignment == 'c' then Some(offset)
    else if alignment == 's' then Some((offset + 1) / 2 * 2)
    else if alignment == 'i' || (alignment == 'd' && !l.wide) then Some((offset + 3) / 4 * 4)
    else if alignment == 'd' then Some((offset + 7) / 8 * 8)
    else None
  }

  datatype Frame = Frame(length: nat, header: nat, plain: bool)

  predicate IsShort(l: Layout, first: byte) { if l.order.Little? then first % 2 == 1 else first >= 128 }

  // The varlena value at `at`: its length by either header form, and whether it is stored as it is.
  function FrameAt(l: Layout, data: seq<byte>, at: nat): (r: Option<Frame>)
    requires at <= |data|
    ensures r.Some? ==> 0 < r.value.length <= |data| - at && (r.value.header == 1 || (r.value.header == 4 <= r.value.length))
  {
    if at == |data| then None
    else if IsShort(l, data[at]) then
      var length := if l.order.Little? then data[at] / 2 else data[at] % 128;
      if 0 < length <= |data| - at then Some(Frame(length, 1, true)) else None
    else if |data| - at < 4 then None
    else
      var w := U32(l.order, data, at);
      var length := if l.order.Little? then w / 4 else w % 0x4000_0000;
      if 4 <= length <= |data| - at
      then Some(Frame(length, 4, if l.order.Little? then w % 4 == 0 else w < 0x4000_0000)) else None
  }

  // Position of the first zero byte from `at` on.
  function ZeroFrom(data: seq<byte>, at: nat): (r: Option<nat>)
    ensures r.Some? ==> at <= r.value < |data| && data[r.value] == 0
    decreases |data| - at
  {
    if at >= |data| then None else if data[at] == 0 then Some(at) else ZeroFrom(data, at + 1)
  }

  function Take(l: Layout, data: seq<byte>, offset: nat, length: int): (r: Option<seq<byte>>)
    ensures r.Some? ==> 0 < |r.value| <= |data| - offset
  {
    if offset >= |data| then None
    else if length > 0 then if offset + length <= |data| then Some(data[offset..offset + length]) else None
    else if length == -1 then
      match FrameAt(l, data, offset) case None => None case Some(f) => Some(data[offset..offset + f.length])
    else if length == -2 then
      match ZeroFrom(data, offset) case None => None case Some(end) => Some(data[offset..end + 1])
    else None
  }

  function Bit(b: byte, k: nat): bool
    requires k < 8
  {
    match k
    case 0 => b % 2 == 1
    case 1 => b / 2 % 2 == 1
    case 2 => b / 4 % 2 == 1
    case 3 => b / 8 % 2 == 1
    case 4 => b / 16 % 2 == 1
    case 5 => b / 32 % 2 == 1
    case 6 => b / 64 % 2 == 1
    case _ => b / 128 == 1
  }

  // The null bitmap that starts at `at`: is value `i` there?
  predicate BitAt(data: seq<byte>, at: nat, i: nat)
    requires at + i / 8 < |data|
  {
    Bit(data[at + i / 8], i % 8)
  }

  function BitmapLength(count: nat): nat { (count + 7) / 8 }

  predicate ZeroTail(data: seq<byte>, position: nat)
  {
    position <= |data| && |data| - position <= 7 && forall i :: position <= i < |data| ==> data[i] == 0
  }

  // -- The decoder ------------------------------------------------------------------------------------------

  // Types whose bytes the decoder does not look into.
  predicate IsScalar<L>(c: Context<L>, t: StorageType)
  {
    t.identity != c.identity && t.element == 0 && t.kind != 'c' && !(c.ranges && (t.kind == 'r' || t.kind == 'm'))
  }

  predicate Ignored<L>(c: Context<L>, oid: nat)
    requires oid in c.types
  {
    c.types[oid].identity != c.identity && oid !in c.containers && c.scalar.None?
  }

  function OfLeaf<L>(r: Option<L>): Option<Option<Facet<L>>>
  {
    match r case None => None case Some(x) => Some(Some(Leaf(x)))
  }

  // The value with a four-byte header, whichever it was stored with.
  function Unpacked(input: seq<byte>, header: nat): seq<byte>
    requires |input| > 0
  {
    if header == 4 then input else [0, 0, 0, 0] + input[1..]
  }

  // None: not readable. Some(None): readable, and without a leaf.
  ghost function Decode<L(!new)>(c: Context<L>, l: Layout, input: seq<byte>, oid: nat): Option<Option<Facet<L>>>
    requires Grounded(c)
    decreases |input| + 4, c.rank(oid), 9
  {
    if oid !in c.types then None
    else
      var t := c.types[oid];
      if Ignored(c, oid) then Some(None)
      else if t.kind == 'd' then Decode(c, l, input, t.base)
      else if IsScalar(c, t) then
        (match c.scalar case None => Some(None) case Some(read) => OfLeaf(read(input, t)))
      else match FrameAt(l, input, 0)
        case None => None
        case Some(f) =>
          if f.length != |input| || !f.plain then None
          else if t.identity == c.identity then OfLeaf(c.leaf(input, f.header))
          else DecodeContainer(c, l, Unpacked(input, f.header), t)
  }

  ghost function DecodeContainer<L(!new)>(c: Context<L>, l: Layout, data: seq<byte>,
      t: StorageType): Option<Option<Facet<L>>>
    requires Grounded(c)
    decreases |data|, 8
  {
    var r := if c.ranges && t.kind == 'r' then DecodeRange(c, l, data, t)
             else if c.ranges && t.kind == 'm' then DecodeMultirange(c, l, data, t)
             else if t.element != 0 then DecodeArray(c, l, data, t)
             else DecodeRow(c, l, data, t);
    match r case None => None case Some(facet) => Some(Some(facet))
  }

  // -- Arrays --

  function Times(a: nat, b: nat): nat { a * b }

  function ReadShape(l: Layout, data: seq<byte>, vector: bool, dimensions: nat, i: nat,
      count: nat): (r: Option<seq<Dimension>>)
    requires i <= dimensions && 16 + 8 * dimensions <= |data|
    decreases dimensions - i
  {
    if i == dimensions then Some([])
    else
      var length := I32(l.order, data, 16 + 4 * i);
      var lower := I32(l.order, data, 16 + 4 * dimensions + 4 * i);
      if length < 0 || (length == 0 && !vector) || lower + length > 0x8000_0000 ||
          Times(count, length) > 0x7FFF_FFFF then None
      else match ReadShape(l, data, vector, dimensions, i + 1, Times(count, length))
        case None => None
        case Some(rest) => Some([Dimension(lower, length)] + rest)
  }

  // How many elements: one per position of the shape, none without dimensions.
  function Product(shape: seq<Dimension>): nat
  {
    if shape == [] then 1 else Times(shape[0].length, Product(shape[1..]))
  }

  function ElementCount(shape: seq<Dimension>): nat { if shape == [] then 0 else Product(shape) }

  predicate IsVector(t: StorageType) { t.identity == "pg_catalog.int2vector" || t.identity == "pg_catalog.oidvector" }

  ghost function DecodeArray<L(!new)>(c: Context<L>, l: Layout, data: seq<byte>, t: StorageType): Option<Facet<L>>
    requires Grounded(c)
    decreases |data|, 6
  {
    if |data| < 16 || U32(l.order, data, 12) != t.element || t.element !in c.types then None
    else
      var dimensions, offset, element := I32(l.order, data, 4), I32(l.order, data, 8), c.types[t.element];
      if dimensions < 0 || dimensions > 6 || 16 + dimensions * 8 > |data| then None
      else match ReadShape(l, data, IsVector(t), dimensions, 0, 1)
        case None => None
        case Some(shape) =>
          var count, fixed := ElementCount(shape), 16 + dimensions * 8;
          if offset < 0 || (offset != 0 && (offset < fixed + BitmapLength(count) || offset > |data|)) then None
          else match Elements(c, l, data, element, t.element, offset != 0, fixed, 0, count,
                              if offset != 0 then offset else fixed)
            case None => None
            case Some(loaded) =>
              if !ZeroTail(data, loaded.end) then None
              else Some(Array(if c.arrayStorage then Some(offset != 0) else None, element.delimiter, shape,
                              loaded.items))
  }

  ghost function Elements<L(!new)>(
    c: Context<L>, l: Layout, data: seq<byte>, element: StorageType, oid: nat, nulls: bool, fixed: nat, i: nat,
    count: nat, position: nat)
    : Option<Loaded<Option<Facet<L>>>>
    requires Grounded(c) && i <= count && position >= 8 && (nulls ==> fixed + BitmapLength(count) <= |data|)
    decreases |data|, 5, count - i
  {
    if i == count then Some(Loaded([], position))
    else if nulls && !BitAt(data, fixed, i) then
      Before(None, Elements(c, l, data, element, oid, nulls, fixed, i + 1, count, position))
    else match Align(l, position, element.alignment)
      case None => None
      case Some(start) =>
        match Take(l, data, start, element.length)
        case None => None
        case Some(value) =>
          match Decode(c, l, value, oid)
          case None => None
          case Some(facet) =>
            Before(facet, Elements(c, l, data, element, oid, nulls, fixed, i + 1, count, start + |value|))
  }

  // -- Rows --

  // A packed value starts where it stands unless a zero byte announces padding.
  function PackedStart(l: Layout, data: seq<byte>, position: nat, length: int, alignment: char): (r: Option<nat>)
    ensures r.Some? ==> position <= r.value
  {
    if length != -1 || (position < |data| && data[position] == 0) then Align(l, position, alignment) else Some(position)
  }

  ghost function DecodeRow<L(!new)>(c: Context<L>, l: Layout, data: seq<byte>, t: StorageType): Option<Facet<L>>
    requires Grounded(c)
    decreases |data|, 6
  {
    if |data| < 23 || U32(l.order, data, 8) != t.oid then None
    else
      var count, flags, offset := U16(l.order, data, 18) % 2048, U16(l.order, data, 20), data[22];
      var nulls := flags % 2 == 1;
      if count > |t.attributes| || flags / 8 % 2 == 1 || offset < 23 + (if nulls then BitmapLength(count) else 0) ||
          offset > |data|
      then None
      else match Fields(c, l, data, t.attributes, nulls, 0, count, offset)
        case None => None
        case Some(loaded) => if !ZeroTail(data, loaded.end) then None else Some(Record(loaded.items))
  }

  ghost function Fields<L(!new)>(
    c: Context<L>, l: Layout, data: seq<byte>, attributes: seq<Attribute>, nulls: bool, i: nat, count: nat,
    position: nat)
    : Option<Loaded<Option<Facet<L>>>>
    requires Grounded(c) && i <= |attributes| && position >= 8 && (nulls ==> 23 + BitmapLength(count) <= |data|)
    decreases |data|, 5, |attributes| - i
  {
    if i == |attributes| then Some(Loaded([], position))
    else
      var a := attributes[i];
      if i >= count || (nulls && !BitAt(data, 23, i)) then
        var rest := Fields(c, l, data, attributes, nulls, i + 1, count, position);
        if a.dropped then rest else Before(None, rest)
      else match PackedStart(l, data, position, a.length, a.alignment)
        case None => None
        case Some(start) =>
          match Take(l, data, start, a.length)
          case None => None
          case Some(value) =>
            if a.dropped then Fields(c, l, data, attributes, nulls, i + 1, count, start + |value|)
            else match Decode(c, l, value, a.oid)
              case None => None
              case Some(facet) => Before(facet, Fields(c, l, data, attributes, nulls, i + 1, count, start + |value|))
  }

  // -- Ranges and multiranges --

  predicate FlagsValid(flags: nat)
  {
    flags < 32 && (flags % 2 == 1 ==> flags == 1) &&
    !(flags / 8 % 2 == 1 && flags / 2 % 2 == 1) && !(flags / 16 % 2 == 1 && flags / 4 % 2 == 1)
  }

  // Bound 0 is the lower, bound 1 the upper one.
  predicate Infinite(flags: nat, which: nat) { if which == 0 then flags / 8 % 2 == 1 else flags / 16 % 2 == 1 }

  ghost function Bounds<L(!new)>(
    c: Context<L>, l: Layout, data: seq<byte>, subtype: StorageType, flags: nat, which: nat, position: nat, limit: nat)
    : (r: Option<Loaded<Option<Facet<L>>>>)
    requires Grounded(c) && which <= 2 && position >= 8
    ensures r.Some? ==> r.value.end >= position
    decreases |data|, 4, 2 - which
  {
    if which == 2 then Some(Loaded([], position))
    else if Infinite(flags, which) then Before(None, Bounds(c, l, data, subtype, flags, which + 1, position, limit))
    else match PackedStart(l, data, position, subtype.length, subtype.alignment)
      case None => None
      case Some(start) =>
        match Take(l, data, start, subtype.length)
        case None => None
        case Some(value) =>
          if start + |value| > limit then None
          else match Decode(c, l, value, subtype.oid)
            case None => None
            case Some(facet) =>
              Before(facet, Bounds(c, l, data, subtype, flags, which + 1, start + |value|, limit))
  }

  // The bounds of one range; an empty range has none.
  ghost function RangeAt<L(!new)>(c: Context<L>, l: Layout, data: seq<byte>, subtype: StorageType, flags: nat,
      start: nat, limit: nat)
    : (r: Option<Loaded<Option<Facet<L>>>>)
    requires Grounded(c) && start >= 8
    ensures r.Some? ==> r.value.end >= start
    decreases |data|, 5
  {
    if !FlagsValid(flags) then None
    else if flags % 2 == 1 then Some(Loaded([], start))
    else Bounds(c, l, data, subtype, flags, 0, start, limit)
  }

  function SubtypeOf<L>(c: Context<L>, range: StorageType): Option<StorageType>
  {
    if range.rangeSubtype in c.types then Some(c.types[range.rangeSubtype]) else None
  }

  ghost function DecodeRange<L(!new)>(c: Context<L>, l: Layout, data: seq<byte>, t: StorageType): Option<Facet<L>>
    requires Grounded(c)
    decreases |data|, 7
  {
    var subtype := SubtypeOf(c, t);
    if subtype.None? || |data| < 9 || U32(l.order, data, 4) != t.oid then None
    else
      var last := |data| - 1;
      match RangeAt(c, l, data, subtype.value, data[last], 8, last)
      case None => None
      case Some(loaded) => if loaded.end == last then Some(Range(data[last], loaded.items)) else None
  }

  ghost function DecodeMultirange<L(!new)>(c: Context<L>, l: Layout, data: seq<byte>, t: StorageType): Option<Facet<L>>
    requires Grounded(c)
    decreases |data|, 7
  {
    if t.rangeType !in c.types || SubtypeOf(c, c.types[t.rangeType]).None? || |data| < 12 ||
        U32(l.order, data, 4) != t.oid then None
    else
      var subtype := SubtypeOf(c, c.types[t.rangeType]).value;
      var count := U32(l.order, data, 8);
      if count == 0 then
        if Align(l, 12, subtype.alignment) == Some(|data|) then Some(Multirange([])) else None
      else
        var flags := 12 + 4 * (count - 1);
        if count > 0x7FFF_FFFF || flags + count > |data| then None
        else match Align(l, flags + count, subtype.alignment)
          case None => None
          case Some(begin) =>
            if begin > |data| then None
            else match Ranges(c, l, data, subtype, count, begin, 0, begin, 0)
              case None => None
              case Some(ranges) => Some(Multirange(ranges))
  }

  // The word of range `i` restates where it starts: the distance from the range before it, or every
  // fourth time from the first one.
  function StatedStart(w: nat, previous: nat): nat
  {
    if w >= 0x8000_0000 then w % 0x8000_0000 else previous + w
  }

  ghost function Ranges<L(!new)>(
    c: Context<L>, l: Layout, data: seq<byte>, subtype: StorageType, count: nat, begin: nat, i: nat, position: nat,
    previous: nat)
    : Option<seq<Facet<L>>>
    requires Grounded(c) && i <= count && position >= 8 && 0 < count && 12 + 4 * (count - 1) + count <= |data|
    decreases |data|, 6, count - i
  {
    if i == count then if position == |data| then Some([]) else None
    else
      var w := if i == 0 then 0 else U32(l.order, data, 12 + 4 * (i - 1));
      var relative := if i == 0 then 0 else StatedStart(w, previous);
      var flags := data[12 + 4 * (count - 1) + i];
      if i > 0 && ((w >= 0x8000_0000) != (i % 4 == 0) || begin + relative != position) then None
      else if flags % 2 == 1 then None
      else match RangeAt(c, l, data, subtype, flags, position, |data|)
        case None => None
        case Some(loaded) =>
          if Align(l, loaded.end, subtype.alignment).None? then None
          else match Ranges(c, l, data, subtype, count, begin, i + 1, Align(l, loaded.end, subtype.alignment).value,
                            relative)
            case None => None
            case Some(rest) => Some([Range(flags, loaded.items)] + rest)
  }

  // -- Unknown byte order or alignment ----------------------------------------------------------------------

  ghost function Candidate<L(!new)>(c: Context<L>, l: Layout, bytes: seq<byte>, oid: nat): seq<Facet<L>>
    requires Grounded(c)
  {
    var r := Decode(c, l, bytes, oid);
    if r.Some? && r.value.Some? then [r.value.value] else []
  }

  function Layouts(order: Option<ByteOrder>, wide: Option<bool>): seq<Layout>
  {
    var orders := if order.Some? then [order.value] else [Little, Big];
    var widths := if wide.Some? then [wide.value] else [false, true];
    if |orders| == 1 then seq(|widths|, i requires 0 <= i < |widths| => Layout(orders[0], widths[i]))
    else seq(|widths|, i requires 0 <= i < |widths| => Layout(Little, widths[i])) +
         seq(|widths|, i requires 0 <= i < |widths| => Layout(Big, widths[i]))
  }

  ghost function Candidates<L(!new)>(c: Context<L>, layouts: seq<Layout>, bytes: seq<byte>, oid: nat): seq<Facet<L>>
    requires Grounded(c)
  {
    if layouts == [] then [] else Candidate(c, layouts[0], bytes, oid) + Candidates(c, layouts[1..], bytes, oid)
  }

  predicate AllSame<T(==)>(s: seq<T>) { forall i :: 0 <= i < |s| ==> s[i] == s[0] }

  ghost function ContainerConstant<L(!new)>(
    c: Context<L>, order: Option<ByteOrder>, wide: Option<bool>, bytes: seq<byte>, oid: nat): Option<Facet<L>>
    requires Grounded(c)
  {
    var candidates := Candidates(c, Layouts(order, wide), bytes, oid);
    if candidates != [] && AllSame(candidates) then Some(candidates[0]) else None
  }

  // -- Values as a server lays them out ---------------------------------------------------------------------

  // Where a member may stand: its type's length and alignment, and whether a short header may do without
  // the alignment (in rows and ranges, not in arrays).
  datatype Slot = Slot(length: int, alignment: char, packed: bool)

  // `short` picks the one-byte header. The other marks are choices a server has: whether an array carries a
  // null bitmap, unused space before the members (`gap`) and after them (`tail`).
  datatype Value =
    | Raw(bytes: seq<byte>)
    | ArrayValue(short: bool, element: nat, shape: seq<Dimension>, nulls: bool, gap: nat, tail: nat, items: Items)
    | RowValue(short: bool, oid: nat, head: RowHead, tail: nat, items: Items)
    | RangeValue(short: bool, oid: nat, flags: nat, bounds: Items)
    | MultirangeValue(short: bool, oid: nat, alignment: char, ranges: RangeList)

  datatype Items = End | Item(slot: Slot, cell: Option<Value>, rest: Items)

  datatype RangeList = NoRange | OneRange(flags: nat, bounds: Items, rest: RangeList)

  // Header fields of a row the decoder does not use (type modifier, item pointer, other flag bits), and the
  // number of attributes the row was stored with.
  datatype RowHead = RowHead(before: seq<byte>, between: seq<byte>, high: nat, count: nat, mask: nat, gap: nat)

  function Zeros(n: nat): (b: seq<byte>)
    ensures |b| == n && forall i :: 0 <= i < n ==> b[i] == 0
  {
    seq(n, i => 0)
  }

  ghost function Framed(order: ByteOrder, short: bool, body: seq<byte>): seq<byte>
  {
    if |body| + 4 < 0x4000_0000 && (short ==> |body| < 127) then N.Framed(order, short, body) else []
  }

  // The widths a server aligns to; 0 for a letter that is no alignment.
  function Width(l: Layout, alignment: char): (w: nat)
  {
    match alignment
    case 'c' => 1
    case 's' => 2
    case 'i' => 4
    case 'd' => if l.wide then 8 else 4
    case _ => 0
  }

  function Padding(w: nat, p: nat): nat
  {
    if w == 0 then 0 else (w - p % w) % w
  }

  function AlignUp(l: Layout, p: nat, alignment: char): (q: nat)
    ensures p <= q
  {
    p + Padding(Width(l, alignment), p)
  }

  function SlotStart(l: Layout, slot: Slot, p: nat, b: seq<byte>): (q: nat)
    ensures p <= q
  {
    if slot.packed && slot.length == -1 && b != [] && IsShort(l, b[0]) then p else AlignUp(l, p, slot.alignment)
  }

  function Presence(items: Items): seq<bool>
  {
    match items case End => [] case Item(_, cell, rest) => [cell.Some?] + Presence(rest)
  }

  function One(bits: seq<bool>, i: nat, value: byte): byte { if i < |bits| && bits[i] then value else 0 }

  function PutByte(bits: seq<bool>, i: nat): byte
  {
    var low: int := One(bits, i, 1) + One(bits, i + 1, 2) + One(bits, i + 2, 4) + One(bits, i + 3, 8);
    var high: int := One(bits, i + 4, 16) + One(bits, i + 5, 32) + One(bits, i + 6, 64) + One(bits, i + 7, 128);
    low + high
  }

  // Bytes for `count` flags, eight to a byte.
  function Eighths(count: nat): (n: nat)
  {
    if count == 0 then 0 else if count <= 8 then 1 else 1 + Eighths(count - 8)
  }

  lemma {:induction false} EighthsAre(count: nat)
    ensures Eighths(count) == BitmapLength(count)
  {
    if count > 8 { EighthsAre(count - 8); }
  }

  // The first flag of a byte is its lowest bit.
  function PutBits(bits: seq<bool>): (b: seq<byte>)
    ensures |b| == Eighths(|bits|)
  {
    seq(Eighths(|bits|), i requires 0 <= i => PutByte(bits, 8 * i))
  }

  ghost function PutLengths(order: ByteOrder, shape: seq<Dimension>): seq<byte>
  {
    if shape == [] then [] else Put31(order, shape[0].length) + PutLengths(order, shape[1..])
  }

  ghost function PutLowers(order: ByteOrder, shape: seq<Dimension>): seq<byte>
  {
    if shape == [] then [] else Put31(order, shape[0].lower) + PutLowers(order, shape[1..])
  }

  // A signed word; values that do not fit are cut.
  ghost function Put31(order: ByteOrder, v: int): (b: seq<byte>)
    ensures |b| == 4
  {
    PutU32(order, Wrapped(v))
  }

  function Wrapped(v: int): (w: int)
    ensures 0 <= w < 0x1_0000_0000
  {
    if 0 <= v < 0x1_0000_0000 then v
    else if -0x8000_0000 <= v < 0 then v + 0x1_0000_0000
    else 0
  }

  function DataStart(shape: seq<Dimension>, nulls: bool, gap: nat, items: Items): nat
  {
    16 + 8 * |shape| + if nulls then Eighths(|Presence(items)|) + gap else 0
  }

  function RowStart(head: RowHead): nat
  {
    23 + (if head.mask % 2 == 1 then Eighths(head.count) else 0) + head.gap
  }

  // The members from position `p` on, each at the start its slot gives it.
  ghost function EncodeItems(l: Layout, p: nat, items: Items): seq<byte>
    decreases items
  {
    match items
    case End => []
    case Item(slot, cell, rest) =>
      if cell.None? then EncodeItems(l, p, rest)
      else
        var b := Encode(l, cell.value);
        var start := SlotStart(l, slot, p, b);
        Zeros(start - p) + b + EncodeItems(l, start + |b|, rest)
  }

  ghost function EncodeRanges(l: Layout, alignment: char, p: nat, ranges: RangeList): seq<byte>
    decreases ranges
  {
    match ranges
    case NoRange => []
    case OneRange(_, bounds, rest) =>
      var b := EncodeItems(l, p, bounds);
      var next := AlignUp(l, p + |b|, alignment);
      b + Zeros(next - p - |b|) + EncodeRanges(l, alignment, next, rest)
  }

  // Where the ranges start.
  ghost function Starts(l: Layout, alignment: char, p: nat, ranges: RangeList): seq<nat>
    decreases ranges
  {
    match ranges
    case NoRange => []
    case OneRange(_, bounds, rest) =>
      [p] + Starts(l, alignment, AlignUp(l, p + |EncodeItems(l, p, bounds)|, alignment), rest)
  }

  function RangeFlags(ranges: RangeList): seq<byte>
  {
    match ranges case NoRange => [] case OneRange(flags, _, rest) => Flag(flags) + RangeFlags(rest)
  }

  function RangeCount(ranges: RangeList): nat
  {
    match ranges case NoRange => 0 case OneRange(_, _, rest) => 1 + RangeCount(rest)
  }

  // Words for the ranges from the second on: every fourth holds an offset, the others a distance.
  function StartWord(starts: seq<nat>, i: nat): (w: nat)
    requires 0 < i < |starts|
    ensures w < 0x1_0000_0000
  {
    var from := if i % 4 == 0 then starts[0] else starts[i - 1];
    var distance := if from <= starts[i] < from + 0x8000_0000 then starts[i] - from else 0;
    if i % 4 == 0 then 0x8000_0000 + distance else distance
  }

  ghost function PutStarts(order: ByteOrder, starts: seq<nat>, i: nat): seq<byte>
    decreases |starts| - i
  {
    if i == 0 || i >= |starts| then [] else PutU32(order, StartWord(starts, i)) + PutStarts(order, starts, i + 1)
  }

  ghost function ArrayHeader(order: ByteOrder, offset: nat, element: nat, shape: seq<Dimension>): seq<byte>
  {
    Put31(order, |shape|) + Put31(order, offset) + Put31(order, element) + PutLengths(order, shape) +
        PutLowers(order, shape)
  }

  function TableLength(n: nat): nat { if n == 0 then 12 else 12 + 4 * (n - 1) + n }

  // What follows the header of a value, which counts as four bytes.
  ghost function Body(l: Layout, v: Value): seq<byte>
    decreases v, 0
  {
    match v
    case Raw(bytes) => bytes
    case ArrayValue(_, element, shape, nulls, gap, tail, items) =>
      var start := DataStart(shape, nulls, gap, items);
      var bitmap := if nulls then PutBits(Presence(items)) + Zeros(gap) else [];
      ArrayHeader(l.order, if nulls then start else 0, element, shape) + bitmap + EncodeItems(l, start, items) +
          Zeros(tail)
    case RowValue(_, oid, head, tail, items) =>
      var bitmap := if head.mask % 2 == 1 then PutBits(FirstBits(items, head.count)) else [];
      RowHeader(l.order, oid, head) + (bitmap + Zeros(head.gap)) + EncodeItems(l, RowStart(head), items) + Zeros(tail)
    case RangeValue(_, oid, flags, bounds) =>
      Put31(l.order, oid) + EncodeItems(l, 8, bounds) + Flag(flags)
    case MultirangeValue(_, oid, alignment, ranges) =>
      var n := RangeCount(ranges);
      var begin := AlignUp(l, TableLength(n), alignment);
      RangeTable(l.order, oid, ranges, Starts(l, alignment, begin, ranges)) + Zeros(begin - TableLength(n)) +
      EncodeRanges(l, alignment, begin, ranges)
  }

  ghost function RangeTable(order: ByteOrder, oid: nat, ranges: RangeList, starts: seq<nat>): seq<byte>
  {
    Put31(order, oid) + Put31(order, RangeCount(ranges)) + PutStarts(order, starts, 1) + RangeFlags(ranges)
  }

  function Low16(v: nat): (w: nat)
    ensures w < 0x1_0000
  {
    if v < 0x1_0000 then v else 0
  }

  function Flag(flags: nat): (b: seq<byte>)
    ensures |b| == 1
  {
    [if flags < 256 then flags else 0]
  }

  function FirstBits(items: Items, count: nat): seq<bool>
  {
    var all := Presence(items);
    if count <= |all| then all[..count] else all
  }

  ghost function RowHeader(order: ByteOrder, oid: nat, head: RowHead): seq<byte>
  {
    head.before + Put31(order, oid) + head.between + PutU16(order, Low16(head.high * 2048 + head.count)) +
    PutU16(order, Low16(head.mask)) + Flag(RowStart(head))
  }

  ghost function Encode(l: Layout, v: Value): seq<byte>
    decreases v, 1
  {
    if v.Raw? then v.bytes else Framed(l.order, v.short, Body(l, v))
  }

  // -- Values of a type ---------------------------------------------------------------------------------------

  // The header in front of a value stored as it is: one byte or four that state its length. 0: none.
  ghost function HeaderOf(order: ByteOrder, b: seq<byte>): nat
  {
    if 0 < |b| <= 127 && b[0] == (if order.Little? then 2 * |b| + 1 else 128 + |b|) then 1
    else if 4 <= |b| < 0x4000_0000 && At(b, 0, PutHeader(order, |b|)) then 4
    else 0
  }

  // A compressed value has a mark beside its length.
  ghost predicate Compressed(order: ByteOrder, b: seq<byte>)
  {
    4 <= |b| < 0x4000_0000 && At(b, 0, PutU32(order, if order.Little? then 4 * |b| + 2 else 0x4000_0000 + |b|))
  }

  // Bytes a column or an element of such a length holds.
  ghost predicate Sized(l: Layout, length: int, b: seq<byte>)
  {
    b != [] &&
    if length > 0 then |b| == length
    else if length == -1 then HeaderOf(l.order, b) > 0 || Compressed(l.order, b)
    else length == -2 && b[|b| - 1] == 0 && forall i :: 0 <= i < |b| - 1 ==> b[i] != 0
  }

  ghost predicate Fits(l: Layout, v: Value)
  {
    !v.Raw? && if v.short then |Body(l, v)| < 127 else |Body(l, v)| + 4 < 0x4000_0000
  }

  // What a type is to a caller: of no interest, another name for its base type, unstructured, the one asked
  // for, or structured.
  datatype Role = Skipped | Renamed | Opaque | Sought | OfRange | OfMultirange | OfArray | OfRow

  function RoleOf<L>(c: Context<L>, oid: nat): Role
    requires oid in c.types
  {
    var t := c.types[oid];
    if t.identity == c.identity then if t.kind == 'd' then Renamed else Sought
    else if oid !in c.containers && c.scalar.None? then Skipped
    else if t.kind == 'd' then Renamed
    else if c.ranges && t.kind == 'r' then OfRange
    else if c.ranges && t.kind == 'm' then OfMultirange
    else if t.element != 0 then OfArray
    else if t.kind == 'c' then OfRow
    else Opaque
  }

  lemma RoleIs<L>(c: Context<L>, oid: nat)
    requires oid in c.types
    ensures var role, t := RoleOf(c, oid), c.types[oid];
      (Ignored(c, oid) <==> role.Skipped?) &&
      (role.Renamed? <==> !Ignored(c, oid) && t.kind == 'd') &&
      (!Ignored(c, oid) && t.kind != 'd' ==> (IsScalar(c, t) <==> role.Opaque?)) &&
      (!Ignored(c, oid) && t.kind != 'd' ==> (t.identity == c.identity <==> role.Sought?)) &&
      (Structured(role) ==>
        (role.OfRange? <==> c.ranges && t.kind == 'r') && (role.OfMultirange? <==> c.ranges && t.kind == 'm') &&
        (role.OfArray? <==> !(c.ranges && (t.kind == 'r' || t.kind == 'm')) && t.element != 0))
  {
  }

  predicate Structured(role: Role) { role.OfRange? || role.OfMultirange? || role.OfArray? || role.OfRow? }

  ghost predicate Conforms<L(!new)>(c: Context<L>, l: Layout, oid: nat, v: Value)
    requires Grounded(c)
    decreases v, c.rank(oid)
  {
    oid in c.types &&
    var t := c.types[oid];
    match RoleOf(c, oid)
    case Skipped => true
    case Renamed => Conforms(c, l, t.base, v)
    case Opaque => v.Raw? && (c.scalar.Some? ==> c.scalar.value(v.bytes, t).Some?)
    case Sought => v.Raw? && HeaderOf(l.order, v.bytes) > 0 && c.leaf(v.bytes, HeaderOf(l.order, v.bytes)).Some?
    case OfRange =>
      Fits(l, v) && v.RangeValue? && v.oid == t.oid < 0x1_0000_0000 && t.rangeSubtype in c.types &&
      RangeConforms(c, l, c.types[t.rangeSubtype], v.flags, v.bounds)
    case OfMultirange =>
      Fits(l, v) && v.MultirangeValue? && v.oid == t.oid < 0x1_0000_0000 && t.rangeType in c.types &&
      var range := c.types[t.rangeType];
      range.rangeSubtype in c.types && v.alignment == c.types[range.rangeSubtype].alignment &&
      Width(l, v.alignment) > 0 && RangesConform(c, l, c.types[range.rangeSubtype], v.ranges)
    case OfArray =>
      Fits(l, v) && v.ArrayValue? && v.element == t.element < 0x1_0000_0000 && t.element in c.types && v.tail <= 7 &&
      ShapeConforms(t.identity in ["pg_catalog.int2vector", "pg_catalog.oidvector"], v.shape) &&
      |Presence(v.items)| == CellCount(v.shape) && (v.nulls || AllPresent(v.items)) &&
      ElementsConform(c, l, t.element, v.items)
    case OfRow =>
      Fits(l, v) && v.RowValue? && v.oid == t.oid < 0x1_0000_0000 && v.tail <= 7 &&
      HeadConforms(v.head, t.attributes, v.items) && FieldsConform(c, l, t.attributes, 0, v.items)
  }

  function CellCount(shape: seq<Dimension>): nat
  {
    if shape == [] then 0
    else if |shape| == 1 then shape[0].length
    else shape[0].length * CellCount(shape[1..])
  }

  lemma {:induction false} CellsCounted(shape: seq<Dimension>)
    ensures CellCount(shape) == ElementCount(shape)
  {
    if |shape| == 1 {
      assert Product(shape[1..]) == 1;
    } else if shape != [] {
      CellsCounted(shape[1..]);
    }
  }

  predicate AllPresent(items: Items)
  {
    match items case End => true case Item(_, cell, rest) => cell.Some? && AllPresent(rest)
  }

  predicate ShapeConforms(vector: bool, shape: seq<Dimension>)
  {
    |shape| <= 6 && Countable(shape, 1) &&
    forall i :: 0 <= i < |shape| ==>
      -0x8000_0000 <= shape[i].lower < 0x8000_0000 && shape[i].lower + shape[i].length <= 0x8000_0000 &&
      shape[i].length < 0x8000_0000 && (vector || shape[i].length > 0)
  }

  predicate Countable(shape: seq<Dimension>, count: nat)
  {
    shape == [] ||
    (Times(count, shape[0].length) <= 0x7FFF_FFFF && Countable(shape[1..], Times(count, shape[0].length)))
  }

  // The row has a bitmap if it needs one, was stored with `count` attributes, and its data starts within reach.
  predicate HeadConforms(head: RowHead, attributes: seq<Attribute>, items: Items)
  {
    |head.before| == 4 && |head.between| == 6 && head.high < 32 && head.count < 2048 && head.count <= |attributes| &&
    head.mask < 0x1_0000 && head.mask / 8 % 2 == 0 && RowStart(head) <= 255 && |Presence(items)| == |attributes| &&
    forall i :: 0 <= i < |attributes| ==>
      if i < head.count then head.mask % 2 == 1 || Presence(items)[i] else !Presence(items)[i]
  }

  ghost predicate ElementsConform<L(!new)>(c: Context<L>, l: Layout, oid: nat, items: Items)
    requires Grounded(c) && oid in c.types
    decreases items, 0
  {
    match items
    case End => true
    case Item(slot, cell, rest) =>
      slot == Slot(c.types[oid].length, c.types[oid].alignment, false) &&
      (cell.Some? ==> CellConforms(c, l, slot, oid, cell.value)) && ElementsConform(c, l, oid, rest)
  }

  ghost predicate FieldsConform<L(!new)>(c: Context<L>, l: Layout, attributes: seq<Attribute>, i: nat, items: Items)
    requires Grounded(c)
    decreases items, 0
  {
    match items
    case End => i >= |attributes|
    case Item(slot, cell, rest) =>
      i < |attributes| && slot == Slot(attributes[i].length, attributes[i].alignment, true) &&
      (cell.Some? ==> SlotFits(l, slot, cell.value) && (attributes[i].dropped || Conforms(c, l, attributes[i].oid, cell.value))) &&
      FieldsConform(c, l, attributes, i + 1, rest)
  }

  ghost predicate SlotFits(l: Layout, slot: Slot, v: Value)
  {
    Width(l, slot.alignment) > 0 && Sized(l, slot.length, Encode(l, v))
  }

  ghost predicate CellConforms<L(!new)>(c: Context<L>, l: Layout, slot: Slot, oid: nat, v: Value)
    requires Grounded(c)
    decreases v, c.rank(oid) + 1
  {
    SlotFits(l, slot, v) && Conforms(c, l, oid, v)
  }

  // The marks of a range that is not empty: 2 and 4 for an included lower and upper bound, 8 and 16 for a
  // missing one.
  predicate BoundMarks(flags: nat, lower: bool, upper: bool)
  {
    if lower && upper then flags == 0 || flags == 2 || flags == 4 || flags == 6
    else if lower then flags == 16 || flags == 18
    else if upper then flags == 8 || flags == 12
    else flags == 24
  }

  // Two bounds, or no bounds at all.
  ghost predicate RangeConforms<L(!new)>(c: Context<L>, l: Layout, subtype: StorageType, flags: nat, bounds: Items)
    requires Grounded(c)
    decreases bounds, 1
  {
    if bounds.End? then flags == 1
    else bounds.rest.Item? && bounds.rest.rest.End? &&
         BoundMarks(flags, bounds.cell.Some?, bounds.rest.cell.Some?) && BoundsConform(c, l, subtype, bounds)
  }

  ghost predicate BoundsConform<L(!new)>(c: Context<L>, l: Layout, subtype: StorageType, bounds: Items)
    requires Grounded(c)
    decreases bounds, 0
  {
    match bounds
    case End => true
    case Item(slot, cell, rest) =>
      slot == Slot(subtype.length, subtype.alignment, true) &&
      (cell.Some? ==> CellConforms(c, l, slot, subtype.oid, cell.value)) && BoundsConform(c, l, subtype, rest)
  }

  ghost predicate RangesConform<L(!new)>(c: Context<L>, l: Layout, subtype: StorageType, ranges: RangeList)
    requires Grounded(c)
    decreases ranges
  {
    match ranges
    case NoRange => true
    case OneRange(flags, bounds, rest) =>
      flags % 2 == 0 && RangeConforms(c, l, subtype, flags, bounds) && RangesConform(c, l, subtype, rest)
  }

  // -- The facet of a value -------------------------------------------------------------------------------------

  ghost function FacetOf<L(!new)>(c: Context<L>, l: Layout, oid: nat, v: Value): Option<Facet<L>>
    requires Grounded(c)
    decreases v, c.rank(oid)
  {
    if oid !in c.types then None
    else
      var t := c.types[oid];
      match RoleOf(c, oid)
      case Skipped => None
      case Renamed => FacetOf(c, l, t.base, v)
      case Opaque => if v.Raw? && c.scalar.Some? then LeafOf(c.scalar.value(v.bytes, t)) else None
      case Sought => if v.Raw? then LeafOf(c.leaf(v.bytes, HeaderOf(l.order, v.bytes))) else None
      case OfRange =>
        if v.RangeValue? && t.rangeSubtype in c.types
        then Some(Range(v.flags, ElementFacets(c, l, c.types[t.rangeSubtype].oid, v.bounds)))
        else None
      case OfMultirange =>
        if v.MultirangeValue? && t.rangeType in c.types && c.types[t.rangeType].rangeSubtype in c.types
        then Some(Multirange(RangeFacets(c, l, c.types[c.types[t.rangeType].rangeSubtype].oid, v.ranges)))
        else None
      case OfArray =>
        if v.ArrayValue? && t.element in c.types
        then Some(Array(if c.arrayStorage then Some(v.nulls) else None, c.types[t.element].delimiter, v.shape,
                        ElementFacets(c, l, t.element, v.items)))
        else None
      case OfRow => if v.RowValue? then Some(Record(FieldFacets(c, l, t.attributes, 0, v.items))) else None
  }

  function LeafOf<L>(r: Option<L>): Option<Facet<L>>
  {
    match r case None => None case Some(x) => Some(Leaf(x))
  }

  ghost function ElementFacets<L(!new)>(c: Context<L>, l: Layout, oid: nat, items: Items): seq<Option<Facet<L>>>
    requires Grounded(c)
    decreases items
  {
    match items
    case End => []
    case Item(_, cell, rest) =>
      [if cell.None? then None else FacetOf(c, l, oid, cell.value)] + ElementFacets(c, l, oid, rest)
  }

  ghost function FieldFacets<L(!new)>(c: Context<L>, l: Layout, attributes: seq<Attribute>, i: nat,
      items: Items): seq<Option<Facet<L>>>
    requires Grounded(c)
    decreases items
  {
    match items
    case End => []
    case Item(_, cell, rest) =>
      if i < |attributes| && attributes[i].dropped then FieldFacets(c, l, attributes, i + 1, rest)
      else
        [if cell.None? || i >= |attributes| then None else FacetOf(c, l, attributes[i].oid, cell.value)] +
        FieldFacets(c, l, attributes, i + 1, rest)
  }

  ghost function RangeFacets<L(!new)>(c: Context<L>, l: Layout, oid: nat, ranges: RangeList): seq<Facet<L>>
    requires Grounded(c)
    decreases ranges
  {
    match ranges
    case NoRange => []
    case OneRange(flags, bounds, rest) => [Range(flags, ElementFacets(c, l, oid, bounds))] + RangeFacets(c, l, oid, rest)
  }

  // -- Cutting one member out -----------------------------------------------------------------------------------

  lemma U32Moves(order: ByteOrder, data: seq<byte>, at: nat, b: seq<byte>)
    requires At(data, at, b) && |b| >= 4
    ensures U32(order, data, at) == U32(order, b, 0)
  {
    assert data[at + 0] == b[0] && data[at + 1] == b[1] && data[at + 2] == b[2] && data[at + 3] == b[3];
  }

  lemma FirstMoves(data: seq<byte>, at: nat, b: seq<byte>)
    requires At(data, at, b) && b != []
    ensures at < |data| && data[at] == b[0]
  {
    assert data[at + 0] == b[0];
  }

  // A value with a header is framed as long as it is.
  lemma HeaderFrames(l: Layout, b: seq<byte>)
    requires Sized(l, -1, b)
    ensures FrameAt(l, b, 0).Some? && FrameAt(l, b, 0).value.length == |b|
    ensures var h := HeaderOf(l.order, b); h > 0 ==> FrameAt(l, b, 0) == Some(Frame(|b|, h, true))
  {
    hide U32, At, PutU32, FrameAt;
    if HeaderOf(l.order, b) == 1 {
      OneByteFrame(l, b);
    } else if HeaderOf(l.order, b) == 4 {
      var w := if l.order.Little? then 4 * |b| else |b|;
      U32At(l.order, b, 0, w);
      WordFrame(l, b, w);
    } else {
      var w := if l.order.Little? then 4 * |b| + 2 else 0x4000_0000 + |b|;
      U32At(l.order, b, 0, w);
      WordFrame(l, b, w);
    }
  }

  lemma OneByteFrame(l: Layout, b: seq<byte>)
    requires 0 < |b| <= 127 && b[0] == if l.order.Little? then 2 * |b| + 1 else 128 + |b|
    ensures FrameAt(l, b, 0) == Some(Frame(|b|, 1, true))
  {
  }

  lemma WordFrame(l: Layout, b: seq<byte>, w: nat)
    requires 4 <= |b| < 0x4000_0000 && U32(l.order, b, 0) == w
    requires if l.order.Little? then w == 4 * |b| || w == 4 * |b| + 2 else w == |b| || w == 0x4000_0000 + |b|
    ensures FrameAt(l, b, 0) == Some(Frame(|b|, 4, w == if l.order.Little? then 4 * |b| else |b|))
  {
    LongIsNotShort(l, b, w);
    hide U32, IsShort;
  }

  lemma LongIsNotShort(l: Layout, b: seq<byte>, w: nat)
    requires |b| >= 4 && U32(l.order, b, 0) == w && if l.order.Little? then w % 2 == 0 else w < 0x8000_0000
    ensures !IsShort(l, b[0])
  {
  }

  lemma FrameMoves(l: Layout, data: seq<byte>, at: nat, b: seq<byte>)
    requires At(data, at, b) && Sized(l, -1, b)
    ensures at + |b| <= |data| && FrameAt(l, data, at) == FrameAt(l, b, 0)
  {
    HeaderFrames(l, b);
    FirstMoves(data, at, b);
    if |b| >= 4 { U32Moves(l.order, data, at, b); }
    hide U32;
  }

  lemma {:induction false} ZeroFound(data: seq<byte>, at: nat, end: nat)
    requires at <= end < |data| && data[end] == 0 && forall i :: at <= i < end ==> data[i] != 0
    ensures ZeroFrom(data, at) == Some(end)
    decreases end - at
  {
    if at < end { ZeroFound(data, at + 1, end); }
  }

  lemma ZeroMoves(data: seq<byte>, at: nat, b: seq<byte>)
    requires At(data, at, b) && b != [] && b[|b| - 1] == 0 && forall i :: 0 <= i < |b| - 1 ==> b[i] != 0
    ensures at + |b| <= |data| && ZeroFrom(data, at) == Some(at + |b| - 1)
  {
    forall i | at <= i < at + |b| - 1 ensures data[i] != 0 { assert data[at + (i - at)] == b[i - at]; }
    assert data[at + (|b| - 1)] == 0;
    ZeroFound(data, at, at + |b| - 1);
  }

  lemma TakesSized(l: Layout, data: seq<byte>, at: nat, b: seq<byte>, length: int)
    requires At(data, at, b) && Sized(l, length, b)
    ensures Take(l, data, at, length) == Some(b)
  {
    hide FrameAt, ZeroFrom, HeaderOf, Compressed, At;
    AtSlice(data, at, b);
    FirstMoves(data, at, b);
    if length == -1 {
      HeaderFrames(l, b);
      FrameMoves(l, data, at, b);
    } else if length == -2 {
      ZeroMoves(data, at, b);
    }
  }

  lemma FramedReads(l: Layout, short: bool, body: seq<byte>)
    requires if short then |body| < 127 else |body| + 4 < 0x4000_0000
    ensures var b := Framed(l.order, short, body);
      Sized(l, -1, b) && FrameAt(l, b, 0) == Some(Frame(|b|, if short then 1 else 4, true)) &&
      |Unpacked(b, if short then 1 else 4)| == 4 + |body| && At(Unpacked(b, if short then 1 else 4), 4, body)
  {
    var b := Framed(l.order, short, body);
    if short {
      assert b[1..] == body;
      AtSplit(Unpacked(b, 1), 0, [0, 0, 0, 0], body);
      AtWhole(Unpacked(b, 1));
    } else {
      AtWhole(b);
      AtSplit(b, 0, PutHeader(l.order, |body| + 4), body);
      assert HeaderOf(l.order, b) == 4 by { FourByteHeader(l.order, b); }
    }
    HeaderFrames(l, b);
  }

  lemma FourByteHeader(order: ByteOrder, b: seq<byte>)
    requires 4 <= |b| < 0x4000_0000 && At(b, 0, PutHeader(order, |b|))
    ensures HeaderOf(order, b) == 4
  {
    hide PutU32, U32;
    var w := if order.Little? then 4 * |b| else |b|;
    U32At(order, b, 0, w);
    LongIsNotShort(Layout(order, true), b, w);
  }

  // -- Null bitmaps -----------------------------------------------------------------------------------------------

  function Digit(bits: seq<bool>, i: nat): (d: int)
    ensures 0 <= d <= 1 && (i < |bits| ==> (d == 1 <==> bits[i]))
  {
    if i < |bits| && bits[i] then 1 else 0
  }

  lemma ByteDigits(bits: seq<bool>, i: nat)
    ensures PutByte(bits, i) ==
      Digit(bits, i) + 2 * Digit(bits, i + 1) + 4 * Digit(bits, i + 2) + 8 * Digit(bits, i + 3) +
      16 * Digit(bits, i + 4) + 32 * Digit(bits, i + 5) + 64 * Digit(bits, i + 6) + 128 * Digit(bits, i + 7)
  {
  }

  lemma ByteBits(bits: seq<bool>, i: nat, k: nat)
    requires k < 8 && i + k < |bits|
    ensures Bit(PutByte(bits, i), k) == bits[i + k]
  {
    hide Digit, PutByte, Bit;
    ByteDigits(bits, i);
    BinaryBits(Digit(bits, i), Digit(bits, i + 1), Digit(bits, i + 2), Digit(bits, i + 3),
                 Digit(bits, i + 4), Digit(bits, i + 5), Digit(bits, i + 6), Digit(bits, i + 7));
  }

  lemma BinaryBits(b0: int, b1: int, b2: int, b3: int, b4: int, b5: int, b6: int, b7: int)
    requires 0 <= b0 <= 1 && 0 <= b1 <= 1 && 0 <= b2 <= 1 && 0 <= b3 <= 1
    requires 0 <= b4 <= 1 && 0 <= b5 <= 1 && 0 <= b6 <= 1 && 0 <= b7 <= 1
    ensures var t := b0 + 2 * b1 + 4 * b2 + 8 * b3 + 16 * b4 + 32 * b5 + 64 * b6 + 128 * b7;
      Bit(t, 0) == (b0 == 1) && Bit(t, 1) == (b1 == 1) && Bit(t, 2) == (b2 == 1) && Bit(t, 3) == (b3 == 1) &&
      Bit(t, 4) == (b4 == 1) && Bit(t, 5) == (b5 == 1) && Bit(t, 6) == (b6 == 1) && Bit(t, 7) == (b7 == 1)
  {
    BinaryDigits(b0, b1, b2, b3, b4, b5, b6, b7);
  }

  lemma BinaryDigits(b0: int, b1: int, b2: int, b3: int, b4: int, b5: int, b6: int, b7: int)
    requires 0 <= b0 <= 1 && 0 <= b1 <= 1 && 0 <= b2 <= 1 && 0 <= b3 <= 1
    requires 0 <= b4 <= 1 && 0 <= b5 <= 1 && 0 <= b6 <= 1 && 0 <= b7 <= 1
    ensures var t := b0 + 2 * b1 + 4 * b2 + 8 * b3 + 16 * b4 + 32 * b5 + 64 * b6 + 128 * b7;
      t % 2 == b0 && t / 2 % 2 == b1 && t / 4 % 2 == b2 && t / 8 % 2 == b3 &&
      t / 16 % 2 == b4 && t / 32 % 2 == b5 && t / 64 % 2 == b6 && t / 128 == b7
  {
    var h6 := b6 + 2 * b7;
    var h5 := b5 + 2 * h6;
    var h4 := b4 + 2 * h5;
    var h3 := b3 + 2 * h4;
    var h2 := b2 + 2 * h3;
    var h1 := b1 + 2 * h2;
    var t := b0 + 2 * h1;
    assert t == b0 + 2 * b1 + 4 * b2 + 8 * b3 + 16 * b4 + 32 * b5 + 64 * b6 + 128 * b7;
    assert t / 2 == h1;
    assert t / 4 == h2;
    assert t / 8 == h3;
    assert t / 16 == h4;
    assert t / 32 == h5;
    assert t / 64 == h6;
    assert t / 128 == b7;
  }

  lemma BitmapBits(data: seq<byte>, at: nat, bits: seq<bool>, i: nat)
    requires At(data, at, PutBits(bits)) && i < |bits|
    ensures at + i / 8 < |data| && BitAt(data, at, i) == bits[i]
  {
    EighthsAre(|bits|);
    var b := PutBits(bits);
    assert data[at + i / 8] == b[i / 8] == PutByte(bits, 8 * (i / 8));
    ByteBits(bits, 8 * (i / 8), i % 8);
    hide PutByte, Bit;
  }

  // The bitmap, or its absence, agrees with the members that are there.
  predicate Marked(data: seq<byte>, at: nat, nulls: bool, i: nat, items: Items)
    decreases items
  {
    match items
    case End => true
    case Item(_, cell, rest) =>
      (if nulls then at + i / 8 < |data| && BitAt(data, at, i) == cell.Some? else cell.Some?) &&
      Marked(data, at, nulls, i + 1, rest)
  }

  lemma {:induction false} BitmapMarks(data: seq<byte>, at: nat, bits: seq<bool>, i: nat, items: Items)
    requires At(data, at, PutBits(bits)) && i <= |bits| && bits[i..] == Presence(items)
    ensures Marked(data, at, true, i, items)
    decreases items
  {
    hide At, PutBits, BitAt;
    if items.Item? {
      assert bits[i] == bits[i..][0] == items.cell.Some?;
      assert bits[i + 1..] == bits[i..][1..] == Presence(items.rest);
      BitmapBits(data, at, bits, i);
      BitmapMarks(data, at, bits, i + 1, items.rest);
    }
  }

  lemma {:induction false} PresentMarks(data: seq<byte>, at: nat, i: nat, items: Items)
    requires AllPresent(items)
    ensures Marked(data, at, false, i, items)
    decreases items
  {
    if items.Item? { PresentMarks(data, at, i + 1, items.rest); }
  }

  // -- Where a member starts --------------------------------------------------------------------------------------

  lemma Padded(w: nat, p: nat)
    requires w == 2 || w == 4 || w == 8
    ensures p + Padding(w, p) == (p + (w - 1)) / w * w
  {
    var q, a := p / w, p % w;
    assert p == q * w + a;
    Filled(w, q, a);
  }

  // Case by case: division is by a constant.
  lemma Filled(w: nat, q: nat, a: nat)
    requires (w == 2 || w == 4 || w == 8) && a < w
    ensures (q * w + a) + (w - a) % w == (q * w + a + (w - 1)) / w * w
  {
    if w == 2 {
      assert (q * 2 + a + 1) / 2 == if a == 0 then q else q + 1;
    } else if w == 4 {
      assert (q * 4 + a + 3) / 4 == if a == 0 then q else q + 1;
    } else {
      assert (q * 8 + a + 7) / 8 == if a == 0 then q else q + 1;
    }
  }

  // What the decoder skips is what the server pads.
  lemma AlignDefined(l: Layout, p: nat, alignment: char)
    ensures Align(l, p, alignment) == if Width(l, alignment) == 0 then None else Some(AlignUp(l, p, alignment))
  {
    if Width(l, alignment) > 1 { Padded(Width(l, alignment), p); }
    hide Padding;
  }

  lemma ShortIsNotZero(l: Layout, first: byte)
    requires IsShort(l, first)
    ensures first != 0
  {
  }

  lemma PackedStarts(l: Layout, data: seq<byte>, p: nat, slot: Slot, b: seq<byte>)
    requires slot.packed && Width(l, slot.alignment) > 0 && b != []
    requires At(data, p, Zeros(SlotStart(l, slot, p, b) - p)) && At(data, SlotStart(l, slot, p, b), b)
    ensures PackedStart(l, data, p, slot.length, slot.alignment) == Some(SlotStart(l, slot, p, b))
  {
    AlignDefined(l, p, slot.alignment);
    hide Align, AlignUp;
    var start := SlotStart(l, slot, p, b);
    FirstMoves(data, start, b);
    if IsShort(l, b[0]) { ShortIsNotZero(l, b[0]); }
    if start > p { FirstMoves(data, p, Zeros(start - p)); }
  }

  // The next member, its padding in front, and the rest behind it.
  lemma NextItem(l: Layout, data: seq<byte>, p: nat, items: Items)
    requires items.Item? && items.cell.Some? && SlotFits(l, items.slot, items.cell.value)
    requires At(data, p, EncodeItems(l, p, items))
    ensures var b := Encode(l, items.cell.value); var start := SlotStart(l, items.slot, p, b);
      b != [] && At(data, p, Zeros(start - p)) && At(data, start, b) &&
          Take(l, data, start, items.slot.length) == Some(b) &&
      At(data, start + |b|, EncodeItems(l, start + |b|, items.rest)) &&
      p + |EncodeItems(l, p, items)| == start + |b| + |EncodeItems(l, start + |b|, items.rest)|
  {
    hide At, Encode, Zeros, SlotStart, Take;
    var b := Encode(l, items.cell.value);
    var start := SlotStart(l, items.slot, p, b);
    var rest := EncodeItems(l, start + |b|, items.rest);
    AtSplit(data, p, Zeros(start - p) + b, rest);
    AtSplit(data, p, Zeros(start - p), b);
    TakesSized(l, data, start, b, items.slot.length);
    hide EncodeItems;
    assert |Zeros(start - p)| == start - p;
  }

  // -- One step of each member loop ---------------------------------------------------------------------------------

  lemma ElementsDone<L(!new)>(c: Context<L>, l: Layout, data: seq<byte>, e: StorageType, oid: nat, nulls: bool,
      fixed: nat, count: nat, p: nat)
    requires Grounded(c) && p >= 8 && (nulls ==> fixed + BitmapLength(count) <= |data|)
    ensures Elements(c, l, data, e, oid, nulls, fixed, count, count, p) == Some(Loaded([], p))
  {
    hide Grounded;
  }

  lemma ElementsSkip<L(!new)>(
    c: Context<L>, l: Layout, data: seq<byte>, e: StorageType, oid: nat, nulls: bool, fixed: nat, i: nat, count: nat,
    p: nat)
    requires Grounded(c) && i < count && p >= 8 && nulls && fixed + BitmapLength(count) <= |data|
    requires !BitAt(data, fixed, i)
    ensures Elements(c, l, data, e, oid, nulls, fixed, i, count, p) ==
      Before(None, Elements(c, l, data, e, oid, nulls, fixed, i + 1, count, p))
  {
    hide Grounded, Before, BitAt;
  }

  lemma ElementsNext<L(!new)>(
    c: Context<L>, l: Layout, data: seq<byte>, e: StorageType, oid: nat, nulls: bool, fixed: nat, i: nat, count: nat,
    p: nat,
    start: nat, value: seq<byte>)
    requires Grounded(c) && i < count && p >= 8 &&
      (nulls ==> fixed + BitmapLength(count) <= |data| && BitAt(data, fixed, i))
    requires Align(l, p, e.alignment) == Some(start) && Take(l, data, start, e.length) == Some(value)
    ensures start + |value| >= 8
    ensures Elements(c, l, data, e, oid, nulls, fixed, i, count, p) ==
      if Decode(c, l, value, oid).None? then None
      else Before(Decode(c, l, value, oid).value,
                  Elements(c, l, data, e, oid, nulls, fixed, i + 1, count, start + |value|))
  {
    hide Grounded, Before, BitAt, Take, Align, Decode;
  }

  lemma FieldsDone<L(!new)>(c: Context<L>, l: Layout, data: seq<byte>, attributes: seq<Attribute>, nulls: bool,
      count: nat, p: nat)
    requires Grounded(c) && p >= 8 && (nulls ==> 23 + BitmapLength(count) <= |data|)
    ensures Fields(c, l, data, attributes, nulls, |attributes|, count, p) == Some(Loaded([], p))
  {
    hide Grounded;
  }

  lemma FieldsSkip<L(!new)>(
    c: Context<L>, l: Layout, data: seq<byte>, attributes: seq<Attribute>, nulls: bool, i: nat, count: nat, p: nat)
    requires Grounded(c) && i < |attributes| && p >= 8 && (nulls ==> 23 + BitmapLength(count) <= |data|)
    requires i >= count || (nulls && !BitAt(data, 23, i))
    ensures Fields(c, l, data, attributes, nulls, i, count, p) ==
      var rest := Fields(c, l, data, attributes, nulls, i + 1, count, p);
      if attributes[i].dropped then rest else Before(None, rest)
  {
    hide Grounded, Before, BitAt;
  }

  lemma FieldsNext<L(!new)>(
    c: Context<L>, l: Layout, data: seq<byte>, attributes: seq<Attribute>, nulls: bool, i: nat, count: nat, p: nat,
    start: nat, value: seq<byte>)
    requires Grounded(c) && i < |attributes| && p >= 8 && (nulls ==> 23 + BitmapLength(count) <= |data|)
    requires i < count && (nulls ==> BitAt(data, 23, i))
    requires PackedStart(l, data, p, attributes[i].length, attributes[i].alignment) == Some(start)
    requires Take(l, data, start, attributes[i].length) == Some(value)
    ensures start + |value| >= 8
    ensures Fields(c, l, data, attributes, nulls, i, count, p) ==
      var rest := Fields(c, l, data, attributes, nulls, i + 1, count, start + |value|);
      if attributes[i].dropped then rest
      else if Decode(c, l, value, attributes[i].oid).None? then None
      else Before(Decode(c, l, value, attributes[i].oid).value, rest)
  {
    hide Grounded, Before, BitAt, Take, PackedStart, Decode;
  }

  lemma BoundsNext<L(!new)>(
    c: Context<L>, l: Layout, data: seq<byte>, subtype: StorageType, flags: nat, which: nat, p: nat, limit: nat,
    start: nat, value: seq<byte>)
    requires Grounded(c) && which < 2 && p >= 8 && !Infinite(flags, which)
    requires PackedStart(l, data, p, subtype.length, subtype.alignment) == Some(start)
    requires Take(l, data, start, subtype.length) == Some(value) && start + |value| <= limit
    ensures start + |value| >= 8
    ensures Bounds(c, l, data, subtype, flags, which, p, limit) ==
      if Decode(c, l, value, subtype.oid).None? then None
      else Before(Decode(c, l, value, subtype.oid).value,
                  Bounds(c, l, data, subtype, flags, which + 1, start + |value|, limit))
  {
    hide Grounded, Before, Infinite, Take, PackedStart, Decode;
  }

  lemma BoundsSkip<L(!new)>(
    c: Context<L>, l: Layout, data: seq<byte>, subtype: StorageType, flags: nat, which: nat, p: nat, limit: nat)
    requires Grounded(c) && which < 2 && p >= 8 && Infinite(flags, which)
    ensures Bounds(c, l, data, subtype, flags, which, p, limit) ==
      Before(None, Bounds(c, l, data, subtype, flags, which + 1, p, limit))
  {
    hide Grounded, Before, Infinite;
  }

  lemma BoundsDone<L(!new)>(c: Context<L>, l: Layout, data: seq<byte>, subtype: StorageType, flags: nat, p: nat,
      limit: nat)
    requires Grounded(c) && p >= 8
    ensures Bounds(c, l, data, subtype, flags, 2, p, limit) == Some(Loaded([], p))
  {
    hide Grounded;
  }

  lemma NoItem(l: Layout, p: nat, items: Items)
    ensures items.End? ==> EncodeItems(l, p, items) == []
    ensures items.Item? && items.cell.None? ==> EncodeItems(l, p, items) == EncodeItems(l, p, items.rest)
  {
    hide Encode, SlotStart;
  }

  // -- Decoding what was encoded ------------------------------------------------------------------------------------

  lemma {:induction false} DecodesElements<L(!new)>(
    c: Context<L>, l: Layout, data: seq<byte>, oid: nat, nulls: bool, fixed: nat, i: nat, count: nat, p: nat,
    items: Items)
    requires Grounded(c) && oid in c.types && ElementsConform(c, l, oid, items) && At(data, p, EncodeItems(l, p, items))
    requires i + |Presence(items)| == count && p >= 8 && (nulls ==> fixed + BitmapLength(count) <= |data|)
    requires Marked(data, fixed, nulls, i, items)
    ensures Elements(c, l, data, c.types[oid], oid, nulls, fixed, i, count, p) ==
      Some(Loaded(ElementFacets(c, l, oid, items), p + |EncodeItems(l, p, items)|))
    decreases items, 0
  {
    hide Grounded, At, Encode, Take, BitAt, Conforms, FacetOf, Decode, Align, SlotFits, Zeros, Elements, EncodeItems,
      SlotStart;
    NoItem(l, p, items);
    if items.End? {
      ElementsDone(c, l, data, c.types[oid], oid, nulls, fixed, count, p);
    } else {
      if items.cell.None? {
        ElementsSkip(c, l, data, c.types[oid], oid, nulls, fixed, i, count, p);
        DecodesElements(c, l, data, oid, nulls, fixed, i + 1, count, p, items.rest);
      } else {
        var v := items.cell.value;
        NextItem(l, data, p, items);
        var b := Encode(l, v);
        var start := SlotStart(l, items.slot, p, b);
        UnpackedStart(l, items.slot, p, v);
        DecodesValue(c, l, oid, v);
        ElementsNext(c, l, data, c.types[oid], oid, nulls, fixed, i, count, p, start, b);
        DecodesElements(c, l, data, oid, nulls, fixed, i + 1, count, start + |b|, items.rest);
      }
    }
  }

  lemma UnpackedStart(l: Layout, slot: Slot, p: nat, v: Value)
    requires !slot.packed && SlotFits(l, slot, v)
    ensures Align(l, p, slot.alignment) == Some(SlotStart(l, slot, p, Encode(l, v)))
  {
    hide Encode, Sized;
    AlignDefined(l, p, slot.alignment);
  }

  lemma {:induction false} DecodesFields<L(!new)>(
    c: Context<L>, l: Layout, data: seq<byte>, attributes: seq<Attribute>, nulls: bool, i: nat, count: nat, p: nat,
    items: Items)
    requires Grounded(c) && FieldsConform(c, l, attributes, i, items) && i <= |attributes|
    requires At(data, p, EncodeItems(l, p, items))
    requires p >= 8 && (nulls ==> 23 + BitmapLength(count) <= |data|) && StoredMarks(data, nulls, i, count, items)
    ensures Fields(c, l, data, attributes, nulls, i, count, p) ==
      Some(Loaded(FieldFacets(c, l, attributes, i, items), p + |EncodeItems(l, p, items)|))
    decreases items, 0
  {
    hide Grounded, At, Encode, Take, BitAt, Conforms, FacetOf, Decode, Align, SlotFits, Zeros, PackedStart, Fields,
      EncodeItems, SlotStart;
    NoItem(l, p, items);
    if items.End? {
      FieldsDone(c, l, data, attributes, nulls, count, p);
    } else {
      if items.cell.None? {
        FieldsSkip(c, l, data, attributes, nulls, i, count, p);
        DecodesFields(c, l, data, attributes, nulls, i + 1, count, p, items.rest);
      } else {
        var v := items.cell.value;
        NextItem(l, data, p, items);
        var b := Encode(l, v);
        var start := SlotStart(l, items.slot, p, b);
        SlotAligned(l, items.slot, v);
        PackedStarts(l, data, p, items.slot, b);
        if !attributes[i].dropped { DecodesValue(c, l, attributes[i].oid, v); }
        FieldsNext(c, l, data, attributes, nulls, i, count, p, start, b);
        DecodesFields(c, l, data, attributes, nulls, i + 1, count, start + |b|, items.rest);
      }
    }
  }

  lemma SlotAligned(l: Layout, slot: Slot, v: Value)
    requires SlotFits(l, slot, v)
    ensures Width(l, slot.alignment) > 0
  {
  }

  // Of a row's attributes, those past the stored ones are absent and the others marked.
  predicate StoredMarks(data: seq<byte>, nulls: bool, i: nat, count: nat, items: Items)
    decreases items
  {
    match items
    case End => true
    case Item(_, cell, rest) =>
      (if i >= count then cell.None? else if nulls then 23 + i / 8 < |data| &&
       BitAt(data, 23, i) == cell.Some? else cell.Some?) &&
      StoredMarks(data, nulls, i + 1, count, rest)
  }

  // The flags say which bounds are missing.
  predicate Told(flags: nat, which: nat, bounds: Items)
    decreases bounds
  {
    match bounds
    case End => which == 2
    case Item(_, cell, rest) =>
      which < 2 && (cell.None? <==> Infinite(flags, which)) && Told(flags, which + 1, rest)
  }

  lemma MarksTell<L(!new)>(c: Context<L>, l: Layout, subtype: StorageType, flags: nat, bounds: Items)
    requires Grounded(c) && RangeConforms(c, l, subtype, flags, bounds)
    ensures flags < 32 && FlagsValid(flags)
    ensures if flags % 2 == 1 then bounds.End? else Told(flags, 0, bounds) && BoundsConform(c, l, subtype, bounds)
  {
    hide Grounded, BoundsConform;
    if bounds.Item? {
      assert Told(flags, 2, bounds.rest.rest);
      assert Told(flags, 1, bounds.rest);
    }
  }

  lemma {:induction false} DecodesBounds<L(!new)>(
    c: Context<L>, l: Layout, data: seq<byte>, subtype: StorageType, flags: nat, which: nat, p: nat, limit: nat,
    bounds: Items)
    requires Grounded(c) && BoundsConform(c, l, subtype, bounds) && Told(flags, which, bounds)
    requires At(data, p, EncodeItems(l, p, bounds)) && p >= 8 && which <= 2 && p + |EncodeItems(l, p, bounds)| <= limit
    ensures Bounds(c, l, data, subtype, flags, which, p, limit) ==
      Some(Loaded(ElementFacets(c, l, subtype.oid, bounds), p + |EncodeItems(l, p, bounds)|))
    decreases bounds, 0
  {
    hide Grounded, At, Encode, Take, Conforms, FacetOf, Decode, Align, SlotFits, Zeros, PackedStart, Infinite, Bounds,
      EncodeItems, SlotStart;
    NoItem(l, p, bounds);
    if bounds.End? {
      BoundsDone(c, l, data, subtype, flags, p, limit);
    } else {
      if bounds.cell.None? {
        BoundsSkip(c, l, data, subtype, flags, which, p, limit);
        DecodesBounds(c, l, data, subtype, flags, which + 1, p, limit, bounds.rest);
      } else {
        var v := bounds.cell.value;
        NextItem(l, data, p, bounds);
        var b := Encode(l, v);
        var start := SlotStart(l, bounds.slot, p, b);
        SlotAligned(l, bounds.slot, v);
        PackedStarts(l, data, p, bounds.slot, b);
        DecodesValue(c, l, subtype.oid, v);
        BoundsNext(c, l, data, subtype, flags, which, p, limit, start, b);
        DecodesBounds(c, l, data, subtype, flags, which + 1, start + |b|, limit, bounds.rest);
      }
    }
  }

  lemma NoFacets<L(!new)>(c: Context<L>, l: Layout, oid: nat, items: Items)
    requires Grounded(c) && items.End?
    ensures ElementFacets(c, l, oid, items) == []
  {
    hide Grounded;
  }

  lemma {:induction false} DecodesRange<L(!new)>(
    c: Context<L>, l: Layout, data: seq<byte>, subtype: StorageType, flags: nat, p: nat, limit: nat, bounds: Items)
    requires Grounded(c) && RangeConforms(c, l, subtype, flags, bounds) && At(data, p, EncodeItems(l, p, bounds))
    requires p >= 8 && p + |EncodeItems(l, p, bounds)| <= limit
    ensures RangeAt(c, l, data, subtype, flags, p, limit) ==
      Some(Loaded(ElementFacets(c, l, subtype.oid, bounds), p + |EncodeItems(l, p, bounds)|))
    decreases bounds, 1
  {
    hide Grounded, At, BoundsConform, RangeConforms, Bounds, FlagsValid;
    MarksTell(c, l, subtype, flags, bounds);
    if flags % 2 == 1 { NoItem(l, p, bounds); NoFacets(c, l, subtype.oid, bounds); }
    if flags % 2 == 0 { DecodesBounds(c, l, data, subtype, flags, 0, p, limit, bounds); }
  }

  // -- Fixed fields of the headers ------------------------------------------------------------------------------------

  lemma UnsignedAt(order: ByteOrder, data: seq<byte>, at: nat, v: int)
    requires 0 <= v < 0x1_0000_0000 && At(data, at, Put31(order, v))
    ensures at + 4 <= |data| && U32(order, data, at) == v
  {
    hide U32, PutU32, At;
    Put31Value(order, v);
    WordEnd(order, data, at, v);
    U32At(order, data, at, v);
  }

  lemma Put31Value(order: ByteOrder, v: int)
    requires -0x8000_0000 <= v < 0x1_0000_0000
    ensures Put31(order, v) == PutU32(order, if v < 0 then v + 0x1_0000_0000 else v)
  {
    hide PutU32;
  }

  lemma SignedAt(order: ByteOrder, data: seq<byte>, at: nat, v: int)
    requires -0x8000_0000 <= v < 0x8000_0000 && At(data, at, Put31(order, v))
    ensures at + 4 <= |data| && I32(order, data, at) == v
  {
    hide U32, PutU32, At, Put31;
    var w := if v < 0 then v + 0x1_0000_0000 else v;
    Put31Value(order, v);
    WordEnd(order, data, at, w);
    U32At(order, data, at, w);
  }

  lemma WordEnd(order: ByteOrder, data: seq<byte>, at: nat, w: int)
    requires 0 <= w < 0x1_0000_0000 && At(data, at, PutU32(order, w))
    ensures at + 4 <= |data|
  {
  }

  lemma AtEnd(data: seq<byte>, at: nat, part: seq<byte>)
    requires At(data, at, part)
    ensures at + |part| <= |data|
  {
  }

  lemma ZerosTail(data: seq<byte>, at: nat, tail: nat)
    requires At(data, at, Zeros(tail)) && |data| == at + tail && tail <= 7
    ensures ZeroTail(data, at)
  {
    var z := Zeros(tail);
    forall i | at <= i < |data| ensures data[i] == 0 { assert data[at + (i - at)] == z[i - at]; }
  }

  lemma {:induction false} ShapeLengths(order: ByteOrder, shape: seq<Dimension>)
    ensures |PutLengths(order, shape)| == 4 * |shape| && |PutLowers(order, shape)| == 4 * |shape|
  {
    hide Put31;
    if shape != [] { ShapeLengths(order, shape[1..]); }
  }

  predicate DimensionFits(vector: bool, d: Dimension)
  {
    -0x8000_0000 <= d.lower < 0x8000_0000 && d.lower + d.length <= 0x8000_0000 && d.length < 0x8000_0000 &&
        (vector || d.length > 0)
  }

  lemma {:induction false} ReadsShape(l: Layout, data: seq<byte>, vector: bool, n: nat, i: nat, count: nat,
      shape: seq<Dimension>)
    requires i + |shape| == n && 16 + 8 * n <= |data| && Countable(shape, count)
    requires forall k :: 0 <= k < |shape| ==> DimensionFits(vector, shape[k])
    requires At(data, 16 + 4 * i, PutLengths(l.order, shape)) && At(data, 16 + 4 * n + 4 * i, PutLowers(l.order, shape))
    ensures ReadShape(l, data, vector, n, i, count) == Some(shape)
    decreases |shape|
  {
    hide Put31, I32, Times, At;
    if shape != [] {
      var d := shape[0];
      assert DimensionFits(vector, d);
      AtSplit(data, 16 + 4 * i, Put31(l.order, d.length), PutLengths(l.order, shape[1..]));
      AtSplit(data, 16 + 4 * n + 4 * i, Put31(l.order, d.lower), PutLowers(l.order, shape[1..]));
      SignedAt(l.order, data, 16 + 4 * i, d.length);
      SignedAt(l.order, data, 16 + 4 * n + 4 * i, d.lower);
      ReadsShape(l, data, vector, n, i + 1, Times(count, d.length), shape[1..]);
      assert shape == [d] + shape[1..];
    }
  }

  lemma ArrayHeaderReads(l: Layout, data: seq<byte>, offset: nat, element: nat, shape: seq<Dimension>, vector: bool)
    requires At(data, 4, ArrayHeader(l.order, offset, element, shape)) && ShapeConforms(vector, shape)
    requires offset < 0x8000_0000 && element < 0x1_0000_0000
    ensures |ArrayHeader(l.order, offset, element, shape)| == 12 + 8 * |shape| && 16 + 8 * |shape| <= |data|
    ensures I32(l.order, data, 4) == |shape| && I32(l.order, data, 8) == offset && U32(l.order, data, 12) == element
    ensures ReadShape(l, data, vector, |shape|, 0, 1) == Some(shape)
  {
    hide Put31, U32, I32, At, ReadShape, Countable, PutLengths, PutLowers;
    var a, b, e := Put31(l.order, |shape|), Put31(l.order, offset), Put31(l.order, element);
    var lengths, lowers := PutLengths(l.order, shape), PutLowers(l.order, shape);
    ShapeLengths(l.order, shape);
    AtEnd(data, 4, ArrayHeader(l.order, offset, element, shape));
    AtSplit(data, 4, a + b + e + lengths, lowers);
    AtSplit(data, 4, a + b + e, lengths);
    AtSplit(data, 4, a + b, e);
    AtSplit(data, 4, a, b);
    SignedAt(l.order, data, 4, |shape|);
    SignedAt(l.order, data, 8, offset);
    UnsignedAt(l.order, data, 12, element);
    ReadsShape(l, data, vector, |shape|, 0, 1, shape);
  }

  // -- One structured value -------------------------------------------------------------------------------------------

  lemma {:induction false} DecodesArray<L(!new)>(c: Context<L>, l: Layout, data: seq<byte>, t: StorageType, v: Value)
    requires Grounded(c) && v.ArrayValue? && v.element == t.element < 0x1_0000_0000 && t.element in c.types
    requires v.tail <= 7
    requires ShapeConforms(IsVector(t), v.shape) && |Presence(v.items)| == ElementCount(v.shape)
    requires (v.nulls || AllPresent(v.items)) && ElementsConform(c, l, t.element, v.items)
    requires At(data, 4, Body(l, v)) && |data| == 4 + |Body(l, v)| < 0x4000_0000
    ensures DecodeArray(c, l, data, t) ==
      Some(Array(if c.arrayStorage then Some(v.nulls) else None, c.types[t.element].delimiter, v.shape,
                 ElementFacets(c, l, t.element, v.items)))
    decreases v.items, 1
  {
    hide Grounded, At, U32, I32, ReadShape, Elements, ElementFacets, ElementsConform, ArrayHeader, EncodeItems,
      PutBits, Zeros, ZeroTail,
      AllPresent, ElementCount, ShapeConforms, Presence, Marked, Body;
    var fixed := 16 + 8 * |v.shape|;
    var start := DataStart(v.shape, v.nulls, v.gap, v.items);
    var members := EncodeItems(l, start, v.items);
    ArrayParts(l, data, v);
    EighthsAre(|Presence(v.items)|);
    ArrayHeaderReads(l, data, if v.nulls then start else 0, t.element, v.shape, IsVector(t));
    if !v.nulls { PresentMarks(data, fixed, 0, v.items); }
    DecodesElements(c, l, data, t.element, v.nulls, fixed, 0, ElementCount(v.shape), start, v.items);
    ZerosTail(data, start + |members|, v.tail);
    SmallShape(IsVector(t), v.shape);
  }

  lemma SmallShape(vector: bool, shape: seq<Dimension>)
    requires ShapeConforms(vector, shape)
    ensures |shape| <= 6
  {
  }

  lemma ArrayParts(l: Layout, data: seq<byte>, v: Value)
    requires v.ArrayValue? && At(data, 4, Body(l, v)) && |data| == 4 + |Body(l, v)|
    ensures var start := DataStart(v.shape, v.nulls, v.gap, v.items);
      At(data, 4, ArrayHeader(l.order, if v.nulls then start else 0, v.element, v.shape)) &&
      (v.nulls ==> Marked(data, 16 + 8 * |v.shape|, true, 0, v.items)) &&
      At(data, start, EncodeItems(l, start, v.items)) &&
      start + |EncodeItems(l, start, v.items)| + v.tail == |data| &&
      At(data, start + |EncodeItems(l, start, v.items)|, Zeros(v.tail))
  {
    hide At, EncodeItems, PutBits, Marked, Put31, PutLengths, PutLowers, Presence;
    var start := DataStart(v.shape, v.nulls, v.gap, v.items);
    var head := ArrayHeader(l.order, if v.nulls then start else 0, v.element, v.shape);
    var bits := PutBits(Presence(v.items));
    var bitmap := if v.nulls then bits + Zeros(v.gap) else [];
    var members := EncodeItems(l, start, v.items);
    ShapeLengths(l.order, v.shape);
    assert |head| == 12 + 8 * |v.shape| && |bitmap| == start - 16 - 8 * |v.shape|;
    AtSplit(data, 4, head + bitmap + members, Zeros(v.tail));
    AtSplit(data, 4, head + bitmap, members);
    AtSplit(data, 4, head, bitmap);
    if v.nulls {
      AtSplit(data, 16 + 8 * |v.shape|, bits, Zeros(v.gap));
      assert Presence(v.items)[0..] == Presence(v.items);
      BitmapMarks(data, 16 + 8 * |v.shape|, Presence(v.items), 0, v.items);
    }
    hide ArrayHeader;
  }

  lemma RowHeaderReads(l: Layout, data: seq<byte>, oid: nat, head: RowHead)
    requires At(data, 4, RowHeader(l.order, oid, head)) && oid < 0x1_0000_0000 && |head.before| == 4
    requires |head.between| == 6
    requires head.high < 32 && head.count < 2048 && head.mask < 0x1_0000 && RowStart(head) <= 255
    ensures |RowHeader(l.order, oid, head)| == 19 && 23 <= |data|
    ensures U32(l.order, data, 8) == oid && U16(l.order, data, 18) % 2048 == head.count
    ensures U16(l.order, data, 20) == head.mask && data[22] == RowStart(head)
  {
    hide Put31, PutU16, U32, U16, At, RowStart;
    var a, counted, mask, last := Put31(l.order, oid), PutU16(l.order, head.high * 2048 + head.count),
        PutU16(l.order, head.mask), Flag(RowStart(head));
    assert RowHeader(l.order, oid, head) == head.before + a + head.between + counted + mask + last;
    AtEnd(data, 4, RowHeader(l.order, oid, head));
    AtSplit(data, 4, head.before + a + head.between + counted + mask, last);
    AtSplit(data, 4, head.before + a + head.between + counted, mask);
    AtSplit(data, 4, head.before + a + head.between, counted);
    AtSplit(data, 4, head.before + a, head.between);
    AtSplit(data, 4, head.before, a);
    UnsignedAt(l.order, data, 8, oid);
    U16At(l.order, data, 18, head.high * 2048 + head.count);
    U16At(l.order, data, 20, head.mask);
    FirstMoves(data, 22, last);
  }

  lemma {:induction false} StoredAll(data: seq<byte>, nulls: bool, i: nat, count: nat, items: Items, all: seq<bool>,
      bits: seq<bool>)
    requires i <= |all| && Presence(items) == all[i..] && count <= |all| && bits == all[..count]
    requires nulls ==> At(data, 23, PutBits(bits))
    requires forall k :: 0 <= k < |all| ==> if k < count then nulls || all[k] else !all[k]
    ensures StoredMarks(data, nulls, i, count, items)
    decreases items
  {
    hide At, PutBits, BitAt;
    if items.Item? {
      assert all[i] == all[i..][0] == items.cell.Some?;
      assert all[i + 1..] == all[i..][1..] == Presence(items.rest);
      if nulls && i < count { BitmapBits(data, 23, bits, i); }
      StoredAll(data, nulls, i + 1, count, items.rest, all, bits);
    }
  }

  lemma RowParts(l: Layout, data: seq<byte>, v: Value, attributes: seq<Attribute>)
    requires v.RowValue? && At(data, 4, Body(l, v)) && |data| == 4 + |Body(l, v)|
    requires HeadConforms(v.head, attributes, v.items)
    ensures var start := RowStart(v.head);
      At(data, 4, RowHeader(l.order, v.oid, v.head)) &&
      (v.head.mask % 2 == 1 ==> 23 + BitmapLength(v.head.count) <= |data|) &&
      StoredMarks(data, v.head.mask % 2 == 1, 0, v.head.count, v.items) &&
      At(data, start, EncodeItems(l, start, v.items)) &&
      start + |EncodeItems(l, start, v.items)| + v.tail == |data| &&
      At(data, start + |EncodeItems(l, start, v.items)|, Zeros(v.tail))
  {
    hide At, EncodeItems, PutBits, Presence, StoredMarks, Put31, PutU16;
    var start, all := RowStart(v.head), Presence(v.items);
    var head := RowHeader(l.order, v.oid, v.head);
    var bits := if v.head.mask % 2 == 1 then PutBits(FirstBits(v.items, v.head.count)) else [];
    var members := EncodeItems(l, start, v.items);
    assert |head| == 19 && |bits + Zeros(v.head.gap)| == start - 23;
    AtSplit(data, 4, head + (bits + Zeros(v.head.gap)) + members, Zeros(v.tail));
    AtSplit(data, 4, head + (bits + Zeros(v.head.gap)), members);
    AtSplit(data, 4, head, bits + Zeros(v.head.gap));
    AtSplit(data, 23, bits, Zeros(v.head.gap));
    AtEnd(data, 23, bits);
    assert all[0..] == all;
    EighthsAre(v.head.count);
    StoredAll(data, v.head.mask % 2 == 1, 0, v.head.count, v.items, all, all[..v.head.count]);
  }

  lemma {:induction false} DecodesRow<L(!new)>(c: Context<L>, l: Layout, data: seq<byte>, t: StorageType, v: Value)
    requires Grounded(c) && v.RowValue? && v.oid == t.oid < 0x1_0000_0000 && v.tail <= 7
    requires HeadConforms(v.head, t.attributes, v.items) && FieldsConform(c, l, t.attributes, 0, v.items)
    requires At(data, 4, Body(l, v)) && |data| == 4 + |Body(l, v)|
    ensures DecodeRow(c, l, data, t) == Some(Record(FieldFacets(c, l, t.attributes, 0, v.items)))
    decreases v.items, 1
  {
    hide Grounded, At, U32, U16, Fields, FieldFacets, FieldsConform, RowHeader, EncodeItems, Zeros, ZeroTail, Presence,
      StoredMarks, Body;
    var start := RowStart(v.head);
    RowParts(l, data, v, t.attributes);
    EighthsAre(v.head.count);
    RowHeaderReads(l, data, t.oid, v.head);
    DecodesFields(c, l, data, t.attributes, v.head.mask % 2 == 1, 0, v.head.count, start, v.items);
    ZerosTail(data, start + |EncodeItems(l, start, v.items)|, v.tail);
  }

  lemma RangeParts(l: Layout, data: seq<byte>, v: Value)
    requires v.RangeValue? && v.oid < 0x1_0000_0000 && v.flags < 256 && At(data, 4, Body(l, v))
    requires |data| == 4 + |Body(l, v)|
    ensures |data| >= 9 && U32(l.order, data, 4) == v.oid && data[|data| - 1] == v.flags
    ensures At(data, 8, EncodeItems(l, 8, v.bounds)) && 8 + |EncodeItems(l, 8, v.bounds)| == |data| - 1
  {
    hide At, EncodeItems, Put31, U32;
    var a, members := Put31(l.order, v.oid), EncodeItems(l, 8, v.bounds);
    AtSplit(data, 4, a + members, Flag(v.flags));
    AtSplit(data, 4, a, members);
    UnsignedAt(l.order, data, 4, v.oid);
    FirstMoves(data, 8 + |members|, Flag(v.flags));
  }

  lemma {:induction false} DecodesRangeValue<L(!new)>(c: Context<L>, l: Layout, data: seq<byte>, t: StorageType,
      v: Value)
    requires Grounded(c) && v.RangeValue? && v.oid == t.oid < 0x1_0000_0000 && SubtypeOf(c, t).Some?
    requires RangeConforms(c, l, SubtypeOf(c, t).value, v.flags, v.bounds)
    requires At(data, 4, Body(l, v)) && |data| == 4 + |Body(l, v)|
    ensures DecodeRange(c, l, data, t) == Some(Range(v.flags, ElementFacets(c, l, SubtypeOf(c, t).value.oid, v.bounds)))
    decreases v.bounds, 2
  {
    MarksTell(c, l, SubtypeOf(c, t).value, v.flags, v.bounds);
    hide Grounded, At, U32, RangeAt, ElementFacets, RangeConforms, EncodeItems, Body;
    RangeParts(l, data, v);
    DecodesRange(c, l, data, SubtypeOf(c, t).value, v.flags, 8, |data| - 1, v.bounds);
  }

  // -- Multiranges --------------------------------------------------------------------------------------------------

  lemma {:induction false} StartsLength(l: Layout, alignment: char, p: nat, ranges: RangeList)
    ensures |Starts(l, alignment, p, ranges)| == RangeCount(ranges) == |RangeFlags(ranges)|
    decreases ranges
  {
    hide EncodeItems, AlignUp;
    if ranges.OneRange? {
      StartsLength(l, alignment, AlignUp(l, p + |EncodeItems(l, p, ranges.bounds)|, alignment), ranges.rest);
    }
  }

  lemma {:induction false} TableWords(order: ByteOrder, starts: seq<nat>, i: nat)
    requires 0 < i <= |starts|
    ensures |PutStarts(order, starts, i)| == 4 * (|starts| - i)
    decreases |starts| - i
  {
    hide StartWord, PutU32;
    if i < |starts| { TableWords(order, starts, i + 1); }
  }

  // The word of a range says where it starts.
  lemma StartStated(starts: seq<nat>, i: nat)
    requires 0 < i < |starts| && starts[0] <= starts[i - 1] <= starts[i] && starts[i] - starts[0] < 0x8000_0000
    ensures var w := StartWord(starts, i);
      (w >= 0x8000_0000 <==> i % 4 == 0) && StatedStart(w, starts[i - 1] - starts[0]) == starts[i] - starts[0]
  {
  }

  lemma RangesDone<L(!new)>(c: Context<L>, l: Layout, data: seq<byte>, subtype: StorageType, count: nat, begin: nat,
      previous: nat)
    requires Grounded(c) && |data| >= 8 && 0 < count && 12 + 4 * (count - 1) + count <= |data|
    ensures Ranges(c, l, data, subtype, count, begin, count, |data|, previous) == Some([])
  {
    hide Grounded;
  }

  lemma RangesNext<L(!new)>(
    c: Context<L>, l: Layout, data: seq<byte>, subtype: StorageType, count: nat, begin: nat, i: nat, p: nat,
    previous: nat,
    flags: nat, relative: nat, loaded: Loaded<Option<Facet<L>>>)
    requires Grounded(c) && i < count && p >= 8 && 12 + 4 * (count - 1) + count <= |data|
    requires data[12 + 4 * (count - 1) + i] == flags && flags % 2 == 0 && begin + relative == p
    requires if i == 0 then relative == 0
             else var w := U32(l.order, data, 12 + 4 * (i - 1));
               relative == StatedStart(w, previous) && (w >= 0x8000_0000 <==> i % 4 == 0)
    requires RangeAt(c, l, data, subtype, flags, p, |data|) == Some(loaded)
    requires Align(l, loaded.end, subtype.alignment).Some?
    ensures var next := Align(l, loaded.end, subtype.alignment).value;
      next >= 8 &&
      Ranges(c, l, data, subtype, count, begin, i, p, previous) ==
        Joined([Range(flags, loaded.items)], Ranges(c, l, data, subtype, count, begin, i + 1, next, relative))
  {
    hide Grounded, RangeAt, U32, StatedStart, Align;
  }

  // The first range, the space behind it and the others.
  lemma NextRange(l: Layout, data: seq<byte>, alignment: char, p: nat, ranges: RangeList)
    requires ranges.OneRange? && At(data, p, EncodeRanges(l, alignment, p, ranges))
    ensures var b := EncodeItems(l, p, ranges.bounds); var next := AlignUp(l, p + |b|, alignment);
      At(data, p, b) && At(data, next, EncodeRanges(l, alignment, next, ranges.rest)) &&
      p + |EncodeRanges(l, alignment, p, ranges)| == next + |EncodeRanges(l, alignment, next, ranges.rest)|
  {
    hide At, EncodeItems, AlignUp, Zeros;
    var b := EncodeItems(l, p, ranges.bounds);
    var next := AlignUp(l, p + |b|, alignment);
    AtSplit(data, p, b + Zeros(next - p - |b|), EncodeRanges(l, alignment, next, ranges.rest));
    AtSplit(data, p, b, Zeros(next - p - |b|));
    hide EncodeRanges;
    assert |Zeros(next - p - |b|)| == next - p - |b|;
  }

  // Where range `i` is read: its word, its flags and the starts that follow.
  lemma StartRead(l: Layout, data: seq<byte>, at: nat, starts: seq<nat>, i: nat)
    requires 0 < i < |starts|
    ensures At(data, at, PutStarts(l.order, starts, i)) ==>
      at + 4 <= |data| && U32(l.order, data, at) == StartWord(starts, i) &&
          At(data, at + 4, PutStarts(l.order, starts, i + 1))
  {
    hide At, PutU32, U32, StartWord;
    AtSplit(data, at, PutU32(l.order, StartWord(starts, i)), PutStarts(l.order, starts, i + 1));
    if At(data, at, PutStarts(l.order, starts, i)) {
      WordEnd(l.order, data, at, StartWord(starts, i));
      U32At(l.order, data, at, StartWord(starts, i));
    }
  }

  lemma FlagRead(data: seq<byte>, at: nat, ranges: RangeList)
    requires ranges.OneRange? && ranges.flags < 256 && At(data, at, RangeFlags(ranges))
    ensures at < |data| && data[at] == ranges.flags && At(data, at + 1, RangeFlags(ranges.rest))
  {
    hide At;
    AtSplit(data, at, Flag(ranges.flags), RangeFlags(ranges.rest));
    FirstMoves(data, at, Flag(ranges.flags));
  }

  lemma {:induction false} DecodesRanges<L(!new)>(
    c: Context<L>, l: Layout, data: seq<byte>, subtype: StorageType, i: nat, p: nat, ranges: RangeList,
    starts: seq<nat>)
    requires Grounded(c) && RangesConform(c, l, subtype, ranges) && Width(l, subtype.alignment) > 0
    requires p >= 8 && |data| < 0x4000_0000 && i <= |starts| && 0 < |starts|
    requires 12 + 4 * (|starts| - 1) + |starts| <= |data|
    requires At(data, p, EncodeRanges(l, subtype.alignment, p, ranges))
    requires p + |EncodeRanges(l, subtype.alignment, p, ranges)| == |data|
    requires starts[i..] == Starts(l, subtype.alignment, p, ranges) && |starts| == i + RangeCount(ranges)
    requires i == 0 ==> p == starts[0]
    requires i > 0 ==> starts[0] <= starts[i - 1] <= p
    requires At(data, 12 + 4 * (|starts| - 1) + i, RangeFlags(ranges))
    requires 0 < i ==> At(data, 12 + 4 * (i - 1), PutStarts(l.order, starts, i))
    requires i == 0 ==> At(data, 12, PutStarts(l.order, starts, 1))
    ensures Ranges(c, l, data, subtype, |starts|, starts[0], i, p, if i == 0 then 0 else starts[i - 1] - starts[0]) ==
      Some(RangeFacets(c, l, subtype.oid, ranges))
    decreases ranges, 0
  {
    hide Grounded, At, Ranges, RangeAt, EncodeItems, EncodeRanges, U32, StartWord, StatedStart, PutStarts,
      ElementFacets, RangeConforms, Starts;
    var count, begin := |starts|, starts[0];
    var previous := if i == 0 then 0 else starts[i - 1] - starts[0];
    if ranges.NoRange? {
      NoRanges(l, subtype.alignment, p);
      RangesDone(c, l, data, subtype, count, begin, previous);
    } else {
      var b := EncodeItems(l, p, ranges.bounds);
      var next := AlignUp(l, p + |b|, subtype.alignment);
      NextRange(l, data, subtype.alignment, p, ranges);
      StartsHead(l, subtype.alignment, p, ranges, starts, i);
      MarksTell(c, l, subtype, ranges.flags, ranges.bounds);
      FlagRead(data, 12 + 4 * (count - 1) + i, ranges);
      if i > 0 {
        StartRead(l, data, 12 + 4 * (i - 1), starts, i);
        StartStated(starts, i);
      }
      DecodesRange(c, l, data, subtype, ranges.flags, p, |data|, ranges.bounds);
      AlignDefined(l, p + |b|, subtype.alignment);
      hide Align, AlignUp;
      RangesNext(c, l, data, subtype, count, begin, i, p, previous, ranges.flags, p - begin,
                 Loaded(ElementFacets(c, l, subtype.oid, ranges.bounds), p + |b|));
      DecodesRanges(c, l, data, subtype, i + 1, next, ranges.rest, starts);
    }
  }

  lemma StartsHead(l: Layout, alignment: char, p: nat, ranges: RangeList, starts: seq<nat>, i: nat)
    requires ranges.OneRange? && i < |starts| && starts[i..] == Starts(l, alignment, p, ranges)
    ensures starts[i] == p
    ensures starts[i + 1..] == Starts(l, alignment, AlignUp(l, p + |EncodeItems(l, p, ranges.bounds)|, alignment),
                                      ranges.rest)
  {
    hide EncodeItems, AlignUp;
    assert starts[i] == starts[i..][0] && starts[i + 1..] == starts[i..][1..];
  }

  lemma NoRanges(l: Layout, alignment: char, p: nat)
    ensures EncodeRanges(l, alignment, p, NoRange) == []
  {
  }

  lemma MultirangeParts(l: Layout, data: seq<byte>, v: Value)
    requires v.MultirangeValue? && v.oid < 0x1_0000_0000 && At(data, 4, Body(l, v))
    requires |data| == 4 + |Body(l, v)| < 0x4000_0000
    ensures var n := RangeCount(v.ranges); var begin := AlignUp(l, TableLength(n), v.alignment);
      var starts := Starts(l, v.alignment, begin, v.ranges);
      TableLength(n) <= |data| && U32(l.order, data, 4) == v.oid && U32(l.order, data, 8) == n && |starts| == n &&
      At(data, begin, EncodeRanges(l, v.alignment, begin, v.ranges)) &&
      begin + |EncodeRanges(l, v.alignment, begin, v.ranges)| == |data| &&
      (n > 0 ==> At(data, 12, PutStarts(l.order, starts, 1)) && At(data, 12 + 4 * (n - 1), RangeFlags(v.ranges)))
  {
    hide At, Put31, U32, EncodeRanges, Starts, AlignUp, PutStarts, RangeFlags;
    var n := RangeCount(v.ranges);
    var begin := AlignUp(l, TableLength(n), v.alignment);
    var starts := Starts(l, v.alignment, begin, v.ranges);
    var a, b, words, flags := Put31(l.order, v.oid), Put31(l.order, n), PutStarts(l.order, starts, 1),
        RangeFlags(v.ranges);
    StartsLength(l, v.alignment, begin, v.ranges);
    if n > 0 { TableWords(l.order, starts, 1); } else { NoWords(l.order, starts); }
    assert RangeTable(l.order, v.oid, v.ranges, starts) == a + b + words + flags;
    assert |a + b + words + flags| == TableLength(n) - 4;
    AtEnd(data, 4, Body(l, v));
    AtSplit(data, 4, a + b + words + flags + Zeros(begin - TableLength(n)),
            EncodeRanges(l, v.alignment, begin, v.ranges));
    AtSplit(data, 4, a + b + words + flags, Zeros(begin - TableLength(n)));
    AtSplit(data, 4, a + b + words, flags);
    AtSplit(data, 4, a + b, words);
    AtSplit(data, 4, a, b);
    UnsignedAt(l.order, data, 4, v.oid);
    UnsignedAt(l.order, data, 8, n);
  }

  lemma NoWords(order: ByteOrder, starts: seq<nat>)
    requires starts == []
    ensures PutStarts(order, starts, 1) == []
  {
  }

  lemma {:induction false} DecodesMultirange<L(!new)>(c: Context<L>, l: Layout, data: seq<byte>, t: StorageType,
      v: Value)
    requires Grounded(c) && v.MultirangeValue? && v.oid == t.oid < 0x1_0000_0000 && t.rangeType in c.types
    requires SubtypeOf(c, c.types[t.rangeType]).Some?
    requires v.alignment == SubtypeOf(c, c.types[t.rangeType]).value.alignment && Width(l, v.alignment) > 0
    requires RangesConform(c, l, SubtypeOf(c, c.types[t.rangeType]).value, v.ranges)
    requires At(data, 4, Body(l, v)) && |data| == 4 + |Body(l, v)| < 0x4000_0000
    ensures DecodeMultirange(c, l, data, t) ==
      Some(Multirange(RangeFacets(c, l, SubtypeOf(c, c.types[t.rangeType]).value.oid, v.ranges)))
    decreases v.ranges, 2
  {
    hide Grounded, At, U32, Ranges, RangeFacets, RangesConform, EncodeRanges, Starts, AlignUp, Align, PutStarts,
      RangeFlags, Body, RangeCount, SubtypeOf;
    var subtype := SubtypeOf(c, c.types[t.rangeType]).value;
    var n := RangeCount(v.ranges);
    var begin := AlignUp(l, TableLength(n), v.alignment);
    var starts := Starts(l, v.alignment, begin, v.ranges);
    MultirangeParts(l, data, v);
    AlignDefined(l, TableLength(n), v.alignment);
    if n == 0 {
      NoneAtAll(c, l, subtype.oid, v.alignment, begin, v.ranges);
    } else {
      FirstStart(l, v.alignment, begin, v.ranges);
      assert starts[0..] == starts;
      DecodesRanges(c, l, data, subtype, 0, begin, v.ranges, starts);
    }
  }

  lemma NoneAtAll<L(!new)>(c: Context<L>, l: Layout, oid: nat, alignment: char, begin: nat, ranges: RangeList)
    requires Grounded(c) && RangeCount(ranges) == 0
    ensures EncodeRanges(l, alignment, begin, ranges) == [] && RangeFacets(c, l, oid, ranges) == []
  {
    hide Grounded;
  }

  lemma FirstStart(l: Layout, alignment: char, begin: nat, ranges: RangeList)
    requires RangeCount(ranges) > 0
    ensures Starts(l, alignment, begin, ranges) != [] && Starts(l, alignment, begin, ranges)[0] == begin
  {
    hide EncodeItems, AlignUp;
  }

  // -- Any value ----------------------------------------------------------------------------------------------------

  lemma DecodeFramed<L(!new)>(c: Context<L>, l: Layout, oid: nat, b: seq<byte>, header: nat)
    requires Grounded(c) && oid in c.types && Structured(RoleOf(c, oid))
    requires b != [] && FrameAt(l, b, 0) == Some(Frame(|b|, header, true))
    ensures Decode(c, l, b, oid) == DecodeContainer(c, l, Unpacked(b, header), c.types[oid])
  {
    RoleIs(c, oid);
    hide Grounded, FrameAt, DecodeContainer, Ignored, IsScalar, RoleOf;
  }

  lemma DecodesOpaque<L(!new)>(c: Context<L>, l: Layout, oid: nat, v: Value)
    requires Grounded(c) && Conforms(c, l, oid, v) && RoleOf(c, oid).Opaque?
    ensures Decode(c, l, Encode(l, v), oid) == Some(FacetOf(c, l, oid, v))
  {
    hide Grounded, FrameAt, RangeConforms, RangesConform, ElementsConform, FieldsConform, DecodeContainer, Body,
      Ignored, IsScalar, RoleOf, Fits, CellCount, HeaderOf, Presence, AllPresent, ShapeConforms, HeadConforms;
    RoleIs(c, oid);
  }

  lemma DecodesSought<L(!new)>(c: Context<L>, l: Layout, oid: nat, v: Value)
    requires Grounded(c) && Conforms(c, l, oid, v) && RoleOf(c, oid).Sought?
    ensures Decode(c, l, Encode(l, v), oid) == Some(FacetOf(c, l, oid, v))
  {
    hide Grounded, FrameAt, RangeConforms, RangesConform, ElementsConform, FieldsConform, DecodeContainer, Body,
      Ignored, IsScalar, RoleOf, Fits, CellCount, HeaderOf, Presence, AllPresent, ShapeConforms, HeadConforms;
    RoleIs(c, oid);
    SoughtHeader(l, v.bytes);
  }

  lemma SoughtHeader(l: Layout, b: seq<byte>)
    requires HeaderOf(l.order, b) > 0
    ensures b != [] && FrameAt(l, b, 0) == Some(Frame(|b|, HeaderOf(l.order, b), true))
  {
    hide PutHeader, PutU32, U32, At, FrameAt;
    HeaderFrames(l, b);
  }

  lemma NotRaw(l: Layout, v: Value)
    ensures Fits(l, v) ==> !v.Raw?
  {
    hide Body;
  }

  lemma StructuredConforms<L(!new)>(c: Context<L>, l: Layout, oid: nat, v: Value)
    requires Grounded(c) && Conforms(c, l, oid, v) && Structured(RoleOf(c, oid))
    ensures Fits(l, v) && !v.Raw?
  {
    hide Grounded, RangeConforms, RangesConform, ElementsConform, FieldsConform, Fits, RoleOf, CellCount, HeaderOf,
      Presence, AllPresent, ShapeConforms, HeadConforms;
    NotRaw(l, v);
  }

  lemma Vectors(t: StorageType)
    ensures IsVector(t) <==> t.identity in ["pg_catalog.int2vector", "pg_catalog.oidvector"]
  {
  }

  lemma {:induction false} DecodesContainer<L(!new)>(c: Context<L>, l: Layout, oid: nat, data: seq<byte>, v: Value)
    requires Grounded(c) && Conforms(c, l, oid, v) && Structured(RoleOf(c, oid))
    requires At(data, 4, Body(l, v)) && |data| == 4 + |Body(l, v)| < 0x4000_0000
    ensures DecodeContainer(c, l, data, c.types[oid]) == Some(FacetOf(c, l, oid, v))
    decreases v, 0
  {
    hide Grounded, FrameAt, RangeConforms, RangesConform, ElementsConform, FieldsConform, Fits, Ignored, IsScalar, At,
      Body, HeadConforms, RoleOf, CellCount, ElementCount, HeaderOf,
      DecodeRange, DecodeMultirange, DecodeArray, DecodeRow, ElementFacets, FieldFacets, RangeFacets, ShapeConforms,
      Presence, AllPresent, IsVector;
    var t := c.types[oid];
    RoleIs(c, oid);
    match RoleOf(c, oid)
    case OfRange => DecodesRangeValue(c, l, data, t, v);
    case OfMultirange => DecodesMultirange(c, l, data, t, v);
    case OfArray =>
      Vectors(t);
      CellsCounted(v.shape);
      DecodesArray(c, l, data, t, v);
    case OfRow => DecodesRow(c, l, data, t, v);
  }

  // Every value of a type, as a server of either byte order and alignment stores it, is decoded to its facet.
  lemma {:induction false} DecodesValue<L(!new)>(c: Context<L>, l: Layout, oid: nat, v: Value)
    requires Grounded(c) && Conforms(c, l, oid, v)
    ensures Decode(c, l, Encode(l, v), oid) == Some(FacetOf(c, l, oid, v))
    decreases v, c.rank(oid) + 1
  {
    hide Grounded, Conforms, FrameAt, Body, Framed, IsScalar, Ignored, FacetOf, DecodeContainer, Decode, At, Sized,
      Unpacked, Fits, RoleOf;
    KnownType(c, l, oid, v);
    if RoleOf(c, oid).Skipped? {
      SkippedValue(c, l, oid, v);
    } else if RoleOf(c, oid).Renamed? {
      DomainValue(c, l, oid, v);
      DecodesValue(c, l, c.types[oid].base, v);
    } else if RoleOf(c, oid).Opaque? {
      DecodesOpaque(c, l, oid, v);
    } else if RoleOf(c, oid).Sought? {
      DecodesSought(c, l, oid, v);
    } else {
      StructuredConforms(c, l, oid, v);
      var header := if v.short then 1 else 4;
      FitsReads(l, v, header);
      DecodeFramed(c, l, oid, Encode(l, v), header);
      DecodesContainer(c, l, oid, Unpacked(Encode(l, v), header), v);
    }
  }

  lemma KnownType<L(!new)>(c: Context<L>, l: Layout, oid: nat, v: Value)
    requires Grounded(c) && Conforms(c, l, oid, v)
    ensures oid in c.types
  {
    hide Grounded, RangeConforms, RangesConform, ElementsConform, FieldsConform, Fits, RoleOf, CellCount, HeaderOf,
      Presence, AllPresent, ShapeConforms, HeadConforms;
  }

  lemma FitsReads(l: Layout, v: Value, header: nat)
    requires Fits(l, v) && !v.Raw? && header == if v.short then 1 else 4
    ensures var b := Encode(l, v);
      b != [] && FrameAt(l, b, 0) == Some(Frame(|b|, header, true)) &&
      |Unpacked(b, header)| == 4 + |Body(l, v)| < 0x4000_0000 && At(Unpacked(b, header), 4, Body(l, v))
  {
    hide FrameAt, Body, Framed, At, Unpacked;
    FramedReads(l, v.short, Body(l, v));
  }

  lemma SkippedValue<L(!new)>(c: Context<L>, l: Layout, oid: nat, v: Value)
    requires Grounded(c) && oid in c.types && RoleOf(c, oid).Skipped?
    ensures Decode(c, l, Encode(l, v), oid) == Some(FacetOf(c, l, oid, v))
  {
    hide Grounded, FrameAt, DecodeContainer, Ignored, IsScalar, RoleOf, Encode, HeaderOf;
    RoleIs(c, oid);
  }

  // A domain is its base type in everything.
  lemma DomainValue<L(!new)>(c: Context<L>, l: Layout, oid: nat, v: Value)
    requires Grounded(c) && oid in c.types && RoleOf(c, oid).Renamed?
    ensures c.rank(c.types[oid].base) < c.rank(oid) &&
      (Conforms(c, l, oid, v) <==> Conforms(c, l, c.types[oid].base, v))
    ensures Decode(c, l, Encode(l, v), oid) == Decode(c, l, Encode(l, v), c.types[oid].base)
    ensures FacetOf(c, l, oid, v) == FacetOf(c, l, c.types[oid].base, v)
  {
    hide FrameAt, RangeConforms, RangesConform, ElementsConform, FieldsConform, DecodeContainer, Encode, Ignored,
      IsScalar, ElementFacets, FieldFacets, RangeFacets, LeafOf, RoleOf, Fits, CellCount, HeaderOf, Presence,
      AllPresent, ShapeConforms, HeadConforms;
    RoleIs(c, oid);
  }

  // -- When byte order or alignment are not known -------------------------------------------------------------------

  lemma {:induction false} CandidateIn<L(!new)>(c: Context<L>, layouts: seq<Layout>, bytes: seq<byte>, oid: nat, k: nat)
    requires Grounded(c) && k < |layouts|
    ensures forall f :: f in Candidate(c, layouts[k], bytes, oid) ==> f in Candidates(c, layouts, bytes, oid)
    decreases |layouts|
  {
    hide Grounded, Candidate;
    if k > 0 {
      CandidateIn(c, layouts[1..], bytes, oid, k - 1);
    }
  }

  lemma {:induction false} CandidateFrom<L(!new)>(c: Context<L>, layouts: seq<Layout>, bytes: seq<byte>, oid: nat,
      f: Facet<L>) returns (k: nat)
    requires Grounded(c) && f in Candidates(c, layouts, bytes, oid)
    ensures k < |layouts| && f in Candidate(c, layouts[k], bytes, oid)
    decreases |layouts|
  {
    hide Grounded, Candidate;
    if f in Candidate(c, layouts[0], bytes, oid) {
      k := 0;
    } else {
      k := CandidateFrom(c, layouts[1..], bytes, oid, f);
      k := k + 1;
    }
  }

  predicate Possible(l: Layout, order: Option<ByteOrder>, wide: Option<bool>)
  {
    (order.Some? ==> order.value == l.order) && (wide.Some? ==> wide.value == l.wide)
  }

  lemma LayoutsPossible(l: Layout, order: Option<ByteOrder>, wide: Option<bool>)
    ensures l in Layouts(order, wide) <==> Possible(l, order, wide)
  {
    var widths := if wide.Some? then [wide.value] else [false, true];
    var all := Layouts(order, wide);
    if Possible(l, order, wide) {
      var k := if wide.Some? || !l.wide then 0 else 1;
      assert widths[k] == l.wide;
      var at := if order.Some? || l.order.Little? then k else |widths| + k;
      assert all[at] == l;
    }
  }

  predicate Reading<L(==)>(r: Option<Option<Facet<L>>>, f: Facet<L>) { r == Some(Some(f)) }

  // No possible layout reads anything but `f`.
  ghost predicate Undisputed<L(!new)>(c: Context<L>, order: Option<ByteOrder>, wide: Option<bool>, b: seq<byte>,
      oid: nat, f: Facet<L>)
    requires Grounded(c)
  {
    forall m, g :: Possible(m, order, wide) && Reading(Decode(c, m, b, oid), g) ==> g == f
  }

  lemma UndisputedSame<L(!new)>(c: Context<L>, order: Option<ByteOrder>, wide: Option<bool>, b: seq<byte>, oid: nat,
      f: Facet<L>)
    requires Grounded(c) && Undisputed(c, order, wide, b, oid, f)
    ensures forall g :: g in Candidates(c, Layouts(order, wide), b, oid) ==> g == f
  {
    hide Grounded, Decode, Layouts, Candidates;
    var layouts := Layouts(order, wide);
    forall g | g in Candidates(c, layouts, b, oid) ensures g == f {
      var j := CandidateFrom(c, layouts, b, oid, g);
      LayoutsPossible(layouts[j], order, wide);
      assert Reading(Decode(c, layouts[j], b, oid), g);
    }
  }

  lemma ReadingIsCandidate<L(!new)>(c: Context<L>, m: Layout, order: Option<ByteOrder>, wide: Option<bool>,
      b: seq<byte>, oid: nat, g: Facet<L>)
    requires Grounded(c) && Possible(m, order, wide) && Reading(Decode(c, m, b, oid), g)
    ensures g in Candidates(c, Layouts(order, wide), b, oid)
  {
    hide Grounded, Decode, Layouts, Candidates, Possible;
    var layouts := Layouts(order, wide);
    LayoutsPossible(m, order, wide);
    var j :| 0 <= j < |layouts| && layouts[j] == m;
    CandidateIn(c, layouts, b, oid, j);
    assert g in Candidate(c, m, b, oid);
  }

  lemma SameUndisputed<L(!new)>(c: Context<L>, order: Option<ByteOrder>, wide: Option<bool>, b: seq<byte>, oid: nat,
      f: Facet<L>)
    requires Grounded(c) && forall g :: g in Candidates(c, Layouts(order, wide), b, oid) ==> g == f
    ensures Undisputed(c, order, wide, b, oid, f)
  {
    hide Grounded, Decode, Layouts, Candidates, Possible;
    forall m, g | Possible(m, order, wide) && Reading(Decode(c, m, b, oid), g) ensures g == f {
      ReadingIsCandidate(c, m, order, wide, b, oid, g);
    }
  }

  // Nothing but the facet comes out, and the facet does unless another possible layout reads something else.
  lemma UnknownLayout<L(!new)>(
    c: Context<L>, l: Layout, order: Option<ByteOrder>, wide: Option<bool>, oid: nat, v: Value, f: Facet<L>)
    requires Grounded(c) && Conforms(c, l, oid, v) && FacetOf(c, l, oid, v) == Some(f) && Possible(l, order, wide)
    ensures var r := ContainerConstant(c, order, wide, Encode(l, v), oid);
      (r == None || r == Some(f)) && (r == Some(f) <==> Undisputed(c, order, wide, Encode(l, v), oid, f))
  {
    hide Grounded, Conforms, FacetOf, Encode, Decode, Layouts, Candidates, Undisputed, Possible;
    DecodesValue(c, l, oid, v);
    var b := Encode(l, v);
    var all := Candidates(c, Layouts(order, wide), b, oid);
    ReadingIsCandidate(c, l, order, wide, b, oid, f);
    var at :| 0 <= at < |all| && all[at] == f;
    if Undisputed(c, order, wide, b, oid, f) {
      UndisputedSame(c, order, wide, b, oid, f);
      forall i | 0 <= i < |all| ensures all[i] == f { assert all[i] in all; }
    } else {
      if AllSame(all) {
        assert all[at] == all[0];
        SameUndisputed(c, order, wide, b, oid, f);
      }
    }
  }

  // Told both, the decoder gives the facet.
  lemma KnownLayout<L(!new)>(c: Context<L>, l: Layout, oid: nat, v: Value, f: Facet<L>)
    requires Grounded(c) && Conforms(c, l, oid, v) && FacetOf(c, l, oid, v) == Some(f)
    ensures ContainerConstant(c, Some(l.order), Some(l.wide), Encode(l, v), oid) == Some(f)
  {
    hide Grounded, Conforms, FacetOf, Encode, Decode, Layouts, Candidates;
    DecodesValue(c, l, oid, v);
    forall m, g | Possible(m, Some(l.order), Some(l.wide)) &&
        Reading(Decode(c, m, Encode(l, v), oid), g) ensures g == f {
      assert m == l;
    }
    UnknownLayout(c, l, Some(l.order), Some(l.wide), oid, v, f);
  }

  // -- The decoder's loops ------------------------------------------------------------------------------------------

  lemma ElementsStops<L(!new)>(
    c: Context<L>, l: Layout, data: seq<byte>, e: StorageType, oid: nat, nulls: bool, fixed: nat, i: nat, count: nat,
    p: nat)
    requires Grounded(c) && i < count && p >= 8 &&
      (nulls ==> fixed + BitmapLength(count) <= |data| && BitAt(data, fixed, i))
    requires Align(l, p, e.alignment).None? || Take(l, data, Align(l, p, e.alignment).value, e.length).None?
    ensures Elements(c, l, data, e, oid, nulls, fixed, i, count, p) == None
  {
    hide Grounded, BitAt, Take, Align, Decode;
  }

  method LoadElements<L(!new)>(
    c: Context<L>, l: Layout, data: seq<byte>, element: StorageType, oid: nat, nulls: bool, fixed: nat, count: nat,
    start: nat)
    returns (r: Option<Loaded<Option<Facet<L>>>>)
    requires Grounded(c) && start >= 8 && (nulls ==> fixed + BitmapLength(count) <= |data|)
    ensures r == Elements(c, l, data, element, oid, nulls, fixed, 0, count, start)
    decreases |data|, 5
  {
    hide Grounded, Elements, Decode, After, Before, BitAt, Take, Align;
    var elements: seq<Option<Facet<L>>> := [];
    var position := start;
    AfterEnds(elements, start, Elements(c, l, data, element, oid, nulls, fixed, 0, count, start));
    for i := 0 to count
      invariant position >= 8
      invariant Elements(c, l, data, element, oid, nulls, fixed, 0, count, start) ==
                After(elements, Elements(c, l, data, element, oid, nulls, fixed, i, count, position))
    {
      AfterEnds(elements, position, None);
      if nulls && !BitAt(data, fixed, i) {
        ElementsSkip(c, l, data, element, oid, nulls, fixed, i, count, position);
        AfterBefore(elements, None, Elements(c, l, data, element, oid, nulls, fixed, i + 1, count, position));
        elements := elements + [None];
        continue;
      }
      var aligned := Align(l, position, element.alignment);
      if aligned.None? {
        ElementsStops(c, l, data, element, oid, nulls, fixed, i, count, position);
        return None;
      }
      var value := Take(l, data, aligned.value, element.length);
      if value.None? {
        ElementsStops(c, l, data, element, oid, nulls, fixed, i, count, position);
        return None;
      }
      ElementsNext(c, l, data, element, oid, nulls, fixed, i, count, position, aligned.value, value.value);
      var facet := DecodeConstant(c, l, value.value, oid);
      if facet.None? { return None; }
      position := aligned.value + |value.value|;
      AfterBefore(elements, facet.value, Elements(c, l, data, element, oid, nulls, fixed, i + 1, count, position));
      elements := elements + [facet.value];
    }
    ElementsDone(c, l, data, element, oid, nulls, fixed, count, position);
    AfterEnds(elements, position, None);
    r := Some(Loaded(elements, position));
  }

  lemma FieldsStops<L(!new)>(
    c: Context<L>, l: Layout, data: seq<byte>, attributes: seq<Attribute>, nulls: bool, i: nat, count: nat, p: nat)
    requires Grounded(c) && i < |attributes| && p >= 8 && (nulls ==> 23 + BitmapLength(count) <= |data|)
    requires i < count && (nulls ==> BitAt(data, 23, i))
    requires var start := PackedStart(l, data, p, attributes[i].length, attributes[i].alignment);
      start.None? || Take(l, data, start.value, attributes[i].length).None?
    ensures Fields(c, l, data, attributes, nulls, i, count, p) == None
  {
    hide Grounded, BitAt, Take, PackedStart, Decode;
  }

  method LoadFields<L(!new)>(c: Context<L>, l: Layout, data: seq<byte>, attributes: seq<Attribute>, nulls: bool,
      count: nat, start: nat)
    returns (r: Option<Loaded<Option<Facet<L>>>>)
    requires Grounded(c) && start >= 8 && (nulls ==> 23 + BitmapLength(count) <= |data|)
    ensures r == Fields(c, l, data, attributes, nulls, 0, count, start)
    decreases |data|, 5
  {
    hide Grounded, Fields, Decode, After, Before, BitAt, Take, PackedStart;
    var fields: seq<Option<Facet<L>>> := [];
    var position := start;
    AfterEnds(fields, start, Fields(c, l, data, attributes, nulls, 0, count, start));
    for i := 0 to |attributes|
      invariant position >= 8
      invariant Fields(c, l, data, attributes, nulls, 0, count, start) ==
                After(fields, Fields(c, l, data, attributes, nulls, i, count, position))
    {
      var attribute := attributes[i];
      AfterEnds(fields, position, None);
      if i >= count || (nulls && !BitAt(data, 23, i)) {
        FieldsSkip(c, l, data, attributes, nulls, i, count, position);
        AfterBefore(fields, None, Fields(c, l, data, attributes, nulls, i + 1, count, position));
        if !attribute.dropped { fields := fields + [None]; }
        continue;
      }
      var aligned := PackedStart(l, data, position, attribute.length, attribute.alignment);
      if aligned.None? {
        FieldsStops(c, l, data, attributes, nulls, i, count, position);
        return None;
      }
      var value := Take(l, data, aligned.value, attribute.length);
      if value.None? {
        FieldsStops(c, l, data, attributes, nulls, i, count, position);
        return None;
      }
      FieldsNext(c, l, data, attributes, nulls, i, count, position, aligned.value, value.value);
      position := aligned.value + |value.value|;
      if !attribute.dropped {
        var facet := DecodeConstant(c, l, value.value, attribute.oid);
        if facet.None? { return None; }
        AfterBefore(fields, facet.value, Fields(c, l, data, attributes, nulls, i + 1, count, position));
        fields := fields + [facet.value];
      }
    }
    FieldsDone(c, l, data, attributes, nulls, count, position);
    AfterEnds(fields, position, None);
    r := Some(Loaded(fields, position));
  }

  lemma BoundsStops<L(!new)>(
    c: Context<L>, l: Layout, data: seq<byte>, subtype: StorageType, flags: nat, which: nat, p: nat, limit: nat)
    requires Grounded(c) && which < 2 && p >= 8 && !Infinite(flags, which)
    requires var start := PackedStart(l, data, p, subtype.length, subtype.alignment);
      start.None? || Take(l, data, start.value, subtype.length).None? ||
      start.value + |Take(l, data, start.value, subtype.length).value| > limit
    ensures Bounds(c, l, data, subtype, flags, which, p, limit) == None
  {
    hide Grounded, Infinite, Take, PackedStart, Decode;
  }

  method LoadRange<L(!new)>(c: Context<L>, l: Layout, data: seq<byte>, subtype: StorageType, flags: nat, start: nat,
      limit: nat)
    returns (r: Option<Loaded<Option<Facet<L>>>>)
    requires Grounded(c) && start >= 8
    ensures r == RangeAt(c, l, data, subtype, flags, start, limit)
    decreases |data|, 5
  {
    hide Grounded, Bounds, Decode, After, Before, Infinite, Take, PackedStart, FlagsValid;
    if !FlagsValid(flags) { return None; }
    if flags % 2 == 1 { return Some(Loaded([], start)); }
    var values: seq<Option<Facet<L>>> := [];
    var position := start;
    AfterEnds(values, start, Bounds(c, l, data, subtype, flags, 0, start, limit));
    for which := 0 to 2
      invariant position >= 8
      invariant Bounds(c, l, data, subtype, flags, 0, start, limit) ==
                After(values, Bounds(c, l, data, subtype, flags, which, position, limit))
    {
      AfterEnds(values, position, None);
      if Infinite(flags, which) {
        BoundsSkip(c, l, data, subtype, flags, which, position, limit);
        AfterBefore(values, None, Bounds(c, l, data, subtype, flags, which + 1, position, limit));
        values := values + [None];
        continue;
      }
      var aligned := PackedStart(l, data, position, subtype.length, subtype.alignment);
      if aligned.None? {
        BoundsStops(c, l, data, subtype, flags, which, position, limit);
        return None;
      }
      var value := Take(l, data, aligned.value, subtype.length);
      if value.None? || aligned.value + |value.value| > limit {
        BoundsStops(c, l, data, subtype, flags, which, position, limit);
        return None;
      }
      BoundsNext(c, l, data, subtype, flags, which, position, limit, aligned.value, value.value);
      var facet := DecodeConstant(c, l, value.value, subtype.oid);
      if facet.None? { return None; }
      position := aligned.value + |value.value|;
      AfterBefore(values, facet.value, Bounds(c, l, data, subtype, flags, which + 1, position, limit));
      values := values + [facet.value];
    }
    BoundsDone(c, l, data, subtype, flags, position, limit);
    AfterEnds(values, position, None);
    r := Some(Loaded(values, position));
  }

  lemma RangesStops<L(!new)>(
    c: Context<L>, l: Layout, data: seq<byte>, subtype: StorageType, count: nat, begin: nat, i: nat, p: nat,
    previous: nat)
    requires Grounded(c) && i < count && p >= 8 && 12 + 4 * (count - 1) + count <= |data|
    requires var flags := data[12 + 4 * (count - 1) + i];
      flags % 2 == 1 ||
      (i > 0 && var w := U32(l.order, data, 12 + 4 * (i - 1));
       (w >= 0x8000_0000) != (i % 4 == 0) || begin + StatedStart(w, previous) != p) ||
      RangeAt(c, l, data, subtype, flags, p, |data|).None? ||
      Align(l, RangeAt(c, l, data, subtype, flags, p, |data|).value.end, subtype.alignment).None?
    ensures Ranges(c, l, data, subtype, count, begin, i, p, previous) == None
  {
    hide Grounded, RangeAt, U32, StatedStart, Align;
  }

  lemma RangesEnd<L(!new)>(
    c: Context<L>, l: Layout, data: seq<byte>, subtype: StorageType, count: nat, begin: nat, p: nat, previous: nat)
    requires Grounded(c) && p >= 8 && 0 < count && 12 + 4 * (count - 1) + count <= |data|
    ensures Ranges(c, l, data, subtype, count, begin, count, p, previous) == if p == |data| then Some([]) else None
  {
    hide Grounded;
  }

  method LoadRanges<L(!new)>(c: Context<L>, l: Layout, data: seq<byte>, subtype: StorageType, count: nat, begin: nat)
    returns (r: Option<seq<Facet<L>>>)
    requires Grounded(c) && begin >= 8 && 0 < count && 12 + 4 * (count - 1) + count <= |data|
    ensures r == Ranges(c, l, data, subtype, count, begin, 0, begin, 0)
    decreases |data|, 6
  {
    hide Grounded, Ranges, RangeAt, Joined, U32, StatedStart, Align;
    var values: seq<Facet<L>> := [];
    var position, previous := begin, 0;
    JoinedEnds(values, Ranges(c, l, data, subtype, count, begin, 0, begin, 0));
    for i := 0 to count
      invariant position >= 8 && (i == 0 ==> position == begin)
      invariant Ranges(c, l, data, subtype, count, begin, 0, begin, 0) ==
                Joined(values, Ranges(c, l, data, subtype, count, begin, i, position, previous))
    {
      JoinedEnds(values, None);
      var relative := 0;
      if i > 0 {
        var item := U32(l.order, data, 12 + 4 * (i - 1));
        relative := StatedStart(item, previous);
        if (item >= 0x8000_0000) != (i % 4 == 0) || begin + relative != position {
          RangesStops(c, l, data, subtype, count, begin, i, position, previous);
          return None;
        }
      }
      var flag := data[12 + 4 * (count - 1) + i];
      if flag % 2 == 1 {
        RangesStops(c, l, data, subtype, count, begin, i, position, previous);
        return None;
      }
      var value := LoadRange(c, l, data, subtype, flag, position, |data|);
      if value.None? || Align(l, value.value.end, subtype.alignment).None? {
        RangesStops(c, l, data, subtype, count, begin, i, position, previous);
        return None;
      }
      RangesNext(c, l, data, subtype, count, begin, i, position, previous, flag, relative, value.value);
      var next := Align(l, value.value.end, subtype.alignment).value;
      JoinedTwice(values, [Range(flag, value.value.items)],
                  Ranges(c, l, data, subtype, count, begin, i + 1, next, relative));
      values := values + [Range(flag, value.value.items)];
      position, previous := next, relative;
    }
    RangesEnd(c, l, data, subtype, count, begin, position, previous);
    JoinedEnds(values, None);
    r := if position == |data| then Some(values) else None;
  }

  lemma ShapeStep(l: Layout, data: seq<byte>, vector: bool, n: nat, i: nat, count: nat)
    requires i < n && 16 + 8 * n <= |data|
    ensures var length := I32(l.order, data, 16 + 4 * i); var lower := I32(l.order, data, 16 + 4 * n + 4 * i);
      ReadShape(l, data, vector, n, i, count) ==
        if length < 0 || (length == 0 && !vector) || lower + length > 0x8000_0000 ||
            Times(count, length) > 0x7FFF_FFFF then None
        else Joined([Dimension(lower, length)], ReadShape(l, data, vector, n, i + 1, Times(count, length)))
  {
    hide I32, Times;
  }

  lemma {:induction false} ProductGrows(shape: seq<Dimension>, d: Dimension)
    ensures Product(shape + [d]) == Times(Product(shape), d.length)
    decreases |shape|
  {
    if shape == [] {
      assert (shape + [d])[1..] == [];
      OneTimes(d.length);
    } else {
      assert (shape + [d])[1..] == shape[1..] + [d];
      ProductGrows(shape[1..], d);
      hide Times;
      TimesTimes(shape[0].length, Product(shape[1..]), d.length);
    }
  }

  lemma OneTimes(a: nat)
    ensures Times(1, a) == a == Times(a, 1)
  {
  }

  lemma TimesTimes(a: nat, b: nat, c: nat)
    ensures Times(a, Times(b, c)) == Times(Times(a, b), c)
  {
    assert a * (b * c) == (a * b) * c;
  }

  method LoadShape(l: Layout, data: seq<byte>, vector: bool, dimensions: nat) returns (r: Option<seq<Dimension>>,
      count: nat)
    requires 16 + 8 * dimensions <= |data|
    ensures r == ReadShape(l, data, vector, dimensions, 0, 1)
    ensures r.Some? ==> count == ElementCount(r.value)
  {
    hide ReadShape, Times, I32, Joined;
    var shape: seq<Dimension> := [];
    var product := 1;
    count := 0;
    JoinedEnds(shape, ReadShape(l, data, vector, dimensions, 0, 1));
    for i := 0 to dimensions
      invariant product == Product(shape) && |shape| == i
      invariant ReadShape(l, data, vector, dimensions, 0, 1) ==
                Joined(shape, ReadShape(l, data, vector, dimensions, i, product))
    {
      JoinedEnds(shape, None);
      ShapeStep(l, data, vector, dimensions, i, product);
      var length := I32(l.order, data, 16 + 4 * i);
      var lower := I32(l.order, data, 16 + 4 * dimensions + 4 * i);
      if length < 0 || (length == 0 && !vector) || lower + length > 0x8000_0000 ||
          Times(product, length) > 0x7FFF_FFFF { return None, 0; }
      ProductGrows(shape, Dimension(lower, length));
      JoinedTwice(shape, [Dimension(lower, length)],
                  ReadShape(l, data, vector, dimensions, i + 1, Times(product, length)));
      product := Times(product, length);
      shape := shape + [Dimension(lower, length)];
    }
    ShapeDone(l, data, vector, dimensions, product);
    JoinedEnds(shape, None);
    r := Some(shape);
    count := if dimensions == 0 then 0 else product;
  }

  lemma ShapeDone(l: Layout, data: seq<byte>, vector: bool, n: nat, count: nat)
    requires 16 + 8 * n <= |data|
    ensures ReadShape(l, data, vector, n, n, count) == Some([])
  {
  }

  method LoadArray<L(!new)>(c: Context<L>, l: Layout, data: seq<byte>, t: StorageType) returns (r: Option<Facet<L>>)
    requires Grounded(c)
    ensures r == DecodeArray(c, l, data, t)
    decreases |data|, 6
  {
    hide Grounded, Elements, ReadShape, U32, I32, ZeroTail, ElementCount, IsVector;
    if |data| < 16 || U32(l.order, data, 12) != t.element || t.element !in c.types { return None; }
    var dimensions, offset, element := I32(l.order, data, 4), I32(l.order, data, 8), c.types[t.element];
    if dimensions < 0 || dimensions > 6 || 16 + dimensions * 8 > |data| { return None; }
    var shape, count := LoadShape(l, data, IsVector(t), dimensions);
    if shape.None? { return None; }
    var fixed := 16 + dimensions * 8;
    if offset < 0 || (offset != 0 && (offset < fixed + BitmapLength(count) || offset > |data|)) { return None; }
    var elements := LoadElements(c, l, data, element, t.element, offset != 0, fixed, count,
                                 if offset != 0 then offset else fixed);
    if elements.None? || !ZeroTail(data, elements.value.end) { return None; }
    r := Some(Array(if c.arrayStorage then Some(offset != 0) else None, element.delimiter, shape.value,
                    elements.value.items));
  }

  method LoadRow<L(!new)>(c: Context<L>, l: Layout, data: seq<byte>, t: StorageType) returns (r: Option<Facet<L>>)
    requires Grounded(c)
    ensures r == DecodeRow(c, l, data, t)
    decreases |data|, 6
  {
    hide Grounded, Fields, U32, U16, ZeroTail;
    if |data| < 23 || U32(l.order, data, 8) != t.oid { return None; }
    var count, flags, offset := U16(l.order, data, 18) % 2048, U16(l.order, data, 20), data[22];
    var nulls := flags % 2 == 1;
    if count > |t.attributes| || flags / 8 % 2 == 1 || offset < 23 + (if nulls then BitmapLength(count) else 0) ||
        offset > |data| {
      return None;
    }
    var fields := LoadFields(c, l, data, t.attributes, nulls, count, offset);
    r := if fields.None? || !ZeroTail(data, fields.value.end) then None else Some(Record(fields.value.items));
  }

  method LoadRangeValue<L(!new)>(c: Context<L>, l: Layout, data: seq<byte>,
      t: StorageType) returns (r: Option<Facet<L>>)
    requires Grounded(c)
    ensures r == DecodeRange(c, l, data, t)
    decreases |data|, 7
  {
    hide Grounded, RangeAt, U32;
    var subtype := SubtypeOf(c, t);
    if subtype.None? || |data| < 9 || U32(l.order, data, 4) != t.oid { return None; }
    var last := |data| - 1;
    var loaded := LoadRange(c, l, data, subtype.value, data[last], 8, last);
    r := if loaded.Some? && loaded.value.end == last then Some(Range(data[last], loaded.value.items)) else None;
  }

  method LoadMultirange<L(!new)>(c: Context<L>, l: Layout, data: seq<byte>,
      t: StorageType) returns (r: Option<Facet<L>>)
    requires Grounded(c)
    ensures r == DecodeMultirange(c, l, data, t)
    decreases |data|, 7
  {
    hide Grounded, Ranges, U32, SubtypeOf, Align;
    if t.rangeType !in c.types || SubtypeOf(c, c.types[t.rangeType]).None? || |data| < 12 ||
        U32(l.order, data, 4) != t.oid { return None; }
    var subtype := SubtypeOf(c, c.types[t.rangeType]).value;
    var count := U32(l.order, data, 8);
    if count == 0 {
      return if Align(l, 12, subtype.alignment) == Some(|data|) then Some(Multirange([])) else None;
    }
    var flags := 12 + 4 * (count - 1);
    if count > 0x7FFF_FFFF || flags + count > |data| { return None; }
    var begin := Align(l, flags + count, subtype.alignment);
    if begin.None? || begin.value > |data| { return None; }
    var ranges := LoadRanges(c, l, data, subtype, count, begin.value);
    r := if ranges.None? then None else Some(Multirange(ranges.value));
  }

  lemma UnpackedLength(l: Layout, input: seq<byte>, f: Frame)
    requires FrameAt(l, input, 0) == Some(f)
    ensures |input| > 0 && |Unpacked(input, f.header)| < |input| + 4
  {
    hide U32;
  }

  // The recursive decoder: a domain is its base type, everything else inside a container is strictly shorter.
  method DecodeConstant<L(!new)>(c: Context<L>, l: Layout, input: seq<byte>,
      oid: nat) returns (r: Option<Option<Facet<L>>>)
    requires Grounded(c)
    ensures r == Decode(c, l, input, oid)
    decreases |input| + 4, c.rank(oid), 9
  {
    hide FrameAt, DecodeRange, DecodeMultirange, DecodeArray, DecodeRow, IsScalar, Ignored, Unpacked;
    if oid !in c.types { return None; }
    var t := c.types[oid];
    if Ignored(c, oid) { return Some(None); }
    if t.kind == 'd' {
      r := DecodeConstant(c, l, input, t.base);
      return;
    }
    if IsScalar(c, t) { return if c.scalar.None? then Some(None) else OfLeaf(c.scalar.value(input, t)); }
    var stored := FrameAt(l, input, 0);
    if stored.None? || stored.value.length != |input| || !stored.value.plain { return None; }
    if t.identity == c.identity { return OfLeaf(c.leaf(input, stored.value.header)); }
    UnpackedLength(l, input, stored.value);
    var data := Unpacked(input, stored.value.header);
    var facet: Option<Facet<L>>;
    if c.ranges && t.kind == 'r' {
      facet := LoadRangeValue(c, l, data, t);
    } else if c.ranges && t.kind == 'm' {
      facet := LoadMultirange(c, l, data, t);
    } else if t.element != 0 {
      facet := LoadArray(c, l, data, t);
    } else {
      facet := LoadRow(c, l, data, t);
    }
    r := if facet.None? then None else Some(Some(facet.value));
  }

  // The two nested loops over byte orders and alignments.
  method ReadContainerConstant<L(!new, ==)>(
    c: Context<L>, order: Option<ByteOrder>, wide: Option<bool>, bytes: seq<byte>,
    oid: nat) returns (r: Option<Facet<L>>)
    requires Grounded(c)
    ensures r == ContainerConstant(c, order, wide, bytes, oid)
  {
    hide Grounded, Decode, Candidates, Layouts;
    var layouts := Layouts(order, wide);
    var candidates: seq<Facet<L>> := [];
    assert layouts[0..] == layouts;
    for i := 0 to |layouts|
      invariant Candidates(c, layouts, bytes, oid) == candidates + Candidates(c, layouts[i..], bytes, oid)
    {
      CandidatesStep(c, layouts[i..], bytes, oid);
      assert layouts[i..][1..] == layouts[i + 1..];
      var result := DecodeConstant(c, layouts[i], bytes, oid);
      if result.Some? && result.value.Some? { candidates := candidates + [result.value.value]; }
    }
    CandidatesDone(c, layouts[|layouts|..], bytes, oid);
    assert candidates + [] == candidates;
    r := if candidates != [] && AllSame(candidates) then Some(candidates[0]) else None;
  }

  lemma CandidatesStep<L(!new)>(c: Context<L>, layouts: seq<Layout>, bytes: seq<byte>, oid: nat)
    requires Grounded(c) && layouts != []
    ensures Candidates(c, layouts, bytes, oid) == Candidate(c, layouts[0], bytes, oid) +
      Candidates(c, layouts[1..], bytes, oid)
  {
    hide Grounded, Candidate;
  }

  lemma CandidatesDone<L(!new)>(c: Context<L>, layouts: seq<Layout>, bytes: seq<byte>, oid: nat)
    requires Grounded(c) && layouts == []
    ensures Candidates(c, layouts, bytes, oid) == []
  {
    hide Grounded, Candidate;
  }
}
