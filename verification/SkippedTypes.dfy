/** What the container decoder may skip: a type that is not made of the wanted one holds none of its values. */
module SkippedTypes {
  import opened Bytes
  import opened Loops
  import opened Reachability
  import opened Container
  import T = TypeClosures

  // As the server's catalog has it: of element, subtype and range type a type has the one its kind asks for, and
  // only composite types have attributes.
  predicate Regular(types: map<nat, StorageType>)
  {
    T.Keyed(types) && forall oid :: oid in types ==> RegularType(types[oid]) && MembersAreRanges(types, types[oid])
  }

  predicate RegularType(t: StorageType)
  {
    (t.kind == 'r' ==> t.element == 0 && t.rangeSubtype != 0) &&
    (t.kind == 'm' ==> t.element == 0 && t.rangeSubtype == 0 && t.rangeType != 0) &&
    (t.kind == 'c' ==> t.element == 0 && t.rangeSubtype == 0 && t.rangeType == 0)
  }

  predicate MembersAreRanges(types: map<nat, StorageType>, t: StorageType)
  {
    t.kind == 'm' && t.rangeType in types ==> types[t.rangeType].kind == 'r'
  }

  ghost predicate NoLeaf<L>(f: Facet<L>)
    decreases f
  {
    match f
    case Leaf(_) => false
    case Record(fields) => forall i :: 0 <= i < |fields| ==> fields[i].None? || NoLeaf(fields[i].value)
    case Range(_, bounds) => forall i :: 0 <= i < |bounds| ==> bounds[i].None? || NoLeaf(bounds[i].value)
    case Multirange(ranges) => forall i :: 0 <= i < |ranges| ==> NoLeaf(ranges[i])
    case Array(_, _, _, elements) => forall i :: 0 <= i < |elements| ==> elements[i].None? || NoLeaf(elements[i].value)
  }

  ghost predicate NoLeaves<L>(cells: seq<Option<Facet<L>>>)
  {
    forall i :: 0 <= i < |cells| ==> cells[i].None? || NoLeaf(cells[i].value)
  }

  // Neither the wanted type nor made of it.
  ghost predicate Foreign<L>(c: Context<L>, oid: nat)
  {
    !T.MadeOf(c.types, c.ranges, T.ByIdentity(c.identity), oid)
  }

  // What a foreign type is made of is foreign.
  lemma PartForeign<L>(c: Context<L>, oid: nat, part: nat)
    requires oid in c.types && part in T.PartsOf(c.types[oid], c.ranges) && Foreign(c, oid)
    ensures Foreign(c, part)
  {
    var w := T.ByIdentity(c.identity);
    if T.MadeOf(c.types, c.ranges, w, part) {
      var root :| root in T.WantedIn(c.types, w) && Reaches(T.Owners(c.types, c.ranges), root, part);
      assert oid in T.Owners(c.types, c.ranges)(part);
      ReachesOn(T.Owners(c.types, c.ranges), root, part, oid);
    }
  }

  lemma ForeignIsNotWanted<L>(c: Context<L>, oid: nat)
    requires oid in c.types && Foreign(c, oid)
    ensures c.types[oid].identity != c.identity
  {
    if c.types[oid].identity == c.identity {
      assert oid in T.WantedIn(c.types, T.ByIdentity(c.identity));
      ReachesItself(T.Owners(c.types, c.ranges), oid);
    }
  }

  // -- Reading a value of a foreign type --------------------------------------------------------------------------

  ghost predicate ReadsNoLeaf<L(!new)>(r: Option<Option<Facet<L>>>)
  {
    r.Some? && r.value.Some? ==> NoLeaf(r.value.value)
  }

  lemma {:induction false} ForeignReads<L(!new)>(c: Context<L>, l: Layout, input: seq<byte>, oid: nat)
    requires Grounded(c) && Regular(c.types) && c.scalar.None? && Foreign(c, oid)
    ensures ReadsNoLeaf(Decode(c, l, input, oid))
    decreases |input| + 4, c.rank(oid), 9
  {
    hide Foreign, FrameAt, DecodeContainer, Regular, NoLeaf, IsScalar, Ignored, Unpacked;
    if oid in c.types && !Ignored(c, oid) {
      var t := c.types[oid];
      ForeignIsNotWanted(c, oid);
      if t.kind == 'd' {
        DomainPart(c, oid);
        PartForeign(c, oid, t.base);
        ForeignReads(c, l, input, t.base);
      } else if !IsScalar(c, t) && FrameAt(l, input, 0).Some? {
        UnpackedLength(l, input, FrameAt(l, input, 0).value);
        ContainerReads(c, l, Unpacked(input, FrameAt(l, input, 0).value.header), oid);
      }
    }
  }

  lemma DomainPart<L>(c: Context<L>, oid: nat)
    requires oid in c.types && c.types[oid].kind == 'd'
    ensures c.types[oid].base in T.PartsOf(c.types[oid], c.ranges)
  {
  }

  lemma {:induction false} ContainerReads<L(!new)>(c: Context<L>, l: Layout, data: seq<byte>, oid: nat)
    requires Grounded(c) && Regular(c.types) && c.scalar.None? && Foreign(c, oid) && oid in c.types
    requires c.types[oid].kind != 'd' && !IsScalar(c, c.types[oid]) && c.types[oid].identity != c.identity
    ensures ReadsNoLeaf(DecodeContainer(c, l, data, c.types[oid]))
    decreases |data|, 8
  {
    hide Grounded, Foreign, NoLeaf, DecodeRange, DecodeMultirange, DecodeArray, DecodeRow, Regular;
    var t := c.types[oid];
    if c.ranges && t.kind == 'r' {
      RangeReads(c, l, data, oid);
    } else if c.ranges && t.kind == 'm' {
      MultirangeReads(c, l, data, oid);
    } else if t.element != 0 {
      ArrayReads(c, l, data, oid);
    } else {
      RowReads(c, l, data, oid);
    }
  }

  ghost predicate FacetWithout<L>(r: Option<Facet<L>>) { r.Some? ==> NoLeaf(r.value) }

  ghost predicate LoadedWithout<L>(r: Option<Loaded<Option<Facet<L>>>>) { r.Some? ==> NoLeaves(r.value.items) }

  lemma BeforeWithout<L>(facet: Option<Facet<L>>, rest: Option<Loaded<Option<Facet<L>>>>)
    requires (facet.Some? ==> NoLeaf(facet.value)) && LoadedWithout(rest)
    ensures LoadedWithout(Before(facet, rest))
  {
    hide NoLeaf;
  }

  // -- Arrays --

  lemma {:induction false} ArrayReads<L(!new)>(c: Context<L>, l: Layout, data: seq<byte>, oid: nat)
    requires Grounded(c) && Regular(c.types) && c.scalar.None? && Foreign(c, oid) && oid in c.types
    requires c.types[oid].kind != 'd' && c.types[oid].element != 0
    ensures FacetWithout(DecodeArray(c, l, data, c.types[oid]))
    decreases |data|, 7
  {
    hide Grounded, Foreign, Elements, ReadShape, U32, I32, ZeroTail, ElementCount, IsVector, Regular, LoadedWithout,
      NoLeaves, NoLeaf;
    var t := c.types[oid];
    if DecodeArray(c, l, data, t).Some? {
      PartForeign(c, oid, t.element);
      var dimensions, offset := I32(l.order, data, 4), I32(l.order, data, 8);
      var fixed, count := 16 + dimensions * 8, ElementCount(ReadShape(l, data, IsVector(t), dimensions, 0, 1).value);
      var start := if offset != 0 then offset else fixed;
      ElementsRead(c, l, data, c.types[t.element], t.element, offset != 0, fixed, 0, count, start);
      var loaded := Elements(c, l, data, c.types[t.element], t.element, offset != 0, fixed, 0, count, start);
      ItemsWithout(loaded);
      ArrayWithout(loaded.value.items, DecodeArray(c, l, data, t).value);
    }
  }

  lemma ItemsWithout<L>(r: Option<Loaded<Option<Facet<L>>>>)
    requires r.Some? && LoadedWithout(r)
    ensures NoLeaves(r.value.items)
  {
    hide NoLeaves;
  }

  lemma ArrayWithout<L>(items: seq<Option<Facet<L>>>, f: Facet<L>)
    requires f.Array? && f.elements == items && NoLeaves(items)
    ensures NoLeaf(f)
  {
  }

  lemma {:induction false} ElementsRead<L(!new)>(
    c: Context<L>, l: Layout, data: seq<byte>, element: StorageType, oid: nat, nulls: bool, fixed: nat, i: nat,
    count: nat, position: nat)
    requires Grounded(c) && Regular(c.types) && c.scalar.None? && Foreign(c, oid)
    requires i <= count && position >= 8 && (nulls ==> fixed + BitmapLength(count) <= |data|)
    ensures LoadedWithout(Elements(c, l, data, element, oid, nulls, fixed, i, count, position))
    decreases |data|, 5, count - i
  {
    hide Grounded, Foreign, Regular, Decode, Align, Take, BitAt, Before, NoLeaf, LoadedWithout;
    if i == count {
      NothingLoaded<L>(position);
    } else if nulls && !BitAt(data, fixed, i) {
      ElementsRead(c, l, data, element, oid, nulls, fixed, i + 1, count, position);
      BeforeWithout(None, Elements(c, l, data, element, oid, nulls, fixed, i + 1, count, position));
    } else if Align(l, position, element.alignment).Some? {
      var start := Align(l, position, element.alignment).value;
      var value := Take(l, data, start, element.length);
      if value.Some? {
        ForeignReads(c, l, value.value, oid);
        var facet := Decode(c, l, value.value, oid);
        if facet.Some? {
          ElementsRead(c, l, data, element, oid, nulls, fixed, i + 1, count, start + |value.value|);
          BeforeWithout(facet.value,
                        Elements(c, l, data, element, oid, nulls, fixed, i + 1, count, start + |value.value|));
        }
      }
    }
    NotLoaded<L>();
  }

  lemma NothingLoaded<L>(position: nat)
    ensures LoadedWithout<L>(Some(Loaded([], position)))
  {
  }

  lemma NotLoaded<L>()
    ensures LoadedWithout<L>(None)
  {
  }

  // -- Rows --

  ghost predicate AllForeign<L>(c: Context<L>, attributes: seq<Attribute>)
  {
    forall i :: 0 <= i < |attributes| && !attributes[i].dropped ==> Foreign(c, attributes[i].oid)
  }

  lemma AttributesForeign<L>(c: Context<L>, oid: nat)
    requires Regular(c.types) && Foreign(c, oid) && oid in c.types && c.types[oid].kind == 'c'
    ensures AllForeign(c, c.types[oid].attributes)
  {
    hide Foreign;
    var t := c.types[oid];
    assert RegularType(t);
    forall i | 0 <= i < |t.attributes| && !t.attributes[i].dropped ensures Foreign(c, t.attributes[i].oid) {
      assert t.attributes[i] in t.attributes;
      PartForeign(c, oid, t.attributes[i].oid);
    }
  }

  lemma {:induction false} RowReads<L(!new)>(c: Context<L>, l: Layout, data: seq<byte>, oid: nat)
    requires Grounded(c) && Regular(c.types) && c.scalar.None? && Foreign(c, oid) && oid in c.types
    requires c.types[oid].kind == 'c'
    ensures FacetWithout(DecodeRow(c, l, data, c.types[oid]))
    decreases |data|, 7
  {
    hide Grounded, Foreign, Fields, U32, U16, ZeroTail, Regular, LoadedWithout, AllForeign, NoLeaves, NoLeaf;
    var t := c.types[oid];
    if DecodeRow(c, l, data, t).Some? {
      AttributesForeign(c, oid);
      var count, nulls, offset := U16(l.order, data, 18) % 2048, U16(l.order, data, 20) % 2 == 1, data[22];
      FieldsRead(c, l, data, t.attributes, nulls, 0, count, offset);
      ItemsWithout(Fields(c, l, data, t.attributes, nulls, 0, count, offset));
      RecordWithout(Fields(c, l, data, t.attributes, nulls, 0, count, offset).value.items,
                    DecodeRow(c, l, data, t).value);
    }
  }

  lemma RecordWithout<L>(items: seq<Option<Facet<L>>>, f: Facet<L>)
    requires f.Record? && f.fields == items && NoLeaves(items)
    ensures NoLeaf(f)
  {
  }

  lemma {:induction false} FieldsRead<L(!new)>(
    c: Context<L>, l: Layout, data: seq<byte>, attributes: seq<Attribute>, nulls: bool, i: nat, count: nat,
    position: nat)
    requires Grounded(c) && Regular(c.types) && c.scalar.None? && AllForeign(c, attributes)
    requires i <= |attributes| && position >= 8 && (nulls ==> 23 + BitmapLength(count) <= |data|)
    ensures LoadedWithout(Fields(c, l, data, attributes, nulls, i, count, position))
    decreases |data|, 5, |attributes| - i
  {
    hide Grounded, Foreign, Regular, Decode, PackedStart, Take, BitAt, Before, NoLeaf, LoadedWithout;
    if i == |attributes| {
      NothingLoaded<L>(position);
    } else if i >= count || (nulls && !BitAt(data, 23, i)) {
      FieldsRead(c, l, data, attributes, nulls, i + 1, count, position);
      BeforeWithout(None, Fields(c, l, data, attributes, nulls, i + 1, count, position));
    } else {
      var a := attributes[i];
      var start := PackedStart(l, data, position, a.length, a.alignment);
      var value := if start.None? then None else Take(l, data, start.value, a.length);
      if value.Some? {
        FieldsRead(c, l, data, attributes, nulls, i + 1, count, start.value + |value.value|);
        if !a.dropped {
          ForeignReads(c, l, value.value, a.oid);
          var facet := Decode(c, l, value.value, a.oid);
          if facet.Some? {
            BeforeWithout(facet.value,
                          Fields(c, l, data, attributes, nulls, i + 1, count, start.value + |value.value|));
          }
        }
      }
    }
    NotLoaded<L>();
  }

  // -- Ranges --

  lemma SubtypeForeign<L>(c: Context<L>, oid: nat)
    requires Regular(c.types) && Foreign(c, oid) && oid in c.types && c.types[oid].kind == 'r' && c.ranges
    ensures SubtypeOf(c, c.types[oid]).Some? ==> Foreign(c, SubtypeOf(c, c.types[oid]).value.oid)
  {
    hide Foreign;
    assert RegularType(c.types[oid]);
    PartForeign(c, oid, c.types[oid].rangeSubtype);
  }

  lemma {:induction false} RangeReads<L(!new)>(c: Context<L>, l: Layout, data: seq<byte>, oid: nat)
    requires Grounded(c) && Regular(c.types) && c.scalar.None? && Foreign(c, oid) && oid in c.types
    requires c.types[oid].kind == 'r' && c.ranges
    ensures FacetWithout(DecodeRange(c, l, data, c.types[oid]))
    decreases |data|, 7
  {
    hide Grounded, Foreign, RangeAt, U32, Regular, LoadedWithout, SubtypeOf, NoLeaves, NoLeaf;
    var t := c.types[oid];
    if DecodeRange(c, l, data, t).Some? {
      SubtypeForeign(c, oid);
      var last, subtype := |data| - 1, SubtypeOf(c, t).value;
      RangeAtReads(c, l, data, subtype, data[last], 8, last);
      ItemsWithout(RangeAt(c, l, data, subtype, data[last], 8, last));
      RangeWithout(data[last], RangeAt(c, l, data, subtype, data[last], 8, last).value.items,
                   DecodeRange(c, l, data, t).value);
    }
  }

  lemma RangeWithout<L>(flags: nat, items: seq<Option<Facet<L>>>, f: Facet<L>)
    requires f == Range(flags, items) && NoLeaves(items)
    ensures NoLeaf(f)
  {
  }

  lemma {:induction false} RangeAtReads<L(!new)>(c: Context<L>, l: Layout, data: seq<byte>, subtype: StorageType,
      flags: nat, start: nat, limit: nat)
    requires Grounded(c) && Regular(c.types) && c.scalar.None? && Foreign(c, subtype.oid) && start >= 8
    ensures LoadedWithout(RangeAt(c, l, data, subtype, flags, start, limit))
    decreases |data|, 5
  {
    hide Grounded, Foreign, Regular, Bounds, LoadedWithout, FlagsValid;
    NothingLoaded<L>(start);
    NotLoaded<L>();
    BoundsRead(c, l, data, subtype, flags, 0, start, limit);
  }

  lemma {:induction false} BoundsRead<L(!new)>(
    c: Context<L>, l: Layout, data: seq<byte>, subtype: StorageType, flags: nat, which: nat, position: nat, limit: nat)
    requires Grounded(c) && Regular(c.types) && c.scalar.None? && Foreign(c, subtype.oid)
    requires which <= 2 && position >= 8
    ensures LoadedWithout(Bounds(c, l, data, subtype, flags, which, position, limit))
    decreases |data|, 4, 2 - which
  {
    hide Grounded, Foreign, Regular, Decode, PackedStart, Take, Infinite, Before, NoLeaf, LoadedWithout;
    if which == 2 {
      NothingLoaded<L>(position);
    } else if Infinite(flags, which) {
      BoundsRead(c, l, data, subtype, flags, which + 1, position, limit);
      BeforeWithout(None, Bounds(c, l, data, subtype, flags, which + 1, position, limit));
    } else {
      var start := PackedStart(l, data, position, subtype.length, subtype.alignment);
      var value := if start.None? then None else Take(l, data, start.value, subtype.length);
      if value.Some? {
        ForeignReads(c, l, value.value, subtype.oid);
        var facet := Decode(c, l, value.value, subtype.oid);
        if facet.Some? {
          BoundsRead(c, l, data, subtype, flags, which + 1, start.value + |value.value|, limit);
          BeforeWithout(facet.value,
                        Bounds(c, l, data, subtype, flags, which + 1, start.value + |value.value|, limit));
        }
      }
    }
    NotLoaded<L>();
  }

  // -- Multiranges --

  lemma {:induction false} MultirangeReads<L(!new)>(c: Context<L>, l: Layout, data: seq<byte>, oid: nat)
    requires Grounded(c) && Regular(c.types) && c.scalar.None? && Foreign(c, oid) && oid in c.types
    requires c.types[oid].kind == 'm' && c.ranges
    ensures FacetWithout(DecodeMultirange(c, l, data, c.types[oid]))
    decreases |data|, 7
  {
    hide Grounded, Foreign, Ranges, U32, Regular, SubtypeOf, Align, AllWithout;
    var t := c.types[oid];
    var r := DecodeMultirange(c, l, data, t);
    if r.Some? {
      MemberForeign(c, oid);
      var subtype, count := SubtypeOf(c, c.types[t.rangeType]).value, U32(l.order, data, 8);
      if count > 0 {
        var begin := Align(l, 12 + 4 * (count - 1) + count, subtype.alignment).value;
        RangesRead(c, l, data, subtype, count, begin, 0, begin, 0);
        MultirangeWithout(Ranges(c, l, data, subtype, count, begin, 0, begin, 0).value, r.value);
      } else {
        NoRangesWithout<L>();
        MultirangeWithout([], r.value);
      }
    }
  }

  lemma MemberForeign<L>(c: Context<L>, oid: nat)
    requires Regular(c.types) && Foreign(c, oid) && oid in c.types && c.types[oid].kind == 'm' && c.ranges
    requires c.types[oid].rangeType in c.types
    ensures SubtypeOf(c, c.types[c.types[oid].rangeType]).Some? ==>
      Foreign(c, SubtypeOf(c, c.types[c.types[oid].rangeType]).value.oid)
  {
    hide Foreign;
    assert RegularType(c.types[oid]);
    PartForeign(c, oid, c.types[oid].rangeType);
    var range := c.types[oid].rangeType;
    assert MembersAreRanges(c.types, c.types[oid]) && RegularType(c.types[range]);
    if c.types[range].rangeSubtype in c.types { PartForeign(c, range, c.types[range].rangeSubtype); }
  }

  ghost predicate AllWithout<L>(ranges: seq<Facet<L>>) { forall i :: 0 <= i < |ranges| ==> NoLeaf(ranges[i]) }

  lemma NoRangesWithout<L>()
    ensures AllWithout<L>([])
  {
  }

  lemma MultirangeWithout<L>(ranges: seq<Facet<L>>, f: Facet<L>)
    requires f == Multirange(ranges) && AllWithout(ranges)
    ensures NoLeaf(f)
  {
  }

  lemma {:induction false} RangesRead<L(!new)>(
    c: Context<L>, l: Layout, data: seq<byte>, subtype: StorageType, count: nat, begin: nat, i: nat, position: nat,
    previous: nat)
    requires Grounded(c) && Regular(c.types) && c.scalar.None? && Foreign(c, subtype.oid)
    requires i <= count && position >= 8 && 0 < count && 12 + 4 * (count - 1) + count <= |data|
    ensures Ranges(c, l, data, subtype, count, begin, i, position, previous).Some? ==>
      AllWithout(Ranges(c, l, data, subtype, count, begin, i, position, previous).value)
    decreases |data|, 6, count - i
  {
    hide Grounded, Foreign, Regular, RangeAt, U32, StatedStart, Align, NoLeaf, LoadedWithout, NoLeaves;
    if i < count && Ranges(c, l, data, subtype, count, begin, i, position, previous).Some? {
      var relative := if i == 0 then 0 else StatedStart(U32(l.order, data, 12 + 4 * (i - 1)), previous);
      var flags := data[12 + 4 * (count - 1) + i];
      var loaded := RangeAt(c, l, data, subtype, flags, position, |data|).value;
      RangeAtReads(c, l, data, subtype, flags, position, |data|);
      ItemsWithout(RangeAt(c, l, data, subtype, flags, position, |data|));
      RangeWithout(flags, loaded.items, Range(flags, loaded.items));
      RangesRead(c, l, data, subtype, count, begin, i + 1, Align(l, loaded.end, subtype.alignment).value, relative);
    }
  }

  // A type that the worklist leaves out holds no value of the wanted type, whatever bytes are stored in it: leaving
  // it unread loses nothing.
  lemma SkippingLosesNothing<L(!new)>(c: Context<L>, l: Layout, input: seq<byte>, oid: nat, f: Facet<L>)
    requires Grounded(c) && Regular(c.types) && c.scalar.None? && oid in c.types
    requires !T.MadeOf(c.types, c.ranges, T.ByIdentity(c.identity), oid)
    ensures Decode(c, l, input, oid) == Some(Some(f)) ==> NoLeaf(f)
  {
    hide Grounded, Decode, NoLeaf, Regular;
    assert Foreign(c, oid);
    ForeignReads(c, l, input, oid);
  }
}
