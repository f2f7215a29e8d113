/** The native form of a jsonpath, written from the path, and the round trip through it. */
module JsonpathEncode {
  import opened Bytes
  import opened Parts
  import opened Decimal
  import opened JsonpathTable
  import opened Jsonpath
  import opened JsonpathUnfold
  import opened JsonpathStored
  import N = Numeric

  const LIMIT: nat := 0x4000_0000

  // -- Paths a server can store --------------------------------------------------------------------------------

  ghost predicate Stores(number: string, n: N.Stored)
  {
    N.FitsLong(n) && N.FiniteText(n) == Some(number) && (forall order :: |N.PutLong(order, n)| + 4 < LIMIT)
  }

  ghost predicate Storable(utf8: bool, d: Detail)
  {
    match d
    case TextDetail(s) => Readable(utf8, s) && |s| < LIMIT
    case RegexDetail(_, s) => Readable(utf8, s) && |s| < LIMIT
    case NumberDetail(t) => exists n :: Stores(t, n)
    case _ => true
  }

  ghost predicate Encodable(utf8: bool, p: Path)
    decreases p
  {
    IsKnown(p.kind) && FitsDetail(p.kind, p.detail) && Storable(utf8, p.detail) && FitsArgs(p.kind, Count(p.args)) &&
    Count(p.args) < LIMIT && Given(p.kind, 0, p.args) && EncodableArgs(utf8, p.args) &&
        (p.next.Some? ==> Encodable(utf8, p.next.value))
  }

  ghost predicate EncodableArgs(utf8: bool, args: Args)
    decreases args
  {
    match args
    case NoArgs => true
    case Arg(first, rest) => (first.Some? ==> Encodable(utf8, first.value)) && EncodableArgs(utf8, rest)
  }

  // -- The encoder -------------------------------------------------------------------------------------------------

  // The distance from an item to another one, 0 for none.
  function Relative(at: nat, position: nat): nat
  {
    if position < at < position + 0x1_0000_0000 then at - position else 0
  }

  ghost function Put(order: ByteOrder, v: int): (b: seq<byte>)
    ensures |b| == 4
  {
    PutU32(order, if 0 <= v < 0x1_0000_0000 then v else 0xFFFF_FFFF)
  }

  ghost function Words(order: ByteOrder, ats: seq<nat>, position: nat): (b: seq<byte>)
    ensures |b| == 4 * |ats|
  {
    if ats == [] then [] else Put(order, Relative(ats[0], position)) + Words(order, ats[1..], position)
  }

  ghost function NumberBytes(order: ByteOrder, number: string): seq<byte>
  {
    if exists n :: Stores(number, n) then
      var n :| Stores(number, n);
      N.Framed(order, false, N.PutLong(order, n))
    else []
  }

  // What stands between the distance to the next item and the first argument.
  ghost function Payload(order: ByteOrder, k: nat, d: Detail, ats: seq<nat>, position: nat): seq<byte>
  {
    match d
    case TextDetail(s) => Put(order, |s|) + s + [0]
    case NumberDetail(t) => NumberBytes(order, t)
    case BoolDetail(b) => [if b then 1 else 0]
    case BoundsDetail(first, last) => Put(order, first) + Put(order, last)
    case RegexDetail(flags, s) => Put(order, flags) + Words(order, ats, position) + Put(order, |s|) + s + [0]
    case NoDetail =>
      (if k == SUBSCRIPTS then Put(order, |ats| / 2) else []) + Words(order, ats, position)
  }

  // The next multiple of four behind an item's kind.
  function WordAt(position: nat): (at: nat)
    ensures position < at
  {
    (position + 4) / 4 * 4
  }

  function Padding(position: nat): (b: seq<byte>)
    ensures position + 1 + |b| == WordAt(position)
  {
    seq(WordAt(position) - position - 1, _ => 0)
  }

  function KindByte(k: nat): byte { if k < 256 then k else 0 }

  ghost function Head(order: ByteOrder, k: nat, d: Detail, ats: seq<nat>, next: nat, position: nat): seq<byte>
  {
    [KindByte(k)] + Padding(position) + Put(order, Relative(next, position)) + Payload(order, k, d, ats, position)
  }

  // Where the arguments of an item begin.
  ghost function HeadEnd(order: ByteOrder, k: nat, d: Detail, count: nat, position: nat): nat
  {
    position + |Head(order, k, d, seq(count, _ => 0), 0, position)|
  }

  ghost function Encode(order: ByteOrder, p: Path, position: nat): seq<byte>
    decreases p
  {
    var start := HeadEnd(order, p.kind, p.detail, Count(p.args), position);
    var args := EncodeArgs(order, p.args, start);
    Head(order, p.kind, p.detail, ArgsAtPositions(order, p.args, start), if p.next.None? then 0 else start + |args|,
         position) + args +
    if p.next.None? then [] else Encode(order, p.next.value, start + |args|)
  }

  ghost function EncodeArgs(order: ByteOrder, args: Args, at: nat): seq<byte>
    decreases args
  {
    match args
    case NoArgs => []
    case Arg(first, rest) =>
      var a := if first.None? then [] else Encode(order, first.value, at);
      a + EncodeArgs(order, rest, at + |a|)
  }

  // The position of each argument, 0 for one left out.
  ghost function ArgsAtPositions(order: ByteOrder, args: Args, at: nat): (ats: seq<nat>)
    ensures |ats| == Count(args)
    decreases args
  {
    match args
    case NoArgs => []
    case Arg(first, rest) =>
      var a := if first.None? then [] else Encode(order, first.value, at);
      [if first.None? then 0 else at] + ArgsAtPositions(order, rest, at + |a|)
  }

  lemma HeadLength(order: ByteOrder, k: nat, d: Detail, ats: seq<nat>, next: nat, position: nat)
    ensures position + |Head(order, k, d, ats, next, position)| == HeadEnd(order, k, d, |ats|, position)
    ensures position < HeadEnd(order, k, d, |ats|, position)
  {
    hide Put, NumberBytes, Padding;
    var zeros := seq(|ats|, _ => 0);
    assert |Words(order, zeros, position)| == |Words(order, ats, position)|;
    hide Words, Relative;
  }

  // -- Reading what was written -------------------------------------------------------------------------------------

  lemma PutReads(x: Image, at: nat, v: int)
    requires 0 <= v < 0x1_0000_0000 && At(x.data, at, Put(x.order, v))
    ensures Word(x, at) == Some(v)
  {
    U32At(x.order, x.data, at, v);
  }

  // The words of the slots are the distances to the arguments.
  ghost predicate Wired(x: Image, position: nat, slots: seq<Slot>, ats: seq<nat>)
  {
    |slots| == |ats| && forall i :: 0 <= i < |slots| ==> Word(x, slots[i].at) == Some(Relative(ats[i], position))
  }

  lemma {:induction false} WordsRead(x: Image, at: nat, ats: seq<nat>, position: nat)
    requires At(x.data, at, Words(x.order, ats, position))
    ensures forall i :: 0 <= i < |ats| ==> Word(x, at + 4 * i) == Some(Relative(ats[i], position))
    decreases |ats|
  {
    hide Put, Word, At, Relative;
    if ats != [] {
      AtSplit(x.data, at, Put(x.order, Relative(ats[0], position)), Words(x.order, ats[1..], position));
      SmallRelative(ats[0], position);
      PutReads(x, at, Relative(ats[0], position));
      WordsRead(x, at + 4, ats[1..], position);
      forall i | 1 <= i < |ats| ensures Word(x, at + 4 * i) == Some(Relative(ats[i], position)) {
        assert ats[1..][i - 1] == ats[i] && at + 4 + 4 * (i - 1) == at + 4 * i;
      }
    }
  }

  lemma SmallRelative(at: nat, position: nat)
    ensures Relative(at, position) < 0x1_0000_0000
  {
  }

  // Slots in a row.
  ghost predicate InRow(slots: seq<Slot>, at: nat)
  {
    forall i :: 0 <= i < |slots| ==> slots[i].at == at + 4 * i
  }

  lemma RowWired(x: Image, position: nat, slots: seq<Slot>, at: nat, ats: seq<nat>)
    requires InRow(slots, at) && |slots| == |ats| && At(x.data, at, Words(x.order, ats, position))
    ensures Wired(x, position, slots, ats)
  {
    hide Word, Words, At, Relative;
    WordsRead(x, at, ats, position);
  }

  ghost predicate Marked(k: nat, slots: seq<Slot>)
  {
    forall i :: 0 <= i < |slots| ==> slots[i].optional == Optional(k, i)
  }

  lemma {:induction false} SubscriptRow(at: nat, count: nat)
    ensures InRow(SubscriptSlots(at, count), at)
    ensures forall i :: 0 <= i < 2 * count ==> SubscriptSlots(at, count)[i].optional == (i % 2 == 1)
    decreases count
  {
    if count > 0 {
      SubscriptRow(at + 8, count - 1);
      var rest, slots := SubscriptSlots(at + 8, count - 1), SubscriptSlots(at, count);
      forall i | 2 <= i < 2 * count ensures slots[i].at == at + 4 * i && slots[i].optional == (i % 2 == 1) {
        assert slots[i] == rest[i - 2];
      }
    }
  }

  lemma SlotsRead(x: Image, k: nat, d: Detail, ats: seq<nat>, payload: nat, position: nat)
    requires IsKnown(k) && FitsDetail(k, d) && FitsArgs(k, |ats|) && |ats| < LIMIT
    requires At(x.data, payload, Payload(x.order, k, d, ats, position))
    ensures Slots(x, k, payload).Some? && Wired(x, position, Slots(x, k, payload).value, ats)
    ensures Marked(k, Slots(x, k, payload).value)
  {
    if k == SUBSCRIPTS {
      SubscriptsRead(x, d, ats, payload, position);
    } else if k == 42 {
      RegexSlotRead(x, d, ats, payload, position);
    } else if ats == [] {
      hide Operator, Method, ArgumentMethod, Payload, FitsDetail;
    } else {
      PlainSlotsRead(x, k, d, ats, payload, position);
    }
  }

  lemma SubscriptsRead(x: Image, d: Detail, ats: seq<nat>, payload: nat, position: nat)
    requires FitsDetail(SUBSCRIPTS, d) && FitsArgs(SUBSCRIPTS, |ats|) && |ats| < LIMIT
    requires At(x.data, payload, Payload(x.order, SUBSCRIPTS, d, ats, position))
    ensures var slots := Slots(x, SUBSCRIPTS, payload);
      slots.Some? && Wired(x, position, slots.value, ats) && Marked(SUBSCRIPTS, slots.value)
  {
    hide Put, Words, At, Word, Wired;
    AtSplit(x.data, payload, Put(x.order, |ats| / 2), Words(x.order, ats, position));
    PutReads(x, payload, |ats| / 2);
    WordsInside(x, payload + 4, ats, position);
    SubscriptRow(payload + 4, |ats| / 2);
    RowWired(x, position, SubscriptSlots(payload + 4, |ats| / 2), payload + 4, ats);
  }

  lemma WordsInside(x: Image, at: nat, ats: seq<nat>, position: nat)
    requires At(x.data, at, Words(x.order, ats, position))
    ensures at + 4 * |ats| <= |x.data|
  {
  }

  lemma RegexSlotRead(x: Image, d: Detail, ats: seq<nat>, payload: nat, position: nat)
    requires FitsDetail(42, d) && |ats| == 1 && At(x.data, payload, Payload(x.order, 42, d, ats, position))
    ensures Slots(x, 42, payload).Some? && Wired(x, position, Slots(x, 42, payload).value, ats)
    ensures Marked(42, Slots(x, 42, payload).value)
  {
    RegexParts(x, d, ats, payload, position);
    hide Words, At, Word, Wired, Payload;
    RowWired(x, position, [Slot(payload + 4, false)], payload + 4, ats);
  }

  lemma RegexParts(x: Image, d: Detail, ats: seq<nat>, payload: nat, position: nat)
    requires d.RegexDetail? && |ats| == 1 && At(x.data, payload, Payload(x.order, 42, d, ats, position))
    ensures At(x.data, payload, Put(x.order, d.flags)) && At(x.data, payload + 4, Words(x.order, ats, position))
    ensures At(x.data, payload + 8, Put(x.order, |d.pattern|)) && At(x.data, payload + 12, d.pattern)
    ensures At(x.data, payload + 12 + |d.pattern|, [0])
  {
    hide Put, Words, At;
    var a, b, c := Put(x.order, d.flags), Words(x.order, ats, position), Put(x.order, |d.pattern|);
    AtSplit(x.data, payload, a + b + c + d.pattern, [0]);
    AtSplit(x.data, payload, a + b + c, d.pattern);
    AtSplit(x.data, payload, a + b, c);
    AtSplit(x.data, payload, a, b);
  }

  lemma PlainSlotsRead(x: Image, k: nat, d: Detail, ats: seq<nat>, payload: nat, position: nat)
    requires FitsDetail(k, d) && FitsArgs(k, |ats|) && ats != [] && k != SUBSCRIPTS && k != 42
    requires At(x.data, payload, Payload(x.order, k, d, ats, position))
    ensures Slots(x, k, payload).Some? && Wired(x, position, Slots(x, k, payload).value, ats)
    ensures Marked(k, Slots(x, k, payload).value)
  {
    hide Words, At, Word, Wired, Operator, ArgumentMethod, FitsDetail;
    WithArgsNoDetail(k, d, |ats|);
    assert [] + Words(x.order, ats, position) == Words(x.order, ats, position);
    OptionalKinds(k);
    var optional := Optional(k, 0);
    if |ats| == 1 {
      RowWired(x, position, [Slot(payload, optional)], payload, ats);
    } else {
      RowWired(x, position, [Slot(payload, optional), Slot(payload + 4, optional)], payload, ats);
    }
  }

  lemma WithArgsNoDetail(k: nat, d: Detail, count: nat)
    requires FitsDetail(k, d) && FitsArgs(k, count) && count > 0 && k != 42
    ensures d.NoDetail?
  {
  }

  lemma OptionalKinds(k: nat)
    ensures IsBinary(k) || IsUnary(k) || k == DECIMAL ==> ArgumentMethod(k) == ""
    ensures IsBinary(k) ==> k != DECIMAL && k != SUBSCRIPTS
  {
  }

  lemma StringReads(x: Image, at: nat, s: seq<byte>)
    requires At(x.data, at, s) && At(x.data, at + |s|, [0]) && Readable(x.utf8, s)
    ensures ReadString(x, at, |s|) == Some(s)
  {
    AtSlice(x.data, at, s);
    AtOne(x.data, at + |s|, 0 as byte);
    hide Readable;
  }

  lemma DetailRead(x: Image, k: nat, d: Detail, ats: seq<nat>, payload: nat, position: nat)
    requires IsKnown(k) && FitsDetail(k, d) && Storable(x.utf8, d) && FitsArgs(k, |ats|)
    requires At(x.data, payload, Payload(x.order, k, d, ats, position))
    ensures ReadDetail(x, k, payload) == Some(d)
  {
    match d
    case TextDetail(s) => TextRead(x, k, s, ats, payload, position);
    case NumberDetail(t) => NumberRead(x, t, ats, payload, position);
    case BoolDetail(b) => AtOne(x.data, payload, (if b then 1 else 0) as byte);
    case BoundsDetail(first, last) => BoundsRead(x, first, last, ats, payload, position);
    case RegexDetail(flags, s) => RegexRead(x, flags, s, ats, payload, position);
    case NoDetail => hide IsKnown, Payload;
  }

  lemma TextRead(x: Image, k: nat, s: seq<byte>, ats: seq<nat>, payload: nat, position: nat)
    requires FitsDetail(k, TextDetail(s)) && Storable(x.utf8, TextDetail(s))
    requires At(x.data, payload, Payload(x.order, k, TextDetail(s), ats, position))
    ensures ReadDetail(x, k, payload) == Some(TextDetail(s))
  {
    hide Put, At, Word, ReadString, Readable, ValidUtf8;
    AtSplit(x.data, payload, Put(x.order, |s|) + s, [0]);
    AtSplit(x.data, payload, Put(x.order, |s|), s);
    PutReads(x, payload, |s|);
    StringReads(x, payload + 4, s);
  }

  lemma BoundsRead(x: Image, first: int, last: int, ats: seq<nat>, payload: nat, position: nat)
    requires FitsDetail(24, BoundsDetail(first, last))
    requires At(x.data, payload, Payload(x.order, 24, BoundsDetail(first, last), ats, position))
    ensures ReadDetail(x, 24, payload) == Some(BoundsDetail(first, last))
  {
    BoundRead(x, payload, first);
    AtSplit(x.data, payload, Put(x.order, first), Put(x.order, last));
    BoundRead(x, payload + 4, last);
    hide Put, At, Word, BoundOf;
  }

  lemma BoundRead(x: Image, at: nat, bound: int)
    requires -1 <= bound < 0xFFFF_FFFF
    ensures At(x.data, at, Put(x.order, bound)) ==> Word(x, at).Some? && BoundOf(Word(x, at).value) == bound
  {
    hide At, Word;
    if At(x.data, at, Put(x.order, bound)) { PutReads(x, at, if bound < 0 then 0xFFFF_FFFF else bound); }
  }

  lemma RegexRead(x: Image, flags: nat, s: seq<byte>, ats: seq<nat>, payload: nat, position: nat)
    requires flags <= 31 && Storable(x.utf8, RegexDetail(flags, s)) && |ats| == 1
    requires At(x.data, payload, Payload(x.order, 42, RegexDetail(flags, s), ats, position))
    ensures ReadDetail(x, 42, payload) == Some(RegexDetail(flags, s))
  {
    RegexParts(x, RegexDetail(flags, s), ats, payload, position);
    hide Put, At, Word, ReadString, Payload, Readable;
    PutReads(x, payload, flags);
    PutReads(x, payload + 8, |s|);
    StringReads(x, payload + 12, s);
  }

  lemma NumberRead(x: Image, t: string, ats: seq<nat>, payload: nat, position: nat)
    requires DecimalPattern(t) && Storable(x.utf8, NumberDetail(t))
    requires At(x.data, payload, Payload(x.order, 2, NumberDetail(t), ats, position))
    ensures ReadDetail(x, 2, payload) == Some(NumberDetail(t))
  {
    hide DecimalPattern, At, N.StorageText, N.Framed, N.PutLong, N.FitsLong, N.FiniteText, Word;
    var n :| Stores(t, n) && NumberBytes(x.order, t) == N.Framed(x.order, false, N.PutLong(x.order, n));
    var body := N.PutLong(x.order, n);
    var b := N.Framed(x.order, false, body);
    NumberText(x.order, t, n);
    FramedAt(x, payload, body);
    AtSlice(x.data, payload, b);
  }

  lemma NumberText(order: ByteOrder, t: string, n: N.Stored)
    requires Stores(t, n)
    ensures N.StorageText(order, N.Framed(order, false, N.PutLong(order, n))) == Some(t)
  {
    hide N.StorageText, N.Framed, N.PutLong, N.FiniteText;
    N.FormReads(order, false, n, N.PutLong(order, n));
  }

  // The header word of a number leads behind it.
  lemma FramedAt(x: Image, payload: nat, body: seq<byte>)
    requires |body| + 4 < LIMIT && At(x.data, payload, N.Framed(x.order, false, body))
    ensures var b := N.Framed(x.order, false, body);
      Word(x, payload) == Some(if x.order.Little? then 4 * |b| else |b|) && payload + |b| <= |x.data|
  {
    var header := PutHeader(x.order, |body| + 4);
    HeaderReads(x, payload, |body| + 4);
    hide At, PutHeader, Word;
    AtSplit(x.data, payload, header, body);
    Inside(x.data, payload, header + body);
  }

  lemma HeaderReads(x: Image, at: nat, length: nat)
    requires length < LIMIT
    ensures At(x.data, at, PutHeader(x.order, length)) ==> Word(x, at) == Some(if x.order.Little? then 4 * length else length)
  {
    var v := if x.order.Little? then 4 * length else length;
    if At(x.data, at, PutHeader(x.order, length)) { U32At(x.order, x.data, at, v); }
    hide U32, PutU32;
  }

  lemma Inside(s: seq<byte>, at: nat, part: seq<byte>)
    requires At(s, at, part)
    ensures at + |part| <= |s|
  {
  }

  lemma HeadParts(x: Image, k: nat, d: Detail, ats: seq<nat>, next: nat, position: nat)
    requires k < 256 && At(x.data, position, Head(x.order, k, d, ats, next, position))
    ensures var word := WordAt(position);
      position < |x.data| && x.data[position] == k && At(x.data, word, Put(x.order, Relative(next, position))) &&
      At(x.data, word + 4, Payload(x.order, k, d, ats, position))
  {
    var first, zeros, word, payload := [KindByte(k)], Padding(position), Put(x.order, Relative(next, position)),
        Payload(x.order, k, d, ats, position);
    hide Put, Payload, At, Relative, WordAt, Padding;
    AtSplit(x.data, position, first + zeros + word, payload);
    AtSplit(x.data, position, first + zeros, word);
    AtSplit(x.data, position, first, zeros);
    AtOne(x.data, position, KindByte(k));
  }

  lemma HeadRead(x: Image, k: nat, d: Detail, ats: seq<nat>, next: nat, position: nat)
    requires IsKnown(k) && FitsDetail(k, d) && Storable(x.utf8, d) && FitsArgs(k, |ats|) && |ats| < LIMIT
    requires At(x.data, position, Head(x.order, k, d, ats, next, position)) && next < LIMIT
    ensures ReadItem(x, position) == Some(ItemAt(x, position)) &&
      var item := ItemAt(x, position);
      item.kind == k && item.detail == d && item.next == (if next > position then next - position else 0) &&
      Wired(x, position, item.slots, ats) && Marked(k, item.slots)
  {
    hide IsKnown, FitsDetail, Storable, FitsArgs, Head, At, Put, Payload, ReadDetail, Slots, Word, Wired, Marked,
      WordAt, ReadItem, ItemAt,
      Relative, KindByte;
    KnownIsByte(k);
    HeadParts(x, k, d, ats, next, position);
    NextReads(x, WordAt(position), next, position);
    DetailRead(x, k, d, ats, WordAt(position) + 4, position);
    SlotsRead(x, k, d, ats, WordAt(position) + 4, position);
    ItemReads(x, position, k, if next > position then next - position else 0, d,
              Slots(x, k, WordAt(position) + 4).value);
  }

  lemma NextReads(x: Image, at: nat, next: nat, position: nat)
    requires At(x.data, at, Put(x.order, Relative(next, position))) && next < LIMIT
    ensures Word(x, at) == Some(if next > position then next - position else 0)
  {
    hide At, Put, Word;
    CloseRelative(next, position);
    PutReads(x, at, Relative(next, position));
  }

  lemma CloseRelative(at: nat, position: nat)
    requires at < LIMIT
    ensures Relative(at, position) == if at > position then at - position else 0
  {
  }

  lemma ItemReads(x: Image, position: nat, k: nat, next: nat, d: Detail, slots: seq<Slot>)
    requires position < |x.data| && x.data[position] == k && Word(x, WordAt(position)) == Some(next)
    requires ReadDetail(x, k, WordAt(position) + 4) == Some(d) && Slots(x, k, WordAt(position) + 4) == Some(slots)
    ensures ReadItem(x, position) == Some(ItemAt(x, position)) && ItemAt(x, position) == Item(k, next, d, slots)
  {
    hide ReadDetail, Slots, Word;
  }

  lemma KnownIsByte(k: nat)
    requires IsKnown(k)
    ensures k < 256
  {
  }

  // Where the parts of an encoded path are.
  ghost function Start(order: ByteOrder, p: Path, position: nat): nat
  {
    HeadEnd(order, p.kind, p.detail, Count(p.args), position)
  }

  ghost function NextAt(order: ByteOrder, p: Path, position: nat): nat
  {
    Start(order, p, position) + |EncodeArgs(order, p.args, Start(order, p, position))|
  }

  ghost function ArgPositionsOf(order: ByteOrder, p: Path, position: nat): seq<nat>
  {
    ArgsAtPositions(order, p.args, Start(order, p, position))
  }

  lemma EncodeSplit(order: ByteOrder, p: Path, position: nat)
    ensures Encode(order, p, position) ==
      Head(order, p.kind, p.detail, ArgPositionsOf(order, p, position),
           if p.next.None? then 0 else NextAt(order, p, position), position) +
      EncodeArgs(order, p.args, Start(order, p, position)) +
      if p.next.None? then [] else Encode(order, p.next.value, NextAt(order, p, position))
  {
    hide Head, HeadEnd, ArgsAtPositions, EncodeArgs;
  }

  lemma EncodedParts(x: Image, p: Path, position: nat)
    requires At(x.data, position, Encode(x.order, p, position))
    ensures At(x.data, position, Head(x.order, p.kind, p.detail, ArgPositionsOf(x.order, p, position),
                                      if p.next.None? then 0 else NextAt(x.order, p, position), position))
    ensures position < Start(x.order, p, position) <= NextAt(x.order, p, position) <= |x.data|
    ensures At(x.data, Start(x.order, p, position), EncodeArgs(x.order, p.args, Start(x.order, p, position)))
    ensures p.next.Some? ==> At(x.data, NextAt(x.order, p, position),
                                Encode(x.order, p.next.value, NextAt(x.order, p, position)))
  {
    hide Head, HeadEnd, ArgsAtPositions, EncodeArgs, Encode, At;
    EncodeSplit(x.order, p, position);
    var next := if p.next.None? then 0 else NextAt(x.order, p, position);
    var ats := ArgPositionsOf(x.order, p, position);
    HeadLength(x.order, p.kind, p.detail, ats, next, position);
    var head, args := Head(x.order, p.kind, p.detail, ats, next, position),
        EncodeArgs(x.order, p.args, Start(x.order, p, position));
    AtSplit(x.data, position, head + args,
            if p.next.None? then [] else Encode(x.order, p.next.value, NextAt(x.order, p, position)));
    AtSplit(x.data, position, head, args);
    Inside(x.data, position, head + args);
  }

  lemma EncodableParts(utf8: bool, p: Path)
    requires Encodable(utf8, p)
    ensures IsKnown(p.kind) && FitsDetail(p.kind, p.detail) && Storable(utf8, p.detail)
    ensures FitsArgs(p.kind, Count(p.args))
    ensures Count(p.args) < LIMIT && Given(p.kind, 0, p.args) && EncodableArgs(utf8, p.args)
    ensures p.next.Some? ==> Encodable(utf8, p.next.value)
  {
    hide IsKnown, FitsDetail, Storable, FitsArgs, Given, EncodableArgs;
  }

  // The item of an encoded path.
  lemma EncodedItem(x: Image, p: Path, position: nat)
    requires Encodable(x.utf8, p) && At(x.data, position, Encode(x.order, p, position)) && |x.data| < LIMIT
    ensures ReadItem(x, position) == Some(ItemAt(x, position)) &&
      var item := ItemAt(x, position);
      item.kind == p.kind && item.detail == p.detail &&
      item.next == (if p.next.None? then 0 else NextAt(x.order, p, position) - position) &&
      Wired(x, position, item.slots, ArgPositionsOf(x.order, p, position)) && Marked(p.kind, item.slots)
  {
    hide Head, Start, NextAt, ArgsAtPositions, Encode, At, Encodable, ReadItem, ItemAt, Wired, Marked, FitsDetail,
      FitsArgs, Storable, IsKnown, Given, EncodableArgs;
    EncodableParts(x.utf8, p);
    EncodedParts(x, p, position);
    HeadRead(x, p.kind, p.detail, ArgPositionsOf(x.order, p, position),
             if p.next.None? then 0 else NextAt(x.order, p, position), position);
  }

  // An image in which a path is encoded holds it.
  lemma {:induction false} EncodedIsHeld(x: Image, p: Path, position: nat)
    requires Encodable(x.utf8, p) && At(x.data, position, Encode(x.order, p, position)) && |x.data| < LIMIT
    ensures Holds(x, position, p)
    decreases p
  {
    hide Head, Start, NextAt, ArgsAtPositions, Encode, At, Encodable, ReadItem, ItemAt, Wired, Marked, FitsDetail,
      FitsArgs, Storable, IsKnown, Given, EncodableArgs, HoldsArgs, ArgPositionsOf;
    EncodableParts(x.utf8, p);
    EncodedParts(x, p, position);
    EncodedItem(x, p, position);
    ArgsAreFilled(x.order, p, position);
    MarkedFrom(p.kind, ItemAt(x, position).slots);
    EncodedArgsHeld(x, position, ItemAt(x, position).slots, p.kind, 0, p.args, Start(x.order, p, position));
    if p.next.Some? { EncodedIsHeld(x, p.next.value, NextAt(x.order, p, position)); }
  }

  lemma ArgsAreFilled(order: ByteOrder, p: Path, position: nat)
    ensures ArgPositionsOf(order, p, position) == ArgsAtPositions(order, p.args, Start(order, p, position))
    ensures NextAt(order, p, position) == Start(order, p, position) +
      |EncodeArgs(order, p.args, Start(order, p, position))|
  {
  }

  // The slots from the i-th on.
  ghost predicate MarkedAfter(k: nat, i: nat, slots: seq<Slot>)
  {
    forall j :: 0 <= j < |slots| ==> slots[j].optional == Optional(k, i + j)
  }

  lemma MarkedFrom(k: nat, slots: seq<Slot>)
    requires Marked(k, slots)
    ensures MarkedAfter(k, 0, slots)
  {
    hide Optional;
  }

  // The first of the arguments, and the others.
  lemma FirstSlot(x: Image, position: nat, slots: seq<Slot>, k: nat, i: nat, args: Args, at: nat)
    requires args.Arg? && Wired(x, position, slots, ArgsAtPositions(x.order, args, at)) && MarkedAfter(k, i, slots)
    ensures slots != [] && slots[0].optional == Optional(k, i)
    ensures Word(x, slots[0].at) == Some(Relative(if args.first.None? then 0 else at, position))
    ensures var a := if args.first.None? then [] else Encode(x.order, args.first.value, at);
      Wired(x, position, slots[1..], ArgsAtPositions(x.order, args.rest, at + |a|)) && MarkedAfter(k, i + 1, slots[1..])
  {
    hide Encode, Word, Relative, Optional;
    var ats := ArgsAtPositions(x.order, args, at);
    var a := if args.first.None? then [] else Encode(x.order, args.first.value, at);
    assert ats[1..] == ArgsAtPositions(x.order, args.rest, at + |a|);
    forall j | 0 <= j < |slots[1..]| ensures slots[1..][j].optional == Optional(k, i + 1 +
        j) { assert slots[1..][j] == slots[j + 1]; }
    forall j | 0 <= j < |slots[1..]| ensures Word(x, slots[1..][j].at) == Some(Relative(ats[1..][j], position)) {
      assert slots[1..][j] == slots[j + 1] && ats[1..][j] == ats[j + 1];
    }
  }

  lemma FirstArg(x: Image, args: Args, at: nat)
    requires args.Arg? && At(x.data, at, EncodeArgs(x.order, args, at))
    ensures var a := if args.first.None? then [] else Encode(x.order, args.first.value, at);
      At(x.data, at, a) && At(x.data, at + |a|, EncodeArgs(x.order, args.rest, at + |a|)) && at + |a| <= |x.data|
  {
    hide Encode, At;
    var a := if args.first.None? then [] else Encode(x.order, args.first.value, at);
    AtSplit(x.data, at, a, EncodeArgs(x.order, args.rest, at + |a|));
    Inside(x.data, at, a);
  }

  lemma {:induction false} EncodedArgsHeld(x: Image, position: nat, slots: seq<Slot>, k: nat, i: nat, args: Args,
      at: nat)
    requires EncodableArgs(x.utf8, args) && Given(k, i, args) && At(x.data, at, EncodeArgs(x.order, args, at))
    requires |x.data| < LIMIT
    requires position < at && Wired(x, position, slots, ArgsAtPositions(x.order, args, at)) && MarkedAfter(k, i, slots)
    ensures HoldsArgs(x, position, slots, args)
    decreases args
  {
    hide At, Word, Encode, Encodable, Holds, MarkedAfter, Optional, EncodeArgs, ArgsAtPositions;
    match args
    case NoArgs =>
      NoPositionsLeft(x.order, at);
    case Arg(first, rest) =>
      FirstSlot(x, position, slots, k, i, args, at);
      FirstArg(x, args, at);
      hide Wired;
      var a := if first.None? then [] else Encode(x.order, first.value, at);
      if first.Some? { EncodedIsHeld(x, first.value, at); }
      EncodedArgsHeld(x, position, slots[1..], k, i + 1, rest, at + |a|);
  }

  lemma NoPositionsLeft(order: ByteOrder, at: nat)
    ensures ArgsAtPositions(order, NoArgs, at) == []
  {
  }

  // -- No item is reached twice -------------------------------------------------------------------------------------

  ghost predicate Within(m: map<nat, nat>, lo: nat, hi: nat) { forall q :: q in m ==> lo <= q < hi }

  lemma WithinPath(m: map<nat, nat>, position: nat, base: nat, a: map<nat, nat>, b: map<nat, nat>, start: nat,
      middle: nat, end: nat)
    requires m == map[position := base] + a + b && Within(a, start, middle) && Within(b, middle, end)
    requires position < start <= middle <= end
    ensures Within(m, position, end)
  {
  }

  lemma WithinArgs(a: map<nat, nat>, b: map<nat, nat>, lo: nat, middle: nat, hi: nat)
    requires Within(a, lo, middle) && Within(b, middle, hi) && lo <= middle <= hi
    ensures Within(a + b, lo, hi) && Apart(a.Keys, b.Keys)
  {
  }

  lemma NothingWithin(lo: nat, hi: nat)
    ensures Within(map[], lo, hi)
  {
  }

  // The items of an encoded path lie inside it, each at a place of its own.
  lemma {:induction false} EncodedIsUnshared(x: Image, p: Path, position: nat, base: nat)
    requires Encodable(x.utf8, p) && At(x.data, position, Encode(x.order, p, position)) && |x.data| < LIMIT
    ensures Within(Positions(x, position, p, base), position, position + |Encode(x.order, p, position)|)
    ensures Unshared(x, position, p)
    decreases p
  {
    hide Head, Start, NextAt, ArgsAtPositions, Encode, EncodeArgs, At, Encodable, ReadItem, ItemAt, Wired, Marked,
      FitsDetail, FitsArgs,
      Storable, IsKnown, Given, EncodableArgs, ArgPositionsOf, Positions, ArgPositions, UnsharedArgs, Unshared, Within;
    EncodableParts(x.utf8, p);
    EncodedParts(x, p, position);
    EncodedItem(x, p, position);
    ArgsAreFilled(x.order, p, position);
    MarkedFrom(p.kind, ItemAt(x, position).slots);
    var slots, start, middle := ItemAt(x, position).slots, Start(x.order, p, position), NextAt(x.order, p, position);
    EncodedArgsUnshared(x, position, slots, p.kind, 0, p.args, start, base + 1);
    EncodedArgsUnshared(x, position, slots, p.kind, 0, p.args, start, 0);
    EncodedEnd(x.order, p, position);
    var end := position + |Encode(x.order, p, position)|;
    if p.next.Some? {
      EncodedIsUnshared(x, p.next.value, middle, NextIndex(p, base));
      EncodedIsUnshared(x, p.next.value, middle, 0);
      PositionsStep(x, position, p, base);
      WithinPath(Positions(x, position, p, base), position, base, ArgPositions(x, position, slots, p.args, base + 1),
                 Positions(x, middle, p.next.value, NextIndex(p, base)), start, middle, end);
      WithinArgs(ArgPositions(x, position, slots, p.args, 0), Positions(x, middle, p.next.value, 0), start, middle,
                 end);
    } else {
      NothingWithin(middle, end);
      LastPositions(x, position, p, base);
      WithinPath(Positions(x, position, p, base), position, base, ArgPositions(x, position, slots, p.args, base + 1),
                 map[], start, middle, end);
    }
    UnsharedWhole(x, position, p);
  }

  lemma UnsharedWhole(x: Image, position: nat, p: Path)
    requires UnsharedArgs(x, position, ItemAt(x, position).slots, p.args)
    requires p.next.Some? ==> Unshared(x, position + ItemAt(x, position).next, p.next.value)
    requires p.next.Some? ==> Apart(ArgPositions(x, position, ItemAt(x, position).slots, p.args, 0).Keys,
                                    Positions(x, position + ItemAt(x, position).next, p.next.value, 0).Keys)
    ensures Unshared(x, position, p)
  {
    hide ItemAt, UnsharedArgs, ArgPositions, Positions;
  }

  lemma LastPositions(x: Image, position: nat, p: Path, base: nat)
    requires p.next.None?
    ensures Positions(x, position, p, base) == map[position := base] +
      ArgPositions(x, position, ItemAt(x, position).slots, p.args, base + 1) + map[]
  {
    hide ItemAt, ArgPositions;
  }

  lemma EncodedEnd(order: ByteOrder, p: Path, position: nat)
    ensures position + |Encode(order, p, position)| ==
      NextAt(order, p, position) + if p.next.None? then 0 else |Encode(order, p.next.value, NextAt(order, p, position))|
  {
    EncodeSplit(order, p, position);
    hide Head, HeadEnd, Encode, EncodeArgs, ArgsAtPositions;
    var next := if p.next.None? then 0 else NextAt(order, p, position);
    HeadLength(order, p.kind, p.detail, ArgPositionsOf(order, p, position), next, position);
  }

  lemma {:induction false} EncodedArgsUnshared(
    x: Image, position: nat, slots: seq<Slot>, k: nat, i: nat, args: Args, at: nat, base: nat)
    requires EncodableArgs(x.utf8, args) && Given(k, i, args) && At(x.data, at, EncodeArgs(x.order, args, at))
    requires |x.data| < LIMIT
    requires position < at && Wired(x, position, slots, ArgsAtPositions(x.order, args, at)) && MarkedAfter(k, i, slots)
    ensures Within(ArgPositions(x, position, slots, args, base), at, at + |EncodeArgs(x.order, args, at)|)
    ensures UnsharedArgs(x, position, slots, args)
    decreases args
  {
    hide At, Word, Encode, EncodeArgs, Encodable, Holds, MarkedAfter, Optional, ArgsAtPositions, Within, Positions,
      ArgPositions, Unshared,
      UnsharedArgs, TargetOf, Size, Apart, Wired;
    match args
    case NoArgs =>
      NothingWithin(at, at + |EncodeArgs(x.order, args, at)|);
      NoArgsUnshared(x, position, slots, base);
    case Arg(first, rest) =>
      ArgsStep(x, position, slots, args, base);
      UnsharedArgsStep(x, position, slots, args);
      FirstSlot(x, position, slots, k, i, args, at);
      FirstArg(x, args, at);
      var a := if first.None? then [] else Encode(x.order, first.value, at);
      EncodedArgsUnshared(x, position, slots[1..], k, i + 1, rest, at + |a|, base +
                          if first.None? then 0 else Size(first.value));
      EncodeArgsLength(x.order, args, at);
      if first.Some? {
        FirstTarget(x, position, slots, at);
        EncodedIsUnshared(x, first.value, at, base);
        EncodedIsUnshared(x, first.value, at, 0);
        EncodedArgsUnshared(x, position, slots[1..], k, i + 1, rest, at + |a|, 0);
        var end := at + |EncodeArgs(x.order, args, at)|;
        WithinArgs(Positions(x, at, first.value, base),
                   ArgPositions(x, position, slots[1..], rest, base + Size(first.value)), at,
                   at + |a|, end);
        WithinArgs(Positions(x, at, first.value, 0), ArgPositions(x, position, slots[1..], rest, 0), at, at + |a|, end);
      }
  }

  lemma EncodeArgsLength(order: ByteOrder, args: Args, at: nat)
    requires args.Arg?
    ensures var a := if args.first.None? then [] else Encode(order, args.first.value, at);
      |EncodeArgs(order, args, at)| == |a| + |EncodeArgs(order, args.rest, at + |a|)|
  {
    hide Encode;
  }

  lemma NoArgsUnshared(x: Image, position: nat, slots: seq<Slot>, base: nat)
    ensures ArgPositions(x, position, slots, NoArgs, base) == map[] && UnsharedArgs(x, position, slots, NoArgs)
  {
  }

  lemma FirstTarget(x: Image, position: nat, slots: seq<Slot>, at: nat)
    requires slots != [] && Word(x, slots[0].at) == Some(Relative(at, position)) && position < at < LIMIT
    ensures TargetOf(x, position, slots) == at
  {
    hide Word;
    CloseRelative(at, position);
  }

  // -- The round trip -----------------------------------------------------------------------------------------------

  function HeaderWord(lax: bool): (w: nat)
    ensures w < 0x1_0000_0000
  {
    if lax then 0x8000_0001 else 1
  }

  // What a server stores for a path is read as the path's text and table.
  lemma RoundTrip(order: ByteOrder, utf8: bool, lax: bool, p: Path)
    requires Encodable(utf8, p) && |Encode(order, p, 0)| < LIMIT
    ensures StoredJsonpath(PutU32(order, HeaderWord(lax)) + Encode(order, p, 0), order, utf8) ==
      if Print(p, []).Some? then Some(Captured(p, lax)) else None
    ensures Print(p, []).Some? ==> (Valid(Captured(p, lax)) <==> Portable(p))
  {
    hide Encode, Encodable, Print, Holds, Unshared, Valid, Portable, StoredJsonpath, PutU32, Captured, Versioned, Lax,
      HeaderWord, U32;
    EncodedImage(order, utf8, p);
    HeaderRead(order, lax, Encode(order, p, 0));
    StoredPath(PutU32(order, HeaderWord(lax)) + Encode(order, p, 0), order, utf8, p);
  }

  lemma EncodedImage(order: ByteOrder, utf8: bool, p: Path)
    requires Encodable(utf8, p) && |Encode(order, p, 0)| < LIMIT
    ensures var x := Image(Encode(order, p, 0), order, utf8); Holds(x, 0, p) && Unshared(x, 0, p) && |x.data| >= 8
  {
    hide Encode, Encodable, Holds, Unshared, ReadItem, ItemAt;
    var x := Image(Encode(order, p, 0), order, utf8);
    AtWhole(x.data);
    EncodedIsHeld(x, p, 0);
    EncodedIsUnshared(x, p, 0, 0);
    HeldItem(x, 0, p);
    ItemLength(x);
  }

  lemma ItemLength(x: Image)
    requires ReadItem(x, 0).Some?
    ensures |x.data| >= 8
  {
    hide ReadDetail, Slots;
  }

  lemma HeaderRead(order: ByteOrder, lax: bool, data: seq<byte>)
    requires |data| >= 8
    ensures var body := PutU32(order, HeaderWord(lax)) + data;
      |body| >= 12 && body[4..] == data && Versioned(order, body) && Lax(order, body) == lax
  {
    var head := PutU32(order, HeaderWord(lax));
    var body := head + data;
    HeaderStands(order, body, head, HeaderWord(lax));
    HeaderMeans(lax);
    hide U32, PutU32, HeaderWord;
  }

  lemma HeaderStands(order: ByteOrder, body: seq<byte>, head: seq<byte>, v: nat)
    requires v < 0x1_0000_0000 && head == PutU32(order, v) && |body| >= 4 && body[..4] == head
    ensures U32(order, body, 0) == v
  {
    hide U32, PutU32;
    forall i | 0 <= i < 4 ensures body[i] == head[i] { assert body[..4][i] == body[i]; }
    U32At(order, body, 0, v);
  }

  lemma HeaderMeans(lax: bool)
    ensures HeaderWord(lax) % 0x8000_0000 == 1 && (HeaderWord(lax) >= 0x8000_0000) == lax
  {
  }
}
