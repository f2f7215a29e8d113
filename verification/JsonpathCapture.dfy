/** Rendering a stored jsonpath step by step, with the table, the positions and the active items as fields. */
module JsonpathCapture {
  import opened Bytes
  import opened Loops
  import opened JsonpathTable
  import opened Jsonpath
  import opened JsonpathUnfold
  import opened JsonpathStored

  // -- One slot after the other ------------------------------------------------------------------------------------

  function Behind(texts: seq<Option<seq<byte>>>, r: Option<RenderedArgs>): Option<RenderedArgs>
  {
    if r.None? then None else Some(RenderedArgs(texts + r.value.texts, r.value.state))
  }

  lemma BehindStart(r: Option<RenderedArgs>)
    ensures Behind([], r) == r
  {
    if r.Some? { assert [] + r.value.texts == r.value.texts; }
  }

  lemma BehindMore(texts: seq<Option<seq<byte>>>, text: Option<seq<byte>>, r: Option<RenderedArgs>)
    ensures Behind(texts, WithText(text, r)) == Behind(texts + [text], r)
  {
    if r.Some? { assert texts + ([text] + r.value.texts) == texts + [text] + r.value.texts; }
  }

  lemma SlotsStep(x: Image, position: nat, slots: seq<Slot>, i: nat, s: State)
    requires i < |slots|
    ensures RenderArgs(x, position, slots[i..], s) ==
      var relative := Word(x, slots[i].at);
      if relative.None? || (relative.value == 0 && !slots[i].optional) || relative.value > |x.data| - position then None
      else if relative.value == 0 then WithText(None, RenderArgs(x, position, slots[i + 1..], s))
      else
        var r := Jsonpath.Render(x, position + relative.value, [], s);
        if r.None? then None else WithText(Some(r.value.text), RenderArgs(x, position, slots[i + 1..], r.value.state))
  {
    hide Word, Jsonpath.Render;
    assert slots[i..][1..] == slots[i + 1..];
  }

  lemma SlotsDone(x: Image, position: nat, slots: seq<Slot>, s: State)
    ensures RenderArgs(x, position, slots[|slots|..], s) == Some(RenderedArgs([], s))
  {
  }

  lemma LinksStep(x: Image, position: nat, slots: seq<Slot>, i: nat, positions: map<nat, nat>, links: seq<nat>)
    requires i < |slots|
    ensures Joined(links, Links(x, position, slots[i..], positions)) ==
      var relative := Word(x, slots[i].at);
      if relative.None? || (relative.value != 0 && position + relative.value !in positions) then None
      else Joined(links + [if relative.value == 0 then 0 else positions[position + relative.value]],
                       Links(x, position, slots[i + 1..], positions))
  {
    hide Word;
    assert slots[i..][1..] == slots[i + 1..];
    var rest := Links(x, position, slots[i + 1..], positions);
    var relative := Word(x, slots[i].at);
    if rest.Some? && relative.Some? && (relative.value == 0 || position + relative.value in positions) {
      var link := if relative.value == 0 then 0 else positions[position + relative.value];
      assert links + ([link] + rest.value) == links + [link] + rest.value;
    }
  }

  // -- Subscript entries ----------------------------------------------------------------------------------------------

  // One entry more is linked from the one before it.
  lemma {:induction false} EntryAppended(links: seq<nat>, start: nat, left: nat, right: nat)
    requires |links| % 2 == 0
    ensures var n, entries := |links| / 2, SubscriptNodes(links, start);
      |entries| == n &&
      SubscriptNodes(links + [left, right], start) ==
        (if n == 0 then [] else entries[n - 1 := entries[n - 1].(next := start + n)]) +
        [PathNode(14, 0, left, right, [], 0, 0, 0)]
    decreases |links|
  {
    EntriesLength(links, start);
    var more := links + [left, right];
    if links != [] {
      EntryAppended(links[2..], start + 1, left, right);
      assert more[2..] == links[2..] + [left, right];
    } else {
      assert more == [left, right] && more[2..] == [];
    }
  }

  // -- The capture --------------------------------------------------------------------------------------------------

  class Capture {
    const image: Image
    var nodes: seq<PathNode>
    var positions: map<nat, nat>
    var active: set<nat>

    constructor (image: Image)
      ensures this.image == image && active == {} && Current() == START
    {
      this.image := image;
      nodes, positions, active := [EMPTY], map[], {};
    }

    function Current(): State
      reads this
    {
      State(nodes, positions)
    }

    // An item leads forward only, so none is ever rendered while it is active: the check for it changes nothing.
    method Render(position: nat, prefix: seq<byte>) returns (text: Option<seq<byte>>)
      requires forall a :: a in active ==> a < position
      modifies this
      ensures active == old(active)
      ensures match Jsonpath.Render(image, position, prefix, old(Current()))
        case None => text == None
        case Some(r) => text == Some(r.text) && Current() == r.state
      decreases |image.data| - position, 2
    {
      if position >= |image.data| || position in active {
        Outside(image, position, prefix, Current());
        return None;
      }
      active := active + {position};
      text := RenderActive(position, prefix);
      active := active - {position};
    }

    method RenderActive(position: nat, prefix: seq<byte>) returns (text: Option<seq<byte>>)
      requires position < |image.data| && forall a :: a in active ==> a <= position
      modifies this
      ensures active == old(active)
      ensures match Jsonpath.Render(image, position, prefix, old(Current()))
        case None => text == None
        case Some(r) => text == Some(r.text) && Current() == r.state
      decreases |image.data| - position, 1
    {
      hide Jsonpath.Render, RenderArgs, Links, HeadText, Chained, ReadItem, HeadNode, EntriesOf, IsAccessor;
      ghost var s := Current();
      var index := |nodes|;
      positions := positions[position := index];
      nodes := nodes + [EMPTY];
      var item := ReadItem(image, position);
      if item.None? {
        NotAnItem(image, position, prefix, s);
        return None;
      }
      var k, slots := item.value.kind, item.value.slots;
      var texts := RenderSlots(position, slots);
      if texts.None? {
        RenderNothing(image, position, prefix, s);
        return None;
      }
      ghost var args := RenderArgs(image, position, slots,
          State(s.nodes + [EMPTY], s.positions[position := index])).value;
      var head := HeadText(k, item.value.detail, item.value.next != 0, texts.value);
      if head.None? || (prefix != []) != IsAccessor(k) {
        Unchained(k, prefix, head);
        NoText(image, position, prefix, s, args);
        return None;
      }
      var links := LinkSlots(position, slots);
      if links.None? {
        NoText(image, position, prefix, s, args);
        return None;
      }
      var result := prefix + head.value;
      assert Chained(k, prefix, head) == Some(result) by { Chains(k, prefix, head.value); }
      if k == SUBSCRIPTS { EvenSlots(image, position); }
      FillIn(index, item.value, links.value);
      if item.value.next > |image.data| - position {
        TooFar(image, position, prefix, s);
        return None;
      }
      RenderOpened(image, position, prefix, s, args, links.value);
      if item.value.next == 0 { return Some(result); }
      var next := position + item.value.next;
      ghost var filled := Current();
      text := Render(next, result);
      if text.None? {
        NothingLinked(index, next);
        return None;
      }
      nodes := nodes[index := nodes[index].(next := positions[next])];
    }

    method RenderSlots(position: nat, slots: seq<Slot>) returns (texts: Option<seq<Option<seq<byte>>>>)
      requires position < |image.data| && forall a :: a in active ==> a <= position
      modifies this
      ensures active == old(active)
      ensures match RenderArgs(image, position, slots, old(Current()))
        case None => texts == None
        case Some(r) => texts == Some(r.texts) && Current() == r.state
      decreases |image.data| - position, 0
    {
      hide Jsonpath.Render, RenderArgs, Word;
      var done: seq<Option<seq<byte>>> := [];
      ghost var all := RenderArgs(image, position, slots, Current());
      BehindStart(all);
      assert slots[0..] == slots;
      for i := 0 to |slots|
        invariant active == old(active)
        invariant all == Behind(done, RenderArgs(image, position, slots[i..], Current()))
      {
        SlotsStep(image, position, slots, i, Current());
        var relative := Word(image, slots[i].at);
        if relative.None? || (relative.value == 0 && !slots[i].optional) || relative.value > |image.data| - position {
          return None;
        }
        ghost var s := Current();
        var text: Option<seq<byte>> := None;
        if relative.value != 0 {
          text := Render(position + relative.value, []);
          if text.None? { return None; }
        }
        BehindMore(done, text, RenderArgs(image, position, slots[i + 1..], Current()));
        done := done + [text];
      }
      SlotsDone(image, position, slots, Current());
      assert done + [] == done;
      texts := Some(done);
    }

    method LinkSlots(position: nat, slots: seq<Slot>) returns (links: Option<seq<nat>>)
      ensures links == Links(image, position, slots, positions)
    {
      hide Word, Links;
      var done: seq<nat> := [];
      ghost var all := Links(image, position, slots, positions);
      assert slots[0..] == slots && (all.Some? ==> [] + all.value == all.value);
      for i := 0 to |slots|
        invariant all == Joined(done, Links(image, position, slots[i..], positions))
      {
        LinksStep(image, position, slots, i, positions, done);
        var relative := Word(image, slots[i].at);
        if relative.None? || (relative.value != 0 && position + relative.value !in positions) { return None; }
        done := done + [if relative.value == 0 then 0 else positions[position + relative.value]];
      }
      NoSlots(image, position, slots, positions);
      assert done + [] == done;
      links := Some(done);
    }

    // The entry of an item, and for a subscript list one more entry for each subscript.
    method FillIn(index: nat, item: Item, links: seq<nat>)
      requires index < |nodes| && (item.kind == SUBSCRIPTS ==> |links| % 2 == 0)
      modifies this`nodes
      ensures Current() == Filled(index, item, links, old(Current()))
    {
      hide SubscriptNodes;
      var start := |nodes|;
      ghost var before := nodes;
      if item.kind != SUBSCRIPTS {
        nodes := nodes[index := HeadNode(item.kind, item.detail, links, start, 0)];
        assert nodes + [] == nodes;
        return;
      }
      nodes := nodes[index := HeadNode(item.kind, item.detail, [], start, 0)];
      var previous := 0;
      assert links[..0] == [];
      NoEntries(start);
      for i := 0 to |links| / 2
        invariant previous == if i == 0 then 0 else start + i - 1
        invariant nodes == before[index := HeadNode(item.kind, item.detail, links[..2 * i], start, 0)] +
          SubscriptNodes(links[..2 * i], start)
      {
        EntriesLength(links[..2 * i], start);
        EntryAppended(links[..2 * i], start, links[2 * i], links[2 * i + 1]);
        assert links[..2 * i] + [links[2 * i], links[2 * i + 1]] == links[..2 * (i + 1)];
        ghost var entries := SubscriptNodes(links[..2 * i], start);
        var entry := PathNode(14, 0, links[2 * i], links[2 * i + 1], [], 0, 0, 0);
        if previous != 0 {
          nodes := nodes[previous := nodes[previous].(next := |nodes|)];
        } else {
          nodes := nodes[index := nodes[index].(left := |nodes|)];
        }
        previous := |nodes|;
        nodes := nodes + [entry];
      }
      assert links[..2 * (|links| / 2)] == links;
    }
  }

  lemma NoEntries(start: nat)
    ensures SubscriptNodes([], start) == []
  {
  }

  lemma Outside(x: Image, position: nat, prefix: seq<byte>, s: State)
    requires position >= |x.data|
    ensures Jsonpath.Render(x, position, prefix, s) == None
  {
  }

  lemma NotAnItem(x: Image, position: nat, prefix: seq<byte>, s: State)
    requires ReadItem(x, position).None?
    ensures Jsonpath.Render(x, position, prefix, s) == None
  {
    hide ReadItem, RenderArgs;
  }

  lemma NoText(x: Image, position: nat, prefix: seq<byte>, s: State, args: RenderedArgs)
    requires ReadItem(x, position).Some?
    requires RenderArgs(x, position, ItemAt(x, position).slots,
                        State(s.nodes + [EMPTY], s.positions[position := |s.nodes|])) == Some(args)
    requires var item := ItemAt(x, position);
      Chained(item.kind, prefix, HeadText(item.kind, item.detail, item.next != 0, args.texts)).None? ||
      Links(x, position, item.slots, args.state.positions).None?
    ensures Jsonpath.Render(x, position, prefix, s) == None
  {
    hide ReadItem, RenderArgs, Links, HeadText, Chained, Filled, LinkedTo;
  }

  lemma Unchained(k: nat, prefix: seq<byte>, head: Option<seq<byte>>)
    requires head.None? || (prefix != []) != IsAccessor(k)
    ensures Chained(k, prefix, head) == None
  {
    hide IsAccessor;
  }

  lemma EvenSlots(x: Image, position: nat)
    requires ReadItem(x, position).Some? && ItemAt(x, position).kind == SUBSCRIPTS
    ensures |ItemAt(x, position).slots| % 2 == 0
  {
    hide ReadItem;
    ReadFits(x, position);
  }

  lemma Chains(k: nat, prefix: seq<byte>, head: seq<byte>)
    requires (prefix != []) == IsAccessor(k)
    ensures Chained(k, prefix, Some(head)) == Some(prefix + head)
  {
    hide IsAccessor;
  }

  lemma TooFar(x: Image, position: nat, prefix: seq<byte>, s: State)
    requires ReadItem(x, position).Some? && position < |x.data| && ItemAt(x, position).next > |x.data| - position
    ensures Jsonpath.Render(x, position, prefix, s) == None
  {
    hide ReadItem, RenderArgs, Links, HeadText, Chained, Filled, LinkedTo;
  }

  lemma NoSlots(x: Image, position: nat, slots: seq<Slot>, positions: map<nat, nat>)
    ensures Links(x, position, slots[|slots|..], positions) == Some([])
  {
  }

  // -- Entry points -------------------------------------------------------------------------------------------------

  method StoredJsonpathConstant(body: seq<byte>, order: ByteOrder, utf8: bool) returns (r: Option<Storage>)
    ensures r == StoredJsonpath(body, order, utf8)
  {
    hide Jsonpath.Render, U32;
    if !Versioned(order, body) { return None; }
    var capture := new Capture(Image(body[4..], order, utf8));
    var text := capture.Render(0, []);
    if text.None? { return None; }
    var lax := Lax(order, body);
    r := Some(Storage(capture.nodes, 1, lax, ModeText(lax) + text.value));
  }

  method StoredJsonpathValue(body: seq<byte>, order: ByteOrder, utf8: bool) returns (r: Option<Storage>)
    ensures var v := StoredJsonpath(body, order, utf8); r == if v.Some? && Valid(v.value) then v else None
  {
    hide StoredJsonpath, Valid;
    r := StoredJsonpathConstant(body, order, utf8);
    if r.Some? {
      var valid := ValidJsonpathConstantStorage(r.value);
      if !valid { return None; }
    }
  }
}
