/** tsquery constants: PostgreSQL's prefix item array and the portable postorder node table. */
module Tsquery {
  import opened Bytes
  import opened Parts

  datatype Node = Node(kind: int, text: seq<byte>, weight: int, prefix: bool, distance: int, left: int, right: int)

  datatype Storage = Storage(nodes: seq<Node>, root: int, nativeBytes: int)

  // -- What a table or an image stands for ------------------------------------------------------

  datatype Query =
    | Operand(text: seq<byte>, weight: int, prefix: bool)
    | Negation(arg: Query)
    | Operation(kind: int, distance: int, left: Query, right: Query)

  const AND := 2
  const PHRASE := 4

  function Size(q: Query): (n: nat)
    ensures n > 0
  {
    match q
    case Operand(_, _, _) => 1
    case Negation(arg) => 1 + Size(arg)
    case Operation(_, _, l, r) => 1 + Size(l) + Size(r)
  }

  // The field limits of the format, and the text limits of the database encoding.
  predicate Limits(q: Query, utf8: bool)
  {
    match q
    case Operand(text, weight, _) =>
      0 <= weight <= 15 && |text| <= 2047 && 0 !in text && Readable(utf8, text)
    case Negation(arg) => Limits(arg, utf8)
    case Operation(kind, distance, l, r) =>
      AND <= kind <= PHRASE &&
      (if kind == PHRASE then -0x8000 <= distance < 0x8000 else distance == 0) &&
      Limits(l, utf8) && Limits(r, utf8)
  }

  // The postorder of a query whose first node gets index `base`.
  function Postorder(q: Query, base: nat): (nodes: seq<Node>)
    ensures |nodes| == Size(q)
  {
    match q
    case Operand(_, _, _) => [RootNode(q, base)]
    case Negation(arg) => Postorder(arg, base) + [RootNode(q, base)]
    case Operation(_, _, l, r) => Postorder(l, base) + Postorder(r, base + Size(l)) + [RootNode(q, base)]
  }

  function RootNode(q: Query, base: nat): Node
  {
    match q
    case Operand(text, weight, prefix) => Node(0, text, weight, prefix, 0, 0, 0)
    case Negation(arg) => Node(1, [], 0, false, 0, base + Size(arg) - 1, 0)
    case Operation(kind, distance, l, r) =>
      Node(kind, [], 0, false, distance, base + Size(l) - 1, base + Size(l) + Size(r) - 1)
  }

  function Table(q: Option<Query>): seq<Node>
  {
    match q case None => [] case Some(t) => Postorder(t, 0)
  }

  predicate TableLimits(q: Option<Query>, utf8: bool)
  {
    q.None? || Limits(q.value, utf8)
  }

  function StorageOf(q: Option<Query>, nativeBytes: int): Storage
  {
    var nodes := Table(q);
    Storage(nodes, if nodes == [] then 0 else |nodes| - 1, nativeBytes)
  }

  // The same postorder, read off a table in place.
  predicate Holds(nodes: seq<Node>, base: nat, q: Query)
    decreases q
  {
    base + Size(q) <= |nodes| && nodes[base + Size(q) - 1] == RootNode(q, base) &&
    match q
    case Operand(_, _, _) => true
    case Negation(arg) => Holds(nodes, base, arg)
    case Operation(_, _, l, r) => Holds(nodes, base, l) && Holds(nodes, base + Size(l), r)
  }

  lemma {:induction false} HoldsIffAt(nodes: seq<Node>, base: nat, q: Query)
    ensures Holds(nodes, base, q) <==> At(nodes, base, Postorder(q, base))
    decreases q
  {
    hide At, RootNode;
    var root := RootNode(q, base);
    AtOne(nodes, base + Size(q) - 1, root);
    match q {
      case Operand(_, _, _) =>
      case Negation(arg) =>
        HoldsIffAt(nodes, base, arg);
        AtSplit(nodes, base, Postorder(arg, base), [root]);
      case Operation(_, _, l, r) =>
        HoldsIffAt(nodes, base, l);
        HoldsIffAt(nodes, base + Size(l), r);
        var nodesL, nodesR := Postorder(l, base), Postorder(r, base + Size(l));
        AtSplit(nodes, base, nodesL + nodesR, [root]);
        AtSplit(nodes, base, nodesL, nodesR);
    }
  }

  lemma AtOne(nodes: seq<Node>, at: nat, node: Node)
    ensures At(nodes, at, [node]) <==> at < |nodes| && nodes[at] == node
  {
    assert [node][0] == node;
  }

  // Two queries that hold at the same place of a table are the same query.
  lemma {:induction false} HoldsInjective(nodes: seq<Node>, p: Query, pBase: nat, q: Query, qBase: nat)
    requires Limits(p, true) && Limits(q, true)
    requires Holds(nodes, pBase, p) && Holds(nodes, qBase, q)
    requires pBase + Size(p) == qBase + Size(q)
    ensures p == q
    decreases p
  {
    match p {
      case Operand(_, _, _) =>
      case Negation(arg) =>
        HoldsInjective(nodes, arg, pBase, q.arg, qBase);
      case Operation(_, _, l, r) =>
        HoldsInjective(nodes, r, pBase + Size(l), q.right, qBase + Size(q.left));
        HoldsInjective(nodes, l, pBase, q.left, qBase);
    }
  }

  // A table determines its query.
  lemma TableInjective(p: Option<Query>, q: Option<Query>)
    requires TableLimits(p, true) && TableLimits(q, true) && Table(p) == Table(q)
    ensures p == q
  {
    if p.Some? && q.Some? {
      AtWhole(Table(p));
      HoldsIffAt(Table(p), 0, p.value);
      HoldsIffAt(Table(p), 0, q.value);
      HoldsInjective(Table(p), p.value, 0, q.value, 0);
    }
  }

  // -- The portable validator -------------------------------------------------------------------

  // One iteration of the validator's replay; None where it returns false.
  function Accept(node: Node, index: nat, stack: seq<nat>): Option<seq<nat>>
  {
    if node.kind < 0 || node.kind > 4 then None
    else if node.kind == 0 then
      if node.weight < 0 || node.weight > 15 || node.distance != 0 || node.left != 0 || node.right != 0 ||
         0 in node.text || |node.text| > 2047 || !ValidUtf8(node.text) then None
      else Some(stack + [index])
    else if node.text != [] || node.weight != 0 || node.prefix ||
            (if node.kind == 4 then node.distance < -32768 || node.distance > 32767 else node.distance != 0) then None
    else if node.kind == 1 then
      if stack == [] || node.left != stack[|stack| - 1] || node.right != 0 then None
      else Some(stack[..|stack| - 1] + [index])
    else if |stack| < 2 || node.left != stack[|stack| - 2] || node.right != stack[|stack| - 1] then None
    else Some(stack[..|stack| - 2] + [index])
  }

  function Replay(nodes: seq<Node>, n: nat): Option<seq<nat>>
    requires n <= |nodes|
  {
    if n == 0 then Some([])
    else match Replay(nodes, n - 1)
      case None => None
      case Some(stack) => Accept(nodes[n - 1], n - 1, stack)
  }

  lemma {:induction false} ReplayStuck(nodes: seq<Node>, n: nat, m: nat)
    requires n <= m <= |nodes| && Replay(nodes, n).None?
    ensures Replay(nodes, m).None?
    decreases m - n
  {
    if n < m { ReplayStuck(nodes, n + 1, m); }
  }

  predicate HeaderOk(value: Storage)
  {
    8 + |value.nodes| * 12 <= value.nativeBytes <= 1073741823 &&
    value.root == if |value.nodes| > 0 then |value.nodes| - 1 else 0
  }

  // A table is valid when it is the empty query or the postorder of one query within limits.
  ghost predicate Portable(value: Storage)
  {
    HeaderOk(value) && exists q :: TableLimits(q, true) && value.nodes == Table(q)
  }

  // The queries a stack holds the roots of.
  datatype Forest = Bare | Push(below: Forest, top: Query)

  function Weight(f: Forest): nat
  {
    match f case Bare => 0 case Push(below, top) => Weight(below) + Size(top)
  }

  function Roots(f: Forest): (roots: seq<nat>)
    ensures roots == [] <==> f.Bare?
  {
    match f case Bare => [] case Push(below, top) => Roots(below) + [Weight(f) - 1]
  }

  lemma OneOnTop(f: Forest)
    requires f.Push? || Roots(f) != []
    ensures var roots := Roots(f);
      f.Push? && |roots| >= 1 && roots[|roots| - 1] == Weight(f) - 1 && roots[..|roots| - 1] == Roots(f.below)
  {
    hide Size, Weight;
    Snoc(Roots(f.below), Weight(f) - 1);
  }

  predicate Grown(nodes: seq<Node>, f: Forest)
  {
    f.Push? ==> Grown(nodes, f.below) && Holds(nodes, Weight(f.below), f.top)
  }

  predicate ForestLimits(f: Forest, utf8: bool)
  {
    f.Push? ==> ForestLimits(f.below, utf8) && Limits(f.top, utf8)
  }

  // The node closes over the queries on top.
  predicate Fits(node: Node, f: Forest, utf8: bool)
  {
    if node.kind == 0 then
      var q := Operand(node.text, node.weight, node.prefix);
      node == RootNode(q, Weight(f)) && Limits(q, utf8)
    else if node.kind == 1 then
      f.Push? && node == RootNode(Negation(f.top), Weight(f.below))
    else
      f.Push? && f.below.Push? && AND <= node.kind <= PHRASE &&
      (if node.kind == PHRASE then -0x8000 <= node.distance < 0x8000 else node.distance == 0) &&
      node == RootNode(Operation(node.kind, node.distance, f.below.top, f.top), Weight(f.below.below))
  }

  function Shift(f: Forest, node: Node): Forest
    requires Fits(node, f, true)
  {
    if node.kind == 0 then Push(f, Operand(node.text, node.weight, node.prefix))
    else if node.kind == 1 then Push(f.below, Negation(f.top))
    else Push(f.below.below, Operation(node.kind, node.distance, f.below.top, f.top))
  }

  lemma TwoOnTop(f: Forest)
    requires f.Push? && (f.below.Push? || |Roots(f)| >= 2)
    ensures f.below.Push?
    ensures var roots, g := Roots(f), f.below.below;
      |roots| >= 2 && roots[|roots| - 2] == Weight(f.below) - 1 && roots[..|roots| - 2] == Roots(g)
  {
    OneOnTop(f);
    OneOnTop(f.below);
    var roots, below := Roots(f), Roots(f.below);
    SliceOfSlice(roots, 0, |roots| - 1, 0, |roots| - 2);
    assert roots[|roots| - 2] == roots[..|roots| - 1][|roots| - 2];
  }

  lemma AcceptShape(node: Node, index: nat, stack: seq<nat>)
    requires Accept(node, index, stack).Some?
    ensures 0 <= node.kind <= 4
    ensures node.kind == 0 ==>
      node == Node(0, node.text, node.weight, node.prefix, 0, 0, 0) &&
      Limits(Operand(node.text, node.weight, node.prefix), true) &&
      Accept(node, index, stack) == Some(stack + [index])
    ensures node.kind == 1 ==>
      |stack| >= 1 && node == Node(1, [], 0, false, 0, stack[|stack| - 1], 0) &&
      Accept(node, index, stack) == Some(stack[..|stack| - 1] + [index])
    ensures node.kind > 1 ==>
      |stack| >= 2 && node == Node(node.kind, [], 0, false, node.distance, stack[|stack| - 2], stack[|stack| - 1]) &&
      (if node.kind == PHRASE then -0x8000 <= node.distance < 0x8000 else node.distance == 0) &&
      Accept(node, index, stack) == Some(stack[..|stack| - 2] + [index])
  {
    hide ValidUtf8;
  }

  lemma AcceptFits(node: Node, f: Forest)
    requires Accept(node, Weight(f), Roots(f)).Some?
    ensures Fits(node, f, true) && Accept(node, Weight(f), Roots(f)) == Some(Roots(Shift(f, node)))
  {
    hide Limits, Accept, Roots;
    AcceptShape(node, Weight(f), Roots(f));
    if node.kind == 0 {
      PushedRoot(f, Operand(node.text, node.weight, node.prefix));
    } else if node.kind == 1 {
      OneOnTop(f);
      PushedRoot(f.below, Negation(f.top));
    } else {
      OneOnTop(f);
      TwoOnTop(f);
      PushedRoot(f.below.below, Operation(node.kind, node.distance, f.below.top, f.top));
    }
  }

  lemma PushedRoot(f: Forest, q: Query)
    ensures Roots(Push(f, q)) == Roots(f) + [Weight(f) + Size(q) - 1]
  {
  }

  lemma ShiftGrows(nodes: seq<Node>, f: Forest)
    requires Weight(f) < |nodes| && Grown(nodes, f) && ForestLimits(f, true)
    requires Fits(nodes[Weight(f)], f, true)
    ensures var g := Shift(f, nodes[Weight(f)]);
      Weight(g) == Weight(f) + 1 && Grown(nodes, g) && ForestLimits(g, true)
  {
  }

  // Whatever the replay accepted so far is a forest, and the stack holds its roots.
  lemma {:induction false} ReplayIsForest(nodes: seq<Node>, n: nat) returns (f: Forest)
    requires n <= |nodes| && Replay(nodes, n).Some?
    ensures Weight(f) == n && Grown(nodes, f) && ForestLimits(f, true) && Replay(nodes, n).value == Roots(f)
  {
    if n == 0 { return Bare; }
    var before := ReplayIsForest(nodes, n - 1);
    AcceptFits(nodes[n - 1], before);
    ShiftGrows(nodes, before);
    f := Shift(before, nodes[n - 1]);
  }

  lemma {:induction false} ReplayAcceptsPostorder(nodes: seq<Node>, f: Forest, q: Query)
    requires Limits(q, true) && Holds(nodes, Weight(f), q)
    requires Replay(nodes, Weight(f)) == Some(Roots(f))
    ensures Replay(nodes, Weight(f) + Size(q)) == Some(Roots(Push(f, q)))
    decreases q
  {
    hide Replay, Accept, Roots, RootNode, Readable;
    match q {
      case Operand(_, _, _) =>
      case Negation(arg) =>
        ReplayAcceptsPostorder(nodes, f, arg);
      case Operation(_, _, l, r) =>
        ReplayAcceptsPostorder(nodes, f, l);
        ReplayAcceptsPostorder(nodes, Push(f, l), r);
    }
    ReplayRoot(nodes, f, q);
  }

  lemma ReplayRoot(nodes: seq<Node>, f: Forest, q: Query)
    requires Limits(q, true) && Holds(nodes, Weight(f), q)
    requires Weight(Operands(f, q)) <= |nodes|
    requires Replay(nodes, Weight(Operands(f, q))) == Some(Roots(Operands(f, q)))
    ensures Replay(nodes, Weight(f) + Size(q)) == Some(Roots(Push(f, q)))
  {
    hide Accept, Roots, RootNode, Limits;
    AcceptRoot(f, q);
  }

  // The last node of a postorder closes over the roots of its operands.
  lemma AcceptRoot(f: Forest, q: Query)
    requires Limits(q, true)
    ensures var g := Operands(f, q);
      Weight(g) == Weight(f) + Size(q) - 1 &&
      Accept(RootNode(q, Weight(f)), Weight(g), Roots(g)) == Some(Roots(Push(f, q)))
  {
    hide ValidUtf8, Roots, Limits, Accept;
    PushedRoot(f, q);
    AcceptLimits(q, Weight(f), Roots(Operands(f, q)));
    if q.Operation? {
      OneOnTop(Operands(f, q));
      TwoOnTop(Operands(f, q));
    } else if q.Negation? {
      OneOnTop(Operands(f, q));
    }
  }

  // A node within the limits is accepted on a stack that ends with its operands.
  lemma AcceptLimits(q: Query, base: nat, stack: seq<nat>)
    requires Limits(q, true)
    ensures q.Operand? ==> Accept(RootNode(q, base), base, stack) == Some(stack + [base])
    ensures q.Negation? && |stack| >= 1 && stack[|stack| - 1] == base + Size(q.arg) - 1 ==>
              Accept(RootNode(q, base), base + Size(q.arg), stack) == Some(stack[..|stack| - 1] + [base + Size(q.arg)])
    ensures q.Operation? && |stack| >= 2 && stack[|stack| - 2] == base + Size(q.left) - 1 &&
            stack[|stack| - 1] == base + Size(q.left) + Size(q.right) - 1 ==>
              Accept(RootNode(q, base), base + Size(q.left) + Size(q.right), stack) ==
              Some(stack[..|stack| - 2] + [base + Size(q.left) + Size(q.right)])
  {
    hide ValidUtf8, Size;
  }

  function Operands(f: Forest, q: Query): Forest
  {
    match q
    case Operand(_, _, _) => f
    case Negation(arg) => Push(f, arg)
    case Operation(_, _, l, r) => Push(Push(f, l), r)
  }

  lemma OneRoot(nodes: seq<Node>, f: Forest)
    requires Weight(f) == |nodes| && Grown(nodes, f) && ForestLimits(f, true)
    requires |Roots(f)| == if nodes == [] then 0 else 1
    ensures exists q :: TableLimits(q, true) && nodes == Table(q)
  {
    if f.Bare? {
      assert TableLimits(None, true) && nodes == Table(None);
    } else {
      OneOnTop(f);
      assert Roots(f.below) == [];
      HoldsIffAt(nodes, 0, f.top);
      AtWhole(nodes);
      assert TableLimits(Some(f.top), true) && nodes == Table(Some(f.top));
    }
  }

  lemma ReplayDecides(nodes: seq<Node>)
    ensures (Replay(nodes, |nodes|).Some? && |Replay(nodes, |nodes|).value| == if nodes == [] then 0 else 1)
      <==> (exists q :: TableLimits(q, true) && nodes == Table(q))
  {
    hide Replay, TableLimits, Table;
    if Replay(nodes, |nodes|).Some? && |Replay(nodes, |nodes|).value| == (if nodes == [] then 0 else 1) {
      var f := ReplayIsForest(nodes, |nodes|);
      OneRoot(nodes, f);
    }
    if q :| TableLimits(q, true) && nodes == Table(q) { TableReplays(nodes, q); }
  }

  lemma TableReplays(nodes: seq<Node>, q: Option<Query>)
    requires TableLimits(q, true) && nodes == Table(q)
    ensures Replay(nodes, |nodes|).Some? && |Replay(nodes, |nodes|).value| == if nodes == [] then 0 else 1
  {
    hide Limits, Holds, Postorder, Accept;
    if q.Some? {
      AtWhole(nodes);
      HoldsIffAt(nodes, 0, q.value);
      ReplayAcceptsPostorder(nodes, Bare, q.value);
    }
  }

  method ValidTsqueryConstantStorage(value: Storage) returns (ok: bool)
    ensures ok <==> Portable(value)
  {
    ReplayDecides(value.nodes);
    if value.nativeBytes < 8 + |value.nodes| * 12 || value.nativeBytes > 1073741823 ||
       value.root != (if |value.nodes| > 0 then |value.nodes| - 1 else 0)
    {
      return false;
    }
    var stack: seq<nat> := [];
    for index := 0 to |value.nodes|
      invariant Replay(value.nodes, index) == Some(stack)
    {
      var next := Accept(value.nodes[index], index, stack);
      if next.None? {
        ReplayStuck(value.nodes, index + 1, |value.nodes|);
        return false;
      }
      stack := next.value;
    }
    return |stack| == if |value.nodes| > 0 then 1 else 0;
  }

  // -- PostgreSQL's item array ------------------------------------------------------------------

  const MAX_BYTES := 1073741823

  function Pool(count: nat): nat { 8 + count * 12 }

  // An operand item packs the length and the pool offset of its text into one word.
  function TextLength(order: ByteOrder, bits: nat): nat
  {
    if order.Little? then bits % 4096 else bits / 1048576
  }

  function TextOffset(order: ByteOrder, bits: nat): nat
  {
    if order.Little? then bits / 4096 else bits % 1048576
  }

  predicate TextAt(order: ByteOrder, b: seq<byte>, pool: nat, bits: nat, text: seq<byte>)
  {
    var start := pool + TextOffset(order, bits);
    TextLength(order, bits) == |text| && start + |text| < |b| && b[start + |text|] == 0 &&
    b[start..start + |text|] == text
  }

  // Items from `at` on are the prefix form of the query: an operator, its right operand (which starts
  // right behind it), then its left operand at the stored distance.
  predicate Image(order: ByteOrder, b: seq<byte>, count: nat, at: nat, q: Query)
    requires Pool(count) <= |b|
    decreases q
  {
    at + Size(q) <= count &&
    var p := Pool(at);
    match q
    case Operand(text, weight, prefix) =>
      b[p] == 1 && b[p + 1] == weight && b[p + 2] == (if prefix then 1 else 0) &&
      TextAt(order, b, Pool(count), U32(order, b, p + 8), text)
    case Negation(arg) =>
      b[p] == 2 && b[p + 1] == 1 && U32(order, b, p + 4) == 1 && Image(order, b, count, at + 1, arg)
    case Operation(kind, distance, l, r) =>
      b[p] == 2 && b[p + 1] == kind && (kind == PHRASE ==> I16(order, b, p + 2) == distance) &&
      U32(order, b, p + 4) == 1 + Size(r) &&
      Image(order, b, count, at + 1, r) && Image(order, b, count, at + 1 + Size(r), l)
  }

  // `b` is how a server of this byte order and encoding stores the query.
  predicate Native(order: ByteOrder, b: seq<byte>, utf8: bool, q: Option<Query>)
  {
    8 <= |b| <= MAX_BYTES && FullHeader(order, b) && Pool(U32(order, b, 4)) <= |b| &&
    match q
    case None => U32(order, b, 4) == 0
    case Some(t) => U32(order, b, 4) == Size(t) && Image(order, b, Size(t), 0, t) && Limits(t, utf8)
  }

  datatype Root = Root(native: nat, portable: nat)

  datatype Scan = Scan(nodes: seq<Node>, roots: seq<Root>)

  // The node an iteration of the reverse scan pushes; None where it gives the order up.
  function OperandNode(order: ByteOrder, b: seq<byte>, utf8: bool, count: nat, index: nat): Option<Node>
    requires Pool(count) <= |b| && index < count
  {
    var at := Pool(index);
    var bits := U32(order, b, at + 8);
    var length := TextLength(order, bits);
    var start := Pool(count) + TextOffset(order, bits);
    if length > 2047 || start + length >= |b| || b[start + length] != 0 || b[at + 1] > 15 || b[at + 2] > 1 then None
    else
      var raw := b[start..start + length];
      if 0 in raw || !Readable(utf8, raw) then None
      else Some(Node(0, raw, b[at + 1], b[at + 2] != 0, 0, 0, 0))
  }

  function NegationNode(order: ByteOrder, b: seq<byte>, index: nat, left: Root): Option<Node>
    requires Pool(index) + 12 <= |b|
  {
    if U32(order, b, Pool(index) + 4) != 1 || left.native != index + 1 then None
    else Some(Node(1, [], 0, false, 0, left.portable, 0))
  }

  function OperationNode(order: ByteOrder, b: seq<byte>, index: nat, left: Root, right: Root): Option<Node>
    requires Pool(index) + 12 <= |b|
  {
    var at := Pool(index);
    var kind: int := b[at + 1];
    if right.native != index + 1 || left.native != index + U32(order, b, at + 4) then None
    else Some(Node(kind, [], 0, false, if kind == 4 then I16(order, b, at + 2) else 0, left.portable, right.portable))
  }

  function Grow(s: Scan, index: nat, popped: nat, node: Option<Node>): Option<Scan>
    requires popped <= |s.roots|
  {
    match node
    case None => None
    case Some(n) => Some(Scan(s.nodes + [n], s.roots[..|s.roots| - popped] + [Root(index, |s.nodes|)]))
  }

  function ScanItem(order: ByteOrder, b: seq<byte>, utf8: bool, count: nat, index: nat, s: Scan): Option<Scan>
    requires Pool(count) <= |b| && index < count
  {
    var tag, kind, n := b[Pool(index)], b[Pool(index) + 1], |s.roots|;
    if tag == 1 then Grow(s, index, 0, OperandNode(order, b, utf8, count, index))
    else if tag != 2 || kind < 1 || kind > 4 then None
    else if kind == 1 then
      if n < 1 then None else Grow(s, index, 1, NegationNode(order, b, index, s.roots[n - 1]))
    else
      if n < 2 then None else Grow(s, index, 2, OperationNode(order, b, index, s.roots[n - 2], s.roots[n - 1]))
  }

  // The scan after items count - 1 down to `index`.
  function ScanFrom(order: ByteOrder, b: seq<byte>, utf8: bool, count: nat, index: nat): Option<Scan>
    requires Pool(count) <= |b| && index <= count
    decreases count - index
  {
    if index == count then Some(Scan([], []))
    else match ScanFrom(order, b, utf8, count, index + 1)
      case None => None
      case Some(s) => ScanItem(order, b, utf8, count, index, s)
  }

  lemma {:induction false} ScanStuck(order: ByteOrder, b: seq<byte>, utf8: bool, count: nat, index: nat, lower: nat)
    requires Pool(count) <= |b| && lower <= index <= count && ScanFrom(order, b, utf8, count, index).None?
    ensures ScanFrom(order, b, utf8, count, lower).None?
    decreases index - lower
  {
    hide ScanItem;
    if lower < index { ScanStuck(order, b, utf8, count, index - 1, lower); }
  }

  // The scan state that stands for a forest whose topmost query starts at item `at`.
  function ForestTable(f: Forest): (nodes: seq<Node>)
    ensures |nodes| == Weight(f)
  {
    match f case Bare => [] case Push(below, top) => ForestTable(below) + Postorder(top, Weight(below))
  }

  function ForestRoots(f: Forest, at: nat): (roots: seq<Root>)
    ensures roots == [] <==> f.Bare?
  {
    match f case Bare => [] case Push(below, top) => ForestRoots(below, at + Size(top)) + [Root(at, Weight(f) - 1)]
  }

  function ScanOf(f: Forest, at: nat): Scan
  {
    Scan(ForestTable(f), ForestRoots(f, at))
  }

  predicate Images(order: ByteOrder, b: seq<byte>, count: nat, at: nat, f: Forest)
    requires Pool(count) <= |b|
    decreases f
  {
    match f
    case Bare => at == count
    case Push(below, top) => Image(order, b, count, at, top) && Images(order, b, count, at + Size(top), below)
  }

  lemma OneRootOnTop(f: Forest, at: nat)
    requires f.Push?
    ensures var roots := ForestRoots(f, at);
      |roots| >= 1 && roots[|roots| - 1] == Root(at, Weight(f) - 1) &&
      roots[..|roots| - 1] == ForestRoots(f.below, at + Size(f.top))
  {
    hide Size;
    Snoc(ForestRoots(f.below, at + Size(f.top)), Root(at, Weight(f) - 1));
  }

  lemma TwoRootsOnTop(f: Forest, at: nat)
    requires f.Push? && f.below.Push?
    ensures var roots, next := ForestRoots(f, at), at + Size(f.top);
      |roots| >= 2 && roots[|roots| - 2] == Root(next, Weight(f.below) - 1) &&
      roots[..|roots| - 2] == ForestRoots(f.below.below, next + Size(f.below.top))
  {
    OneRootOnTop(f, at);
    OneRootOnTop(f.below, at + Size(f.top));
    var roots := ForestRoots(f, at);
    SliceOfSlice(roots, 0, |roots| - 1, 0, |roots| - 2);
    assert roots[|roots| - 2] == roots[..|roots| - 1][|roots| - 2];
  }

  lemma ShiftTable(f: Forest, node: Node)
    requires Fits(node, f, true)
    ensures ForestTable(Shift(f, node)) == ForestTable(f) + [node]
  {
  }

  // The query an item closes, by its tag.
  lemma OperandFits(order: ByteOrder, b: seq<byte>, utf8: bool, count: nat, at: nat, f: Forest)
    requires Pool(count) <= |b| && at < count && Images(order, b, count, at + 1, f)
    requires b[Pool(at)] == 1 && OperandNode(order, b, utf8, count, at).Some?
    ensures var node := OperandNode(order, b, utf8, count, at).value;
      node.kind == 0 && Fits(node, f, utf8) && Fits(node, f, true) && Images(order, b, count, at, Shift(f, node))
  {
  }

  lemma NegationFits(order: ByteOrder, b: seq<byte>, utf8: bool, count: nat, at: nat, f: Forest)
    requires Pool(count) <= |b| && at < count && Images(order, b, count, at + 1, f) && f.Push?
    requires b[Pool(at)] == 2 && b[Pool(at) + 1] == 1
    requires NegationNode(order, b, at, Root(at + 1, Weight(f) - 1)).Some?
    ensures var node := NegationNode(order, b, at, Root(at + 1, Weight(f) - 1)).value;
      node.kind == 1 && Fits(node, f, utf8) && Fits(node, f, true) && Images(order, b, count, at, Shift(f, node))
  {
  }

  lemma OperationFits(order: ByteOrder, b: seq<byte>, utf8: bool, count: nat, at: nat, f: Forest)
    requires Pool(count) <= |b| && at < count && Images(order, b, count, at + 1, f) && f.Push? && f.below.Push?
    requires b[Pool(at)] == 2 && 1 < b[Pool(at) + 1] <= 4
    requires var l, r := Root(at + 1 + Size(f.top), Weight(f.below) - 1), Root(at + 1, Weight(f) - 1);
      OperationNode(order, b, at, l, r).Some?
    ensures var l, r := Root(at + 1 + Size(f.top), Weight(f.below) - 1), Root(at + 1, Weight(f) - 1);
      var node := OperationNode(order, b, at, l, r).value;
      node.kind > 1 && Fits(node, f, utf8) && Fits(node, f, true) && Images(order, b, count, at, Shift(f, node))
  {
    hide Limits, U32, I16;
  }

  function Arity(node: Node): nat { if node.kind == 0 then 0 else if node.kind == 1 then 1 else 2 }

  lemma PushedForestRoots(f: Forest, at: nat)
    requires f.Push?
    ensures ForestRoots(f, at) == ForestRoots(f.below, at + Size(f.top)) + [Root(at, Weight(f) - 1)]
  {
  }

  lemma ShiftRoots(f: Forest, node: Node, at: nat)
    requires Fits(node, f, true)
    ensures var roots := ForestRoots(f, at + 1);
      Arity(node) <= |roots| &&
      ForestRoots(Shift(f, node), at) == roots[..|roots| - Arity(node)] + [Root(at, Weight(f))]
  {
    hide Limits, RootNode, ForestRoots;
    var roots, g := ForestRoots(f, at + 1), Shift(f, node);
    if node.kind == 0 {
    } else if node.kind == 1 {
      OneRootOnTop(f, at + 1);
    } else {
      OneRootOnTop(f, at + 1);
      TwoRootsOnTop(f, at + 1);
    }
    assert roots[..|roots| - Arity(node)] == ForestRoots(g.below, at + Size(g.top));
    assert ForestRoots(g, at) == ForestRoots(g.below, at + Size(g.top)) + [Root(at, Weight(g) - 1)] by {
      PushedForestRoots(g, at);
    }
  }

  lemma GrowShifts(f: Forest, node: Node, at: nat)
    requires Fits(node, f, true)
    ensures Arity(node) <= |ForestRoots(f, at + 1)|
    ensures Grow(ScanOf(f, at + 1), at, Arity(node), Some(node)) == Some(ScanOf(Shift(f, node), at))
  {
    hide Fits, Shift, ForestRoots, ForestTable;
    ShiftTable(f, node);
    ShiftRoots(f, node, at);
  }

  lemma GrowsSome(s: Scan, at: nat)
    ensures forall popped: nat :: popped <= |s.roots| ==> Grow(s, at, popped, None).None?
  {
  }

  // Every item the scan accepts closes a query over the forest it has built, where the image says so.
  lemma ScanItemFits(order: ByteOrder, b: seq<byte>, utf8: bool, count: nat, at: nat, f: Forest) returns (node: Node)
    requires Pool(count) <= |b| && at < count
    requires Images(order, b, count, at + 1, f) && ScanItem(order, b, utf8, count, at, ScanOf(f, at + 1)).Some?
    ensures Fits(node, f, utf8) && Fits(node, f, true)
    ensures Images(order, b, count, at, Shift(f, node))
    ensures ScanItem(order, b, utf8, count, at, ScanOf(f, at + 1)) == Some(ScanOf(Shift(f, node), at))
  {
    hide OperandNode, NegationNode, OperationNode, Images, Limits, ForestTable, Fits, Shift, Grow, ForestRoots;
    GrowsSome(ScanOf(f, at + 1), at);
    var tag, kind := b[Pool(at)], b[Pool(at) + 1];
    if tag == 1 {
      node := OperandNode(order, b, utf8, count, at).value;
      OperandFits(order, b, utf8, count, at, f);
    } else if kind == 1 {
      OneRootOnTop(f, at + 1);
      node := NegationNode(order, b, at, Root(at + 1, Weight(f) - 1)).value;
      NegationFits(order, b, utf8, count, at, f);
    } else {
      OneRootOnTop(f, at + 1);
      TwoRootsOnTop(f, at + 1);
      node := OperationNode(order, b, at, Root(at + 1 + Size(f.top), Weight(f.below) - 1),
                            Root(at + 1, Weight(f) - 1)).value;
      OperationFits(order, b, utf8, count, at, f);
    }
    GrowShifts(f, node, at);
  }

  lemma {:induction false} ScanIsForest(order: ByteOrder, b: seq<byte>, utf8: bool, count: nat,
      index: nat) returns (f: Forest)
    requires Pool(count) <= |b| && index <= count && ScanFrom(order, b, utf8, count, index).Some?
    ensures Images(order, b, count, index, f) && ForestLimits(f, utf8)
    ensures ScanFrom(order, b, utf8, count, index) == Some(ScanOf(f, index))
    decreases count - index
  {
    hide ScanItem, Image;
    if index == count { return Bare; }
    var before := ScanIsForest(order, b, utf8, count, index + 1);
    var node := ScanItemFits(order, b, utf8, count, index, before);
    f := Shift(before, node);
  }

  // The item an image holds for a query is the one the scan turns into its root.
  lemma OperandImage(order: ByteOrder, b: seq<byte>, utf8: bool, count: nat, at: nat, f: Forest, q: Query)
    requires Pool(count) <= |b| && q.Operand? && Image(order, b, count, at, q) && Limits(q, utf8)
    ensures at < count && OperandNode(order, b, utf8, count, at) == Some(RootNode(q, Weight(f)))
  {
    hide U32, Readable;
  }

  lemma NegationImage(order: ByteOrder, b: seq<byte>, count: nat, at: nat, f: Forest, q: Query)
    requires Pool(count) <= |b| && q.Negation? && Image(order, b, count, at, q)
    ensures at < count
    ensures NegationNode(order, b, at, Root(at + 1, Weight(f) + Size(q.arg) - 1)) == Some(RootNode(q, Weight(f)))
  {
    hide U32;
  }

  lemma OperationImage(order: ByteOrder, b: seq<byte>, utf8: bool, count: nat, at: nat, f: Forest, q: Query)
    requires Pool(count) <= |b| && q.Operation? && Image(order, b, count, at, q) && Limits(q, utf8)
    ensures at < count
    ensures var l := Root(at + 1 + Size(q.right), Weight(f) + Size(q.left) - 1);
      var r := Root(at + 1, Weight(f) + Size(q.left) + Size(q.right) - 1);
      OperationNode(order, b, at, l, r) == Some(RootNode(q, Weight(f)))
  {
    hide U32, I16;
  }

  lemma ImageItem(order: ByteOrder, b: seq<byte>, utf8: bool, count: nat, at: nat, f: Forest, q: Query)
    requires Pool(count) <= |b| && Image(order, b, count, at, q) && Limits(q, utf8)
    ensures var g, root := Operands(f, q), Some(RootNode(q, Weight(f)));
      at < count && Weight(g) == Weight(f) + Size(q) - 1 && Arity(root.value) <= |ForestRoots(g, at + 1)| &&
      ScanItem(order, b, utf8, count, at, ScanOf(g, at + 1)) == Grow(ScanOf(g, at + 1), at, Arity(root.value), root)
  {
    match q {
      case Operand(_, _, _) =>
        hide ForestTable, Grow, OperandNode, NegationNode, OperationNode, ForestRoots, TextAt, U32, I16, Readable;
        OperandImage(order, b, utf8, count, at, f, q);
      case Negation(_) =>
        NegationItemImage(order, b, utf8, count, at, f, q);
      case Operation(_, _, _, _) =>
        OperationItemImage(order, b, utf8, count, at, f, q);
    }
  }

  lemma NegationItemImage(order: ByteOrder, b: seq<byte>, utf8: bool, count: nat, at: nat, f: Forest, q: Query)
    requires Pool(count) <= |b| && Image(order, b, count, at, q) && Limits(q, utf8) && q.Negation?
    ensures var g, root := Operands(f, q), Some(RootNode(q, Weight(f)));
      at < count && Weight(g) == Weight(f) + Size(q) - 1 && Arity(root.value) <= |ForestRoots(g, at + 1)| &&
      ScanItem(order, b, utf8, count, at, ScanOf(g, at + 1)) == Grow(ScanOf(g, at + 1), at, Arity(root.value), root)
  {
    hide ForestTable, Grow, OperandNode, NegationNode, OperationNode, ForestRoots, TextAt, U32, I16, Readable;
    NegationImage(order, b, count, at, f, q);
    OneRootOnTop(Operands(f, q), at + 1);
  }

  lemma OperationItemImage(order: ByteOrder, b: seq<byte>, utf8: bool, count: nat, at: nat, f: Forest, q: Query)
    requires Pool(count) <= |b| && Image(order, b, count, at, q) && Limits(q, utf8) && q.Operation?
    ensures var g, root := Operands(f, q), Some(RootNode(q, Weight(f)));
      at < count && Weight(g) == Weight(f) + Size(q) - 1 && Arity(root.value) <= |ForestRoots(g, at + 1)| &&
      ScanItem(order, b, utf8, count, at, ScanOf(g, at + 1)) == Grow(ScanOf(g, at + 1), at, Arity(root.value), root)
  {
    hide ForestTable, Grow, OperandNode, NegationNode, OperationNode, ForestRoots, TextAt, U32, I16, Readable;
    OperationImage(order, b, utf8, count, at, f, q);
    OneRootOnTop(Operands(f, q), at + 1);
    TwoRootsOnTop(Operands(f, q), at + 1);
  }

  lemma RootFits(f: Forest, q: Query)
    requires Limits(q, true)
    ensures var g, root := Operands(f, q), RootNode(q, Weight(f));
      Fits(root, g, true) && Shift(g, root) == Push(f, q)
  {
    hide Readable;
  }

  lemma {:induction false} ScanReadsImage(order: ByteOrder, b: seq<byte>, utf8: bool, count: nat, at: nat, f: Forest,
      q: Query)
    requires Pool(count) <= |b| && Image(order, b, count, at, q) && Limits(q, utf8) && Limits(q, true)
    requires ScanFrom(order, b, utf8, count, at + Size(q)) == Some(ScanOf(f, at + Size(q)))
    ensures ScanFrom(order, b, utf8, count, at) == Some(ScanOf(Push(f, q), at))
    decreases q
  {
    hide ScanItem, ForestTable, ForestRoots, U32, I16, TextAt, Readable;
    match q {
      case Operand(_, _, _) =>
      case Negation(arg) =>
        ScanReadsImage(order, b, utf8, count, at + 1, f, arg);
      case Operation(_, _, l, r) =>
        ScanReadsImage(order, b, utf8, count, at + 1 + Size(r), f, l);
        ScanReadsImage(order, b, utf8, count, at + 1, Push(f, l), r);
    }
    ImageItem(order, b, utf8, count, at, f, q);
    RootFits(f, q);
    GrowShifts(Operands(f, q), RootNode(q, Weight(f)), at);
  }

  lemma {:induction false} LimitsAnyEncoding(q: Query, utf8: bool)
    requires Limits(q, utf8)
    ensures Limits(q, true)
  {
    hide ValidUtf8;
    match q {
      case Operand(_, _, _) =>
      case Negation(arg) => LimitsAnyEncoding(arg, utf8);
      case Operation(_, _, l, r) => LimitsAnyEncoding(l, utf8); LimitsAnyEncoding(r, utf8);
    }
  }

  // -- The decoder ------------------------------------------------------------------------------

  // One byte order's reading, before the validator has its say.
  function Reading(order: ByteOrder, b: seq<byte>, utf8: bool): Option<Storage>
    requires 8 <= |b| <= MAX_BYTES
  {
    if !FullHeader(order, b) then None
    else
      var count := U32(order, b, 4);
      if Pool(count) > |b| then None
      else match ScanFrom(order, b, utf8, count, 0)
        case None => None
        case Some(s) =>
          if |s.roots| != (if count > 0 then 1 else 0) then None
          else Some(Storage(s.nodes, if |s.nodes| > 0 then |s.nodes| - 1 else 0, |b|))
  }

  lemma ReadingIsNative(order: ByteOrder, b: seq<byte>, utf8: bool) returns (q: Option<Query>)
    requires 8 <= |b| <= MAX_BYTES && Reading(order, b, utf8).Some?
    ensures Native(order, b, utf8, q) && Reading(order, b, utf8) == Some(StorageOf(q, |b|))
  {
    hide U32, Image, Images, Limits, FullHeader, ForestLimits, ForestRoots, ForestTable, ScanFrom, Postorder, Pool, Size;
    var count := U32(order, b, 4);
    var f := ScanIsForest(order, b, utf8, count, 0);
    q := if f.Bare? then None else Some(f.top);
    OneTree(order, b, count, utf8, f);
  }

  lemma OneTree(order: ByteOrder, b: seq<byte>, count: nat, utf8: bool, f: Forest)
    requires Pool(count) <= |b| && Images(order, b, count, 0, f) && ForestLimits(f, utf8)
    requires |ForestRoots(f, 0)| == if count > 0 then 1 else 0
    ensures f.Bare? ==> count == 0 && ForestTable(f) == []
    ensures f.Push? ==> count == Size(f.top) && Image(order, b, count, 0, f.top) && Limits(f.top, utf8) &&
                        ForestTable(f) == Postorder(f.top, 0)
  {
    hide Image, Limits, Postorder, Pool, Size;
    if f.Push? {
      OneRootOnTop(f, 0);
      assert f.below.Bare?;
    }
  }

  lemma NativeReading(order: ByteOrder, b: seq<byte>, utf8: bool, q: Option<Query>)
    requires Native(order, b, utf8, q)
    ensures Reading(order, b, utf8) == Some(StorageOf(q, |b|))
  {
    hide U32, Limits, FullHeader, Image, Postorder;
    if q.Some? {
      LimitsAnyEncoding(q.value, utf8);
      ScanReadsImage(order, b, utf8, Size(q.value), 0, Bare, q.value);
      var f := Push(Bare, q.value);
      assert ForestRoots(f, 0) == [Root(0, Size(q.value) - 1)];
      assert ForestTable(f) == Postorder(q.value, 0);
    }
  }

  // The validator accepts whatever the scan built.
  lemma NativePortable(order: ByteOrder, b: seq<byte>, utf8: bool, q: Option<Query>)
    requires Native(order, b, utf8, q)
    ensures Portable(StorageOf(q, |b|))
  {
    hide U32, Limits, FullHeader, Image, Postorder;
    if q.Some? {
      LimitsAnyEncoding(q.value, utf8);
    }
    assert TableLimits(q, true) && StorageOf(q, |b|).nodes == Table(q);
  }

  method ReadIn(order: ByteOrder, b: seq<byte>, utf8: bool) returns (candidate: Option<Storage>)
    requires 8 <= |b| <= MAX_BYTES
    ensures candidate == Reading(order, b, utf8)
  {
    hide U32, ScanItem, Native, FullHeader;
    if !FullHeader(order, b) { return None; }
    var count := U32(order, b, 4);
    if Pool(count) > |b| { return None; }
    var s := Scan([], []);
    var index: nat := count;
    while index > 0
      invariant index <= count && ScanFrom(order, b, utf8, count, index) == Some(s)
    {
      index := index - 1;
      var next := ScanItem(order, b, utf8, count, index, s);
      if next.None? {
        ScanStuck(order, b, utf8, count, index, 0);
        return None;
      }
      s := next.value;
    }
    if |s.roots| != (if count > 0 then 1 else 0) { return None; }
    candidate := Some(Storage(s.nodes, if |s.nodes| > 0 then |s.nodes| - 1 else 0, |b|));
    var ok := ValidTsqueryConstantStorage(candidate.value);
    if !ok {
      ghost var q := ReadingIsNative(order, b, utf8);
      NativePortable(order, b, utf8, q);
      assert false;
    }
  }

  // `b` stores, in one byte order or the other, the query this table stands for.
  ghost predicate Stores(b: seq<byte>, utf8: bool, value: Storage)
  {
    exists order, q :: Native(order, b, utf8, q) && value == StorageOf(q, |b|)
  }

  function BothReadings(b: seq<byte>, utf8: bool): Option<Storage>
  {
    if 8 <= |b| <= MAX_BYTES then Agreed(Reading(Little, b, utf8), Reading(Big, b, utf8)) else None
  }

  lemma StoresReads(b: seq<byte>, utf8: bool, value: Storage)
    ensures Stores(b, utf8, value) <==> BothReadings(b, utf8) == Some(value)
  {
    hide Native, StorageOf, ScanFrom, U32, Reading;
    if Stores(b, utf8, value) {
      var order, q :| Native(order, b, utf8, q) && value == StorageOf(q, |b|);
      assert 8 <= |b| <= MAX_BYTES && FullHeader(order, b) by { NativeHeader(order, b, utf8, q); }
      NativeReading(order, b, utf8, q);
      OtherReading(order, b, utf8);
    }
    if BothReadings(b, utf8) == Some(value) {
      var order := if Reading(Little, b, utf8).Some? then Little else Big;
      var q := ReadingIsNative(order, b, utf8);
    }
  }

  lemma NativeHeader(order: ByteOrder, b: seq<byte>, utf8: bool, q: Option<Query>)
    requires Native(order, b, utf8, q)
    ensures 8 <= |b| <= MAX_BYTES && FullHeader(order, b)
  {
    hide FullHeader, U32, Image;
  }

  lemma OtherReading(order: ByteOrder, b: seq<byte>, utf8: bool)
    requires 8 <= |b| <= MAX_BYTES && FullHeader(order, b)
    ensures Reading(if order.Little? then Big else Little, b, utf8).None?
  {
    hide ScanFrom, U32;
    if FullHeader(Little, b) {
      HeaderFixesOrder(b);
    }
  }

  // The decoder inverts the server's encoding: it returns the postorder of the stored query, whatever
  // the server's byte order, and nothing for bytes that store no query within limits.
  method TsqueryConstantStorage(b: seq<byte>, utf8: bool) returns (r: Option<Storage>)
    ensures forall value :: Stores(b, utf8, value) <==> r == Some(value)
  {
    r := None;
    if 8 <= |b| && |b| <= MAX_BYTES {
      var little := ReadIn(Little, b, utf8);
      var big := ReadIn(Big, b, utf8);
      r := Agreed(little, big);
    }
    hide Stores, Reading;
    forall value ensures Stores(b, utf8, value) <==> r == Some(value) {
      StoresReads(b, utf8, value);
    }
  }

  // -- The server's encoder ---------------------------------------------------------------------

  function PoolBytes(q: Query): seq<byte>
  {
    match q
    case Operand(text, _, _) => text + [0]
    case Negation(arg) => PoolBytes(arg)
    case Operation(_, _, l, r) => PoolBytes(r) + PoolBytes(l)
  }

  function PackText(order: ByteOrder, length: nat, offset: nat): (bits: nat)
    requires length < 4096 && offset < 1048576
    ensures bits < 0x1_0000_0000 && TextLength(order, bits) == length && TextOffset(order, bits) == offset
  {
    if order.Little? then offset * 4096 + length else length * 1048576 + offset
  }

  function Item(tag: byte, second: byte, two: seq<byte>, four: seq<byte>, last: seq<byte>): (item: seq<byte>)
    requires |two| == 2 && |four| == |last| == 4
    ensures |item| == 12
  {
    [tag, second] + two + four + last
  }

  // The items of a query whose texts start at `offset` of the pool.
  ghost function Items(order: ByteOrder, q: Query, offset: nat): (items: seq<byte>)
    requires Limits(q, true) && offset + |PoolBytes(q)| <= 1048576 && Size(q) < 0x1_0000_0000
    ensures |items| == 12 * Size(q)
  {
    match q
    case Operand(text, weight, prefix) =>
      Item(1, weight, [if prefix then 1 else 0, 0], [0, 0, 0, 0], PutU32(order, PackText(order, |text|, offset)))
    case Negation(arg) =>
      Item(2, 1, [0, 0], PutU32(order, 1), [0, 0, 0, 0]) + Items(order, arg, offset)
    case Operation(kind, distance, l, r) =>
      Item(2, kind, PutI16(order, distance), PutU32(order, 1 + Size(r)), [0, 0, 0, 0]) +
      (Items(order, r, offset) + Items(order, l, offset + |PoolBytes(r)|))
  }

  lemma ItemAt(b: seq<byte>, at: nat, tag: byte, second: byte, two: seq<byte>, four: seq<byte>, last: seq<byte>)
    requires |two| == 2 && |four| == |last| == 4 && At(b, at, Item(tag, second, two, four, last))
    ensures b[at] == tag && b[at + 1] == second && b[at + 2] == two[0]
    ensures At(b, at + 2, two) && At(b, at + 4, four) && At(b, at + 8, last)
  {
    AtSplit(b, at, [tag, second] + two + four, last);
    AtSplit(b, at, [tag, second] + two, four);
    AtSplit(b, at, [tag, second], two);
    var start := [tag, second];
    assert b[at + 0] == start[0] && b[at + 1] == start[1] && b[at + 2 + 0] == two[0];
  }

  lemma OperandItem(order: ByteOrder, b: seq<byte>, count: nat, at: nat, q: Query, offset: nat)
    requires Pool(count) <= |b| && at < count && q.Operand? && Limits(q, true) && offset + |PoolBytes(q)| <= 1048576
    requires At(b, Pool(at), Items(order, q, offset)) && At(b, Pool(count) + offset, PoolBytes(q))
    ensures Image(order, b, count, at, q)
  {
    hide U32, PutU32, PackText, Item, Readable, At, TextAt;
    var p := Pool(at);
    var bits := PackText(order, |q.text|, offset);
    ItemAt(b, p, 1, q.weight, [if q.prefix then 1 else 0, 0], [0, 0, 0, 0], PutU32(order, bits));
    U32At(order, b, p + 8, bits);
    PooledText(order, b, Pool(count), q.text, offset);
  }

  lemma PooledText(order: ByteOrder, b: seq<byte>, pool: nat, text: seq<byte>, offset: nat)
    requires |text| < 4096 && offset < 1048576 && At(b, pool + offset, text + [0])
    ensures TextAt(order, b, pool, PackText(order, |text|, offset), text)
  {
    hide PackText;
    var start := pool + offset;
    AtSplit(b, start, text, [0]);
    AtSlice(b, start, text);
    assert b[start + |text| + 0] == [0][0];
  }

  lemma NegationItem(order: ByteOrder, b: seq<byte>, at: nat, q: Query, offset: nat)
    requires q.Negation? && Limits(q, true) && offset + |PoolBytes(q)| <= 1048576 && Size(q) < 0x1_0000_0000
    requires At(b, Pool(at), Items(order, q, offset))
    ensures b[Pool(at)] == 2 && b[Pool(at) + 1] == 1 && U32(order, b, Pool(at) + 4) == 1
    ensures At(b, Pool(at + 1), Items(order, q.arg, offset))
  {
    hide U32, PutU32, Item, At;
    var item := Item(2, 1, [0, 0], PutU32(order, 1), [0, 0, 0, 0]);
    AtSplit(b, Pool(at), item, Items(order, q.arg, offset));
    ItemAt(b, Pool(at), 2, 1, [0, 0], PutU32(order, 1), [0, 0, 0, 0]);
    U32At(order, b, Pool(at) + 4, 1);
  }

  lemma OperationItem(order: ByteOrder, b: seq<byte>, at: nat, q: Query, offset: nat)
    requires q.Operation? && Limits(q, true) && offset + |PoolBytes(q)| <= 1048576 && Size(q) < 0x1_0000_0000
    requires At(b, Pool(at), Items(order, q, offset))
    ensures var p := Pool(at);
      b[p] == 2 && b[p + 1] == q.kind && U32(order, b, p + 4) == 1 + Size(q.right) &&
      At(b, p + 2, PutI16(order, q.distance))
    ensures At(b, Pool(at + 1), Items(order, q.right, offset))
    ensures At(b, Pool(at + 1 + Size(q.right)), Items(order, q.left, offset + |PoolBytes(q.right)|))
  {
    hide U32, PutU32, PutI16, Item, At;
    var p, size := Pool(at), PutU32(order, 1 + Size(q.right));
    var right, left := Items(order, q.right, offset), Items(order, q.left, offset + |PoolBytes(q.right)|);
    AtSplit(b, p, Item(2, q.kind, PutI16(order, q.distance), size, [0, 0, 0, 0]), right + left);
    AtSplit(b, p + 12, right, left);
    ItemAt(b, p, 2, q.kind, PutI16(order, q.distance), size, [0, 0, 0, 0]);
    U32At(order, b, p + 4, 1 + Size(q.right));
  }

  lemma {:induction false} ItemsAreImage(order: ByteOrder, b: seq<byte>, count: nat, at: nat, q: Query, offset: nat)
    requires Pool(count) <= |b| && at + Size(q) <= count < 0x1_0000_0000
    requires Limits(q, true) && offset + |PoolBytes(q)| <= 1048576
    requires At(b, Pool(at), Items(order, q, offset)) && At(b, Pool(count) + offset, PoolBytes(q))
    ensures Image(order, b, count, at, q)
    decreases q
  {
    hide U32, I16, PutU32, PutI16, At, TextAt, Item, Readable, Items;
    match q {
      case Operand(_, _, _) =>
        OperandItem(order, b, count, at, q, offset);
      case Negation(arg) =>
        NegationItem(order, b, at, q, offset);
        ItemsAreImage(order, b, count, at + 1, arg, offset);
      case Operation(kind, distance, l, r) =>
        OperationItem(order, b, at, q, offset);
        I16At(order, b, Pool(at) + 2, distance);
        AtSplit(b, Pool(count) + offset, PoolBytes(r), PoolBytes(l));
        ItemsAreImage(order, b, count, at + 1, r, offset);
        ItemsAreImage(order, b, count, at + 1 + Size(r), l, offset + |PoolBytes(r)|);
    }
  }

  // Queries whose image fits the format's fields.
  predicate Storable(q: Option<Query>, utf8: bool)
  {
    TableLimits(q, true) && TableLimits(q, utf8) &&
    (q.Some? ==> |PoolBytes(q.value)| <= 1048576 && Pool(Size(q.value)) + |PoolBytes(q.value)| <= MAX_BYTES)
  }

  ghost function Encode(order: ByteOrder, q: Option<Query>): (b: seq<byte>)
    requires Storable(q, true)
  {
    var count := if q.None? then 0 else Size(q.value);
    var body := if q.None? then [] else Items(order, q.value, 0) + PoolBytes(q.value);
    PutHeader(order, 8 + |body|) + PutU32(order, count) + body
  }

  lemma EncodeIsNative(order: ByteOrder, q: Option<Query>, utf8: bool)
    requires Storable(q, utf8)
    ensures Native(order, Encode(order, q), utf8, q)
  {
    hide U32, PutU32, PutHeader, At, Image, FullHeader, Items, PoolBytes, Limits;
    var b := Encode(order, q);
    var count := if q.None? then 0 else Size(q.value);
    var body := if q.None? then [] else Items(order, q.value, 0) + PoolBytes(q.value);
    AtWhole(b);
    AtSplit(b, 0, PutHeader(order, 8 + |body|) + PutU32(order, count), body);
    AtSplit(b, 0, PutHeader(order, 8 + |body|), PutU32(order, count));
    HeaderAt(order, b);
    U32At(order, b, 4, count);
    if q.Some? {
      AtSplit(b, 8, Items(order, q.value, 0), PoolBytes(q.value));
      ItemsAreImage(order, b, count, 0, q.value, 0);
    }
  }

  // Decoding what a server of either byte order and any encoding stores for a query gives that query's postorder.
  lemma RoundTrip(order: ByteOrder, q: Option<Query>, utf8: bool)
    requires Storable(q, utf8)
    ensures BothReadings(Encode(order, q), utf8) == Some(StorageOf(q, |Encode(order, q)|))
  {
    EncodeIsNative(order, q, utf8);
    assert Stores(Encode(order, q), utf8, StorageOf(q, |Encode(order, q)|));
    hide Stores, StorageOf, Encode, Native, BothReadings;
    StoresReads(Encode(order, q), utf8, StorageOf(q, |Encode(order, q)|));
  }
}
