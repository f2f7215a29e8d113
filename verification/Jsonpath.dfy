/** jsonpath constants (src/catalog/jsonpath-constant-storage.ts): node tables of path expressions, and reading one
    out of PostgreSQL's linked layout. */
module JsonpathTable {
  import opened Bytes

  datatype PathNode = PathNode(kind: int, next: int, left: int, right: int, text: seq<byte>, first: int, last: int,
                               flags: int)

  datatype Storage = Storage(nodes: seq<PathNode>, root: int, lax: bool, source: seq<byte>)

  const EMPTY := PathNode(0, 0, 0, 0, [], 0, 0, 0)

  // -- Limits on single nodes -------------------------------------------------------------------------------

  predicate KnownKind(kind: int)
  {
    0 <= kind <= 36 ||
        kind in {102, 104, 108, 109, 111, 114, 115, 116, 118, 121, 122, 123, 124, 125, 126, 128, 129, 130, 132}
  }

  predicate NodeValid(n: PathNode, index: nat, count: nat)
  {
    KnownKind(n.kind) && (index == 0 <==> n.kind == 0) && PlainText(true, n.text) &&
    -1 <= n.first <= 0x7FFF_FFFF && -1 <= n.last <= 0x7FFF_FFFF && 0 <= n.flags <= 31 &&
    (index == 0 ==> n.next == 0 && n.left == 0 && n.right == 0) &&
    (n.kind != 15 ==> n.first == 0 && n.last == 0) && (n.kind != 36 ==> n.flags == 0) &&
    (n.kind !in {4, 5, 6, 10, 36} ==> n.text == []) &&
    0 <= n.next < count && 0 <= n.left < count && 0 <= n.right < count
  }

  predicate TableValid(nodes: seq<PathNode>)
  {
    forall i :: 0 <= i < |nodes| ==> NodeValid(nodes[i], i, |nodes|)
  }

  predicate HeadValid(v: Storage)
  {
    v.source != [] && PlainText(true, v.source) && |v.nodes| >= 2 && 1 <= v.root < |v.nodes|
  }

  // -- One tree -----------------------------------------------------------------------------------------------

  // The links followed from a node, unrolled; 0 links to nothing.
  datatype Shape = Nothing | Node(index: nat, next: Shape, left: Shape, right: Shape)

  predicate Unrolls(nodes: seq<PathNode>, link: int, s: Shape)
    decreases s
  {
    match s
    case Nothing => link == 0
    case Node(index, next, left, right) =>
      link == index && 0 < index < |nodes| && Unrolls(nodes, nodes[index].next, next) &&
      Unrolls(nodes, nodes[index].left, left) && Unrolls(nodes, nodes[index].right, right)
  }

  // The nodes an unrolling visits, in the order the validator does.
  function Visits(s: Shape): seq<nat>
  {
    match s case Nothing => [] case Node(index, next, left, right) => [index] + Visits(right) + Visits(left) + Visits(next)
  }

  predicate Distinct<T(==)>(s: seq<T>) { forall i, j :: 0 <= i < j < |s| ==> s[i] != s[j] }

  function Members(s: seq<nat>): (m: set<nat>)
    ensures forall i :: i in m <==> i in s
  {
    set i | i in s
  }

  function Indices(n: nat): (all: set<nat>)
    ensures forall i :: i in all <==> 1 <= i < n
    ensures n > 0 ==> |all| == n - 1
  {
    if n <= 1 then {} else Indices(n - 1) + {n - 1}
  }

  // The links from the root form one tree in which every node but the first appears exactly once.
  ghost predicate OneTree(nodes: seq<PathNode>, root: int)
  {
    exists s :: Unrolls(nodes, root, s) && Distinct(Visits(s)) && Members(Visits(s)) == Indices(|nodes|)
  }

  ghost predicate Valid(v: Storage)
  {
    HeadValid(v) && TableValid(v.nodes) && OneTree(v.nodes, v.root)
  }

  // -- The walk ---------------------------------------------------------------------------------------------------

  datatype Pending = Done | Link(index: int, rest: Pending)

  function Push(index: int, rest: Pending): Pending { if index == 0 then rest else Link(index, rest) }

  predicate LinksIn(nodes: seq<PathNode>)
  {
    forall i :: 0 <= i < |nodes| ==> 0 <= nodes[i].next < |nodes| && 0 <= nodes[i].left < |nodes| && 0 <= nodes[i].right < |nodes|
  }

  predicate PendingIn(nodes: seq<PathNode>, pending: Pending)
  {
    match pending case Done => true case Link(i, rest) => 0 < i < |nodes| && PendingIn(nodes, rest)
  }

  function Children(n: PathNode, rest: Pending): Pending { Push(n.right, Push(n.left, Push(n.next, rest))) }

  lemma Fewer(nodes: seq<PathNode>, visited: set<nat>, i: nat)
    requires 0 < i < |nodes| && i !in visited
    ensures |Indices(|nodes|) - (visited + {i})| < |Indices(|nodes|) - visited|
  {
    var a, b := Indices(|nodes|) - (visited + {i}), Indices(|nodes|) - visited;
    assert b == a + {i} && i !in a;
  }

  // What has been visited when nothing is pending any more; nothing when some node is met twice.
  function Walk(nodes: seq<PathNode>, pending: Pending, visited: set<nat>): Option<set<nat>>
    requires LinksIn(nodes) && PendingIn(nodes, pending)
    decreases |Indices(|nodes|) - visited|, pending
  {
    match pending
    case Done => Some(visited)
    case Link(i, rest) =>
      if i in visited then None
      else
        Fewer(nodes, visited, i);
        Walk(nodes, Children(nodes[i], rest), visited + {i})
  }

  // Unrolled trees for everything that is pending.
  datatype Forest = NoTrees | Tree(tree: Shape, rest: Forest)

  predicate Grows(nodes: seq<PathNode>, pending: Pending, f: Forest)
  {
    match pending
    case Done => f.NoTrees?
    case Link(i, rest) => f.Tree? && Unrolls(nodes, i, f.tree) && Grows(nodes, rest, f.rest)
  }

  function ForestVisits(f: Forest): seq<nat>
  {
    match f case NoTrees => [] case Tree(s, rest) => Visits(s) + ForestVisits(rest)
  }

  function PushTree(s: Shape, f: Forest): Forest { if s.Nothing? then f else Tree(s, f) }

  lemma PushedVisits(s: Shape, f: Forest)
    ensures ForestVisits(PushTree(s, f)) == Visits(s) + ForestVisits(f)
  {
    if s.Nothing? { assert [] + ForestVisits(f) == ForestVisits(f); }
  }

  // A node's trees and the trees of its links are the same nodes in the same order.
  lemma OpenedVisits(s: Shape, rest: Forest)
    requires s.Node?
    ensures ForestVisits(Tree(s, rest)) == [s.index] +
      ForestVisits(PushTree(s.right, PushTree(s.left, PushTree(s.next, rest))))
  {
    PushedVisits(s.next, rest);
    PushedVisits(s.left, PushTree(s.next, rest));
    PushedVisits(s.right, PushTree(s.left, PushTree(s.next, rest)));
    Regroup([s.index], Visits(s.right), Visits(s.left), Visits(s.next), ForestVisits(rest));
  }

  lemma Regroup<T>(a: seq<T>, b: seq<T>, c: seq<T>, d: seq<T>, e: seq<T>)
    ensures a + b + c + d + e == a + (b + (c + (d + e)))
  {
  }

  lemma GrowsOpened(nodes: seq<PathNode>, i: int, rest: Pending, f: Forest)
    requires 0 < i < |nodes| && Grows(nodes, Link(i, rest), f)
    ensures f.tree.Node? && f.tree.index == i
    ensures Grows(nodes, Children(nodes[i], rest),
                  PushTree(f.tree.right, PushTree(f.tree.left, PushTree(f.tree.next, f.rest))))
  {
    var s, n := f.tree, nodes[i];
    GrowsPush(nodes, n.next, rest, s.next, f.rest);
    GrowsPush(nodes, n.left, Push(n.next, rest), s.left, PushTree(s.next, f.rest));
    GrowsPush(nodes, n.right, Push(n.left, Push(n.next, rest)), s.right, PushTree(s.left, PushTree(s.next, f.rest)));
  }

  lemma GrowsPush(nodes: seq<PathNode>, link: int, rest: Pending, s: Shape, f: Forest)
    requires Unrolls(nodes, link, s) && Grows(nodes, rest, f)
    ensures Grows(nodes, Push(link, rest), PushTree(s, f))
  {
  }

  predicate Fresh(visited: set<nat>, visits: seq<nat>)
  {
    Distinct(visits) && forall i :: i in visits ==> i !in visited
  }

  lemma FreshCons(visited: set<nat>, i: nat, rest: seq<nat>)
    ensures Fresh(visited, [i] + rest) <==> i !in visited && Fresh(visited + {i}, rest)
  {
    var all := [i] + rest;
    if Fresh(visited, all) {
      assert all[0] == i && all[1..] == rest;
      forall a, b | 0 <= a < b < |rest| ensures rest[a] != rest[b] { assert all[a + 1] != all[b + 1]; }
      forall k | k in rest ensures k !in visited + {i} {
        var at :| 0 <= at < |rest| && rest[at] == k;
        assert all[at + 1] == k && all[0] != all[at + 1];
      }
    }
    if i !in visited && Fresh(visited + {i}, rest) {
      forall a, b | 0 <= a < b < |all| ensures all[a] != all[b] {
        assert all[b] == rest[b - 1] && rest[b - 1] in rest;
      }
    }
  }

  // Over trees whose nodes are all new and distinct, the walk visits exactly those nodes.
  lemma {:induction false} WalksTrees(nodes: seq<PathNode>, pending: Pending, visited: set<nat>, f: Forest)
    requires LinksIn(nodes) && PendingIn(nodes, pending) && Grows(nodes, pending, f) && Fresh(visited, ForestVisits(f))
    ensures Walk(nodes, pending, visited) == Some(visited + Members(ForestVisits(f)))
    decreases |Indices(|nodes|) - visited|, pending
  {
    hide LinksIn, Fresh, Grows;
    match pending
    case Done =>
      NoForest(nodes, f);
      assert visited + Members(ForestVisits(f)) == visited;
    case Link(i, rest) =>
      TreeOf(nodes, i, rest, f);
      GrowsOpened(nodes, i, rest, f);
      var inside := PushTree(f.tree.right, PushTree(f.tree.left, PushTree(f.tree.next, f.rest)));
      OpenedVisits(f.tree, f.rest);
      FreshCons(visited, i, ForestVisits(inside));
      Fewer(nodes, visited, i);
      ChildrenIn(nodes, i, rest);
      WalksTrees(nodes, Children(nodes[i], rest), visited + {i}, inside);
      assert visited + {i} + Members(ForestVisits(inside)) == visited + Members(ForestVisits(f));
  }

  lemma NoForest(nodes: seq<PathNode>, f: Forest)
    requires Grows(nodes, Done, f)
    ensures f.NoTrees?
  {
  }

  lemma TreeOf(nodes: seq<PathNode>, i: int, rest: Pending, f: Forest)
    requires Grows(nodes, Link(i, rest), f)
    ensures f.Tree? && f == Tree(f.tree, f.rest)
  {
  }

  lemma ChildrenIn(nodes: seq<PathNode>, i: int, rest: Pending)
    requires LinksIn(nodes) && 0 < i < |nodes| && PendingIn(nodes, rest)
    ensures PendingIn(nodes, Children(nodes[i], rest))
  {
  }

  // Whatever the walk accepts is made of such trees.
  lemma {:induction false} WalkedTrees(nodes: seq<PathNode>, pending: Pending, visited: set<nat>) returns (f: Forest)
    requires LinksIn(nodes) && PendingIn(nodes, pending) && Walk(nodes, pending, visited).Some?
    ensures Grows(nodes, pending, f) && Fresh(visited, ForestVisits(f))
    decreases |Indices(|nodes|) - visited|, pending
  {
    hide LinksIn, Fresh, Grows;
    match pending
    case Done =>
      f := NoTrees;
      assert Grows(nodes, Done, NoTrees) && Fresh(visited, []) by { NothingGrows(nodes, visited); }
    case Link(i, rest) =>
      Fewer(nodes, visited, i);
      ChildrenIn(nodes, i, rest);
      var inside := WalkedTrees(nodes, Children(nodes[i], rest), visited + {i});
      var right, f1 := PopTree(nodes, nodes[i].right, Push(nodes[i].left, Push(nodes[i].next, rest)), inside);
      var left, f2 := PopTree(nodes, nodes[i].left, Push(nodes[i].next, rest), f1);
      var next, f3 := PopTree(nodes, nodes[i].next, rest, f2);
      var s := Node(i, next, left, right);
      f := Tree(s, f3);
      Closed(nodes, i, rest, s, f3);
      OpenedVisits(s, f3);
      FreshCons(visited, i, ForestVisits(inside));
  }

  lemma NothingGrows(nodes: seq<PathNode>, visited: set<nat>)
    ensures Grows(nodes, Done, NoTrees) && Fresh(visited, [])
  {
  }

  lemma PopTree(nodes: seq<PathNode>, link: int, rest: Pending, f: Forest) returns (s: Shape, remaining: Forest)
    requires Grows(nodes, Push(link, rest), f)
    ensures Unrolls(nodes, link, s) && Grows(nodes, rest, remaining) && f == PushTree(s, remaining)
  {
    if link == 0 {
      s, remaining := Nothing, f;
    } else {
      s, remaining := f.tree, f.rest;
      assert s.Node?;
    }
  }

  lemma Closed(nodes: seq<PathNode>, i: int, rest: Pending, s: Shape, f: Forest)
    requires 0 < i < |nodes| && s.Node? && s.index == i && Grows(nodes, rest, f)
    requires Unrolls(nodes, nodes[i].next, s.next) && Unrolls(nodes, nodes[i].left, s.left)
    requires Unrolls(nodes, nodes[i].right, s.right)
    ensures Grows(nodes, Link(i, rest), Tree(s, f))
  {
  }

  // -- The validator ------------------------------------------------------------------------------------------------

  lemma {:induction false} VisitsIn(nodes: seq<PathNode>, link: int, s: Shape)
    requires Unrolls(nodes, link, s)
    ensures forall i :: i in Visits(s) ==> 0 < i < |nodes|
    decreases s
  {
    if s.Node? {
      VisitsIn(nodes, nodes[s.index].next, s.next);
      VisitsIn(nodes, nodes[s.index].left, s.left);
      VisitsIn(nodes, nodes[s.index].right, s.right);
    }
  }

  lemma TreeWalks(nodes: seq<PathNode>, root: int)
    requires LinksIn(nodes) && 1 <= root < |nodes| && OneTree(nodes, root)
    ensures Walk(nodes, Link(root, Done), {}) == Some(Indices(|nodes|))
  {
    hide Walk, Unrolls, LinksIn, Indices, Members, Fresh, Distinct, Visits, ForestVisits, Grows;
    var s :| Unrolls(nodes, root, s) && Distinct(Visits(s)) && Members(Visits(s)) == Indices(|nodes|);
    var f := Tree(s, NoTrees);
    GrowsOne(nodes, root, s);
    OnlyTree(s);
    FreshAll(Visits(s));
    WalksTrees(nodes, Link(root, Done), {}, f);
    assert {} + Indices(|nodes|) == Indices(|nodes|);
  }

  lemma GrowsOne(nodes: seq<PathNode>, root: int, s: Shape)
    requires Unrolls(nodes, root, s)
    ensures Grows(nodes, Link(root, Done), Tree(s, NoTrees))
  {
    hide Unrolls;
  }

  lemma OnlyTree(s: Shape)
    ensures ForestVisits(Tree(s, NoTrees)) == Visits(s)
  {
    hide Visits;
    assert Visits(s) + [] == Visits(s);
  }

  lemma WalkIsTree(nodes: seq<PathNode>, root: int)
    requires LinksIn(nodes) && 1 <= root < |nodes|
    requires var v := Walk(nodes, Link(root, Done), {}); v.Some? && |v.value| == |nodes| - 1
    ensures OneTree(nodes, root)
  {
    hide Walk, Unrolls, LinksIn, Indices, Fresh, Distinct;
    var f := WalkedTrees(nodes, Link(root, Done), {});
    assert f.rest == NoTrees && ForestVisits(f) == Visits(f.tree);
    WalksTrees(nodes, Link(root, Done), {}, f);
    VisitsIn(nodes, root, f.tree);
    var all := Members(Visits(f.tree));
    assert {} + all == all;
    SameSize(all, Indices(|nodes|));
    FreshAll(Visits(f.tree));
  }

  lemma SameSize<T>(a: set<T>, b: set<T>)
    requires a <= b && |a| == |b|
    ensures a == b
  {
    assert b == a + (b - a) && |b| == |a| + |b - a|;
  }

  // The walk from the root meets every node once and none twice exactly when the links form one tree.
  lemma WalkIffTree(nodes: seq<PathNode>, root: int)
    requires LinksIn(nodes) && 1 <= root < |nodes|
    ensures OneTree(nodes, root) <==>
      var v := Walk(nodes, Link(root, Done), {}); v.Some? && |v.value| == |nodes| - 1
  {
    hide Walk, LinksIn, OneTree;
    if OneTree(nodes, root) {
      TreeWalks(nodes, root);
    } else {
      var v := Walk(nodes, Link(root, Done), {});
      if v.Some? && |v.value| == |nodes| - 1 { WalkIsTree(nodes, root); }
    }
  }

  lemma FreshAll(s: seq<nat>)
    ensures Distinct(s) <==> Fresh({}, s)
  {
  }

  method ValidJsonpathConstantStorage(v: Storage) returns (r: bool)
    ensures r <==> Valid(v)
  {
    hide NodeValid, PlainText, OneTree, Walk;
    if !HeadValid(v) { return false; }
    var n := |v.nodes|;
    for i := 0 to n
      invariant forall k :: 0 <= k < i ==> NodeValid(v.nodes[k], k, n)
    {
      if !NodeValid(v.nodes[i], i, n) { return false; }
    }
    LinksOfTable(v.nodes);
    WalkIffTree(v.nodes, v.root);
    var pending := Link(v.root, Done);
    var visited: set<nat> := {};
    while pending.Link?
      invariant PendingIn(v.nodes, pending)
      invariant Walk(v.nodes, pending, visited) == Walk(v.nodes, Link(v.root, Done), {})
      decreases |Indices(n) - visited|
    {
      var index, rest := pending.index, pending.rest;
      WalkStep(v.nodes, index, rest, visited);
      if index in visited { return false; }
      Fewer(v.nodes, visited, index);
      visited := visited + {index};
      var node := v.nodes[index];
      ChildrenIn(v.nodes, index, rest);
      pending := Push(node.next, rest);
      pending := Push(node.left, pending);
      pending := Push(node.right, pending);
    }
    WalkDone(v.nodes, visited);
    r := |visited| == n - 1;
  }

  lemma LinksOfTable(nodes: seq<PathNode>)
    requires TableValid(nodes)
    ensures LinksIn(nodes)
  {
    hide PlainText, KnownKind;
    forall i | 0 <= i < |nodes| ensures 0 <= nodes[i].next < |nodes| && 0 <= nodes[i].left < |nodes| &&
        0 <= nodes[i].right < |nodes| {
      assert NodeValid(nodes[i], i, |nodes|);
    }
  }

  lemma WalkStep(nodes: seq<PathNode>, i: int, rest: Pending, visited: set<nat>)
    requires LinksIn(nodes) && PendingIn(nodes, Link(i, rest))
    ensures PendingIn(nodes, rest) && PendingIn(nodes, Children(nodes[i], rest))
    ensures Walk(nodes, Link(i, rest), visited) ==
      if i in visited then None else Walk(nodes, Children(nodes[i], rest), visited + {i})
  {
    ChildrenIn(nodes, i, rest);
  }

  lemma WalkDone(nodes: seq<PathNode>, visited: set<nat>)
    requires LinksIn(nodes)
    ensures Walk(nodes, Done, visited) == Some(visited)
  {
  }
}

/** Rendering and capturing a jsonpath out of PostgreSQL's linked layout. */
module Jsonpath {
  import opened Bytes
  import opened Parts
  import opened Decimal
  import opened JsonpathTable
  import N = Numeric
  import J = Jsonb

  // The linked items of a path, and how the server that wrote them reads words and text.
  datatype Image = Image(data: seq<byte>, order: ByteOrder, utf8: bool)

  // -- Paths ----------------------------------------------------------------------------------------------

  datatype Detail =
    | NoDetail
    | TextDetail(text: seq<byte>)
    | NumberDetail(number: string)
    | BoolDetail(truth: bool)
    | BoundsDetail(first: int, last: int)
    | RegexDetail(flags: nat, pattern: seq<byte>)

  // One item with its arguments, some of which may be left out, and the item applied to its result.
  datatype Path = Path(kind: nat, detail: Detail, args: Args, next: Option<Path>)

  datatype Args = NoArgs | Arg(first: Option<Path>, rest: Args)

  function Count(args: Args): nat { match args case NoArgs => 0 case Arg(_, rest) => 1 + Count(rest) }

  // -- Kinds of items ---------------------------------------------------------------------------------------

  const SUBSCRIPTS: nat := 23
  const DECIMAL: nat := 46

  predicate IsText(k: nat) { k == 1 || k == 25 || k == 28 }

  function Operator(k: nat): string
  {
    match k
    case 4 => "&&" case 5 => "||" case 8 => "==" case 9 => "!=" case 10 => "<" case 11 => ">" case 12 => "<="
    case 13 => ">=" case 14 => "+" case 15 => "-" case 16 => "*" case 17 => "/" case 18 => "%" case 41 => "starts with"
    case _ => ""
  }

  predicate IsBinary(k: nat) { Operator(k) != "" }

  predicate IsUnary(k: nat) { k == 6 || k == 7 || k == 19 || k == 20 || k == 29 || k == 30 }

  function Method(k: nat): string
  {
    match k
    case 31 => "type" case 32 => "size" case 33 => "abs" case 34 => "floor" case 35 => "ceiling" case 36 => "double"
    case 38 => "keyvalue" case 43 => "bigint" case 44 => "boolean" case 45 => "date" case 47 => "integer"
    case 48 => "number" case 49 => "string"
    case _ => ""
  }

  function ArgumentMethod(k: nat): string
  {
    match k
    case 37 => "datetime" case 50 => "time" case 51 => "time_tz" case 52 => "timestamp" case 53 => "timestamp_tz"
    case _ => ""
  }

  predicate IsAccessor(k: nat)
  {
    k == 21 || k == 22 || k == SUBSCRIPTS || k == 24 || k == 25 || k == 29 || k == DECIMAL || Method(k) != "" ||
        ArgumentMethod(k) != ""
  }

  predicate IsKnown(k: nat)
  {
    k == 0 || IsText(k) || k == 2 || k == 3 || IsBinary(k) || IsUnary(k) || k == 21 || k == 22 || k == SUBSCRIPTS ||
        k == 24 ||
    k == 26 || k == 27 || k == 40 || Method(k) != "" || ArgumentMethod(k) != "" || k == DECIMAL || k == 42
  }

  // The kinds of the portable table; true and false are two of them.
  function PortableKind(k: nat, d: Detail): nat
  {
    if k == 3 then if d == BoolDetail(true) then 8 else 9
    else match k
      case 0 => 7 case 1 => 4 case 2 => 5 case 4 => 33 case 5 => 34 case 6 => 18 case 7 => 19 case 8 => 27 case 9 => 28
      case 10 => 29 case 11 => 31 case 12 => 30 case 13 => 32 case 14 => 22 case 15 => 23 case 16 => 24 case 17 => 25
      case 18 => 26 case 19 => 20 case 20 => 21 case 21 => 12 case 22 => 11 case 23 => 13 case 24 => 15 case 25 => 10
      case 26 => 2 case 27 => 1 case 28 => 6 case 29 => 16 case 30 => 17 case 31 => 111 case 32 => 108 case 33 => 102
      case 34 => 114 case 35 => 123 case 36 => 116 case 37 => 128 case 38 => 129 case 40 => 3 case 41 => 35 case 42 => 36
      case 43 => 115 case 44 => 122 case 45 => 104 case 46 => 124 case 47 => 125 case 48 => 118 case 49 => 121
      case 50 => 109 case 51 => 126 case 52 => 130 case 53 => 132
      case _ => 0
  }

  // -- Reading one item -------------------------------------------------------------------------------------

  function Word(x: Image, at: nat): Option<nat>
  {
    if at + 4 <= |x.data| then Some(U32(x.order, x.data, at)) else None
  }

  // Text behind its length, closed by a zero byte.
  function ReadString(x: Image, at: nat, length: nat): Option<seq<byte>>
  {
    if length > |x.data| || at + length >= |x.data| || x.data[at + length] != 0 then None
    else
      var s := x.data[at..at + length];
      if Readable(x.utf8, s) then Some(s) else None
  }

  predicate DecimalPattern(t: string)
  {
    var u := if t != "" && t[0] == '-' then t[1..] else t;
    var n := J.LeadingDigits(u);
    n > 0 && (n == |u| || (u[n] == '.' && n + 1 < |u| && AllDigits(u[n + 1..])))
  }

  function ReadNumber(x: Image, payload: nat): Option<string>
  {
    match Word(x, payload)
    case None => None
    case Some(header) =>
      var end := payload + if x.order.Little? then header / 4 else header;
      match N.StorageText(x.order, x.data[payload..if end <= |x.data| then end else |x.data|])
      case None => None
      case Some(t) => if DecimalPattern(t) then Some(t) else None
  }

  function BoundOf(w: nat): int { if w == 0xFFFF_FFFF then -1 else w }

  function ReadDetail(x: Image, k: nat, payload: nat): Option<Detail>
  {
    if !IsKnown(k) then None
    else if IsText(k) then
      (match Word(x, payload)
       case None => None
       case Some(length) =>
         match ReadString(x, payload + 4, length) case None => None case Some(s) => Some(TextDetail(s)))
    else if k == 2 then (match ReadNumber(x, payload) case None => None case Some(t) => Some(NumberDetail(t)))
    else if k == 3 then if payload < |x.data| &&
        x.data[payload] <= 1 then Some(BoolDetail(x.data[payload] == 1)) else None
    else if k == 24 then
      var first, last := Word(x, payload), Word(x, payload + 4);
      if first.None? || last.None? then None else Some(BoundsDetail(BoundOf(first.value), BoundOf(last.value)))
    else if k == 42 then
      var flags, length := Word(x, payload), Word(x, payload + 8);
      if flags.None? || length.None? || flags.value > 31 then None
      else match ReadString(x, payload + 12,
                            length.value) case None => None case Some(s) => Some(RegexDetail(flags.value, s))
    else Some(NoDetail)
  }

  // A word that leads to an argument.
  datatype Slot = Slot(at: nat, optional: bool)

  function SubscriptSlots(at: nat, count: nat): (slots: seq<Slot>)
    ensures |slots| == 2 * count
    decreases count
  {
    if count == 0 then [] else [Slot(at, false), Slot(at + 4, true)] + SubscriptSlots(at + 8, count - 1)
  }

  function Slots(x: Image, k: nat, payload: nat): Option<seq<Slot>>
  {
    if IsBinary(k) then Some([Slot(payload, false), Slot(payload + 4, false)])
    else if IsUnary(k) then Some([Slot(payload, false)])
    else if k == SUBSCRIPTS then
      (match Word(x, payload)
       case None => None
       case Some(count) =>
         if count == 0 || payload + 4 + 8 * count > |x.data| then None else Some(SubscriptSlots(payload + 4, count)))
    else if ArgumentMethod(k) != "" then Some([Slot(payload, true)])
    else if k == DECIMAL then Some([Slot(payload, true), Slot(payload + 4, true)])
    else if k == 42 then Some([Slot(payload + 4, false)])
    else Some([])
  }

  // Kind, distance to the next item, detail and argument slots of the item at a position.
  datatype Item = Item(kind: nat, next: nat, detail: Detail, slots: seq<Slot>)

  function ReadItem(x: Image, position: nat): Option<Item>
  {
    if position >= |x.data| then None
    else
      var k, at := x.data[position], (position + 4) / 4 * 4;
      var next, detail, slots := Word(x, at), ReadDetail(x, k, at + 4), Slots(x, k, at + 4);
      if next.None? || detail.None? || slots.None? then None else Some(Item(k, next.value, detail.value, slots.value))
  }

  // -- Writing one item -------------------------------------------------------------------------------------

  function Written(texts: seq<Option<seq<byte>>>, i: nat): seq<byte>
  {
    if i < |texts| && texts[i].Some? then texts[i].value else []
  }

  // The subscripts from the i-th text on, two texts to a subscript.
  function SubscriptTexts(texts: seq<Option<seq<byte>>>, i: nat): seq<byte>
    decreases |texts| - i
  {
    if i >= |texts| then []
    else
      (if i > 0 then AsciiBytes(",") else []) + Written(texts, i) +
      (if i + 1 < |texts| && texts[i + 1].Some? then AsciiBytes(" to ") + Written(texts, i + 1) else []) +
      SubscriptTexts(texts, i + 2)
  }

  function BoundText(b: int): string { if b < 0 then "last" else NatText(b) }

  function FlagText(flags: nat): string
  {
    (if flags % 2 == 1 then "i" else "") + (if flags / 2 % 2 == 1 then "s" else "") +
        (if flags / 4 % 2 == 1 then "m" else "") +
    (if flags / 8 % 2 == 1 then "x" else "") + (if flags / 16 % 2 == 1 then "q" else "")
  }

  function HeadText(k: nat, d: Detail, hasNext: bool, texts: seq<Option<seq<byte>>>): Option<seq<byte>>
  {
    var a, b := Written(texts, 0), Written(texts, 1);
    if k == 0 then Some(AsciiBytes("null"))
    else if IsText(k) then
      Some(AsciiBytes(if k == 25 then "." else if k == 28 then "$" else "") +
           J.Quote(if d.TextDetail? then d.text else []))
    else if k == 2 then
      var t := AsciiBytes(if d.NumberDetail? then d.number else "");
      Some(if hasNext then AsciiBytes("(") + t + AsciiBytes(")") else t)
    else if k == 3 then Some(AsciiBytes(if d == BoolDetail(true) then "true" else "false"))
    else if IsBinary(k) then Some(AsciiBytes("(") + a + AsciiBytes(" " + Operator(k) + " ") + b + AsciiBytes(")"))
    else if k == 6 then Some(AsciiBytes("!(") + a + AsciiBytes(")"))
    else if k == 7 then Some(AsciiBytes("(") + a + AsciiBytes(") is unknown"))
    else if k == 19 || k == 20 then Some(AsciiBytes(if k == 19 then "(+(" else "(-(") + a + AsciiBytes("))"))
    else if k == 21 then Some(AsciiBytes("[*]"))
    else if k == 22 then Some(AsciiBytes(".*"))
    else if k == SUBSCRIPTS then Some(AsciiBytes("[") + SubscriptTexts(texts, 0) + AsciiBytes("]"))
    else if k == 24 then
      var first, last := if d.BoundsDetail? then d.first else -1, if d.BoundsDetail? then d.last else -1;
      Some(AsciiBytes(".**{" + BoundText(first) + " to " + BoundText(last) + "}"))
    else if k == 26 then Some(AsciiBytes("@"))
    else if k == 27 then Some(AsciiBytes("$"))
    else if k == 40 then Some(AsciiBytes("last"))
    else if k == 29 then Some(AsciiBytes("?(") + a + AsciiBytes(")"))
    else if k == 30 then Some(AsciiBytes("exists(") + a + AsciiBytes(")"))
    else if Method(k) != "" then Some(AsciiBytes("." + Method(k) + "()"))
    else if ArgumentMethod(k) != "" then Some(AsciiBytes("." + ArgumentMethod(k) + "(") + a + AsciiBytes(")"))
    else if k == DECIMAL then
      if |texts| == 2 && texts[0].None? && texts[1].Some? then None
      else Some(AsciiBytes(".decimal(") + a + (if |texts| == 2 && texts[1].Some? then AsciiBytes(",") + b else []) +
                AsciiBytes(")"))
    else if k == 42 then
      var flags, pattern := if d.RegexDetail? then d.flags else 0, if d.RegexDetail? then d.pattern else [];
      Some(AsciiBytes("(") + a + AsciiBytes(" like_regex ") + J.Quote(pattern) + AsciiBytes(" flag ") +
           J.Quote(AsciiBytes(FlagText(flags))) + AsciiBytes(")"))
    else None
  }

  // An accessor needs something to be applied to, anything else must come first.
  function Chained(k: nat, prefix: seq<byte>, head: Option<seq<byte>>): Option<seq<byte>>
  {
    if head.None? || (prefix != []) != IsAccessor(k) then None else Some(prefix + head.value)
  }

  // The text of a path applied to what is already written.
  function Print(p: Path, prefix: seq<byte>): Option<seq<byte>>
    decreases p
  {
    var texts := PrintArgs(p.args);
    if texts.None? then None
    else
      var t := Chained(p.kind, prefix, HeadText(p.kind, p.detail, p.next.Some?, texts.value));
      if t.None? || p.next.None? then t else Print(p.next.value, t.value)
  }

  function PrintArgs(args: Args): Option<seq<Option<seq<byte>>>>
    decreases args
  {
    match args
    case NoArgs => Some([])
    case Arg(first, rest) =>
      var text := if first.None? then None else Print(first.value, []);
      var others := PrintArgs(rest);
      if (first.Some? && text.None?) || others.None? then None else Some([text] + others.value)
  }

  // -- Rendering, with the table and the positions growing ------------------------------------------------------

  datatype State = State(nodes: seq<PathNode>, positions: map<nat, nat>)

  datatype Rendered = Rendered(text: seq<byte>, state: State)

  datatype RenderedArgs = RenderedArgs(texts: seq<Option<seq<byte>>>, state: State)

  function TextOf(d: Detail): seq<byte>
  {
    match d
    case TextDetail(s) => s
    case NumberDetail(t) => AsciiBytes(t)
    case RegexDetail(_, s) => s
    case _ => []
  }

  function LinkAt(links: seq<nat>, i: nat): nat { if i < |links| then links[i] else 0 }

  // The table entry of an item. A subscript list links to entries of its own, one for each subscript.
  function HeadNode(k: nat, d: Detail, links: seq<nat>, entries: nat, next: nat): PathNode
  {
    var left := if k == SUBSCRIPTS then if links == [] then 0 else entries else LinkAt(links, 0);
    var right := if k == SUBSCRIPTS then 0 else LinkAt(links, 1);
    PathNode(PortableKind(k, d), next, left, right, TextOf(d), if d.BoundsDetail? then d.first else 0,
             if d.BoundsDetail? then d.last else 0, if d.RegexDetail? then d.flags else 0)
  }

  function SubscriptNodes(links: seq<nat>, start: nat): (nodes: seq<PathNode>)
    decreases |links|
  {
    if |links| < 2 then []
    else
      [PathNode(14, if |links| >= 4 then start + 1 else 0, links[0], links[1], [], 0, 0, 0)] +
          SubscriptNodes(links[2..], start + 1)
  }

  function EntriesOf(k: nat, links: seq<nat>, start: nat): seq<PathNode>
  {
    if k == SUBSCRIPTS then SubscriptNodes(links, start) else []
  }

  // Where the words of the slots lead, as table indices.
  function Links(x: Image, position: nat, slots: seq<Slot>, positions: map<nat, nat>): (r: Option<seq<nat>>)
    ensures r.Some? ==> |r.value| == |slots|
    decreases |slots|
  {
    if slots == [] then Some([])
    else
      var relative := Word(x, slots[0].at);
      if relative.None? then None
      else if relative.value != 0 && position + relative.value !in positions then None
      else match Links(x, position, slots[1..], positions)
        case None => None
        case Some(rest) => Some([if relative.value == 0 then 0 else positions[position + relative.value]] + rest)
  }

  // The entry of an item filled in once its arguments are there, with a subscript list's own entries behind it.
  function Filled(index: nat, item: Item, links: seq<nat>, s: State): (r: State)
    ensures |s.nodes| <= |r.nodes| && r.positions == s.positions
  {
    var start := |s.nodes|;
    State((if index < start then s.nodes[index := HeadNode(item.kind, item.detail, links, start, 0)] else s.nodes) +
          EntriesOf(item.kind, links, start), s.positions)
  }

  // The entry at `base` linked to the item rendered from position `at`.
  function LinkedTo(base: nat, at: nat, r: Option<Rendered>): (linked: Option<Rendered>)
    ensures linked.Some? ==> r.Some? && |linked.value.state.nodes| == |r.value.state.nodes|
    ensures linked.Some? ==> linked.value.state.positions == r.value.state.positions
  {
    if r.None? || base >= |r.value.state.nodes| || at !in r.value.state.positions then None
    else
      var nodes := r.value.state.nodes;
      Some(Rendered(r.value.text,
                    State(nodes[base := nodes[base].(next := r.value.state.positions[at])], r.value.state.positions)))
  }

  // Offsets only point forward, so the text left ahead shrinks with every item.
  function Render(x: Image, position: nat, prefix: seq<byte>, s: State): (r: Option<Rendered>)
    ensures r.Some? ==> |s.nodes| < |r.value.state.nodes| && position in r.value.state.positions
    ensures r.Some? ==> s.positions.Keys <= r.value.state.positions.Keys
    decreases |x.data| - position, 2
  {
    var item := ReadItem(x, position);
    if item.None? then None
    else
      var index := |s.nodes|;
      match RenderArgs(x, position, item.value.slots, State(s.nodes + [EMPTY], s.positions[position := index]))
      case None => None
      case Some(args) =>
        var text := Chained(item.value.kind, prefix,
                            HeadText(item.value.kind, item.value.detail, item.value.next != 0, args.texts));
        var links := Links(x, position, item.value.slots, args.state.positions);
        if text.None? || links.None? then None
        else
          var s1 := Filled(index, item.value, links.value, args.state);
          if item.value.next == 0 then Some(Rendered(text.value, s1))
          else if item.value.next > |x.data| - position then None
          else LinkedTo(index, position + item.value.next, Render(x, position + item.value.next, text.value, s1))
  }

  function RenderArgs(x: Image, position: nat, slots: seq<Slot>, s: State): (r: Option<RenderedArgs>)
    ensures r.Some? ==> |s.nodes| <= |r.value.state.nodes| && s.positions.Keys <= r.value.state.positions.Keys
    decreases |x.data| - position, 1, |slots|
  {
    if slots == [] then Some(RenderedArgs([], s))
    else
      var relative := Word(x, slots[0].at);
      if relative.None? || (relative.value == 0 && !slots[0].optional) || relative.value > |x.data| - position then None
      else if relative.value == 0 then
        match RenderArgs(x, position, slots[1..], s)
        case None => None
        case Some(rest) => Some(RenderedArgs([None] + rest.texts, rest.state))
      else match Render(x, position + relative.value, [], s)
        case None => None
        case Some(r) =>
          match RenderArgs(x, position, slots[1..], r.state)
          case None => None
          case Some(rest) => Some(RenderedArgs([Some(r.text)] + rest.texts, rest.state))
  }

  // -- Paths in their native form -----------------------------------------------------------------------------------

  predicate Holds(x: Image, position: nat, p: Path)
    decreases p
  {
    var item := ReadItem(x, position);
    item.Some? && item.value.kind == p.kind && item.value.detail == p.detail &&
    HoldsArgs(x, position, item.value.slots, p.args) &&
    (item.value.next == 0 <==> p.next.None?) &&
    (p.next.Some? ==> item.value.next <= |x.data| - position && Holds(x, position + item.value.next, p.next.value))
  }

  predicate HoldsArgs(x: Image, position: nat, slots: seq<Slot>, args: Args)
    decreases args
  {
    match args
    case NoArgs => slots == []
    case Arg(first, rest) =>
      slots != [] && HoldsArgs(x, position, slots[1..], rest) &&
      var relative := Word(x, slots[0].at);
      relative.Some? && (relative.value == 0 <==> first.None?) && (first.None? ==> slots[0].optional) &&
      (first.Some? ==> relative.value <= |x.data| - position && Holds(x, position + relative.value, first.value))
  }

  // -- Table entries of a path --------------------------------------------------------------------------------------

  function EntryCount(p: Path): nat { if p.kind == SUBSCRIPTS then Count(p.args) / 2 else 0 }

  function Size(p: Path): (n: nat)
    ensures n > 0
    decreases p
  {
    1 + ArgsSize(p.args) + EntryCount(p) + if p.next.None? then 0 else Size(p.next.value)
  }

  function ArgsSize(args: Args): nat
    decreases args
  {
    match args case NoArgs => 0 case Arg(first, rest) => (if first.None? then 0 else Size(first.value)) + ArgsSize(rest)
  }

  // Indices of the arguments when the first one gets `base`.
  function ArgLinks(args: Args, base: nat): (links: seq<nat>)
    ensures |links| == Count(args)
    decreases args
  {
    match args
    case NoArgs => []
    case Arg(first, rest) =>
      [if first.None? then 0 else base] + ArgLinks(rest, base + if first.None? then 0 else Size(first.value))
  }

  function NextIndex(p: Path, base: nat): nat { base + 1 + ArgsSize(p.args) + EntryCount(p) }

  function NodeOf(p: Path, base: nat): PathNode
  {
    HeadNode(p.kind, p.detail, ArgLinks(p.args, base + 1), base + 1 + ArgsSize(p.args),
             if p.next.None? then 0 else NextIndex(p, base))
  }

  // An item, its arguments, a subscript list's own entries, and the rest of the path.
  function Flat(p: Path, base: nat): seq<PathNode>
    decreases p
  {
    [NodeOf(p, base)] + FlatArgs(p.args, base + 1) +
        EntriesOf(p.kind, ArgLinks(p.args, base + 1), base + 1 + ArgsSize(p.args)) +
    if p.next.None? then [] else Flat(p.next.value, NextIndex(p, base))
  }

  function FlatArgs(args: Args, base: nat): seq<PathNode>
    decreases args
  {
    match args
    case NoArgs => []
    case Arg(first, rest) =>
      (if first.None? then [] else Flat(first.value, base)) +
          FlatArgs(rest, base + if first.None? then 0 else Size(first.value))
  }

  lemma {:induction false} EntriesLength(links: seq<nat>, start: nat)
    ensures |SubscriptNodes(links, start)| == |links| / 2
    decreases |links|
  {
    if |links| >= 2 { EntriesLength(links[2..], start + 1); }
  }

  lemma {:induction false} FlatLength(p: Path, base: nat)
    ensures |Flat(p, base)| == Size(p)
    decreases p
  {
    hide NodeOf, SubscriptNodes, ArgLinks;
    FlatArgsLength(p.args, base + 1);
    EntriesLength(ArgLinks(p.args, base + 1), base + 1 + ArgsSize(p.args));
    if p.next.Some? { FlatLength(p.next.value, NextIndex(p, base)); }
  }

  lemma {:induction false} FlatArgsLength(args: Args, base: nat)
    ensures |FlatArgs(args, base)| == ArgsSize(args)
    decreases args
  {
    hide Flat, Size;
    match args
    case NoArgs =>
    case Arg(first, rest) =>
      if first.Some? { FlatLength(first.value, base); }
      FlatArgsLength(rest, base + if first.None? then 0 else Size(first.value));
  }

  // The item at a position, and where the first of the slots leads.
  function ItemAt(x: Image, position: nat): Item
  {
    if ReadItem(x, position).Some? then ReadItem(x, position).value else Item(0, 0, NoDetail, [])
  }

  function TargetOf(x: Image, position: nat, slots: seq<Slot>): nat
  {
    if slots != [] && Word(x, slots[0].at).Some? then position + Word(x, slots[0].at).value else position
  }

  function Others(slots: seq<Slot>): seq<Slot> { if slots == [] then [] else slots[1..] }

  // Positions of all items of a path, with their table indices.
  function Positions(x: Image, position: nat, p: Path, base: nat): map<nat, nat>
    decreases p
  {
    map[position := base] + ArgPositions(x, position, ItemAt(x, position).slots, p.args, base + 1) +
    if p.next.None? then map[] else Positions(x, position + ItemAt(x, position).next, p.next.value, NextIndex(p, base))
  }

  function ArgPositions(x: Image, position: nat, slots: seq<Slot>, args: Args, base: nat): map<nat, nat>
    decreases args
  {
    match args
    case NoArgs => map[]
    case Arg(first, rest) =>
      if first.None? then ArgPositions(x, position, Others(slots), rest, base)
      else
        Positions(x, TargetOf(x, position, slots), first.value, base) +
        ArgPositions(x, position, Others(slots), rest, base + Size(first.value))
  }

  // No item is reached twice.
  predicate Unshared(x: Image, position: nat, p: Path)
    decreases p
  {
    UnsharedArgs(x, position, ItemAt(x, position).slots, p.args) &&
    (p.next.Some? ==>
      var at := position + ItemAt(x, position).next;
      Unshared(x, at, p.next.value) &&
      ArgPositions(x, position, ItemAt(x, position).slots, p.args, 0).Keys !! Positions(x, at, p.next.value, 0).Keys)
  }

  predicate UnsharedArgs(x: Image, position: nat, slots: seq<Slot>, args: Args)
    decreases args
  {
    match args
    case NoArgs => true
    case Arg(first, rest) =>
      UnsharedArgs(x, position, Others(slots), rest) &&
      (first.Some? ==>
        var at := TargetOf(x, position, slots);
        Unshared(x, at, first.value) &&
        Positions(x, at, first.value, 0).Keys !! ArgPositions(x, position, Others(slots), rest, 0).Keys)
  }

  // What being held says about an item, and about the first of its arguments.
  lemma HeldItem(x: Image, position: nat, p: Path)
    requires Holds(x, position, p)
    ensures ReadItem(x, position) == Some(ItemAt(x, position))
    ensures ItemAt(x, position).kind == p.kind && ItemAt(x, position).detail == p.detail
    ensures HoldsArgs(x, position, ItemAt(x, position).slots, p.args)
    ensures ItemAt(x, position).next == 0 <==> p.next.None?
    ensures ItemAt(x, position).next <= |x.data| - position
    ensures p.next.Some? ==> Holds(x, position + ItemAt(x, position).next, p.next.value)
  {
    hide ReadItem, HoldsArgs;
    ReadInside(x, position);
  }

  lemma ReadInside(x: Image, position: nat)
    requires ReadItem(x, position).Some?
    ensures position < |x.data|
  {
    hide ReadDetail, Slots, Word;
  }

  lemma HeldArg(x: Image, position: nat, slots: seq<Slot>, args: Args)
    requires HoldsArgs(x, position, slots, args) && args.Arg?
    ensures slots != [] && Others(slots) == slots[1..] && HoldsArgs(x, position, Others(slots), args.rest)
    ensures Word(x, slots[0].at) == Some(TargetOf(x, position, slots) - position)
    ensures args.first.None? ==> TargetOf(x, position, slots) == position && slots[0].optional
    ensures args.first.Some? ==>
      position < TargetOf(x, position, slots) <= |x.data| && Holds(x, TargetOf(x, position, slots), args.first.value)
  {
    hide Word, Holds;
  }

  // The positions do not depend on the indices.
  lemma {:induction false} SamePositions(x: Image, position: nat, p: Path, a: nat, b: nat)
    ensures Positions(x, position, p, a).Keys == Positions(x, position, p, b).Keys
    decreases p
  {
    hide ItemAt, ArgPositions;
    SameArgPositions(x, position, ItemAt(x, position).slots, p.args, a + 1, b + 1);
    if p.next.Some? { SamePositions(x, position + ItemAt(x, position).next, p.next.value, NextIndex(p, a),
                                    NextIndex(p, b)); }
  }

  lemma {:induction false} SameArgPositions(x: Image, position: nat, slots: seq<Slot>, args: Args, a: nat, b: nat)
    ensures ArgPositions(x, position, slots, args, a).Keys == ArgPositions(x, position, slots, args, b).Keys
    decreases args
  {
    hide TargetOf, Positions, Others;
    match args
    case NoArgs =>
    case Arg(first, rest) =>
      if first.None? {
        SameArgPositions(x, position, Others(slots), rest, a, b);
      } else {
        SamePositions(x, TargetOf(x, position, slots), first.value, a, b);
        SameArgPositions(x, position, Others(slots), rest, a + Size(first.value), b + Size(first.value));
      }
  }

  // Every item of a path lies at its position or behind it.
  lemma {:induction false} PositionsAhead(x: Image, position: nat, p: Path, base: nat)
    requires Holds(x, position, p)
    ensures position in Positions(x, position, p, base).Keys
    ensures forall q :: q in Positions(x, position, p, base).Keys ==> q >= position
    decreases p
  {
    hide ItemAt, ReadItem, ArgPositions, Holds;
    HeldItem(x, position, p);
    ArgPositionsAhead(x, position, ItemAt(x, position).slots, p.args, base + 1);
    if p.next.Some? { PositionsAhead(x, position + ItemAt(x, position).next, p.next.value, NextIndex(p, base)); }
  }

  lemma {:induction false} ArgPositionsAhead(x: Image, position: nat, slots: seq<Slot>, args: Args, base: nat)
    requires HoldsArgs(x, position, slots, args)
    ensures forall q :: q in ArgPositions(x, position, slots, args, base).Keys ==> q > position
    decreases args
  {
    hide TargetOf, Positions, Others, HoldsArgs, Word;
    match args
    case NoArgs =>
    case Arg(first, rest) =>
      HeldArg(x, position, slots, args);
      if first.None? {
        ArgPositionsAhead(x, position, Others(slots), rest, base);
      } else {
        PositionsAhead(x, TargetOf(x, position, slots), first.value, base);
        ArgPositionsAhead(x, position, Others(slots), rest, base + Size(first.value));
        SumAhead(Positions(x, TargetOf(x, position, slots), first.value, base),
                 ArgPositions(x, position, Others(slots), rest, base + Size(first.value)), position);
      }
  }

  lemma SumAhead(a: map<nat, nat>, b: map<nat, nat>, bound: nat)
    requires (forall q :: q in a.Keys ==> q > bound) && (forall q :: q in b.Keys ==> q > bound)
    ensures forall q :: q in (a + b).Keys ==> q > bound
  {
  }

  // The item itself is at its own index; arguments and the rest are elsewhere.
  lemma OwnPosition(x: Image, position: nat, p: Path, base: nat)
    requires Holds(x, position, p)
    ensures position in Positions(x, position, p, base) && Positions(x, position, p, base)[position] == base
  {
    hide ItemAt, ReadItem, ArgPositions, Holds;
    HeldItem(x, position, p);
    ArgPositionsAhead(x, position, ItemAt(x, position).slots, p.args, base + 1);
    if p.next.Some? { PositionsAhead(x, position + ItemAt(x, position).next, p.next.value, NextIndex(p, base)); }
  }

  // -- Rendering what is held -----------------------------------------------------------------------------------------

  ghost predicate Includes(all: map<nat, nat>, part: map<nat, nat>)
  {
    forall q :: q in part ==> q in all && all[q] == part[q]
  }

  lemma IncludesJoin(m: map<nat, nat>, a: map<nat, nat>, b: map<nat, nat>)
    requires a.Keys !! b.Keys && Includes(m, a + b)
    ensures Includes(m, a) && Includes(m, b)
  {
    forall q | q in a ensures q in m && m[q] == a[q] { assert q in a + b; }
    forall q | q in b ensures q in m && m[q] == b[q] { assert q in a + b; }
  }

  lemma Included(all: map<nat, nat>, part: map<nat, nat>, q: nat)
    requires Includes(all, part) && q in part
    ensures q in all && all[q] == part[q]
  {
  }

  lemma IncludesSum(m: map<nat, nat>, part: map<nat, nat>)
    ensures Includes(m + part, part)
  {
  }

  // The words of the slots lead to the indices the arguments got.
  lemma {:induction false} LinksOf(x: Image, position: nat, slots: seq<Slot>, args: Args, base: nat,
      positions: map<nat, nat>)
    requires HoldsArgs(x, position, slots, args) && UnsharedArgs(x, position, slots, args)
    requires Includes(positions, ArgPositions(x, position, slots, args, base))
    ensures Links(x, position, slots, positions) == Some(ArgLinks(args, base))
    decreases args
  {
    hide Word, Holds, Positions, ArgPositions, Unshared, UnsharedArgs, Includes, TargetOf, Others, HoldsArgs, Links,
      Apart;
    match args
    case NoArgs =>
      NothingToLink(x, position, slots, positions);
    case Arg(first, rest) =>
      HeldArg(x, position, slots, args);
      ArgsStep(x, position, slots, args, base);
      UnsharedArgsStep(x, position, slots, args);
      LinksUnfold(x, position, slots, positions);
      if first.None? {
        LinksOf(x, position, Others(slots), rest, base, positions);
      } else {
        var at := TargetOf(x, position, slots);
        var a, b := Positions(x, at, first.value, base),
            ArgPositions(x, position, Others(slots), rest, base + Size(first.value));
        SamePositions(x, at, first.value, 0, base);
        SameArgPositions(x, position, Others(slots), rest, 0, base + Size(first.value));
        IncludesApart(positions, a, b);
        LinksOf(x, position, Others(slots), rest, base + Size(first.value), positions);
        OwnPosition(x, at, first.value, base);
        Included(positions, a, at);
      }
  }

  lemma NothingToLink(x: Image, position: nat, slots: seq<Slot>, positions: map<nat, nat>)
    requires HoldsArgs(x, position, slots, NoArgs)
    ensures Links(x, position, slots, positions) == Some([])
  {
  }

  lemma LinksUnfold(x: Image, position: nat, slots: seq<Slot>, positions: map<nat, nat>)
    requires slots != [] && Word(x, slots[0].at) == Some(TargetOf(x, position, slots) - position)
    requires position <= TargetOf(x, position, slots)
    ensures var at, rest := TargetOf(x, position, slots), Links(x, position, Others(slots), positions);
      Links(x, position, slots, positions) ==
        if (at != position && at !in positions) || rest.None? then None
        else Some([if at == position then 0 else positions[at]] + rest.value)
  {
    hide Word, TargetOf;
  }

  lemma IncludesApart(m: map<nat, nat>, a: map<nat, nat>, b: map<nat, nat>)
    requires Apart(a.Keys, b.Keys) && Includes(m, a + b)
    ensures Includes(m, a) && Includes(m, b)
  {
    IncludesJoin(m, a, b);
  }

  lemma Placed<T>(s: seq<T>, e: T, a: seq<T>, n: seq<T>, h: T)
    ensures (s + [e] + a)[|s| := h] + n == s + ([h] + a + n)
  {
  }

  lemma Replaced<T>(s: seq<T>, h: T, a: seq<T>, n: seq<T>, rest: seq<T>, linked: T)
    ensures (s + ([h] + a + n) + rest)[|s|] == h
    ensures (s + ([h] + a + n) + rest)[|s| := linked] == s + ([linked] + a + n + rest)
  {
  }

  lemma Gathered(m: map<nat, nat>, k: nat, v: nat, a: map<nat, nat>, b: map<nat, nat>)
    ensures m[k := v] + a + b == m + (map[k := v] + a + b)
  {
  }

  function Outcome(x: Image, position: nat, p: Path, prefix: seq<byte>, s: State): Option<Rendered>
  {
    match Print(p, prefix)
    case None => None
    case Some(t) =>
      Some(Rendered(t, State(s.nodes + Flat(p, |s.nodes|), s.positions + Positions(x, position, p, |s.nodes|))))
  }

  function ArgsOutcome(x: Image, position: nat, slots: seq<Slot>, args: Args, s: State): Option<RenderedArgs>
  {
    match PrintArgs(args)
    case None => None
    case Some(ts) =>
      Some(RenderedArgs(ts,
                        State(s.nodes + FlatArgs(args, |s.nodes|), s.positions +
                              ArgPositions(x, position, slots, args, |s.nodes|))))
  }

  // The state when the arguments have been rendered, and when the item's own entry is filled in but for the
  // link to the next item.
  function AfterArgs(x: Image, position: nat, p: Path, s: State): State
  {
    State(s.nodes + [EMPTY] + FlatArgs(p.args, |s.nodes| + 1), HeadPositions(x, position, p, s.positions, |s.nodes|))
  }

  function HeadPositions(x: Image, position: nat, p: Path, positions: map<nat, nat>, base: nat): map<nat, nat>
  {
    positions[position := base] + ArgPositions(x, position, ItemAt(x, position).slots, p.args, base + 1)
  }

  function Unlinked(p: Path, base: nat): PathNode
  {
    HeadNode(p.kind, p.detail, ArgLinks(p.args, base + 1), base + 1 + ArgsSize(p.args), 0)
  }

  function EntriesAt(p: Path, base: nat): (nodes: seq<PathNode>)
    ensures |nodes| == EntryCount(p)
  {
    EntriesLength(ArgLinks(p.args, base + 1), base + 1 + ArgsSize(p.args));
    EntriesOf(p.kind, ArgLinks(p.args, base + 1), base + 1 + ArgsSize(p.args))
  }

  function AfterHead(x: Image, position: nat, p: Path, s: State): State
  {
    State(s.nodes + ([Unlinked(p, |s.nodes|)] + FlatArgs(p.args, |s.nodes| + 1) + EntriesAt(p, |s.nodes|)),
          HeadPositions(x, position, p, s.positions, |s.nodes|))
  }

  function HeadOf(p: Path, prefix: seq<byte>, texts: seq<Option<seq<byte>>>): Option<seq<byte>>
  {
    Chained(p.kind, prefix, HeadText(p.kind, p.detail, p.next.Some?, texts))
  }

  lemma PrintStep(p: Path, prefix: seq<byte>, texts: seq<Option<seq<byte>>>)
    requires PrintArgs(p.args) == Some(texts)
    ensures Print(p, prefix) ==
      var t := HeadOf(p, prefix, texts); if t.None? || p.next.None? then t else Print(p.next.value, t.value)
  {
    hide HeadText, PrintArgs, Chained;
  }

  // What is left to do once the arguments have been rendered.
  lemma RenderOpened(x: Image, position: nat, prefix: seq<byte>, s: State, args: RenderedArgs, links: seq<nat>)
    requires ReadItem(x, position) == Some(ItemAt(x, position))
    requires RenderArgs(x, position, ItemAt(x, position).slots,
                        State(s.nodes + [EMPTY], s.positions[position := |s.nodes|])) == Some(args)
    requires Links(x, position, ItemAt(x, position).slots, args.state.positions) == Some(links)
    requires ItemAt(x, position).next <= |x.data| - position
    ensures Render(x, position, prefix, s) ==
      var item := ItemAt(x, position);
      var t := Chained(item.kind, prefix, HeadText(item.kind, item.detail, item.next != 0, args.texts));
      var s1 := Filled(|s.nodes|, item, links, args.state);
      if t.None? then None
      else if item.next == 0 then Some(Rendered(t.value, s1))
      else LinkedTo(|s.nodes|, position + item.next, Render(x, position + item.next, t.value, s1))
  {
    hide ReadItem, ItemAt, RenderArgs, HeadText, Links, Chained, Filled, LinkedTo;
  }

  lemma FillsIn(x: Image, position: nat, p: Path, s: State)
    requires ItemAt(x, position).kind == p.kind && ItemAt(x, position).detail == p.detail
    ensures Filled(|s.nodes|, ItemAt(x, position), ArgLinks(p.args, |s.nodes| + 1), AfterArgs(x, position, p, s)) ==
      AfterHead(x, position, p, s)
  {
    hide ItemAt, HeadNode, EntriesOf, ArgLinks, ArgsSize, FlatArgs, HeadPositions;
    var base := |s.nodes|;
    FlatArgsLength(p.args, base + 1);
    Placed(s.nodes, EMPTY, FlatArgs(p.args, base + 1), EntriesAt(p, base), Unlinked(p, base));
    EntriesMatch(p, base);
  }

  lemma EntriesMatch(p: Path, base: nat)
    ensures EntriesAt(p, base) == EntriesOf(p.kind, ArgLinks(p.args, base + 1), base + 1 + ArgsSize(p.args))
  {
  }

  lemma RenderStep(x: Image, position: nat, p: Path, prefix: seq<byte>, s: State, texts: seq<Option<seq<byte>>>)
    requires ReadItem(x, position) == Some(ItemAt(x, position)) && ItemAt(x, position).kind == p.kind
    requires ItemAt(x, position).detail == p.detail && (ItemAt(x, position).next == 0 <==> p.next.None?)
    requires ItemAt(x, position).next <= |x.data| - position
    requires RenderArgs(x, position, ItemAt(x, position).slots,
                        State(s.nodes + [EMPTY], s.positions[position := |s.nodes|])) ==
      Some(RenderedArgs(texts, AfterArgs(x, position, p, s)))
    requires Links(x, position, ItemAt(x, position).slots,
                   AfterArgs(x, position, p, s).positions) == Some(ArgLinks(p.args, |s.nodes| + 1))
    ensures Render(x, position, prefix, s) ==
      var t, base := HeadOf(p, prefix, texts), |s.nodes|;
      if t.None? then None
      else if p.next.None? then Some(Rendered(t.value, AfterHead(x, position, p, s)))
      else LinkedTo(base, position + ItemAt(x, position).next,
                    Render(x, position + ItemAt(x, position).next, t.value, AfterHead(x, position, p, s)))
  {
    RenderOpened(x, position, prefix, s, RenderedArgs(texts, AfterArgs(x, position, p, s)),
                 ArgLinks(p.args, |s.nodes| + 1));
    FillsIn(x, position, p, s);
    hide ReadItem, ItemAt, RenderArgs, Render, HeadText, Links, ArgLinks, Chained, AfterArgs, AfterHead, Filled,
      LinkedTo;
  }

  lemma RenderNothing(x: Image, position: nat, prefix: seq<byte>, s: State)
    requires ReadItem(x, position) == Some(ItemAt(x, position))
    requires RenderArgs(x, position, ItemAt(x, position).slots,
                        State(s.nodes + [EMPTY], s.positions[position := |s.nodes|])).None?
    ensures Render(x, position, prefix, s) == None
  {
    hide ReadItem, ItemAt, RenderArgs, HeadText, Links, HeadNode, Chained;
  }

  lemma PrintNothing(p: Path, prefix: seq<byte>)
    requires PrintArgs(p.args).None?
    ensures Print(p, prefix) == None
  {
    hide HeadText, PrintArgs, Chained;
  }

  // An unshared path is rendered as its text, and its items are appended to the table in order; without a text
  // nothing is rendered.
  lemma {:induction false} Renders(x: Image, position: nat, p: Path, prefix: seq<byte>, s: State)
    requires Holds(x, position, p) && Unshared(x, position, p) && Positions(x, position, p, 0).Keys !! s.positions.Keys
    ensures Render(x, position, prefix, s) == Outcome(x, position, p, prefix, s)
    decreases p
  {
    hide ReadItem, ItemAt, Word, Render, RenderArgs, Links, ArgLinks, Positions, ArgPositions, FlatArgs, Flat, Print,
      PrintArgs,
      Holds, HoldsArgs, UnsharedArgs, Unshared, HeadOf, AfterHead, EntriesAt, Unlinked, LinkedTo;
    HeldItem(x, position, p);
    var slots := ItemAt(x, position).slots;
    var s0 := State(s.nodes + [EMPTY], s.positions[position := |s.nodes|]);
    NewKeys(x, position, p, s.positions, |s.nodes|);
    RendersArgs(x, position, slots, p.args, s0);
    if PrintArgs(p.args).None? {
      RenderNothing(x, position, prefix, s);
      PrintNothing(p, prefix);
    } else {
      var texts := PrintArgs(p.args).value;
      IncludesSum(s0.positions, ArgPositions(x, position, slots, p.args, |s.nodes| + 1));
      LinksOf(x, position, slots, p.args, |s.nodes| + 1, AfterArgs(x, position, p, s).positions);
      RenderStep(x, position, p, prefix, s, texts);
      PrintStep(p, prefix, texts);
      var t := HeadOf(p, prefix, texts);
      if t.Some? && p.next.None? {
        LastItem(x, position, p, s);
      } else if t.Some? {
        var at := position + ItemAt(x, position).next;
        var s2 := AfterHead(x, position, p, s);
        NextKeys(x, position, p, s);
        Renders(x, at, p.next.value, t.value, s2);
        OwnPosition(x, at, p.next.value, NextIndex(p, |s.nodes|));
        if Print(p.next.value, t.value).Some? {
          MoreItems(x, position, p, s, Print(p.next.value, t.value).value);
        } else {
          NothingLinked(|s.nodes|, at);
        }
      }
    }
  }

  lemma NothingLinked(base: nat, at: nat)
    ensures LinkedTo(base, at, None) == None
  {
  }

  lemma LastItem(x: Image, position: nat, p: Path, s: State)
    requires p.next.None?
    ensures AfterHead(x, position, p, s) == State(s.nodes + Flat(p, |s.nodes|), s.positions +
                                                  Positions(x, position, p, |s.nodes|))
  {
    hide ItemAt, ArgPositions, FlatArgs, EntriesOf, ArgLinks, HeadNode;
    var base := |s.nodes|;
    Gathered(s.positions, position, base, ArgPositions(x, position, ItemAt(x, position).slots, p.args, base + 1),
             map[]);
    assert s.positions[position := base] + ArgPositions(x, position, ItemAt(x, position).slots, p.args, base + 1) +
      map[] ==
      s.positions[position := base] + ArgPositions(x, position, ItemAt(x, position).slots, p.args, base + 1);
    var nodes := [NodeOf(p, base)] + FlatArgs(p.args, base + 1) + EntriesAt(p, base);
    assert nodes + [] == nodes;
  }

  lemma HeadLength(x: Image, position: nat, p: Path, s: State)
    ensures |AfterHead(x, position, p, s).nodes| == NextIndex(p, |s.nodes|)
  {
    FlatArgsLength(p.args, |s.nodes| + 1);
    hide FlatArgs, Unlinked, ArgPositions, ItemAt;
  }

  lemma MoreItems(x: Image, position: nat, p: Path, s: State, t: seq<byte>)
    requires p.next.Some?
    requires var at := position + ItemAt(x, position).next;
      at in Positions(x, at, p.next.value, NextIndex(p, |s.nodes|)) &&
      Positions(x, at, p.next.value, NextIndex(p, |s.nodes|))[at] == NextIndex(p, |s.nodes|)
    ensures var s2 := AfterHead(x, position, p, s); var at := position + ItemAt(x, position).next;
      LinkedTo(|s.nodes|, at, Some(Rendered(t, State(
        s2.nodes + Flat(p.next.value, |s2.nodes|), s2.positions + Positions(x, at, p.next.value, |s2.nodes|))))) ==
      Some(Rendered(t, State(s.nodes + Flat(p, |s.nodes|), s.positions + Positions(x, position, p, |s.nodes|))))
  {
    var base, at := |s.nodes|, position + ItemAt(x, position).next;
    var s2 := AfterHead(x, position, p, s);
    HeadLength(x, position, p, s);
    MoreNodes(x, position, p, s);
    MorePositions(x, position, p, s.positions, base);
    assert s2.positions == HeadPositions(x, position, p, s.positions, base);
    hide ItemAt, AfterHead, Flat, Positions, NextIndex, HeadPositions;
    assert at in Positions(x, at, p.next.value, |s2.nodes|);
  }

  lemma MoreNodes(x: Image, position: nat, p: Path, s: State)
    requires p.next.Some?
    ensures var base, nodes := |s.nodes|, AfterHead(x, position, p, s).nodes +
      Flat(p.next.value, NextIndex(p, |s.nodes|));
      base < |nodes| && nodes[base := nodes[base].(next := NextIndex(p, base))] == s.nodes + Flat(p, base)
  {
    var base := |s.nodes|;
    FlatStep(p, base);
    LinkedHead(p, base);
    hide ItemAt, ArgPositions, FlatArgs, EntriesAt, Unlinked, NodeOf, Flat, NextIndex;
    Replaced(s.nodes, Unlinked(p, base), FlatArgs(p.args, base + 1), EntriesAt(p, base),
             Flat(p.next.value, NextIndex(p, base)), NodeOf(p, base));
  }

  lemma MorePositions(x: Image, position: nat, p: Path, positions: map<nat, nat>, base: nat)
    requires p.next.Some?
    ensures HeadPositions(x, position, p, positions, base) +
      Positions(x, position + ItemAt(x, position).next, p.next.value, NextIndex(p, base)) ==
      positions + Positions(x, position, p, base)
  {
    PositionsStep(x, position, p, base);
    hide ItemAt, ArgPositions, Positions, NextIndex;
    Gathered(positions, position, base, ArgPositions(x, position, ItemAt(x, position).slots, p.args, base + 1),
             Positions(x, position + ItemAt(x, position).next, p.next.value, NextIndex(p, base)));
  }

  lemma LinkedHead(p: Path, base: nat)
    requires p.next.Some?
    ensures Unlinked(p, base).(next := NextIndex(p, base)) == NodeOf(p, base)
  {
    hide ArgLinks, PortableKind, TextOf;
  }

  lemma FlatStep(p: Path, base: nat)
    requires p.next.Some?
    ensures Flat(p, base) == [NodeOf(p, base)] + FlatArgs(p.args, base + 1) + EntriesAt(p, base) +
      Flat(p.next.value, NextIndex(p, base))
  {
    hide NodeOf, FlatArgs, EntriesOf, ArgLinks;
  }

  lemma PositionsStep(x: Image, position: nat, p: Path, base: nat)
    requires p.next.Some?
    ensures Positions(x, position, p, base) ==
      map[position := base] + ArgPositions(x, position, ItemAt(x, position).slots, p.args, base + 1) +
      Positions(x, position + ItemAt(x, position).next, p.next.value, NextIndex(p, base))
  {
    hide ItemAt, ArgPositions;
  }

  // The items of the arguments are new, and not the item itself.
  lemma NewKeys(x: Image, position: nat, p: Path, positions: map<nat, nat>, base: nat)
    requires Holds(x, position, p) && Unshared(x, position, p) && Positions(x, position, p, 0).Keys !! positions.Keys
    ensures UnsharedArgs(x, position, ItemAt(x, position).slots, p.args)
    ensures ArgPositions(x, position, ItemAt(x, position).slots, p.args, 0).Keys !! positions[position := base].Keys
  {
    hide ItemAt, ArgPositions, UnsharedArgs, HoldsArgs, Holds;
    HeldItem(x, position, p);
    var slots := ItemAt(x, position).slots;
    SameArgPositions(x, position, slots, p.args, 0, 1);
    ArgPositionsAhead(x, position, slots, p.args, 0);
    PartKeys(map[position := 0], ArgPositions(x, position, slots, p.args, 1),
             if p.next.None? then map[] else Positions(x, position + ItemAt(x, position).next, p.next.value,
                                                       NextIndex(p, 0)));
  }

  lemma PartKeys(a: map<nat, nat>, b: map<nat, nat>, c: map<nat, nat>)
    ensures (a + b + c).Keys == a.Keys + b.Keys + c.Keys
  {
  }

  lemma NextKeys(x: Image, position: nat, p: Path, s: State)
    requires Holds(x, position, p) && Unshared(x, position, p) && Positions(x, position, p, 0).Keys !! s.positions.Keys
    requires p.next.Some?
    ensures var at := position + ItemAt(x, position).next;
      Holds(x, at, p.next.value) && Unshared(x, at, p.next.value) &&
      Positions(x, at, p.next.value, 0).Keys !! AfterHead(x, position, p, s).positions.Keys &&
      |AfterHead(x, position, p, s).nodes| == NextIndex(p, |s.nodes|)
  {
    HeldItem(x, position, p);
    HeadLength(x, position, p, s);
    UnsharedNext(x, position, p);
    NextKeysApart(x, position, p, s.positions, |s.nodes|);
    hide ItemAt, ArgPositions, Holds, Unshared, Positions, FlatArgs, EntriesAt, Unlinked, NextIndex;
  }

  lemma UnsharedNext(x: Image, position: nat, p: Path)
    requires Unshared(x, position, p) && p.next.Some?
    ensures Unshared(x, position + ItemAt(x, position).next, p.next.value)
    ensures Apart(ArgPositions(x, position, ItemAt(x, position).slots, p.args, 0).Keys,
                  Positions(x, position + ItemAt(x, position).next, p.next.value, 0).Keys)
  {
    hide ItemAt, ArgPositions, Positions, UnsharedArgs;
  }

  lemma NextKeysApart(x: Image, position: nat, p: Path, positions: map<nat, nat>, base: nat)
    requires Holds(x, position, p) && Unshared(x, position, p) && p.next.Some?
    requires Apart(Positions(x, position, p, 0).Keys, positions.Keys)
    ensures Apart(Positions(x, position + ItemAt(x, position).next, p.next.value, 0).Keys,
                  HeadPositions(x, position, p, positions, base).Keys)
  {
    hide ItemAt, ArgPositions, HoldsArgs, Holds, Positions, Unshared, NextIndex, HeadPositions, Apart, ReadItem;
    HeldItem(x, position, p);
    UnsharedNext(x, position, p);
    var slots, at := ItemAt(x, position).slots, position + ItemAt(x, position).next;
    NotAhead(x, position, at, p.next.value);
    KeysSplit(x, position, p);
    HeadKeys(x, position, p, positions, base);
    StaysApart(position, ArgPositions(x, position, slots, p.args, 0).Keys, Positions(x, at, p.next.value, 0).Keys,
               positions.Keys);
  }

  lemma NotAhead(x: Image, position: nat, at: nat, p: Path)
    requires Holds(x, at, p) && position < at
    ensures position !in Positions(x, at, p, 0).Keys
  {
    PositionsAhead(x, at, p, 0);
    hide Holds, Positions;
  }

  lemma HeadKeys(x: Image, position: nat, p: Path, positions: map<nat, nat>, base: nat)
    ensures HeadPositions(x, position, p, positions, base).Keys ==
      positions.Keys + {position} + ArgPositions(x, position, ItemAt(x, position).slots, p.args, 0).Keys
  {
    hide ItemAt, ArgPositions;
    SameArgPositions(x, position, ItemAt(x, position).slots, p.args, 0, base + 1);
    TwoKeys(positions, position, base, ArgPositions(x, position, ItemAt(x, position).slots, p.args, base + 1));
  }

  lemma KeysSplit(x: Image, position: nat, p: Path)
    requires p.next.Some?
    ensures Positions(x, position, p, 0).Keys ==
      {position} + ArgPositions(x, position, ItemAt(x, position).slots, p.args, 0).Keys +
      Positions(x, position + ItemAt(x, position).next, p.next.value, 0).Keys
  {
    PositionsStep(x, position, p, 0);
    hide ItemAt, ArgPositions, Positions, NextIndex;
    SameArgPositions(x, position, ItemAt(x, position).slots, p.args, 0, 1);
    SamePositions(x, position + ItemAt(x, position).next, p.next.value, 0, NextIndex(p, 0));
    SplitKeys(Positions(x, position, p, 0), position, 0,
              ArgPositions(x, position, ItemAt(x, position).slots, p.args, 1),
              ArgPositions(x, position, ItemAt(x, position).slots, p.args, 0),
              Positions(x, position + ItemAt(x, position).next, p.next.value, NextIndex(p, 0)),
              Positions(x, position + ItemAt(x, position).next, p.next.value, 0));
  }

  lemma SplitKeys(
    m: map<nat, nat>, k: nat, v: nat, a: map<nat, nat>, a0: map<nat, nat>, c: map<nat, nat>, c0: map<nat, nat>)
    requires m == map[k := v] + a + c && a.Keys == a0.Keys && c.Keys == c0.Keys
    ensures m.Keys == {k} + a0.Keys + c0.Keys
  {
    PartKeys(map[k := v], a, c);
  }

  ghost predicate Apart(a: set<nat>, b: set<nat>) { a !! b }

  lemma StaysApart(k: nat, a: set<nat>, c: set<nat>, before: set<nat>)
    requires Apart({k} + a + c, before) && Apart(a, c) && k !in c
    ensures Apart(c, before + {k} + a)
  {
  }

  lemma TwoKeys(m: map<nat, nat>, k: nat, v: nat, a: map<nat, nat>)
    ensures (m[k := v] + a).Keys == m.Keys + {k} + a.Keys
  {
  }

  lemma RenderArgsStep(x: Image, position: nat, slots: seq<Slot>, s: State)
    requires position <= |x.data| && slots != []
    requires Word(x, slots[0].at) == Some(TargetOf(x, position, slots) - position)
    requires if TargetOf(x, position, slots) == position then slots[0].optional else position < TargetOf(x, position, slots) <= |x.data|
    ensures RenderArgs(x, position, slots, s) ==
      if TargetOf(x, position, slots) == position then WithText(None, RenderArgs(x, position, Others(slots), s))
      else
        var r := Render(x, TargetOf(x, position, slots), [], s);
        if r.None? then None else WithText(Some(r.value.text), RenderArgs(x, position, Others(slots), r.value.state))
  {
    hide Word, Render;
  }

  function WithText(text: Option<seq<byte>>, r: Option<RenderedArgs>): Option<RenderedArgs>
  {
    if r.None? then None else Some(RenderedArgs([text] + r.value.texts, r.value.state))
  }

  lemma {:induction false} RendersArgs(x: Image, position: nat, slots: seq<Slot>, args: Args, s: State)
    requires position <= |x.data| && HoldsArgs(x, position, slots, args) && UnsharedArgs(x, position, slots, args)
    requires ArgPositions(x, position, slots, args, 0).Keys !! s.positions.Keys
    ensures RenderArgs(x, position, slots, s) == ArgsOutcome(x, position, slots, args, s)
    decreases args
  {
    hide Word, Holds, Positions, Render, Print, Flat, Unshared, TargetOf, RenderArgs, HoldsArgs, ArgPositions,
      FlatArgs, UnsharedArgs;
    match args
    case NoArgs =>
      NoneToRender(x, position, slots, s);
    case Arg(first, rest) =>
      HeldArg(x, position, slots, args);
      RenderArgsStep(x, position, slots, s);
      ArgsStep(x, position, slots, args, |s.nodes|);
      UnsharedArgsStep(x, position, slots, args);
      var base := |s.nodes|;
      if first.None? {
        ArgsStep(x, position, slots, args, 0);
        RendersArgs(x, position, Others(slots), rest, s);
      } else {
        var at := TargetOf(x, position, slots);
        FirstKeys(x, position, slots, args, s.positions, base);
        Renders(x, at, first.value, [], s);
        if Print(first.value, []).Some? {
          var s1 := State(s.nodes + Flat(first.value, base), s.positions + Positions(x, at, first.value, base));
          FlatLength(first.value, base);
          RendersArgs(x, position, Others(slots), rest, s1);
          Regrouped(s.nodes, Flat(first.value, base), FlatArgs(rest, base + Size(first.value)));
          RegroupedMaps(s.positions, Positions(x, at, first.value, base),
                        ArgPositions(x, position, Others(slots), rest, base + Size(first.value)));
        }
      }
  }

  lemma Regrouped<T>(a: seq<T>, b: seq<T>, c: seq<T>)
    ensures a + b + c == a + (b + c)
  {
  }

  lemma RegroupedMaps(a: map<nat, nat>, b: map<nat, nat>, c: map<nat, nat>)
    ensures a + b + c == a + (b + c)
  {
  }

  lemma NoneToRender(x: Image, position: nat, slots: seq<Slot>, s: State)
    requires HoldsArgs(x, position, slots, NoArgs)
    ensures RenderArgs(x, position, slots, s) == ArgsOutcome(x, position, slots, NoArgs, s)
  {
    assert s.nodes + [] == s.nodes && s.positions + map[] == s.positions;
  }

  // One argument's share in everything.
  lemma ArgsStep(x: Image, position: nat, slots: seq<Slot>, args: Args, base: nat)
    requires args.Arg?
    ensures args.first.None? ==>
      ArgPositions(x, position, slots, args, base) == ArgPositions(x, position, Others(slots), args.rest, base) &&
      FlatArgs(args, base) == FlatArgs(args.rest, base)
    ensures args.first.Some? ==>
      ArgPositions(x, position, slots, args, base) ==
        Positions(x, TargetOf(x, position, slots), args.first.value, base) +
        ArgPositions(x, position, Others(slots), args.rest, base + Size(args.first.value)) &&
      FlatArgs(args, base) == Flat(args.first.value, base) + FlatArgs(args.rest, base + Size(args.first.value))
  {
    hide TargetOf, Others, Positions, Flat, Unshared, Size;
    if args.first.None? { assert [] + FlatArgs(args.rest, base) == FlatArgs(args.rest, base); }
  }

  lemma UnsharedArgsStep(x: Image, position: nat, slots: seq<Slot>, args: Args)
    requires args.Arg?
    ensures UnsharedArgs(x, position, slots, args) <==>
      (UnsharedArgs(x, position, Others(slots), args.rest) &&
       (args.first.Some? ==>
          Unshared(x, TargetOf(x, position, slots), args.first.value) &&
          Apart(Positions(x, TargetOf(x, position, slots), args.first.value, 0).Keys,
                ArgPositions(x, position, Others(slots), args.rest, 0).Keys)))
  {
    hide TargetOf, Others, Positions, ArgPositions, Unshared;
  }

  lemma FirstKeys(x: Image, position: nat, slots: seq<Slot>, args: Args, positions: map<nat, nat>, base: nat)
    requires UnsharedArgs(x, position, slots, args) && args.Arg? && args.first.Some?
    requires ArgPositions(x, position, slots, args, 0).Keys !! positions.Keys
    ensures var at := TargetOf(x, position, slots);
      Unshared(x, at, args.first.value) && Positions(x, at, args.first.value, 0).Keys !! positions.Keys &&
      ArgPositions(x, position, Others(slots), args.rest, 0).Keys !! (positions +
          Positions(x, at, args.first.value, base)).Keys
  {
    hide TargetOf, Others, Positions, Unshared;
    var at := TargetOf(x, position, slots);
    SamePositions(x, at, args.first.value, 0, base);
    SameArgPositions(x, position, Others(slots), args.rest, 0, Size(args.first.value));
  }
}
