/** Reachability along links, shared by the catalog's closures. */
module Reachability {
  ghost predicate IsPath<T(!new)>(next: T -> set<T>, p: seq<T>)
  {
    p != [] && forall i :: 0 < i < |p| ==> p[i] in next(p[i - 1])
  }

  ghost predicate Reaches<T(!new)>(next: T -> set<T>, a: T, b: T)
  {
    exists p :: IsPath(next, p) && p[0] == a && p[|p| - 1] == b
  }

  lemma ReachesItself<T(!new)>(next: T -> set<T>, a: T)
    ensures Reaches(next, a, a)
  {
    assert IsPath(next, [a]);
  }

  lemma ReachesOn<T(!new)>(next: T -> set<T>, a: T, b: T, c: T)
    requires Reaches(next, a, b) && c in next(b)
    ensures Reaches(next, a, c)
  {
    var p :| IsPath(next, p) && p[0] == a && p[|p| - 1] == b;
    assert IsPath(next, p + [c]);
    assert (p + [c])[0] == a && (p + [c])[|p|] == c;
  }

  lemma ReachesFrom<T(!new)>(next: T -> set<T>, a: T, b: T, c: T)
    requires b in next(a) && Reaches(next, b, c)
    ensures Reaches(next, a, c)
  {
    var p :| IsPath(next, p) && p[0] == b && p[|p| - 1] == c;
    var q := [a] + p;
    forall i | 0 < i < |q| ensures q[i] in next(q[i - 1]) { assert i > 1 ==> q[i] == p[i - 1] && q[i - 1] == p[i - 2]; }
    assert IsPath(next, q) && q[0] == a && q[|q| - 1] == c;
  }

  ghost predicate ClosedUnder<T(!new)>(next: T -> set<T>, s: set<T>)
  {
    forall x :: x in s ==> next(x) <= s
  }

  lemma {:induction false} PathStays<T(!new)>(next: T -> set<T>, s: set<T>, p: seq<T>, i: nat)
    requires ClosedUnder(next, s) && IsPath(next, p) && p[0] in s && i < |p|
    ensures p[i] in s
    decreases i
  {
    if i > 0 { PathStays(next, s, p, i - 1); }
  }

  // A closed set contains all that its members reach.
  lemma ClosedReaches<T(!new)>(next: T -> set<T>, s: set<T>, a: T, b: T)
    requires ClosedUnder(next, s) && a in s && Reaches(next, a, b)
    ensures b in s
  {
    var p :| IsPath(next, p) && p[0] == a && p[|p| - 1] == b;
    PathStays(next, s, p, |p| - 1);
  }

  // One step, and on from there.
  lemma ReachesBy<T(!new)>(next: T -> set<T>, a: T, c: T) returns (b: T)
    requires Reaches(next, a, c) && a != c
    ensures b in next(a) && Reaches(next, b, c)
  {
    var p :| IsPath(next, p) && p[0] == a && p[|p| - 1] == c;
    b := p[1];
    var q := p[1..];
    forall i | 0 < i < |q| ensures q[i] in next(q[i - 1]) { assert q[i] == p[i + 1] && q[i - 1] == p[i]; }
    assert IsPath(next, q) && q[0] == b && q[|q| - 1] == c;
  }
}

/** Facts about whole inheritance trees (src/catalog/snapshot.ts). */
module InheritanceTree {
  import opened Bytes
  import opened Reachability

  datatype Generation = Generation(kind: string, expression: Option<string>)

  datatype Column = Column(name: string, notNull: bool, generation: Generation)

  // Relations, their captured columns, direct children and row-rewriting triggers. `rank` falls from parent to
  // child: inheritance runs in no circles.
  datatype Relations = Relations(
    columns: map<nat, seq<Column>>, children: map<nat, seq<nat>>, beforeRow: map<nat, seq<string>>, rank: nat -> nat)

  function ChildrenOf(c: Relations, id: nat): seq<nat> { if id in c.children then c.children[id] else [] }

  function ChildSet(c: Relations, id: nat): set<nat> { set k | k in ChildrenOf(c, id) }

  ghost predicate Acyclic(c: Relations)
  {
    forall id, k :: k in ChildrenOf(c, id) ==> c.rank(k) < c.rank(id)
  }

  // `d` is `id` or one of its descendants.
  ghost predicate InTree(c: Relations, id: nat, d: nat) { Reaches(x => ChildSet(c, x), id, d) }

  function FindColumn(cs: seq<Column>, name: string): Option<Column>
  {
    if cs == [] then None else if cs[0].name == name then Some(cs[0]) else FindColumn(cs[1..], name)
  }

  function ColumnOf(c: Relations, id: nat, name: string): Option<Column>
  {
    if id in c.columns then FindColumn(c.columns[id], name) else None
  }

  // -- A condition on every descendant ------------------------------------------------------------------------

  // `kids.every(..)`: the condition holds of every child and, below it, of every descendant.
  ghost predicate Descendants(c: Relations, holds: nat -> bool, id: nat)
    requires Acyclic(c)
    decreases c.rank(id)
  {
    forall k :: k in ChildrenOf(c, id) ==> holds(k) && Descendants(c, holds, k)
  }

  lemma {:induction false} DescendantsIff(c: Relations, holds: nat -> bool, id: nat)
    requires Acyclic(c)
    ensures holds(id) && Descendants(c, holds, id) <==> forall d :: InTree(c, id, d) ==> holds(d)
    decreases c.rank(id)
  {
    hide Reaches;
    var next := (x: nat) => ChildSet(c, x);
    forall k | k in ChildrenOf(c, id)
      ensures holds(k) && Descendants(c, holds, k) <==> forall d :: InTree(c, k, d) ==> holds(d)
    {
      DescendantsIff(c, holds, k);
    }
    ReachesItself(next, id);
    if holds(id) && Descendants(c, holds, id) {
      forall d | InTree(c, id, d) ensures holds(d) {
        if d != id {
          var k := ReachesBy(next, id, d);
          assert k in ChildrenOf(c, id) && InTree(c, k, d);
        }
      }
    }
    if forall d :: InTree(c, id, d) ==> holds(d) {
      assert InTree(c, id, id);
      forall k | k in ChildrenOf(c, id) ensures holds(k) && Descendants(c, holds, k) {
        forall d | InTree(c, k, d) ensures holds(d) { ReachesFrom(next, id, k, d); }
      }
    }
  }

  // The descent, as a loop over the children.
  method EveryDescendant(c: Relations, holds: nat -> bool, id: nat) returns (r: bool)
    requires Acyclic(c)
    ensures r == Descendants(c, holds, id)
    decreases c.rank(id)
  {
    hide Acyclic;
    var kids := ChildrenOf(c, id);
    for i := 0 to |kids|
      invariant forall j :: 0 <= j < i ==> holds(kids[j]) && Descendants(c, holds, kids[j])
    {
      RankFalls(c, id, kids[i]);
      if !holds(kids[i]) { return false; }
      var below := EveryDescendant(c, holds, kids[i]);
      if !below { return false; }
    }
    r := true;
  }

  lemma RankFalls(c: Relations, id: nat, k: nat)
    requires Acyclic(c) && k in ChildrenOf(c, id)
    ensures c.rank(k) < c.rank(id)
  {
  }

  // -- NOT NULL over a tree ------------------------------------------------------------------------------------

  predicate NotNullIn(c: Relations, id: nat, name: string)
  {
    var col := ColumnOf(c, id, name);
    col.Some? && col.value.notNull
  }

  function NotNullAt(c: Relations, name: string): nat -> bool { (id: nat) => NotNullIn(c, id, name) }

  // What the flag is meant to say: the relation and all its descendants capture the column as NOT NULL.
  ghost predicate NotNullThroughout(c: Relations, id: nat, name: string)
  {
    forall d :: InTree(c, id, d) ==> NotNullIn(c, d, name)
  }

  method NotNullTree(c: Relations, id: nat, name: string) returns (r: bool)
    requires Acyclic(c)
    ensures r <==> NotNullThroughout(c, id, name)
  {
    hide Acyclic, NotNullIn;
    DescendantsIff(c, NotNullAt(c, name), id);
    if !NotNullIn(c, id, name) { return false; }
    r := EveryDescendant(c, NotNullAt(c, name), id);
  }

  // Rows by the relation they live in; a stored row obeys its own relation's NOT NULL constraints.
  type Stored = map<nat, seq<map<string, bool>>>

  ghost predicate Obeys(c: Relations, rows: Stored)
  {
    forall id, i, name :: id in rows && 0 <= i < |rows[id]| && NotNullIn(c, id, name) ==>
      name in rows[id][i] && rows[id][i][name]
  }

  // Scanning a relation returns the rows of its whole tree; where the flag holds, none has a null there.
  lemma ScanHasNoNull(c: Relations, rows: Stored, id: nat, name: string, d: nat, i: nat)
    requires Obeys(c, rows) && NotNullThroughout(c, id, name) && InTree(c, id, d) && d in rows && i < |rows[d]|
    ensures name in rows[d][i] && rows[d][i][name]
  {
    hide Reaches;
    assert NotNullIn(c, d, name);
  }

  // -- Generation expressions ----------------------------------------------------------------------------------

  predicate Generated(column: Column) { column.generation.kind != "none" }

  predicate AgreesIn(c: Relations, id: nat, parent: Column)
  {
    var col := ColumnOf(c, id, parent.name);
    col.Some? && col.value.generation == parent.generation
  }

  function AgreesAt(c: Relations, parent: Column): nat -> bool { (id: nat) => AgreesIn(c, id, parent) }

  // A column diverges exactly when it is generated and some descendant computes it otherwise, or is not captured.
  method GenerationDiverges(c: Relations, id: nat, name: string) returns (r: bool)
    requires Acyclic(c) && ColumnOf(c, id, name).Some?
    ensures r <==> Diverges(c, id, ColumnOf(c, id, name).value)
  {
    var parent := ColumnOf(c, id, name).value;
    if !Generated(parent) { return false; }
    FoundByName(c, id, name);
    hide Acyclic, Reaches;
    DescendantsIff(c, AgreesAt(c, parent), id);
    var agrees := EveryDescendant(c, AgreesAt(c, parent), id);
    r := !agrees;
  }

  // What the flag is meant to say.
  ghost predicate Diverges(c: Relations, id: nat, parent: Column)
  {
    Generated(parent) && exists d :: InTree(c, id, d) && !AgreesIn(c, d, parent)
  }

  // Rows by the relation they live in, and what a generation expression makes of a row. A stored row's generated
  // columns hold what its own relation's expressions make of it.
  type StoredRows = map<nat, seq<map<string, int>>>

  ghost predicate Computed(c: Relations, rows: StoredRows, compute: (Generation, map<string, int>) -> int)
  {
    forall id, i, name :: id in rows && 0 <= i < |rows[id]| && ColumnOf(c, id, name).Some? ==>
      var generation := ColumnOf(c, id, name).value.generation;
      generation.kind != "none" ==> name in rows[id][i] && rows[id][i][name] == compute(generation, rows[id][i])
  }

  // Where a generated column does not diverge, every row of a scan of the tree holds what the relation's own
  // expression makes of it.
  lemma ScanComputes(c: Relations, rows: StoredRows, compute: (Generation, map<string, int>) -> int, id: nat,
      parent: Column, d: nat, i: nat)
    requires Computed(c, rows, compute) && parent.generation.kind != "none" && !Diverges(c, id, parent)
    requires InTree(c, id, d) && d in rows && i < |rows[d]|
    ensures parent.name in rows[d][i] && rows[d][i][parent.name] == compute(parent.generation, rows[d][i])
  {
    hide Reaches;
    assert AgreesIn(c, d, parent);
    var own := ColumnOf(c, d, parent.name).value;
    assert own.generation.kind != "none";
  }

  lemma FoundByName(c: Relations, id: nat, name: string)
    requires ColumnOf(c, id, name).Some?
    ensures ColumnOf(c, id, name).value.name == name && AgreesIn(c, id, ColumnOf(c, id, name).value)
  {
    FoundIn(c.columns[id], name);
  }

  lemma {:induction false} FoundIn(cs: seq<Column>, name: string)
    requires FindColumn(cs, name).Some?
    ensures FindColumn(cs, name).value.name == name
  {
    if cs[0].name != name { FoundIn(cs[1..], name); }
  }

  // -- Triggers over a tree ------------------------------------------------------------------------------------

  function CommandsOf(c: Relations, id: nat): set<string>
  {
    if id in c.beforeRow then set cmd | cmd in c.beforeRow[id] else {}
  }

  // The commands of everything visited below a relation.
  method VisitTree(c: Relations, id: nat, before: set<string>) returns (commands: set<string>)
    requires Acyclic(c)
    ensures before <= commands
    ensures forall cmd :: cmd in commands <==>
      cmd in before || exists k, d :: k in ChildrenOf(c, id) && InTree(c, k, d) && cmd in CommandsOf(c, d)
    decreases c.rank(id)
  {
    hide Acyclic, Reaches, CommandsOf;
    commands := before;
    var kids := ChildrenOf(c, id);
    for i := 0 to |kids|
      invariant before <= commands
      invariant forall cmd :: cmd in commands <==> cmd in before || FoundBelow(c, kids, i, cmd)
    {
      RankFalls(c, id, kids[i]);
      ghost var earlier := commands;
      commands := commands + CommandsOf(c, kids[i]);
      ghost var own := commands;
      commands := VisitTree(c, kids[i], commands);
      forall cmd ensures cmd in commands <==> cmd in before || FoundBelow(c, kids, i + 1, cmd) {
        assert cmd in own <==> cmd in earlier || cmd in CommandsOf(c, kids[i]);
        FoundInOne(c, kids[i], cmd);
        FoundNext(c, kids, i, cmd);
      }
    }
    forall cmd ensures FoundBelow(c, kids, |kids|, cmd) <==>
        exists k, d :: k in ChildrenOf(c, id) && InTree(c, k, d) && cmd in CommandsOf(c, d)
    {
      FoundAll(c, kids, cmd);
    }
  }

  ghost predicate FoundInTree(c: Relations, k: nat, cmd: string)
  {
    exists d :: InTree(c, k, d) && cmd in CommandsOf(c, d)
  }

  ghost predicate FoundBelow(c: Relations, kids: seq<nat>, n: nat, cmd: string)
    requires n <= |kids|
  {
    exists i :: 0 <= i < n && FoundInTree(c, kids[i], cmd)
  }

  lemma FoundNext(c: Relations, kids: seq<nat>, n: nat, cmd: string)
    requires n < |kids|
    ensures FoundBelow(c, kids, n + 1, cmd) <==> FoundBelow(c, kids, n, cmd) || FoundInTree(c, kids[n], cmd)
  {
    hide FoundInTree;
  }

  lemma FoundAll(c: Relations, kids: seq<nat>, cmd: string)
    ensures FoundBelow(c, kids, |kids|, cmd) <==>
      exists k, d :: k in kids && InTree(c, k, d) && cmd in CommandsOf(c, d)
  {
    hide InTree, CommandsOf;
    if k, d :| k in kids && InTree(c, k, d) && cmd in CommandsOf(c, d) {
      var i :| 0 <= i < |kids| && kids[i] == k;
      assert FoundInTree(c, kids[i], cmd);
    }
  }

  // In a tree: at its root or below one of the root's children.
  lemma FoundInOne(c: Relations, k: nat, cmd: string)
    ensures FoundInTree(c, k, cmd) <==>
      cmd in CommandsOf(c, k) || exists j, d :: j in ChildrenOf(c, k) && InTree(c, j, d) && cmd in CommandsOf(c, d)
  {
    hide Reaches, CommandsOf;
    var next := (x: nat) => ChildSet(c, x);
    ReachesItself(next, k);
    assert InTree(c, k, k);
    if FoundInTree(c, k, cmd) {
      var d :| InTree(c, k, d) && cmd in CommandsOf(c, d);
      if d != k {
        var j := ReachesBy(next, k, d);
        assert j in ChildrenOf(c, k) && InTree(c, j, d);
      }
    }
    if j, d :| j in ChildrenOf(c, k) && InTree(c, j, d) && cmd in CommandsOf(c, d) {
      ReachesFrom(next, k, j, d);
      assert InTree(c, k, d);
    }
  }

  // The row-rewriting commands of a relation are those of its whole tree.
  method BeforeRowTree(c: Relations, id: nat) returns (commands: set<string>)
    requires Acyclic(c)
    ensures forall cmd :: cmd in commands <==> FoundInTree(c, id, cmd)
  {
    hide Acyclic, Reaches, CommandsOf, FoundInTree;
    commands := VisitTree(c, id, CommandsOf(c, id));
    forall cmd ensures cmd in commands <==> FoundInTree(c, id, cmd) { FoundInOne(c, id, cmd); }
  }
}

/** Which types may contain which (src/catalog/container-constant-storage.ts, src/catalog/composite-dependencies.ts). */
module TypeClosures {
  import opened Bytes
  import opened Reachability
  import opened Records
  import C = Container

  // -- Types that may hold a value of given types ---------------------------------------------------------------

  // Keyed by the type's own number.
  predicate Keyed(types: map<nat, C.StorageType>)
  {
    forall oid :: oid in types ==> types[oid].oid == oid
  }

  function LiveAttributes(attributes: seq<C.Attribute>): set<nat>
  {
    set a | a in attributes && !a.dropped :: a.oid
  }

  // What a value of the type is made of.
  function PartsOf(t: C.StorageType, ranges: bool): set<nat>
  {
    if t.kind == 'd' then {t.base}
    else if t.element != 0 then {t.element}
    else if ranges && t.rangeSubtype != 0 then {t.rangeSubtype}
    else if ranges && t.rangeType != 0 then {t.rangeType}
    else LiveAttributes(t.attributes)
  }

  function OwnersOf(types: map<nat, C.StorageType>, ranges: bool, oid: nat): set<nat>
  {
    set owner | owner in types && oid in PartsOf(types[owner], ranges)
  }

  function Owners(types: map<nat, C.StorageType>, ranges: bool): nat -> set<nat>
  {
    (oid: nat) => OwnersOf(types, ranges, oid)
  }

  datatype Wanted = ByIdentity(identity: string) | ByOid(oids: set<nat>)

  predicate IsWanted(w: Wanted, t: C.StorageType)
  {
    match w case ByIdentity(identity) => t.identity == identity case ByOid(oids) => t.oid in oids
  }

  function WantedIn(types: map<nat, C.StorageType>, w: Wanted): set<nat>
  {
    set oid | oid in types && IsWanted(w, types[oid])
  }

  // The type is wanted, or made of one that is, and so on.
  ghost predicate MadeOf(types: map<nat, C.StorageType>, ranges: bool, w: Wanted, oid: nat)
  {
    exists root :: root in WantedIn(types, w) && Reaches(Owners(types, ranges), root, oid)
  }

  // The worklist: everything on it is made of something wanted, and what has been processed brought its owners.
  ghost predicate Grown(types: map<nat, C.StorageType>, ranges: bool, w: Wanted, result: set<nat>, roots: seq<nat>,
      done: nat)
  {
    done <= |roots| && (forall oid :: oid in result <==> oid in roots) && result <= types.Keys &&
        WantedIn(types, w) <= result &&
    (forall i, j :: 0 <= i < j < |roots| ==> roots[i] != roots[j]) &&
    (forall oid :: oid in result ==> MadeOf(types, ranges, w, oid)) &&
    (forall i :: 0 <= i < done ==> OwnersOf(types, ranges, roots[i]) <= result)
  }

  method CollectRoots(types: map<nat, C.StorageType>, w: Wanted) returns (roots: seq<nat>)
    requires Keyed(types)
    ensures (forall oid :: oid in roots <==> oid in WantedIn(types, w)) &&
      forall i, j :: 0 <= i < j < |roots| ==> roots[i] != roots[j]
  {
    roots := [];
    var pending := types.Keys;
    while pending != {}
      invariant pending <= types.Keys
      invariant forall oid :: oid in roots <==> oid in WantedIn(types, w) && oid !in pending
      invariant forall i, j :: 0 <= i < j < |roots| ==> roots[i] != roots[j]
      decreases |pending|
    {
      var oid :| oid in pending;
      pending := pending - {oid};
      if IsWanted(w, types[oid]) { roots := roots + [types[oid].oid]; }
    }
  }

  method AddOwners(types: map<nat, C.StorageType>, ranges: bool, ghost w: Wanted, result: set<nat>, roots: seq<nat>,
      index: nat)
    returns (more: set<nat>, queue: seq<nat>)
    requires Grown(types, ranges, w, result, roots, index) && index < |roots|
    ensures Grown(types, ranges, w, more, queue, index + 1) && roots <= queue
  {
    more, queue := result, roots;
    var owners := OwnersOf(types, ranges, roots[index]);
    var pending := owners;
    GrownPart(types, ranges, w, result, roots, index);
    hide MadeOf, OwnersOf, Reaches, Grown;
    while pending != {}
      invariant pending <= owners && owners - pending <= more
      invariant Grown(types, ranges, w, more, queue, index) && roots <= queue
      decreases |pending|
    {
      var parent :| parent in pending;
      pending := pending - {parent};
      if parent !in more {
        OwnerMade(types, ranges, w, roots[index], parent);
        GrownMore(types, ranges, w, more, queue, index, parent);
        more := more + {parent};
        queue := queue + [parent];
      }
    }
    GrownNext(types, ranges, w, more, queue, index);
  }

  lemma GrownPart(types: map<nat, C.StorageType>, ranges: bool, w: Wanted, result: set<nat>, roots: seq<nat>,
      index: nat)
    requires Grown(types, ranges, w, result, roots, index) && index < |roots|
    ensures MadeOf(types, ranges, w, roots[index])
  {
    hide MadeOf, OwnersOf;
  }

  lemma GrownMore(types: map<nat, C.StorageType>, ranges: bool, w: Wanted, result: set<nat>, roots: seq<nat>,
      index: nat, owner: nat)
    requires Grown(types, ranges, w, result, roots, index) && owner !in result && owner in types
    requires MadeOf(types, ranges, w, owner)
    ensures Grown(types, ranges, w, result + {owner}, roots + [owner], index)
  {
    hide MadeOf, OwnersOf, WantedIn;
    var more, queue := result + {owner}, roots + [owner];
    forall oid ensures oid in more <==> oid in queue {
      assert oid in queue <==> oid in roots || oid == owner;
    }
    forall i | 0 <= i < index ensures OwnersOf(types, ranges, queue[i]) <= more { assert queue[i] == roots[i]; }
    forall i, j | 0 <= i < j < |queue| ensures queue[i] != queue[j] { assert queue[i] in roots; }
  }

  lemma GrownNext(types: map<nat, C.StorageType>, ranges: bool, w: Wanted, result: set<nat>, roots: seq<nat>,
      index: nat)
    requires Grown(types, ranges, w, result, roots, index) && index < |roots|
    requires OwnersOf(types, ranges, roots[index]) <= result
    ensures Grown(types, ranges, w, result, roots, index + 1)
  {
    hide MadeOf, OwnersOf, WantedIn;
  }

  lemma OwnerMade(types: map<nat, C.StorageType>, ranges: bool, w: Wanted, part: nat, owner: nat)
    requires MadeOf(types, ranges, w, part) && owner in OwnersOf(types, ranges, part)
    ensures MadeOf(types, ranges, w, owner) && owner in types
  {
    hide Reaches;
    var root :| root in WantedIn(types, w) && Reaches(Owners(types, ranges), root, part);
    ReachesOn(Owners(types, ranges), root, part, owner);
  }

  // Exactly the types made of a wanted one; asked by name, without the wanted types themselves.
  method StorageContainerTypes(types: map<nat, C.StorageType>, w: Wanted, ranges: bool) returns (result: set<nat>)
    requires Keyed(types)
    ensures forall oid :: oid in result <==>
      MadeOf(types, ranges, w, oid) && !(w.ByIdentity? && oid in WantedIn(types, w))
  {
    hide MadeOf, Reaches, OwnersOf;
    var roots := CollectRoots(types, w);
    result := set oid | oid in roots;
    forall oid | oid in WantedIn(types, w) ensures MadeOf(types, ranges, w, oid) { WantedMade(types, ranges, w, oid); }
    var index := 0;
    while index < |roots|
      invariant Grown(types, ranges, w, result, roots, index)
      decreases |types| - index
    {
      result, roots := AddOwners(types, ranges, w, result, roots, index);
      index := index + 1;
      NoMoreThanTypes(types, roots);
    }
    forall oid | MadeOf(types, ranges, w, oid) ensures oid in result { MadeIsGrown(types, ranges, w, result, roots, oid); }
    if w.ByIdentity? { result := result - WantedIn(types, w); }
  }

  lemma WantedMade(types: map<nat, C.StorageType>, ranges: bool, w: Wanted, oid: nat)
    requires oid in WantedIn(types, w)
    ensures MadeOf(types, ranges, w, oid)
  {
    hide Reaches;
    ReachesItself(Owners(types, ranges), oid);
  }

  lemma NoMoreThanTypes(types: map<nat, C.StorageType>, roots: seq<nat>)
    requires (forall oid :: oid in roots ==> oid in types) &&
      forall i, j :: 0 <= i < j < |roots| ==> roots[i] != roots[j]
    ensures |roots| <= |types|
  {
    DistinctSize(roots);
    assert Elements(roots) <= types.Keys;
    Subset(Elements(roots), types.Keys);
  }

  function Elements(s: seq<nat>): set<nat> { set x | x in s }

  lemma {:induction false} DistinctSize(s: seq<nat>)
    requires forall i, j :: 0 <= i < j < |s| ==> s[i] != s[j]
    ensures |Elements(s)| == |s|
    decreases |s|
  {
    if s != [] {
      var n := |s| - 1;
      DistinctSize(s[..n]);
      assert Elements(s) == Elements(s[..n]) + {s[n]} by { assert s == s[..n] + [s[n]]; }
      assert s[n] !in Elements(s[..n]);
    }
  }

  lemma Subset<T>(a: set<T>, b: set<T>)
    requires a <= b
    ensures |a| <= |b|
  {
    assert b == a + (b - a);
  }

  lemma MadeIsGrown(types: map<nat, C.StorageType>, ranges: bool, w: Wanted, result: set<nat>, roots: seq<nat>,
      oid: nat)
    requires Grown(types, ranges, w, result, roots, |roots|) && MadeOf(types, ranges, w, oid)
    ensures oid in result
  {
    hide Reaches, OwnersOf;
    var next := Owners(types, ranges);
    var root :| root in WantedIn(types, w) && Reaches(next, root, oid);
    forall x | x in result ensures next(x) <= result {
      var i :| 0 <= i < |roots| && roots[i] == x;
    }
    ClosedReaches(next, result, root, oid);
  }

  // -- Definitions a composite type needs ------------------------------------------------------------------------

  datatype Definition = Definition(
    identity: string, kind: char, arrayOf: Option<string>, base: Option<string>, element: Option<string>,
    subtype: Option<string>,
    member: Option<string>, typedOf: Option<string>, parents: seq<string>, casts: seq<string>, fields: seq<string>)

  datatype Graph = Graph(roots: seq<string>, definitions: seq<Definition>)

  function Given(o: Option<string>): seq<string> { if o.Some? && o.value != "" then [o.value] else [] }

  function Present(s: seq<string>): seq<string>
  {
    if s == [] then [] else (if s[0] == "" then [] else [s[0]]) + Present(s[1..])
  }

  // Everything a definition refers to, in the order it is visited.
  function References(d: Definition): seq<string>
  {
    Given(d.arrayOf) + Given(d.base) + Given(d.element) + Given(d.subtype) + Given(d.member) + Given(d.typedOf) +
    Present(d.parents) + Present(d.casts) + Present(d.fields)
  }

  // The multiranges over a range.
  function Multiranges(ds: seq<Definition>, identity: string): seq<string>
  {
    if ds == [] then []
    else (if ds[0].kind == 'm' && ds[0].member == Some(identity) then [ds[0].identity] else []) + Multiranges(ds[1..], identity)
  }

  // The last definition of an identity, as a map keeps it.
  function Find(ds: seq<Definition>, identity: string): Option<Definition>
  {
    if ds == [] then None
    else
      var later := Find(ds[1..], identity);
      if later.Some? then later else if ds[0].identity == identity then Some(ds[0]) else None
  }

  function NeedsList(ds: seq<Definition>, identity: string): seq<string>
  {
    var d := Find(ds, identity);
    if d.None? then [] else References(d.value) + Multiranges(ds, identity)
  }

  function Needs(ds: seq<Definition>): string -> set<string>
  {
    (identity: string) => set n | n in NeedsList(ds, identity)
  }

  function Defined(ds: seq<Definition>): set<string> { set i | 0 <= i < |ds| :: ds[i].identity }

  lemma {:induction false} FindDefined(ds: seq<Definition>, identity: string)
    ensures Find(ds, identity).Some? <==> identity in Defined(ds)
    ensures Find(ds, identity).Some? ==> Find(ds, identity).value in ds && Find(ds, identity).value.identity == identity
  {
    if ds != [] {
      FindDefined(ds[1..], identity);
      assert Defined(ds) == {ds[0].identity} + Defined(ds[1..]) by { DefinedCons(ds); }
    }
  }

  lemma DefinedCons(ds: seq<Definition>)
    requires ds != []
    ensures Defined(ds) == {ds[0].identity} + Defined(ds[1..])
  {
    forall x | x in Defined(ds) ensures x in {ds[0].identity} + Defined(ds[1..]) {
      var i :| 0 <= i < |ds| && ds[i].identity == x;
      if i > 0 { assert ds[1..][i - 1].identity == x; }
    }
    forall x | x in Defined(ds[1..]) ensures x in Defined(ds) {
      var i :| 0 <= i < |ds[1..]| && ds[1..][i].identity == x;
      assert ds[i + 1].identity == x;
    }
  }

  // Visiting `identity` with `before` already needed left `after`: what is new is reached from it, and
  // all new definitions have their needs covered. Stopped means that something reached has no definition.
  ghost predicate Visited(ds: seq<Definition>, from: set<string>, before: set<string>, after: set<string>, ok: bool)
  {
    before <= after && after - before <= Defined(ds) &&
    (forall x :: x in after - before ==> ReachedFrom(ds, from, x)) &&
    (ok ==> from <= after && forall x :: x in after - before ==> Needs(ds)(x) <= after) &&
    (!ok ==> exists x :: ReachedFrom(ds, from, x) && x !in Defined(ds))
  }

  ghost predicate ReachedFrom(ds: seq<Definition>, from: set<string>, x: string)
  {
    exists a :: a in from && Reaches(Needs(ds), a, x)
  }

  lemma ReachedWider(ds: seq<Definition>, a: set<string>, b: set<string>, x: string)
    requires a <= b && ReachedFrom(ds, a, x)
    ensures ReachedFrom(ds, b, x)
  {
    hide Reaches, Needs;
  }

  lemma ReachedThrough(ds: seq<Definition>, identity: string, from: set<string>, x: string)
    requires from <= Needs(ds)(identity) && ReachedFrom(ds, from, x)
    ensures ReachedFrom(ds, {identity}, x)
  {
    hide Reaches;
    var a :| a in from && Reaches(Needs(ds), a, x);
    ReachesFrom(Needs(ds), identity, a, x);
  }

  lemma ReachedItself(ds: seq<Definition>, identity: string)
    ensures ReachedFrom(ds, {identity}, identity)
  {
    ReachesItself(Needs(ds), identity);
    hide Reaches;
  }

  // Two visits in a row.
  lemma VisitedTwice(ds: seq<Definition>, a: set<string>, b: set<string>, s0: set<string>, s1: set<string>,
      s2: set<string>, ok: bool)
    requires Visited(ds, a, s0, s1, true) && Visited(ds, b, s1, s2, ok)
    ensures Visited(ds, a + b, s0, s2, ok)
  {
    hide ReachedFrom, Needs, Defined;
    forall x | x in s2 - s0 ensures ReachedFrom(ds, a + b, x) {
      if x in s1 { ReachedWider(ds, a, a + b, x); } else { ReachedWider(ds, b, a + b, x); }
    }
    if !ok {
      var x :| ReachedFrom(ds, b, x) && x !in Defined(ds);
      ReachedWider(ds, b, a + b, x);
    }
  }

  lemma VisitedNothing(ds: seq<Definition>, s: set<string>)
    ensures Visited(ds, {}, s, s, true)
  {
    hide ReachedFrom, Needs, Defined;
  }

  lemma VisitedPart(ds: seq<Definition>, a: set<string>, b: set<string>, s0: set<string>, s1: set<string>)
    requires Visited(ds, a, s0, s1, false) && a <= b
    ensures Visited(ds, b, s0, s1, false)
  {
    hide ReachedFrom, Needs, Defined;
    forall x | x in s1 - s0 ensures ReachedFrom(ds, b, x) { ReachedWider(ds, a, b, x); }
    var x :| ReachedFrom(ds, a, x) && x !in Defined(ds);
    ReachedWider(ds, a, b, x);
  }

  lemma VisitedKnown(ds: seq<Definition>, identity: string, s: set<string>)
    requires identity in s
    ensures Visited(ds, {identity}, s, s, true)
  {
    hide ReachedFrom, Needs, Defined;
  }

  lemma VisitedUnknown(ds: seq<Definition>, identity: string, s: set<string>)
    requires identity !in Defined(ds)
    ensures Visited(ds, {identity}, s, s, false)
  {
    ReachedItself(ds, identity);
    hide ReachedFrom, Needs, Defined;
  }

  // A node and all its needs.
  lemma VisitedNode(ds: seq<Definition>, identity: string, from: set<string>, s: set<string>, after: set<string>,
      ok: bool)
    requires identity in Defined(ds) && identity !in s && from <= Needs(ds)(identity) &&
      (ok ==> from == Needs(ds)(identity))
    requires Visited(ds, from, s + {identity}, after, ok)
    ensures Visited(ds, {identity}, s, after, ok)
  {
    hide ReachedFrom, Needs, Defined;
    ReachedItself(ds, identity);
    forall x | x in after - s ensures ReachedFrom(ds, {identity}, x) {
      if x != identity { ReachedThrough(ds, identity, from, x); }
    }
    if !ok {
      var x :| ReachedFrom(ds, from, x) && x !in Defined(ds);
      ReachedThrough(ds, identity, from, x);
    }
  }

  function Members(s: seq<string>): set<string> { set x | x in s }

  lemma MembersStep(s: seq<string>, i: nat)
    requires i < |s|
    ensures Members(s[..i + 1]) == Members(s[..i]) + {s[i]} && Members(s[..i + 1]) <= Members(s)
  {
    assert s[..i + 1] == s[..i] + [s[i]];
  }

  // The recursive visit, growing the shared set.
  method Visit(ds: seq<Definition>, identity: string, needed: set<string>) returns (ok: bool, after: set<string>)
    ensures Visited(ds, {identity}, needed, after, ok)
    decreases |Defined(ds) - needed|, 1
  {
    hide Visited, Needs, Find, References, Multiranges, Defined;
    FindDefined(ds, identity);
    if identity in needed {
      VisitedKnown(ds, identity, needed);
      return true, needed;
    }
    var node := Find(ds, identity);
    if node.None? {
      VisitedUnknown(ds, identity, needed);
      return false, needed;
    }
    assert Defined(ds) - (needed + {identity}) < Defined(ds) - needed by { assert identity in Defined(ds) - needed; }
    Fewer(Defined(ds) - (needed + {identity}), Defined(ds) - needed);
    var references := References(node.value) + Multiranges(ds, identity);
    NeedsOf(ds, identity, references);
    ok, after := VisitAll(ds, references, needed + {identity});
    VisitedNode(ds, identity, Members(references), needed, after, ok);
  }

  lemma NeedsOf(ds: seq<Definition>, identity: string, references: seq<string>)
    requires Find(ds, identity).Some? && references == References(Find(ds, identity).value) + Multiranges(ds, identity)
    ensures Members(references) == Needs(ds)(identity)
  {
    hide References, Multiranges, Find;
  }

  lemma Fewer<T>(a: set<T>, b: set<T>)
    requires a < b
    ensures |a| < |b|
  {
    assert b == a + (b - a) && b - a != {};
  }

  method VisitAll(ds: seq<Definition>, identities: seq<string>, needed: set<string>)
    returns (ok: bool, after: set<string>)
    ensures Visited(ds, Members(identities), needed, after, ok)
    decreases |Defined(ds) - needed|, 2, |identities|
  {
    hide Visited, Needs, Defined;
    after := needed;
    assert Members(identities[..0]) == {};
    VisitedNothing(ds, needed);
    for i := 0 to |identities|
      invariant Visited(ds, Members(identities[..i]), needed, after, true)
    {
      Grew(ds, Members(identities[..i]), needed, after);
      Subset(Defined(ds) - after, Defined(ds) - needed);
      ghost var before := after;
      ok, after := Visit(ds, identities[i], after);
      MembersStep(identities, i);
      VisitedTwice(ds, Members(identities[..i]), {identities[i]}, needed, before, after, ok);
      if !ok {
        VisitedPart(ds, Members(identities[..i + 1]), Members(identities), needed, after);
        return false, after;
      }
    }
    assert identities[..|identities|] == identities;
    ok := true;
  }

  lemma Grew(ds: seq<Definition>, from: set<string>, before: set<string>, after: set<string>)
    requires Visited(ds, from, before, after, true)
    ensures before <= after
  {
    hide ReachedFrom, Needs, Defined;
  }

  // -- The subgraph --

  predicate RootsComposite(g: Graph, roots: seq<string>)
  {
    forall i :: 0 <= i < |roots| ==> Find(g.definitions, roots[i]).Some? && Find(g.definitions, roots[i]).value.kind == 'c'
  }

  function Restrict(ds: seq<Definition>, needed: set<string>): seq<Definition>
  {
    if ds == [] then [] else (if ds[0].identity in needed then [ds[0]] else []) + Restrict(ds[1..], needed)
  }

  function IdentityOf(): Definition -> string { (d: Definition) => d.identity }

  // Each name once.
  function Once(s: seq<string>): seq<string>
  {
    if s == [] then []
    else
      var front := Once(s[..|s| - 1]);
      if s[|s| - 1] in front then front else front + [s[|s| - 1]]
  }

  function Subgraph(g: Graph, roots: seq<string>, needed: set<string>): Graph
  {
    Graph(SortBy(Once(roots), (s: string) => s), SortBy(Restrict(g.definitions, needed), IdentityOf()))
  }

  // What the roots reach.
  ghost predicate IsNeeded(g: Graph, roots: seq<string>, needed: set<string>)
  {
    (forall x :: x in needed <==> ReachedFrom(g.definitions, Members(roots), x)) && needed <= Defined(g.definitions)
  }

  // The least part of the graph that holds the roots and all it refers to; nothing when a root is no composite
  // type or something reached has no definition.
  method CompositeTypeDependencies(g: Graph, roots: seq<string>) returns (r: Option<Graph>)
    ensures r.Some? <==> RootsComposite(g, roots) && forall x :: ReachedFrom(g.definitions, Members(roots), x) ==> x in Defined(g.definitions)
    ensures r.Some? ==> exists needed :: IsNeeded(g, roots, needed) && r.value == Subgraph(g, roots, needed)
  {
    hide Visited, Needs, Defined, ReachedFrom, Find, Subgraph;
    var needed: set<string> := {};
    assert Members(roots[..0]) == {};
    VisitedNothing(g.definitions, {});
    for i := 0 to |roots|
      invariant Visited(g.definitions, Members(roots[..i]), {}, needed, true)
      invariant forall k :: 0 <= k < i ==> Find(g.definitions, roots[k]).Some? && Find(g.definitions, roots[k]).value.kind == 'c'
    {
      var node := Find(g.definitions, roots[i]);
      if node.None? || node.value.kind != 'c' { return None; }
      ghost var before := needed;
      var ok: bool;
      ok, needed := Visit(g.definitions, roots[i], needed);
      MembersStep(roots, i);
      VisitedTwice(g.definitions, Members(roots[..i]), {roots[i]}, {}, before, needed, ok);
      if !ok {
        VisitedPart(g.definitions, Members(roots[..i + 1]), Members(roots), {}, needed);
        Undefined(g.definitions, Members(roots), needed);
        return None;
      }
    }
    assert roots[..|roots|] == roots;
    VisitedIsNeeded(g, roots, needed);
    r := Some(Subgraph(g, roots, needed));
  }

  lemma Undefined(ds: seq<Definition>, from: set<string>, after: set<string>)
    requires Visited(ds, from, {}, after, false)
    ensures exists x :: ReachedFrom(ds, from, x) && x !in Defined(ds)
  {
    hide ReachedFrom, Needs, Defined;
  }

  lemma VisitedIsNeeded(g: Graph, roots: seq<string>, needed: set<string>)
    requires Visited(g.definitions, Members(roots), {}, needed, true)
    ensures IsNeeded(g, roots, needed)
    ensures forall x :: ReachedFrom(g.definitions, Members(roots), x) ==> x in Defined(g.definitions)
  {
    hide Needs, Defined, Reaches;
    assert needed - {} == needed;
    forall x | ReachedFrom(g.definitions, Members(roots), x) ensures x in needed {
      var a :| a in Members(roots) && Reaches(Needs(g.definitions), a, x);
      ClosedReaches(Needs(g.definitions), needed, a, x);
    }
  }

  // -- Taking the part of a part ---------------------------------------------------------------------------------

  // Definitions of the same identity are the same.
  ghost predicate Consistent(ds: seq<Definition>)
  {
    forall a, b :: a in ds && b in ds && a.identity == b.identity ==> a == b
  }

  lemma {:induction false} RestrictHolds(ds: seq<Definition>, needed: set<string>, d: Definition)
    ensures d in Restrict(ds, needed) <==> d in ds && d.identity in needed
    decreases |ds|
  {
    if ds != [] {
      RestrictHolds(ds[1..], needed, d);
      assert ds == [ds[0]] + ds[1..];
    }
  }

  lemma {:induction false} RestrictAll(ds: seq<Definition>, needed: set<string>)
    requires forall d :: d in ds ==> d.identity in needed
    ensures Restrict(ds, needed) == ds
    decreases |ds|
  {
    if ds != [] {
      RestrictAll(ds[1..], needed);
      assert ds == [ds[0]] + ds[1..];
    }
  }

  lemma SortHolds<T>(s: seq<T>, key: T -> string)
    ensures forall x :: x in SortBy(s, key) <==> x in s
  {
    SortBySorts(s, key);
    forall x ensures x in SortBy(s, key) <==> x in s {
      assert x in SortBy(s, key) <==> x in multiset(SortBy(s, key));
      assert x in s <==> x in multiset(s);
    }
  }

  lemma {:induction false} SortedStays<T>(s: seq<T>, key: T -> string)
    requires Sorted(s, key)
    ensures SortBy(s, key) == s
    decreases |s|
  {
    if s != [] {
      var n := |s| - 1;
      SortedStays(s[..n], key);
      assert s == s[..n] + [s[n]];
      if n > 0 { LessTotal(key(s[n - 1]), key(s[n])); }
    }
  }

  // A definition is found exactly when it is there.
  lemma {:induction false} FindHolds(ds: seq<Definition>, identity: string, d: Definition)
    requires Consistent(ds)
    ensures Find(ds, identity) == Some(d) <==> d in ds && d.identity == identity
  {
    hide Find;
    FindDefined(ds, identity);
    if d in ds && d.identity == identity {
      var i :| 0 <= i < |ds| && ds[i] == d;
      assert identity in Defined(ds);
    }
  }

  lemma {:induction false} MultirangeHolds(ds: seq<Definition>, identity: string, n: string)
    ensures n in Multiranges(ds, identity) <==> exists d :: d in ds && d.kind == 'm' && d.member == Some(identity) && d.identity == n
    decreases |ds|
  {
    if ds != [] {
      MultirangeHolds(ds[1..], identity, n);
      assert ds == [ds[0]] + ds[1..];
    }
  }

  // `part` holds just the needed definitions of `whole`, and the needed ones need only each other.
  ghost predicate IsPart(whole: seq<Definition>, part: seq<Definition>, needed: set<string>)
  {
    Consistent(whole) && (forall d :: d in part <==> d in whole && d.identity in needed) &&
    ClosedUnder(Needs(whole), needed) && needed <= Defined(whole)
  }

  // In the part, every needed definition needs what it needs in the whole.
  lemma SameNeeds(whole: seq<Definition>, part: seq<Definition>, needed: set<string>, x: string)
    requires IsPart(whole, part, needed) && x in needed
    ensures Needs(part)(x) == Needs(whole)(x) && Find(part, x) == Find(whole, x)
  {
    SameFound(whole, part, needed, x);
    FindDefined(whole, x);
    hide Find, Defined, References, Multiranges;
    assert Needs(whole)(x) <= needed;
    forall n ensures n in Multiranges(part, x) <==> n in Multiranges(whole, x) {
      MultirangeHolds(part, x, n);
      MultirangeHolds(whole, x, n);
      if n in Multiranges(whole, x) {
        var d :| d in whole && d.kind == 'm' && d.member == Some(x) && d.identity == n;
        assert n in NeedsList(whole, x);
        assert n in needed;
        assert d in part;
      }
    }
    assert forall n :: n in NeedsList(part, x) <==> n in NeedsList(whole, x);
  }

  lemma SameFound(whole: seq<Definition>, part: seq<Definition>, needed: set<string>, x: string)
    requires IsPart(whole, part, needed) && x in needed
    ensures Find(part, x) == Find(whole, x) && Find(whole, x).Some?
  {
    hide Find, ClosedUnder, Needs;
    FindDefined(whole, x);
    assert Consistent(part);
    FindHolds(part, x, Find(whole, x).value);
  }

  lemma {:induction false} PathInPart(whole: seq<Definition>, part: seq<Definition>, needed: set<string>,
      p: seq<string>)
    requires IsPart(whole, part, needed) && IsPath(Needs(whole), p) && p[0] in needed
    ensures IsPath(Needs(part), p)
  {
    hide Needs, Defined, Consistent;
    forall i | 0 < i < |p| ensures p[i] in Needs(part)(p[i - 1]) {
      PathStays(Needs(whole), needed, p, i - 1);
      SameNeeds(whole, part, needed, p[i - 1]);
    }
  }

  lemma PartClosed(whole: seq<Definition>, part: seq<Definition>, needed: set<string>)
    requires IsPart(whole, part, needed)
    ensures ClosedUnder(Needs(part), needed) && needed <= Defined(part)
  {
    hide Needs, Consistent, Find, Defined, IsPart;
    forall x | x in needed ensures Needs(part)(x) <= needed && x in Defined(part) {
      SameNeeds(whole, part, needed, x);
      SameFound(whole, part, needed, x);
      FindDefined(part, x);
      WholeClosed(whole, part, needed, x);
    }
  }

  lemma WholeClosed(whole: seq<Definition>, part: seq<Definition>, needed: set<string>, x: string)
    requires IsPart(whole, part, needed) && x in needed
    ensures Needs(whole)(x) <= needed
  {
    hide Needs, Consistent, Defined;
  }

  lemma ReachedInPart(whole: seq<Definition>, part: seq<Definition>, needed: set<string>, from: set<string>, x: string)
    requires IsPart(whole, part, needed) && from <= needed && ReachedFrom(whole, from, x)
    ensures ReachedFrom(part, from, x)
  {
    hide Needs, IsPart;
    var a :| a in from && Reaches(Needs(whole), a, x);
    var p :| IsPath(Needs(whole), p) && p[0] == a && p[|p| - 1] == x;
    PathInPart(whole, part, needed, p);
    assert Reaches(Needs(part), a, x);
  }

  lemma PartReached(part: seq<Definition>, needed: set<string>, from: set<string>, x: string)
    requires ClosedUnder(Needs(part), needed) && from <= needed && ReachedFrom(part, from, x)
    ensures x in needed
  {
    hide Needs, ClosedUnder, Reaches;
    var a :| a in from && Reaches(Needs(part), a, x);
    ClosedReaches(Needs(part), needed, a, x);
  }

  // The part needs exactly itself.
  lemma NeededInPart(whole: seq<Definition>, part: seq<Definition>, needed: set<string>, from: set<string>)
    requires IsPart(whole, part, needed) && from <= needed && forall x :: x in needed ==> ReachedFrom(whole, from, x)
    ensures forall x :: x in needed <==> ReachedFrom(part, from, x)
    ensures needed <= Defined(part)
  {
    hide Needs, IsPart, ReachedFrom, Defined, ClosedUnder;
    PartClosed(whole, part, needed);
    forall x ensures x in needed <==> ReachedFrom(part, from, x) {
      if x in needed { ReachedInPart(whole, part, needed, from, x); }
      if ReachedFrom(part, from, x) { PartReached(part, needed, from, x); }
    }
  }

  lemma NeededIsClosed(g: Graph, roots: seq<string>, needed: set<string>)
    requires IsNeeded(g, roots, needed)
    ensures ClosedUnder(Needs(g.definitions), needed) && Members(roots) <= needed
  {
    hide Reaches, Needs, Defined;
    var next := Needs(g.definitions);
    forall x, y | x in needed && y in next(x) ensures y in needed {
      var a :| a in Members(roots) && Reaches(next, a, x);
      ReachesOn(next, a, x, y);
    }
    forall a | a in Members(roots) ensures a in needed { ReachesItself(next, a); }
  }

  lemma {:induction false} OnceHolds(s: seq<string>)
    ensures (forall x :: x in Once(s) <==> x in s) && forall i, j :: 0 <= i < j < |Once(s)| ==> Once(s)[i] != Once(s)[j]
    decreases |s|
  {
    if s != [] {
      OnceHolds(s[..|s| - 1]);
      assert s == s[..|s| - 1] + [s[|s| - 1]];
    }
  }

  lemma {:induction false} OnceStays(s: seq<string>)
    requires forall i, j :: 0 <= i < j < |s| ==> s[i] != s[j]
    ensures Once(s) == s
    decreases |s|
  {
    if s != [] {
      OnceStays(s[..|s| - 1]);
      assert s == s[..|s| - 1] + [s[|s| - 1]];
    }
  }

  lemma {:induction false} DistinctCounts(s: seq<string>, x: string)
    requires forall i, j :: 0 <= i < j < |s| ==> s[i] != s[j]
    ensures multiset(s)[x] <= 1
    decreases |s|
  {
    if s != [] {
      var n := |s| - 1;
      DistinctCounts(s[..n], x);
      assert s == s[..n] + [s[n]];
      assert s[n] !in multiset(s[..n]);
    }
  }

  lemma SortedOnce(roots: seq<string>)
    ensures var sorted := SortBy(Once(roots), (s: string) => s);
      SortBy(Once(sorted), (s: string) => s) == sorted && forall x :: x in sorted <==> x in roots
  {
    var key := (s: string) => s;
    var once := Once(roots);
    var sorted := SortBy(once, key);
    OnceHolds(roots);
    SortBySorts(once, key);
    SortHolds(once, key);
    forall i, j | 0 <= i < j < |sorted| ensures sorted[i] != sorted[j] {
      DistinctCounts(once, sorted[i]);
      if sorted[i] == sorted[j] { RepeatCounts(sorted, i, j); }
    }
    OnceStays(sorted);
    SortedStays(sorted, key);
  }

  lemma SubgraphIsPart(g: Graph, roots: seq<string>, needed: set<string>)
    requires Consistent(g.definitions) && IsNeeded(g, roots, needed)
    ensures IsPart(g.definitions, Subgraph(g, roots, needed).definitions, needed)
    ensures Members(roots) <= needed && forall x :: x in needed ==> ReachedFrom(g.definitions, Members(roots), x)
  {
    hide Needs, Defined, Consistent, Restrict, SortBy, ReachedFrom, Once;
    NeededIsClosed(g, roots, needed);
    hide ClosedUnder;
    SortHolds(Restrict(g.definitions, needed), IdentityOf());
    forall d { RestrictHolds(g.definitions, needed, d); }
  }

  lemma SubgraphStays(g: Graph, roots: seq<string>, needed: set<string>)
    requires IsPart(g.definitions, Subgraph(g, roots, needed).definitions, needed)
    ensures Subgraph(Subgraph(g, roots, needed), Subgraph(g, roots, needed).roots, needed) == Subgraph(g, roots, needed)
  {
    hide Restrict, SortBy, Once, Sorted;
    var h := Subgraph(g, roots, needed);
    SortedOnce(roots);
    assert forall d :: d in h.definitions ==> d.identity in needed;
    hide IsPart;
    RestrictAll(h.definitions, needed);
    SortBySorts(Restrict(g.definitions, needed), IdentityOf());
    SortedStays(h.definitions, IdentityOf());
  }

  // The dependencies of the dependencies are the dependencies.
  lemma Idempotent(g: Graph, roots: seq<string>, needed: set<string>)
    requires Consistent(g.definitions) && RootsComposite(g, roots) && IsNeeded(g, roots, needed)
    ensures var h := Subgraph(g, roots, needed);
      RootsComposite(h, h.roots) && IsNeeded(h, h.roots, needed) && Subgraph(h, h.roots, needed) == h
  {
    var h := Subgraph(g, roots, needed);
    SubgraphIsPart(g, roots, needed);
    SortedOnce(roots);
    assert h.roots == SortBy(Once(roots), (s: string) => s);
    hide Find, Defined, Consistent, Restrict, Once, SortBy, Subgraph, IsPart, ReachedFrom, RootsComposite;
    assert Members(h.roots) == Members(roots);
    NeededInPart(g.definitions, h.definitions, needed, Members(roots));
    forall i | 0 <= i < |h.roots| ensures Find(h.definitions, h.roots[i]) == Find(g.definitions, h.roots[i]) {
      assert h.roots[i] in roots;
      assert h.roots[i] in Members(roots);
      SameFound(g.definitions, h.definitions, needed, h.roots[i]);
    }
    RootsStay(g, h, roots);
    SubgraphStays(g, roots, needed);
  }

  lemma RootsStay(g: Graph, h: Graph, roots: seq<string>)
    requires RootsComposite(g, roots) && (forall x :: x in h.roots ==> x in roots)
    requires forall i :: 0 <= i < |h.roots| ==> Find(h.definitions, h.roots[i]) == Find(g.definitions, h.roots[i])
    ensures RootsComposite(h, h.roots)
  {
    hide Find;
    forall i | 0 <= i < |h.roots|
      ensures Find(h.definitions, h.roots[i]).Some? && Find(h.definitions, h.roots[i]).value.kind == 'c'
    {
      assert h.roots[i] in roots;
      var k :| 0 <= k < |roots| && roots[k] == h.roots[i];
    }
  }
}
