/** Stored row expressions (src/catalog/stored-row-expressions.ts): PostgreSQL's node trees for column defaults,
    constraints and policies, captured as expressions that no longer depend on a server's object numbers. */
module StoredRow {
  import opened Bytes
  import opened Decimal

  // -- Node trees and what the catalog knows ----------------------------------------------------------------

  datatype Collation = Collation(schema: string, name: string, deterministic: bool)

  datatype Form = FuncExpr | OpExpr | DistinctExpr | NullIfExpr

  // Numbers of types, functions and collations are 0 where a node does not give them; a collation field that
  // is not there at all is None. Codes are kept as the server prints them.
  datatype Node =
    | Var(attno: int, varno: nat, level: nat, typeOid: nat, collation: Option<nat>)
    | Const(typeOid: nat, isnull: bool, byval: bool, length: int, stated: int, data: seq<byte>, collation: Option<nat>)
    | Call(form: Form, callee: nat, typeOid: nat, variadic: bool, format: nat, returnsSet: bool, input: Option<nat>,
           output: Option<nat>, args: seq<Node>)
    | NamedArg(number: Option<int>, arg: Option<Node>)
    | BoolNode(op: string, args: seq<Node>)
    | CoalesceNode(typeOid: nat, collation: Option<nat>, args: seq<Node>)
    | NullTestNode(code: string, row: string, arg: Option<Node>)
    | BooleanTestNode(code: string, arg: Option<Node>)
    | CaseNode(typeOid: nat, collation: Option<nat>, arg: Option<Node>, branches: seq<Branch>, otherwise: Option<Node>)
    | CaseTestNode(typeOid: nat, collation: Option<nat>)
    | OtherNode(resultType: Option<nat>)

  datatype Branch = Branch(condition: Option<Node>, outcome: Option<Node>)

  datatype Column = Column(name: string, typ: nat)

  datatype Callable = Callable(signature: string, args: seq<string>, outcome: string, defaults: Option<seq<Node>>,
                               variadic: Option<string>)

  // A built-in cast: by function 'f', binary 'b' or input and output 'i'.
  datatype CastRule = CastRule(way: char, implementation: string)

  datatype TypeKind = TypeKind(domain: bool, base: nat)

  datatype Catalog = Catalog(
    types: map<nat, string>, boolType: Option<nat>, functions: map<nat, Callable>, order: ByteOrder,
    collations: map<nat, Collation>,
    arrayElements: map<nat, nat>, storage: map<nat, TypeKind>, casts: map<(string, string), CastRule>)

  // Besides the catalog: the columns in reach, the functions whose defaults are being captured, and the type
  // of the value a placeholder stands for.
  datatype Input = Input(
    catalog: Catalog, columns: map<int, Column>, active: set<nat>, arrayElement: Option<nat>, caseOperand: Option<nat>)

  // -- Portable expressions ---------------------------------------------------------------------------------

  datatype BoolOp = And | Or | Not

  datatype TestForm = IsTrue | IsNotTrue | IsFalse | IsNotFalse | IsUnknown | IsNotUnknown

  datatype Expr =
    | Ref(name: string)
    | Literal(typeName: string, text: Option<string>)
    | Invoke(signature: string, args: seq<Expr>, explicit: Option<bool>, input: Option<Collation>,
             output: Option<Collation>, retyped: Option<string>)
    | Cast(arg: Expr, typeName: string, source: string, signature: string)
    | Comparison(distinct: bool, call: Expr, typeName: string)
    | BoolExpr(op: BoolOp, args: seq<Expr>)
    | CoalesceExpr(args: seq<Expr>)
    | NullTest(arg: Expr, isNull: bool, datum: bool)
    | BooleanTest(arg: Expr, form: TestForm)
    | CaseExpr(operand: Option<Expr>, branches: seq<When>, otherwise: Expr)
    | CaseTest
    | Collated(arg: Expr, collation: Collation)

  datatype When = When(condition: Expr, outcome: Expr)

  const ELEMENT := "__pgsid_domain_element"

  // -- Types --------------------------------------------------------------------------------------------------

  function ExpressionType(c: Catalog, node: Node): Option<nat>
  {
    match node
    case BoolNode(_, _) => c.boolType
    case NullTestNode(_, _, _) => c.boolType
    case BooleanTestNode(_, _) => c.boolType
    case NamedArg(_, _) => None
    case OtherNode(resultType) => resultType
    case _ => Some(node.typeOid)
  }

  function Lookup<K, V>(m: map<K, V>, k: K): Option<V> { if k in m then Some(m[k]) else None }

  function TypeName(c: Catalog, oid: nat): Option<string>
  {
    var element := Lookup(c.arrayElements, oid);
    match Lookup(c.types, if element.Some? then element.value else oid)
    case None => None
    case Some(name) => if name == "" then None else Some(if element.Some? then name + "[]" else name)
  }

  // The type below a chain of domains; nothing when the chain leaves the catalog or runs in a circle.
  function BaseType(c: Catalog, oid: nat, seen: set<nat>): Option<nat>
    decreases |c.storage.Keys - seen|
  {
    if oid !in c.storage || oid in seen then None
    else if !c.storage[oid].domain then Some(oid)
    else
      assert c.storage.Keys - (seen + {oid}) < c.storage.Keys - seen by { assert oid in c.storage.Keys - seen; }
      SmallerSet(c.storage.Keys - (seen + {oid}), c.storage.Keys - seen);
      BaseType(c, c.storage[oid].base, seen + {oid})
  }

  lemma SmallerSet<T>(a: set<T>, b: set<T>)
    requires a < b
    ensures |a| < |b|
  {
    assert b == a + (b - a) && b - a != {};
  }

  datatype Chosen = Unreadable | Unset | Named(collation: Collation)

  function Choose(c: Catalog, oid: Option<nat>): Chosen
  {
    if oid.None? then Unreadable
    else if oid.value == 0 then Unset
    else if oid.value in c.collations then Named(c.collations[oid.value]) else Unreadable
  }

  function CollationIn(chosen: Chosen): Option<Collation> { if chosen.Named? then Some(chosen.collation) else None }

  function WithCollation(c: Catalog, e: Option<Expr>, oid: Option<nat>): Option<Expr>
  {
    if e.None? then None
    else match Choose(c, oid)
      case Unreadable => None
      case Unset => e
      case Named(chosen) => Some(Collated(e.value, chosen))
  }

  // -- Argument placement -----------------------------------------------------------------------------------------

  // Where argument `i` of a call goes: a named one where it says, any other where it stands.
  function PositionOf(args: seq<Node>, i: nat): int
    requires i < |args|
  {
    if args[i].NamedArg? then if args[i].number.Some? then args[i].number.value else -1 else i
  }

  function ArgOf(a: Node): Option<Node> { if a.NamedArg? then a.arg else Some(a) }

  // The placing loop, from argument `i` on; `values` holds for each position the argument that took it.
  function PlaceFrom(args: seq<Node>, i: nat, named: bool, values: seq<Option<nat>>): (r: Option<seq<Option<nat>>>)
    requires i <= |args|
    ensures r.Some? ==> |r.value| == |values|
    decreases |args| - i
  {
    if i == |args| then Some(values)
    else
      var position := PositionOf(args, i);
      if (!args[i].NamedArg? && named) || position < 0 || position >= |values| || values[position].Some? ||
          ArgOf(args[i]).None?
      then None
      else PlaceFrom(args, i + 1, named || args[i].NamedArg?, values[position := Some(i)])
  }

  function Place(args: seq<Node>, n: nat): Option<seq<Option<nat>>>
  {
    PlaceFrom(args, 0, false, seq(n, k => None))
  }

  // A named argument supplies the parameter it names, any other the one at its own place.
  predicate Supplies(args: seq<Node>, i: nat, p: nat)
    requires i < |args|
  {
    match args[i] case NamedArg(number, _) => number == Some(p) case _ => i == p
  }

  lemma PositionSupplies(args: seq<Node>, i: nat, p: nat)
    requires i < |args|
    ensures PositionOf(args, i) == p <==> Supplies(args, i, p)
  {
  }

  // The argument that supplies position `p`.
  function Supplier(args: seq<Node>, p: nat, i: nat): (r: Option<nat>)
    requires i <= |args|
    ensures r.Some? ==> i <= r.value < |args| && PositionOf(args, r.value) == p
    ensures r.None? ==> forall k :: i <= k < |args| ==> PositionOf(args, k) != p
    decreases |args| - i
  {
    if i == |args| then None
    else
      PositionSupplies(args, i, p);
      if Supplies(args, i, p) then Some(i) else Supplier(args, p, i + 1)
  }

  predicate WellPlaced(args: seq<Node>, n: nat)
  {
    (forall i :: 0 <= i < |args| ==> 0 <= PositionOf(args, i) < n && ArgOf(args[i]).Some?) &&
    (forall i, j :: 0 <= i < j < |args| ==> PositionOf(args, i) != PositionOf(args, j)) &&
    (forall i, j :: 0 <= i < j < |args| && args[i].NamedArg? ==> args[j].NamedArg?)
  }

  predicate PlacedSoFar(args: seq<Node>, i: nat, named: bool, values: seq<Option<nat>>)
    requires i <= |args|
  {
    (named <==> exists k :: 0 <= k < i && args[k].NamedArg?) &&
    (forall p :: 0 <= p < |values| ==>
      match values[p]
      case None => forall k :: 0 <= k < i ==> PositionOf(args, k) != p
      case Some(k) => k < i && PositionOf(args, k) == p)
  }

  lemma PlaceStep(args: seq<Node>, i: nat, named: bool, values: seq<Option<nat>>)
    requires i < |args| && PlacedSoFar(args, i, named, values)
    requires 0 <= PositionOf(args, i) < |values| && values[PositionOf(args, i)].None?
    ensures PlacedSoFar(args, i + 1, named || args[i].NamedArg?, values[PositionOf(args, i) := Some(i)])
  {
    hide PositionOf;
    var position := PositionOf(args, i);
    var next := values[position := Some(i)];
    forall p | 0 <= p < |next| && next[p].None? ensures forall k :: 0 <= k < i + 1 ==> PositionOf(args, k) != p {
      assert values[p].None?;
    }
  }

  // Placing succeeds exactly when positional arguments come first, no position is taken twice or out of
  // range, and nothing is missing; each position then holds the argument meant for it, or none.
  lemma {:induction false} PlacesFrom(args: seq<Node>, i: nat, named: bool, values: seq<Option<nat>>)
    requires i <= |args| && PlacedSoFar(args, i, named, values)
    ensures WellPlaced(args, |values|) ==> PlaceFrom(args, i, named, values).Some?
    ensures PlaceFrom(args, i, named, values).Some? ==>
      PlacedSoFar(args, |args|, (exists k :: 0 <= k < |args| && args[k].NamedArg?),
                  PlaceFrom(args, i, named, values).value)
    decreases |args| - i
  {
    hide PositionOf;
    if i < |args| {
      var position := PositionOf(args, i);
      if 0 <= position < |values| && values[position].None? {
        PlaceStep(args, i, named, values);
        PlacesFrom(args, i + 1, named || args[i].NamedArg?, values[position := Some(i)]);
      }
    }
  }

  lemma {:induction false} PlacedWell(args: seq<Node>, i: nat, named: bool, values: seq<Option<nat>>)
    requires i <= |args| && PlacedSoFar(args, i, named, values) && PlaceFrom(args, i, named, values).Some?
    ensures forall k :: i <= k < |args| ==> 0 <= PositionOf(args, k) < |values| && ArgOf(args[k]).Some?
    ensures forall j, k :: 0 <= j < k < |args| && i <= k ==>
      PositionOf(args, j) != PositionOf(args, k) && (args[j].NamedArg? ==> args[k].NamedArg?)
    decreases |args| - i
  {
    hide PositionOf, ArgOf;
    if i < |args| {
      var position := PositionOf(args, i);
      PlaceStep(args, i, named, values);
      PlacedWell(args, i + 1, named || args[i].NamedArg?, values[position := Some(i)]);
    }
  }

  lemma PlacesIff(args: seq<Node>, n: nat)
    ensures Place(args, n).Some? <==> WellPlaced(args, n)
    ensures Place(args, n).Some? ==> forall p :: 0 <= p < n ==> Place(args, n).value[p] == Supplier(args, p, 0)
  {
    hide PositionOf, PlaceFrom, WellPlaced;
    var none: seq<Option<nat>> := seq(n, k => None);
    PlacesFrom(args, 0, false, none);
    if Place(args, n).Some? {
      PlacedWell(args, 0, false, none);
      WellPlacedFrom(args, n);
      SuppliersPlaced(args, n, Place(args, n).value);
    }
  }

  lemma WellPlacedFrom(args: seq<Node>, n: nat)
    requires forall k :: 0 <= k < |args| ==> 0 <= PositionOf(args, k) < n && ArgOf(args[k]).Some?
    requires forall j, k :: 0 <= j < k < |args| ==>
      PositionOf(args, j) != PositionOf(args, k) && (args[j].NamedArg? ==> args[k].NamedArg?)
    ensures WellPlaced(args, n)
  {
    hide PositionOf, ArgOf;
  }

  lemma SuppliersPlaced(args: seq<Node>, n: nat, values: seq<Option<nat>>)
    requires WellPlaced(args, n) && |values| == n && exists named :: PlacedSoFar(args, |args|, named, values)
    ensures forall p :: 0 <= p < n ==> values[p] == Supplier(args, p, 0)
  {
    hide PositionOf, ArgOf;
    forall p | 0 <= p < n ensures values[p] == Supplier(args, p, 0) {
      var s := Supplier(args, p, 0);
      if s.Some? && values[p].Some? {
        assert PositionOf(args, s.value) == p && PositionOf(args, values[p].value) == p;
      }
    }
  }

  // -- Meaning of a node tree ---------------------------------------------------------------------------------------

  datatype Datum = Null | Truth(b: bool) | Num(n: int) | Composite(fields: seq<Datum>) | Opaque(id: nat)

  // The collation with that number: none for 0 or no number.
  function CollationAt(c: Catalog, oid: Option<nat>): Option<Collation>
  {
    if oid.Some? && oid.value != 0 && oid.value in c.collations then Some(c.collations[oid.value]) else None
  }

  predicate CollationKnown(c: Catalog, oid: Option<nat>) { oid.Some? && (oid.value == 0 || oid.value in c.collations) }

  // What functions do: on a server they go by number, in a portable expression by signature.
  datatype World = World(
    run: (nat, bool, seq<Datum>, Option<Collation>) -> Datum,
    call: (string, bool, seq<Datum>, Option<Collation>) -> Datum)

  // The row an expression is evaluated on, and the value of the placeholder inside a simple CASE.
  datatype Env = Env(row: map<int, Datum>, placeholder: Option<Datum>)

  // -- What the server's executor does, operand after operand, by PostgreSQL's codes --

  function NotStep(d: Datum): Datum
  {
    if d == Truth(true) then Truth(false) else if d == Truth(false) then Truth(true) else Null
  }

  // AND and OR with what the operands so far came to.
  function AndStep(soFar: Datum, d: Datum): Datum
  {
    if soFar == Truth(false) || d == Truth(false) then Truth(false)
    else if soFar == Truth(true) && d == Truth(true) then Truth(true) else Null
  }

  function OrStep(soFar: Datum, d: Datum): Datum
  {
    if soFar == Truth(true) || d == Truth(true) then Truth(true)
    else if soFar == Truth(false) && d == Truth(false) then Truth(false) else Null
  }

  function AndFrom(soFar: Datum, ds: seq<Datum>): Datum
    decreases |ds|
  {
    if ds == [] then soFar else AndFrom(AndStep(soFar, ds[0]), ds[1..])
  }

  function OrFrom(soFar: Datum, ds: seq<Datum>): Datum
    decreases |ds|
  {
    if ds == [] then soFar else OrFrom(OrStep(soFar, ds[0]), ds[1..])
  }

  function BoolByCode(op: string, ds: seq<Datum>): Option<Datum>
  {
    if ds == [] then None
    else if op == "and" then Some(AndFrom(Truth(true), ds))
    else if op == "or" then Some(OrFrom(Truth(false), ds))
    else if op == "not" then Some(NotStep(ds[0]))
    else None
  }

  // The operands of COALESCE from the i-th one on.
  function CoalesceFrom(ds: seq<Datum>, i: nat): Datum
    requires i <= |ds|
    decreases |ds| - i
  {
    if i == |ds| then Null else if ds[i] == Null then CoalesceFrom(ds, i + 1) else ds[i]
  }

  // IS [NOT] NULL; of a row, when it is asked of its fields.
  function NullByCode(code: string, row: string, d: Datum): Option<Datum>
  {
    if row != "true" && row != "false" then None
    else if code == "0" then
      Some(Truth(if row == "true" && d.Composite? then forall f :: f in d.fields ==> f == Null else d == Null))
    else if code == "1" then
      Some(Truth(if row == "true" && d.Composite? then forall f :: f in d.fields ==> f != Null else d != Null))
    else None
  }

  // The equality function is not asked about nulls.
  function DistinctStep(a: Datum, b: Datum, equal: Datum): Datum
  {
    if a == Null || b == Null then Truth((a == Null) != (b == Null)) else NotStep(equal)
  }

  function NullIfStep(a: Datum, b: Datum, equal: Datum): Datum
  {
    if a == Null || b == Null then a else if equal == Truth(true) then Null else a
  }


  function TestByCode(code: string, d: Datum): Option<Datum>
  {
    if code == "0" then Some(Truth(d == Truth(true)))
    else if code == "1" then Some(Truth(d != Truth(true)))
    else if code == "2" then Some(Truth(d == Truth(false)))
    else if code == "3" then Some(Truth(d != Truth(false)))
    else if code == "4" then Some(Truth(d == Null))
    else if code == "5" then Some(Truth(d != Null))
    else None
  }

  // A number whose bytes run from the least significant one.
  function Positional(b: seq<byte>): nat
  {
    if b == [] then 0 else b[0] + 0x100 * Positional(b[1..])
  }

  function Reversed(b: seq<byte>): (r: seq<byte>)
    ensures |r| == |b|
  {
    if b == [] then [] else Reversed(b[1..]) + [b[0]]
  }

  // The bytes a server stores such values in.
  function Size(name: string): nat
  {
    match name
    case "pg_catalog.bool" => 1
    case "pg_catalog.int2" => 2
    case "pg_catalog.int4" => 4
    case "pg_catalog.int8" => 8
    case _ => 0
  }

  // The bytes of a datum that hold the value, least significant first.
  function LowBytes(order: ByteOrder, data: seq<byte>, width: nat): seq<byte>
    requires width <= |data|
  {
    if order.Little? then data[..width] else Reversed(data[|data| - width..])
  }

  function Power256(n: nat): nat { if n == 0 then 1 else 0x100 * Power256(n - 1) }

  function Integer(order: ByteOrder, data: seq<byte>, width: nat): int
    requires width <= |data|
  {
    Signed(Power256(width), Positional(LowBytes(order, data, width)))
  }

  function ConstValue(c: Catalog, node: Node): Option<Datum>
    requires node.Const?
  {
    if node.isnull then Some(Null)
    else if node.typeOid !in c.types then None
    else
      var width := Size(c.types[node.typeOid]);
      if width == 0 || width > |node.data| then None
      else if width == 1 then Some(Truth(LowBytes(c.order, node.data, 1) != [0]))
      else Some(Num(Integer(c.order, node.data, width)))
  }

  // The parameters of a call: all that are declared, and for a function that takes any number of arguments of any
  // type at least as many as there are arguments, unless they are given as one array.
  function Parameters(f: Callable, node: Node): nat
    requires node.Call?
  {
    if f.variadic != Some("pg_catalog.\"any\"") || (node.form.FuncExpr? && node.variadic) then |f.args|
    else if |f.args| < |node.args| then |node.args|
    else |f.args|
  }

  // The last of `n` parameters have the defaults.
  function TrailingDefault(f: Callable, n: nat, p: nat): Option<Node>
  {
    if f.defaults.Some? && p < n <= p + |f.defaults.value|
    then Some(f.defaults.value[|f.defaults.value| - (n - p)])
    else None
  }

  function Combine(w: World, node: Node, ds: seq<Datum>, collation: Option<Collation>): Option<Datum>
    requires node.Call?
  {
    var r := w.run(node.callee, node.form.FuncExpr? && node.variadic, ds, collation);
    match node.form
    case FuncExpr => Some(r)
    case OpExpr => Some(r)
    case DistinctExpr => if |ds| == 2 then Some(DistinctStep(ds[0], ds[1], r)) else None
    case NullIfExpr => if |ds| == 2 then Some(NullIfStep(ds[0], ds[1], r)) else None
  }

  // The value of a node, when it has one with defaults nested at most `depth` deep.
  function Eval(w: World, c: Catalog, depth: nat, node: Node, env: Env): Option<Datum>
    decreases depth, node, 2
  {
    match node
    case Var(attno, _, _, _, _) => Lookup(env.row, attno)
    case Const(_, _, _, _, _, _, _) => ConstValue(c, node)
    case Call(_, callee, _, _, _, _, input, _, _) =>
      if callee !in c.functions || !CollationKnown(c, input) then None
      else
        (match EvalArgs(w, c, depth, node, env, 0)
         case None => None
         case Some(ds) => Combine(w, node, ds, CollationAt(c, input)))
    case NamedArg(_, _) => None
    case BoolNode(op, args) =>
      (match EvalAll(w, c, depth, args, env) case None => None case Some(ds) => BoolByCode(op, ds))
    case CoalesceNode(_, _, args) =>
      (match EvalAll(w, c, depth, args, env) case None => None case Some(ds) => Some(CoalesceFrom(ds, 0)))
    case NullTestNode(code, row, arg) =>
      if arg.None? then None
      else (match Eval(w, c, depth, arg.value, env) case None => None case Some(d) => NullByCode(code, row, d))
    case BooleanTestNode(code, arg) =>
      if arg.None? then None
      else (match Eval(w, c, depth, arg.value, env) case None => None case Some(d) => TestByCode(code, d))
    case CaseNode(_, _, arg, _, otherwise) =>
      if otherwise.None? then None
      else
        var d := if arg.None? then None else Eval(w, c, depth, arg.value, env);
        if arg.Some? && d.None? then None
        else
          (match EvalBranches(w, c, depth, node, 0, env, if arg.None? then env else env.(placeholder := d))
           case Stuck => None
           case NoneTrue => Eval(w, c, depth, otherwise.value, env)
           case Taken(r) => Some(r))
    case CaseTestNode(_, _) => env.placeholder
    case OtherNode(_) => None
  }

  function EvalAll(w: World, c: Catalog, depth: nat, nodes: seq<Node>, env: Env): Option<seq<Datum>>
    decreases depth, nodes, 0
  {
    if nodes == [] then Some([])
    else match Eval(w, c, depth, nodes[0], env)
      case None => None
      case Some(d) =>
        match EvalAll(w, c, depth, nodes[1..], env) case None => None case Some(ds) => Some([d] + ds)
  }

  datatype Choice = Stuck | NoneTrue | Taken(outcome: Datum)

  // From branch `i` on. Conditions see `inner`, the outcome of the first true one `env`.
  function EvalBranches(w: World, c: Catalog, depth: nat, node: Node, i: nat, env: Env, inner: Env): Choice
    requires node.CaseNode? && i <= |node.branches|
    decreases depth, node, 1, |node.branches| - i
  {
    if i == |node.branches| then NoneTrue
    else match node.branches[i]
      case Branch(Some(condition), Some(outcome)) =>
        (match Eval(w, c, depth, condition, inner)
         case None => Stuck
         case Some(d) =>
           if d != Truth(true) then EvalBranches(w, c, depth, node, i + 1, env, inner)
           else match Eval(w, c, depth, outcome, env) case None => Stuck case Some(r) => Taken(r))
      case _ => Stuck
  }

  // The arguments by position: the one supplied for it, or its default, which sees neither row nor placeholder.
  function EvalArgs(w: World, c: Catalog, depth: nat, node: Node, env: Env, p: nat): Option<seq<Datum>>
    requires node.Call? && node.callee in c.functions && p <= Parameters(c.functions[node.callee], node)
    decreases depth, node, 1, Parameters(c.functions[node.callee], node) - p
  {
    var f := c.functions[node.callee];
    var n := Parameters(f, node);
    if p == n then Some([])
    else
      var supplier := Supplier(node.args, p, 0);
      var d :=
        if supplier.Some? then
          var arg := ArgOf(node.args[supplier.value]);
          if arg.None? then None else Eval(w, c, depth, arg.value, env)
        else if depth == 0 || TrailingDefault(f, n, p).None? then None
        else Eval(w, c, depth - 1, TrailingDefault(f, n, p).value, Env(map[], None));
      if d.None? then None
      else match EvalArgs(w, c, depth, node, env, p + 1) case None => None case Some(ds) => Some([d.value] + ds)
  }

  // -- Meaning of a portable expression ----------------------------------------------------------------------------

  // Three-valued logic.
  function Conjunction(ds: seq<Datum>): Datum
  {
    if Truth(false) in ds then Truth(false) else if forall d :: d in ds ==> d == Truth(true) then Truth(true) else Null
  }

  function Disjunction(ds: seq<Datum>): Datum
  {
    if Truth(true) in ds then Truth(true) else if forall d :: d in ds ==> d == Truth(false) then Truth(false) else Null
  }

  function Negation(d: Datum): Datum { if d.Truth? then Truth(!d.b) else Null }

  function FirstPresent(ds: seq<Datum>): Datum
  {
    if ds == [] then Null else if ds[0] != Null then ds[0] else FirstPresent(ds[1..])
  }

  // IS [NOT] NULL: of the value itself, or of a row's fields.
  function NullCheck(d: Datum, isNull: bool, whole: bool): Datum
  {
    if whole || !d.Composite? then Truth((d == Null) == isNull)
    else if isNull then Truth(forall f :: f in d.fields ==> f == Null)
    else Truth(Null !in d.fields)
  }

  // IS DISTINCT FROM and NULLIF by way of an equality function's answer.
  function Distinct(a: Datum, b: Datum, equal: Datum): Datum
  {
    if a == Null && b == Null then Truth(false)
    else if a == Null || b == Null then Truth(true)
    else Negation(equal)
  }

  function NullIf(a: Datum, b: Datum, equal: Datum): Datum
  {
    if a != Null && b != Null && equal == Truth(true) then Null else a
  }

  datatype Target = Target(named: map<string, Datum>, operand: Option<Datum>)

  function Test(form: TestForm, d: Datum): Datum
  {
    match form
    case IsTrue => Truth(d == Truth(true))
    case IsNotTrue => Truth(d != Truth(true))
    case IsFalse => Truth(d == Truth(false))
    case IsNotFalse => Truth(d != Truth(false))
    case IsUnknown => Truth(d == Null)
    case IsNotUnknown => Truth(d != Null)
  }

  // Reading a typed literal.
  function ReadLiteral(typeName: string, text: string): Datum
  {
    if typeName == "pg_catalog.bool" then Truth(text == "true")
    else if text != "" && text[0] == '-' && AllDigits(text[1..]) then Num(0 - Val(text[1..]))
    else if AllDigits(text) then Num(Val(text))
    else Null
  }

  function Value(w: World, e: Expr, t: Target): Datum
    decreases e, 2
  {
    match e
    case Ref(name) => if name in t.named then t.named[name] else Null
    case Literal(typeName, text) => if text.None? then Null else ReadLiteral(typeName, text.value)
    case Invoke(signature, args, explicit, input, _, _) => w.call(signature, explicit == Some(true),
        Values(w, args, t), input)
    case Cast(arg, _, _, signature) => w.call(signature, false, [Value(w, arg, t)], None)
    case Comparison(distinct, call, _) =>
      if !call.Invoke? || |call.args| != 2 then Null
      else
        var a, b, r := Value(w, call.args[0], t), Value(w, call.args[1], t), Value(w, call, t);
        if distinct then Distinct(a, b, r) else NullIf(a, b, r)
    case BoolExpr(op, args) =>
      var ds := Values(w, args, t);
      if ds == [] then Null else if op.And? then Conjunction(ds) else if op.Or? then Disjunction(ds) else Negation(ds[0])
    case CoalesceExpr(args) => FirstPresent(Values(w, args, t))
    case NullTest(arg, isNull, datum) => NullCheck(Value(w, arg, t), isNull, datum)
    case BooleanTest(arg, form) => Test(form, Value(w, arg, t))
    case CaseExpr(operand, _, otherwise) =>
      var chosen := ChosenBranch(w, e, 0, t,
                                 if operand.None? then t else t.(operand := Some(Value(w, operand.value, t))));
      if chosen.Some? then chosen.value else Value(w, otherwise, t)
    case CaseTest => if t.operand.Some? then t.operand.value else Null
    case Collated(arg, _) => Value(w, arg, t)
  }

  function Values(w: World, es: seq<Expr>, t: Target): (ds: seq<Datum>)
    ensures |ds| == |es|
    decreases es, 2
  {
    if es == [] then [] else [Value(w, es[0], t)] + Values(w, es[1..], t)
  }

  function ChosenBranch(w: World, e: Expr, i: nat, t: Target, inner: Target): Option<Datum>
    requires e.CaseExpr? && i <= |e.branches|
    decreases e, 1, |e.branches| - i
  {
    if i == |e.branches| then None
    else match e.branches[i]
      case When(condition, outcome) =>
        if Value(w, condition, inner) == Truth(true) then Some(Value(w, outcome, t))
        else ChosenBranch(w, e, i + 1, t, inner)
  }

  // -- Capturing ------------------------------------------------------------------------------------------------------

  // Two, four or eight bytes as a signed number.
  function ReadInteger(order: ByteOrder, b: seq<byte>): int
    requires |b| == 2 || |b| == 4 || |b| == 8
  {
    if |b| == 2 then I16(order, b, 0)
    else if |b| == 4 then I32(order, b, 0)
    else
      var low := U32(order, b, if order.Little? then 0 else 4);
      var high := U32(order, b, if order.Little? then 4 else 0);
      Signed(0x1_0000_0000_0000_0000, low + 0x1_0000_0000 * high)
  }

  function Widths(name: string): nat
  {
    if name == "pg_catalog.bool" then 1 else if name == "pg_catalog.int2" then 2
    else if name == "pg_catalog.int4" then 4 else if name == "pg_catalog.int8" then 8 else 0
  }

  lemma WidthsAre(name: string)
    ensures Widths(name) == Size(name)
  {
  }

  function CaptureConst(c: Catalog, node: Node): Option<Expr>
    requires node.Const?
  {
    if node.typeOid !in c.types then None
    else
      var name := c.types[node.typeOid];
      if !("pg_catalog." <= name) then None
      else if node.isnull then
        if name == "pg_catalog.unknown" then Some(Literal(name, None)) else WithConstCollation(c, node,
            Literal(name, None))
      else
        var width := Widths(name);
        if width == 0 || width != node.length || node.stated != width || |node.data| < width ||
           (if node.byval then |node.data| != 4 && |node.data| != 8 else width != 8 || |node.data| != 8) then None
        else
          var b := if c.order.Little? then node.data[..width] else node.data[|node.data| - width..];
          if width == 1 then if b[0] > 1 then None else WithConstCollation(c, node,
              Literal(name, Some(if b[0] == 1 then "true" else "false")))
          else WithConstCollation(c, node, Literal(name, Some(IntText(ReadInteger(c.order, b)))))
  }

  function WithConstCollation(c: Catalog, node: Node, e: Expr): Option<Expr>
    requires node.Const?
  {
    if node.collation.None? then Some(e) else WithCollation(c, Some(e), node.collation)
  }

  // The functions whose defaults may still be entered.
  function Idle(x: Input): nat { |x.catalog.functions.Keys - x.active| }

  function Within(x: Input, callee: nat): Input
  {
    x.(columns := map[], active := x.active + {callee}, arrayElement := None, caseOperand := None)
  }

  lemma FewerIdle(x: Input, callee: nat)
    requires callee in x.catalog.functions && callee !in x.active
    ensures Idle(Within(x, callee)) < Idle(x)
  {
    var before, after := x.catalog.functions.Keys - x.active, x.catalog.functions.Keys - (x.active + {callee});
    assert callee in before && callee !in after;
    SmallerSet(after, before);
  }

  function BoolOpOf(op: string): Option<BoolOp>
  {
    if op == "and" then Some(And) else if op == "or" then Some(Or) else if op == "not" then Some(Not) else None
  }

  function FormOf(code: string): Option<TestForm>
  {
    if code == "0" then Some(IsTrue) else if code == "1" then Some(IsNotTrue)
    else if code == "2" then Some(IsFalse) else if code == "3" then Some(IsNotFalse)
    else if code == "4" then Some(IsUnknown) else if code == "5" then Some(IsNotUnknown)
    else None
  }

  function Arity(f: Callable, node: Node): nat
    requires node.Call?
  {
    if f.variadic == Some("pg_catalog.\"any\"") && !(node.form.FuncExpr? && node.variadic) && |node.args| > |f.args|
    then |node.args| else |f.args|
  }

  // The default for position `p` of `n`: defaults belong to the last positions.
  function DefaultOf(f: Callable, n: nat, p: nat): Option<Node>
  {
    if f.defaults.None? then None
    else
      var k := p - (n - |f.defaults.value|);
      if 0 <= k < |f.defaults.value| then Some(f.defaults.value[k]) else None
  }

  lemma ArityIs(f: Callable, node: Node)
    requires node.Call?
    ensures Arity(f, node) == Parameters(f, node)
  {
  }

  lemma DefaultsTrail(f: Callable, n: nat, p: nat)
    requires p < n
    ensures DefaultOf(f, n, p) == TrailingDefault(f, n, p)
  {
  }

  function Capture(x: Input, node: Node): Option<Expr>
    decreases Idle(x), node, 3
  {
    match node
    case Var(attno, varno, level, typeOid, collation) =>
      if attno !in x.columns || varno != 1 || level != 0 || typeOid != x.columns[attno].typ then None
      else WithCollation(x.catalog, Some(Ref(x.columns[attno].name)), collation)
    case Const(_, _, _, _, _, _, _) => CaptureConst(x.catalog, node)
    case Call(_, callee, _, _, _, _, _, _, args) =>
      if callee !in x.catalog.functions then None
      else
        var placed := Place(args, Arity(x.catalog.functions[callee], node));
        if placed.None? then None
        else
          (match CaptureArgs(x, node, placed.value, 0)
           case None => None
           case Some(es) => Assembled(x.catalog, node, es))
    case NamedArg(_, _) => None
    case BoolNode(op, args) =>
      (match CaptureAll(x, args)
       case None => None
       case Some(es) => if BoolOpOf(op).None? || es == [] then None else Some(BoolExpr(BoolOpOf(op).value, es)))
    case CoalesceNode(_, collation, args) =>
      (match CaptureAll(x, args)
       case None => None
       case Some(es) => if es == [] then None else WithCollation(x.catalog, Some(CoalesceExpr(es)), collation))
    case NullTestNode(code, row, arg) =>
      if arg.None? || (code != "0" && code != "1") || (row != "true" && row != "false") then None
      else (match Capture(x,
                          arg.value) case None => None case Some(e) => Some(NullTest(e, code == "0", row == "false")))
    case BooleanTestNode(code, arg) =>
      if arg.None? || FormOf(code).None? then None
      else (match Capture(x, arg.value) case None => None case Some(e) => Some(BooleanTest(e, FormOf(code).value)))
    case CaseNode(_, collation, arg, _, otherwise) =>
      var operandType := if arg.None? then None else ExpressionType(x.catalog, arg.value);
      if otherwise.None? || (arg.Some? && operandType.None?) then None
      else
        var operand := if arg.None? then None else Capture(x, arg.value);
        var last := Capture(x, otherwise.value);
        var branches := CaptureBranches(x, if arg.None? then x else x.(caseOperand := operandType), node, 0);
        if (arg.Some? && operand.None?) || last.None? || branches.None? then None
        else WithCollation(x.catalog, Some(CaseExpr(operand, branches.value, last.value)), collation)
    case CaseTestNode(typeOid, collation) =>
      if x.caseOperand.Some? then
        if typeOid == x.caseOperand.value then WithCollation(x.catalog, Some(CaseTest), collation) else None
      else if x.arrayElement == Some(typeOid) then WithCollation(x.catalog, Some(Ref(ELEMENT)), collation)
      else None
    case OtherNode(_) => None
  }

  function CaptureAll(x: Input, nodes: seq<Node>): (r: Option<seq<Expr>>)
    ensures r.Some? ==> |r.value| == |nodes|
    decreases Idle(x), nodes, 0
  {
    if nodes == [] then Some([])
    else
      var e := Capture(x, nodes[0]);
      var rest := CaptureAll(x, nodes[1..]);
      if e.None? || rest.None? then None else Some([e.value] + rest.value)
  }

  // Conditions are captured with `inner`, which only differs in what the placeholder stands for.
  function CaptureBranches(x: Input, inner: Input, node: Node, i: nat): Option<seq<When>>
    requires node.CaseNode? && i <= |node.branches| && Idle(inner) == Idle(x)
    decreases Idle(x), node, 2, |node.branches| - i
  {
    if i == |node.branches| then Some([])
    else match node.branches[i]
      case Branch(Some(condition), Some(outcome)) =>
        var a, b := Capture(inner, condition), Capture(x, outcome);
        var rest := CaptureBranches(x, inner, node, i + 1);
        if a.None? || b.None? || rest.None? then None else Some([When(a.value, b.value)] + rest.value)
      case _ => None
  }

  // The argument placed at position `p`, or the default it was left out for.
  function CaptureArg(x: Input, node: Node, placed: seq<Option<nat>>, p: nat): Option<Expr>
    requires node.Call? && node.callee in x.catalog.functions && p < |placed|
    decreases Idle(x), node, 1
  {
    var f := x.catalog.functions[node.callee];
    if placed[p].Some? then
      if placed[p].value >= |node.args| then None
      else match ArgOf(node.args[placed[p].value]) case None => None case Some(arg) => Capture(x, arg)
    else if node.callee in x.active || DefaultOf(f, |placed|, p).None? then None
    else
      FewerIdle(x, node.callee);
      Capture(Within(x, node.callee), DefaultOf(f, |placed|, p).value)
  }

  function CaptureArgs(x: Input, node: Node, placed: seq<Option<nat>>, p: nat): (r: Option<seq<Expr>>)
    requires node.Call? && node.callee in x.catalog.functions && p <= |placed|
    ensures r.Some? ==> |r.value| == |placed| - p
    decreases Idle(x), node, 2, |placed| - p
  {
    if p == |placed| then Some([])
    else
      var e := CaptureArg(x, node, placed, p);
      var rest := CaptureArgs(x, node, placed, p + 1);
      if e.None? || rest.None? then None else Some([e.value] + rest.value)
  }

  predicate Polymorphic(name: string)
  {
    name in {"pg_catalog.anyenum", "pg_catalog.anyarray", "pg_catalog.anyelement", "pg_catalog.anyrange",
             "pg_catalog.anymultirange", "pg_catalog.anycompatible", "pg_catalog.anycompatiblearray"}
  }

  predicate IsRecordArray(c: Catalog, arg: Node)
  {
    ExpressionType(c, arg).Some? && TypeName(c, ExpressionType(c, arg).value) == Some("pg_catalog.record[]")
  }

  // The built-in cast a one-argument call performs, if it does.
  function Conversion(c: Catalog, f: Callable, outcome: string): Option<CastRule>
  {
    if |f.args| == 1 then Lookup(c.casts, (f.args[0], outcome)) else None
  }

  predicate ByFunction(f: Callable, rule: Option<CastRule>)
  {
    rule.Some? && rule.value.way == 'f' && rule.value.implementation == f.signature
  }

  function OutputType(c: Catalog, typeOid: nat): Option<string>
  {
    if typeOid in c.arrayElements then
      match Lookup(c.types,
                   c.arrayElements[typeOid]) case None => None case Some(n) => if n == "" then None else Some(n + "[]")
    else Lookup(c.types, typeOid)
  }

  // The name of the type a cast reads: the argument's own when the same function casts from it too.
  function CastSource(c: Catalog, node: Node, f: Callable, outcome: string): string
    requires node.Call? && |f.args| == 1
  {
    var typ := if node.args == [] then None else ExpressionType(c, node.args[0]);
    var base := if typ.None? then None else BaseType(c, typ.value, {});
    var name := if base.None? then None else TypeName(c, base.value);
    var rule := if name.None? then None else Lookup(c.casts, (name.value, outcome));
    if rule.Some? && rule.value.implementation == f.signature then name.value else f.args[0]
  }

  function Assembled(c: Catalog, node: Node, args: seq<Expr>): Option<Expr>
    requires node.Call? && node.callee in c.functions
  {
    var f := c.functions[node.callee];
    var outcome, outputType := Lookup(c.types, node.typeOid), OutputType(c, node.typeOid);
    var special := node.form.DistinctExpr? || node.form.NullIfExpr?;
    var explicit := node.form.FuncExpr? && node.variadic;
    if outcome.None? || outcome.value == "" || outputType.None? || outputType.value == "" then None
    else
      var rule := Conversion(c, f, outcome.value);
      var relabels := node.form.FuncExpr? && (node.format == 1 || node.format == 2) && ByFunction(f, rule) &&
        var back := Lookup(c.casts, (f.outcome, outcome.value)); back.Some? && back.value.way == 'b';
      if (explicit && exists i :: 0 <= i < |node.args| && IsRecordArray(c, node.args[i])) ||
         Choose(c, node.input).Unreadable? || Choose(c, node.output).Unreadable? || node.returnsSet ||
         (if special then f.outcome != "pg_catalog.bool" || |args| != 2
          else outcome.value != f.outcome && !relabels && !Polymorphic(f.outcome))
      then None
      else if ByFunction(f, rule) then
        if args == [] then None
        else WithCollation(c, Some(Cast(args[0], outcome.value, CastSource(c, node, f, outcome.value), f.signature)),
                           node.output)
      else
        var call := Invoke(
          f.signature, args, if f.variadic.Some? then Some(explicit) else None, CollationIn(Choose(c, node.input)),
          if special then None else CollationIn(Choose(c, node.output)),
          if !special && outcome.value != f.outcome then outputType else None);
        if special then WithCollation(c, Some(Comparison(node.form.DistinctExpr?, call, outputType.value)), node.output)
        else Some(call)
  }

  // -- Constants ----------------------------------------------------------------------------------------------------

  lemma IntTextValue(name: string, v: int)
    requires name != "pg_catalog.bool"
    ensures ReadLiteral(name, IntText(v)) == Num(v)
  {
    if v < 0 {
      NatTextValue(0 - v);
      assert IntText(v)[1..] == NatText(0 - v);
    } else {
      NatTextValue(v);
      assert IsDigit(NatText(v)[0]);
    }
  }

  lemma Positional2(b: seq<byte>)
    requires |b| == 2
    ensures Positional(b) == Join2(b[0], b[1])
  {
    assert b[1..] == [b[1]] && [b[1]][1..] == [];
    assert Positional([b[1]]) == b[1];
  }

  lemma {:induction false} PositionalSplit(b: seq<byte>, k: nat)
    requires k <= |b|
    ensures Positional(b) == Positional(b[..k]) + Power256(k) * Positional(b[k..])
    decreases k
  {
    if k == 0 {
      assert b[0..] == b && b[..0] == [];
    } else {
      PositionalSplit(b[1..], k - 1);
      assert b[..k][1..] == b[1..][..k - 1] && b[k..] == b[1..][k - 1..];
      var rest := Positional(b[k..]);
      assert 0x100 * (Power256(k - 1) * rest) == (0x100 * Power256(k - 1)) * rest;
    }
  }

  lemma Powers()
    ensures Power256(2) == 0x1_0000 && Power256(4) == 0x1_0000_0000 && Power256(8) == 0x1_0000_0000_0000_0000
  {
    assert Power256(1) == 0x100;
    assert Power256(3) == 0x100_0000;
    assert Power256(5) == 0x100_0000_0000;
    assert Power256(6) == 0x1_0000_0000_0000;
    assert Power256(7) == 0x100_0000_0000_0000;
  }

  lemma Positional4(b: seq<byte>)
    requires |b| == 4
    ensures Positional(b) == Join4(b[0], b[1], b[2], b[3])
  {
    PositionalSplit(b, 2);
    Powers();
    Positional2(b[..2]);
    Positional2(b[2..]);
  }

  lemma Positional8(b: seq<byte>)
    requires |b| == 8
    ensures Positional(b) == Join4(b[0], b[1], b[2], b[3]) + 0x1_0000_0000 * Join4(b[4], b[5], b[6], b[7])
  {
    PositionalSplit(b, 4);
    Powers();
    Positional4(b[..4]);
    Positional4(b[4..]);
  }

  lemma {:induction false} ReversedAt(b: seq<byte>, k: nat)
    requires k < |b|
    ensures Reversed(b)[k] == b[|b| - 1 - k]
    decreases |b|
  {
    if k < |b| - 1 { ReversedAt(b[1..], k); }
  }

  // The fixed-width reads agree with the positional value of the bytes.
  lemma ReadsInteger(order: ByteOrder, b: seq<byte>)
    requires |b| == 2 || |b| == 4 || |b| == 8
    ensures ReadInteger(order, b) == Signed(Power256(|b|), Positional(if order.Little? then b else Reversed(b)))
  {
    var low := if order.Little? then b else Reversed(b);
    forall k | 0 <= k < |b| ensures low[k] == if order.Little? then b[k] else b[|b| - 1 - k] {
      if order.Big? { ReversedAt(b, k); }
    }
    Powers();
    hide Power256, Positional, Reversed;
    if |b| == 2 { Positional2(low); } else if |b| == 4 { Positional4(low); } else { Positional8(low); }
  }

  lemma CollatedValue(w: World, c: Catalog, e: Expr, oid: Option<nat>, t: Target)
    requires WithCollation(c, Some(e), oid).Some?
    ensures Value(w, WithCollation(c, Some(e), oid).value, t) == Value(w, e, t)
  {
  }

  lemma ConstCollated(w: World, c: Catalog, node: Node, e: Expr, t: Target)
    requires node.Const? && WithConstCollation(c, node, e).Some?
    ensures Value(w, WithConstCollation(c, node, e).value, t) == Value(w, e, t)
  {
    hide Value, WithCollation;
    if node.collation.Some? { CollatedValue(w, c, e, node.collation, t); }
  }

  lemma LiteralValue(w: World, name: string, text: Option<string>, t: Target)
    ensures Value(w, Literal(name, text), t) == if text.None? then Null else ReadLiteral(name, text.value)
  {
    hide ReadLiteral;
  }

  lemma PreservesConst(w: World, c: Catalog, node: Node, t: Target)
    requires node.Const? && CaptureConst(c, node).Some?
    ensures ConstValue(c, node) == Some(Value(w, CaptureConst(c, node).value, t))
  {
    hide Value, WithConstCollation, IntText, ReadInteger, Positional, Power256, Reversed, Signed, ReadLiteral;
    var name := c.types[node.typeOid];
    WidthsAre(name);
    if node.isnull {
      LiteralValue(w, name, None, t);
      if name != "pg_catalog.unknown" { ConstCollated(w, c, node, Literal(name, None), t); }
    } else {
      var width := Widths(name);
      var b := if c.order.Little? then node.data[..width] else node.data[|node.data| - width..];
      if width == 1 {
        var e := Literal(name, Some(if b[0] == 1 then "true" else "false"));
        BoolLiteral(w, c, node, name, b, t);
        ConstCollated(w, c, node, e, t);
      } else {
        var e := Literal(name, Some(IntText(ReadInteger(c.order, b))));
        ReadsInteger(c.order, b);
        IntTextValue(name, ReadInteger(c.order, b));
        LiteralValue(w, name, e.text, t);
        ConstCollated(w, c, node, e, t);
      }
    }
  }

  lemma BoolLiteral(w: World, c: Catalog, node: Node, name: string, b: seq<byte>, t: Target)
    requires node.Const? && |b| == 1 && |node.data| >= 1 && b[0] <= 1 && name == "pg_catalog.bool"
    requires b == if c.order.Little? then node.data[..1] else node.data[|node.data| - 1..]
    ensures Value(w, Literal(name, Some(if b[0] == 1 then "true" else "false")),
                  t) == Truth(LowBytes(c.order, node.data, 1) != [0])
  {
    assert Reversed([b[0]]) == [b[0]] by { assert [b[0]][1..] == []; }
    assert b == [b[0]];
    assert LowBytes(c.order, node.data, 1) == [b[0]];
    assert "true" != "false" by { assert |"true"| != |"false"|; }
  }

  // -- Meaning is preserved -----------------------------------------------------------------------------------------

  // Signatures name the functions they were read from, and built-in casts look at nothing but their argument.
  ghost predicate WorldAgrees(w: World, c: Catalog)
  {
    (forall oid, explicit, ds, collation :: oid in c.functions ==>
      w.run(oid, explicit, ds, collation) ==
      w.call(c.functions[oid].signature, explicit && c.functions[oid].variadic.Some?, ds, collation)) &&
    (forall pair, explicit, d, collation :: pair in c.casts && c.casts[pair].way == 'f' ==>
      w.call(c.casts[pair].implementation, explicit, [d], collation) == w.call(c.casts[pair].implementation, false,
          [d], None))
  }

  // The target row holds the same values by name, and the placeholder stands for the same value.
  ghost predicate EnvAgrees(x: Input, env: Env, t: Target)
  {
    (forall attno :: attno in x.columns ==>
      attno in env.row && x.columns[attno].name in t.named && t.named[x.columns[attno].name] == env.row[attno]) &&
    (x.caseOperand.Some? ==> env.placeholder.Some? && t.operand == env.placeholder) &&
    (x.caseOperand.None? && x.arrayElement.Some? ==>
      env.placeholder.Some? && ELEMENT in t.named && t.named[ELEMENT] == env.placeholder.value)
  }

  lemma RunByNumber(w: World, c: Catalog, oid: nat, explicit: bool, ds: seq<Datum>, collation: Option<Collation>)
    requires WorldAgrees(w, c) && oid in c.functions
    ensures w.run(oid, explicit, ds, collation) ==
            w.call(c.functions[oid].signature, explicit && c.functions[oid].variadic.Some?, ds, collation)
  {
  }

  lemma CastsPlainly(w: World, c: Catalog, f: Callable, outcome: string, explicit: bool, d: Datum,
      collation: Option<Collation>)
    requires WorldAgrees(w, c) && ByFunction(f, Conversion(c, f, outcome))
    ensures w.call(f.signature, explicit, [d], collation) == w.call(f.signature, false, [d], None)
  {
    assert (f.args[0], outcome) in c.casts;
  }

  lemma InvokeValue(w: World, e: Expr, t: Target)
    requires e.Invoke?
    ensures Value(w, e, t) == w.call(e.signature, e.explicit == Some(true), Values(w, e.args, t), e.input)
  {
    hide Values;
  }

  lemma CastValue(w: World, arg: Expr, typeName: string, source: string, signature: string, t: Target)
    ensures Value(w, Cast(arg, typeName, source, signature), t) == w.call(signature, false, [Value(w, arg, t)], None)
  {
    hide Values;
  }

  lemma ComparisonValue(w: World, distinct: bool, call: Expr, typeName: string, t: Target)
    requires call.Invoke? && |call.args| == 2
    ensures Values(w, call.args, t) == [Value(w, call.args[0], t), Value(w, call.args[1], t)]
    ensures Value(w, Comparison(distinct, call, typeName), t) ==
      if distinct then Distinct(Value(w, call.args[0], t), Value(w, call.args[1], t), Value(w, call, t))
      else NullIf(Value(w, call.args[0], t), Value(w, call.args[1], t), Value(w, call, t))
  {
    hide Distinct, NullIf;
    assert call.args[1..][1..] == [];
    assert Values(w, call.args[1..], t) == [Value(w, call.args[1], t)] + Values(w, [], t);
  }

  lemma OneValue(w: World, es: seq<Expr>, t: Target)
    requires |es| == 1
    ensures Values(w, es, t) == [Value(w, es[0], t)]
  {
    hide Value;
    assert es[1..] == [];
  }

  // -- The executor's steps come to the operators' meaning --

  lemma {:induction false} AndIs(soFar: Datum, ds: seq<Datum>)
    requires soFar == Null || soFar.Truth?
    ensures AndFrom(soFar, ds) == AndStep(soFar, Conjunction(ds))
    decreases |ds|
  {
    hide Conjunction;
    if ds == [] {
      ConjunctionOf(ds);
    } else {
      AndIs(AndStep(soFar, ds[0]), ds[1..]);
      ConjunctionOf(ds);
    }
  }

  lemma ConjunctionOf(ds: seq<Datum>)
    ensures Conjunction(ds) == Null || Conjunction(ds).Truth?
    ensures Conjunction(ds) == if ds == [] then Truth(true) else AndStep(ds[0], Conjunction(ds[1..]))
  {
    if ds != [] {
      var rest := ds[1..];
      assert ds == [ds[0]] + rest;
      assert Truth(false) in ds <==> ds[0] == Truth(false) || Truth(false) in rest;
      if (forall d :: d in rest ==> d == Truth(true)) && ds[0] == Truth(true) {
        forall d | d in ds ensures d == Truth(true) { assert d == ds[0] || d in rest; }
      }
      if forall d :: d in ds ==> d == Truth(true) {
        assert ds[0] in ds;
        forall d | d in rest ensures d == Truth(true) { assert d in ds; }
      }
    }
  }

  lemma {:induction false} OrIs(soFar: Datum, ds: seq<Datum>)
    requires soFar == Null || soFar.Truth?
    ensures OrFrom(soFar, ds) == OrStep(soFar, Disjunction(ds))
    decreases |ds|
  {
    hide Disjunction;
    if ds == [] {
      DisjunctionOf(ds);
    } else {
      OrIs(OrStep(soFar, ds[0]), ds[1..]);
      DisjunctionOf(ds);
    }
  }

  lemma DisjunctionOf(ds: seq<Datum>)
    ensures Disjunction(ds) == Null || Disjunction(ds).Truth?
    ensures Disjunction(ds) == if ds == [] then Truth(false) else OrStep(ds[0], Disjunction(ds[1..]))
  {
    if ds != [] {
      var rest := ds[1..];
      assert ds == [ds[0]] + rest;
      assert Truth(true) in ds <==> ds[0] == Truth(true) || Truth(true) in rest;
      if (forall d :: d in rest ==> d == Truth(false)) && ds[0] == Truth(false) {
        forall d | d in ds ensures d == Truth(false) { assert d == ds[0] || d in rest; }
      }
      if forall d :: d in ds ==> d == Truth(false) {
        assert ds[0] in ds;
        forall d | d in rest ensures d == Truth(false) { assert d in ds; }
      }
    }
  }

  lemma BoolMeans(op: string, ds: seq<Datum>)
    requires ds != [] && BoolOpOf(op).Some?
    ensures BoolByCode(op, ds) == Some(match BoolOpOf(op).value
      case And => Conjunction(ds) case Or => Disjunction(ds) case Not => Negation(ds[0]))
  {
    hide AndFrom, OrFrom;
    AndIs(Truth(true), ds);
    OrIs(Truth(false), ds);
  }

  lemma {:induction false} CoalesceIs(ds: seq<Datum>, i: nat)
    requires i <= |ds|
    ensures CoalesceFrom(ds, i) == FirstPresent(ds[i..])
    decreases |ds| - i
  {
    if i < |ds| {
      CoalesceIs(ds, i + 1);
      assert ds[i..][0] == ds[i] && ds[i..][1..] == ds[i + 1..];
    }
  }

  lemma NullMeans(code: string, row: string, d: Datum)
    requires (code == "0" || code == "1") && (row == "true" || row == "false")
    ensures NullByCode(code, row, d) == Some(NullCheck(d, code == "0", row == "false"))
  {
  }

  lemma DistinctMeans(a: Datum, b: Datum, equal: Datum)
    ensures DistinctStep(a, b, equal) == Distinct(a, b, equal) && NullIfStep(a, b, equal) == NullIf(a, b, equal)
  {
  }

  // What a call is assembled from is what it means.
  lemma AssembledValue(w: World, c: Catalog, node: Node, es: seq<Expr>, t: Target)
    requires WorldAgrees(w, c) && node.Call? && node.callee in c.functions && Assembled(c, node, es).Some?
    requires |es| == Arity(c.functions[node.callee], node)
    requires PlainCasts(c)
    ensures Combine(w, node, Values(w, es, t),
                    CollationIn(Choose(c, node.input))) == Some(Value(w, Assembled(c, node, es).value, t))
  {
    hide WorldAgrees, Value, Values, WithCollation, CastSource, Distinct, NullIf, DistinctStep, NullIfStep, Polymorphic,
      IsRecordArray, OutputType;
    var f := c.functions[node.callee];
    var explicit := node.form.FuncExpr? && node.variadic;
    var collation := CollationIn(Choose(c, node.input));
    var outcome := Lookup(c.types, node.typeOid).value;
    RunByNumber(w, c, node.callee, explicit, Values(w, es, t), collation);
    if ByFunction(f, Conversion(c, f, outcome)) {
      CastHasOneArgument(c, f, outcome, node);
      var e := Cast(es[0], outcome, CastSource(c, node, f, outcome), f.signature);
      OneValue(w, es, t);
      CastsPlainly(w, c, f, outcome, explicit && f.variadic.Some?, Value(w, es[0], t), collation);
      CastValue(w, es[0], outcome, e.source, f.signature, t);
      CollatedValue(w, c, e, node.output, t);
    } else if node.form.DistinctExpr? || node.form.NullIfExpr? {
      var call := Invoke(f.signature, es, if f.variadic.Some? then Some(explicit) else None, collation, None, None);
      var e := Comparison(node.form.DistinctExpr?, call, OutputType(c, node.typeOid).value);
      InvokeValue(w, call, t);
      DistinctMeans(Value(w, es[0], t), Value(w, es[1], t), Value(w, call, t));
      ComparisonValue(w, node.form.DistinctExpr?, call, e.typeName, t);
      CollatedValue(w, c, e, node.output, t);
    } else {
      InvokeValue(w, Assembled(c, node, es).value, t);
    }
  }

  // A built-in cast is an ordinary function of one argument: not variadic, and no comparison.
  predicate PlainCasts(c: Catalog)
  {
    forall oid :: oid in c.functions && |c.functions[oid].args| == 1 && IsCast(c, c.functions[oid].signature) ==>
      c.functions[oid].variadic.None?
  }

  predicate IsCast(c: Catalog, signature: string)
  {
    exists pair :: pair in c.casts && c.casts[pair].way == 'f' && c.casts[pair].implementation == signature
  }

  lemma CastHasOneArgument(c: Catalog, f: Callable, outcome: string, node: Node)
    requires PlainCasts(c) && node.Call? && node.callee in c.functions && c.functions[node.callee] == f
    requires ByFunction(f, Conversion(c, f, outcome))
    ensures Arity(f, node) == 1
    ensures f.variadic.None?
  {
    assert (f.args[0], outcome) in c.casts;
    assert IsCast(c, f.signature);
  }

  // -- The induction --

  lemma ValuesCons(w: World, e: Expr, es: seq<Expr>, t: Target)
    ensures Values(w, [e] + es, t) == [Value(w, e, t)] + Values(w, es, t)
  {
    hide Value;
    assert ([e] + es)[1..] == es;
  }

  lemma {:induction false} Preserves(w: World, x: Input, depth: nat, node: Node, env: Env, t: Target)
    requires WorldAgrees(w, x.catalog) && PlainCasts(x.catalog) && EnvAgrees(x, env, t) && depth >= Idle(x)
    requires Capture(x, node).Some?
    ensures Eval(w, x.catalog, depth, node, env) == Some(Value(w, Capture(x, node).value, t))
    decreases Idle(x), node, 3
  {
    hide WorldAgrees, PlainCasts, EnvAgrees, Idle, Capture, Eval, Value;
    match node
    case Var(_, _, _, _, _) => PreservesVar(w, x, depth, node, env, t);
    case Const(_, _, _, _, _, _, _) =>
      ConstCase(w, x, depth, node, env);
      PreservesConst(w, x.catalog, node, t);
    case Call(_, _, _, _, _, _, _, _, _) => PreservesCall(w, x, depth, node, env, t);
    case NamedArg(_, _) => NoExpression(x, node);
    case BoolNode(_, args) =>
      ListDefined(x, node);
      PreservesAll(w, x, depth, args, env, t);
      BoolCase(w, x, depth, node, env, t);
    case CoalesceNode(_, _, args) =>
      ListDefined(x, node);
      PreservesAll(w, x, depth, args, env, t);
      CoalesceCase(w, x, depth, node, env, t);
    case NullTestNode(_, _, arg) =>
      TestDefined(x, node);
      Preserves(w, x, depth, arg.value, env, t);
      NullTestCase(w, x, depth, node, env, t);
    case BooleanTestNode(_, arg) =>
      TestDefined(x, node);
      Preserves(w, x, depth, arg.value, env, t);
      BooleanTestCase(w, x, depth, node, env, t);
    case CaseNode(_, _, _, _, _) => PreservesCase(w, x, depth, node, env, t);
    case CaseTestNode(_, _) => PreservesPlaceholder(w, x, depth, node, env, t);
    case OtherNode(_) => NoExpression(x, node);
  }

  lemma NoExpression(x: Input, node: Node)
    requires node.NamedArg? || node.OtherNode?
    ensures Capture(x, node).None?
  {
  }

  lemma PreservesVar(w: World, x: Input, depth: nat, node: Node, env: Env, t: Target)
    requires node.Var? && EnvAgrees(x, env, t) && Capture(x, node).Some?
    ensures Eval(w, x.catalog, depth, node, env) == Some(Value(w, Capture(x, node).value, t))
  {
    hide WithCollation;
    CollatedValue(w, x.catalog, Ref(x.columns[node.attno].name), node.collation, t);
  }

  lemma ConstCase(w: World, x: Input, depth: nat, node: Node, env: Env)
    requires node.Const?
    ensures Capture(x, node) == CaptureConst(x.catalog, node)
    ensures Eval(w, x.catalog, depth, node, env) == ConstValue(x.catalog, node)
  {
    hide CaptureConst, ConstValue;
  }

  lemma PreservesPlaceholder(w: World, x: Input, depth: nat, node: Node, env: Env, t: Target)
    requires node.CaseTestNode? && EnvAgrees(x, env, t) && Capture(x, node).Some?
    ensures Eval(w, x.catalog, depth, node, env) == Some(Value(w, Capture(x, node).value, t))
  {
    hide WithCollation;
    CollatedValue(w, x.catalog, if x.caseOperand.Some? then CaseTest else Ref(ELEMENT), node.collation, t);
  }

  lemma ListDefined(x: Input, node: Node)
    requires (node.BoolNode? || node.CoalesceNode?) && Capture(x, node).Some?
    ensures CaptureAll(x, node.args).Some? && CaptureAll(x, node.args).value != []
  {
    hide CaptureAll, WithCollation, BoolOpOf;
  }

  lemma TestDefined(x: Input, node: Node)
    requires (node.NullTestNode? || node.BooleanTestNode?) && Capture(x, node).Some?
    ensures node.arg.Some? && Capture(x, node.arg.value).Some?
  {
    hide FormOf;
  }

  lemma {:induction false} PreservesAll(w: World, x: Input, depth: nat, nodes: seq<Node>, env: Env, t: Target)
    requires WorldAgrees(w, x.catalog) && PlainCasts(x.catalog) && EnvAgrees(x, env, t) && depth >= Idle(x)
    requires CaptureAll(x, nodes).Some?
    ensures EvalAll(w, x.catalog, depth, nodes, env) == Some(Values(w, CaptureAll(x, nodes).value, t))
    decreases Idle(x), nodes, 0
  {
    hide WorldAgrees, PlainCasts, EnvAgrees, Idle, Capture, Eval, Value;
    if nodes != [] {
      Preserves(w, x, depth, nodes[0], env, t);
      PreservesAll(w, x, depth, nodes[1..], env, t);
      ValuesCons(w, Capture(x, nodes[0]).value, CaptureAll(x, nodes[1..]).value, t);
    }
  }

  lemma BoolCase(w: World, x: Input, depth: nat, node: Node, env: Env, t: Target)
    requires node.BoolNode? && Capture(x, node).Some? && CaptureAll(x, node.args).Some?
    requires EvalAll(w, x.catalog, depth, node.args, env) == Some(Values(w, CaptureAll(x, node.args).value, t))
    ensures Eval(w, x.catalog, depth, node, env) == Some(Value(w, Capture(x, node).value, t))
  {
    hide CaptureAll, EvalAll, Values, Conjunction, Disjunction, Negation, BoolByCode;
    if BoolOpOf(node.op).Some? && CaptureAll(x, node.args).value != [] {
      BoolMeans(node.op, Values(w, CaptureAll(x, node.args).value, t));
    }
  }

  lemma CoalesceCase(w: World, x: Input, depth: nat, node: Node, env: Env, t: Target)
    requires node.CoalesceNode? && Capture(x, node).Some? && CaptureAll(x, node.args).Some?
    requires EvalAll(w, x.catalog, depth, node.args, env) == Some(Values(w, CaptureAll(x, node.args).value, t))
    ensures Eval(w, x.catalog, depth, node, env) == Some(Value(w, Capture(x, node).value, t))
  {
    hide CaptureAll, EvalAll, Values, FirstPresent, CoalesceFrom, WithCollation;
    var ds := Values(w, CaptureAll(x, node.args).value, t);
    CoalesceIs(ds, 0);
    assert ds[0..] == ds;
    CollatedValue(w, x.catalog, CoalesceExpr(CaptureAll(x, node.args).value), node.collation, t);
  }

  lemma NullTestCase(w: World, x: Input, depth: nat, node: Node, env: Env, t: Target)
    requires node.NullTestNode? && Capture(x, node).Some? && node.arg.Some? && Capture(x, node.arg.value).Some?
    requires Eval(w, x.catalog, depth, node.arg.value, env) == Some(Value(w, Capture(x, node.arg.value).value, t))
    ensures Eval(w, x.catalog, depth, node, env) == Some(Value(w, Capture(x, node).value, t))
  {
    hide NullCheck, NullByCode;
    NullMeans(node.code, node.row, Value(w, Capture(x, node.arg.value).value, t));
  }

  lemma BooleanTestCase(w: World, x: Input, depth: nat, node: Node, env: Env, t: Target)
    requires node.BooleanTestNode? && Capture(x, node).Some? && node.arg.Some? && Capture(x, node.arg.value).Some?
    requires Eval(w, x.catalog, depth, node.arg.value, env) == Some(Value(w, Capture(x, node.arg.value).value, t))
    ensures Eval(w, x.catalog, depth, node, env) == Some(Value(w, Capture(x, node).value, t))
  {
    FormMeans(node.code, Value(w, Capture(x, node.arg.value).value, t));
    hide TestByCode, FormOf, Test;
  }

  lemma FormMeans(code: string, d: Datum)
    requires FormOf(code).Some?
    ensures TestByCode(code, d) == Some(Test(FormOf(code).value, d))
  {
  }

  // -- Calls --

  lemma {:induction false} PreservesCall(w: World, x: Input, depth: nat, node: Node, env: Env, t: Target)
    requires node.Call? && WorldAgrees(w, x.catalog) && PlainCasts(x.catalog) && EnvAgrees(x, env, t)
    requires depth >= Idle(x)
    requires Capture(x, node).Some?
    ensures Eval(w, x.catalog, depth, node, env) == Some(Value(w, Capture(x, node).value, t))
    decreases Idle(x), node, 2
  {
    hide WorldAgrees, PlainCasts, EnvAgrees, Idle, Capture, Eval, Value, Assembled, CaptureArgs, EvalArgs, Place,
      Supplier, Choose, Arity;
    var f, es := CallDefined(x, node);
    var n := Arity(f, node);
    var placed := Place(node.args, n).value;
    PlacesIff(node.args, n);
    PreservesArgs(w, x, depth, node, placed, 0, env, t);
    AssembledValue(w, x.catalog, node, es, t);
    AssembledChoice(x.catalog, node, es);
    EvalCall(w, x.catalog, depth, node, env);
  }

  lemma CallDefined(x: Input, node: Node) returns (f: Callable, es: seq<Expr>)
    requires node.Call? && Capture(x, node).Some?
    ensures node.callee in x.catalog.functions && f == x.catalog.functions[node.callee]
    ensures Place(node.args, Arity(f, node)).Some? && |Place(node.args, Arity(f, node)).value| == Arity(f, node)
    ensures CaptureArgs(x, node, Place(node.args, Arity(f, node)).value, 0) == Some(es) && |es| == Arity(f, node)
    ensures Capture(x, node) == Assembled(x.catalog, node, es)
  {
    hide CaptureArgs, Assembled, Arity, PlaceFrom;
    f := x.catalog.functions[node.callee];
    es := CaptureArgs(x, node, Place(node.args, Arity(f, node)).value, 0).value;
  }

  lemma AssembledChoice(c: Catalog, node: Node, es: seq<Expr>)
    requires node.Call? && node.callee in c.functions && Assembled(c, node, es).Some?
    ensures !Choose(c, node.input).Unreadable?
  {
    hide Choose, WithCollation, CastSource, ByFunction, Conversion, OutputType, IsRecordArray, Polymorphic, CollationIn;
  }

  lemma EvalCall(w: World, c: Catalog, depth: nat, node: Node, env: Env)
    requires node.Call? && node.callee in c.functions && !Choose(c, node.input).Unreadable?
    requires EvalArgs(w, c, depth, node, env, 0).Some?
    ensures Eval(w, c, depth, node, env) ==
      Combine(w, node, EvalArgs(w, c, depth, node, env, 0).value, CollationIn(Choose(c, node.input)))
  {
    CollationsAgree(c, node.input);
    hide EvalArgs, Combine, Choose, CollationIn, CollationAt;
  }

  lemma {:induction false} PreservesArgs(
    w: World, x: Input, depth: nat, node: Node, placed: seq<Option<nat>>, p: nat, env: Env, t: Target)
    requires node.Call? && WorldAgrees(w, x.catalog) && PlainCasts(x.catalog) && EnvAgrees(x, env, t)
    requires depth >= Idle(x)
    requires node.callee in x.catalog.functions && |placed| == Arity(x.catalog.functions[node.callee], node)
    requires p <= |placed|
    requires forall q :: 0 <= q < |placed| ==> placed[q] == Supplier(node.args, q, 0)
    requires CaptureArgs(x, node, placed, p).Some?
    ensures EvalArgs(w, x.catalog, depth, node, env, p) == Some(Values(w, CaptureArgs(x, node, placed, p).value, t))
    decreases Idle(x), node, 1, |placed| - p
  {
    hide WorldAgrees, PlainCasts, EnvAgrees, Idle, Capture, Eval, Value, Supplier, Arity, Parameters, CaptureArg,
      DefaultOf, TrailingDefault;
    ArityIs(x.catalog.functions[node.callee], node);
    if p < |placed| {
      PreservesArgs(w, x, depth, node, placed, p + 1, env, t);
      PreservesArg(w, x, depth, node, placed, p, env, t);
      ValuesCons(w, CaptureArg(x, node, placed, p).value, CaptureArgs(x, node, placed, p + 1).value, t);
      EvalArgsStep(w, x.catalog, depth, node, env, p);
      hide EvalArgs;
    }
  }

  function EvalArg(w: World, c: Catalog, depth: nat, node: Node, env: Env, p: nat): Option<Datum>
    requires node.Call? && node.callee in c.functions && p < Parameters(c.functions[node.callee], node)
  {
    var f := c.functions[node.callee];
    var n := Parameters(f, node);
    var supplier := Supplier(node.args, p, 0);
    if supplier.Some? then
      var arg := ArgOf(node.args[supplier.value]);
      if arg.None? then None else Eval(w, c, depth, arg.value, env)
    else if depth == 0 || TrailingDefault(f, n, p).None? then None
    else Eval(w, c, depth - 1, TrailingDefault(f, n, p).value, Env(map[], None))
  }

  lemma EvalArgsStep(w: World, c: Catalog, depth: nat, node: Node, env: Env, p: nat)
    requires node.Call? && node.callee in c.functions && p < Parameters(c.functions[node.callee], node)
    ensures EvalArgs(w, c, depth, node, env, p) ==
      var d, ds := EvalArg(w, c, depth, node, env, p), EvalArgs(w, c, depth, node, env, p + 1);
      if d.None? || ds.None? then None else Some([d.value] + ds.value)
  {
    hide Eval, Supplier, Parameters, TrailingDefault;
  }

  lemma {:induction false} PreservesArg(
    w: World, x: Input, depth: nat, node: Node, placed: seq<Option<nat>>, p: nat, env: Env, t: Target)
    requires node.Call? && WorldAgrees(w, x.catalog) && PlainCasts(x.catalog) && EnvAgrees(x, env, t)
    requires depth >= Idle(x)
    requires node.callee in x.catalog.functions && |placed| == Arity(x.catalog.functions[node.callee], node)
    requires p < |placed|
    requires placed[p] == Supplier(node.args, p, 0) && CaptureArg(x, node, placed, p).Some?
    ensures EvalArg(w, x.catalog, depth, node, env, p) == Some(Value(w, CaptureArg(x, node, placed, p).value, t))
    decreases Idle(x), node, 0
  {
    hide WorldAgrees, PlainCasts, EnvAgrees, Idle, Capture, Eval, Value, Arity, Parameters, DefaultOf, TrailingDefault;
    var f := x.catalog.functions[node.callee];
    ArityIs(f, node);
    DefaultsTrail(f, |placed|, p);
    if placed[p].Some? {
      Preserves(w, x, depth, ArgOf(node.args[placed[p].value]).value, env, t);
    } else {
      FewerIdle(x, node.callee);
      DefaultsSeeNothing(x, node.callee, t);
      Preserves(w, Within(x, node.callee), depth - 1, DefaultOf(f, |placed|, p).value, Env(map[], None), t);
    }
  }

  lemma DefaultsSeeNothing(x: Input, callee: nat, t: Target)
    ensures EnvAgrees(Within(x, callee), Env(map[], None), t) && Within(x, callee).catalog == x.catalog
  {
  }

  // -- CASE --

  lemma CaseDefined(x: Input, node: Node)
    requires node.CaseNode? && Capture(x, node).Some?
    ensures node.otherwise.Some? && Capture(x, node.otherwise.value).Some?
    ensures node.arg.Some? ==> Capture(x, node.arg.value).Some? && ExpressionType(x.catalog, node.arg.value).Some?
    ensures CaptureBranches(x, InnerOf(x, node), node, 0).Some?
    ensures Capture(x, node) == WithCollation(x.catalog, Some(CaseExpr(
      if node.arg.None? then None else Capture(x, node.arg.value), CaptureBranches(x, InnerOf(x, node), node, 0).value,
      Capture(x, node.otherwise.value).value)), node.collation)
  {
    hide CaptureBranches, WithCollation, ExpressionType;
  }

  function InnerOf(x: Input, node: Node): (inner: Input)
    requires node.CaseNode?
    ensures Idle(inner) == Idle(x) && inner.catalog == x.catalog
  {
    if node.arg.None? then x else x.(caseOperand := ExpressionType(x.catalog, node.arg.value))
  }

  function EnvIn(env: Env, d: Option<Datum>): Env { if d.None? then env else env.(placeholder := d) }

  function TargetIn(t: Target, d: Option<Datum>): Target { if d.None? then t else t.(operand := d) }

  lemma {:induction false} PreservesCase(w: World, x: Input, depth: nat, node: Node, env: Env, t: Target)
    requires node.CaseNode? && WorldAgrees(w, x.catalog) && PlainCasts(x.catalog) && EnvAgrees(x, env, t)
    requires depth >= Idle(x)
    requires Capture(x, node).Some?
    ensures Eval(w, x.catalog, depth, node, env) == Some(Value(w, Capture(x, node).value, t))
    decreases Idle(x), node, 2
  {
    hide WorldAgrees, PlainCasts, EnvAgrees, Idle, Capture, Eval, Value, WithCollation, CaptureBranches, EvalBranches,
      ChosenBranch, EnvIn, TargetIn,
      InnerOf, ExpressionType;
    CaseDefined(x, node);
    var operand := if node.arg.None? then None else Capture(x, node.arg.value);
    var last := Capture(x, node.otherwise.value).value;
    var branches := CaptureBranches(x, InnerOf(x, node), node, 0).value;
    var e := CaseExpr(operand, branches, last);
    Preserves(w, x, depth, node.otherwise.value, env, t);
    if node.arg.Some? { Preserves(w, x, depth, node.arg.value, env, t); }
    var d := if node.arg.None? then None else Some(Value(w, operand.value, t));
    InnerAgrees(x, node, env, t, d);
    PreservesBranches(w, x, depth, node, 0, env, EnvIn(env, d), t, TargetIn(t, d), e);
    CollatedValue(w, x.catalog, e, node.collation, t);
    CaseMeaning(w, x.catalog, depth, node, env, d);
    CaseValue(w, e, t, d);
  }

  lemma InnerAgrees(x: Input, node: Node, env: Env, t: Target, d: Option<Datum>)
    requires node.CaseNode? && EnvAgrees(x, env, t) && (d.Some? <==> node.arg.Some?)
    requires node.arg.Some? ==> ExpressionType(x.catalog, node.arg.value).Some?
    ensures EnvAgrees(InnerOf(x, node), EnvIn(env, d), TargetIn(t, d))
  {
    hide ExpressionType;
  }

  lemma CaseMeaning(w: World, c: Catalog, depth: nat, node: Node, env: Env, d: Option<Datum>)
    requires node.CaseNode? && node.otherwise.Some? &&
      d == if node.arg.None? then None else Eval(w, c, depth, node.arg.value, env)
    requires node.arg.Some? ==> d.Some?
    ensures Eval(w, c, depth, node, env) ==
      match EvalBranches(w, c, depth, node, 0, env, EnvIn(env, d))
      case Stuck => None
      case NoneTrue => Eval(w, c, depth, node.otherwise.value, env)
      case Taken(r) => Some(r)
  {
    hide EvalBranches;
  }

  lemma CaseValue(w: World, e: Expr, t: Target, d: Option<Datum>)
    requires e.CaseExpr? && d == if e.operand.None? then None else Some(Value(w, e.operand.value, t))
    ensures Value(w, e, t) ==
      var chosen := ChosenBranch(w, e, 0, t, TargetIn(t, d));
      if chosen.Some? then chosen.value else Value(w, e.otherwise, t)
  {
    hide ChosenBranch;
  }

  lemma {:induction false} PreservesBranches(
    w: World, x: Input, depth: nat, node: Node, i: nat, env: Env, inEnv: Env, t: Target, inTarget: Target, e: Expr)
    requires node.CaseNode? && i <= |node.branches| && WorldAgrees(w, x.catalog) && PlainCasts(x.catalog)
    requires depth >= Idle(x)
    requires EnvAgrees(x, env, t) && EnvAgrees(InnerOf(x, node), inEnv, inTarget)
    requires CaptureBranches(x, InnerOf(x, node), node, i).Some? && e.CaseExpr? && i <= |e.branches|
    requires e.branches[i..] == CaptureBranches(x, InnerOf(x, node), node, i).value
    ensures EvalBranches(w, x.catalog, depth, node, i, env, inEnv) ==
      var chosen := ChosenBranch(w, e, i, t, inTarget);
      if chosen.Some? then Taken(chosen.value) else NoneTrue
    decreases Idle(x), node, 1, |node.branches| - i
  {
    hide WorldAgrees, PlainCasts, EnvAgrees, Idle, Capture, Eval, Value, InnerOf;
    if i < |node.branches| {
      BranchDefined(x, InnerOf(x, node), node, i);
      var condition, outcome := node.branches[i].condition.value, node.branches[i].outcome.value;
      assert e.branches[i] == e.branches[i..][0];
      assert e.branches[i + 1..] == e.branches[i..][1..];
      Preserves(w, InnerOf(x, node), depth, condition, inEnv, inTarget);
      Preserves(w, x, depth, outcome, env, t);
      PreservesBranches(w, x, depth, node, i + 1, env, inEnv, t, inTarget, e);
      hide CaptureBranches;
    }
  }

  lemma BranchDefined(x: Input, inner: Input, node: Node, i: nat)
    requires node.CaseNode? && i < |node.branches| && Idle(inner) == Idle(x) && CaptureBranches(x, inner, node, i).Some?
    ensures node.branches[i].condition.Some? && node.branches[i].outcome.Some?
    ensures Capture(inner, node.branches[i].condition.value).Some? && Capture(x, node.branches[i].outcome.value).Some?
    ensures CaptureBranches(x, inner, node, i + 1).Some?
    ensures CaptureBranches(x, inner, node, i).value ==
      [When(Capture(inner, node.branches[i].condition.value).value, Capture(x, node.branches[i].outcome.value).value)] +
      CaptureBranches(x, inner, node, i + 1).value
  {
    hide Capture, Idle;
  }

  // -- What a captured expression states ------------------------------------------------------------------------------

  // The collation a node carries; untyped nulls carry none.
  function StatedCollation(c: Catalog, node: Node): Option<Collation>
  {
    match node
    case Const(typeOid, _, _, _, _, _, collation) =>
      if typeOid in c.types && c.types[typeOid] == "pg_catalog.unknown" then None else CollationAt(c, collation)
    case Var(_, _, _, _, collation) => CollationAt(c, collation)
    case Call(_, _, _, _, _, _, _, output, _) => CollationAt(c, output)
    case CoalesceNode(_, collation, _) => CollationAt(c, collation)
    case CaseNode(_, collation, _, _, _) => CollationAt(c, collation)
    case CaseTestNode(_, collation) => CollationAt(c, collation)
    case _ => None
  }

  function ShownCollation(e: Expr): Option<Collation>
  {
    match e
    case Collated(_, collation) => Some(collation)
    case Invoke(_, _, _, _, output, _) => output
    case _ => None
  }

  // A cast by this function exists in the catalog.
  predicate CastExists(c: Catalog, source: string, typeName: string, signature: string)
  {
    (source, typeName) in c.casts && c.casts[(source, typeName)].implementation == signature
  }

  // The call of a function that returns `typ`, or one that is given that type because the function is declared
  // with another; it says whether its array is explicit exactly when the function is variadic.
  ghost predicate Calls(c: Catalog, e: Expr, typ: nat)
    requires e.Invoke?
  {
    exists oid :: oid in c.functions && c.functions[oid].signature == e.signature &&
      (e.explicit.Some? <==> c.functions[oid].variadic.Some?) &&
      if e.retyped.Some? then e.retyped == TypeName(c, typ) && Lookup(c.types, typ) != Some(c.functions[oid].outcome)
      else Lookup(c.types, typ) == Some(c.functions[oid].outcome)
  }

  // The type an expression shows, if it shows one.
  ghost predicate Shows(x: Input, e: Expr, typ: nat)
    decreases e
  {
    match e
    case Collated(arg, _) => Shows(x, arg, typ)
    case Ref(name) =>
      (exists attno :: attno in x.columns && x.columns[attno] == Column(name, typ)) ||
      (name == ELEMENT && x.arrayElement == Some(typ))
    case CaseTest => x.caseOperand == Some(typ)
    case Literal(typeName, _) => Lookup(x.catalog.types, typ) == Some(typeName)
    case Cast(_, typeName, source, signature) =>
      Lookup(x.catalog.types, typ) == Some(typeName) && CastExists(x.catalog, source, typeName, signature)
    case Invoke(_, _, _, _, _, _) => Calls(x.catalog, e, typ)
    case Comparison(_, call, typeName) =>
      TypeName(x.catalog, typ) == Some(typeName) && call.Invoke? && call.output.None? && call.retyped.None?
    case BoolExpr(_, _) => x.catalog.boolType == Some(typ)
    case NullTest(_, _, _) => x.catalog.boolType == Some(typ)
    case BooleanTest(_, _) => x.catalog.boolType == Some(typ)
    case CoalesceExpr(_) => true
    case CaseExpr(_, _, _) => true
  }

  lemma CollatedShows(x: Input, e: Expr, oid: Option<nat>, typ: nat)
    requires WithCollation(x.catalog, Some(e), oid).Some? && !e.Collated? && !e.Invoke?
    ensures ShownCollation(WithCollation(x.catalog, Some(e), oid).value) == CollationAt(x.catalog, oid)
    ensures Shows(x, WithCollation(x.catalog, Some(e), oid).value, typ) <==> Shows(x, e, typ)
  {
  }

  lemma ConstShows(x: Input, node: Node)
    requires node.Const? && CaptureConst(x.catalog, node).Some?
    ensures var e := CaptureConst(x.catalog, node).value;
      Shows(x, e, node.typeOid) && ShownCollation(e) == StatedCollation(x.catalog, node)
  {
    hide WithCollation, IntText, ReadInteger;
    var c, name := x.catalog, x.catalog.types[node.typeOid];
    forall text | WithConstCollation(c, node, Literal(name, text)).Some?
      ensures var e := WithConstCollation(c, node, Literal(name, text)).value;
        Shows(x, e, node.typeOid) && ShownCollation(e) == CollationAt(c, node.collation)
    {
      if node.collation.Some? { CollatedShows(x, Literal(name, text), node.collation, node.typeOid); }
    }
    assert Widths("pg_catalog.unknown") == 0 by { UnknownHasNoWidth(); }
  }

  // A constant is captured exactly when its type is a built-in one and, under a known collation if it states one, it
  // is null or a truth value, two, four or eight bytes long as both node and type say, in a datum of a word or, by
  // reference, of eight bytes.
  lemma ConstCapturedIff(c: Catalog, node: Node)
    requires node.Const?
    ensures CaptureConst(c, node).Some? <==>
      node.typeOid in c.types && "pg_catalog." <= c.types[node.typeOid] &&
      var size := Size(c.types[node.typeOid]);
      if node.isnull && c.types[node.typeOid] == "pg_catalog.unknown" then true
      else
        (node.collation.Some? ==> CollationKnown(c, node.collation)) &&
        (node.isnull ||
         (size > 0 && node.length == size && node.stated == size &&
          (if node.byval then |node.data| == 4 || |node.data| == 8 else size == 8 && |node.data| == 8) &&
          size <= |node.data| &&
          (size == 1 ==> (if c.order.Little? then node.data[0] else node.data[|node.data| - 1]) <= 1)))
  {
    hide IntText, ReadInteger, Size, WithCollation, CollationKnown;
    if node.typeOid in c.types { WidthsAre(c.types[node.typeOid]); }
    forall e ensures WithCollation(c, Some(e), node.collation).Some? <==> CollationKnown(c, node.collation) {
      CollationGiven(c, e, node.collation);
    }
    if |node.data| > 0 {
      assert c.order.Little? ==> node.data[..1][0] == node.data[0];
      assert node.data[|node.data| - 1..][0] == node.data[|node.data| - 1];
    }
  }

  lemma UnknownHasNoWidth()
    ensures Widths("pg_catalog.unknown") == 0
  {
    assert |"pg_catalog.bool"| == 15 && |"pg_catalog.int2"| == 15 && |"pg_catalog.unknown"| == 18;
  }

  // The source of a cast is the argument's own base type when the same function casts from there, and the
  // function's declared argument otherwise.
  predicate CastsFrom(c: Catalog, node: Node, e: Expr)
    requires node.Call? && e.Cast?
  {
    CastExists(c, e.source, e.typeName, e.signature) &&
    (node.args != [] && ExpressionType(c, node.args[0]).Some? ==>
      var base := BaseType(c, ExpressionType(c, node.args[0]).value, {});
      var own := if base.None? then None else TypeName(c, base.value);
      own.Some? && CastExists(c, own.value, e.typeName, e.signature) ==> e.source == own.value)
  }

  lemma SourceCasts(c: Catalog, node: Node, f: Callable, outcome: string, arg: Expr)
    requires node.Call? && ByFunction(f, Conversion(c, f, outcome))
    ensures CastsFrom(c, node, Cast(arg, outcome, CastSource(c, node, f, outcome), f.signature))
  {
    hide TypeName, BaseType, ExpressionType;
  }

  lemma OutputNamed(c: Catalog, typ: nat)
    ensures OutputType(c, typ).Some? && OutputType(c, typ).value != "" ==> TypeName(c, typ) == OutputType(c, typ)
  {
  }

  // What a call is captured as, without its collation.
  function Bare(e: Expr): Expr { if e.Collated? then e.arg else e }

  lemma CallShows(x: Input, node: Node, es: seq<Expr>)
    requires node.Call? && node.callee in x.catalog.functions && Assembled(x.catalog, node, es).Some?
    ensures var e := Assembled(x.catalog, node, es).value;
      Shows(x, e, node.typeOid) && ShownCollation(e) == StatedCollation(x.catalog, node) &&
      (Bare(e).Cast? ==> CastsFrom(x.catalog, node, Bare(e)))
  {
    hide CastSource, OutputType, IsRecordArray, Polymorphic, TypeName, BaseType, CastsFrom, Calls,
      Arity, WithCollation, CollationAt;
    var c, f := x.catalog, x.catalog.functions[node.callee];
    var outcome := Lookup(c.types, node.typeOid).value;
    OutputNamed(c, node.typeOid);
    CollationsAgree(c, node.output);
    if ByFunction(f, Conversion(c, f, outcome)) {
      var e := Cast(es[0], outcome, CastSource(c, node, f, outcome), f.signature);
      SourceCasts(c, node, f, outcome, es[0]);
      CollatedShows(x, e, node.output, node.typeOid);
      CastShown(x, node, e);
      BareCollated(c, e, node.output);
    } else if node.form.DistinctExpr? || node.form.NullIfExpr? {
      var call := Invoke(f.signature, es, if f.variadic.Some? then Some(false) else None,
                         CollationIn(Choose(c, node.input)), None, None);
      var e := Comparison(node.form.DistinctExpr?, call, OutputType(c, node.typeOid).value);
      CollatedShows(x, e, node.output, node.typeOid);
      BareCollated(c, e, node.output);
    } else {
      InvokeShown(x, node, Assembled(c, node, es).value);
    }
  }

  lemma CollationsAgree(c: Catalog, oid: Option<nat>)
    ensures !Choose(c, oid).Unreadable? ==> CollationIn(Choose(c, oid)) == CollationAt(c, oid) && CollationKnown(c, oid)
  {
  }

  lemma BareCollated(c: Catalog, e: Expr, oid: Option<nat>)
    requires WithCollation(c, Some(e), oid).Some? && !e.Collated?
    ensures Bare(WithCollation(c, Some(e), oid).value) == e
  {
  }

  lemma CastShown(x: Input, node: Node, e: Expr)
    requires node.Call? && e.Cast? && CastsFrom(x.catalog, node, e)
    requires Lookup(x.catalog.types, node.typeOid) == Some(e.typeName)
    ensures Shows(x, e, node.typeOid)
  {
    hide TypeName, BaseType, ExpressionType;
  }

  lemma InvokeShown(x: Input, node: Node, e: Expr)
    requires node.Call? && node.callee in x.catalog.functions && e.Invoke?
    requires var c, f := x.catalog, x.catalog.functions[node.callee];
      e.signature == f.signature && (e.explicit.Some? <==> f.variadic.Some?) &&
      Lookup(c.types, node.typeOid).Some? && (e.retyped.Some? ==> e.retyped == TypeName(c, node.typeOid)) &&
      (e.retyped.Some? <==> Lookup(c.types, node.typeOid) != Some(f.outcome))
    ensures Shows(x, e, node.typeOid)
  {
    hide TypeName;
  }

  // A captured expression shows the type of its node and the collation the node carries; a cast shows one the
  // catalog has.
  lemma Labels(x: Input, node: Node)
    requires Capture(x, node).Some?
    ensures ShownCollation(Capture(x, node).value) == StatedCollation(x.catalog, node)
    ensures ExpressionType(x.catalog, node).Some? ==>
      Shows(x, Capture(x, node).value, ExpressionType(x.catalog, node).value)
    ensures node.Call? && Bare(Capture(x, node).value).Cast? ==>
      CastsFrom(x.catalog, node, Bare(Capture(x, node).value))
  {
    hide Capture, CaptureConst, Shows, ShownCollation, StatedCollation, Assembled, CaptureArgs, Arity, Place, CastsFrom;
    match node
    case Const(_, _, _, _, _, _, _) =>
      ConstLabel(x, node);
      ConstShows(x, node);
    case Call(_, _, _, _, _, _, _, _, _) =>
      var f, es := CallDefined(x, node);
      CallShows(x, node, es);
    case NamedArg(_, _) => NoExpression(x, node);
    case OtherNode(_) => NoExpression(x, node);
    case _ => PlainLabels(x, node);
  }

  lemma ConstLabel(x: Input, node: Node)
    requires node.Const?
    ensures Capture(x, node) == CaptureConst(x.catalog, node)
  {
    hide CaptureConst;
  }

  lemma PlainLabels(x: Input, node: Node)
    requires Capture(x, node).Some? && !node.Const? && !node.Call?
    ensures ShownCollation(Capture(x, node).value) == StatedCollation(x.catalog, node)
    ensures ExpressionType(x.catalog, node).Some? ==>
      Shows(x, Capture(x, node).value, ExpressionType(x.catalog, node).value)
  {
    hide Capture, Shows, ShownCollation, StatedCollation;
    match node
    case Var(_, _, _, _, _) => VarLabels(x, node);
    case CaseTestNode(_, _) => PlaceholderLabels(x, node);
    case CoalesceNode(_, _, _) => CoalesceLabels(x, node);
    case CaseNode(_, _, _, _, _) => CaseLabels(x, node);
    case NamedArg(_, _) => NoExpression(x, node);
    case OtherNode(_) => NoExpression(x, node);
    case _ => TruthLabels(x, node);
  }

  lemma VarLabels(x: Input, node: Node)
    requires Capture(x, node).Some? && node.Var?
    ensures ShownCollation(Capture(x, node).value) == StatedCollation(x.catalog, node)
    ensures Shows(x, Capture(x, node).value, node.typeOid)
  {
    hide CollationAt, WithCollation;
    CollatedShows(x, Ref(x.columns[node.attno].name), node.collation, node.typeOid);
  }

  lemma PlaceholderLabels(x: Input, node: Node)
    requires Capture(x, node).Some? && node.CaseTestNode?
    ensures ShownCollation(Capture(x, node).value) == StatedCollation(x.catalog, node)
    ensures Shows(x, Capture(x, node).value, node.typeOid)
  {
    hide CollationAt, WithCollation;
    CollatedShows(x, if x.caseOperand.Some? then CaseTest else Ref(ELEMENT), node.collation, node.typeOid);
  }

  lemma CoalesceLabels(x: Input, node: Node)
    requires Capture(x, node).Some? && node.CoalesceNode?
    ensures ShownCollation(Capture(x, node).value) == StatedCollation(x.catalog, node)
    ensures Shows(x, Capture(x, node).value, node.typeOid)
  {
    hide CollationAt, WithCollation, CaptureAll;
    CollatedShows(x, CoalesceExpr(CaptureAll(x, node.args).value), node.collation, node.typeOid);
  }

  lemma CaseLabels(x: Input, node: Node)
    requires Capture(x, node).Some? && node.CaseNode?
    ensures ShownCollation(Capture(x, node).value) == StatedCollation(x.catalog, node)
    ensures Shows(x, Capture(x, node).value, node.typeOid)
  {
    CaseDefined(x, node);
    hide Capture, CollationAt, WithCollation, CaptureBranches, InnerOf;
    var e := CaseExpr(if node.arg.None? then None else Capture(x, node.arg.value),
                      CaptureBranches(x, InnerOf(x, node), node, 0).value, Capture(x, node.otherwise.value).value);
    CollatedShows(x, e, node.collation, node.typeOid);
  }

  lemma TruthLabels(x: Input, node: Node)
    requires Capture(x, node).Some? && (node.BoolNode? || node.NullTestNode? || node.BooleanTestNode?)
    ensures ShownCollation(Capture(x, node).value) == StatedCollation(x.catalog, node)
    ensures ExpressionType(x.catalog, node).Some? ==>
      Shows(x, Capture(x, node).value, ExpressionType(x.catalog, node).value)
  {
    hide CollationAt, WithCollation, CaptureAll, BoolOpOf, FormOf;
  }

  // -- Which calls are captured --

  const ANY_TYPE := ["pg_catalog.anyarray", "pg_catalog.anycompatible", "pg_catalog.anycompatiblearray",
                     "pg_catalog.anyelement", "pg_catalog.anyenum", "pg_catalog.anymultirange", "pg_catalog.anyrange"]

  // The function runs the cast from its argument to this type, and what it returns is stored the same way.
  predicate CastsInto(c: Catalog, f: Callable, result: string)
  {
    |f.args| == 1 && CastExists(c, f.args[0], result, f.signature) && c.casts[(f.args[0], result)].way == 'f' &&
    (f.outcome, result) in c.casts && c.casts[(f.outcome, result)].way == 'b'
  }

  // A comparison's function returns a truth value. Any other call has the function's own result, one that follows
  // from the arguments' types, or, called as an explicit or implicit cast, the type it casts to.
  predicate ResultExplained(c: Catalog, node: Node, result: string)
    requires node.Call? && node.callee in c.functions
  {
    var f := c.functions[node.callee];
    if node.form.DistinctExpr? || node.form.NullIfExpr? then f.outcome == "pg_catalog.bool"
    else
      f.outcome == result || f.outcome in ANY_TYPE ||
      (node.form.FuncExpr? && 1 <= node.format <= 2 && CastsInto(c, f, result))
  }

  // An array of anonymous records is not passed as a variadic one.
  predicate PassesRecords(c: Catalog, node: Node)
    requires node.Call?
  {
    node.form.FuncExpr? && node.variadic &&
    exists arg :: arg in node.args && ExpressionType(c, arg).Some? &&
      TypeName(c, ExpressionType(c, arg).value) == Some("pg_catalog.record[]")
  }

  // Given its arguments, a call is captured exactly when it returns one value of a known type that explains itself,
  // under known collations, and compares two values if it compares.
  lemma CapturedIff(c: Catalog, node: Node, es: seq<Expr>)
    requires node.Call? && node.callee in c.functions && |es| == Parameters(c.functions[node.callee], node)
    ensures Assembled(c, node, es).Some? <==>
      node.typeOid in c.types && c.types[node.typeOid] != "" && TypeName(c, node.typeOid).Some? && !node.returnsSet &&
      CollationKnown(c, node.input) && CollationKnown(c, node.output) && !PassesRecords(c, node) &&
      ResultExplained(c, node, c.types[node.typeOid]) &&
      (node.form.DistinctExpr? || node.form.NullIfExpr? ==> |es| == 2)
  {
    hide CastSource, OutputType, TypeName, Parameters, WithCollation, IsRecordArray, PassesRecords, Polymorphic,
      ByFunction, Conversion, CastsInto, Choose, CollationKnown;
    KnownCollations(c, node.input);
    KnownCollations(c, node.output);
    KnownType(c, node.typeOid);
    RecordsPassed(c, node);
    var f := c.functions[node.callee];
    AnyTypes(f.outcome);
    if node.typeOid in c.types {
      var outcome := c.types[node.typeOid];
      CastForm(c, f, outcome);
      if ByFunction(f, Conversion(c, f, outcome)) { AtLeastOne(c, f, outcome, node); }
    }
    forall e ensures WithCollation(c, Some(e), node.output).Some? <==> CollationKnown(c, node.output) {
      CollationGiven(c, e, node.output);
    }
  }

  lemma KnownCollations(c: Catalog, oid: Option<nat>)
    ensures Choose(c, oid).Unreadable? <==> !CollationKnown(c, oid)
  {
  }

  lemma CollationGiven(c: Catalog, e: Expr, oid: Option<nat>)
    ensures WithCollation(c, Some(e), oid).Some? <==> CollationKnown(c, oid)
  {
  }

  lemma KnownType(c: Catalog, typ: nat)
    ensures OutputType(c, typ).Some? && OutputType(c, typ).value != "" <==> TypeName(c, typ).Some?
  {
  }

  lemma RecordsPassed(c: Catalog, node: Node)
    requires node.Call?
    ensures PassesRecords(c, node) <==>
      node.form.FuncExpr? && node.variadic && exists i :: 0 <= i < |node.args| && IsRecordArray(c, node.args[i])
  {
    hide TypeName, ExpressionType;
    if PassesRecords(c, node) {
      var arg :| arg in node.args && ExpressionType(c, arg).Some? &&
        TypeName(c, ExpressionType(c, arg).value) == Some("pg_catalog.record[]");
      var i :| 0 <= i < |node.args| && node.args[i] == arg;
      assert IsRecordArray(c, node.args[i]);
    }
  }

  lemma AnyTypes(name: string)
    ensures Polymorphic(name) <==> name in ANY_TYPE
  {
  }

  lemma CastForm(c: Catalog, f: Callable, result: string)
    ensures CastsInto(c, f, result) <==>
      ByFunction(f, Conversion(c, f, result)) &&
      var back := Lookup(c.casts, (f.outcome, result)); back.Some? && back.value.way == 'b'
  {
  }

  lemma AtLeastOne(c: Catalog, f: Callable, outcome: string, node: Node)
    requires node.Call? && ByFunction(f, Conversion(c, f, outcome))
    ensures Parameters(f, node) >= 1
  {
  }

  // -- Every cast inside a captured expression --

  predicate CastsKnown(c: Catalog, e: Expr)
    decreases e, 1
  {
    match e
    case Ref(_) => true
    case Literal(_, _) => true
    case Invoke(_, args, _, _, _, _) => AllCastsKnown(c, args)
    case Cast(arg, typeName, source, signature) =>
      CastExists(c, source, typeName, signature) && CastsKnown(c, arg)
    case Comparison(_, call, _) => CastsKnown(c, call)
    case BoolExpr(_, args) => AllCastsKnown(c, args)
    case CoalesceExpr(args) => AllCastsKnown(c, args)
    case NullTest(arg, _, _) => CastsKnown(c, arg)
    case BooleanTest(arg, _) => CastsKnown(c, arg)
    case CaseExpr(operand, branches, otherwise) =>
      (operand.Some? ==> CastsKnown(c, operand.value)) && CastsKnown(c, otherwise) &&
      forall i :: 0 <= i < |branches| ==> CastsKnown(c, branches[i].condition) && CastsKnown(c, branches[i].outcome)
    case CaseTest => true
    case Collated(arg, _) => CastsKnown(c, arg)
  }

  predicate AllCastsKnown(c: Catalog, es: seq<Expr>)
    decreases es, 0
  {
    forall i :: 0 <= i < |es| ==> CastsKnown(c, es[i])
  }

  lemma KnownCollated(c: Catalog, e: Expr, oid: Option<nat>)
    requires WithCollation(c, Some(e), oid).Some? && CastsKnown(c, e)
    ensures CastsKnown(c, WithCollation(c, Some(e), oid).value)
  {
    hide CastExists, AllCastsKnown;
  }

  lemma {:induction false} KnownCasts(x: Input, node: Node)
    requires Capture(x, node).Some?
    ensures CastsKnown(x.catalog, Capture(x, node).value)
    decreases Idle(x), node, 3
  {
    hide Capture, CastsKnown, Idle;
    match node
    case Const(_, _, _, _, _, _, _) =>
      ConstLabel(x, node);
      KnownConst(x.catalog, node);
    case Call(_, _, _, _, _, _, _, _, _) =>
      var f, es := CallDefined(x, node);
      KnownArgs(x, node, Place(node.args, Arity(f, node)).value, 0);
      KnownCall(x, node, es);
    case NamedArg(_, _) => NoExpression(x, node);
    case OtherNode(_) => NoExpression(x, node);
    case BoolNode(_, args) =>
      ListDefined(x, node);
      KnownAll(x, args);
      KnownList(x, node);
    case CoalesceNode(_, _, args) =>
      ListDefined(x, node);
      KnownAll(x, args);
      KnownList(x, node);
    case NullTestNode(_, _, arg) =>
      TestDefined(x, node);
      KnownCasts(x, arg.value);
      KnownTest(x, node);
    case BooleanTestNode(_, arg) =>
      TestDefined(x, node);
      KnownCasts(x, arg.value);
      KnownTest(x, node);
    case CaseNode(_, _, arg, _, otherwise) =>
      CaseDefined(x, node);
      if arg.Some? { KnownCasts(x, arg.value); }
      KnownCasts(x, otherwise.value);
      KnownBranches(x, InnerOf(x, node), node, 0);
      KnownCase(x, node);
    case _ => KnownLeaf(x, node);
  }

  lemma KnownConst(c: Catalog, node: Node)
    requires node.Const? && CaptureConst(c, node).Some?
    ensures CastsKnown(c, CaptureConst(c, node).value)
  {
    hide IntText, ReadInteger;
  }

  lemma KnownLeaf(x: Input, node: Node)
    requires Capture(x, node).Some? && (node.Var? || node.CaseTestNode?)
    ensures CastsKnown(x.catalog, Capture(x, node).value)
  {
  }

  lemma KnownList(x: Input, node: Node)
    requires (node.BoolNode? || node.CoalesceNode?) && Capture(x, node).Some? && CaptureAll(x, node.args).Some?
    requires AllCastsKnown(x.catalog, CaptureAll(x, node.args).value)
    ensures CastsKnown(x.catalog, Capture(x, node).value)
  {
    hide CaptureAll, AllCastsKnown, WithCollation, BoolOpOf;
    if node.CoalesceNode? {
      assert CastsKnown(x.catalog, CoalesceExpr(CaptureAll(x, node.args).value));
      KnownCollated(x.catalog, CoalesceExpr(CaptureAll(x, node.args).value), node.collation);
    }
  }

  lemma KnownTest(x: Input, node: Node)
    requires (node.NullTestNode? || node.BooleanTestNode?) && Capture(x, node).Some?
    requires node.arg.Some? && Capture(x, node.arg.value).Some?
    requires CastsKnown(x.catalog, Capture(x, node.arg.value).value)
    ensures CastsKnown(x.catalog, Capture(x, node).value)
  {
    hide AllCastsKnown, FormOf;
  }

  lemma KnownCase(x: Input, node: Node)
    requires node.CaseNode? && Capture(x, node).Some? && node.otherwise.Some? && Capture(x, node.otherwise.value).Some?
    requires node.arg.Some? ==>
      Capture(x, node.arg.value).Some? && CastsKnown(x.catalog, Capture(x, node.arg.value).value)
    requires CastsKnown(x.catalog, Capture(x, node.otherwise.value).value)
    requires CaptureBranches(x, InnerOf(x, node), node, 0).Some?
    requires BranchesKnown(x.catalog, CaptureBranches(x, InnerOf(x, node), node, 0).value)
    ensures CastsKnown(x.catalog, Capture(x, node).value)
  {
    CaseDefined(x, node);
    hide Capture, CaptureBranches, InnerOf, WithCollation, AllCastsKnown, CastExists;
    var e := CaseExpr(if node.arg.None? then None else Capture(x, node.arg.value),
                      CaptureBranches(x, InnerOf(x, node), node, 0).value, Capture(x, node.otherwise.value).value);
    assert CastsKnown(x.catalog, e);
    KnownCollated(x.catalog, e, node.collation);
  }

  predicate BranchesKnown(c: Catalog, branches: seq<When>)
  {
    forall i :: 0 <= i < |branches| ==> CastsKnown(c, branches[i].condition) && CastsKnown(c, branches[i].outcome)
  }

  lemma KnownCall(x: Input, node: Node, es: seq<Expr>)
    requires node.Call? && node.callee in x.catalog.functions && Assembled(x.catalog, node, es).Some?
    requires AllCastsKnown(x.catalog, es)
    ensures CastsKnown(x.catalog, Assembled(x.catalog, node, es).value)
  {
    hide CastSource, OutputType, IsRecordArray, Polymorphic, TypeName, BaseType, CastsFrom, Arity, WithCollation,
      CollationAt;
    var c, f := x.catalog, x.catalog.functions[node.callee];
    var outcome := Lookup(c.types, node.typeOid).value;
    if ByFunction(f, Conversion(c, f, outcome)) {
      var e := Cast(es[0], outcome, CastSource(c, node, f, outcome), f.signature);
      SourceCasts(c, node, f, outcome, es[0]);
      SourceExists(c, node, e);
      KnownCast(c, es, e);
      KnownCollated(c, e, node.output);
    } else if node.form.DistinctExpr? || node.form.NullIfExpr? {
      var call := Invoke(f.signature, es, if f.variadic.Some? then Some(false) else None,
                         CollationIn(Choose(c, node.input)), None, None);
      var e := Comparison(node.form.DistinctExpr?, call, OutputType(c, node.typeOid).value);
      KnownComparison(c, call, e);
      KnownCollated(c, e, node.output);
    } else {
      KnownInvoke(c, Assembled(c, node, es).value);
    }
  }

  lemma SourceExists(c: Catalog, node: Node, e: Expr)
    requires node.Call? && e.Cast? && CastsFrom(c, node, e)
    ensures CastExists(c, e.source, e.typeName, e.signature)
  {
    hide CastExists, TypeName, BaseType, ExpressionType;
  }

  lemma KnownCast(c: Catalog, es: seq<Expr>, e: Expr)
    requires es != [] && AllCastsKnown(c, es) && e.Cast? && e.arg == es[0]
    requires CastExists(c, e.source, e.typeName, e.signature)
    ensures CastsKnown(c, e)
  {
    hide CastExists;
  }

  lemma KnownInvoke(c: Catalog, e: Expr)
    requires e.Invoke? && AllCastsKnown(c, e.args)
    ensures CastsKnown(c, e)
  {
    hide CastExists, AllCastsKnown;
  }

  lemma KnownComparison(c: Catalog, call: Expr, e: Expr)
    requires call.Invoke? && AllCastsKnown(c, call.args) && e.Comparison? && e.call == call
    ensures CastsKnown(c, e)
  {
    KnownInvoke(c, call);
    hide CastExists, AllCastsKnown;
  }

  lemma KnownCons(c: Catalog, e: Expr, es: seq<Expr>)
    requires CastsKnown(c, e) && AllCastsKnown(c, es)
    ensures AllCastsKnown(c, [e] + es)
  {
    hide CastsKnown;
  }

  lemma {:induction false} KnownAll(x: Input, nodes: seq<Node>)
    requires CaptureAll(x, nodes).Some?
    ensures AllCastsKnown(x.catalog, CaptureAll(x, nodes).value)
    decreases Idle(x), nodes, 0
  {
    hide Capture, CastsKnown, Idle;
    if nodes != [] {
      KnownCasts(x, nodes[0]);
      KnownAll(x, nodes[1..]);
      KnownCons(x.catalog, Capture(x, nodes[0]).value, CaptureAll(x, nodes[1..]).value);
    }
  }

  lemma {:induction false} KnownArgs(x: Input, node: Node, placed: seq<Option<nat>>, p: nat)
    requires node.Call? && node.callee in x.catalog.functions && p <= |placed|
    requires CaptureArgs(x, node, placed, p).Some?
    ensures AllCastsKnown(x.catalog, CaptureArgs(x, node, placed, p).value)
    decreases Idle(x), node, 2, |placed| - p
  {
    hide Capture, CastsKnown, Idle, CaptureArg;
    if p < |placed| {
      KnownArg(x, node, placed, p);
      KnownArgs(x, node, placed, p + 1);
      KnownCons(x.catalog, CaptureArg(x, node, placed, p).value, CaptureArgs(x, node, placed, p + 1).value);
    }
  }

  lemma {:induction false} KnownArg(x: Input, node: Node, placed: seq<Option<nat>>, p: nat)
    requires node.Call? && node.callee in x.catalog.functions && p < |placed| && CaptureArg(x, node, placed, p).Some?
    ensures CastsKnown(x.catalog, CaptureArg(x, node, placed, p).value)
    decreases Idle(x), node, 1
  {
    hide Capture, CastsKnown, Idle, DefaultOf;
    if placed[p].Some? {
      KnownCasts(x, ArgOf(node.args[placed[p].value]).value);
    } else {
      FewerIdle(x, node.callee);
      KnownCasts(Within(x, node.callee), DefaultOf(x.catalog.functions[node.callee], |placed|, p).value);
    }
  }

  lemma {:induction false} KnownBranches(x: Input, inner: Input, node: Node, i: nat)
    requires node.CaseNode? && i <= |node.branches| && Idle(inner) == Idle(x) && inner.catalog == x.catalog
    requires CaptureBranches(x, inner, node, i).Some?
    ensures BranchesKnown(x.catalog, CaptureBranches(x, inner, node, i).value)
    decreases Idle(x), node, 2, |node.branches| - i
  {
    hide Capture, CastsKnown, Idle;
    if i < |node.branches| {
      BranchDefined(x, inner, node, i);
      KnownCasts(inner, node.branches[i].condition.value);
      KnownCasts(x, node.branches[i].outcome.value);
      KnownBranches(x, inner, node, i + 1);
      hide CaptureBranches;
    }
  }

  // -- The type below a chain of domains --

  // `n` steps from domain to base lead to a type that is no domain.
  function Below(c: Catalog, oid: nat, n: nat): Option<nat>
    decreases n
  {
    if oid !in c.storage then None
    else if !c.storage[oid].domain then if n == 0 then Some(oid) else None
    else if n == 0 then None
    else Below(c, c.storage[oid].base, n - 1)
  }

  lemma {:induction false} OneDepth(c: Catalog, oid: nat, n: nat, m: nat)
    requires Below(c, oid, n).Some? && Below(c, oid, m).Some?
    ensures n == m
    decreases n
  {
    if n > 0 && m > 0 { OneDepth(c, c.storage[oid].base, n - 1, m - 1); }
  }

  lemma {:induction false} BaseIsBelow(c: Catalog, oid: nat, seen: set<nat>) returns (n: nat)
    requires BaseType(c, oid, seen).Some?
    ensures Below(c, oid, n) == BaseType(c, oid, seen)
    decreases |c.storage.Keys - seen|
  {
    if c.storage[oid].domain {
      assert c.storage.Keys - (seen + {oid}) < c.storage.Keys - seen by { assert oid in c.storage.Keys - seen; }
      SmallerSet(c.storage.Keys - (seen + {oid}), c.storage.Keys - seen);
      n := BaseIsBelow(c, c.storage[oid].base, seen + {oid});
      n := n + 1;
    } else {
      n := 0;
    }
  }

  ghost predicate Above(c: Catalog, oid: nat, n: nat) { exists k: nat :: k > n && Below(c, oid, k).Some? }

  lemma {:induction false} BelowIsBase(c: Catalog, oid: nat, seen: set<nat>, n: nat)
    requires Below(c, oid, n).Some? && forall s :: s in seen ==> Above(c, s, n)
    ensures BaseType(c, oid, seen) == Below(c, oid, n)
    decreases n
  {
    if oid in seen {
      var k: nat :| k > n && Below(c, oid, k).Some?;
      OneDepth(c, oid, n, k);
    }
    if n > 0 {
      forall s | s in seen + {oid} ensures Above(c, s, n - 1) {
        if s == oid {
          assert n > n - 1 && Below(c, s, n).Some?;
        } else {
          var k: nat :| k > n && Below(c, s, k).Some?;
          assert k > n - 1 && Below(c, s, k).Some?;
        }
      }
      BelowIsBase(c, c.storage[oid].base, seen + {oid}, n - 1);
    }
  }

  // The base type is the type at the end of the chain, if the chain ends.
  lemma BaseTypeIff(c: Catalog, oid: nat, b: nat)
    ensures BaseType(c, oid, {}) == Some(b) <==> exists n: nat :: Below(c, oid, n) == Some(b)
  {
    hide BaseType, Below;
    if BaseType(c, oid, {}) == Some(b) { var n := BaseIsBelow(c, oid, {}); }
    if n: nat :| Below(c, oid, n) == Some(b) { BelowIsBase(c, oid, {}, n); }
  }

  // -- The loops ----------------------------------------------------------------------------------------------------

  method PlaceArguments(args: seq<Node>, n: nat) returns (r: Option<seq<Option<nat>>>)
    ensures r == Place(args, n)
  {
    hide PositionOf, ArgOf;
    var values := new Option<nat>[n](k => None);
    var named := false;
    ghost var none: seq<Option<nat>> := seq(n, k => None);
    assert values[..] == none;
    for i := 0 to |args|
      invariant PlaceFrom(args, 0, false, none) == PlaceFrom(args, i, named, values[..])
    {
      var position := PositionOf(args, i);
      if (!args[i].NamedArg? && named) || position < 0 || position >= values.Length || values[position].Some? ||
          ArgOf(args[i]).None? {
        return None;
      }
      ghost var before := values[..];
      values[position] := Some(i);
      named := named || args[i].NamedArg?;
      assert values[..] == before[position := Some(i)];
    }
    r := Some(values[..]);
  }

  method FindBaseType(c: Catalog, oid: nat) returns (r: Option<nat>)
    ensures r == BaseType(c, oid, {})
  {
    var seen: set<nat> := {};
    var at := oid;
    while at in c.storage && c.storage[at].domain && at !in seen
      invariant BaseType(c, oid, {}) == BaseType(c, at, seen)
      decreases |c.storage.Keys - seen|
    {
      assert c.storage.Keys - (seen + {at}) < c.storage.Keys - seen by { assert at in c.storage.Keys - seen; }
      SmallerSet(c.storage.Keys - (seen + {at}), c.storage.Keys - seen);
      seen := seen + {at};
      at := c.storage[at].base;
    }
    r := if at in c.storage && at !in seen then Some(at) else None;
  }
}
