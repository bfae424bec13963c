/** Walking the input types of an operation's variables into paths: every input path exactly once,
    parents first, and only when no input type is unknown, of another kind, or inside itself. */
module VariableWalk {
  import opened Prelude

  /** One step of a path: a variable or field name, or into the elements of a list. */
  datatype Seg = Name(id: string) | Star

  type Path = seq<Seg>

  datatype Type = Named(name: string) | List(elem: Type)

  datatype Field = Field(name: string, typ: Type, default: string)

  datatype Def = ScalarDef | EnumDef(values: seq<string>) | InputDef(fields: seq<Field>) | OutputDef

  type Schema = map<string, Def>

  datatype Kind = ScalarKind | EnumKind | ObjectKind

  datatype Node = Node(path: Path, typ: Type, kind: Kind, values: seq<string>, default: string)

  datatype WalkError = UnknownType(at: Path) | NotAnInputType(at: Path) | RecursiveType(at: Path)

  function Base(t: Type): string { match t case Named(n) => n case List(e) => Base(e) }

  function Levels(t: Type): nat { match t case Named(_) => 0 case List(e) => 1 + Levels(e) }

  function Stars(n: nat): Path { seq(n, _ => Star) }

  // ---------------------------------------------------------------------------
  // The walk
  // ---------------------------------------------------------------------------

  function OffChain(schema: Schema, chain: seq<string>): nat { |schema.Keys - (set t | t in chain)| }

  lemma ChainGrows(schema: Schema, chain: seq<string>, t: string)
    requires t in schema && t !in chain
    ensures OffChain(schema, chain + [t]) < OffChain(schema, chain)
  {
    var before, after := schema.Keys - (set x | x in chain), schema.Keys - (set x | x in chain + [t]);
    assert after == before - {t} && t in before;
  }

  function NodeOf(path: Path, f: Field, def: Def): Node {
    match def
    case EnumDef(values) => Node(path, f.typ, EnumKind, values, f.default)
    case InputDef(_) => Node(path, f.typ, ObjectKind, [], f.default)
    case _ => Node(path, f.typ, ScalarKind, [], f.default)
  }

  /** One input of that path, and everything below it. */
  function Walk(schema: Schema, path: Path, f: Field, chain: seq<string>): Result<seq<Node>, WalkError>
    decreases OffChain(schema, chain), 0
  {
    var name := Base(f.typ);
    if name !in schema then Err(UnknownType(path)) else
    var def := schema[name];
    if def.OutputDef? then Err(NotAnInputType(path)) else
    var node := NodeOf(path, f, def);
    if !def.InputDef? then Ok([node])
    else if name in chain then Err(RecursiveType(path))
    else
      ChainGrows(schema, chain, name);
      match WalkFields(schema, path + Stars(Levels(f.typ)), def.fields, chain + [name])
      case Err(e) => Err(e)
      case Ok(below) => Ok([node] + below)
  }

  /** The inputs named under a path, in order. */
  function WalkFields(schema: Schema, base: Path, fields: seq<Field>, chain: seq<string>): Result<seq<Node>, WalkError>
    decreases OffChain(schema, chain), |fields| + 1
  {
    if fields == [] then Ok([]) else
    match Walk(schema, base + [Name(fields[0].name)], fields[0], chain)
    case Err(e) => Err(e)
    case Ok(first) =>
      match WalkFields(schema, base, fields[1..], chain)
      case Err(e) => Err(e)
      case Ok(rest) => Ok(first + rest)
  }

  /** An operation's variables, walked. */
  function WalkVariables(schema: Schema, variables: seq<Field>): Result<seq<Node>, WalkError> {
    WalkFields(schema, [], variables, [])
  }

  // ---------------------------------------------------------------------------
  // What an input path is
  // ---------------------------------------------------------------------------

  function Find(fields: seq<Field>, name: string): Option<Field> {
    if fields == [] then None else if fields[0].name == name then Some(fields[0]) else Find(fields[1..], name)
  }

  ghost predicate DistinctFields(fields: seq<Field>) {
    forall i, j :: 0 <= i < j < |fields| ==> fields[i].name != fields[j].name
  }

  /** A validated schema: no input object names a field twice. */
  ghost predicate WellFormed(schema: Schema) {
    forall t :: t in schema && schema[t].InputDef? ==> DistinctFields(schema[t].fields)
  }

  function FieldsOf(schema: Schema, t: string): seq<Field> {
    if t in schema && schema[t].InputDef? then schema[t].fields else []
  }

  /** The field reached by steps from an input, if the types allow each step. */
  function Reach(schema: Schema, f: Field, rel: Path): Option<Field>
    decreases |rel|
  {
    if rel == [] then Some(f) else
    match f.typ
    case List(e) => if rel[0].Star? then Reach(schema, f.(typ := e), rel[1..]) else None
    case Named(t) =>
      if !rel[0].Name? then None else
      match Find(FieldsOf(schema, t), rel[0].id)
      case None => None
      case Some(g) => Reach(schema, g, rel[1..])
  }

  /** The input object types left behind on the way. */
  function Passed(schema: Schema, f: Field, rel: Path): seq<string>
    decreases |rel|
  {
    if rel == [] then [] else
    match f.typ
    case List(e) => if rel[0].Star? then Passed(schema, f.(typ := e), rel[1..]) else []
    case Named(t) =>
      if !rel[0].Name? then [] else
      match Find(FieldsOf(schema, t), rel[0].id)
      case None => []
      case Some(g) => [t] + Passed(schema, g, rel[1..])
  }

  predicate EndsInName(rel: Path) { rel == [] || rel[|rel| - 1].Name? }

  /** The input at those steps has a known input type, not one it is already inside of. */
  predicate GoodAt(schema: Schema, f: Field, rel: Path, chain: seq<string>) {
    match Reach(schema, f, rel)
    case None => true
    case Some(g) =>
      var t := Base(g.typ);
      && t in schema && !schema[t].OutputDef?
      && (schema[t].InputDef? ==> t !in chain && t !in Passed(schema, f, rel))
  }

  ghost predicate AllGood(schema: Schema, f: Field, chain: seq<string>) {
    forall rel :: EndsInName(rel) ==> GoodAt(schema, f, rel, chain)
  }

  ghost predicate FieldsGood(schema: Schema, fields: seq<Field>, chain: seq<string>) {
    forall i :: 0 <= i < |fields| ==> AllGood(schema, fields[i], chain)
  }

  // ---------------------------------------------------------------------------
  // Steps out of an input
  // ---------------------------------------------------------------------------

  /** Down one field: through all list levels, then the name. */
  function Down(f: Field, name: string, rel: Path): Path { Stars(Levels(f.typ)) + [Name(name)] + rel }

  lemma {:induction false} ReachDown(schema: Schema, f: Field, name: string, rel: Path)
    ensures Reach(schema, f, Down(f, name, rel)) ==
      match Find(FieldsOf(schema, Base(f.typ)), name)
      case None => None
      case Some(g) => Reach(schema, g, rel)
    ensures Find(FieldsOf(schema, Base(f.typ)), name).Some? ==>
      Passed(schema, f, Down(f, name, rel)) ==
        [Base(f.typ)] + Passed(schema, Find(FieldsOf(schema, Base(f.typ)), name).value, rel)
    decreases f.typ
  {
    var all := Down(f, name, rel);
    match f.typ {
      case Named(t) =>
        assert all[0] == Name(name) && all[1..] == rel;
      case List(e) =>
        ReachDown(schema, f.(typ := e), name, rel);
        assert all[0] == Star && all[1..] == Down(f.(typ := e), name, rel);
    }
  }

  /** Every way out of an input to another node goes down one of its fields. */
  lemma {:induction false} ReachIsDown(schema: Schema, f: Field, rel: Path) returns (name: string, rest: Path)
    requires rel != [] && EndsInName(rel) && Reach(schema, f, rel).Some?
    ensures rel == Down(f, name, rest) && EndsInName(rest)
    ensures Find(FieldsOf(schema, Base(f.typ)), name).Some?
    decreases f.typ
  {
    hide Stars, Down;
    match f.typ {
      case Named(t) =>
        name, rest := rel[0].id, rel[1..];
        DownStep(f, name, rest);
      case List(e) =>
        assert |rel| > 1;
        name, rest := ReachIsDown(schema, f.(typ := e), rel[1..]);
        DownStep(f, name, rest);
        assert rel == [Star] + rel[1..];
    }
  }

  /** The first step down. */
  lemma DownStep(f: Field, name: string, rest: Path)
    ensures f.typ.Named? ==> Down(f, name, rest) == [Name(name)] + rest
    ensures f.typ.List? ==> Down(f, name, rest) == [Star] + Down(f.(typ := f.typ.elem), name, rest)
  {
    if f.typ.List? {
      assert Stars(1 + Levels(f.typ.elem)) == [Star] + Stars(Levels(f.typ.elem));
    }
  }

  lemma {:induction false} FindIs(fields: seq<Field>, name: string)
    ensures Find(fields, name).Some? ==>
      exists i :: 0 <= i < |fields| && fields[i] == Find(fields, name).value && fields[i].name == name
  {
    if fields != [] && fields[0].name != name {
      FindIs(fields[1..], name);
      if Find(fields, name).Some? {
        var i :| 0 <= i < |fields[1..]| && fields[1..][i] == Find(fields[1..], name).value && fields[1..][i].name == name;
        assert fields[i + 1] == Find(fields, name).value;
      }
    }
  }

  lemma {:induction false} FindsAt(fields: seq<Field>, i: nat)
    requires DistinctFields(fields) && i < |fields|
    ensures Find(fields, fields[i].name) == Some(fields[i])
  {
    if i > 0 { FindsAt(fields[1..], i - 1); }
  }

  /** An input object is good throughout exactly when it is not inside itself and its fields are good
      throughout, inside it. */
  lemma AllGoodIsFieldsGood(schema: Schema, f: Field, chain: seq<string>)
    requires WellFormed(schema) && Base(f.typ) in schema && schema[Base(f.typ)].InputDef?
    ensures AllGood(schema, f, chain) <==>
      Base(f.typ) !in chain && FieldsGood(schema, schema[Base(f.typ)].fields, chain + [Base(f.typ)])
  {
    var t := Base(f.typ);
    var fields := schema[t].fields;
    if AllGood(schema, f, chain) {
      SelfGood(schema, f, chain);
      forall i | 0 <= i < |fields| ensures AllGood(schema, fields[i], chain + [t]) {
        forall rel | EndsInName(rel) ensures GoodAt(schema, fields[i], rel, chain + [t]) {
          FindsAt(fields, i);
          GoodDown(schema, f, fields[i].name, rel, chain);
          assert GoodAt(schema, f, Down(f, fields[i].name, rel), chain);
        }
      }
    }
    if t !in chain && FieldsGood(schema, fields, chain + [t]) {
      forall rel | EndsInName(rel) ensures GoodAt(schema, f, rel, chain) {
        if rel == [] {
          SelfGood(schema, f, chain);
        } else if Reach(schema, f, rel).Some? {
          var name, rest := ReachIsDown(schema, f, rel);
          FindIs(fields, name);
          var i :| 0 <= i < |fields| && fields[i] == Find(fields, name).value && fields[i].name == name;
          FindsAt(fields, i);
          assert AllGood(schema, fields[i], chain + [t]);
          assert GoodAt(schema, fields[i], rest, chain + [t]);
          GoodDown(schema, f, name, rest, chain);
        }
      }
    }
  }

  lemma SelfGood(schema: Schema, f: Field, chain: seq<string>)
    ensures GoodAt(schema, f, [], chain) <==>
      var t := Base(f.typ); t in schema && !schema[t].OutputDef? && (schema[t].InputDef? ==> t !in chain)
  {
  }

  lemma GoodDown(schema: Schema, f: Field, name: string, rel: Path, chain: seq<string>)
    requires Find(FieldsOf(schema, Base(f.typ)), name).Some? && Base(f.typ) !in chain
    ensures GoodAt(schema, f, Down(f, name, rel), chain) <==>
      GoodAt(schema, Find(FieldsOf(schema, Base(f.typ)), name).value, rel, chain + [Base(f.typ)])
  {
    ReachDown(schema, f, name, rel);
  }

  // ---------------------------------------------------------------------------
  // The walk lists every input path once
  // ---------------------------------------------------------------------------

  predicate IsPrefix(a: Path, b: Path) { |a| <= |b| && b[..|a|] == a }

  predicate Has(nodes: seq<Node>, p: Path) { exists i :: 0 <= i < |nodes| && nodes[i].path == p }

  /** No node stands after itself or after a node below it. */
  predicate ParentsFirst(nodes: seq<Node>) {
    forall i, j :: 0 <= i < j < |nodes| ==> !IsPrefix(nodes[j].path, nodes[i].path)
  }

  /** The node describes the input those steps reach. */
  predicate Describes(schema: Schema, f: Field, path: Path, n: Node) {
    && IsPrefix(path, n.path) && EndsInName(n.path[|path|..])
    && Reach(schema, f, n.path[|path|..]).Some?
    && NodeIs(schema, Reach(schema, f, n.path[|path|..]).value, n)
  }

  predicate NodeIs(schema: Schema, g: Field, n: Node) {
    Base(g.typ) in schema && n == NodeOf(n.path, g, schema[Base(g.typ)])
  }

  ghost predicate Lists(schema: Schema, f: Field, path: Path, nodes: seq<Node>) {
    && (forall i :: 0 <= i < |nodes| ==> Describes(schema, f, path, nodes[i]))
    && (forall rel :: EndsInName(rel) && Reach(schema, f, rel).Some? ==> Has(nodes, path + rel))
    && ParentsFirst(nodes)
  }

  function Under(base: Path, f: Field): Path { base + [Name(f.name)] }

  /** The node describes an input at or below one of the fields. */
  ghost predicate DescribesSome(schema: Schema, fields: seq<Field>, base: Path, n: Node) {
    exists k :: 0 <= k < |fields| && Describes(schema, fields[k], Under(base, fields[k]), n)
  }

  ghost predicate ListsFields(schema: Schema, fields: seq<Field>, base: Path, nodes: seq<Node>) {
    && (forall i :: 0 <= i < |nodes| ==> DescribesSome(schema, fields, base, nodes[i]))
    && (forall k, rel :: 0 <= k < |fields| && EndsInName(rel) && Reach(schema, fields[k], rel).Some? ==>
          Has(nodes, Under(base, fields[k]) + rel))
    && ParentsFirst(nodes)
  }

  lemma HasBoth(a: seq<Node>, b: seq<Node>, p: Path)
    ensures Has(a + b, p) <==> Has(a, p) || Has(b, p)
  {
    var all := a + b;
    if Has(a, p) {
      var i :| 0 <= i < |a| && a[i].path == p;
      assert all[i].path == p;
    }
    if Has(b, p) {
      var i :| 0 <= i < |b| && b[i].path == p;
      assert all[|a| + i].path == p;
    }
    if Has(all, p) {
      var i :| 0 <= i < |all| && all[i].path == p;
      assert if i < |a| then a[i].path == p else b[i - |a|].path == p;
    }
  }

  lemma ParentsFirstBoth(a: seq<Node>, b: seq<Node>)
    requires ParentsFirst(a) && ParentsFirst(b)
    requires forall i, j :: 0 <= i < |a| && 0 <= j < |b| ==> !IsPrefix(b[j].path, a[i].path)
    ensures ParentsFirst(a + b)
  {
    hide IsPrefix;
    var all := a + b;
    forall i, j | 0 <= i < j < |all| ensures !IsPrefix(all[j].path, all[i].path) {
      if j < |a| { assert all[j] == a[j] && all[i] == a[i]; }
      else if i < |a| { assert all[j] == b[j - |a|] && all[i] == a[i]; }
      else { assert all[j] == b[j - |a|] && all[i] == b[i - |a|]; }
    }
  }

  /** What lies under two different names of one base is never a prefix of the other. */
  lemma ApartUnderNames(base: Path, f: Field, g: Field, p: Path, q: Path)
    requires f.name != g.name && IsPrefix(Under(base, f), p) && IsPrefix(Under(base, g), q)
    ensures !IsPrefix(q, p)
  {
    var n := |base|;
    assert p[n] == p[..n + 1][n] == Name(f.name);
    assert q[n] == q[..n + 1][n] == Name(g.name);
    assert |q| <= |p| ==> p[..|q|][n] == p[n];
  }

  /** A node of a field, seen from the input that has the field. */
  lemma DescribesDown(schema: Schema, f: Field, path: Path, g: Field, n: Node)
    requires Find(FieldsOf(schema, Base(f.typ)), g.name) == Some(g)
    requires Describes(schema, g, Under(path + Stars(Levels(f.typ)), g), n)
    ensures Describes(schema, f, path, n) && |n.path| > |path|
  {
    var below := Under(path + Stars(Levels(f.typ)), g);
    var rel := n.path[|below|..];
    assert n.path == below + rel;
    assert n.path == path + Down(f, g.name, rel);
    assert n.path[|path|..] == Down(f, g.name, rel);
    ReachDown(schema, f, g.name, rel);
  }

  lemma ListsDown(schema: Schema, f: Field, path: Path, below: seq<Node>)
    requires WellFormed(schema) && Base(f.typ) in schema && schema[Base(f.typ)].InputDef?
    requires ListsFields(schema, schema[Base(f.typ)].fields, path + Stars(Levels(f.typ)), below)
    ensures Lists(schema, f, path, [NodeOf(path, f, schema[Base(f.typ)])] + below)
  {
    hide Reach, Find, Describes, ParentsFirst, Stars, IsPrefix;
    var fields := schema[Base(f.typ)].fields;
    var node := NodeOf(path, f, schema[Base(f.typ)]);
    var base := path + Stars(Levels(f.typ));
    var all := [node] + below;
    DescribesSelf(schema, f, path);
    forall i | 0 <= i < |below| ensures Describes(schema, f, path, below[i]) && |below[i].path| > |path| {
      assert DescribesSome(schema, fields, base, below[i]);
      var k :| 0 <= k < |fields| && Describes(schema, fields[k], Under(base, fields[k]), below[i]);
      FindsAt(fields, k);
      DescribesDown(schema, f, path, fields[k], below[i]);
    }
    assert forall i :: 0 < i < |all| ==> all[i] == below[i - 1];
    forall rel | EndsInName(rel) && Reach(schema, f, rel).Some? ensures Has(all, path + rel) {
      HasBoth([node], below, path + rel);
      if rel == [] {
        assert path + rel == path && [node][0].path == path;
      } else {
        HasDown(schema, f, path, below, rel);
      }
    }
    RootFirst(node, below);
  }

  lemma RootFirst(node: Node, below: seq<Node>)
    requires ParentsFirst(below) && forall j :: 0 <= j < |below| ==> |below[j].path| > |node.path|
    ensures ParentsFirst([node] + below)
  {
    ParentsFirstBoth([node], below);
  }

  lemma HasDown(schema: Schema, f: Field, path: Path, below: seq<Node>, rel: Path)
    requires WellFormed(schema) && Base(f.typ) in schema && schema[Base(f.typ)].InputDef?
    requires ListsFields(schema, schema[Base(f.typ)].fields, path + Stars(Levels(f.typ)), below)
    requires rel != [] && EndsInName(rel) && Reach(schema, f, rel).Some?
    ensures Has(below, path + rel)
  {
    var fields := schema[Base(f.typ)].fields;
    var base := path + Stars(Levels(f.typ));
    var name, rest := ReachIsDown(schema, f, rel);
    ReachDown(schema, f, name, rest);
    FindIs(fields, name);
    var k :| 0 <= k < |fields| && fields[k] == Find(fields, name).value && fields[k].name == name;
    DownIsUnder(path, f, fields[k], rest);
  }

  lemma DownIsUnder(path: Path, f: Field, g: Field, rest: Path)
    ensures Under(path + Stars(Levels(f.typ)), g) + rest == path + Down(f, g.name, rest)
  {
    hide Stars;
  }

  lemma DescribesSelf(schema: Schema, f: Field, path: Path)
    requires Base(f.typ) in schema
    ensures Describes(schema, f, path, NodeOf(path, f, schema[Base(f.typ)]))
  {
    assert path[|path|..] == [];
  }

  lemma ListsLeaf(schema: Schema, f: Field, path: Path)
    requires Base(f.typ) in schema && !schema[Base(f.typ)].InputDef?
    ensures Lists(schema, f, path, [NodeOf(path, f, schema[Base(f.typ)])])
  {
    var node := NodeOf(path, f, schema[Base(f.typ)]);
    DescribesSelf(schema, f, path);
    forall rel | EndsInName(rel) && Reach(schema, f, rel).Some? ensures rel == [] {
      if rel != [] { OnlyObjectsGoOn(schema, f, rel); }
    }
    assert [node][0].path == path && path + [] == path;
  }

  lemma OnlyObjectsGoOn(schema: Schema, f: Field, rel: Path)
    requires EndsInName(rel) && rel != [] && Reach(schema, f, rel).Some?
    ensures Base(f.typ) in schema && schema[Base(f.typ)].InputDef?
  {
    var name, rest := ReachIsDown(schema, f, rel);
  }

  lemma LeafGood(schema: Schema, f: Field, chain: seq<string>)
    requires !(Base(f.typ) in schema && schema[Base(f.typ)].InputDef?)
    ensures AllGood(schema, f, chain) <==> Base(f.typ) in schema && !schema[Base(f.typ)].OutputDef?
  {
    SelfGood(schema, f, chain);
    if Base(f.typ) in schema && !schema[Base(f.typ)].OutputDef? {
      forall rel | EndsInName(rel) ensures GoodAt(schema, f, rel, chain) {
        if rel != [] && Reach(schema, f, rel).Some? { OnlyObjectsGoOn(schema, f, rel); }
      }
    }
    if AllGood(schema, f, chain) { assert GoodAt(schema, f, [], chain); }
  }

  lemma {:induction false} WalkIsExact(schema: Schema, path: Path, f: Field, chain: seq<string>)
    requires WellFormed(schema)
    ensures Walk(schema, path, f, chain).Ok? <==> AllGood(schema, f, chain)
    ensures Walk(schema, path, f, chain).Ok? ==> Lists(schema, f, path, Walk(schema, path, f, chain).value)
    decreases OffChain(schema, chain), 0
  {
    hide AllGood, Lists, Reach, GoodAt, FieldsGood, ListsFields, OffChain;
    var t := Base(f.typ);
    if t !in schema || !schema[t].InputDef? {
      LeafGood(schema, f, chain);
      if t in schema { ListsLeaf(schema, f, path); }
    } else {
      AllGoodIsFieldsGood(schema, f, chain);
      if t !in chain {
        ChainGrows(schema, chain, t);
        WalkFieldsIsExact(schema, path + Stars(Levels(f.typ)), schema[t].fields, chain + [t]);
        if Walk(schema, path, f, chain).Ok? {
          ListsDown(schema, f, path, WalkFields(schema, path + Stars(Levels(f.typ)), schema[t].fields, chain + [t]).value);
        }
      }
    }
  }

  lemma {:induction false} WalkFieldsIsExact(schema: Schema, base: Path, fields: seq<Field>, chain: seq<string>)
    requires WellFormed(schema) && DistinctFields(fields)
    ensures WalkFields(schema, base, fields, chain).Ok? <==> FieldsGood(schema, fields, chain)
    ensures WalkFields(schema, base, fields, chain).Ok? ==>
      ListsFields(schema, fields, base, WalkFields(schema, base, fields, chain).value)
    decreases OffChain(schema, chain), |fields| + 1
  {
    hide AllGood, Lists, ListsFields, Walk, OffChain, WellFormed;
    if fields == [] {
      ListsNone(schema, base);
    } else {
      WalkIsExact(schema, Under(base, fields[0]), fields[0], chain);
      WalkFieldsIsExact(schema, base, fields[1..], chain);
      assert forall i :: 0 < i < |fields| ==> fields[i] == fields[1..][i - 1];
      if WalkFields(schema, base, fields, chain).Ok? {
        ListsFirst(schema, base, fields, Walk(schema, Under(base, fields[0]), fields[0], chain).value,
                   WalkFields(schema, base, fields[1..], chain).value);
      }
    }
  }

  lemma ListsNone(schema: Schema, base: Path)
    ensures ListsFields(schema, [], base, [])
  {
  }

  lemma ListsFirst(schema: Schema, base: Path, fields: seq<Field>, first: seq<Node>, rest: seq<Node>)
    requires fields != [] && DistinctFields(fields)
    requires Lists(schema, fields[0], Under(base, fields[0]), first) && ListsFields(schema, fields[1..], base, rest)
    ensures ListsFields(schema, fields, base, first + rest)
  {
    hide Reach, ParentsFirst, EndsInName, Has, Under;
    var all, tail := first + rest, fields[1..];
    assert forall k :: 0 <= k < |tail| ==> tail[k] == fields[k + 1];
    forall i | 0 <= i < |all| ensures DescribesSome(schema, fields, base, all[i]) {
      if i < |first| {
        assert Describes(schema, fields[0], Under(base, fields[0]), all[i]);
      } else {
        assert DescribesSome(schema, tail, base, rest[i - |first|]);
        var k :| 0 <= k < |tail| && Describes(schema, tail[k], Under(base, tail[k]), rest[i - |first|]);
        assert Describes(schema, fields[k + 1], Under(base, fields[k + 1]), all[i]);
      }
    }
    forall k, rel | 0 <= k < |fields| && EndsInName(rel) && Reach(schema, fields[k], rel).Some?
      ensures Has(all, Under(base, fields[k]) + rel) {
      HasBoth(first, rest, Under(base, fields[k]) + rel);
      if k > 0 { assert fields[k] == tail[k - 1]; }
    }
    forall i, j | 0 <= i < |first| && 0 <= j < |rest| ensures !IsPrefix(rest[j].path, first[i].path) {
      assert DescribesSome(schema, tail, base, rest[j]);
      var k :| 0 <= k < |tail| && Describes(schema, tail[k], Under(base, tail[k]), rest[j]);
      ApartUnderNames(base, fields[0], tail[k], first[i].path, rest[j].path);
    }
    ParentsFirstBoth(first, rest);
  }

  // ---------------------------------------------------------------------------
  // Over an operation's variables
  // ---------------------------------------------------------------------------

  /** The input a path names, if it names one. */
  function InputAt(schema: Schema, variables: seq<Field>, p: Path): Option<Field> {
    if p == [] || !p[0].Name? || !EndsInName(p[1..]) then None else
    match Find(variables, p[0].id)
    case None => None
    case Some(f) => Reach(schema, f, p[1..])
  }

  function PassedTo(schema: Schema, variables: seq<Field>, p: Path): seq<string>
    requires InputAt(schema, variables, p).Some?
  {
    Passed(schema, Find(variables, p[0].id).value, p[1..])
  }

  /** A path the walk can take: a known input type, and an object type not inside itself. */
  predicate Walkable(schema: Schema, variables: seq<Field>, p: Path)
    requires InputAt(schema, variables, p).Some?
  {
    var t := Base(InputAt(schema, variables, p).value.typ);
    && t in schema && !schema[t].OutputDef?
    && (schema[t].InputDef? ==> t !in PassedTo(schema, variables, p))
  }

  /** THE WALK IS EXACT: it succeeds exactly when every input path can be walked, and then lists every
      input path exactly once, as what it is, parents before children. */
  lemma WalkListsEveryInput(schema: Schema, variables: seq<Field>)
    requires WellFormed(schema) && DistinctFields(variables)
    ensures WalkVariables(schema, variables).Ok? <==>
      forall p :: InputAt(schema, variables, p).Some? ==> Walkable(schema, variables, p)
    ensures WalkVariables(schema, variables).Ok? ==>
      var nodes := WalkVariables(schema, variables).value;
      && (forall p :: InputAt(schema, variables, p).Some? <==> Has(nodes, p))
      && (forall i :: 0 <= i < |nodes| ==>
            InputAt(schema, variables, nodes[i].path).Some? && NodeIs(schema, InputAt(schema, variables, nodes[i].path).value, nodes[i]))
      && ParentsFirst(nodes)
  {
    hide Walk, WalkFields, AllGood, Reach, Passed, Find, ParentsFirst, Describes, NodeIs, InputAt, FieldsGood, Walkable, ListsFields;
    WalkFieldsIsExact(schema, [], variables, []);
    WalkableIsGood(schema, variables);
    if WalkVariables(schema, variables).Ok? {
      var nodes := WalkVariables(schema, variables).value;
      ListsInputs(schema, variables, nodes);
    }
  }

  lemma WalkableIsGood(schema: Schema, variables: seq<Field>)
    requires DistinctFields(variables)
    ensures FieldsGood(schema, variables, []) <==>
      forall p :: InputAt(schema, variables, p).Some? ==> Walkable(schema, variables, p)
  {
    hide Reach, Passed, Find;
    if FieldsGood(schema, variables, []) {
      forall p: Path | InputAt(schema, variables, p).Some? ensures Walkable(schema, variables, p) {
        FindIs(variables, p[0].id);
        var k :| 0 <= k < |variables| && variables[k] == Find(variables, p[0].id).value && variables[k].name == p[0].id;
        assert AllGood(schema, variables[k], []);
        assert GoodAt(schema, variables[k], p[1..], []);
      }
    }
    if forall p :: InputAt(schema, variables, p).Some? ==> Walkable(schema, variables, p) {
      forall k | 0 <= k < |variables| ensures AllGood(schema, variables[k], []) {
        FindsAt(variables, k);
        forall rel | EndsInName(rel) ensures GoodAt(schema, variables[k], rel, []) {
          var p := [Name(variables[k].name)] + rel;
          assert p[1..] == rel;
          assert InputAt(schema, variables, p) == Reach(schema, variables[k], rel);
        }
      }
    }
  }

  lemma ListsInputs(schema: Schema, variables: seq<Field>, nodes: seq<Node>)
    requires DistinctFields(variables) && ListsFields(schema, variables, [], nodes)
    ensures forall p :: InputAt(schema, variables, p).Some? <==> Has(nodes, p)
    ensures forall i :: 0 <= i < |nodes| ==>
      InputAt(schema, variables, nodes[i].path).Some? && NodeIs(schema, InputAt(schema, variables, nodes[i].path).value, nodes[i])
    ensures ParentsFirst(nodes)
  {
    hide Reach, Find, ParentsFirst, NodeIs;
    forall i | 0 <= i < |nodes|
      ensures InputAt(schema, variables, nodes[i].path).Some?
      ensures NodeIs(schema, InputAt(schema, variables, nodes[i].path).value, nodes[i]) {
      assert DescribesSome(schema, variables, [], nodes[i]);
      var k :| 0 <= k < |variables| && Describes(schema, variables[k], Under([], variables[k]), nodes[i]);
      FindsAt(variables, k);
      assert nodes[i].path[..1] == [Name(variables[k].name)];
      assert nodes[i].path[0] == nodes[i].path[..1][0];
    }
    forall p: Path | InputAt(schema, variables, p).Some? ensures Has(nodes, p) {
      FindIs(variables, p[0].id);
      var k :| 0 <= k < |variables| && variables[k] == Find(variables, p[0].id).value && variables[k].name == p[0].id;
      assert Under([], variables[k]) + p[1..] == p;
    }
  }

  lemma {:induction false} ReachBoth(schema: Schema, f: Field, a: Path, b: Path)
    requires Reach(schema, f, a).Some?
    ensures Reach(schema, f, a + b) == Reach(schema, Reach(schema, f, a).value, b)
    decreases |a|
  {
    if a == [] {
      assert a + b == b;
    } else {
      assert (a + b)[0] == a[0] && (a + b)[1..] == a[1..] + b;
      match f.typ {
        case List(e) => ReachBoth(schema, f.(typ := e), a[1..], b);
        case Named(t) => ReachBoth(schema, Find(FieldsOf(schema, t), a[0].id).value, a[1..], b);
      }
    }
  }

  /** Whatever an input path passes through is an input object. */
  lemma AncestorIsObject(schema: Schema, variables: seq<Field>, p: Path, q: Path)
    requires InputAt(schema, variables, p).Some? && InputAt(schema, variables, q).Some? && IsPrefix(q, p) && |q| < |p|
    ensures var g := InputAt(schema, variables, q).value; Base(g.typ) in schema && schema[Base(g.typ)].InputDef?
  {
    var rel := p[|q|..];
    assert p[1..] == q[1..] + rel && p[0] == q[0];
    assert rel[|rel| - 1] == p[|p| - 1] == p[1..][|p| - 2];
    var f := Find(variables, q[0].id).value;
    ReachBoth(schema, f, q[1..], rel);
    OnlyObjectsGoOn(schema, Reach(schema, f, q[1..]).value, rel);
  }
}
