/** Classifying every input path of an operation as allowed or refused, with refusals inherited down a
    path and permission passed up to the objects on the way. */
module OperationPolicy {
  import opened Prelude
  import opened VariableWalk

  datatype Refusal = PersonScope | NotOnAllowlist | DeclaredRefusal(code: string, reason: string)

  datatype ValueRefusal = ValueRefusal(value: string, refusal: Refusal)

  datatype Source = NotSettable | Client | Forced | OtherSource(name: string)

  /** A declared variable. No source means client; `limits` stands for the bounds that are copied as
      they are. */
  datatype VarDecl = VarDecl(
    source: Option<Source>, forced: string, allowedValues: seq<string>, refusedValues: seq<ValueRefusal>, limits: string
  )

  const UNDECLARED: VarDecl := VarDecl(None, "", [], [], "")

  datatype Decl = Decl(variables: map<Path, VarDecl>, refused: map<Path, Refusal>)
  {
    function For(p: Path): VarDecl { if p in variables then variables[p] else UNDECLARED }
  }

  datatype Rule = Rule(
    node: Node, allowed: bool, source: Source, forced: string, allowedValues: seq<string>, limits: string,
    refusal: Option<Refusal>, refusedValues: seq<ValueRefusal>
  )

  datatype PersonVariable = PersonPath(path: Path) | PersonValue(path: Path, value: string)

  datatype PolicyError =
    | NotWalkable(error: WalkError)
    | UnknownDeclared | UnknownRefused
    | AllowedUnderRefused(at: Path) | PersonAllowed(at: Path) | NoValueList(at: Path) | PersonValueAllowed(at: Path)
    | NotAnEnumValue(at: Path) | AllowedAndRefused(at: Path) | ForcedWithoutValue(at: Path)

  // ---------------------------------------------------------------------------
  // Paths
  // ---------------------------------------------------------------------------

  predicate StrictlyUnder(anc: Path, p: Path) { IsPrefix(anc, p) && |anc| < |p| }

  /** What the prefix tests see: a field of the ancestor, or of its list elements. */
  predicate Beneath(anc: Path, p: Path) {
    && StrictlyUnder(anc, p)
    && (p[|anc|].Name? || (|p| > |anc| + 1 && p[|anc| + 1].Name?))
  }

  /** Under an ancestor through two list levels, which the prefix tests do not see. */
  predicate DeepUnder(anc: Path, p: Path) {
    IsPrefix(anc, p) && |p| > |anc| + 1 && p[|anc|].Star? && p[|anc| + 1].Star?
  }

  lemma UnderIsBeneathOrDeep(anc: Path, p: Path)
    requires p != [] && EndsInName(p)
    ensures StrictlyUnder(anc, p) <==> Beneath(anc, p) || DeepUnder(anc, p)
    ensures !(Beneath(anc, p) && DeepUnder(anc, p))
  {
  }

  predicate HasPersonName(isPerson: string -> bool, p: Path) {
    exists i :: 0 <= i < |p| && p[i].Name? && isPerson(p[i].id)
  }

  // ---------------------------------------------------------------------------
  // The nearest refused ancestor
  // ---------------------------------------------------------------------------

  function Parent(p: Path): Path { if p == [] then [] else p[..|p| - 1] }

  /** The refusal at the longest refused prefix. */
  ghost predicate IsNearest(refused: map<Path, Refusal>, p: Path, r: Option<Refusal>) {
    match r
    case None => forall k :: 0 < k <= |p| ==> p[..k] !in refused
    case Some(refusal) =>
      exists k :: 0 < k <= |p| && p[..k] in refused && refused[p[..k]] == refusal && forall j :: k < j <= |p| ==> p[..j] !in refused
  }

  method RefusedSelfOrAncestor(refused: map<Path, Refusal>, p: Path) returns (r: Option<Refusal>)
    ensures IsNearest(refused, p, r)
  {
    var at := p;
    assert p[..|p|] == p;
    while at != []
      invariant |at| <= |p| && at == p[..|at|]
      invariant forall j :: |at| < j <= |p| ==> p[..j] !in refused
      decreases |at|
    {
      if at in refused {
        return Some(refused[at]);
      }
      at := Parent(at);
    }
    return None;
  }

  lemma NearestIsUnique(refused: map<Path, Refusal>, p: Path, r: Option<Refusal>, s: Option<Refusal>)
    requires IsNearest(refused, p, r) && IsNearest(refused, p, s)
    ensures r == s
  {
    if r.Some? && s.Some? {
      var k :| 0 < k <= |p| && p[..k] in refused && refused[p[..k]] == r.value && forall j :: k < j <= |p| ==> p[..j] !in refused;
      var l :| 0 < l <= |p| && p[..l] in refused && refused[p[..l]] == s.value && forall j :: l < j <= |p| ==> p[..j] !in refused;
      assert k == l;
    }
  }

  // ---------------------------------------------------------------------------
  // What a rule must be
  // ---------------------------------------------------------------------------

  /** Declared, or an object on the way to something declared. */
  ghost predicate DeclaredFor(decl: Decl, n: Node) {
    n.path in decl.variables || (n.kind.ObjectKind? && exists p :: p in decl.variables && Beneath(n.path, p))
  }

  function PersonValuesOf(isPerson: string -> bool, values: seq<string>): seq<string> {
    if values == [] then [] else
    PersonValuesOf(isPerson, values[..|values| - 1]) + if isPerson(values[|values| - 1]) then [values[|values| - 1]] else []
  }

  /** The node may be allowed. */
  ghost predicate Permits(decl: Decl, isPerson: string -> bool, n: Node) {
    && (forall anc :: anc in decl.refused ==> !Beneath(anc, n.path))
    && !HasPersonName(isPerson, n.path)
    && (n.kind.EnumKind? ==>
          && decl.For(n.path).allowedValues != []
          && (forall i :: 0 <= i < |decl.For(n.path).allowedValues| ==>
                !isPerson(decl.For(n.path).allowedValues[i]) && decl.For(n.path).allowedValues[i] in n.values))
    && n.path !in decl.refused
    && (decl.For(n.path).source == Some(Forced) ==> decl.For(n.path).forced != "")
  }

  function SourceOf(d: VarDecl): Source { if d.source.None? then Client else d.source.value }

  /** The person values of an enum: none are listed for a path that is itself a person path. */
  function PersonValuesAt(isPerson: string -> bool, n: Node): seq<string> {
    if HasPersonName(isPerson, n.path) then [] else PersonValuesOf(isPerson, n.values)
  }

  function AsPersonRefusals(values: seq<string>): seq<ValueRefusal> {
    if values == [] then [] else AsPersonRefusals(values[..|values| - 1]) + [ValueRefusal(values[|values| - 1], PersonScope)]
  }

  /** The declared value refusals that are not person values. */
  function OtherRefusals(declared: seq<ValueRefusal>, persons: seq<string>): seq<ValueRefusal> {
    if declared == [] then [] else
    OtherRefusals(declared[..|declared| - 1], persons) +
    if declared[|declared| - 1].value in persons then [] else [declared[|declared| - 1]]
  }

  function RefusedValuesOf(decl: Decl, isPerson: string -> bool, n: Node): seq<ValueRefusal> {
    if !n.kind.EnumKind? then [] else
    var persons := PersonValuesAt(isPerson, n);
    AsPersonRefusals(persons) + OtherRefusals(decl.For(n.path).refusedValues, persons)
  }

  ghost predicate ValuesKnown(decl: Decl, isPerson: string -> bool, n: Node) {
    n.kind.EnumKind? ==>
      forall i :: 0 <= i < |decl.For(n.path).refusedValues| ==>
        decl.For(n.path).refusedValues[i].value in PersonValuesAt(isPerson, n) ||
        decl.For(n.path).refusedValues[i].value in n.values
  }

  ghost predicate Acceptable(decl: Decl, isPerson: string -> bool, n: Node) {
    (DeclaredFor(decl, n) ==> Permits(decl, isPerson, n)) && ValuesKnown(decl, isPerson, n)
  }

  /** The rule of an acceptable node. */
  ghost predicate IsRule(decl: Decl, isPerson: string -> bool, n: Node, rule: Rule) {
    && rule.node == n
    && rule.allowed == DeclaredFor(decl, n)
    && rule.refusedValues == RefusedValuesOf(decl, isPerson, n)
    && (rule.allowed ==>
          && rule.refusal.None?
          && rule.source == SourceOf(decl.For(n.path)) && rule.forced == decl.For(n.path).forced
          && rule.allowedValues == decl.For(n.path).allowedValues && rule.limits == decl.For(n.path).limits)
    && (!rule.allowed ==>
          && rule.source == NotSettable && rule.forced == "" && rule.allowedValues == [] && rule.limits == ""
          && rule.refusal.Some?
          && if HasPersonName(isPerson, n.path) then rule.refusal == Some(PersonScope)
             else exists near :: IsNearest(decl.refused, n.path, near) &&
                                 rule.refusal == Some(if near.Some? then near.value else NotOnAllowlist))
  }

  // ---------------------------------------------------------------------------
  // Building the rules
  // ---------------------------------------------------------------------------

  /** Whether something declared lies beneath the path; the map is searched in any order. */
  method SomeBeneath(paths: set<Path>, at: Path) returns (found: bool)
    ensures found <==> exists p :: p in paths && Beneath(at, p)
  {
    hide Beneath;
    var left := paths;
    while left != {}
      invariant left <= paths
      invariant forall p :: p in paths && p !in left ==> !Beneath(at, p)
      decreases left
    {
      var p :| p in left;
      if Beneath(at, p) {
        return true;
      }
      left := left - {p};
    }
    return false;
  }

  /** Whether the path lies beneath a refused one. */
  method BeneathRefused(refused: set<Path>, at: Path) returns (found: bool)
    ensures found <==> exists anc :: anc in refused && Beneath(anc, at)
  {
    hide Beneath;
    var left := refused;
    while left != {}
      invariant left <= refused
      invariant forall p :: p in refused && p !in left ==> !Beneath(p, at)
      decreases left
    {
      var p :| p in left;
      if Beneath(p, at) {
        return true;
      }
      left := left - {p};
    }
    return false;
  }

  method CheckAllowedValues(isPerson: string -> bool, n: Node, allowed: seq<string>) returns (r: Option<PolicyError>)
    ensures r.None? <==> forall i :: 0 <= i < |allowed| ==> !isPerson(allowed[i]) && allowed[i] in n.values
  {
    for i := 0 to |allowed|
      invariant forall j :: 0 <= j < i ==> !isPerson(allowed[j]) && allowed[j] in n.values
    {
      if isPerson(allowed[i]) {
        return Some(PersonValueAllowed(n.path));
      }
      if allowed[i] !in n.values {
        return Some(NotAnEnumValue(n.path));
      }
    }
    return None;
  }

  /** The value refusals of an enum: its person values, then the declared ones that are not. */
  method CollectRefusedValues(n: Node, persons: seq<string>, declared: seq<ValueRefusal>)
    returns (r: Result<seq<ValueRefusal>, PolicyError>)
    ensures r.Ok? <==> forall i :: 0 <= i < |declared| ==> declared[i].value in persons || declared[i].value in n.values
    ensures r.Ok? ==> r.value == AsPersonRefusals(persons) + OtherRefusals(declared, persons)
  {
    var out: seq<ValueRefusal> := [];
    for i := 0 to |persons|
      invariant out == AsPersonRefusals(persons[..i])
    {
      assert persons[..i + 1][..i] == persons[..i];
      out := out + [ValueRefusal(persons[i], PersonScope)];
    }
    assert persons[..|persons|] == persons;
    for i := 0 to |declared|
      invariant forall j :: 0 <= j < i ==> declared[j].value in persons || declared[j].value in n.values
      invariant out == AsPersonRefusals(persons) + OtherRefusals(declared[..i], persons)
    {
      assert declared[..i + 1][..i] == declared[..i];
      if declared[i].value in persons {
        continue;
      }
      if declared[i].value !in n.values {
        return Err(NotAnEnumValue(n.path));
      }
      out := out + [declared[i]];
    }
    assert declared[..|declared|] == declared;
    return Ok(out);
  }

  /** One node classified; `person` and `persons` are what the person scan recorded for its path. */
  method BuildRule(decl: Decl, isPerson: string -> bool, n: Node, person: bool, persons: seq<string>)
    returns (r: Result<Rule, PolicyError>)
    requires person == HasPersonName(isPerson, n.path) && persons == PersonValuesAt(isPerson, n)
    ensures r.Ok? <==> Acceptable(decl, isPerson, n)
    ensures r.Ok? ==> IsRule(decl, isPerson, n, r.value)
  {
    hide Beneath, HasPersonName, AsPersonRefusals, OtherRefusals, PersonValuesOf, PersonValuesAt, IsNearest;
    var d := decl.For(n.path);
    var declared := n.path in decl.variables;
    if n.kind.ObjectKind? && !declared {
      declared := SomeBeneath(decl.variables.Keys, n.path);
    }
    assert declared == DeclaredFor(decl, n);
    var under := BeneathRefused(decl.refused.Keys, n.path);
    if declared && under {
      return Err(AllowedUnderRefused(n.path));
    }
    var rule := Rule(n, false, NotSettable, "", [], "", None, []);
    if declared {
      if person {
        return Err(PersonAllowed(n.path));
      }
      if n.kind.EnumKind? {
        if d.allowedValues == [] {
          return Err(NoValueList(n.path));
        }
        var bad := CheckAllowedValues(isPerson, n, d.allowedValues);
        if bad.Some? {
          return Err(bad.value);
        }
      }
      if n.path in decl.refused {
        return Err(AllowedAndRefused(n.path));
      }
      rule := rule.(allowed := true, source := SourceOf(d), forced := d.forced, allowedValues := d.allowedValues, limits := d.limits);
      if rule.source == Forced && rule.forced == "" {
        return Err(ForcedWithoutValue(n.path));
      }
    } else if person {
      rule := rule.(refusal := Some(PersonScope));
    } else {
      var near := RefusedSelfOrAncestor(decl.refused, n.path);
      rule := rule.(refusal := Some(if near.Some? then near.value else NotOnAllowlist));
    }
    if n.kind.EnumKind? {
      var values := CollectRefusedValues(n, persons, d.refusedValues);
      if values.Err? {
        return Err(values.error);
      }
      rule := rule.(refusedValues := values.value);
    }
    return Ok(rule);
  }

  // ---------------------------------------------------------------------------
  // The person scan
  // ---------------------------------------------------------------------------

  function AsPersonValues(p: Path, values: seq<string>): seq<PersonVariable> {
    if values == [] then [] else AsPersonValues(p, values[..|values| - 1]) + [PersonValue(p, values[|values| - 1])]
  }

  function PersonsAt(isPerson: string -> bool, n: Node): seq<PersonVariable> {
    if HasPersonName(isPerson, n.path) then [PersonPath(n.path)] else AsPersonValues(n.path, PersonValuesOf(isPerson, n.values))
  }

  function PersonsOf(isPerson: string -> bool, nodes: seq<Node>): seq<PersonVariable> {
    if nodes == [] then [] else PersonsOf(isPerson, nodes[..|nodes| - 1]) + PersonsAt(isPerson, nodes[|nodes| - 1])
  }

  method PersonValuesIn(isPerson: string -> bool, n: Node) returns (found: seq<PersonVariable>)
    ensures found == AsPersonValues(n.path, PersonValuesOf(isPerson, n.values))
  {
    hide AsPersonValues, PersonValuesOf;
    found := [];
    NoPersonValues(isPerson, n);
    for j := 0 to |n.values|
      invariant found == AsPersonValues(n.path, PersonValuesOf(isPerson, n.values[..j]))
    {
      OneMoreValue(isPerson, n, j);
      if isPerson(n.values[j]) {
        found := found + [PersonValue(n.path, n.values[j])];
      }
    }
    assert n.values[..|n.values|] == n.values;
  }

  lemma NoPersonValues(isPerson: string -> bool, n: Node)
    ensures AsPersonValues(n.path, PersonValuesOf(isPerson, n.values[..0])) == []
  {
  }

  lemma OneMoreValue(isPerson: string -> bool, n: Node, j: nat)
    requires j < |n.values|
    ensures AsPersonValues(n.path, PersonValuesOf(isPerson, n.values[..j + 1])) ==
      AsPersonValues(n.path, PersonValuesOf(isPerson, n.values[..j])) +
      if isPerson(n.values[j]) then [PersonValue(n.path, n.values[j])] else []
  {
    assert n.values[..j + 1][..j] == n.values[..j];
    var so, v := PersonValuesOf(isPerson, n.values[..j]), n.values[j];
    if isPerson(v) {
      assert PersonValuesOf(isPerson, n.values[..j + 1]) == so + [v];
      assert (so + [v])[..|so|] == so && (so + [v])[|so|] == v;
    } else {
      assert PersonValuesOf(isPerson, n.values[..j + 1]) == so;
    }
  }

  /** The person-scoped inputs: a person-named step, else each person-named enum value. */
  method PersonVariables(isPerson: string -> bool, nodes: seq<Node>) returns (persons: seq<PersonVariable>)
    ensures persons == PersonsOf(isPerson, nodes)
  {
    persons := [];
    for i := 0 to |nodes|
      invariant persons == PersonsOf(isPerson, nodes[..i])
    {
      var n := nodes[i];
      assert nodes[..i + 1][..i] == nodes[..i];
      if HasPersonName(isPerson, n.path) {
        persons := persons + [PersonPath(n.path)];
        continue;
      }
      var values := PersonValuesIn(isPerson, n);
      persons := persons + values;
    }
    assert nodes[..|nodes|] == nodes;
  }

  /** The scan's record by path. */
  datatype PersonBook = PersonBook(paths: set<Path>, values: map<Path, seq<string>>)

  function Noted(book: PersonBook, v: PersonVariable): PersonBook {
    match v
    case PersonPath(p) => book.(paths := book.paths + {p})
    case PersonValue(p, value) => book.(values := book.values[p := ValuesAt(book, p) + [value]])
  }

  function ValuesAt(book: PersonBook, p: Path): seq<string> { if p in book.values then book.values[p] else [] }

  function BookOf(persons: seq<PersonVariable>): PersonBook {
    if persons == [] then PersonBook({}, map[]) else Noted(BookOf(persons[..|persons| - 1]), persons[|persons| - 1])
  }

  method KeepBook(persons: seq<PersonVariable>) returns (book: PersonBook)
    ensures book == BookOf(persons)
  {
    book := PersonBook({}, map[]);
    for i := 0 to |persons|
      invariant book == BookOf(persons[..i])
    {
      assert persons[..i + 1][..i] == persons[..i];
      match persons[i] {
        case PersonPath(p) => book := book.(paths := book.paths + {p});
        case PersonValue(p, value) =>
          book := book.(values := book.values[p := (if p in book.values then book.values[p] else []) + [value]]);
      }
    }
    assert persons[..|persons|] == persons;
  }

  /** What a list of scan results says about one path. */
  function ValuesIn(persons: seq<PersonVariable>, p: Path): seq<string> {
    if persons == [] then [] else
    ValuesIn(persons[..|persons| - 1], p) +
    if persons[|persons| - 1].PersonValue? && persons[|persons| - 1].path == p then [persons[|persons| - 1].value] else []
  }

  lemma {:induction false} BookIs(persons: seq<PersonVariable>, p: Path)
    ensures p in BookOf(persons).paths <==> PersonPath(p) in persons
    ensures ValuesAt(BookOf(persons), p) == ValuesIn(persons, p)
  {
    if persons != [] {
      var n := |persons| - 1;
      BookIs(persons[..n], p);
      assert persons == persons[..n] + [persons[n]];
    }
  }

  lemma {:induction false} ValuesInBoth(a: seq<PersonVariable>, b: seq<PersonVariable>, p: Path)
    ensures ValuesIn(a + b, p) == ValuesIn(a, p) + ValuesIn(b, p)
    decreases |b|
  {
    if b == [] {
      assert a + b == a;
    } else {
      var n := |b| - 1;
      assert (a + b)[..|a| + n] == a + b[..n];
      ValuesInBoth(a, b[..n], p);
    }
  }

  lemma {:induction false} ValuesInNode(at: Path, values: seq<string>, p: Path)
    ensures ValuesIn(AsPersonValues(at, values), p) == if at == p then values else []
    ensures PersonPath(p) !in AsPersonValues(at, values)
  {
    if values != [] {
      var n := |values| - 1;
      ValuesInNode(at, values[..n], p);
      var all := AsPersonValues(at, values);
      assert all[..|all| - 1] == AsPersonValues(at, values[..n]);
    }
  }

  lemma PersonsAtIs(isPerson: string -> bool, n: Node, p: Path)
    ensures ValuesIn(PersonsAt(isPerson, n), p) == if n.path == p then PersonValuesAt(isPerson, n) else []
    ensures PersonPath(p) in PersonsAt(isPerson, n) <==> n.path == p && HasPersonName(isPerson, p)
  {
    hide HasPersonName, PersonValuesOf;
    if HasPersonName(isPerson, n.path) {
      assert [PersonPath(n.path)][..0] == [];
    } else {
      ValuesInNode(n.path, PersonValuesOf(isPerson, n.values), p);
    }
  }

  ghost predicate DistinctPaths(nodes: seq<Node>) { forall i, j :: 0 <= i < j < |nodes| ==> nodes[i].path != nodes[j].path }

  /** For each node the scan recorded exactly its own person name and values. */
  lemma {:induction false} ScanIs(isPerson: string -> bool, nodes: seq<Node>, p: Path)
    ensures PersonPath(p) in PersonsOf(isPerson, nodes) <==> Has(nodes, p) && HasPersonName(isPerson, p)
    ensures DistinctPaths(nodes) ==> forall i :: 0 <= i < |nodes| && nodes[i].path == p ==>
      ValuesIn(PersonsOf(isPerson, nodes), p) == PersonValuesAt(isPerson, nodes[i])
    ensures !Has(nodes, p) ==> ValuesIn(PersonsOf(isPerson, nodes), p) == []
  {
    hide HasPersonName, PersonValuesAt, ValuesIn, PersonsAt;
    if nodes == [] {
      NoValuesIn(p);
    } else {
      var n := |nodes| - 1;
      var front, last := nodes[..n], nodes[n];
      ScanIs(isPerson, front, p);
      PersonsAtIs(isPerson, last, p);
      ValuesInBoth(PersonsOf(isPerson, front), PersonsAt(isPerson, last), p);
      HasBoth(front, [last], p);
      assert nodes == front + [last];
      assert Has([last], p) <==> last.path == p by { assert [last][0] == last; }
      assert forall i :: 0 <= i < n ==> nodes[i] == front[i];
      if last.path == p && DistinctPaths(nodes) { assert !Has(front, p); }
    }
  }

  lemma NoValuesIn(p: Path)
    ensures ValuesIn([], p) == []
  {
  }

  // ---------------------------------------------------------------------------
  // The operation's rules
  // ---------------------------------------------------------------------------

  ghost predicate AllKnown(paths: set<Path>, nodes: seq<Node>) { forall p :: p in paths ==> Has(nodes, p) }

  method CheckKnown(paths: set<Path>, known: set<Path>) returns (ok: bool)
    ensures ok <==> paths <= known
  {
    var left := paths;
    while left != {}
      invariant left <= paths && paths - left <= known
      decreases left
    {
      var p :| p in left;
      if p !in known {
        return false;
      }
      left := left - {p};
    }
    return true;
  }

  method KnownPaths(nodes: seq<Node>) returns (known: set<Path>)
    ensures forall p :: p in known <==> Has(nodes, p)
  {
    known := {};
    for i := 0 to |nodes|
      invariant forall p :: p in known <==> exists j :: 0 <= j < i && nodes[j].path == p
    {
      known := known + {nodes[i].path};
    }
  }

  /** What the declaration must satisfy, given the walked nodes. */
  ghost predicate Admissible(decl: Decl, isPerson: string -> bool, nodes: seq<Node>) {
    && AllKnown(decl.variables.Keys, nodes) && AllKnown(decl.refused.Keys, nodes)
    && forall i :: 0 <= i < |nodes| ==> Acceptable(decl, isPerson, nodes[i])
  }

  /** One rule for each node, in the nodes' order. */
  ghost predicate AreRules(decl: Decl, isPerson: string -> bool, nodes: seq<Node>, rules: seq<Rule>) {
    |rules| == |nodes| && forall i :: 0 <= i < |nodes| ==> IsRule(decl, isPerson, nodes[i], rules[i])
  }

  method BuildVariables(schema: Schema, variables: seq<Field>, decl: Decl, isPerson: string -> bool)
    returns (r: Result<(seq<Rule>, seq<PersonVariable>), PolicyError>)
    requires WellFormed(schema) && DistinctFields(variables)
    ensures r.Ok? <==>
      WalkVariables(schema, variables).Ok? && Admissible(decl, isPerson, WalkVariables(schema, variables).value)
    ensures r.Ok? ==> AreRules(decl, isPerson, WalkVariables(schema, variables).value, r.value.0)
    ensures r.Ok? ==> r.value.1 == PersonsOf(isPerson, WalkVariables(schema, variables).value)
  {
    hide Acceptable, IsRule, PersonsOf, WalkVariables, BookOf, InputAt, HasPersonName, PersonValuesAt, ValuesIn, ParentsFirst, Walkable, NodeIs;
    var walked := WalkVariables(schema, variables);
    if walked.Err? {
      return Err(NotWalkable(walked.error));
    }
    var nodes := walked.value;
    WalkListsEveryInput(schema, variables);
    ParentsFirstIsDistinct(nodes);
    var persons := PersonVariables(isPerson, nodes);
    var book := KeepBook(persons);
    var known := KnownPaths(nodes);
    var declaredKnown := CheckKnown(decl.variables.Keys, known);
    if !declaredKnown {
      return Err(UnknownDeclared);
    }
    var refusedKnown := CheckKnown(decl.refused.Keys, known);
    if !refusedKnown {
      return Err(UnknownRefused);
    }
    var rules: seq<Rule> := [];
    for i := 0 to |nodes|
      invariant |rules| == i
      invariant forall j :: 0 <= j < i ==> Acceptable(decl, isPerson, nodes[j]) && IsRule(decl, isPerson, nodes[j], rules[j])
    {
      var n := nodes[i];
      ScanIs(isPerson, nodes, n.path);
      BookIs(persons, n.path);
      assert Has(nodes, n.path) && ValuesAt(book, n.path) == PersonValuesAt(isPerson, n);
      var built := BuildRule(decl, isPerson, n, n.path in book.paths, if n.path in book.values then book.values[n.path] else []);
      if built.Err? {
        return Err(built.error);
      }
      rules := rules + [built.value];
    }
    return Ok((rules, persons));
  }

  lemma ParentsFirstIsDistinct(nodes: seq<Node>)
    requires ParentsFirst(nodes)
    ensures DistinctPaths(nodes)
  {
    forall i, j | 0 <= i < j < |nodes| ensures nodes[i].path != nodes[j].path {
      if nodes[i].path == nodes[j].path { assert IsPrefix(nodes[j].path, nodes[i].path); }
    }
  }

  // ---------------------------------------------------------------------------
  // What an accepted declaration guarantees
  // ---------------------------------------------------------------------------

  /** The result of an accepted call. */
  ghost predicate Accepted(schema: Schema, variables: seq<Field>, decl: Decl, isPerson: string -> bool, rules: seq<Rule>) {
    && WellFormed(schema) && DistinctFields(variables)
    && WalkVariables(schema, variables).Ok?
    && Admissible(decl, isPerson, WalkVariables(schema, variables).value)
    && AreRules(decl, isPerson, WalkVariables(schema, variables).value, rules)
  }

  ghost predicate Ruled(rules: seq<Rule>, p: Path) { exists i :: 0 <= i < |rules| && rules[i].node.path == p }

  /** ONE RULE PER INPUT: each input path has exactly one rule, no other path has one, and a rule stands
      before the rules below it. */
  lemma OneRulePerInput(schema: Schema, variables: seq<Field>, decl: Decl, isPerson: string -> bool, rules: seq<Rule>)
    requires Accepted(schema, variables, decl, isPerson, rules)
    ensures forall p :: Ruled(rules, p) <==> InputAt(schema, variables, p).Some?
    ensures forall i, j :: 0 <= i < j < |rules| ==> !IsPrefix(rules[j].node.path, rules[i].node.path)
  {
    hide InputAt, Walkable, WalkVariables, NodeIs, IsPrefix, Acceptable;
    WalkListsEveryInput(schema, variables);
    var nodes := WalkVariables(schema, variables).value;
    forall i | 0 <= i < |rules| ensures rules[i].node == nodes[i] {}
    forall p ensures Ruled(rules, p) <==> Has(nodes, p) {
      if Has(nodes, p) {
        var i :| 0 <= i < |nodes| && nodes[i].path == p;
        assert rules[i].node.path == p;
      }
    }
  }

  lemma {:induction false} PersonValuesAre(isPerson: string -> bool, values: seq<string>, v: string)
    ensures v in PersonValuesOf(isPerson, values) <==> v in values && isPerson(v)
  {
    if values != [] {
      PersonValuesAre(isPerson, values[..|values| - 1], v);
      assert values == values[..|values| - 1] + [values[|values| - 1]];
    }
  }

  lemma {:induction false} PersonRefusalsAre(values: seq<string>, v: string)
    ensures v in values ==> ValueRefusal(v, PersonScope) in AsPersonRefusals(values)
  {
    if values != [] {
      PersonRefusalsAre(values[..|values| - 1], v);
      assert values == values[..|values| - 1] + [values[|values| - 1]];
    }
  }

  /** NO PERSON IS ALLOWED: an allowed rule has no person-named step, an allowed enum names at least one
      value and only its own non-person ones, and an enum off the person paths refuses each of its
      person values. */
  lemma NoPersonAllowed(
    schema: Schema, variables: seq<Field>, decl: Decl, isPerson: string -> bool, rules: seq<Rule>, i: nat
  )
    requires Accepted(schema, variables, decl, isPerson, rules) && i < |rules|
    ensures rules[i].allowed ==>
      forall k :: 0 <= k < |rules[i].node.path| && rules[i].node.path[k].Name? ==> !isPerson(rules[i].node.path[k].id)
    ensures rules[i].allowed && rules[i].node.kind.EnumKind? ==>
      && rules[i].allowedValues != []
      && forall v :: v in rules[i].allowedValues ==> v in rules[i].node.values && !isPerson(v)
    ensures rules[i].node.kind.EnumKind? && !HasPersonName(isPerson, rules[i].node.path) ==>
      forall v :: v in rules[i].node.values && isPerson(v) ==> ValueRefusal(v, PersonScope) in rules[i].refusedValues
  {
    hide WalkVariables, IsNearest, Beneath, AsPersonRefusals, OtherRefusals, PersonValuesOf;
    var n := WalkVariables(schema, variables).value[i];
    assert Acceptable(decl, isPerson, n) && IsRule(decl, isPerson, n, rules[i]);
    if n.kind.EnumKind? && !HasPersonName(isPerson, n.path) {
      forall v | v in n.values && isPerson(v) ensures ValueRefusal(v, PersonScope) in rules[i].refusedValues {
        PersonValuesAre(isPerson, n.values, v);
        PersonRefusalsAre(PersonValuesOf(isPerson, n.values), v);
      }
    }
  }

  lemma {:induction false} OnlyPersonRefusals(values: seq<string>, r: ValueRefusal)
    ensures r in AsPersonRefusals(values) <==> r.refusal == PersonScope && r.value in values
  {
    if values != [] {
      OnlyPersonRefusals(values[..|values| - 1], r);
      assert values == values[..|values| - 1] + [values[|values| - 1]];
    }
  }

  lemma {:induction false} OtherRefusalsAre(declared: seq<ValueRefusal>, persons: seq<string>, r: ValueRefusal)
    ensures r in OtherRefusals(declared, persons) <==> r in declared && r.value !in persons
  {
    if declared != [] {
      OtherRefusalsAre(declared[..|declared| - 1], persons, r);
      assert declared == declared[..|declared| - 1] + [declared[|declared| - 1]];
    }
  }

  /** The value is a person's, and its path is not one already. */
  predicate PersonValueAt(isPerson: string -> bool, n: Node, v: string) {
    !HasPersonName(isPerson, n.path) && v in n.values && isPerson(v)
  }

  /** THE REFUSED VALUES, EXACTLY: an enum refuses each of its person values with the person code, and each
      other value its declaration refuses with the declared refusal; nothing else, and no other kind
      refuses values. */
  lemma RefusedValuesAre(
    schema: Schema, variables: seq<Field>, decl: Decl, isPerson: string -> bool, rules: seq<Rule>, i: nat, r: ValueRefusal
  )
    requires Accepted(schema, variables, decl, isPerson, rules) && i < |rules|
    ensures r in rules[i].refusedValues <==>
      && rules[i].node.kind.EnumKind?
      && (if PersonValueAt(isPerson, rules[i].node, r.value) then r.refusal == PersonScope
          else rules[i].node.path in decl.variables && r in decl.variables[rules[i].node.path].refusedValues)
  {
    hide WalkVariables, HasPersonName, IsNearest, Beneath, AsPersonRefusals, OtherRefusals, PersonValuesOf, Acceptable;
    var n := WalkVariables(schema, variables).value[i];
    assert IsRule(decl, isPerson, n, rules[i]);
    var persons := PersonValuesAt(isPerson, n);
    PersonValuesAre(isPerson, n.values, r.value);
    OnlyPersonRefusals(persons, r);
    OtherRefusalsAre(decl.For(n.path).refusedValues, persons, r);
  }

  /** AN ALLOWED INPUT IS SET AS DECLARED: by its declared source, by the client when none is declared, and
      a forced one has its value; an object that is only on the way to a declared input is the client's
      and carries nothing. What is not allowed cannot be set. */
  lemma AllowedAsDeclared(schema: Schema, variables: seq<Field>, decl: Decl, isPerson: string -> bool, rules: seq<Rule>, i: nat)
    requires Accepted(schema, variables, decl, isPerson, rules) && i < |rules|
    ensures var rule := rules[i]; var p := rule.node.path;
      if !rule.allowed then rule.source == NotSettable && rule.forced == "" && rule.allowedValues == [] && p !in decl.variables
      else if p in decl.variables then
        && rule.source == (match decl.variables[p].source case None => Client case Some(declared) => declared)
        && rule.forced == decl.variables[p].forced && rule.allowedValues == decl.variables[p].allowedValues
        && rule.limits == decl.variables[p].limits && (rule.source == Forced ==> rule.forced != "")
      else rule.node.kind.ObjectKind? && rule.source == Client && rule.forced == "" && rule.allowedValues == []
  {
    hide WalkVariables, HasPersonName, IsNearest, Beneath, RefusedValuesOf, ValuesKnown;
    var n := WalkVariables(schema, variables).value[i];
    assert Acceptable(decl, isPerson, n) && IsRule(decl, isPerson, n, rules[i]);
  }

  /** EVERY OTHER PATH SAYS WHY: a rule is allowed or carries a refusal, never both; a refused person
      path carries the person code, any other refused path its nearest refused ancestor's. */
  lemma RefusalIsNearest(
    schema: Schema, variables: seq<Field>, decl: Decl, isPerson: string -> bool, rules: seq<Rule>, i: nat, near: Option<Refusal>
  )
    requires Accepted(schema, variables, decl, isPerson, rules) && i < |rules|
    requires IsNearest(decl.refused, rules[i].node.path, near)
    ensures rules[i].allowed <==> rules[i].refusal.None?
    ensures !rules[i].allowed ==>
      rules[i].refusal == Some(if HasPersonName(isPerson, rules[i].node.path) then PersonScope
                               else if near.Some? then near.value else NotOnAllowlist)
  {
    hide WalkVariables, HasPersonName, IsNearest, Acceptable;
    var n := WalkVariables(schema, variables).value[i];
    assert IsRule(decl, isPerson, n, rules[i]);
    if !rules[i].allowed && !HasPersonName(isPerson, n.path) {
      var other :| IsNearest(decl.refused, n.path, other) &&
        rules[i].refusal == Some(if other.Some? then other.value else NotOnAllowlist);
      NearestIsUnique(decl.refused, n.path, near, other);
    }
  }

  ghost predicate Allows(rules: seq<Rule>, p: Path) {
    exists i :: 0 <= i < |rules| && rules[i].allowed && rules[i].node.path == p
  }

  lemma AllowsIs(schema: Schema, variables: seq<Field>, decl: Decl, isPerson: string -> bool, rules: seq<Rule>, p: Path)
    requires Accepted(schema, variables, decl, isPerson, rules)
    ensures Allows(rules, p) <==>
      && InputAt(schema, variables, p).Some?
      && (p in decl.variables || exists q :: q in decl.variables && Beneath(p, q))
    ensures Allows(rules, p) ==> p !in decl.refused && forall anc :: anc in decl.refused ==> !Beneath(anc, p)
    ensures p in decl.variables || p in decl.refused ==> InputAt(schema, variables, p).Some?
  {
    hide *;
    AcceptedParts(schema, variables, decl, isPerson, rules);
    var nodes := WalkVariables(schema, variables).value;
    WalkListsEveryInput(schema, variables);
    if Allows(rules, p) {
      AllowedIsDeclared(decl, isPerson, nodes, rules, p);
    }
    if InputAt(schema, variables, p).Some? && (p in decl.variables || exists q :: q in decl.variables && Beneath(p, q)) {
      if p !in decl.variables {
        var q :| q in decl.variables && Beneath(p, q);
        assert Has(nodes, q);
        BeneathIsObject(schema, variables, p, q);
      }
      DeclaredIsAllowed(schema, variables, decl, isPerson, nodes, rules, p);
    }
  }

  lemma AcceptedParts(schema: Schema, variables: seq<Field>, decl: Decl, isPerson: string -> bool, rules: seq<Rule>)
    requires Accepted(schema, variables, decl, isPerson, rules)
    ensures WellFormed(schema) && DistinctFields(variables) && WalkVariables(schema, variables).Ok?
    ensures var nodes := WalkVariables(schema, variables).value;
      && Admissible(decl, isPerson, nodes) && AreRules(decl, isPerson, nodes, rules)
      && forall p :: p in decl.variables || p in decl.refused ==> Has(nodes, p)
  {
    hide WalkVariables, Acceptable, IsRule, Has, WellFormed, DistinctFields;
  }

  lemma AllowedIsDeclared(decl: Decl, isPerson: string -> bool, nodes: seq<Node>, rules: seq<Rule>, p: Path)
    requires Admissible(decl, isPerson, nodes) && AreRules(decl, isPerson, nodes, rules) && Allows(rules, p)
    ensures Has(nodes, p) && (p in decl.variables || exists q :: q in decl.variables && Beneath(p, q))
    ensures p !in decl.refused && forall anc :: anc in decl.refused ==> !Beneath(anc, p)
  {
    hide Beneath, HasPersonName, IsNearest, RefusedValuesOf, ValuesKnown;
    var i :| 0 <= i < |rules| && rules[i].allowed && rules[i].node.path == p;
    assert IsRule(decl, isPerson, nodes[i], rules[i]) && Acceptable(decl, isPerson, nodes[i]);
  }

  lemma DeclaredIsAllowed(
    schema: Schema, variables: seq<Field>, decl: Decl, isPerson: string -> bool, nodes: seq<Node>, rules: seq<Rule>, p: Path
  )
    requires AreRules(decl, isPerson, nodes, rules) && InputAt(schema, variables, p).Some? && Has(nodes, p)
    requires forall i :: 0 <= i < |nodes| ==>
      InputAt(schema, variables, nodes[i].path).Some? && NodeIs(schema, InputAt(schema, variables, nodes[i].path).value, nodes[i])
    requires p !in decl.variables ==>
      && (exists q :: q in decl.variables && Beneath(p, q))
      && var g := InputAt(schema, variables, p).value; Base(g.typ) in schema && schema[Base(g.typ)].InputDef?
    ensures Allows(rules, p)
  {
    hide InputAt, Beneath, HasPersonName, IsNearest, RefusedValuesOf;
    var i :| 0 <= i < |nodes| && nodes[i].path == p;
    assert IsRule(decl, isPerson, nodes[i], rules[i]);
  }

  lemma BeneathIsObject(schema: Schema, variables: seq<Field>, p: Path, q: Path)
    requires InputAt(schema, variables, p).Some? && InputAt(schema, variables, q).Some? && Beneath(p, q)
    ensures var g := InputAt(schema, variables, p).value; Base(g.typ) in schema && schema[Base(g.typ)].InputDef?
  {
    hide InputAt, Base;
    AncestorIsObject(schema, variables, q, p);
  }

  ghost predicate NothingAllowedUnderRefused(decl: Decl, rules: seq<Rule>) {
    forall anc, p :: anc in decl.refused && Allows(rules, p) ==> !IsPrefix(anc, p)
  }

  /** A declared path under a refused one through two list levels. */
  ghost predicate DeclaresDeepUnderRefused(decl: Decl) {
    exists anc, p :: anc in decl.refused && p in decl.variables && DeepUnder(anc, p)
  }

  lemma InputEndsInName(schema: Schema, variables: seq<Field>, p: Path)
    requires InputAt(schema, variables, p).Some?
    ensures p != [] && EndsInName(p)
  {
  }

  /** NOTHING ALLOWED UNDER A REFUSED PATH, exactly unless the declaration allows a path under a refused
      one through two list levels: that nesting escapes the check. */
  lemma AllowedUnderRefusedIff(schema: Schema, variables: seq<Field>, decl: Decl, isPerson: string -> bool, rules: seq<Rule>)
    requires Accepted(schema, variables, decl, isPerson, rules)
    ensures NothingAllowedUnderRefused(decl, rules) <==> !DeclaresDeepUnderRefused(decl)
  {
    hide Accepted, InputAt, Allows, Beneath, IsPrefix, EndsInName;
    if DeclaresDeepUnderRefused(decl) {
      var anc, p :| anc in decl.refused && p in decl.variables && DeepUnder(anc, p);
      AllowsIs(schema, variables, decl, isPerson, rules, p);
      assert Allows(rules, p) && IsPrefix(anc, p);
    } else {
      forall anc, p | anc in decl.refused && Allows(rules, p) ensures !IsPrefix(anc, p) {
        AllowsIs(schema, variables, decl, isPerson, rules, p);
        InputEndsInName(schema, variables, p);
        if IsPrefix(anc, p) {
          DeepThroughDeclared(decl, anc, p);
          assert false;
        }
      }
    }
  }

  lemma DeepThroughDeclared(decl: Decl, anc: Path, p: Path)
    requires anc in decl.refused && p !in decl.refused && IsPrefix(anc, p) && !Beneath(anc, p)
    requires p != [] && EndsInName(p)
    requires p in decl.variables || exists q :: q in decl.variables && Beneath(p, q)
    ensures DeclaresDeepUnderRefused(decl)
  {
    assert p[..|p|] == p;
    UnderIsBeneathOrDeep(anc, p);
    assert DeepUnder(anc, p);
    if p !in decl.variables {
      var q :| q in decl.variables && Beneath(p, q);
    }
  }

  ghost predicate UpwardClosed(schema: Schema, variables: seq<Field>, rules: seq<Rule>) {
    forall p, q :: Allows(rules, p) && InputAt(schema, variables, q).Some? && IsPrefix(q, p) ==> Allows(rules, q)
  }

  /** Every input that a declared path leaves through two list levels is declared itself. */
  ghost predicate DeepAncestorsDeclared(schema: Schema, variables: seq<Field>, decl: Decl) {
    forall p, q :: p in decl.variables && InputAt(schema, variables, q).Some? && DeepUnder(q, p) ==> q in decl.variables
  }

  /** Steps below an input, as steps from it. */
  lemma ReachFrom(schema: Schema, variables: seq<Field>, q: Path, p: Path)
    requires InputAt(schema, variables, p).Some? && InputAt(schema, variables, q).Some? && StrictlyUnder(q, p)
    ensures Reach(schema, InputAt(schema, variables, q).value, p[|q|..]).Some?
  {
    var rel := p[|q|..];
    assert p[1..] == q[1..] + rel && p[0] == q[0];
    ReachBoth(schema, Find(variables, q[0].id).value, q[1..], rel);
  }

  /** Two list levels hide all that is below them from the prefix tests. */
  lemma DeepHidesAll(schema: Schema, variables: seq<Field>, q: Path, p: Path, other: Path)
    requires InputAt(schema, variables, q).Some? && InputAt(schema, variables, p).Some? && InputAt(schema, variables, other).Some?
    requires DeepUnder(q, p)
    ensures !Beneath(q, other)
  {
    hide InputAt;
    var g := InputAt(schema, variables, q).value;
    ReachFrom(schema, variables, q, p);
    assert p[|q|..][0] == Star && p[|q|..][1..][0] == Star;
    assert g.typ.List? && g.typ.elem.List?;
    if StrictlyUnder(q, other) {
      ReachFrom(schema, variables, q, other);
      InputEndsInName(schema, variables, other);
      var rel := other[|q|..];
      assert rel[0] == other[|q|] && rel[0].Star?;
      assert |rel| > 1 && rel[1..][0] == other[|q| + 1];
    }
  }

  /** ALLOWED UP TO THE TOP, exactly when each input that a declared path leaves through two list levels
      is declared itself. */
  lemma UpwardClosedIff(schema: Schema, variables: seq<Field>, decl: Decl, isPerson: string -> bool, rules: seq<Rule>)
    requires Accepted(schema, variables, decl, isPerson, rules)
    ensures UpwardClosed(schema, variables, rules) <==> DeepAncestorsDeclared(schema, variables, decl)
  {
    hide Accepted, InputAt, Allows, Beneath, IsPrefix, EndsInName;
    if UpwardClosed(schema, variables, rules) {
      forall p, q | p in decl.variables && InputAt(schema, variables, q).Some? && DeepUnder(q, p) ensures q in decl.variables {
        AllowsIs(schema, variables, decl, isPerson, rules, p);
        AllowsIs(schema, variables, decl, isPerson, rules, q);
        if q !in decl.variables {
          var d :| d in decl.variables && Beneath(q, d);
          AllowsIs(schema, variables, decl, isPerson, rules, d);
          DeepHidesAll(schema, variables, q, p, d);
          assert false;
        }
      }
    }
    if DeepAncestorsDeclared(schema, variables, decl) {
      forall p, q | Allows(rules, p) && InputAt(schema, variables, q).Some? && IsPrefix(q, p) ensures Allows(rules, q) {
        AllowsIs(schema, variables, decl, isPerson, rules, p);
        AllowsIs(schema, variables, decl, isPerson, rules, q);
        var d := DeclaredBelow(decl, p);
        UnderToDeclared(p, q, d);
        AllowsIs(schema, variables, decl, isPerson, rules, d);
        InputEndsInName(schema, variables, d);
        UnderIsBeneathOrDeep(q, d);
        assert q == d || Beneath(q, d) || DeepUnder(q, d);
      }
    }
  }

  lemma DeclaredBelow(decl: Decl, p: Path) returns (d: Path)
    requires p in decl.variables || exists q :: q in decl.variables && Beneath(p, q)
    ensures d in decl.variables && IsPrefix(p, d)
  {
    if p in decl.variables {
      d := p;
      assert p[..|p|] == p;
    } else {
      d :| d in decl.variables && Beneath(p, d);
    }
  }

  lemma UnderToDeclared(p: Path, q: Path, d: Path)
    requires IsPrefix(q, p) && IsPrefix(p, d)
    ensures q == d || StrictlyUnder(q, d)
  {
    if |q| == |d| { assert d[..|q|] == d; }
  }

  // ---------------------------------------------------------------------------
  // With at most one list level per input
  // ---------------------------------------------------------------------------

  ghost predicate SingleLists(schema: Schema, variables: seq<Field>) {
    && (forall i :: 0 <= i < |variables| ==> Levels(variables[i].typ) <= 1)
    && (forall t, i :: t in schema && schema[t].InputDef? && 0 <= i < |schema[t].fields| ==> Levels(schema[t].fields[i].typ) <= 1)
  }

  predicate NoTwoStars(p: Path) { forall i :: 0 <= i < |p| - 1 ==> !(p[i].Star? && p[i + 1].Star?) }

  lemma {:induction false} ReachHasNoTwoStars(schema: Schema, f: Field, rel: Path)
    requires SingleLists(schema, []) && Levels(f.typ) <= 1 && Reach(schema, f, rel).Some?
    ensures NoTwoStars(rel) && (rel != [] && f.typ.Named? ==> rel[0].Name?)
    decreases |rel|
  {
    if rel != [] {
      match f.typ {
        case List(e) => ReachHasNoTwoStars(schema, f.(typ := e), rel[1..]);
        case Named(t) =>
          FindIs(FieldsOf(schema, t), rel[0].id);
          ReachHasNoTwoStars(schema, Find(FieldsOf(schema, t), rel[0].id).value, rel[1..]);
      }
      assert forall i :: 0 < i < |rel| ==> rel[i] == rel[1..][i - 1];
    }
  }

  lemma InputHasNoTwoStars(schema: Schema, variables: seq<Field>, p: Path)
    requires SingleLists(schema, variables) && InputAt(schema, variables, p).Some?
    ensures NoTwoStars(p)
  {
    FindIs(variables, p[0].id);
    ReachHasNoTwoStars(schema, Find(variables, p[0].id).value, p[1..]);
    assert forall i :: 0 < i < |p| ==> p[i] == p[1..][i - 1];
  }

  /** With at most one list level per input, nothing is allowed at or below a refused path and allowed
      paths are closed upward. */
  lemma SingleListsAreSafe(schema: Schema, variables: seq<Field>, decl: Decl, isPerson: string -> bool, rules: seq<Rule>)
    requires Accepted(schema, variables, decl, isPerson, rules) && SingleLists(schema, variables)
    ensures NothingAllowedUnderRefused(decl, rules) && UpwardClosed(schema, variables, rules)
  {
    hide Accepted, InputAt, Beneath, IsPrefix, SingleLists;
    forall p, q | p in decl.variables && DeepUnder(q, p) ensures false {
      AllowsIs(schema, variables, decl, isPerson, rules, p);
      InputHasNoTwoStars(schema, variables, p);
      assert false;
    }
    AllowedUnderRefusedIff(schema, variables, decl, isPerson, rules);
    UpwardClosedIff(schema, variables, decl, isPerson, rules);
  }

  const ROW_SCHEMA: Schema := map["Row" := InputDef([Field("id", Named("Int"), "")]), "Int" := ScalarDef]
  const GRID: Field := Field("grid", List(List(Named("Row"))), "")
  const GRID_PATH: Path := [Name("grid")]
  const CELL_PATH: Path := [Name("grid"), Star, Star, Name("id")]
  const GRID_DECL: Decl := Decl(map[CELL_PATH := UNDECLARED], map[GRID_PATH := DeclaredRefusal("shape", "not served")])

  /** Nested lists escape: the grid is refused, its cells are allowed, and the declaration is accepted. */
  lemma NestedListsEscape(isPerson: string -> bool)
    requires !isPerson("grid") && !isPerson("id")
    ensures WellFormed(ROW_SCHEMA) && DistinctFields([GRID])
    ensures WalkVariables(ROW_SCHEMA, [GRID]).Ok?
    ensures Admissible(GRID_DECL, isPerson, WalkVariables(ROW_SCHEMA, [GRID]).value)
    ensures DeclaresDeepUnderRefused(GRID_DECL)
  {
    GridWalk();
    var nodes := WalkVariables(ROW_SCHEMA, [GRID]).value;
    assert DeepUnder(GRID_PATH, CELL_PATH) by { assert CELL_PATH[..1] == GRID_PATH; }
    assert GRID_PATH in GRID_DECL.refused && CELL_PATH in GRID_DECL.variables;
    assert nodes[0].path == GRID_PATH && nodes[1].path == CELL_PATH;
    assert GRID_PATH != CELL_PATH by { assert |GRID_PATH| != |CELL_PATH|; }
    assert !HasPersonName(isPerson, CELL_PATH);
    assert !Beneath(GRID_PATH, CELL_PATH);
    assert Acceptable(GRID_DECL, isPerson, nodes[0]);
    assert Acceptable(GRID_DECL, isPerson, nodes[1]);
  }

  lemma GridWalk()
    ensures WellFormed(ROW_SCHEMA) && DistinctFields([GRID])
    ensures WalkVariables(ROW_SCHEMA, [GRID]) ==
      Ok([Node(GRID_PATH, GRID.typ, ObjectKind, [], ""), Node(CELL_PATH, Named("Int"), ScalarKind, [], "")])
  {
    var id := Field("id", Named("Int"), "");
    assert "Row"[0] == 'R' && "Int"[0] == 'I';
    var cell := Node(CELL_PATH, Named("Int"), ScalarKind, [], "");
    assert Walk(ROW_SCHEMA, CELL_PATH, id, ["Row"]) == Ok([cell]);
    assert Stars(2) == [Star, Star] && GRID_PATH + Stars(2) + [Name("id")] == CELL_PATH;
    OnlyField(ROW_SCHEMA, GRID_PATH + Stars(2), id, ["Row"]);
    assert Base(GRID.typ) == "Row" && Levels(GRID.typ) == 2 && [] + ["Row"] == ["Row"];
    var grid := Node(GRID_PATH, GRID.typ, ObjectKind, [], "");
    assert Walk(ROW_SCHEMA, GRID_PATH, GRID, []) == Ok([grid] + [cell]);
    assert [grid] + [cell] == [grid, cell] && [] + [Name("grid")] == GRID_PATH;
    OnlyField(ROW_SCHEMA, [], GRID, []);
  }

  lemma OnlyField(schema: Schema, base: Path, f: Field, chain: seq<string>)
    ensures WalkFields(schema, base, [f], chain) == Walk(schema, base + [Name(f.name)], f, chain)
  {
    var fields := [f];
    assert fields[1..] == [] && WalkFields(schema, base, [], chain) == Ok([]);
    var first := Walk(schema, base + [Name(f.name)], f, chain);
    if first.Ok? { assert first.value + [] == first.value; }
    assert WalkFields(schema, base, fields, chain) == first;
  }
}
