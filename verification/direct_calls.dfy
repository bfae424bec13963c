/** Which calls a function makes itself: a visitor with a stack and a counter over the syntax tree,
    proved to find exactly the calls with no function literal above them, and the mint-anchor check
    that rests on it. */
module DirectCalls {
  import opened Prelude
  import opened Sorting

  datatype Kind = CallExpr | FuncLit | OtherNode

  /** A syntax node with the source offsets it starts and ends at. */
  datatype Node = Node(kind: Kind, pos: int, end: int, kids: seq<Node>)

  /** What the tree visitor reports: entering a node, and leaving the node entered last. */
  datatype Visit = Enter(kind: Kind, pos: int) | Leave

  function Visits(n: Node): seq<Visit>
    decreases n
  {
    [Enter(n.kind, n.pos)] + VisitsAll(n.kids) + [Leave]
  }

  function VisitsAll(ns: seq<Node>): seq<Visit>
    decreases ns
  {
    if ns == [] then [] else Visits(ns[0]) + VisitsAll(ns[1..])
  }

  // ---------------------------------------------------------------------------
  // Calls by their place in the tree
  // ---------------------------------------------------------------------------

  /** A place in a tree: which child to take, from the top. */
  type Place = seq<nat>

  function At(n: Node, p: Place): Option<Node>
    decreases |p|
  {
    if p == [] then Some(n) else if p[0] < |n.kids| then At(n.kids[p[0]], p[1..]) else None
  }

  predicate IsCall(n: Node, p: Place, off: int) {
    At(n, p).Some? && At(n, p).value.kind == CallExpr && At(n, p).value.pos == off
  }

  predicate IsLit(n: Node, p: Place) { At(n, p).Some? && At(n, p).value.kind == FuncLit }

  predicate Above(q: Place, p: Place) { |q| < |p| && p[..|q|] == q }

  /** No function literal stands above the place. */
  ghost predicate IsOwn(n: Node, p: Place) { forall q :: Above(q, p) ==> !IsLit(n, q) }

  /** The function makes a call at that offset itself. */
  ghost predicate CallsItself(n: Node, off: int) { exists p :: IsCall(n, p, off) && IsOwn(n, p) }

  // ---------------------------------------------------------------------------
  // The same by recursion
  // ---------------------------------------------------------------------------

  function Own(n: Node): set<int>
    decreases n
  {
    (if n.kind == CallExpr then {n.pos} else {}) + (if n.kind == FuncLit then {} else OwnAll(n.kids))
  }

  function OwnAll(ns: seq<Node>): set<int>
    decreases ns
  {
    if ns == [] then {} else Own(ns[0]) + OwnAll(ns[1..])
  }

  lemma {:induction false} OwnAllHas(ns: seq<Node>, off: int)
    ensures off in OwnAll(ns) <==> exists i :: 0 <= i < |ns| && off in Own(ns[i])
    decreases |ns|
  {
    if ns != [] {
      OwnAllHas(ns[1..], off);
      if off in OwnAll(ns[1..]) {
        var i :| 0 <= i < |ns[1..]| && off in Own(ns[1..][i]);
        assert off in Own(ns[i + 1]);
      }
      if exists i :: 0 <= i < |ns| && off in Own(ns[i]) {
        var i :| 0 <= i < |ns| && off in Own(ns[i]);
        if i > 0 { assert off in Own(ns[1..][i - 1]); }
      }
    }
  }

  /** A call found by recursion has a place with no literal above it. */
  lemma {:induction false} OwnHasPlace(n: Node, off: int) returns (p: Place)
    requires off in Own(n)
    ensures IsCall(n, p, off) && IsOwn(n, p)
    decreases n
  {
    if n.kind == CallExpr && n.pos == off {
      return [];
    }
    OwnAllHas(n.kids, off);
    var i :| 0 <= i < |n.kids| && off in Own(n.kids[i]);
    var below := OwnHasPlace(n.kids[i], off);
    p := [i] + below;
    assert p[1..] == below;
    OwnDown(n, i, below);
  }

  lemma OwnDown(n: Node, i: nat, below: Place)
    requires i < |n.kids|
    ensures IsOwn(n, [i] + below) <==> n.kind != FuncLit && IsOwn(n.kids[i], below)
  {
    var p: Place := [i] + below;
    if IsOwn(n, p) {
      assert Above([], p) && !IsLit(n, []);
      forall q | Above(q, below) ensures !IsLit(n.kids[i], q) {
        var up: Place := [i] + q;
        assert up[1..] == q && p[..|up|] == up;
        assert Above(up, p) && !IsLit(n, up);
      }
    }
    if n.kind != FuncLit && IsOwn(n.kids[i], below) {
      forall q | Above(q, p) ensures !IsLit(n, q) {
        if q != [] {
          assert q[0] == p[..|q|][0] == i;
          assert below[..|q| - 1] == p[..|q|][1..] == q[1..];
          assert Above(q[1..], below);
        }
      }
    }
  }

  lemma {:induction false} PlaceIsOwn(n: Node, off: int, p: Place)
    requires IsCall(n, p, off) && IsOwn(n, p)
    ensures off in Own(n)
    decreases |p|
  {
    if p != [] {
      assert p == [p[0]] + p[1..];
      OwnDown(n, p[0], p[1..]);
      PlaceIsOwn(n.kids[p[0]], off, p[1..]);
      OwnAllHas(n.kids, off);
    }
  }

  /** The recursive definition is the one by places. */
  lemma OwnIsCallsItself(n: Node, off: int)
    ensures off in Own(n) <==> CallsItself(n, off)
  {
    if off in Own(n) {
      var p := OwnHasPlace(n, off);
    }
    if CallsItself(n, off) {
      var p :| IsCall(n, p, off) && IsOwn(n, p);
      PlaceIsOwn(n, off, p);
    }
  }

  lemma OwnIsAll(n: Node)
    ensures forall off :: off in Own(n) <==> CallsItself(n, off)
  {
    hide *;
    forall off ensures off in Own(n) <==> CallsItself(n, off) { OwnIsCallsItself(n, off); }
  }

  // ---------------------------------------------------------------------------
  // The visitor
  // ---------------------------------------------------------------------------

  datatype Walker = Walker(stack: seq<Kind>, lits: int, found: set<int>)

  function Step(st: Walker, v: Visit): Walker
    requires v.Leave? ==> st.stack != []
  {
    match v
    case Leave =>
      var top := st.stack[|st.stack| - 1];
      Walker(st.stack[..|st.stack| - 1], if top == FuncLit then st.lits - 1 else st.lits, st.found)
    case Enter(kind, pos) =>
      Walker(st.stack + [kind], if kind == FuncLit then st.lits + 1 else st.lits,
             if kind == CallExpr && st.lits == 0 then st.found + {pos} else st.found)
  }

  /** The visits leave no more nodes than were entered. */
  predicate Runs(depth: nat, vs: seq<Visit>)
    decreases |vs|
  {
    if vs == [] then true
    else if vs[0].Leave? then depth > 0 && Runs(depth - 1, vs[1..])
    else Runs(depth + 1, vs[1..])
  }

  function Run(st: Walker, vs: seq<Visit>): Walker
    requires Runs(|st.stack|, vs)
    decreases |vs|
  {
    if vs == [] then st else Run(Step(st, vs[0]), vs[1..])
  }

  lemma {:induction false} RunBoth(st: Walker, a: seq<Visit>, b: seq<Visit>)
    requires Runs(|st.stack|, a) && Runs(|Run(st, a).stack|, b)
    ensures Runs(|st.stack|, a + b) && Run(st, a + b) == Run(Run(st, a), b)
    decreases |a|
  {
    if a == [] {
      assert a + b == b;
    } else {
      assert (a + b)[1..] == a[1..] + b && (a + b)[0] == a[0];
      RunBoth(Step(st, a[0]), a[1..], b);
    }
  }

  lemma RunOne(st: Walker, v: Visit)
    requires v.Leave? ==> st.stack != []
    ensures Runs(|st.stack|, [v]) && Run(st, [v]) == Step(st, v)
  {
    var vs := [v];
    assert vs[1..] == [];
    assert Runs(|Step(st, v).stack|, []) && Run(Step(st, v), []) == Step(st, v);
    assert Runs(|st.stack|, vs) && Run(st, vs) == Step(st, v);
  }

  /** What visiting a subtree adds: its own calls, unless a literal is open. */
  function Added(st: Walker, calls: set<int>): Walker {
    st.(found := st.found + if st.lits == 0 then calls else {})
  }

  lemma {:induction false} RunNode(st: Walker, n: Node)
    requires st.lits >= 0
    ensures Runs(|st.stack|, Visits(n)) && Run(st, Visits(n)) == Added(st, Own(n))
    decreases n
  {
    var first, inner, last := [Enter(n.kind, n.pos)], VisitsAll(n.kids), [Leave];
    var entered := Step(st, first[0]);
    RunOne(st, first[0]);
    RunAll(entered, n.kids);
    RunBoth(st, first, inner);
    var left := Run(entered, inner);
    RunOne(left, Leave);
    RunBoth(st, first + inner, last);
    assert left.stack[..|st.stack|] == st.stack;
  }

  lemma {:induction false} RunAll(st: Walker, ns: seq<Node>)
    requires st.lits >= 0
    ensures Runs(|st.stack|, VisitsAll(ns)) && Run(st, VisitsAll(ns)) == Added(st, OwnAll(ns))
    decreases ns
  {
    if ns != [] {
      RunNode(st, ns[0]);
      RunAll(Added(st, Own(ns[0])), ns[1..]);
      RunBoth(st, Visits(ns[0]), VisitsAll(ns[1..]));
    }
  }

  lemma RunStep(st: Walker, vs: seq<Visit>, i: nat)
    requires i < |vs| && Runs(|st.stack|, vs[i..])
    ensures vs[i].Leave? ==> st.stack != []
    ensures Runs(|Step(st, vs[i]).stack|, vs[i + 1..])
    ensures Run(st, vs[i..]) == Run(Step(st, vs[i]), vs[i + 1..])
    ensures vs[i].Leave? ==>
      Step(st, vs[i]) == Walker(st.stack[..|st.stack| - 1],
                                if st.stack[|st.stack| - 1] == FuncLit then st.lits - 1 else st.lits, st.found)
    ensures vs[i].Enter? ==>
      Step(st, vs[i]) == Walker(st.stack + [vs[i].kind], if vs[i].kind == FuncLit then st.lits + 1 else st.lits,
                                if vs[i].kind == CallExpr && st.lits == 0 then st.found + {vs[i].pos} else st.found)
  {
    assert vs[i..][0] == vs[i] && vs[i..][1..] == vs[i + 1..];
  }

  lemma RunEnd(st: Walker, vs: seq<Visit>)
    ensures Runs(|st.stack|, vs[|vs|..]) && Run(st, vs[|vs|..]) == st
  {
  }

  /** The visitor: a stack of open nodes, a counter of open literals, a set of offsets. */
  method FollowVisits(vs: seq<Visit>) returns (found: set<int>)
    requires Runs(0, vs)
    ensures found == Run(Walker([], 0, {}), vs).found
  {
    hide *;
    ghost var end := Run(Walker([], 0, {}), vs);
    assert vs[0..] == vs;
    found := {};
    var lits := 0;
    var stack: seq<Kind> := [];
    for i := 0 to |vs|
      invariant Runs(|stack|, vs[i..]) && Run(Walker(stack, lits, found), vs[i..]) == end
    {
      RunStep(Walker(stack, lits, found), vs, i);
      match vs[i] {
        case Leave =>
          if stack[|stack| - 1] == FuncLit {
            lits := lits - 1;
          }
          stack := stack[..|stack| - 1];
        case Enter(kind, pos) =>
          if kind == CallExpr && lits == 0 {
            found := found + {pos};
          }
          stack := stack + [kind];
          if kind == FuncLit {
            lits := lits + 1;
          }
      }
    }
    RunEnd(Walker(stack, lits, found), vs);
  }

  /** The calls a function makes itself. */
  method DirectCallOffsets(body: Node) returns (found: set<int>)
    ensures forall off :: off in found <==> CallsItself(body, off)
  {
    hide *;
    VisitsFind(body);
    found := FollowVisits(Visits(body));
  }

  lemma VisitsFind(body: Node)
    ensures Runs(0, Visits(body))
    ensures forall off :: off in Run(Walker([], 0, {}), Visits(body)).found <==> CallsItself(body, off)
  {
    RunNode(Walker([], 0, {}), body);
    OwnIsAll(body);
  }

  // ---------------------------------------------------------------------------
  // Call sites
  // ---------------------------------------------------------------------------

  ghost predicate HasCall(n: Node, off: int) { exists p :: IsCall(n, p, off) }

  lemma {:induction false} VisitedHasPlace(n: Node, off: int) returns (p: Place)
    requires Enter(CallExpr, off) in Visits(n)
    ensures IsCall(n, p, off)
    decreases n
  {
    if n.kind == CallExpr && n.pos == off {
      return [];
    }
    assert Enter(CallExpr, off) in VisitsAll(n.kids);
    var i := VisitedIn(n.kids, off);
    var below := VisitedHasPlace(n.kids[i], off);
    p := [i] + below;
    assert p[1..] == below;
  }

  lemma {:induction false} VisitedIn(ns: seq<Node>, off: int) returns (i: nat)
    requires Enter(CallExpr, off) in VisitsAll(ns)
    ensures i < |ns| && Enter(CallExpr, off) in Visits(ns[i])
    decreases |ns|
  {
    if Enter(CallExpr, off) in Visits(ns[0]) {
      return 0;
    }
    var j := VisitedIn(ns[1..], off);
    i := j + 1;
  }

  lemma {:induction false} PlaceIsVisited(n: Node, off: int, p: Place)
    requires IsCall(n, p, off)
    ensures Enter(CallExpr, off) in Visits(n)
    decreases |p|
  {
    if p == [] {
      assert Visits(n)[0] == Enter(CallExpr, off);
    } else {
      PlaceIsVisited(n.kids[p[0]], off, p[1..]);
      KidIsVisited(n.kids, p[0], Enter(CallExpr, off));
    }
  }

  lemma {:induction false} KidIsVisited(ns: seq<Node>, i: nat, v: Visit)
    requires i < |ns| && v in Visits(ns[i])
    ensures v in VisitsAll(ns)
    decreases |ns|
  {
    if i > 0 { KidIsVisited(ns[1..], i - 1, v); }
  }

  lemma VisitedIsCall(n: Node, off: int)
    ensures Enter(CallExpr, off) in Visits(n) <==> HasCall(n, off)
  {
    if Enter(CallExpr, off) in Visits(n) {
      var p := VisitedHasPlace(n, off);
    }
    if HasCall(n, off) {
      var p :| IsCall(n, p, off);
      PlaceIsVisited(n, off, p);
    }
  }

  /** The offsets at which a call starts whose text begins with the marker, each once, in order. */
  method CallSites(file: Node, matches: int -> bool) returns (sites: seq<int>)
    ensures StrictlySorted(LessInt, sites)
    ensures forall off :: off in sites <==> HasCall(file, off) && matches(off)
  {
    hide HasCall, Visits;
    var vs := Visits(file);
    var seen: set<int> := {};
    for i := 0 to |vs|
      invariant forall off :: off in seen <==> Enter(CallExpr, off) in vs[..i] && matches(off)
    {
      assert vs[..i + 1] == vs[..i] + [vs[i]];
      if vs[i].Enter? && vs[i].kind == CallExpr && matches(vs[i].pos) {
        seen := seen + {vs[i].pos};
      }
    }
    assert vs[..|vs|] == vs;
    IntOrder();
    sites := SortedElements(LessInt, seen);
    assert forall off :: off in sites <==> off in Elements(sites);
    forall off ensures off in sites <==> HasCall(file, off) && matches(off) { VisitedIsCall(file, off); }
  }

  // ---------------------------------------------------------------------------
  // The mint anchor
  // ---------------------------------------------------------------------------

  datatype MintVerdict = Accepted | NotADeclaration | NotACall | NotCalledDirectly(nested: nat) | CalledOften(times: nat)

  ghost predicate Within(file: Node, body: Node) { exists p :: At(file, p) == Some(body) }

  lemma {:induction false} AtBoth(n: Node, p: Place, q: Place)
    requires At(n, p).Some?
    ensures At(n, p + q) == At(At(n, p).value, q)
    decreases |p|
  {
    if p == [] {
      assert p + q == q;
    } else {
      assert (p + q)[1..] == p[1..] + q;
      AtBoth(n.kids[p[0]], p[1..], q);
    }
  }

  /** A function's own calls are calls of its file. */
  lemma OwnIsInFile(file: Node, body: Node, off: int)
    requires Within(file, body) && CallsItself(body, off)
    ensures HasCall(file, off)
  {
    var p: Place :| At(file, p) == Some(body);
    var q :| IsCall(body, q, off) && IsOwn(body, q);
    AtBoth(file, p, q);
    assert IsCall(file, p + q, off);
  }

  /** The function itself makes a call there, and its text is the mint's. */
  ghost predicate Mints(body: Node, off: int, matches: int -> bool) { CallsItself(body, off) && matches(off) }

  ghost predicate MintsOnce(body: Node, matches: int -> bool) {
    exists off :: Mints(body, off, matches) && forall other :: Mints(body, other, matches) ==> other == off
  }

  /** The matching calls in the file between the braces. */
  ghost predicate Counts(s: set<int>, file: Node, lbrace: int, rbrace: int, matches: int -> bool) {
    forall off :: off in s <==> HasCall(file, off) && matches(off) && lbrace < off < rbrace
  }

  ghost predicate AreMints(s: set<int>, body: Node, matches: int -> bool) { forall off :: off in s <==> Mints(body, off, matches) }

  /** The matching sites that are the function's own calls, and how many others lie between the braces. */
  method PickDirect(sites: seq<int>, direct: set<int>, lbrace: int, rbrace: int)
    returns (inside: seq<int>, nested: nat, ghost own: set<int>, ghost among: set<int>)
    requires StrictlySorted(LessInt, sites)
    ensures Distinct(inside) && forall off :: off in inside <==> off in sites && off in direct
    ensures |own| == |inside| && forall off :: off in own <==> off in inside
    ensures nested == |among| && forall off :: off in among <==> off in sites && off !in direct && lbrace < off < rbrace
  {
    inside, nested, own, among := [], 0, {}, {};
    for i := 0 to |sites|
      invariant Distinct(inside) && forall off :: off in inside <==> off in sites[..i] && off in direct
      invariant |own| == |inside| && forall off :: off in own <==> off in inside
      invariant nested == |among| && forall off :: off in among <==> off in sites[..i] && off !in direct && lbrace < off < rbrace
    {
      assert sites[..i + 1] == sites[..i] + [sites[i]];
      NotYet(sites, i);
      if sites[i] in direct {
        inside, own := inside + [sites[i]], own + {sites[i]};
      } else if lbrace < sites[i] < rbrace {
        nested, among := nested + 1, among + {sites[i]};
      }
    }
    assert sites[..|sites|] == sites;
  }

  /** THE MINT ANCHOR is accepted exactly when the function itself makes the mint call at one offset. */
  method CheckMintCall(file: Node, body: Option<Node>, lbrace: int, rbrace: int, mintIsDeclaration: bool, matches: int -> bool)
    returns (r: MintVerdict)
    requires body.Some? ==> Within(file, body.value)
    ensures r == Accepted <==> body.Some? && !mintIsDeclaration && MintsOnce(body.value, matches)
    ensures r.NotCalledDirectly? ==> body.Some? && forall off :: !Mints(body.value, off, matches)
    ensures r.NotCalledDirectly? ==> exists s: set<int> :: Counts(s, file, lbrace, rbrace, matches) && |s| == r.nested
    ensures r.CalledOften? ==> body.Some? && r.times > 1 && exists s: set<int> :: AreMints(s, body.value, matches) && |s| == r.times
  {
    hide CallsItself, HasCall, Within, LessInt;
    if body.None? {
      return NotADeclaration;
    }
    if mintIsDeclaration {
      return NotACall;
    }
    var direct := DirectCallOffsets(body.value);
    var sites := CallSites(file, matches);
    var inside, nested;
    ghost var own, among;
    inside, nested, own, among := PickDirect(sites, direct, lbrace, rbrace);
    forall off ensures off in inside <==> Mints(body.value, off, matches) {
      if CallsItself(body.value, off) { OwnIsInFile(file, body.value, off); }
    }
    if inside == [] {
      assert Counts(among, file, lbrace, rbrace, matches) by { NoneDirect(sites, direct, inside); }
      return NotCalledDirectly(nested);
    }
    assert Mints(body.value, inside[0], matches) by { assert inside[0] in inside; }
    if |inside| > 1 {
      assert AreMints(own, body.value, matches);
      assert inside[1] in inside && inside[0] != inside[1];
      return CalledOften(|inside|);
    }
    assert forall other :: other in inside ==> other == inside[0];
    return Accepted;
  }

  lemma NoneDirect(sites: seq<int>, direct: set<int>, inside: seq<int>)
    requires inside == [] && forall off :: off in inside <==> off in sites && off in direct
    ensures forall off :: off in sites ==> off !in direct
  {
    forall off | off in sites ensures off !in direct {
      assert off !in inside;
    }
  }

  lemma NotYet(sites: seq<int>, i: nat)
    requires StrictlySorted(LessInt, sites) && i < |sites|
    ensures sites[i] !in sites[..i]
  {
  }

  // ---------------------------------------------------------------------------
  // Offsets tell own calls from nested ones
  // ---------------------------------------------------------------------------

  /** The source text of a literal, after its first character, holds exactly the calls inside it. */
  ghost predicate WellPlaced(n: Node) {
    forall q, p, off :: IsLit(n, q) && IsCall(n, p, off) ==>
      (Above(q, p) <==> At(n, q).value.pos < off < At(n, q).value.end)
  }

  ghost predicate HasNestedCall(n: Node, off: int) { exists p :: IsCall(n, p, off) && !IsOwn(n, p) }

  /** OFFSETS ARE ENOUGH: although calls can share an offset, a call inside a literal never shares one
      with a call the function makes itself. */
  lemma NestedIsNeverOwn(n: Node, off: int)
    requires WellPlaced(n)
    ensures !(CallsItself(n, off) && HasNestedCall(n, off))
    ensures CallsItself(n, off) <==> HasCall(n, off) && forall p :: IsCall(n, p, off) ==> IsOwn(n, p)
  {
    hide IsCall, IsLit, WellPlaced, IsOwn;
    forall p, p' | IsCall(n, p, off) && IsOwn(n, p) && IsCall(n, p', off) ensures IsOwn(n, p') {
      if !IsOwn(n, p') {
        OwnAndNestedDiffer(n, p, off, p', off);
        assert false;
      }
    }
  }

  lemma OwnAndNestedDiffer(n: Node, p: Place, off: int, p': Place, off': int)
    requires WellPlaced(n) && IsCall(n, p, off) && IsCall(n, p', off') && IsOwn(n, p) && !IsOwn(n, p')
    ensures off != off'
  {
    hide IsCall, IsLit;
    var q :| Above(q, p') && IsLit(n, q);
    assert !Above(q, p);
  }
}
