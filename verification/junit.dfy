/** Reading a JUnit report: a token machine with a depth counter, proved to read exactly the
    documents that are one <testsuites> tree, and to read them as that tree says. */
module JUnit {
  import opened Prelude
  import opened Decimal

  datatype Attr = Attr(name: string, value: string)

  /** What the XML decoder hands out. `Aside` is a comment, a directive or a processing instruction. */
  datatype Token =
    | Start(name: string, attrs: seq<Attr>)
    | End(name: string)
    | Text(text: string)
    | Aside(text: string)

  /** Reading and printing of a time attribute; how a number is spelled is not modelled. */
  datatype Clock = Clock(read: string -> Option<real>, show: real -> string)

  datatype ParseError =
    | Malformed | SecondRoot | WrongRoot | BadCounter | MissingCounter | BadTime | NoTime
    | NotASuite | NamelessSuite | NoTests | TrailingContent | NoRoot

  const REQUIRED: seq<string> := ["tests", "failures", "errors"]
  const OPTIONAL: seq<string> := ["skipped", "disabled"]
  const COUNTERS: seq<string> := ["tests", "failures", "errors", "skipped", "disabled"]

  type Counts = map<string, nat>

  datatype Root = Root(counts: Counts, time: real)
  datatype Head = Head(name: string, counts: Counts)
  datatype Suite = Suite(head: Head, raw: seq<Token>)
  datatype Doc = Doc(root: Root, suites: seq<Suite>, failureElems: int)

  // ---------------------------------------------------------------------------
  // Attributes
  // ---------------------------------------------------------------------------

  /** The first attribute of that name, which must be a canonical number. */
  function CountAttr(attrs: seq<Attr>, name: string): Result<Option<nat>, ParseError> {
    if attrs == [] then Ok(None)
    else if attrs[0].name != name then CountAttr(attrs[1..], name)
    else match ReadCanonical(attrs[0].value)
      case None => Err(BadCounter)
      case Some(n) => Ok(Some(n))
  }

  function ReadCounts(attrs: seq<Attr>, names: seq<string>): Result<Counts, ParseError> {
    if names == [] then Ok(map[]) else
    match ReadCounts(attrs, names[..|names| - 1])
    case Err(e) => Err(e)
    case Ok(counts) =>
      match CountAttr(attrs, names[|names| - 1])
      case Err(e) => Err(e)
      case Ok(None) => Ok(counts)
      case Ok(Some(n)) => Ok(counts[names[|names| - 1] := n])
  }

  /** The last time attribute; each one must be a number that is not negative. */
  function ReadTime(clock: Clock, attrs: seq<Attr>): (r: Result<Option<real>, ParseError>)
    ensures r.Ok? && r.value.Some? ==> r.value.value >= 0.0
  {
    if attrs == [] then Ok(None) else
    var last := attrs[|attrs| - 1];
    match ReadTime(clock, attrs[..|attrs| - 1])
    case Err(e) => Err(e)
    case Ok(before) =>
      if last.name != "time" then Ok(before) else
      match clock.read(last.value)
      case None => Err(BadTime)
      case Some(x) => if x < 0.0 then Err(BadTime) else Ok(Some(x))
  }

  /** The last name attribute. */
  function ReadName(attrs: seq<Attr>): Option<string> {
    if attrs == [] then None
    else if attrs[|attrs| - 1].name == "name" then Some(attrs[|attrs| - 1].value)
    else ReadName(attrs[..|attrs| - 1])
  }

  function ReadRoot(clock: Clock, attrs: seq<Attr>): (r: Result<Root, ParseError>)
    ensures r.Ok? ==> r.value.time >= 0.0 && forall i :: 0 <= i < |REQUIRED| ==> REQUIRED[i] in r.value.counts
  {
    match ReadCounts(attrs, COUNTERS)
    case Err(e) => Err(e)
    case Ok(counts) =>
      if exists i :: 0 <= i < |REQUIRED| && REQUIRED[i] !in counts then Err(MissingCounter) else
      match ReadTime(clock, attrs)
      case Err(e) => Err(e)
      case Ok(None) => Err(NoTime)
      case Ok(Some(t)) => Ok(Root(counts, t))
  }

  function ReadHead(attrs: seq<Attr>): Result<Head, ParseError> {
    match ReadName(attrs)
    case None => Err(NamelessSuite)
    case Some(name) =>
      match ReadCounts(attrs, COUNTERS)
      case Err(e) => Err(e)
      case Ok(counts) => if "tests" !in counts then Err(NoTests) else Ok(Head(name, counts))
  }

  // ---------------------------------------------------------------------------
  // The tree a document is
  // ---------------------------------------------------------------------------

  datatype Node =
    | Element(name: string, attrs: seq<Attr>, kids: seq<Node>)
    | Words(text: string)
    | Remark(text: string)

  datatype Document = Document(prolog: seq<Node>, root: Node, epilog: seq<Node>)

  predicate NoElements(ns: seq<Node>) { forall i :: 0 <= i < |ns| ==> !ns[i].Element? }

  predicate IsDocument(d: Document) { NoElements(d.prolog) && d.root.Element? && NoElements(d.epilog) }

  function Flatten(n: Node): seq<Token>
    decreases n
  {
    match n
    case Words(text) => [Text(text)]
    case Remark(text) => [Aside(text)]
    case Element(name, attrs, kids) => [Start(name, attrs)] + FlattenAll(kids) + [End(name)]
  }

  function FlattenAll(ns: seq<Node>): seq<Token>
    decreases ns
  {
    if ns == [] then [] else Flatten(ns[0]) + FlattenAll(ns[1..])
  }

  function FlattenDoc(d: Document): seq<Token> {
    FlattenAll(d.prolog) + Flatten(d.root) + FlattenAll(d.epilog)
  }

  /** The <failure> elements of a subtree that lies under `depth` elements, from depth four on. */
  function Failures(n: Node, depth: nat): nat
    decreases n
  {
    if !n.Element? then 0 else
    (if n.name == "failure" && depth + 1 >= 4 then 1 else 0) + FailuresAll(n.kids, depth + 1)
  }

  function FailuresAll(ns: seq<Node>, depth: nat): nat
    decreases ns
  {
    if ns == [] then 0 else Failures(ns[0], depth) + FailuresAll(ns[1..], depth)
  }

  /** The suites a root's children are. */
  function SuitesOf(kids: seq<Node>): Result<seq<Suite>, ParseError> {
    if kids == [] then Ok([])
    else if !kids[0].Element? then SuitesOf(kids[1..])
    else if kids[0].name != "testsuite" then Err(NotASuite)
    else match ReadHead(kids[0].attrs)
      case Err(e) => Err(e)
      case Ok(head) =>
        match SuitesOf(kids[1..])
        case Err(e) => Err(e)
        case Ok(rest) => Ok([Suite(head, Flatten(kids[0]))] + rest)
  }

  predicate AllBlank(ns: seq<Node>) { forall i :: 0 <= i < |ns| && ns[i].Words? ==> Blank(ns[i].text) }

  /** What a document says, read off its tree. */
  function ReadDoc(clock: Clock, d: Document): Result<Doc, ParseError>
    requires d.root.Element?
  {
    if d.root.name != "testsuites" then Err(WrongRoot) else
    match ReadRoot(clock, d.root.attrs)
    case Err(e) => Err(e)
    case Ok(root) =>
      match SuitesOf(d.root.kids)
      case Err(e) => Err(e)
      case Ok(suites) =>
        if !AllBlank(d.epilog) then Err(TrailingContent)
        else Ok(Doc(root, suites, Wrap(FailuresAll(d.root.kids, 1))))
  }

  // ---------------------------------------------------------------------------
  // The token machine
  // ---------------------------------------------------------------------------

  /** The machine between tokens. `open` is the decoder's stack, `raw` the open suite so far. */
  datatype Reader = Reader(
    open: seq<string>,
    root: Option<Root>,
    done: bool,
    kid: Head,
    raw: seq<Token>,
    suites: seq<Suite>,
    failures: int
  )

  const NO_KID: Head := Head("", map[])
  const INITIAL: Reader := Reader([], None, false, NO_KID, [], [], 0)

  type Reading = Result<Reader, ParseError>

  function Grown(st: Reader, tok: Token): seq<Token> {
    if |st.open| >= 2 then st.raw + [tok] else st.raw
  }

  function StepStart(clock: Clock, st: Reader, tok: Token): Reading
    requires tok.Start?
  {
    if st.done then Err(SecondRoot) else
    var depth := |st.open| + 1;
    var failures := if tok.name == "failure" && depth >= 4 then Wrap(st.failures + 1) else st.failures;
    var next := st.(open := st.open + [tok.name], failures := failures, raw := Grown(st, tok));
    if depth == 1 then
      if tok.name != "testsuites" then Err(WrongRoot) else
      match ReadRoot(clock, tok.attrs)
      case Err(e) => Err(e)
      case Ok(root) => Ok(next.(root := Some(root)))
    else if depth == 2 then
      if tok.name != "testsuite" then Err(NotASuite) else
      match ReadHead(tok.attrs)
      case Err(e) => Err(e)
      case Ok(head) => Ok(next.(kid := head, raw := [tok]))
    else Ok(next)
  }

  function StepEnd(st: Reader, tok: Token): Reading
    requires tok.End?
  {
    var n := |st.open|;
    if n == 0 || st.open[n - 1] != tok.name then Err(Malformed) else
    var next := st.(open := st.open[..n - 1], raw := Grown(st, tok), done := st.done || n == 1);
    if n == 2 then Ok(next.(kid := NO_KID, raw := [], suites := st.suites + [Suite(st.kid, next.raw)]))
    else Ok(next)
  }

  function Step(clock: Clock, st: Reader, tok: Token): Reading {
    match tok
    case Start(_, _) => StepStart(clock, st, tok)
    case End(_) => StepEnd(st, tok)
    case Text(text) =>
      if st.done && !Blank(text) then Err(TrailingContent) else Ok(st.(raw := Grown(st, tok)))
    case Aside(_) => Ok(st.(raw := Grown(st, tok)))
  }

  function Run(clock: Clock, from: Reading, tokens: seq<Token>): Reading
    decreases |tokens|
  {
    if tokens == [] || from.Err? then from else Run(clock, Step(clock, from.value, tokens[0]), tokens[1..])
  }

  function Finish(end: Reading): Result<Doc, ParseError> {
    match end
    case Err(e) => Err(e)
    case Ok(st) =>
      if st.open != [] then Err(Malformed)
      else if st.root.None? then Err(NoRoot)
      else Ok(Doc(st.root.value, st.suites, st.failures))
  }

  function Parse(clock: Clock, tokens: seq<Token>): Result<Doc, ParseError> {
    Finish(Run(clock, Ok(INITIAL), tokens))
  }

  lemma {:induction false} RunBoth(clock: Clock, from: Reading, a: seq<Token>, b: seq<Token>)
    ensures Run(clock, from, a + b) == Run(clock, Run(clock, from, a), b)
    decreases |a|
  {
    hide Step;
    if a == [] {
      assert a + b == b;
    } else if from.Ok? {
      RunBoth(clock, Step(clock, from.value, a[0]), a[1..], b);
      assert (a + b)[1..] == a[1..] + b;
    }
  }

  lemma RunOne(clock: Clock, from: Reading, tok: Token)
    ensures Run(clock, from, [tok]) == if from.Err? then from else Step(clock, from.value, tok)
  {
    hide Step;
    if from.Ok? {
      assert [tok][1..] == [];
      assert Run(clock, Step(clock, from.value, tok), []) == Step(clock, from.value, tok);
    }
  }

  /** The parser's loop: a depth counter, two flags and the offset where the open suite began. */
  method ParseJUnit(clock: Clock, tokens: seq<Token>) returns (r: Result<Doc, ParseError>)
    ensures r == Parse(clock, tokens)
    ensures forall d :: IsDocument(d) && tokens == FlattenDoc(d) ==> r == ReadDoc(clock, d)
    ensures r.Ok? ==> exists d :: IsDocument(d) && tokens == FlattenDoc(d)
  {
    r := ScanTokens(clock, tokens);
    forall d | IsDocument(d) && tokens == FlattenDoc(d) ensures r == ReadDoc(clock, d) {
      MachineReadsTheTree(clock, d);
    }
    if r.Ok? {
      ghost var d := AcceptedIsATree(clock, tokens);
    }
  }

  method ScanTokens(clock: Clock, tokens: seq<Token>) returns (r: Result<Doc, ParseError>)
    ensures r == Parse(clock, tokens)
  {
    hide Run, ReadRoot, ReadHead, Wrap, Blank;
    var depth, kidStart, failureElems := 0, 0, 0;
    var rootSeen, rootDone := false, false;
    var open: seq<string> := [];
    var root := Root(map[], 0.0);
    var kid := NO_KID;
    var suites: seq<Suite> := [];
    ghost var st := INITIAL;
    RunNothing(clock, tokens);
    for i := 0 to |tokens|
      invariant Run(clock, Ok(INITIAL), tokens[..i]) == Ok(st)
      invariant open == st.open && depth == |open| && rootDone == st.done && suites == st.suites && failureElems == st.failures
      invariant rootSeen == st.root.Some? && (rootSeen ==> st.root == Some(root))
      invariant depth >= 2 ==> kid == st.kid && 0 <= kidStart <= i && st.raw == tokens[kidStart..i]
    {
      var tok := tokens[i];
      OneMoreToken(clock, tokens, i);
      ghost var after := Step(clock, st, tok);
      if depth >= 2 { assert tokens[kidStart..i] + [tok] == tokens[kidStart..i + 1]; }
      match tok {
        case Start(name, attrs) =>
          if rootDone { return Err(SecondRoot); }
          open, depth := open + [name], depth + 1;
          if name == "failure" && depth >= 4 { failureElems := Wrap(failureElems + 1); }
          if depth == 1 {
            if name != "testsuites" { return Err(WrongRoot); }
            rootSeen := true;
            var read := ReadRoot(clock, attrs);
            if read.Err? { return Err(read.error); }
            root := read.value;
          } else if depth == 2 {
            if name != "testsuite" { return Err(NotASuite); }
            var read := ReadHead(attrs);
            if read.Err? { return Err(read.error); }
            kidStart, kid := i, read.value;
          }
        case End(name) =>
          if depth == 0 || open[depth - 1] != name { return Err(Malformed); }
          if depth == 2 { suites := suites + [Suite(kid, tokens[kidStart..i + 1])]; }
          open, depth := open[..depth - 1], depth - 1;
          if depth == 0 { rootDone := true; }
        case Text(text) =>
          if rootDone && !Blank(text) { return Err(TrailingContent); }
        case Aside(_) =>
      }
      st := after.value;
    }
    assert tokens[..|tokens|] == tokens;
    if depth != 0 { return Err(Malformed); }
    if !rootSeen { return Err(NoRoot); }
    return Ok(Doc(root, suites, failureElems));
  }

  lemma RunNothing(clock: Clock, tokens: seq<Token>)
    ensures Run(clock, Ok(INITIAL), tokens[..0]) == Ok(INITIAL)
  {
  }

  lemma OneMoreToken(clock: Clock, tokens: seq<Token>, i: nat)
    requires i < |tokens| && Run(clock, Ok(INITIAL), tokens[..i]).Ok?
    ensures var st := Run(clock, Ok(INITIAL), tokens[..i]).value;
      && Run(clock, Ok(INITIAL), tokens[..i + 1]) == Step(clock, st, tokens[i])
      && (Step(clock, st, tokens[i]).Err? ==> Parse(clock, tokens) == Err(Step(clock, st, tokens[i]).error))
  {
    hide Run, Step;
    var start: Reading := Ok(INITIAL);
    assert tokens[..i + 1] == tokens[..i] + [tokens[i]] && tokens == tokens[..i + 1] + tokens[i + 1..];
    RunBoth(clock, start, tokens[..i], [tokens[i]]);
    RunBoth(clock, start, tokens[..i + 1], tokens[i + 1..]);
    var st := Run(clock, start, tokens[..i]);
    RunOne(clock, st, tokens[i]);
    RunFailed(clock, Step(clock, st.value, tokens[i]), tokens[i + 1..]);
  }

  lemma RunFailed(clock: Clock, from: Reading, tokens: seq<Token>)
    ensures from.Err? ==> Run(clock, from, tokens) == from
  {
  }

  // ---------------------------------------------------------------------------
  // The machine reads the tree
  // ---------------------------------------------------------------------------

  /** Inside a suite a subtree only grows the suite's text and the failure count. */
  function Passed(st: Reader, tokens: seq<Token>, failures: nat): Reader {
    st.(raw := st.raw + tokens, failures := Wrap(st.failures + failures))
  }

  predicate InSuite(st: Reader) { |st.open| >= 2 && !st.done && Wrap(st.failures) == st.failures }

  function Within(st: Reader, name: string, first: Token): Reader {
    Passed(st, [first], if name == "failure" && |st.open| >= 3 then 1 else 0).(open := st.open + [name])
  }

  lemma {:induction false} PassesNode(clock: Clock, st: Reader, n: Node)
    requires InSuite(st)
    ensures Run(clock, Ok(st), Flatten(n)) == Ok(Passed(st, Flatten(n), Failures(n, |st.open|)))
    decreases n
  {
    hide *;
    match n {
      case Words(text) => PassesLeaf(clock, st, n);
      case Remark(text) => PassesLeaf(clock, st, n);
      case Element(name, attrs, kids) =>
        PassesStart(clock, st, Start(name, attrs));
        PassesAll(clock, Within(st, name, Start(name, attrs)), kids);
        PassesElement(clock, st, n);
    }
  }

  lemma PassesLeaf(clock: Clock, st: Reader, n: Node)
    requires InSuite(st) && !n.Element?
    ensures Run(clock, Ok(st), Flatten(n)) == Ok(Passed(st, Flatten(n), Failures(n, |st.open|)))
  {
    hide Run, Wrap, Blank;
    RunOne(clock, Ok(st), Flatten(n)[0]);
  }

  lemma PassesStart(clock: Clock, st: Reader, first: Token)
    requires InSuite(st) && first.Start?
    ensures InSuite(Within(st, first.name, first)) && Within(st, first.name, first).open == st.open + [first.name]
    ensures Run(clock, Ok(st), [first]) == Ok(Within(st, first.name, first))
  {
    hide Run, Wrap, ReadHead, ReadRoot;
    RunOne(clock, Ok(st), first);
    WrapTwice(st.failures, 0);
    WrapTwice(st.failures + 1, 0);
  }

  lemma PassesEnd(clock: Clock, st: Reader, name: string)
    requires |st.open| >= 3 && st.open[|st.open| - 1] == name
    ensures Run(clock, Ok(st), [End(name)]) == Ok(st.(open := st.open[..|st.open| - 1], raw := st.raw + [End(name)]))
  {
    hide Run;
    RunOne(clock, Ok(st), End(name));
  }

  lemma PassesElement(clock: Clock, st: Reader, n: Node)
    requires InSuite(st) && n.Element?
    requires var within := Within(st, n.name, Start(n.name, n.attrs));
      Run(clock, Ok(within), FlattenAll(n.kids)) ==
        Ok(Passed(within, FlattenAll(n.kids), FailuresAll(n.kids, |within.open|)))
    ensures Run(clock, Ok(st), Flatten(n)) == Ok(Passed(st, Flatten(n), Failures(n, |st.open|)))
  {
    hide Run, Wrap, Step, FlattenAll, FailuresAll;
    var first, last, inner := Start(n.name, n.attrs), End(n.name), FlattenAll(n.kids);
    var here := if n.name == "failure" && |st.open| >= 3 then 1 else 0;
    var within := Within(st, n.name, first);
    PassesStart(clock, st, first);
    var below := FailuresAll(n.kids, |st.open| + 1);
    WrapTwice(st.failures + here, below);
    var closing := Passed(within, inner, below);
    PassesEnd(clock, closing, n.name);
    assert closing.raw + [last] == st.raw + ([first] + inner + [last]);
    assert within.open[..|st.open|] == st.open;
    RunBoth(clock, Ok(st), [first], inner);
    RunBoth(clock, Ok(st), [first] + inner, [last]);
  }

  lemma {:induction false} PassesAll(clock: Clock, st: Reader, ns: seq<Node>)
    requires InSuite(st)
    ensures Run(clock, Ok(st), FlattenAll(ns)) == Ok(Passed(st, FlattenAll(ns), FailuresAll(ns, |st.open|)))
    decreases ns
  {
    if ns == [] {
      assert st.raw + [] == st.raw;
    } else {
      ForestStep(ns, |st.open|);
      var a, b := Flatten(ns[0]), FlattenAll(ns[1..]);
      var here, rest := Failures(ns[0], |st.open|), FailuresAll(ns[1..], |st.open|);
      PassesNode(clock, st, ns[0]);
      PassedTwice(st, a, here, b, rest);
      PassesAll(clock, Passed(st, a, here), ns[1..]);
      RunBoth(clock, Ok(st), a, b);
    }
  }

  lemma PassedTwice(st: Reader, a: seq<Token>, n: nat, b: seq<Token>, m: nat)
    ensures Passed(Passed(st, a, n), b, m) == Passed(st, a + b, n + m)
    ensures Passed(st, a, n).open == st.open && (InSuite(st) ==> InSuite(Passed(st, a, n)))
  {
    hide Wrap;
    WrapTwice(st.failures + n, 0);
    WrapTwice(st.failures + n, m);
    assert st.raw + a + b == st.raw + (a + b);
  }

  predicate UnderRoot(st: Reader) {
    |st.open| == 1 && !st.done && st.kid == NO_KID && st.raw == [] && Wrap(st.failures) == st.failures
  }

  function WithSuites(st: Reader, suites: seq<Suite>, failures: nat): Reader {
    st.(suites := st.suites + suites, failures := Wrap(st.failures + failures))
  }

  lemma WithSuitesTwice(st: Reader, suite: Suite, n: nat, suites: seq<Suite>, m: nat)
    ensures WithSuites(WithSuites(st, [suite], n), suites, m) == WithSuites(st, [suite] + suites, n + m)
    ensures UnderRoot(st) ==> UnderRoot(WithSuites(st, [suite], n))
  {
    hide Wrap;
    WrapTwice(st.failures + n, 0);
    WrapTwice(st.failures + n, m);
    assert st.suites + [suite] + suites == st.suites + ([suite] + suites);
  }

  lemma SuitesStep(kids: seq<Node>)
    requires kids != []
    ensures !kids[0].Element? ==> SuitesOf(kids) == SuitesOf(kids[1..])
    ensures kids[0].Element? && kids[0].name != "testsuite" ==> SuitesOf(kids) == Err(NotASuite)
    ensures kids[0].Element? && kids[0].name == "testsuite" ==>
      SuitesOf(kids) ==
      match ReadHead(kids[0].attrs)
      case Err(e) => Err(e)
      case Ok(head) =>
        match SuitesOf(kids[1..])
        case Err(e) => Err(e)
        case Ok(rest) => Ok([Suite(head, Flatten(kids[0]))] + rest)
  {
    hide ReadHead, Flatten;
  }

  lemma ReadsSuite(clock: Clock, st: Reader, n: Node)
    requires UnderRoot(st) && n.Element? && n.name == "testsuite"
    ensures Run(clock, Ok(st), Flatten(n)) ==
      match ReadHead(n.attrs)
      case Err(e) => Err(e)
      case Ok(head) => Ok(WithSuites(st, [Suite(head, Flatten(n))], Failures(n, 1)))
  {
    hide Run, Wrap, ReadHead, ReadRoot;
    var first, last, inner := Start(n.name, n.attrs), End(n.name), FlattenAll(n.kids);
    RunOne(clock, Ok(st), first);
    RunBoth(clock, Ok(st), [first], inner);
    RunBoth(clock, Ok(st), [first] + inner, [last]);
    match ReadHead(n.attrs) {
      case Err(e) =>
        RunFailed(clock, Err(e), inner);
        RunFailed(clock, Err(e), [last]);
      case Ok(head) =>
        var within := st.(open := st.open + [n.name], kid := head, raw := [first]);
        assert Step(clock, st, first) == Ok(within);
        PassesAll(clock, within, n.kids);
        var closing := Passed(within, inner, FailuresAll(n.kids, 2));
        RunOne(clock, Ok(closing), last);
        assert closing.open[..1] == st.open;
    }
  }

  /** Where reading a root's children leaves the machine. */
  function Kept(st: Reader, suites: Result<seq<Suite>, ParseError>, failures: nat): Reading {
    match suites
    case Err(e) => Err(e)
    case Ok(ss) => Ok(WithSuites(st, ss, failures))
  }

  lemma {:induction false} ReadsKids(clock: Clock, st: Reader, kids: seq<Node>)
    requires UnderRoot(st)
    ensures Run(clock, Ok(st), FlattenAll(kids)) == Kept(st, SuitesOf(kids), FailuresAll(kids, 1))
    decreases |kids|
  {
    hide *;
    if kids == [] {
      ReadsNoKids(clock, st);
    } else if !kids[0].Element? {
      ReadsKids(clock, st, kids[1..]);
      SkipsLeaf(clock, st, kids);
    } else if kids[0].name == "testsuite" && ReadHead(kids[0].attrs).Ok? {
      var n := kids[0];
      var more := WithSuites(st, [Suite(ReadHead(n.attrs).value, Flatten(n))], Failures(n, 1));
      StaysUnderRoot(st, [Suite(ReadHead(n.attrs).value, Flatten(n))], Failures(n, 1));
      ReadsKids(clock, more, kids[1..]);
      ReadsFirstSuite(clock, st, kids);
    } else {
      RefusesChild(clock, st, kids);
    }
  }

  lemma ReadsNoKids(clock: Clock, st: Reader)
    requires UnderRoot(st)
    ensures Run(clock, Ok(st), FlattenAll([])) == Kept(st, SuitesOf([]), FailuresAll([], 1))
  {
    assert st.suites + [] == st.suites;
  }

  lemma StaysUnderRoot(st: Reader, suites: seq<Suite>, failures: nat)
    requires UnderRoot(st)
    ensures UnderRoot(WithSuites(st, suites, failures))
  {
    hide Wrap;
    WrapTwice(st.failures + failures, 0);
  }

  lemma SkipsLeaf(clock: Clock, st: Reader, kids: seq<Node>)
    requires UnderRoot(st) && kids != [] && !kids[0].Element?
    requires Run(clock, Ok(st), FlattenAll(kids[1..])) == Kept(st, SuitesOf(kids[1..]), FailuresAll(kids[1..], 1))
    ensures Run(clock, Ok(st), FlattenAll(kids)) == Kept(st, SuitesOf(kids), FailuresAll(kids, 1))
  {
    ForestStep(kids, 1);
    SuitesStep(kids);
    RunBoth(clock, Ok(st), Flatten(kids[0]), FlattenAll(kids[1..]));
    RunOne(clock, Ok(st), Flatten(kids[0])[0]);
  }

  lemma ReadsFirstSuite(clock: Clock, st: Reader, kids: seq<Node>)
    requires UnderRoot(st) && kids != [] && kids[0].Element? && kids[0].name == "testsuite"
    requires ReadHead(kids[0].attrs).Ok?
    requires var more := WithSuites(st, [Suite(ReadHead(kids[0].attrs).value, Flatten(kids[0]))], Failures(kids[0], 1));
      Run(clock, Ok(more), FlattenAll(kids[1..])) == Kept(more, SuitesOf(kids[1..]), FailuresAll(kids[1..], 1))
    ensures Run(clock, Ok(st), FlattenAll(kids)) == Kept(st, SuitesOf(kids), FailuresAll(kids, 1))
  {
    hide Run, Wrap, ReadHead, SuitesOf, FailuresAll, FlattenAll, Flatten, WithSuites, Failures;
    ForestStep(kids, 1);
    SuitesStep(kids);
    var n, rest := kids[0], SuitesOf(kids[1..]);
    RunBoth(clock, Ok(st), Flatten(n), FlattenAll(kids[1..]));
    ReadsSuite(clock, st, n);
    if rest.Ok? {
      var suite := Suite(ReadHead(n.attrs).value, Flatten(n));
      WithSuitesTwice(st, suite, Failures(n, 1), rest.value, FailuresAll(kids[1..], 1));
    }
  }

  lemma RefusesChild(clock: Clock, st: Reader, kids: seq<Node>)
    requires UnderRoot(st) && kids != [] && kids[0].Element?
    requires kids[0].name != "testsuite" || ReadHead(kids[0].attrs).Err?
    ensures Run(clock, Ok(st), FlattenAll(kids)) == Kept(st, SuitesOf(kids), FailuresAll(kids, 1))
  {
    hide Run, Wrap, ReadHead, SuitesOf, FailuresAll, FlattenAll, Flatten, WithSuites, Failures;
    ForestStep(kids, 1);
    SuitesStep(kids);
    var n := kids[0];
    var e := if n.name != "testsuite" then NotASuite else ReadHead(n.attrs).error;
    RunBoth(clock, Ok(st), Flatten(n), FlattenAll(kids[1..]));
    RefusesElement(clock, st, n, e);
    RunFailed(clock, Err(e), FlattenAll(kids[1..]));
  }

  lemma ForestStep(ns: seq<Node>, depth: nat)
    requires ns != []
    ensures FlattenAll(ns) == Flatten(ns[0]) + FlattenAll(ns[1..])
    ensures FailuresAll(ns, depth) == Failures(ns[0], depth) + FailuresAll(ns[1..], depth)
    ensures !ns[0].Element? ==> |Flatten(ns[0])| == 1 && Flatten(ns[0]) == [Flatten(ns[0])[0]] && Failures(ns[0], depth) == 0
    ensures ns[0].Words? ==> Flatten(ns[0]) == [Text(ns[0].text)]
    ensures ns[0].Remark? ==> Flatten(ns[0]) == [Aside(ns[0].text)]
  {
  }

  /** A start the machine refuses sinks the whole element. */
  lemma RefusesElement(clock: Clock, st: Reader, n: Node, e: ParseError)
    requires n.Element? && StepStart(clock, st, Start(n.name, n.attrs)) == Err(e)
    ensures Run(clock, Ok(st), Flatten(n)) == Err(e)
  {
    hide Run, StepStart;
    var first := Start(n.name, n.attrs);
    assert Flatten(n) == [first] + (FlattenAll(n.kids) + [End(n.name)]);
    RunBoth(clock, Ok(st), [first], FlattenAll(n.kids) + [End(n.name)]);
    RunOne(clock, Ok(st), first);
    RunFailed(clock, Err(e), FlattenAll(n.kids) + [End(n.name)]);
  }

  /** Around the root: text and asides change nothing, and after it no text but blanks may stand. */
  lemma {:induction false} ReadsAround(clock: Clock, st: Reader, ns: seq<Node>)
    requires NoElements(ns) && |st.open| < 2
    ensures Run(clock, Ok(st), FlattenAll(ns)) == if st.done && !AllBlank(ns) then Err(TrailingContent) else Ok(st)
  {
    if ns != [] {
      ForestStep(ns, 0);
      var rest := FlattenAll(ns[1..]);
      RunBoth(clock, Ok(st), Flatten(ns[0]), rest);
      RunOne(clock, Ok(st), Flatten(ns[0])[0]);
      RunFailed(clock, Err(TrailingContent), rest);
      ReadsAround(clock, st, ns[1..]);
    }
  }

  lemma ReadsRoot(clock: Clock, n: Node)
    requires n.Element?
    ensures Run(clock, Ok(INITIAL), Flatten(n)) ==
      if n.name != "testsuites" then Err(WrongRoot) else
      match ReadRoot(clock, n.attrs)
      case Err(e) => Err(e)
      case Ok(root) =>
        match SuitesOf(n.kids)
        case Err(e) => Err(e)
        case Ok(suites) =>
          Ok(INITIAL.(root := Some(root), done := true, suites := suites, failures := Wrap(FailuresAll(n.kids, 1))))
  {
    hide Run, Wrap, ReadHead, ReadRoot, SuitesOf, FailuresAll;
    var first, last, inner := Start(n.name, n.attrs), End(n.name), FlattenAll(n.kids);
    var root := ReadRoot(clock, n.attrs);
    if n.name != "testsuites" || root.Err? {
      RefusesElement(clock, INITIAL, n, StepStart(clock, INITIAL, first).error);
    } else {
      RunOne(clock, Ok(INITIAL), first);
      RunBoth(clock, Ok(INITIAL), [first], inner);
      RunBoth(clock, Ok(INITIAL), [first] + inner, [last]);
      var within := INITIAL.(open := [n.name], root := Some(root.value));
      assert INITIAL.open + [n.name] == [n.name];
      assert Step(clock, INITIAL, first) == Ok(within);
      ReadsKids(clock, within, n.kids);
      var suites := SuitesOf(n.kids);
      if suites.Err? {
        RunFailed(clock, Err(suites.error), [last]);
      } else {
        assert [] + suites.value == suites.value;
        RunOne(clock, Ok(WithSuites(within, suites.value, FailuresAll(n.kids, 1))), last);
      }
    }
  }

  /** THE MACHINE READS THE TREE: on every document, errors included, the token loop answers what the
      tree says. */
  lemma MachineReadsTheTree(clock: Clock, d: Document)
    requires IsDocument(d)
    ensures Parse(clock, FlattenDoc(d)) == ReadDoc(clock, d)
  {
    hide Run, Wrap, ReadRoot, SuitesOf, FailuresAll, Flatten, FlattenAll;
    var a, b, c := FlattenAll(d.prolog), Flatten(d.root), FlattenAll(d.epilog);
    RunBoth(clock, Ok(INITIAL), a, b);
    RunBoth(clock, Ok(INITIAL), a + b, c);
    ReadsAround(clock, INITIAL, d.prolog);
    ReadsRoot(clock, d.root);
    var mid := Run(clock, Ok(INITIAL), b);
    RunFailed(clock, mid, c);
    if mid.Ok? {
      ReadsAround(clock, mid.value, d.epilog);
    }
  }

  // ---------------------------------------------------------------------------
  // What the machine accepts is a tree
  // ---------------------------------------------------------------------------

  /** The tokens close every element of `open`, and each one they start. */
  predicate Closes(open: seq<string>, tokens: seq<Token>)
    decreases |tokens|
  {
    if tokens == [] then open == [] else
    match tokens[0]
    case Start(name, _) => Closes(open + [name], tokens[1..])
    case End(name) => open != [] && open[|open| - 1] == name && Closes(open[..|open| - 1], tokens[1..])
    case Text(_) => Closes(open, tokens[1..])
    case Aside(_) => Closes(open, tokens[1..])
  }

  lemma {:induction false} RunCloses(clock: Clock, st: Reader, tokens: seq<Token>)
    requires Run(clock, Ok(st), tokens).Ok? && Run(clock, Ok(st), tokens).value.open == []
    ensures Closes(st.open, tokens)
    decreases |tokens|
  {
    if tokens != [] {
      var next := Step(clock, st, tokens[0]);
      RunFailed(clock, next, tokens[1..]);
      RunCloses(clock, next.value, tokens[1..]);
    }
  }

  /** One forest per open element, each followed by that element's end, then the outermost one. */
  ghost function Closing(forests: seq<seq<Node>>, open: seq<string>): seq<Token>
    requires |forests| == |open| + 1
    decreases |open|
  {
    if open == [] then FlattenAll(forests[0]) else
    FlattenAll(forests[0]) + [End(open[|open| - 1])] + Closing(forests[1..], open[..|open| - 1])
  }

  lemma {:induction false} Unflatten(open: seq<string>, tokens: seq<Token>) returns (forests: seq<seq<Node>>)
    requires Closes(open, tokens)
    ensures |forests| == |open| + 1 && tokens == Closing(forests, open)
    decreases |tokens|
  {
    hide Flatten, FlattenAll;
    if tokens == [] {
      ForestOfNothing();
      return [[]];
    }
    assert tokens == [tokens[0]] + tokens[1..];
    match tokens[0] {
      case Start(name, attrs) =>
        var inner := Unflatten(open + [name], tokens[1..]);
        assert (open + [name])[..|open|] == open;
        forests := Enclose(name, attrs, inner, open);
      case End(name) =>
        var outer := Unflatten(open[..|open| - 1], tokens[1..]);
        ForestOfNothing();
        forests := [[]] + outer;
        assert forests[1..] == outer;
      case Text(text) =>
        var rest := Unflatten(open, tokens[1..]);
        forests := Prepend(Words(text), rest, open);
      case Aside(text) =>
        var rest := Unflatten(open, tokens[1..]);
        forests := Prepend(Remark(text), rest, open);
    }
  }

  lemma ForestOfNothing()
    ensures FlattenAll([]) == []
  {
  }

  lemma Prepend(n: Node, rest: seq<seq<Node>>, open: seq<string>) returns (forests: seq<seq<Node>>)
    requires |rest| == |open| + 1
    ensures |forests| == |open| + 1 && Closing(forests, open) == Flatten(n) + Closing(rest, open)
    ensures n.Words? ==> Flatten(n) == [Text(n.text)]
    ensures n.Remark? ==> Flatten(n) == [Aside(n.text)]
  {
    forests := [[n] + rest[0]] + rest[1..];
    assert forests[1..] == rest[1..];
    assert ([n] + rest[0])[1..] == rest[0];
    ForestStep([n] + rest[0], 0);
  }

  lemma Enclose(name: string, attrs: seq<Attr>, inner: seq<seq<Node>>, open: seq<string>)
    returns (forests: seq<seq<Node>>)
    requires |inner| == |open| + 2
    ensures |forests| == |open| + 1
    ensures Closing(forests, open) == [Start(name, attrs)] + Closing(inner, open + [name])
  {
    var n := Element(name, attrs, inner[0]);
    forests := Prepend(n, inner[1..], open);
    assert Flatten(n) == [Start(name, attrs)] + FlattenAll(inner[0]) + [End(name)];
    assert (open + [name])[..|open|] == open;
  }

  lemma {:induction false} NothingAfterTheRoot(clock: Clock, st: Reader, ns: seq<Node>)
    requires st.done && st.open == [] && Run(clock, Ok(st), FlattenAll(ns)).Ok?
    ensures NoElements(ns)
  {
    if ns != [] {
      ForestStep(ns, 0);
      var rest := FlattenAll(ns[1..]);
      RunBoth(clock, Ok(st), Flatten(ns[0]), rest);
      if ns[0].Element? {
        RefusesElement(clock, st, ns[0], SecondRoot);
        RunFailed(clock, Err(SecondRoot), rest);
        assert false;
      }
      RunOne(clock, Ok(st), Flatten(ns[0])[0]);
      RunFailed(clock, Err(TrailingContent), rest);
      NothingAfterTheRoot(clock, st, ns[1..]);
      assert forall i :: 1 <= i < |ns| ==> ns[i] == ns[1..][i - 1];
    }
  }

  lemma {:induction false} FlattenBoth(a: seq<Node>, b: seq<Node>)
    ensures FlattenAll(a + b) == FlattenAll(a) + FlattenAll(b)
    decreases |a|
  {
    if a == [] {
      assert a + b == b;
    } else {
      FlattenBoth(a[1..], b);
      assert (a + b)[1..] == a[1..] + b && (a + b)[0] == a[0];
      ForestStep(a, 0);
      ForestStep(a + b, 0);
      var x, y, z := Flatten(a[0]), FlattenAll(a[1..]), FlattenAll(b);
      assert x + (y + z) == x + y + z;
    }
  }

  lemma FlattenThree(a: seq<Node>, n: Node, b: seq<Node>)
    ensures FlattenAll(a + [n] + b) == FlattenAll(a) + Flatten(n) + FlattenAll(b)
  {
    FlattenBoth(a + [n], b);
    FlattenBoth(a, [n]);
    ForestOfNothing();
    assert [n][1..] == [];
  }

  /** The nodes up to the first element. */
  lemma {:induction false} FirstElement(ns: seq<Node>) returns (k: nat)
    ensures k <= |ns| && NoElements(ns[..k]) && (k < |ns| ==> ns[k].Element?)
  {
    if ns == [] || ns[0].Element? { return 0; }
    var j := FirstElement(ns[1..]);
    k := j + 1;
    assert forall i :: 1 <= i < k ==> ns[..k][i] == ns[1..][..j][i - 1];
  }

  /** WHAT IS ACCEPTED IS A TREE: an accepted token sequence is the text of one document. */
  lemma AcceptedIsATree(clock: Clock, tokens: seq<Token>) returns (d: Document)
    requires Parse(clock, tokens).Ok?
    ensures IsDocument(d) && tokens == FlattenDoc(d)
  {
    RunCloses(clock, INITIAL, tokens);
    var forests := Unflatten([], tokens);
    var ns := forests[0];
    assert tokens == FlattenAll(ns);
    var k := FirstElement(ns);
    assert ns[..|ns|] == ns;
    ReadsAround(clock, INITIAL, ns[..k]);
    assert k < |ns|;
    d := Document(ns[..k], ns[k], ns[k + 1..]);
    assert ns == d.prolog + [d.root] + d.epilog;
    FlattenThree(d.prolog, d.root, d.epilog);
    var a, b, c := FlattenAll(d.prolog), Flatten(d.root), FlattenAll(d.epilog);
    RunBoth(clock, Ok(INITIAL), a, b);
    RunBoth(clock, Ok(INITIAL), a + b, c);
    ReadsRoot(clock, d.root);
    var mid := Run(clock, Ok(INITIAL), b);
    RunFailed(clock, mid, c);
    NothingAfterTheRoot(clock, mid.value, d.epilog);
  }
}
