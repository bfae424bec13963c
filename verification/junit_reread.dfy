/** The merged JUnit report, read again: exactly when it parses, and exactly when it passes the check
    that the shard reports had to pass. */
module JUnitReread {
  import opened Prelude
  import opened Decimal
  import opened Sorting
  import opened JUnit
  import opened JUnitMerge

  // ---------------------------------------------------------------------------
  // Reading the merged root back
  // ---------------------------------------------------------------------------

  /** A printed time reads back as some time. */
  ghost predicate Honest(clock: Clock) {
    forall x: real :: x >= 0.0 ==>
      clock.read(clock.show(x)).Some? && clock.read(clock.show(x)).value >= 0.0
  }

  lemma ReadsPrinted(n: int)
    requires IsWord(n)
    ensures ReadCanonical(PrintInt(n)) == if n >= 0 then Some(n) else None
  {
    if n >= 0 {
      ReadPrinted(n);
    } else {
      assert PrintInt(n)[0] == '-';
    }
  }

  /** What a counter reads as when the attributes hold `names`. */
  function AsRead(names: seq<string>, totals: Totals, a: string): Result<Option<nat>, ParseError>
    requires forall x :: x in names ==> x in totals
  {
    if a !in names then Ok(None) else if totals[a] >= 0 then Ok(Some(totals[a])) else Err(BadCounter)
  }

  lemma {:induction false} ReadsCounter(names: seq<string>, totals: Totals, tail: seq<Attr>, a: string)
    requires Distinct(names) && forall x :: x in names ==> x in totals && IsWord(totals[x])
    requires forall i :: 0 <= i < |tail| ==> tail[i].name != a
    ensures CountAttr(CountAttrs(names, totals) + tail, a) == AsRead(names, totals, a)
  {
    hide ReadCanonical, PrintInt, Wrap;
    var attrs := CountAttrs(names, totals) + tail;
    if names == [] {
      assert attrs == tail;
      NoCounter(tail, a);
    } else {
      var rest := CountAttrs(names[1..], totals) + tail;
      assert attrs[1..] == rest;
      assert names == [names[0]] + names[1..];
      if names[0] == a {
        ReadsPrinted(totals[a]);
      } else {
        ReadsCounter(names[1..], totals, tail, a);
      }
    }
  }

  lemma {:induction false} NoCounter(attrs: seq<Attr>, a: string)
    requires forall i :: 0 <= i < |attrs| ==> attrs[i].name != a
    ensures CountAttr(attrs, a) == Ok(None)
  {
    if attrs != [] { NoCounter(attrs[1..], a); }
  }

  predicate AllShown(asked: seq<string>, names: seq<string>, totals: Totals)
    requires forall a :: a in names ==> a in totals
  {
    forall a :: a in asked && a in names ==> totals[a] >= 0
  }

  function ShownOf(asked: seq<string>, names: seq<string>, totals: Totals): Counts
    requires forall a :: a in names ==> a in totals
    requires AllShown(asked, names, totals)
  {
    map a | a in asked && a in names :: totals[a]
  }

  lemma ShownOneMore(asked: seq<string>, last: string, names: seq<string>, totals: Totals)
    requires forall a :: a in names ==> a in totals
    ensures AllShown(asked + [last], names, totals) <==> AllShown(asked, names, totals) && (last in names ==> totals[last] >= 0)
    ensures AllShown(asked + [last], names, totals) ==>
      ShownOf(asked + [last], names, totals) ==
      if last in names then ShownOf(asked, names, totals)[last := totals[last]] else ShownOf(asked, names, totals)
  {
    var all := asked + [last];
    assert forall a :: a in all <==> a in asked || a == last;
    if AllShown(all, names, totals) {
      var now, was := ShownOf(all, names, totals), ShownOf(asked, names, totals);
      assert now == if last in names then was[last := totals[last]] else was;
    }
  }

  /** Reading `asked` counters from attributes that hold `names`. */
  lemma {:induction false} ReadsCounters(attrs: seq<Attr>, asked: seq<string>, names: seq<string>, totals: Totals)
    requires forall a :: a in names ==> a in totals
    requires forall i :: 0 <= i < |asked| ==> CountAttr(attrs, asked[i]) == AsRead(names, totals, asked[i])
    ensures ReadCounts(attrs, asked) ==
      if AllShown(asked, names, totals) then Ok(ShownOf(asked, names, totals)) else Err(BadCounter)
  {
    hide CountAttr, AllShown, ShownOf;
    if asked == [] {
      NoneAsked(names, totals);
    } else {
      var n := |asked| - 1;
      var front, last := asked[..n], asked[n];
      assert asked == front + [last];
      ReadsCounters(attrs, front, names, totals);
      ShownOneMore(front, last, names, totals);
    }
  }

  lemma NoneAsked(names: seq<string>, totals: Totals)
    requires forall a :: a in names ==> a in totals
    ensures AllShown([], names, totals) && ShownOf([], names, totals) == map[]
  {
  }

  lemma {:induction false} CountAttrsNames(names: seq<string>, totals: Totals)
    requires forall a :: a in names ==> a in totals
    ensures |CountAttrs(names, totals)| == |names|
    ensures forall i :: 0 <= i < |names| ==> CountAttrs(names, totals)[i].name == names[i]
  {
    if names != [] { CountAttrsNames(names[1..], totals); }
  }

  lemma {:induction false} NoTimeRead(clock: Clock, attrs: seq<Attr>)
    requires forall i :: 0 <= i < |attrs| ==> attrs[i].name != "time"
    ensures ReadTime(clock, attrs) == Ok(None)
  {
    if attrs != [] { NoTimeRead(clock, attrs[..|attrs| - 1]); }
  }

  lemma TimeReadLast(clock: Clock, front: seq<Attr>, value: string)
    requires forall i :: 0 <= i < |front| ==> front[i].name != "time"
    requires clock.read(value).Some? && clock.read(value).value >= 0.0
    ensures ReadTime(clock, front + [Attr("time", value)]) == Ok(Some(clock.read(value).value))
  {
    NoTimeRead(clock, front);
    assert (front + [Attr("time", value)])[..|front|] == front;
  }

  lemma ReadsRootAttrs(clock: Clock, names: seq<string>, totals: Totals, time: real)
    requires Honest(clock) && time >= 0.0
    requires Distinct(names) && IsTotals(totals) && forall a :: a in names ==> a in COUNTERS
    requires forall i :: 0 <= i < |REQUIRED| ==> REQUIRED[i] in names
    ensures ReadRoot(clock, RootAttrs(clock, names, totals, time)) ==
      if AllShown(COUNTERS, names, totals)
      then Ok(Root(ShownOf(COUNTERS, names, totals), clock.read(clock.show(time)).value))
      else Err(BadCounter)
  {
    CountersAreDistinct();
    var tail := [Attr("time", clock.show(time))];
    var attrs := RootAttrs(clock, names, totals, time);
    forall i | 0 <= i < |COUNTERS| ensures CountAttr(attrs, COUNTERS[i]) == AsRead(names, totals, COUNTERS[i]) {
      ReadsCounter(names, totals, tail, COUNTERS[i]);
    }
    ReadsCounters(attrs, COUNTERS, names, totals);
    CountAttrsNames(names, totals);
    TimeReadLast(clock, CountAttrs(names, totals), clock.show(time));
  }

  // ---------------------------------------------------------------------------
  // The merged tree
  // ---------------------------------------------------------------------------

  function ElementsOf(kids: seq<Node>): seq<Node> {
    if kids == [] then [] else (if kids[0].Element? then [kids[0]] else []) + ElementsOf(kids[1..])
  }

  ghost predicate AllElements(ns: seq<Node>) { forall i :: 0 <= i < |ns| ==> ns[i].Element? }

  lemma {:induction false} ElementsKeep(kids: seq<Node>)
    requires SuitesOf(kids).Ok?
    ensures AllElements(ElementsOf(kids))
    ensures SuitesOf(ElementsOf(kids)) == SuitesOf(kids)
    ensures FailuresAll(ElementsOf(kids), 1) == FailuresAll(kids, 1)
    decreases |kids|
  {
    if kids != [] {
      SuitesStep(kids);
      ForestStep(kids, 1);
      ElementsKeep(kids[1..]);
      if kids[0].Element? {
        var es := ElementsOf(kids);
        assert es[1..] == ElementsOf(kids[1..]) && es[0] == kids[0];
        SuitesStep(es);
        ForestStep(es, 1);
      } else {
        assert [] + ElementsOf(kids[1..]) == ElementsOf(kids[1..]);
      }
    }
  }

  lemma {:induction false} SuitesBoth(a: seq<Node>, b: seq<Node>)
    requires SuitesOf(a).Ok? && SuitesOf(b).Ok?
    ensures SuitesOf(a + b) == Ok(SuitesOf(a).value + SuitesOf(b).value)
    ensures FailuresAll(a + b, 1) == FailuresAll(a, 1) + FailuresAll(b, 1)
    decreases |a|
  {
    hide *;
    if a == [] {
      assert a + b == b;
      NoNodes();
      assert [] + SuitesOf(b).value == SuitesOf(b).value;
    } else {
      SuitesStep(a);
      ForestStep(a, 1);
      SuitesBoth(a[1..], b);
      assert (a + b)[1..] == a[1..] + b && (a + b)[0] == a[0];
      SuitesStep(a + b);
      ForestStep(a + b, 1);
      if a[0].Element? {
        var x, y, z := [Suite(ReadHead(a[0].attrs).value, Flatten(a[0]))], SuitesOf(a[1..]).value, SuitesOf(b).value;
        assert x + (y + z) == x + y + z;
      }
    }
  }

  function FailureSum(ds: seq<Doc>): int {
    if ds == [] then 0 else FailureSum(ds[..|ds| - 1]) + ds[|ds| - 1].failureElems
  }

  /** The suites of all shards, as the nodes they were read from. */
  lemma {:induction false} NodesOf(clock: Clock, docs: seq<seq<Token>>) returns (nodes: seq<Node>)
    requires AllParse(clock, docs)
    ensures AllElements(nodes) && SuitesOf(nodes) == Ok(AllSuites(Parsed(clock, docs)))
    ensures Wrap(FailuresAll(nodes, 1)) == Wrap(FailureSum(Parsed(clock, docs)))
  {
    hide Parse, Wrap, SuitesOf, FailuresAll;
    var ds := Parsed(clock, docs);
    if docs == [] {
      NoNodes();
      return [];
    }
    var n := |docs| - 1;
    var before := NodesOf(clock, docs[..n]);
    assert Parsed(clock, docs[..n]) == ds[..n];
    var here := NodesOfOne(clock, docs[n]);
    nodes := before + here;
    SuitesBoth(before, here);
    var x, y := FailuresAll(before, 1), FailuresAll(here, 1);
    WrapTwice(x, y);
    WrapTwice(y, Wrap(x));
    WrapTwice(FailureSum(ds[..n]), ds[n].failureElems);
  }

  lemma NoNodes()
    ensures SuitesOf([]) == Ok([]) && FailuresAll([], 1) == 0
  {
  }

  lemma NodesOfOne(clock: Clock, tokens: seq<Token>) returns (nodes: seq<Node>)
    requires Parse(clock, tokens).Ok?
    ensures AllElements(nodes) && SuitesOf(nodes) == Ok(Parse(clock, tokens).value.suites)
    ensures Parse(clock, tokens).value.failureElems == Wrap(FailuresAll(nodes, 1))
  {
    hide Parse, Wrap, SuitesOf, FailuresAll;
    var d := AcceptedIsATree(clock, tokens);
    MachineReadsTheTree(clock, d);
    ElementsKeep(d.root.kids);
    nodes := ElementsOf(d.root.kids);
  }

  function SpacedNodes(nodes: seq<Node>): seq<Node> {
    if nodes == [] then [Words("\n")] else [Words("\n\t"), nodes[0]] + SpacedNodes(nodes[1..])
  }

  lemma {:induction false} SpacedReads(nodes: seq<Node>)
    requires AllElements(nodes) && SuitesOf(nodes).Ok?
    ensures SuitesOf(SpacedNodes(nodes)) == SuitesOf(nodes)
    ensures FailuresAll(SpacedNodes(nodes), 1) == FailuresAll(nodes, 1)
    ensures FlattenAll(SpacedNodes(nodes)) == Spaced(SuitesOf(nodes).value) + [Text("\n")]
    decreases |nodes|
  {
    hide *;
    if nodes == [] {
      SpacedNothing();
    } else {
      ShorterIsElements(nodes);
      SuitesStep(nodes);
      SpacedReads(nodes[1..]);
      SpacedNodesStep(nodes);
      ForestStep(nodes, 1);
      SpacedStep(SuitesOf(nodes).value);
      assert SuitesOf(nodes).value[1..] == SuitesOf(nodes[1..]).value;
    }
  }

  lemma SpacedNothing()
    ensures SuitesOf(SpacedNodes([])) == SuitesOf([]) == Ok([])
    ensures FailuresAll(SpacedNodes([]), 1) == FailuresAll([], 1)
    ensures FlattenAll(SpacedNodes([])) == [Text("\n")] == Spaced([]) + [Text("\n")]
  {
    FlattenOne(Words("\n"));
    SuitesStep(SpacedNodes([]));
    ForestStep(SpacedNodes([]), 1);
  }

  /** A suite in front of spaced suites. */
  lemma SpacedNodesStep(nodes: seq<Node>)
    requires nodes != [] && nodes[0].Element?
    requires SuitesOf(SpacedNodes(nodes[1..])) == SuitesOf(nodes[1..])
    ensures SuitesOf(SpacedNodes(nodes)) == SuitesOf(nodes)
    ensures FailuresAll(SpacedNodes(nodes), 1) == Failures(nodes[0], 1) + FailuresAll(SpacedNodes(nodes[1..]), 1)
    ensures FlattenAll(SpacedNodes(nodes)) == [Text("\n\t")] + (Flatten(nodes[0]) + FlattenAll(SpacedNodes(nodes[1..])))
  {
    hide *;
    var all, rest := SpacedNodes(nodes), SpacedNodes(nodes[1..]);
    var more := [nodes[0]] + rest;
    SpacedFront(nodes);
    assert all[1..] == more && more[1..] == rest;
    SuitesStep(nodes);
    SuitesStep(all);
    SuitesStep(more);
    ForestStep(all, 1);
    ForestStep(more, 1);
  }

  lemma SpacedFront(nodes: seq<Node>)
    requires nodes != []
    ensures SpacedNodes(nodes) == [Words("\n\t")] + ([nodes[0]] + SpacedNodes(nodes[1..]))
  {
  }

  lemma ShorterIsElements(nodes: seq<Node>)
    requires nodes != [] && AllElements(nodes)
    ensures nodes[0].Element? && AllElements(nodes[1..])
  {
  }

  lemma SpacedStep(suites: seq<Suite>)
    requires suites != []
    ensures Spaced(suites) == [Text("\n\t")] + (suites[0].raw + Spaced(suites[1..]))
  {
  }

  lemma WrittenIsTree(attrs: seq<Attr>, nodes: seq<Node>) returns (d: Document)
    requires AllElements(nodes) && SuitesOf(nodes).Ok?
    ensures IsDocument(d) && FlattenDoc(d) == Written(attrs, SuitesOf(nodes).value)
    ensures d.root == Element("testsuites", attrs, SpacedNodes(nodes)) && AllBlank(d.epilog)
  {
    hide *;
    var x, y := Remark(HEADER), Words("\n");
    d := Document([x, y], Element("testsuites", attrs, SpacedNodes(nodes)), [y]);
    FlattenTwo(x, y);
    FlattenOne(y);
    SpacedReads(nodes);
    FlattenRoot(attrs, SpacedNodes(nodes));
    DocumentParts(d, x, y);
    WrittenUnfolds(attrs, SuitesOf(nodes).value);
  }

  lemma DocumentParts(d: Document, x: Node, y: Node)
    requires x.Remark? && y == Words("\n") && d.prolog == [x, y] && d.root.Element? && d.epilog == [y]
    ensures IsDocument(d) && AllBlank(d.epilog)
    ensures FlattenDoc(d) == FlattenAll(d.prolog) + Flatten(d.root) + FlattenAll(d.epilog)
  {
    hide Flatten, FlattenAll;
  }

  lemma WrittenUnfolds(attrs: seq<Attr>, suites: seq<Suite>)
    ensures Written(attrs, suites) ==
      [Aside(HEADER), Text("\n"), Start("testsuites", attrs)] + Spaced(suites) + [Text("\n"), End("testsuites"), Text("\n")]
  {
    hide Spaced, HEADER;
  }

  lemma FlattenOne(n: Node)
    ensures FlattenAll([n]) == Flatten(n)
    ensures n.Words? ==> Flatten(n) == [Text(n.text)]
    ensures n.Remark? ==> Flatten(n) == [Aside(n.text)]
  {
    ForestOfNothing();
    ForestStep([n], 0);
    assert [n][1..] == [];
  }

  lemma FlattenTwo(n: Node, m: Node)
    requires n.Remark? && m.Words?
    ensures FlattenAll([n, m]) == [Aside(n.text), Text(m.text)]
  {
    FlattenOne(n);
    FlattenOne(m);
    FlattenBoth([n], [m]);
    assert [n] + [m] == [n, m];
  }

  lemma FlattenRoot(attrs: seq<Attr>, kids: seq<Node>)
    ensures Flatten(Element("testsuites", attrs, kids)) ==
      [Start("testsuites", attrs)] + FlattenAll(kids) + [End("testsuites")]
  {
  }

  // ---------------------------------------------------------------------------
  // The merged report against the merge's own check
  // ---------------------------------------------------------------------------

  lemma {:induction false} TimeIsNotNegative(ds: seq<Doc>)
    requires forall i :: 0 <= i < |ds| ==> ds[i].root.time >= 0.0
    ensures TimeSum(ds) >= 0.0
  {
    if ds != [] { TimeIsNotNegative(ds[..|ds| - 1]); }
  }

  lemma ParsedRoot(clock: Clock, tokens: seq<Token>)
    requires Parse(clock, tokens).Ok?
    ensures var root := Parse(clock, tokens).value.root;
      root.time >= 0.0 && "tests" in root.counts && "failures" in root.counts
  {
    hide Parse, ReadRoot, SuitesOf, FailuresAll, Wrap;
    assert REQUIRED[0] == "tests" && REQUIRED[1] == "failures";
    var d := AcceptedIsATree(clock, tokens);
    MachineReadsTheTree(clock, d);
  }

  predicate NoTotalNegative(ds: seq<Doc>) { forall a :: a in Printed(ds) ==> Wrap(RootSum(ds, a)) >= 0 }

  function MergedCounts(ds: seq<Doc>): Counts
    requires NoTotalNegative(ds)
  {
    map a | a in Printed(ds) :: Wrap(RootSum(ds, a))
  }

  /** What the merged document reads as. */
  function MergedDoc(ds: seq<Doc>, time: real): Doc
    requires NoTotalNegative(ds)
  {
    Doc(Root(MergedCounts(ds), time), AllSuites(ds), Wrap(FailureSum(ds)))
  }

  /** The printed total time, read back. */
  function Reread(clock: Clock, ds: seq<Doc>): real {
    match clock.read(clock.show(TimeSum(ds))) case Some(x) => x case None => 0.0
  }

  lemma PrintedNames(ds: seq<Doc>)
    ensures Distinct(Printed(ds)) && forall a :: a in Printed(ds) ==> a in COUNTERS
    ensures forall i :: 0 <= i < |REQUIRED| ==> REQUIRED[i] in Printed(ds)
    ensures forall i :: 0 <= i < |OPTIONAL| ==> (OPTIONAL[i] in Printed(ds) <==> Carried(ds, OPTIONAL[i]))
  {
    CountersAreDistinct();
    var all := REQUIRED + OPTIONAL;
    assert |all| == 5 && all[0] == REQUIRED[0] && all[1] == REQUIRED[1] && all[2] == REQUIRED[2] && all[3] == OPTIONAL[0] && all[4] == OPTIONAL[1];
  }

  lemma TotalsAreTotals(ds: seq<Doc>)
    ensures IsTotals(TotalsOf(ds))
  {
    hide Wrap;
    forall a ensures IsWord(Wrap(RootSum(ds, a))) { WrapTwice(RootSum(ds, a), 0); }
  }

  /** THE MERGED DOCUMENT READS BACK: it is refused exactly when a printed total wrapped to a negative
      number; otherwise it holds the shards' suites in order, every total and every failure. */
  lemma MergedReadsBack(clock: Clock, docs: seq<seq<Token>>)
    requires Honest(clock) && AllParse(clock, docs)
    ensures var ds := Parsed(clock, docs);
      && TimeSum(ds) >= 0.0
      && Parse(clock, Merged(clock, ds)) ==
         if NoTotalNegative(ds) then Ok(MergedDoc(ds, Reread(clock, ds))) else Err(BadCounter)
  {
    hide Parse, Wrap, ReadRoot, SuitesOf, FailuresAll, RootAttrs, Written, SpacedNodes, AllSuites, RootSum, COUNTERS;
    hide Flatten, FlattenDoc, AllShown, ShownOf, IsTotals, TimeSum, Printed, TotalsOf, REQUIRED, OPTIONAL, NoTotalNegative;
    var ds := Parsed(clock, docs);
    forall i | 0 <= i < |docs| ensures ds[i].root.time >= 0.0 { ParsedRoot(clock, docs[i]); }
    TimeIsNotNegative(ds);
    var nodes := NodesOf(clock, docs);
    TotalsAreTotals(ds);
    PrintedNames(ds);
    PrintedTotals(ds);
    var attrs := RootAttrs(clock, Printed(ds), TotalsOf(ds), TimeSum(ds));
    ReadsRootAttrs(clock, Printed(ds), TotalsOf(ds), TimeSum(ds));
    var d := WrittenIsTree(attrs, nodes);
    SpacedReads(nodes);
    MachineReadsTheTree(clock, d);
  }

  lemma PrintedTotals(ds: seq<Doc>)
    ensures forall a :: a in Printed(ds) ==> a in TotalsOf(ds)
    ensures AllShown(COUNTERS, Printed(ds), TotalsOf(ds)) <==> NoTotalNegative(ds)
    ensures NoTotalNegative(ds) ==>
      ShownOf(COUNTERS, Printed(ds), TotalsOf(ds)) == MergedCounts(ds)
  {
    PrintedNames(ds);
  }

  /** The suite sums of the shards whose root does not carry the counter. */
  function Uncarried(ds: seq<Doc>, a: string): nat {
    if ds == [] then 0 else
    var last := ds[|ds| - 1];
    Uncarried(ds[..|ds| - 1], a) + if a in last.root.counts then 0 else SuiteSum(last.suites, a)
  }

  /** An optional counter that some shard carries is missing nothing in the shards that do not. */
  predicate Balanced(ds: seq<Doc>) {
    forall i :: 0 <= i < |OPTIONAL| && Carried(ds, OPTIONAL[i]) ==> Wrap(Uncarried(ds, OPTIONAL[i])) == 0
  }

  lemma {:induction false} SuiteSumBoth(a: seq<Suite>, b: seq<Suite>, c: string)
    ensures SuiteSum(a + b, c) == SuiteSum(a, c) + SuiteSum(b, c)
    decreases |b|
  {
    if b == [] {
      assert a + b == a;
    } else {
      var n := |b| - 1;
      assert (a + b)[..|a| + n] == a + b[..n];
      SuiteSumBoth(a, b[..n], c);
    }
  }

  /** All suites of a checked counter: what the roots carry plus what they leave out. */
  lemma {:induction false} SumsAgree(ds: seq<Doc>, a: string)
    requires a != "failures" && a != "errors" && forall i :: 0 <= i < |ds| ==> CounterHolds(ds[i], a)
    ensures Wrap(SuiteSum(AllSuites(ds), a)) == Wrap(RootSum(ds, a) + Uncarried(ds, a))
  {
    if ds != [] {
      var d, front := ds[|ds| - 1], ds[..|ds| - 1];
      SumsStep(ds, a);
      SumsAgree(front, a);
      SuiteSumBoth(AllSuites(front), d.suites, a);
      SameWrap(SuiteSum(AllSuites(front), a), RootSum(front, a) + Uncarried(front, a), SuiteSum(d.suites, a));
    }
  }

  lemma SumsStep(ds: seq<Doc>, a: string)
    requires ds != [] && a != "failures" && a != "errors" && CounterHolds(ds[|ds| - 1], a)
    ensures var d, front := ds[|ds| - 1], ds[..|ds| - 1];
      && AllSuites(ds) == AllSuites(front) + d.suites
      && RootSum(ds, a) + Uncarried(ds, a) == RootSum(front, a) + Uncarried(front, a) +
           if a in d.root.counts then Wrap(SuiteSum(d.suites, a)) else SuiteSum(d.suites, a)
  {
    hide Wrap, SuiteSum;
  }

  lemma SameWrap(x: int, y: int, s: int)
    requires Wrap(x) == Wrap(y)
    ensures Wrap(x + s) == Wrap(y + s) == Wrap(y + Wrap(s))
  {
    hide Wrap;
    WrapTwice(x, s);
    WrapTwice(y, s);
    WrapTwice(s, y);
  }

  lemma {:induction false} FailuresAgree(ds: seq<Doc>)
    requires forall i :: 0 <= i < |ds| ==> CounterHolds(ds[i], "failures") && "failures" in ds[i].root.counts
    ensures RootSum(ds, "failures") == FailureSum(ds)
  {
    if ds != [] { FailuresAgree(ds[..|ds| - 1]); }
  }

  lemma {:induction false} AllCarry(ds: seq<Doc>, a: string)
    requires forall i :: 0 <= i < |ds| ==> a in ds[i].root.counts
    ensures Uncarried(ds, a) == 0
  {
    if ds != [] { AllCarry(ds[..|ds| - 1], a); }
  }

  lemma MergedCounterHolds(ds: seq<Doc>, time: real, a: string)
    requires NoTotalNegative(ds)
    requires a != "failures" && a != "errors" && forall i :: 0 <= i < |ds| ==> CounterHolds(ds[i], a)
    ensures CounterHolds(MergedDoc(ds, time), a) <==> (a in Printed(ds) ==> Wrap(Uncarried(ds, a)) == 0)
  {
    hide Wrap, RootSum, SuiteSum, Printed, AllSuites, Uncarried;
    SumsAgree(ds, a);
    WrapSplit(RootSum(ds, a), Uncarried(ds, a));
  }

  lemma MergedIsConsistent(ds: seq<Doc>, time: real)
    requires NoTotalNegative(ds)
    requires forall i :: 0 <= i < |ds| ==> Consistent(ds[i])
    requires forall i :: 0 <= i < |ds| ==> "tests" in ds[i].root.counts && "failures" in ds[i].root.counts
    ensures Consistent(MergedDoc(ds, time)) <==> Balanced(ds)
  {
    hide *;
    var m := MergedDoc(ds, time);
    forall i | 0 <= i < |ds| ensures EachHolds(ds[i]) {
      ConsistentIsEach(ds[i]);
    }
    EachMeans();
    ConsistentIsEach(m);
    BalancedIsBoth(ds);
    MergedFailuresHold(ds, time);
    MergedCounterHolds(ds, time, "tests");
    AllCarry(ds, "tests");
    MergedCounterHolds(ds, time, "skipped");
    MergedCounterHolds(ds, time, "disabled");
  }

  predicate EachHolds(doc: Doc) {
    && CounterHolds(doc, "tests") && CounterHolds(doc, "failures") && CounterHolds(doc, "errors")
    && CounterHolds(doc, "skipped") && CounterHolds(doc, "disabled")
  }

  lemma EachMeans()
    ensures forall doc :: CounterHolds(doc, "errors")
    ensures forall doc :: EachHolds(doc) ==>
      && CounterHolds(doc, "tests") && CounterHolds(doc, "failures") && CounterHolds(doc, "skipped")
      && CounterHolds(doc, "disabled")
    ensures forall doc ::
      (CounterHolds(doc, "tests") && CounterHolds(doc, "failures") && CounterHolds(doc, "errors") &&
       CounterHolds(doc, "skipped") && CounterHolds(doc, "disabled")) ==> EachHolds(doc)
    ensures "tests" != "failures" && "tests" != "errors" && "skipped" != "failures" && "skipped" != "errors"
    ensures "disabled" != "failures" && "disabled" != "errors"
  {
    assert "tests"[0] == 't' && "failures"[0] == 'f' && "errors"[0] == 'e' && "skipped"[0] == 's' && "disabled"[0] == 'd';
  }

  lemma ConsistentIsEach(doc: Doc)
    ensures Consistent(doc) <==> EachHolds(doc)
  {
    hide CounterHolds;
    assert COUNTERS[0] == "tests" && COUNTERS[1] == "failures" && COUNTERS[2] == "errors"
      && COUNTERS[3] == "skipped" && COUNTERS[4] == "disabled";
  }

  lemma BalancedIsBoth(ds: seq<Doc>)
    ensures Balanced(ds) <==>
      && ("skipped" in Printed(ds) ==> Wrap(Uncarried(ds, "skipped")) == 0)
      && ("disabled" in Printed(ds) ==> Wrap(Uncarried(ds, "disabled")) == 0)
  {
    PrintedNames(ds);
    assert OPTIONAL[0] == "skipped" && OPTIONAL[1] == "disabled";
  }

  lemma MergedFailuresHold(ds: seq<Doc>, time: real)
    requires NoTotalNegative(ds)
    requires forall i :: 0 <= i < |ds| ==> CounterHolds(ds[i], "failures") && "failures" in ds[i].root.counts
    ensures CounterHolds(MergedDoc(ds, time), "failures")
  {
    hide Wrap, RootSum, Printed;
    FailuresAgree(ds);
  }

  /** THE MERGED REPORT PASSES THE MERGE'S OWN CHECK exactly when no printed total wrapped negative and
      no optional counter that some shard carries leaves out suites of a shard that does not. */
  lemma MergedPassesItsOwnCheck(clock: Clock, docs: seq<seq<Token>>)
    requires Honest(clock) && Mergeable(clock, docs)
    ensures var ds := Parsed(clock, docs);
      Mergeable(clock, [Merged(clock, ds)]) <==> NoTotalNegative(ds) && Balanced(ds)
  {
    hide Parse, Wrap, Merged, MergedCounts, Reread, NoTotalNegative, Balanced, Consistent, DistinctNames, AllSuites, Honest, REQUIRED;
    var ds := Parsed(clock, docs);
    var m := Merged(clock, ds);
    MergedReadsBack(clock, docs);
    forall i | 0 <= i < |docs| ensures "tests" in ds[i].root.counts && "failures" in ds[i].root.counts {
      ParsedRoot(clock, docs[i]);
    }
    OneDoc(clock, m);
    if NoTotalNegative(ds) {
      MergedIsConsistent(ds, Reread(clock, ds));
    }
  }

  lemma OneDoc(clock: Clock, m: seq<Token>)
    ensures AllParse(clock, [m]) <==> Parse(clock, m).Ok?
    ensures Parse(clock, m).Ok? ==> Parsed(clock, [m]) == [Parse(clock, m).value]
    ensures Mergeable(clock, [m]) <==>
      && Parse(clock, m).Ok?
      && var doc := Parse(clock, m).value; Consistent(doc) && DistinctNames(doc.suites) && doc.suites != []
  {
    hide Parse, Consistent, DistinctNames;
    assert [m][0] == m;
    if Parse(clock, m).Ok? {
      var doc := Parse(clock, m).value;
      assert Parsed(clock, [m]) == [doc];
      OnlyDoc(doc);
      assert [doc][0] == doc;
    }
  }

  lemma OnlyDoc(doc: Doc)
    ensures AllSuites([doc]) == doc.suites && TimeSum([doc]) == doc.root.time
    ensures forall a :: RootSum([doc], a) == Of(doc.root.counts, a)
    ensures forall a :: Carried([doc], a) <==> a in doc.root.counts
  {
    assert [doc][..0] == [];
    assert [] + doc.suites == doc.suites;
    forall a ensures RootSum([doc], a) == Of(doc.root.counts, a) {
      assert RootSum([], a) == 0;
    }
    assert [doc][0] == doc;
  }

  /** All or none is enough, when nothing overflows: each optional counter in every root or in no root. */
  lemma AllOrNone(ds: seq<Doc>)
    requires forall i :: 0 <= i < |OPTIONAL| ==>
      !Carried(ds, OPTIONAL[i]) || forall j :: 0 <= j < |ds| ==> OPTIONAL[i] in ds[j].root.counts
    ensures Balanced(ds)
  {
    hide Carried, Uncarried, Wrap;
    forall i | 0 <= i < |OPTIONAL| && Carried(ds, OPTIONAL[i]) ensures Wrap(Uncarried(ds, OPTIONAL[i])) == 0 {
      AllCarry(ds, OPTIONAL[i]);
    }
  }

  /** Merging the merged document alone gives it back, when a reprinted time prints the same. */
  lemma MergeOfMerged(clock: Clock, docs: seq<seq<Token>>)
    requires Honest(clock) && Mergeable(clock, docs) && Mergeable(clock, [Merged(clock, Parsed(clock, docs))])
    requires forall x: real :: x >= 0.0 && clock.read(clock.show(x)).Some? ==>
      clock.show(clock.read(clock.show(x)).value) == clock.show(x)
    ensures var m := Merged(clock, Parsed(clock, docs));
      Merged(clock, Parsed(clock, [m])) == m
  {
    hide Parse, Wrap, RootAttrs, NoTotalNegative, AllSuites, Written, Printed, TotalsOf, TimeSum, Carried, RootSum;
    var ds := Parsed(clock, docs);
    var m := Merged(clock, ds);
    MergedReadsBack(clock, docs);
    OneDoc(clock, m);
    var again := MergedDoc(ds, Reread(clock, ds));
    assert Parsed(clock, [m]) == [again];
    OnlyDoc(again);
    SamePrinted(ds, again);
    SameAttrs(clock, Printed(ds), TotalsOf(ds), TotalsOf([again]), TimeSum(ds), again.root.time);
  }

  lemma SamePrinted(ds: seq<Doc>, again: Doc)
    requires forall a :: a in again.root.counts <==> a in Printed(ds)
    requires forall a :: a in again.root.counts ==> again.root.counts[a] == Wrap(RootSum(ds, a))
    ensures Printed([again]) == Printed(ds)
    ensures forall a :: a in Printed(ds) ==> a in TotalsOf(ds) && a in TotalsOf([again]) && TotalsOf([again])[a] == TotalsOf(ds)[a]
  {
    PrintedNames(ds);
    OnlyDoc(again);
    assert OPTIONAL[0] in Printed(ds) <==> Carried(ds, OPTIONAL[0]);
    assert OPTIONAL[1] in Printed(ds) <==> Carried(ds, OPTIONAL[1]);
    assert Printed([again]) == Printed(ds);
    forall a | a in Printed(ds) ensures TotalsOf([again])[a] == TotalsOf(ds)[a] {
      WrapTwice(RootSum(ds, a), 0);
    }
  }

  lemma SameAttrs(clock: Clock, names: seq<string>, t: Totals, u: Totals, x: real, y: real)
    requires forall a :: a in names ==> a in t && a in u && t[a] == u[a]
    requires clock.show(x) == clock.show(y)
    ensures RootAttrs(clock, names, t, x) == RootAttrs(clock, names, u, y)
  {
    SameCountAttrs(names, t, u);
  }

  lemma {:induction false} SameCountAttrs(names: seq<string>, t: Totals, u: Totals)
    requires forall a :: a in names ==> a in t && a in u && t[a] == u[a]
    ensures CountAttrs(names, t) == CountAttrs(names, u)
  {
    hide PrintInt;
    if names != [] { SameCountAttrs(names[1..], t, u); }
  }

  const ONE_TEST: Totals := map a | a in COUNTERS :: if a == "tests" then 1 else 0
  const ONE_SKIPPED: Totals := map a | a in COUNTERS :: if a == "tests" || a == "skipped" then 1 else 0

  /** The first counters of the vocabulary: one is `tests`, three are the required ones, four have
      `skipped` too. */
  function FirstNames(k: nat): seq<string>
    requires k <= 5
  {
    COUNTERS[..k]
  }

  /** A report of one test in one suite: which counters its root carries, and which its suite. */
  function Report(clock: Clock, rootNames: seq<string>, suiteNames: seq<string>, suiteTotals: Totals): seq<Token>
    requires forall a :: a in rootNames ==> a in ONE_TEST
    requires forall a :: a in suiteNames ==> a in suiteTotals
  {
    [Start("testsuites", RootAttrs(clock, rootNames, ONE_TEST, 0.0)), Start("testsuite", SuiteAttrs(suiteNames, suiteTotals)),
     End("testsuite"), End("testsuites")]
  }

  function SuiteAttrs(names: seq<string>, totals: Totals): seq<Attr>
    requires forall a :: a in names ==> a in totals
  {
    CountAttrs(names, totals) + [Attr("name", "")]
  }

  ghost predicate GoodNames(names: seq<string>, totals: Totals) {
    && Distinct(names) && IsTotals(totals) && (forall a :: a in names ==> a in COUNTERS)
    && "tests" in names && AllShown(COUNTERS, names, totals)
  }

  lemma ReadsSuiteAttrs(names: seq<string>, totals: Totals)
    requires (forall a :: a in names ==> a in totals) && GoodNames(names, totals)
    ensures ReadHead(SuiteAttrs(names, totals)) == Ok(Head("", ShownOf(COUNTERS, names, totals)))
  {
    hide CountAttr, CountAttrs, ReadCounts, Wrap;
    var attrs, tail := SuiteAttrs(names, totals), [Attr("name", "")];
    assert attrs[|attrs| - 1] == tail[0];
    CountersAreDistinct();
    assert forall i :: 0 <= i < |COUNTERS| ==> COUNTERS[i] != "name" by {
      assert COUNTERS[0][0] == 't' && COUNTERS[1][0] == 'f' && COUNTERS[2][0] == 'e' && COUNTERS[3][0] == 's' && COUNTERS[4][0] == 'd';
      assert "name"[0] == 'n';
    }
    forall i | 0 <= i < |COUNTERS| ensures CountAttr(attrs, COUNTERS[i]) == AsRead(names, totals, COUNTERS[i]) {
      ReadsCounter(names, totals, tail, COUNTERS[i]);
    }
    ReadsCounters(attrs, COUNTERS, names, totals);
    assert "tests" == COUNTERS[0];
  }

  /** What such a report parses to. */
  lemma ReportParses(clock: Clock, rootNames: seq<string>, suiteNames: seq<string>, suiteTotals: Totals)
    requires Honest(clock) && (forall a :: a in suiteNames ==> a in suiteTotals) && GoodNames(suiteNames, suiteTotals)
    requires (forall a :: a in rootNames ==> a in ONE_TEST) && GoodNames(rootNames, ONE_TEST)
    requires forall i :: 0 <= i < |REQUIRED| ==> REQUIRED[i] in rootNames
    ensures var doc := Parse(clock, Report(clock, rootNames, suiteNames, suiteTotals));
      && doc.Ok? && doc.value.root.counts == ShownOf(COUNTERS, rootNames, ONE_TEST) && doc.value.failureElems == 0
      && |doc.value.suites| == 1 && doc.value.suites[0].head == Head("", ShownOf(COUNTERS, suiteNames, suiteTotals))
  {
    hide ReadRoot, ReadHead, RootAttrs, SuiteAttrs, Run, AllShown, ShownOf, IsTotals, REQUIRED, COUNTERS, ONE_TEST, Wrap;
    var suite := Element("testsuite", SuiteAttrs(suiteNames, suiteTotals), []);
    var root := Element("testsuites", RootAttrs(clock, rootNames, ONE_TEST, 0.0), [suite]);
    var d := Document([], root, []);
    ReadsSuiteAttrs(suiteNames, suiteTotals);
    ReadsRootAttrs(clock, rootNames, ONE_TEST, 0.0);
    OneSuiteTree(suite);
    ForestOfNothing();
    MachineReadsTheTree(clock, d);
    NoneWrapped();
    assert FlattenDoc(d) == Report(clock, rootNames, suiteNames, suiteTotals);
  }

  lemma NoneWrapped()
    ensures Wrap(0) == 0
  {
  }

  lemma OneSuiteTree(suite: Node)
    requires suite.Element? && suite.name == "testsuite" && suite.kids == [] && ReadHead(suite.attrs).Ok?
    ensures FlattenAll([suite]) == [Start("testsuite", suite.attrs), End("testsuite")]
    ensures SuitesOf([suite]) == Ok([Suite(ReadHead(suite.attrs).value, Flatten(suite))]) && FailuresAll([suite], 1) == 0
  {
    hide ReadHead;
    FlattenOne(suite);
    SuitesStep([suite]);
    ForestStep([suite], 1);
    NoNodes();
    assert [suite][1..] == [];
    var one := [Suite(ReadHead(suite.attrs).value, Flatten(suite))];
    assert one + [] == one;
  }

  /** Two reports as the machine reads them. */
  ghost predicate CarriesAndOmits(x: Doc, y: Doc) {
    && x.root.counts == ShownOf(COUNTERS, FirstNames(4), ONE_TEST) && y.root.counts == ShownOf(COUNTERS, FirstNames(3), ONE_TEST)
    && x.failureElems == 0 && y.failureElems == 0 && |x.suites| == 1 && |y.suites| == 1
    && x.suites[0].head == Head("", ShownOf(COUNTERS, FirstNames(1), ONE_TEST))
    && y.suites[0].head == Head("", ShownOf(COUNTERS, FirstNames(4), ONE_SKIPPED))
  }

  lemma FirstNamesAreGood(k: nat, totals: Totals)
    requires 1 <= k <= 5 && IsTotals(totals) && forall a :: a in totals ==> totals[a] >= 0
    ensures GoodNames(FirstNames(k), totals) && forall a :: a in FirstNames(k) ==> a in totals
    ensures k >= 3 ==> forall i :: 0 <= i < |REQUIRED| ==> REQUIRED[i] in FirstNames(k)
  {
    CountersAreDistinct();
    assert FirstNames(k)[0] == COUNTERS[0] == "tests";
    assert forall i :: 0 <= i < |REQUIRED| ==> REQUIRED[i] == COUNTERS[i];
    assert forall i :: 0 <= i < k ==> FirstNames(k)[i] == COUNTERS[i];
  }

  lemma TotalsAreGood()
    ensures IsTotals(ONE_TEST) && IsTotals(ONE_SKIPPED)
    ensures forall a :: a in ONE_TEST ==> ONE_TEST[a] == if a == "tests" then 1 else 0
    ensures forall a :: a in ONE_SKIPPED ==> ONE_SKIPPED[a] == if a == "tests" || a == "skipped" then 1 else 0
  {
    hide COUNTERS;
  }

  /** What is read of the first counters. */
  lemma ShownFirst(k: nat, totals: Totals)
    requires 1 <= k <= 5 && IsTotals(totals) && forall a :: a in totals ==> totals[a] >= 0
    ensures forall a :: a in ShownOf(COUNTERS, FirstNames(k), totals) <==> a in FirstNames(k)
    ensures forall a :: a in FirstNames(k) ==> Of(ShownOf(COUNTERS, FirstNames(k), totals), a) == totals[a]
    ensures "tests" in FirstNames(k) && ("skipped" in FirstNames(k) <==> k >= 4) && ("disabled" in FirstNames(k) <==> k >= 5)
  {
    FirstNamesAreGood(k, totals);
    WhereNamesStand(k);
    assert forall a :: a in FirstNames(k) ==> a in COUNTERS;
  }

  lemma WhereNamesStand(k: nat)
    requires 1 <= k <= 5
    ensures "tests" in FirstNames(k) && ("skipped" in FirstNames(k) <==> k >= 4) && ("disabled" in FirstNames(k) <==> k >= 5)
  {
    CountersAreDistinct();
    var names := FirstNames(k);
    assert names[0] == COUNTERS[0];
    assert k >= 4 ==> names[3] == COUNTERS[3];
    assert k >= 5 ==> names[4] == COUNTERS[4];
    assert forall i :: 0 <= i < k ==> names[i] == COUNTERS[i];
  }

  /** Without that condition the check fails: two accepted reports, a root that carries `skipped` beside
      one that does not over a suite with a skipped test, whose merged report the merge itself refuses. */
  lemma UnbalancedShards(clock: Clock)
    requires Honest(clock)
    ensures forall a :: a in COUNTERS ==> a in ONE_TEST && a in ONE_SKIPPED
    ensures var docs := [Report(clock, FirstNames(4), FirstNames(1), ONE_TEST), Report(clock, FirstNames(3), FirstNames(4), ONE_SKIPPED)];
      Mergeable(clock, docs) && !Mergeable(clock, [Merged(clock, Parsed(clock, docs))])
  {
    hide Parse, Honest, Accepts, Report, ShownOf, AllShown, Distinct, IsWord, GoodNames, COUNTERS, REQUIRED, FirstNames, ONE_TEST, ONE_SKIPPED;
    TotalsAreGood();
    FirstNamesAreGood(1, ONE_TEST);
    FirstNamesAreGood(3, ONE_TEST);
    FirstNamesAreGood(4, ONE_TEST);
    FirstNamesAreGood(4, ONE_SKIPPED);
    var docs := [Report(clock, FirstNames(4), FirstNames(1), ONE_TEST), Report(clock, FirstNames(3), FirstNames(4), ONE_SKIPPED)];
    ReportParses(clock, FirstNames(4), FirstNames(1), ONE_TEST);
    ReportParses(clock, FirstNames(3), FirstNames(4), ONE_SKIPPED);
    var x, y := Parse(clock, docs[0]).value, Parse(clock, docs[1]).value;
    CountsOfBoth(x, y);
    UnbalancedDocs(x, y);
    assert Parsed(clock, docs) == [x, y];
    MergedPassesItsOwnCheck(clock, docs);
  }

  /** The counters of the two reports, one by one. */
  ghost predicate CountsAre(x: Doc, y: Doc) {
    && |x.suites| == |y.suites| == 1 && x.suites[0].head.name == "" && y.suites[0].head.name == ""
    && x.failureElems == 0 && y.failureElems == 0
    && (forall a :: Of(x.root.counts, a) == Of(y.root.counts, a) == if a == "tests" then 1 else 0)
    && (forall a :: Of(x.suites[0].head.counts, a) == if a == "tests" then 1 else 0)
    && (forall a :: Of(y.suites[0].head.counts, a) == if a == "tests" || a == "skipped" then 1 else 0)
    && "skipped" in x.root.counts && "skipped" !in y.root.counts && "disabled" !in x.root.counts
  }

  lemma UnbalancedDocs(x: Doc, y: Doc)
    requires CountsAre(x, y)
    ensures Accepts([x, y]) && NoTotalNegative([x, y]) && !Balanced([x, y])
  {
    hide RootSum, Uncarried, SuiteSum, AllSuites, Printed, COUNTERS, Consistent;
    TwoDocs(x, y);
    var ds := [x, y];
    assert OPTIONAL[0] == "skipped" && "skipped" in ds[0].root.counts;
    assert Carried(ds, OPTIONAL[0]) && Uncarried(ds, OPTIONAL[0]) == 1;
    assert "tests"[0] == 't' && "failures"[0] == 'f' && "errors"[0] == 'e' && "skipped"[0] == 's' && "disabled"[0] == 'd';
    PlainIsConsistent(x);
    PlainIsConsistent(y);
    assert forall i :: 0 <= i < |ds| ==> Consistent(ds[i]);
  }

  /** One suite whose counters are the root's, as far as the root carries them. */
  lemma PlainIsConsistent(d: Doc)
    requires d.failureElems == 0 && Of(d.root.counts, "failures") == 0
    requires forall a :: a in d.root.counts ==> SuiteSum(d.suites, a) == Of(d.root.counts, a) <= 1
    ensures Consistent(d)
  {
    hide SuiteSum;
    ConsistentIsEach(d);
  }

  lemma CountsOfBoth(x: Doc, y: Doc)
    requires CarriesAndOmits(x, y)
    ensures CountsAre(x, y)
  {
    hide ShownOf, FirstNames, IsTotals, ONE_TEST, ONE_SKIPPED, COUNTERS;
    TotalsAreGood();
    FirstNamesAreGood(1, ONE_TEST);
    FirstNamesAreGood(3, ONE_TEST);
    FirstNamesAreGood(4, ONE_TEST);
    FirstNamesAreGood(4, ONE_SKIPPED);
    ShownFirst(4, ONE_TEST);
    ShownFirst(3, ONE_TEST);
    ShownFirst(1, ONE_TEST);
    ShownFirst(4, ONE_SKIPPED);
  }

  function Left(d: Doc, a: string): nat { if a in d.root.counts then 0 else SuiteSum(d.suites, a) }

  lemma TwoDocs(x: Doc, y: Doc)
    requires |x.suites| == 1 && |y.suites| == 1
    ensures AllSuites([x, y]) == x.suites + y.suites
    ensures forall a :: SuiteSum(x.suites, a) == Of(x.suites[0].head.counts, a)
    ensures forall a :: SuiteSum(y.suites, a) == Of(y.suites[0].head.counts, a)
    ensures forall a :: RootSum([x, y], a) == Of(x.root.counts, a) + Of(y.root.counts, a)
    ensures forall a :: Uncarried([x, y], a) == Left(x, a) + Left(y, a)
  {
    assert [x, y][..1] == [x] && [x][..0] == [];
    assert AllSuites([x]) == x.suites by { assert [] + x.suites == x.suites; }
    forall a
      ensures RootSum([x, y], a) == Of(x.root.counts, a) + Of(y.root.counts, a)
      ensures Uncarried([x, y], a) == Left(x, a) + Left(y, a) {
      assert RootSum([], a) == 0 && Uncarried([], a) == 0;
      assert RootSum([x], a) == Of(x.root.counts, a);
      assert Uncarried([x], a) == Left(x, a);
    }
  }
}
