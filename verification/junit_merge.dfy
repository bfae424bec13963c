/** Merging JUnit reports: what a shard report must satisfy, and what the merged document is. */
module JUnitMerge {
  import opened Prelude
  import opened Decimal
  import opened JUnit
  import opened Sorting

  // ---------------------------------------------------------------------------
  // What a shard report must satisfy
  // ---------------------------------------------------------------------------

  function Of(counts: Counts, a: string): nat { if a in counts then counts[a] else 0 }

  function SuiteSum(suites: seq<Suite>, a: string): nat {
    if suites == [] then 0 else SuiteSum(suites[..|suites| - 1], a) + Of(suites[|suites| - 1].head.counts, a)
  }

  /** What a root counter is checked against. */
  function Want(doc: Doc, a: string): int {
    if a == "failures" then doc.failureElems else Wrap(SuiteSum(doc.suites, a))
  }

  predicate CounterHolds(doc: Doc, a: string) {
    a in doc.root.counts && a != "errors" ==> doc.root.counts[a] == Want(doc, a)
  }

  predicate Consistent(doc: Doc) { forall i :: 0 <= i < |COUNTERS| ==> CounterHolds(doc, COUNTERS[i]) }

  /** What a report must satisfy, name by name: its tests, skipped and disabled counters are the sums over
      its suites, its failures the number of failure elements; its errors are not checked, and a counter
      it does not carry is not asked for. */
  lemma ConsistentIff(doc: Doc)
    ensures var c := doc.root.counts;
      Consistent(doc) <==>
        && ("tests" in c ==> c["tests"] == Wrap(SuiteSum(doc.suites, "tests")))
        && ("failures" in c ==> c["failures"] == doc.failureElems)
        && ("skipped" in c ==> c["skipped"] == Wrap(SuiteSum(doc.suites, "skipped")))
        && ("disabled" in c ==> c["disabled"] == Wrap(SuiteSum(doc.suites, "disabled")))
  {
    hide Wrap, SuiteSum;
    assert "tests"[0] == 't' && "failures"[0] == 'f' && "errors"[0] == 'e' && "skipped"[0] == 's' && "disabled"[0] == 'd';
    assert Consistent(doc) <==>
      && CounterHolds(doc, COUNTERS[0]) && CounterHolds(doc, COUNTERS[1]) && CounterHolds(doc, COUNTERS[2])
      && CounterHolds(doc, COUNTERS[3]) && CounterHolds(doc, COUNTERS[4]);
  }

  function AllSuites(ds: seq<Doc>): seq<Suite> {
    if ds == [] then [] else AllSuites(ds[..|ds| - 1]) + ds[|ds| - 1].suites
  }

  predicate DistinctNames(suites: seq<Suite>) {
    forall i, j :: 0 <= i < j < |suites| && suites[i].head.name == suites[j].head.name ==> suites[i].head.name == ""
  }

  predicate Accepts(ds: seq<Doc>) {
    && (forall i :: 0 <= i < |ds| ==> Consistent(ds[i]))
    && DistinctNames(AllSuites(ds))
    && AllSuites(ds) != []
  }

  predicate AllParse(clock: Clock, docs: seq<seq<Token>>) {
    forall i :: 0 <= i < |docs| ==> Parse(clock, docs[i]).Ok?
  }

  function Parsed(clock: Clock, docs: seq<seq<Token>>): (ds: seq<Doc>)
    requires AllParse(clock, docs)
    ensures |ds| == |docs| && forall i :: 0 <= i < |ds| ==> Parse(clock, docs[i]) == Ok(ds[i])
  {
    seq(|docs|, i requires 0 <= i < |docs| => Parse(clock, docs[i]).value)
  }

  predicate Mergeable(clock: Clock, docs: seq<seq<Token>>) {
    AllParse(clock, docs) && Accepts(Parsed(clock, docs))
  }

  // ---------------------------------------------------------------------------
  // Totals and the merged document
  // ---------------------------------------------------------------------------

  /** The sum of a root counter over the shards that carry it. */
  function RootSum(ds: seq<Doc>, a: string): nat {
    if ds == [] then 0 else RootSum(ds[..|ds| - 1], a) + Of(ds[|ds| - 1].root.counts, a)
  }

  function TimeSum(ds: seq<Doc>): real {
    if ds == [] then 0.0 else TimeSum(ds[..|ds| - 1]) + ds[|ds| - 1].root.time
  }

  predicate Carried(ds: seq<Doc>, a: string) { exists i :: 0 <= i < |ds| && a in ds[i].root.counts }

  type Totals = map<string, int>

  function TotalsOf(ds: seq<Doc>): Totals { map a | a in COUNTERS :: Wrap(RootSum(ds, a)) }

  /** The counters the merged root prints: the required ones, and each optional one some shard carries. */
  function Printed(ds: seq<Doc>): seq<string> {
    REQUIRED
    + (if Carried(ds, OPTIONAL[0]) then [OPTIONAL[0]] else [])
    + (if Carried(ds, OPTIONAL[1]) then [OPTIONAL[1]] else [])
  }

  function CountAttrs(names: seq<string>, totals: Totals): seq<Attr>
    requires forall a :: a in names ==> a in totals
  {
    if names == [] then [] else [Attr(names[0], PrintInt(totals[names[0]]))] + CountAttrs(names[1..], totals)
  }

  function Spaced(suites: seq<Suite>): seq<Token> {
    if suites == [] then [] else [Text("\n\t")] + suites[0].raw + Spaced(suites[1..])
  }

  function RootAttrs(clock: Clock, names: seq<string>, totals: Totals, time: real): seq<Attr>
    requires forall a :: a in names ==> a in totals
  {
    CountAttrs(names, totals) + [Attr("time", clock.show(time))]
  }

  const HEADER: string := "xml version=\"1.0\" encoding=\"UTF-8\""

  function Written(attrs: seq<Attr>, suites: seq<Suite>): seq<Token> {
    [Aside(HEADER), Text("\n"), Start("testsuites", attrs)]
    + Spaced(suites) + [Text("\n"), End("testsuites"), Text("\n")]
  }

  /** The merged document of a set of parsed reports. */
  function Merged(clock: Clock, ds: seq<Doc>): seq<Token> {
    Written(RootAttrs(clock, Printed(ds), TotalsOf(ds), TimeSum(ds)), AllSuites(ds))
  }

  // ---------------------------------------------------------------------------
  // The merge
  // ---------------------------------------------------------------------------

  datatype Stats = Stats(shards: nat, suites: nat, tests: int, failures: int, errors: int, skipped: int, time: real)

  datatype MergeError = Unreadable(error: ParseError) | Contradicts | Overlaps | NothingMeasured

  method SumOf(suites: seq<Suite>, a: string) returns (sum: int)
    ensures sum == Wrap(SuiteSum(suites, a))
  {
    hide Wrap;
    sum := 0;
    WrapTwice(0, 0);
    assert SuiteSum(suites[..0], a) == 0 && Wrap(0) == 0;
    for i := 0 to |suites|
      invariant sum == Wrap(SuiteSum(suites[..i], a))
    {
      assert suites[..i + 1][..i] == suites[..i];
      WrapTwice(SuiteSum(suites[..i], a), Of(suites[i].head.counts, a));
      sum := Wrap(sum + Of(suites[i].head.counts, a));
    }
    assert suites[..|suites|] == suites;
  }

  lemma CountersAreDistinct()
    ensures forall i, j :: 0 <= i < j < |COUNTERS| ==> COUNTERS[i] != COUNTERS[j]
    ensures "time" !in COUNTERS
    ensures COUNTERS == REQUIRED + OPTIONAL
  {
    assert COUNTERS[0][0] == 't' && COUNTERS[1][0] == 'f' && COUNTERS[2][0] == 'e' && COUNTERS[3][0] == 's' && COUNTERS[4][0] == 'd';
    assert COUNTERS[0][1] == 'e' && "time"[1] == 'i' && "time"[0] == 't';
  }

  predicate IsWord(n: int) { Wrap(n) == n }

  ghost predicate IsTotals(totals: Totals) {
    && (forall a :: a in totals <==> a in COUNTERS)
    && (forall a :: a in totals ==> IsWord(totals[a]))
  }

  /** The totals with one more shard's root counters of those names. */
  function Plus(totals: Totals, counts: Counts, names: seq<string>): Totals {
    map a | a in totals :: if a in names then Wrap(totals[a] + Of(counts, a)) else totals[a]
  }

  function Seen(counts: Counts, names: seq<string>): set<string> {
    set a | a in names && a in OPTIONAL && a in counts
  }

  lemma PlusOneMore(totals: Totals, counts: Counts, names: seq<string>, i: nat)
    requires i < |names| && Distinct(names) && names[i] in totals && IsWord(totals[names[i]])
    ensures var before, a := Plus(totals, counts, names[..i]), names[i];
      && a in before && before[a] == totals[a]
      && Plus(totals, counts, names[..i + 1]) ==
         if a in counts then before[a := Wrap(before[a] + counts[a])] else before
  {
    hide Wrap;
    var a := names[i];
    var before, after := Plus(totals, counts, names[..i]), Plus(totals, counts, names[..i + 1]);
    assert names[..i + 1] == names[..i] + [a];
    assert a !in names[..i] && before[a] == totals[a];
    var more := if a in counts then before[a := Wrap(before[a] + counts[a])] else before;
    assert before.Keys == totals.Keys && after.Keys == totals.Keys && more.Keys == totals.Keys;
    forall x | x in totals ensures after[x] == more[x] {
      assert x in names[..i + 1] <==> x in names[..i] || x == a;
    }
  }

  lemma SeenOneMore(counts: Counts, names: seq<string>, i: nat)
    requires i < |names|
    ensures Seen(counts, names[..i + 1]) ==
      Seen(counts, names[..i]) + if names[i] in counts && names[i] in OPTIONAL then {names[i]} else {}
  {
    hide OPTIONAL;
    assert names[..i + 1] == names[..i] + [names[i]];
  }

  /** One shard's root counters checked and added up. */
  method CheckCounters(doc: Doc, names: seq<string>, totals: Totals, present: set<string>)
    returns (r: Option<(Totals, set<string>)>)
    requires IsTotals(totals) && Distinct(names) && forall i :: 0 <= i < |names| ==> names[i] in totals
    ensures r.Some? <==> forall i :: 0 <= i < |names| ==> CounterHolds(doc, names[i])
    ensures names == COUNTERS ==> (r.Some? <==> Consistent(doc))
    ensures r.Some? ==> r.value == (Plus(totals, doc.root.counts, names), present + Seen(doc.root.counts, names))
  {
    hide Wrap, SuiteSum, Plus, Seen, OPTIONAL;
    var sums, seen := totals, present;
    var counts := doc.root.counts;
    PlusNone(totals, counts, names);
    for i := 0 to |names|
      invariant forall j :: 0 <= j < i ==> CounterHolds(doc, names[j])
      invariant sums == Plus(totals, counts, names[..i])
      invariant seen == present + Seen(counts, names[..i])
    {
      PlusOneMore(totals, counts, names, i);
      SeenOneMore(counts, names, i);
      var a := names[i];
      if a in counts {
        if a != "errors" {
          var want := doc.failureElems;
          if a != "failures" {
            want := SumOf(doc.suites, a);
          }
          if counts[a] != want {
            assert !CounterHolds(doc, names[i]);
            return None;
          }
        }
        if a in OPTIONAL {
          seen := seen + {a};
        }
        sums := sums[a := Wrap(sums[a] + counts[a])];
      }
    }
    assert names[..|names|] == names;
    return Some((sums, seen));
  }

  lemma PlusNone(totals: Totals, counts: Counts, names: seq<string>)
    ensures Plus(totals, counts, names[..0]) == totals && Seen(counts, names[..0]) == {}
  {
    assert Plus(totals, counts, names[..0]).Keys == totals.Keys;
  }

  /** One shard's suites taken over, refused when a named suite has been seen before. */
  method TakeSuites(suites: seq<Suite>, taken: seq<Suite>, owned: set<string>)
    returns (r: Option<(seq<Suite>, set<string>)>)
    requires Owned(owned, taken) && DistinctNames(taken)
    ensures r.Some? <==> DistinctNames(taken + suites)
    ensures r.Some? ==> r.value.0 == taken + suites && Owned(r.value.1, r.value.0)
  {
    hide Owned, DistinctNames;
    var all, names := taken, owned;
    assert taken + suites[..0] == taken;
    for i := 0 to |suites|
      invariant all == taken + suites[..i]
      invariant Owned(names, all) && DistinctNames(all)
    {
      OwnedOneMore(names, all, suites[i]);
      assert all + [suites[i]] == taken + suites[..i + 1];
      assert taken + suites == all + [suites[i]] + suites[i + 1..];
      var name := suites[i].head.name;
      if name != "" {
        if name in names {
          DistinctPrefix(all + [suites[i]], suites[i + 1..]);
          return None;
        }
        names := names + {name};
      }
      all := all + [suites[i]];
    }
    assert suites[..|suites|] == suites;
    return Some((all, names));
  }

  /** The names already taken. */
  ghost predicate Owned(owned: set<string>, suites: seq<Suite>) {
    forall name :: name in owned <==> name != "" && exists i :: 0 <= i < |suites| && suites[i].head.name == name
  }

  lemma OwnedOneMore(owned: set<string>, suites: seq<Suite>, s: Suite)
    requires Owned(owned, suites) && DistinctNames(suites)
    ensures DistinctNames(suites + [s]) <==> s.head.name !in owned
    ensures "" !in owned
    ensures Owned(if s.head.name == "" then owned else owned + {s.head.name}, suites + [s])
  {
    var more, n := suites + [s], |suites|;
    assert forall i :: 0 <= i < n ==> more[i] == suites[i];
    if s.head.name in owned {
      var i :| 0 <= i < n && suites[i].head.name == s.head.name;
      assert more[i].head.name == more[n].head.name;
    }
    var owned' := if s.head.name == "" then owned else owned + {s.head.name};
    forall name ensures name in owned' <==> name != "" && exists i :: 0 <= i < |more| && more[i].head.name == name {
      if exists i :: 0 <= i < n && suites[i].head.name == name {
        var i :| 0 <= i < n && suites[i].head.name == name;
        assert more[i].head.name == name;
      }
      assert more[n].head.name == s.head.name;
    }
  }

  lemma DistinctPrefix(a: seq<Suite>, b: seq<Suite>)
    ensures DistinctNames(a + b) ==> DistinctNames(a)
  {
    assert forall i :: 0 <= i < |a| ==> (a + b)[i] == a[i];
  }

  /** What the merge has gathered after some shards. */
  ghost predicate Gathered(ds: seq<Doc>, totals: Totals, present: set<string>, time: real, suites: seq<Suite>) {
    && totals == TotalsOf(ds) && IsTotals(totals)
    && present == (set a | a in OPTIONAL && Carried(ds, a))
    && time == TimeSum(ds)
    && suites == AllSuites(ds) && DistinctNames(suites)
    && forall i :: 0 <= i < |ds| ==> Consistent(ds[i])
  }

  lemma GatheredNothing()
    ensures Gathered([], map a | a in COUNTERS :: 0, {}, 0.0, [])
    ensures Owned({}, [])
  {
    var zero: Totals := map a | a in COUNTERS :: 0;
    assert zero.Keys == TotalsOf([]).Keys;
    assert forall a :: a in zero ==> zero[a] == TotalsOf([])[a];
  }

  lemma GatheredOneMore(
    ds: seq<Doc>, d: Doc, totals: Totals, present: set<string>, time: real, suites: seq<Suite>
  )
    requires Gathered(ds, totals, present, time, suites)
    requires Consistent(d) && DistinctNames(suites + d.suites)
    ensures Gathered(ds + [d], Plus(totals, d.root.counts, COUNTERS), present + Seen(d.root.counts, COUNTERS),
                     time + d.root.time, suites + d.suites)
  {
    hide Wrap, Consistent, DistinctNames;
    var more := ds + [d];
    assert more[..|ds|] == ds;
    TotalsOneMore(ds, d);
  }

  lemma TotalsOneMore(ds: seq<Doc>, d: Doc)
    ensures TotalsOf(ds + [d]) == Plus(TotalsOf(ds), d.root.counts, COUNTERS)
    ensures IsTotals(TotalsOf(ds + [d]))
  {
    hide Wrap, COUNTERS;
    var was, now := TotalsOf(ds), TotalsOf(ds + [d]);
    var plus := Plus(was, d.root.counts, COUNTERS);
    assert (ds + [d])[..|ds|] == ds;
    assert was.Keys == now.Keys && plus.Keys == now.Keys;
    forall a | a in COUNTERS ensures now[a] == plus[a] && IsWord(now[a]) {
      WrapTwice(RootSum(ds, a), Of(d.root.counts, a));
      WrapTwice(RootSum(ds + [d], a), 0);
    }
    assert now == plus;
  }

  /** The merge of shard reports. */
  method MergeJUnit(clock: Clock, docs: seq<seq<Token>>) returns (r: Result<(seq<Token>, Stats), MergeError>)
    ensures r.Ok? <==> Mergeable(clock, docs)
    ensures r.Ok? ==> r.value.0 == Merged(clock, Parsed(clock, docs))
    ensures r.Ok? ==>
      var ds := Parsed(clock, docs);
      r.value.1 == Stats(|ds|, |AllSuites(ds)|, Wrap(RootSum(ds, "tests")), Wrap(RootSum(ds, "failures")),
                         Wrap(RootSum(ds, "errors")), Wrap(SuiteSum(AllSuites(ds), "skipped")), TimeSum(ds))
    // What each refusal means.
    ensures r.Err? && r.error.Unreadable? ==> exists i :: 0 <= i < |docs| && Parse(clock, docs[i]) == Err(r.error.error)
    ensures r == Err(Contradicts) ==> exists i :: 0 <= i < |docs| && Parse(clock, docs[i]).Ok? && !Consistent(Parse(clock, docs[i]).value)
    ensures r == Err(Overlaps) ==> exists n :: 0 <= n <= |docs| && AllParse(clock, docs[..n]) && !DistinctNames(AllSuites(Parsed(clock, docs[..n])))
    ensures r == Err(NothingMeasured) <==> AllParse(clock, docs) && AllSuites(Parsed(clock, docs)) == [] && forall i :: 0 <= i < |docs| ==> Consistent(Parsed(clock, docs)[i])
  {
    hide *;
    var totals: Totals := map a | a in COUNTERS :: 0;
    var present: set<string> := {};
    var time := 0.0;
    var children: seq<Suite> := [];
    var owned: set<string> := {};
    ghost var ds: seq<Doc> := [];
    GatheredNothing();
    for i := 0 to |docs|
      invariant |ds| == i && forall j :: 0 <= j < i ==> Parse(clock, docs[j]) == Ok(ds[j])
      invariant Gathered(ds, totals, present, time, children) && Owned(owned, children)
    {
      var parsed := ParseJUnit(clock, docs[i]);
      if parsed.Err? {
        NotParsed(clock, docs, i);
        return Err(Unreadable(parsed.error));
      }
      var doc := parsed.value;
      GatheredMeans(ds, totals, present, time, children);
      var checked := CheckCounters(doc, COUNTERS, totals, present);
      ParsedFront(clock, docs, ds, doc);
      if checked.None? {
        if AllParse(clock, docs) { NotConsistent(Parsed(clock, docs), |ds|); }
        return Err(Contradicts);
      }
      var took := TakeSuites(doc.suites, children, owned);
      if took.None? {
        if AllParse(clock, docs) { NotDistinct(Parsed(clock, docs), |ds|); }
        OverlapAt(clock, docs, ds, doc);
        return Err(Overlaps);
      }
      GatheredOneMore(ds, doc, totals, present, time, children);
      ds := ds + [doc];
      totals, present := checked.value.0, checked.value.1;
      time := time + doc.root.time;
      children, owned := took.value.0, took.value.1;
    }
    GatheredAll(clock, docs, ds, totals, present, time, children);
    var names := REQUIRED + (if OPTIONAL[0] in present then [OPTIONAL[0]] else []) + (if OPTIONAL[1] in present then [OPTIONAL[1]] else []);
    if children == [] {
      return Err(NothingMeasured);
    }
    var skipped := SumOf(children, "skipped");
    var out := Written(RootAttrs(clock, names, totals, time), children);
    return Ok((out, Stats(|docs|, |children|, totals["tests"], totals["failures"], totals["errors"], skipped, time)));
  }

  /** The reports up to the one that repeats a name overlap, and there is a suite among them. */
  lemma OverlapAt(clock: Clock, docs: seq<seq<Token>>, ds: seq<Doc>, doc: Doc)
    requires |ds| < |docs| && Parse(clock, docs[|ds|]) == Ok(doc)
    requires forall j :: 0 <= j < |ds| ==> Parse(clock, docs[j]) == Ok(ds[j])
    requires !DistinctNames(AllSuites(ds) + doc.suites)
    ensures AllParse(clock, docs[..|ds| + 1]) && !DistinctNames(AllSuites(Parsed(clock, docs[..|ds| + 1])))
    ensures AllParse(clock, docs) ==> AllSuites(Parsed(clock, docs)) != []
  {
    hide Parse, DistinctNames;
    var front, n := docs[..|ds| + 1], |ds|;
    assert forall j :: 0 <= j <= n ==> front[j] == docs[j];
    assert Parsed(clock, front)[..n] == ds && Parsed(clock, front)[n] == doc;
    NoSuitesAreDistinct();
    if AllParse(clock, docs) {
      var all := Parsed(clock, docs);
      assert all[..n + 1] == Parsed(clock, front);
      var rest := SuitesOfFront(all, n + 1);
    }
  }

  lemma NoSuitesAreDistinct()
    ensures DistinctNames([])
  {
  }

  lemma GatheredMeans(ds: seq<Doc>, totals: Totals, present: set<string>, time: real, suites: seq<Suite>)
    requires Gathered(ds, totals, present, time, suites)
    ensures IsTotals(totals) && DistinctNames(suites) && suites == AllSuites(ds) && Distinct(COUNTERS)
    ensures forall i :: 0 <= i < |COUNTERS| ==> COUNTERS[i] in totals
  {
    CountersAreDistinct();
  }

  lemma NotParsed(clock: Clock, docs: seq<seq<Token>>, i: nat)
    requires i < |docs| && Parse(clock, docs[i]).Err?
    ensures !Mergeable(clock, docs)
  {
    hide Parse;
  }

  lemma NotConsistent(ds: seq<Doc>, n: nat)
    requires n < |ds| && !Consistent(ds[n])
    ensures !Accepts(ds)
  {
  }

  lemma {:induction false} SuitesOfFront(ds: seq<Doc>, n: nat) returns (rest: seq<Suite>)
    requires n <= |ds|
    ensures AllSuites(ds) == AllSuites(ds[..n]) + rest
  {
    if n == |ds| {
      assert ds[..n] == ds;
      return [];
    }
    var front := ds[..|ds| - 1];
    var before := SuitesOfFront(front, n);
    assert front[..n] == ds[..n];
    rest := before + ds[|ds| - 1].suites;
  }

  lemma NotDistinct(ds: seq<Doc>, n: nat)
    requires n < |ds| && !DistinctNames(AllSuites(ds[..n]) + ds[n].suites)
    ensures !Accepts(ds)
  {
    hide DistinctNames, Consistent;
    var front := ds[..n + 1];
    assert front[..n] == ds[..n];
    var rest := SuitesOfFront(ds, n + 1);
    DistinctPrefix(AllSuites(front), rest);
  }

  /** What was parsed so far is the front of what parses. */
  lemma ParsedFront(clock: Clock, docs: seq<seq<Token>>, ds: seq<Doc>, doc: Doc)
    requires |ds| < |docs| && Parse(clock, docs[|ds|]) == Ok(doc)
    requires forall j :: 0 <= j < |ds| ==> Parse(clock, docs[j]) == Ok(ds[j])
    ensures AllParse(clock, docs) ==> Parsed(clock, docs)[..|ds|] == ds && Parsed(clock, docs)[|ds|] == doc
    ensures Mergeable(clock, docs) <==> AllParse(clock, docs) && Accepts(Parsed(clock, docs))
  {
    hide Parse, Accepts;
    if AllParse(clock, docs) {
      assert Parsed(clock, docs)[..|ds|] == ds;
    }
  }

  lemma GatheredAll(
    clock: Clock, docs: seq<seq<Token>>, ds: seq<Doc>, totals: Totals, present: set<string>, time: real,
    suites: seq<Suite>
  )
    requires |ds| == |docs| && forall j :: 0 <= j < |docs| ==> Parse(clock, docs[j]) == Ok(ds[j])
    requires Gathered(ds, totals, present, time, suites)
    ensures AllParse(clock, docs) && Parsed(clock, docs) == ds && forall i :: 0 <= i < |ds| ==> Consistent(ds[i])
    ensures Mergeable(clock, docs) <==> suites != []
    ensures totals == TotalsOf(ds) && time == TimeSum(ds) && suites == AllSuites(ds)
    ensures |OPTIONAL| == 2
    ensures var names := REQUIRED + (if OPTIONAL[0] in present then [OPTIONAL[0]] else []) + (if OPTIONAL[1] in present then [OPTIONAL[1]] else []);
      && names == Printed(ds) && (forall a :: a in names ==> a in totals)
      && Merged(clock, ds) == Written(RootAttrs(clock, names, totals, time), suites)
    ensures "tests" in totals && "failures" in totals && "errors" in totals
    ensures totals["tests"] == Wrap(RootSum(ds, "tests")) && totals["failures"] == Wrap(RootSum(ds, "failures"))
    ensures totals["errors"] == Wrap(RootSum(ds, "errors"))
  {
    hide Parse, Wrap, DistinctNames, Consistent, Carried;
    hide RootAttrs, Written, AllSuites, RootSum, TimeSum;
    assert Parsed(clock, docs) == ds;
    assert COUNTERS[0] in totals && COUNTERS[1] in totals && COUNTERS[2] in totals;
  }
}
