/** The failure listing of a sharded test run and its cross-check: two derivations of one failure set
    from the same event streams, one that decodes a line as a struct, collects and sorts entries, one that
    decodes it as a map and re-reads raw pairs. */
module Failures {
  import opened Prelude
  import opened Sorting

  /** A JSON value, as far as the decoders tell values apart: text, null, something else, or something that
      holds a number no 64-bit float can. */
  datatype Value = Text(s: string) | Null | Other | Unbounded

  datatype Member = Member(name: string, value: Value)

  /** A line of a test2json stream: blank, not a JSON object, or an object with its members in order.
      `padded` says that the object has space around it that is space to the line reader and not to JSON. */
  datatype Line = Blank | Garbage | Object(padded: bool, members: seq<Member>)

  type Stream = seq<Line>

  /** What a reader makes of a line. */
  datatype Reading = BlankLine | Refused | EventLine(action: string, pkg: string, test: string)

  type Said = seq<Reading>

  const ACTIONS: set<string> := {
    "start", "run", "pause", "cont", "pass", "bench", "fail", "output", "skip", "attr", "artifacts",
    "build-output", "build-fail"
  }

  /** A failure's identity: the pair itself, never a joined name. `test` is empty for a package. */
  datatype FailKey = FailKey(pkg: string, test: string)
  {
    function Display(): string { if test == "" then pkg else pkg + "/" + test }
  }

  datatype Entry = Entry(key: FailKey, shards: seq<int>)

  datatype ShardEvents = ShardEvents(shard: int, events: nat, failed: nat)

  datatype Report = Report(perShard: seq<ShardEvents>, failed: seq<Entry>)

  /** The joined name is for display only: two different failures can share it. */
  lemma DisplayIsNotAnIdentity()
    ensures forall p: string :: FailKey(p, "").Display() == p
    ensures forall p: string, t: string :: t != "" ==> FailKey(p, t).Display() == p + "/" + t
    ensures exists a: FailKey, b: FailKey :: a != b && a.Display() == b.Display()
  {
    var a, b := FailKey("m", "X/Y"), FailKey("m/X", "Y");
    assert a.Display() == "m/X/Y" == b.Display();
  }

  // ---------------------------------------------------------------------------
  // What the streams say
  // ---------------------------------------------------------------------------

  predicate KnownAction(action: string) { action in ACTIONS }

  lemma NoNamelessAction()
    ensures !KnownAction("")
  {
  }

  predicate Known(l: Reading) { l.BlankLine? || (l.EventLine? && KnownAction(l.action)) }

  predicate FailLine(l: Reading, k: FailKey) { l == EventLine("fail", k.pkg, k.test) && k.pkg != "" }

  ghost predicate FailsIn(s: Said, k: FailKey) { exists i :: 0 <= i < |s| && FailLine(s[i], k) }

  ghost predicate FailsAnywhere(ss: seq<Said>, k: FailKey) { exists i :: 0 <= i < |ss| && FailsIn(ss[i], k) }

  ghost predicate Acceptable(s: Said) {
    && (forall i :: 0 <= i < |s| ==> Known(s[i]))
    && (exists i :: 0 <= i < |s| && s[i].EventLine?)
  }

  /** The failure a reading reports, if it reports one. */
  function Failing(l: Reading): set<FailKey> {
    if l.EventLine? && l.action == "fail" && l.pkg != "" then {FailKey(l.pkg, l.test)} else {}
  }

  /** The failures of a stream, as a set. */
  function FailSet(s: Said): set<FailKey> {
    if s == [] then {} else
    FailSet(s[..|s| - 1]) + Failing(s[|s| - 1])
  }

  lemma {:induction false} FailSetIs(s: Said, k: FailKey)
    ensures k in FailSet(s) <==> FailsIn(s, k)
  {
    if s != [] {
      var n := |s| - 1;
      FailSetIs(s[..n], k);
      if FailsIn(s[..n], k) {
        var i :| 0 <= i < n && FailLine(s[..n][i], k);
        assert FailLine(s[i], k);
      }
      if FailsIn(s, k) {
        var i :| 0 <= i < |s| && FailLine(s[i], k);
        if i < n { assert FailLine(s[..n][i], k); }
      }
      if FailLine(s[n], k) { assert FailsIn(s, k); }
    }
  }

  function EventCount(s: Said): nat {
    if s == [] then 0 else EventCount(s[..|s| - 1]) + if s[|s| - 1].EventLine? then 1 else 0
  }

  /** The shards, in order, whose stream has the failure. */
  function ShardsOf(ss: seq<Said>, idx: seq<int>, k: FailKey): seq<int>
    requires |ss| == |idx|
  {
    if ss == [] then [] else
    ShardsOf(ss[..|ss| - 1], idx[..|ss| - 1], k) + if k in FailSet(ss[|ss| - 1]) then [idx[|ss| - 1]] else []
  }

  // ---------------------------------------------------------------------------
  // Two decoders
  // ---------------------------------------------------------------------------

  datatype Field = Action | Package | Test

  function NameOf(f: Field): string {
    match f case Action => "Action" case Package => "Package" case Test => "Test"
  }

  /** Case folding, where it can meet an ASCII letter: the long s and the Kelvin sign fold too. */
  function Fold(c: char): char {
    if 'a' <= c <= 'z' then 'A' + (c - 'a')
    else if c == '\U{17F}' then 'S'
    else if c == '\U{212A}' then 'K'
    else c
  }

  /** The name is the field's, up to case. */
  predicate Folds(name: string, f: Field) {
    |name| == |NameOf(f)| && forall i :: 0 <= i < |name| ==> Fold(name[i]) == Fold(NameOf(f)[i])
  }

  /** The struct decoder's field: names match up to case, a later member replaces an earlier one, and a
      null leaves what was there. */
  function StructField(ms: seq<Member>, f: Field): string {
    if ms == [] then "" else
    var m := ms[|ms| - 1];
    if Folds(m.name, f) && m.value.Text? then m.value.s else StructField(ms[..|ms| - 1], f)
  }

  /** What it asks of a field: text or null. It also refuses space around the object that is not JSON's. */
  predicate FieldsAreText(ms: seq<Member>) {
    forall i | 0 <= i < |ms| ::
      (Folds(ms[i].name, Action) || Folds(ms[i].name, Package) || Folds(ms[i].name, Test)) ==> ms[i].value.Text? || ms[i].value.Null?
  }

  function StructRead(l: Line): Reading {
    match l
    case Blank => BlankLine
    case Garbage => Refused
    case Object(padded, ms) =>
      if padded || !FieldsAreText(ms) then Refused
      else EventLine(StructField(ms, Action), StructField(ms, Package), StructField(ms, Test))
  }

  /** The map decoder's field: the last member of exactly that name, and nothing unless it is text. */
  function MapField(ms: seq<Member>, f: Field): string {
    if ms == [] then "" else
    var m := ms[|ms| - 1];
    if m.name != NameOf(f) then MapField(ms[..|ms| - 1], f) else if m.value.Text? then m.value.s else ""
  }

  /** It decodes every member, so a number too large for a float refuses the line. */
  predicate AllBounded(ms: seq<Member>) { forall i | 0 <= i < |ms| :: !ms[i].value.Unbounded? }

  function MapRead(l: Line): Reading {
    match l
    case Blank => BlankLine
    case Garbage => Refused
    case Object(_, ms) =>
      if !AllBounded(ms) then Refused
      else EventLine(MapField(ms, Action), MapField(ms, Package), MapField(ms, Test))
  }

  /** Which characters fold to an ASCII letter. */
  lemma FoldIs(x: char, c: char)
    requires 'A' <= c <= 'Z'
    ensures Fold(x) == c <==> x == c || x == 'a' + (c - 'A') || (c == 'S' && x == '\U{17F}') || (c == 'K' && x == '\U{212A}')
  {
  }

  /** What each decoder refuses of an object: the struct one, space that is not JSON's and a field in any
      spelling that is neither text nor null; the map one, a number no float can hold, in any member. */
  lemma RefusedIff(l: Line)
    requires l.Object?
    ensures StructRead(l).Refused? <==>
      l.padded || exists i, f :: 0 <= i < |l.members| && Folds(l.members[i].name, f) && (l.members[i].value.Other? || l.members[i].value.Unbounded?)
    ensures MapRead(l).Refused? <==> exists i :: 0 <= i < |l.members| && l.members[i].value == Unbounded
  {
    hide Folds;
    if i, f :| 0 <= i < |l.members| && Folds(l.members[i].name, f) && (l.members[i].value.Other? || l.members[i].value.Unbounded?) {
      match f case Action => case Package => case Test =>
    }
  }

  function Structs(s: Stream): (said: Said)
    ensures |said| == |s| && forall i :: 0 <= i < |s| ==> said[i] == StructRead(s[i])
  {
    seq(|s|, i requires 0 <= i < |s| => StructRead(s[i]))
  }

  function Maps(s: Stream): (said: Said)
    ensures |said| == |s| && forall i :: 0 <= i < |s| ==> said[i] == MapRead(s[i])
  {
    seq(|s|, i requires 0 <= i < |s| => MapRead(s[i]))
  }

  function StructsOf(ss: seq<Stream>): (said: seq<Said>)
    ensures |said| == |ss| && forall i :: 0 <= i < |ss| ==> said[i] == Structs(ss[i])
  {
    seq(|ss|, i requires 0 <= i < |ss| => Structs(ss[i]))
  }

  function MapsOf(ss: seq<Stream>): (said: seq<Said>)
    ensures |said| == |ss| && forall i :: 0 <= i < |ss| ==> said[i] == Maps(ss[i])
  {
    seq(|ss|, i requires 0 <= i < |ss| => Maps(ss[i]))
  }

  /** The listing takes every stream. */
  ghost predicate Listable(ss: seq<Stream>) { forall i :: 0 <= i < |ss| ==> Acceptable(Structs(ss[i])) }

  ghost predicate AllKnown(said: Said) { forall i :: 0 <= i < |said| ==> Known(said[i]) }

  /** The second derivation takes every stream. */
  ghost predicate Rereadable(ss: seq<Stream>) { forall i :: 0 <= i < |ss| ==> AllKnown(Maps(ss[i])) }

  /** Both decoders take the line and report the same failure, or both refuse it. */
  predicate SameVerdict(l: Line) {
    && (Known(StructRead(l)) <==> Known(MapRead(l)))
    && (Known(StructRead(l)) ==> Failing(StructRead(l)) == Failing(MapRead(l)))
  }

  /** The same line but for its texts. */
  predicate SameShape(a: Line, b: Line) {
    if a.Object? && b.Object? then
      a.padded == b.padded && |a.members| == |b.members| && forall i :: 0 <= i < |a.members| ==> SameKind(a.members[i], b.members[i])
    else a == b
  }

  predicate SameKind(m: Member, n: Member) {
    m.name == n.name && (m.value == n.value || (m.value.Text? && n.value.Text?))
  }

  /** The last member whose name is the field's up to case and that is not null; -1 when there is none. */
  function LastSpoken(ms: seq<Member>, f: Field): (i: int)
    ensures -1 <= i < |ms| && (i >= 0 ==> Folds(ms[i].name, f) && !ms[i].value.Null?)
  {
    if ms == [] then -1
    else if Folds(ms[|ms| - 1].name, f) && !ms[|ms| - 1].value.Null? then |ms| - 1
    else LastSpoken(ms[..|ms| - 1], f)
  }

  /** The last member whose name is exactly the field's; -1 when there is none. */
  function LastSpelled(ms: seq<Member>, f: Field): (i: int)
    ensures -1 <= i < |ms| && (i >= 0 ==> ms[i].name == NameOf(f))
  {
    if ms == [] then -1
    else if ms[|ms| - 1].name == NameOf(f) then |ms| - 1
    else LastSpelled(ms[..|ms| - 1], f)
  }

  /** The field's last member in any spelling is its last one spelled exactly, or there is none. */
  predicate Settled(ms: seq<Member>, f: Field) { LastSpoken(ms, f) == -1 || LastSpoken(ms, f) == LastSpelled(ms, f) }

  predicate StructCanTake(l: Line) { l.Object? && !l.padded && FieldsAreText(l.members) && LastSpoken(l.members, Action) >= 0 }

  predicate MapCanTake(l: Line) {
    l.Object? && AllBounded(l.members) && LastSpelled(l.members, Action) >= 0 && l.members[LastSpelled(l.members, Action)].value.Text?
  }

  /** A line on which the decoders cannot part, read off its names and the kinds of its values: neither can
      take it, or both can, and the action, then the package, then the test are settled as far as they matter. */
  predicate Clear(l: Line) {
    && (StructCanTake(l) <==> MapCanTake(l))
    && (StructCanTake(l) ==>
          && Settled(l.members, Action)
          && Settled(l.members, Package)
          && (LastSpoken(l.members, Package) >= 0 ==> Settled(l.members, Test)))
  }

  function TextAt(ms: seq<Member>, i: int): string
    requires -1 <= i < |ms|
  {
    if i >= 0 && ms[i].value.Text? then ms[i].value.s else ""
  }

  lemma {:induction false} StructFieldAt(ms: seq<Member>, f: Field)
    requires FieldsAreText(ms)
    ensures StructField(ms, f) == TextAt(ms, LastSpoken(ms, f))
  {
    hide Folds;
    if ms != [] { StructFieldAt(ms[..|ms| - 1], f); }
  }

  lemma {:induction false} MapFieldAt(ms: seq<Member>, f: Field)
    ensures MapField(ms, f) == TextAt(ms, LastSpelled(ms, f))
  {
    hide NameOf;
    if ms != [] { MapFieldAt(ms[..|ms| - 1], f); }
  }

  /** An exactly spelled text is also a match up to case, so the last match is not before it. */
  lemma {:induction false} SpelledIsSpoken(ms: seq<Member>, f: Field)
    ensures LastSpelled(ms, f) >= 0 && !ms[LastSpelled(ms, f)].value.Null? ==> LastSpoken(ms, f) >= LastSpelled(ms, f)
  {
    hide NameOf;
    if ms != [] { SpelledIsSpoken(ms[..|ms| - 1], f); }
  }

  lemma {:induction false} LastIsByShape(ms: seq<Member>, ns: seq<Member>, f: Field)
    requires |ms| == |ns| && forall i :: 0 <= i < |ms| ==> SameKind(ms[i], ns[i])
    ensures LastSpoken(ms, f) == LastSpoken(ns, f) && LastSpelled(ms, f) == LastSpelled(ns, f)
  {
    hide Folds, NameOf;
    if ms != [] { LastIsByShape(ms[..|ms| - 1], ns[..|ns| - 1], f); }
  }

  lemma ClearIsByShape(a: Line, b: Line)
    requires SameShape(a, b)
    ensures Clear(a) == Clear(b) && StructCanTake(a) == StructCanTake(b) && MapCanTake(a) == MapCanTake(b)
  {
    hide Folds, NameOf, LastSpoken, LastSpelled;
    if a.Object? {
      LastIsByShape(a.members, b.members, Action);
      LastIsByShape(a.members, b.members, Package);
      LastIsByShape(a.members, b.members, Test);
    }
  }

  lemma FieldsAt(ms: seq<Member>)
    ensures forall f :: MapField(ms, f) == TextAt(ms, LastSpelled(ms, f))
    ensures FieldsAreText(ms) ==> forall f :: StructField(ms, f) == TextAt(ms, LastSpoken(ms, f))
    ensures forall f :: LastSpelled(ms, f) >= 0 && !ms[LastSpelled(ms, f)].value.Null? ==> LastSpoken(ms, f) >= LastSpelled(ms, f)
  {
    hide *;
    forall f ensures MapField(ms, f) == TextAt(ms, LastSpelled(ms, f)) { MapFieldAt(ms, f); }
    if FieldsAreText(ms) {
      forall f ensures StructField(ms, f) == TextAt(ms, LastSpoken(ms, f)) { StructFieldAt(ms, f); }
    }
    forall f ensures LastSpelled(ms, f) >= 0 && !ms[LastSpelled(ms, f)].value.Null? ==> LastSpoken(ms, f) >= LastSpelled(ms, f) {
      SpelledIsSpoken(ms, f);
    }
  }

  /** A line neither decoder can take is refused by both. */
  lemma NotTaken(l: Line)
    requires l.Object?
    ensures !StructCanTake(l) ==> !Known(StructRead(l))
    ensures !MapCanTake(l) ==> !Known(MapRead(l))
  {
    hide Folds, NameOf, LastSpoken, LastSpelled, KnownAction, FieldsAreText, AllBounded, StructField, MapField;
    NoNamelessAction();
    FieldsAt(l.members);
  }

  lemma ClearAgrees(l: Line)
    requires Clear(l)
    ensures SameVerdict(l)
  {
    hide Folds, NameOf, LastSpoken, LastSpelled, KnownAction, FieldsAreText, AllBounded, StructField, MapField;
    if l.Object? {
      NotTaken(l);
      FieldsAt(l.members);
      SilentField(l.members);
    }
  }

  /** A field nobody speaks for is empty in the map too. */
  lemma SilentField(ms: seq<Member>)
    ensures forall f :: LastSpoken(ms, f) == -1 ==> MapField(ms, f) == ""
  {
    hide Folds, NameOf, LastSpoken, LastSpelled, StructField, MapField;
    FieldsAt(ms);
  }

  /** The line with the given texts at three places and empty ones elsewhere. */
  function Filled(l: Line, a: int, p: int, t: int): (r: Line)
    requires l.Object?
    ensures SameShape(l, r)
  {
    l.(members := seq(|l.members|, i requires 0 <= i < |l.members| => var m := l.members[i];
      if m.value.Text? then m.(value := Text(if i == a then "fail" else if i == p then "p" else if i == t then "t" else "")) else m))
  }

  lemma OneFieldPerName(name: string, f: Field, g: Field)
    requires Folds(name, f) && Folds(name, g)
    ensures f == g
  {
  }

  lemma NameFolds(f: Field)
    ensures Folds(NameOf(f), f)
  {
  }

  lemma PlacesDiffer(ms: seq<Member>)
    ensures forall f, g :: f != g && LastSpoken(ms, f) >= 0 ==> LastSpoken(ms, f) != LastSpoken(ms, g) && LastSpoken(ms, f) != LastSpelled(ms, g)
  {
    hide Folds, NameOf, LastSpoken, LastSpelled;
    forall f, g | f != g && LastSpoken(ms, f) >= 0
      ensures LastSpoken(ms, f) != LastSpoken(ms, g) && LastSpoken(ms, f) != LastSpelled(ms, g)
    {
      NameFolds(g);
      if LastSpoken(ms, f) == LastSpoken(ms, g) || LastSpoken(ms, f) == LastSpelled(ms, g) {
        OneFieldPerName(ms[LastSpoken(ms, f)].name, f, g);
      }
    }
  }

  lemma FilledText(l: Line, a: int, p: int, t: int)
    requires l.Object?
    ensures forall i :: 0 <= i < |l.members| && !(l.members[i].value.Text? && i in {a, p, t}) ==> TextAt(Filled(l, a, p, t).members, i) == ""
    ensures forall i :: 0 <= i < |l.members| && l.members[i].value.Text? && i in {a, p, t} ==>
      TextAt(Filled(l, a, p, t).members, i) == (if i == a then "fail" else if i == p then "p" else "t")
  {
  }

  /** A line that is not clear has texts on which the decoders part. */
  lemma UnclearParts(l: Line) returns (bad: Line)
    requires !Clear(l)
    ensures SameShape(l, bad) && !SameVerdict(bad)
  {
    hide Folds, NameOf, LastSpoken, LastSpelled, KnownAction, FieldsAreText, AllBounded, StructField, MapField, Filled, SameKind;
    var ms := l.members;
    FailIsKnown();
    NoNamelessAction();
    PlacesDiffer(ms);
    if StructCanTake(l) { SpokenIsText(ms); }
    var a := if StructCanTake(l) then LastSpoken(ms, Action) else LastSpelled(ms, Action);
    bad := Filled(l, a, LastSpoken(ms, Package), LastSpoken(ms, Test));
    FilledText(l, a, LastSpoken(ms, Package), LastSpoken(ms, Test));
    ClearIsByShape(l, bad);
    LastIsByShape(ms, bad.members, Action);
    LastIsByShape(ms, bad.members, Package);
    LastIsByShape(ms, bad.members, Test);
    NotTaken(bad);
    FieldsAt(bad.members);
  }

  lemma SpokenIsText(ms: seq<Member>)
    requires FieldsAreText(ms)
    ensures forall f :: LastSpoken(ms, f) >= 0 ==> ms[LastSpoken(ms, f)].value.Text?
  {
    hide Folds, LastSpoken;
    forall f | LastSpoken(ms, f) >= 0 ensures ms[LastSpoken(ms, f)].value.Text? {
      assert Folds(ms[LastSpoken(ms, f)].name, f);
      match f case Action => case Package => case Test =>
    }
  }

  lemma FailIsKnown()
    ensures KnownAction("fail")
  {
  }

  /** WHEN TWO DECODERS AGREE: whatever the texts of a line, they come to the same verdict, exactly when the
      line is clear. */
  lemma ClearIff(l: Line)
    ensures Clear(l) <==> forall b :: SameShape(l, b) ==> SameVerdict(b)
  {
    hide *;
    if Clear(l) {
      forall b | SameShape(l, b) ensures SameVerdict(b) {
        ClearIsByShape(l, b);
        ClearAgrees(b);
      }
    } else {
      var bad := UnclearParts(l);
    }
  }

  // ---------------------------------------------------------------------------
  // Collecting
  // ---------------------------------------------------------------------------

  type ByKey = map<FailKey, seq<int>>

  /** The listing so far with one more shard's failures noted. */
  function Noted(byKey: ByKey, seen: set<FailKey>, shard: int): ByKey {
    map k | k in byKey.Keys + seen :: (if k in byKey then byKey[k] else []) + (if k in seen then [shard] else [])
  }

  /** The listing is exactly the streams' failures, each with its shards. */
  ghost predicate Lists(byKey: ByKey, ss: seq<Said>, idx: seq<int>)
    requires |ss| == |idx|
  {
    && (forall k :: k in byKey <==> FailsAnywhere(ss, k))
    && (forall k :: k in byKey ==> byKey[k] == ShardsOf(ss, idx, k))
  }

  lemma ListsOneMore(byKey: ByKey, ss: seq<Said>, idx: seq<int>, n: nat)
    requires |ss| == |idx| && n < |ss| && Lists(byKey, ss[..n], idx[..n])
    ensures Lists(Noted(byKey, FailSet(ss[n]), idx[n]), ss[..n + 1], idx[..n + 1])
  {
    var more := Noted(byKey, FailSet(ss[n]), idx[n]);
    var ss', idx' := ss[..n + 1], idx[..n + 1];
    assert ss'[..n] == ss[..n] && idx'[..n] == idx[..n] && ss'[n] == ss[n];
    forall k ensures k in more <==> FailsAnywhere(ss', k) {
      FailSetIs(ss[n], k);
      if FailsAnywhere(ss[..n], k) {
        var i :| 0 <= i < n && FailsIn(ss[..n][i], k);
        assert FailsIn(ss'[i], k);
      }
      if FailsIn(ss[n], k) { assert FailsIn(ss'[n], k); }
      if FailsAnywhere(ss', k) {
        var i :| 0 <= i <= n && FailsIn(ss'[i], k);
        if i < n { assert FailsIn(ss[..n][i], k); }
      }
    }
    forall k | k in more ensures more[k] == ShardsOf(ss', idx', k) {
      assert ShardsOf(ss', idx', k) == ShardsOf(ss[..n], idx[..n], k) + if k in FailSet(ss[n]) then [idx[n]] else [];
      if k !in byKey {
        NotListed(ss[..n], idx[..n], k);
      }
    }
  }

  lemma {:induction false} NotListed(ss: seq<Said>, idx: seq<int>, k: FailKey)
    requires |ss| == |idx| && !FailsAnywhere(ss, k)
    ensures ShardsOf(ss, idx, k) == []
  {
    if ss != [] {
      var n := |ss| - 1;
      FailSetIs(ss[n], k);
      assert forall i :: 0 <= i < n ==> ss[..n][i] == ss[i];
      NotListed(ss[..n], idx[..n], k);
    }
  }

  predicate LessFail(a: FailKey, b: FailKey) {
    if a.pkg != b.pkg then LessString(a.pkg, b.pkg) else LessString(a.test, b.test)
  }

  lemma FailOrder()
    ensures TotalOrder(LessFail)
  {
    forall x, y ensures x == y || LessFail(x, y) || LessFail(y, x)
      ensures !LessFail(x, x) {
      StringTotal(x.pkg, y.pkg);
      StringTotal(x.test, y.test);
      StringIrreflexive(x.test);
    }
    forall x, y, z | LessFail(x, y) && LessFail(y, z) ensures LessFail(x, z) {
      if LessString(x.pkg, y.pkg) && LessString(y.pkg, z.pkg) { StringTransitive(x.pkg, y.pkg, z.pkg); }
      if LessString(x.test, y.test) && LessString(y.test, z.test) { StringTransitive(x.test, y.test, z.test); }
      StringTotal(x.pkg, y.pkg);
      StringTotal(x.pkg, z.pkg);
      StringTotal(y.pkg, z.pkg);
    }
  }

  /** The sum of the entries' shard counts. */
  function ShardTotal(es: seq<Entry>): nat {
    if es == [] then 0 else ShardTotal(es[..|es| - 1]) + |es[|es| - 1].shards|
  }

  function FailedTotal(ps: seq<ShardEvents>): nat {
    if ps == [] then 0 else FailedTotal(ps[..|ps| - 1]) + ps[|ps| - 1].failed
  }

  /** What a report must be, whatever computed it. */
  ghost predicate IsReport(ss: seq<Said>, idx: seq<int>, rep: Report)
    requires |ss| == |idx|
  {
    && |rep.perShard| == |ss|
    && (forall i :: 0 <= i < |ss| ==> rep.perShard[i] == ShardEvents(idx[i], EventCount(ss[i]), |FailSet(ss[i])|))
    && (forall i, j :: 0 <= i < j < |rep.failed| ==> LessFail(rep.failed[i].key, rep.failed[j].key))
    && (forall i :: 0 <= i < |rep.failed| ==> FailsAnywhere(ss, rep.failed[i].key))
    && (forall i :: 0 <= i < |rep.failed| ==> rep.failed[i].shards == ShardsOf(ss, idx, rep.failed[i].key))
    && (forall k :: FailsAnywhere(ss, k) ==> exists i :: 0 <= i < |rep.failed| && rep.failed[i].key == k)
  }

  datatype CollectError = NotAnEvent | UnknownAction | NoEvents

  /** One shard's stream read into the listing, failing closed on any line it does not understand. */
  method CollectStream(s: Stream, shard: int, byKey: ByKey) returns (r: Result<(ShardEvents, ByKey), CollectError>)
    ensures r.Ok? <==> Acceptable(Structs(s))
    ensures r.Ok? ==> r.value.0 == ShardEvents(shard, EventCount(Structs(s)), |FailSet(Structs(s))|)
    ensures r.Ok? ==> r.value.1 == Noted(byKey, FailSet(Structs(s)), shard)
    ensures r == Err(NoEvents) <==> forall i :: 0 <= i < |s| ==> StructRead(s[i]).BlankLine?
    ensures r == Err(NotAnEvent) ==> exists i :: 0 <= i < |s| && (StructRead(s[i]).Refused? || (StructRead(s[i]).EventLine? && StructRead(s[i]).action == ""))
    ensures r == Err(UnknownAction) ==> exists i :: 0 <= i < |s| && StructRead(s[i]).EventLine? && StructRead(s[i]).action !in ACTIONS && StructRead(s[i]).action != ""
  {
    hide FailSet, EventCount, Noted, KnownAction, StructRead, ACTIONS;
    ghost var said := Structs(s);
    var events, failed := 0, 0;
    var seen: set<FailKey> := {};
    var now := byKey;
    NothingRead(said, byKey, shard);
    NoNamelessAction();
    for i := 0 to |s|
      invariant forall j :: 0 <= j < i ==> Known(said[j])
      invariant events == EventCount(said[..i]) && (events > 0 <==> exists j :: 0 <= j < i && said[j].EventLine?)
      invariant seen == FailSet(said[..i]) && failed == |seen|
      invariant now == Noted(byKey, seen, shard)
    {
      OneMoreLine(said, i);
      match StructRead(s[i]) {
        case BlankLine =>
        case Refused =>
          assert !Known(said[i]);
          return Err(NotAnEvent);
        case EventLine(action, pkg, test) =>
          if action == "" {
            assert !Known(said[i]);
            return Err(NotAnEvent);
          }
          if !KnownAction(action) {
            assert !Known(said[i]);
            assert action !in ACTIONS by { KnownMeans(action); }
            return Err(UnknownAction);
          }
          events := events + 1;
          if action == "fail" && pkg != "" {
            var k := FailKey(pkg, test);
            if k !in seen {
              NotedOneMore(byKey, seen, k, shard);
              now := now[k := (if k in now then now[k] else []) + [shard]];
              seen := seen + {k};
              failed := failed + 1;
            } else {
              assert seen + {k} == seen;
            }
          }
      }
    }
    assert said[..|s|] == said;
    if events == 0 {
      return Err(NoEvents);
    }
    return Ok((ShardEvents(shard, events, failed), now));
  }

  lemma KnownMeans(action: string)
    ensures KnownAction(action) <==> action in ACTIONS
  {
  }

  lemma NothingRead(s: Said, byKey: ByKey, shard: int)
    ensures EventCount(s[..0]) == 0 && FailSet(s[..0]) == {} && Noted(byKey, {}, shard) == byKey
  {
    var same := Noted(byKey, {}, shard);
    assert same.Keys == byKey.Keys;
    forall k | k in byKey ensures same[k] == byKey[k] {
      assert byKey[k] + [] == byKey[k];
    }
  }

  lemma OneMoreLine(s: Said, i: nat)
    requires i < |s|
    ensures EventCount(s[..i + 1]) == EventCount(s[..i]) + if s[i].EventLine? then 1 else 0
    ensures FailSet(s[..i + 1]) == FailSet(s[..i]) + Failing(s[i])
  {
    assert s[..i + 1][..i] == s[..i] && s[..i + 1][i] == s[i];
  }

  lemma NotedOneMore(byKey: ByKey, seen: set<FailKey>, k: FailKey, shard: int)
    requires k !in seen
    ensures var now := Noted(byKey, seen, shard);
      Noted(byKey, seen + {k}, shard) == now[k := (if k in now then now[k] else []) + [shard]]
  {
    var now, more := Noted(byKey, seen, shard), Noted(byKey, seen + {k}, shard);
    var noted := now[k := (if k in now then now[k] else []) + [shard]];
    assert more.Keys == noted.Keys;
    if k in byKey { assert byKey[k] + [] == byKey[k]; }
    assert forall x :: x in more ==> more[x] == noted[x];
    assert more == noted;
  }

  /** The listing over every shard. */
  method CollectFailures(ss: seq<Stream>, idx: seq<int>) returns (r: Result<Report, CollectError>)
    requires |ss| == |idx|
    ensures r.Ok? <==> Listable(ss)
    ensures r.Ok? ==> IsReport(StructsOf(ss), idx, r.value)
  {
    hide Acceptable, FailSet, EventCount, ShardsOf, FailsAnywhere, Lists, Noted, Arranged, Structs;
    ghost var said := StructsOf(ss);
    var byKey: ByKey := map[];
    var perShard: seq<ShardEvents> := [];
    ListsNothing(said, idx);
    for i := 0 to |ss|
      invariant forall j :: 0 <= j < i ==> Acceptable(Structs(ss[j]))
      invariant |perShard| == i
      invariant forall j :: 0 <= j < i ==> perShard[j] == ShardEvents(idx[j], EventCount(said[j]), |FailSet(said[j])|)
      invariant Lists(byKey, said[..i], idx[..i])
    {
      var read := CollectStream(ss[i], idx[i], byKey);
      if read.Err? {
        return Err(read.error);
      }
      ListsOneMore(byKey, said, idx, i);
      perShard, byKey := perShard + [read.value.0], read.value.1;
    }
    assert said[..|ss|] == said && idx[..|ss|] == idx;
    var entries := Arrange(byKey);
    ListedIsReport(byKey, said, idx, entries);
    return Ok(Report(perShard, entries));
  }

  lemma ListsNothing(ss: seq<Said>, idx: seq<int>)
    requires |ss| == |idx|
    ensures Lists(map[], ss[..0], idx[..0])
  {
  }

  /** The entries of a listing, in the order of their keys. */
  ghost predicate Arranged(byKey: ByKey, entries: seq<Entry>) {
    && (forall i, j :: 0 <= i < j < |entries| ==> LessFail(entries[i].key, entries[j].key))
    && (forall i :: 0 <= i < |entries| ==> entries[i].key in byKey && entries[i].shards == byKey[entries[i].key])
    && (forall k :: k in byKey ==> exists i :: 0 <= i < |entries| && entries[i].key == k)
  }

  lemma ListedIsReport(byKey: ByKey, ss: seq<Said>, idx: seq<int>, entries: seq<Entry>)
    requires |ss| == |idx| && Lists(byKey, ss, idx) && Arranged(byKey, entries)
    ensures forall i, j :: 0 <= i < j < |entries| ==> LessFail(entries[i].key, entries[j].key)
    ensures forall i :: 0 <= i < |entries| ==> FailsAnywhere(ss, entries[i].key)
    ensures forall i :: 0 <= i < |entries| ==> entries[i].shards == ShardsOf(ss, idx, entries[i].key)
    ensures forall k :: FailsAnywhere(ss, k) ==> exists i :: 0 <= i < |entries| && entries[i].key == k
  {
    hide FailsAnywhere, ShardsOf, LessFail;
  }

  method Arrange(byKey: ByKey) returns (entries: seq<Entry>)
    ensures Arranged(byKey, entries)
  {
    hide LessFail;
    FailOrder();
    var sorted := SortedElements(LessFail, byKey.Keys);
    assert forall j :: 0 <= j < |sorted| ==> sorted[j] in sorted;
    entries := [];
    for i := 0 to |sorted|
      invariant |entries| == i
      invariant forall j :: 0 <= j < i ==> sorted[j] in byKey && entries[j] == Entry(sorted[j], byKey[sorted[j]])
    {
      entries := entries + [Entry(sorted[i], byKey[sorted[i]])];
    }
    forall k | k in byKey ensures exists i :: 0 <= i < |entries| && entries[i].key == k {
      var i :| 0 <= i < |sorted| && sorted[i] == k;
      assert entries[i].key == k;
    }
  }

  // ---------------------------------------------------------------------------
  // Conservation
  // ---------------------------------------------------------------------------

  function SumShards(ks: seq<FailKey>, ss: seq<Said>, idx: seq<int>): nat
    requires |ss| == |idx|
  {
    if ks == [] then 0 else SumShards(ks[..|ks| - 1], ss, idx) + |ShardsOf(ss, idx, ks[|ks| - 1])|
  }

  function CountIn(ks: seq<FailKey>, f: set<FailKey>): nat {
    if ks == [] then 0 else CountIn(ks[..|ks| - 1], f) + if ks[|ks| - 1] in f then 1 else 0
  }

  /** Distinct keys that cover a set count it. */
  lemma {:induction false} CountCovers(ks: seq<FailKey>, f: set<FailKey>)
    requires Distinct(ks) && forall k :: k in f ==> k in ks
    ensures CountIn(ks, f) == |f|
  {
    if ks != [] {
      var n := |ks| - 1;
      var front, last := ks[..n], ks[n];
      assert last !in front;
      var rest := f - {last};
      forall k | k in rest ensures k in front {
        var i :| 0 <= i < |ks| && ks[i] == k;
        assert front[i] == k;
      }
      CountCovers(front, rest);
      CountSame(front, f, rest);
    }
  }

  lemma {:induction false} CountSame(ks: seq<FailKey>, f: set<FailKey>, g: set<FailKey>)
    requires forall k :: k in ks ==> (k in f <==> k in g)
    ensures CountIn(ks, f) == CountIn(ks, g)
  {
    if ks != [] {
      assert ks[|ks| - 1] in ks;
      CountSame(ks[..|ks| - 1], f, g);
    }
  }

  /** One more shard adds one to each key it fails. */
  lemma {:induction false} SumOfOneMore(ks: seq<FailKey>, ss: seq<Said>, idx: seq<int>)
    requires |ss| == |idx| && ss != []
    ensures var n := |ss| - 1; SumShards(ks, ss, idx) == SumShards(ks, ss[..n], idx[..n]) + CountIn(ks, FailSet(ss[n]))
  {
    if ks != [] {
      SumOfOneMore(ks[..|ks| - 1], ss, idx);
    }
  }

  function FailSetTotal(ss: seq<Said>): nat {
    if ss == [] then 0 else FailSetTotal(ss[..|ss| - 1]) + |FailSet(ss[|ss| - 1])|
  }

  lemma {:induction false} DoubleCount(ks: seq<FailKey>, ss: seq<Said>, idx: seq<int>)
    requires |ss| == |idx| && Distinct(ks)
    requires forall i, k :: 0 <= i < |ss| && k in FailSet(ss[i]) ==> k in ks
    ensures SumShards(ks, ss, idx) == FailSetTotal(ss)
  {
    if ss == [] {
      NoShards(ks, ss, idx);
    } else {
      var n := |ss| - 1;
      assert forall i :: 0 <= i < n ==> ss[..n][i] == ss[i];
      DoubleCount(ks, ss[..n], idx[..n]);
      SumOfOneMore(ks, ss, idx);
      CountCovers(ks, FailSet(ss[n]));
    }
  }

  lemma {:induction false} NoShards(ks: seq<FailKey>, ss: seq<Said>, idx: seq<int>)
    requires ss == [] && idx == []
    ensures SumShards(ks, ss, idx) == 0
  {
    if ks != [] { NoShards(ks[..|ks| - 1], ss, idx); }
  }

  function EntryKeys(es: seq<Entry>): (ks: seq<FailKey>)
    ensures |ks| == |es| && forall i :: 0 <= i < |es| ==> ks[i] == es[i].key
  {
    seq(|es|, i requires 0 <= i < |es| => es[i].key)
  }

  lemma {:induction false} ShardTotalIsSum(es: seq<Entry>, ss: seq<Said>, idx: seq<int>)
    requires |ss| == |idx| && forall i :: 0 <= i < |es| ==> es[i].shards == ShardsOf(ss, idx, es[i].key)
    ensures ShardTotal(es) == SumShards(EntryKeys(es), ss, idx)
  {
    if es != [] {
      var front := es[..|es| - 1];
      ShardTotalIsSum(front, ss, idx);
      assert EntryKeys(es)[..|es| - 1] == EntryKeys(front);
    }
  }

  lemma {:induction false} FailedTotalIs(ps: seq<ShardEvents>, ss: seq<Said>)
    requires |ps| == |ss| && forall i :: 0 <= i < |ss| ==> ps[i].failed == |FailSet(ss[i])|
    ensures FailedTotal(ps) == FailSetTotal(ss)
  {
    if ss != [] {
      FailedTotalIs(ps[..|ss| - 1], ss[..|ss| - 1]);
    }
  }

  /** CONSERVATION: the per-shard failure counts add up to the entries' shard lists. */
  lemma CountsAddUp(ss: seq<Said>, idx: seq<int>, rep: Report)
    requires |ss| == |idx| && IsReport(ss, idx, rep)
    ensures FailedTotal(rep.perShard) == ShardTotal(rep.failed)
  {
    hide LessFail, ShardsOf, FailsAnywhere, FailsIn;
    var ks := EntryKeys(rep.failed);
    FailOrder();
    StrictIsDistinct(LessFail, ks);
    forall i, k | 0 <= i < |ss| && k in FailSet(ss[i]) ensures k in ks {
      FailSetFailsAnywhere(ss, i, k);
      var j :| 0 <= j < |rep.failed| && rep.failed[j].key == k;
      assert ks[j] == k;
    }
    DoubleCount(ks, ss, idx);
    ShardTotalIsSum(rep.failed, ss, idx);
    FailedTotalIs(rep.perShard, ss);
  }

  lemma FailSetFailsAnywhere(ss: seq<Said>, i: int, k: FailKey)
    requires 0 <= i < |ss| && k in FailSet(ss[i])
    ensures FailsAnywhere(ss, k)
  {
    FailSetIs(ss[i], k);
  }

  // ---------------------------------------------------------------------------
  // The cross-check
  // ---------------------------------------------------------------------------

  /** The failed pairs of a raw stream, re-read line by line with their repeats and a decoder of its own;
      `None` for a line that decoder or the closed set of actions refuses. */
  method RawFailedPairs(s: Stream) returns (r: Option<seq<FailKey>>)
    ensures r.Some? <==> AllKnown(Maps(s))
    ensures r.Some? ==> forall k :: k in r.value <==> FailsIn(Maps(s), k)
  {
    hide KnownAction, MapRead;
    ghost var said := Maps(s);
    var pairs: seq<FailKey> := [];
    for i := 0 to |s|
      invariant forall j :: 0 <= j < i ==> Known(said[j])
      invariant forall k :: k in pairs <==> exists j :: 0 <= j < i && FailLine(said[j], k)
    {
      var l := MapRead(s[i]);
      assert l == said[i];
      if l.BlankLine? {
        continue;
      }
      if l.Refused? || !KnownAction(l.action) {
        assert !Known(said[i]);
        return None;
      }
      if l.action == "fail" && l.pkg != "" {
        assert FailLine(said[i], FailKey(l.pkg, l.test));
        pairs := pairs + [FailKey(l.pkg, l.test)];
      }
    }
    return Some(pairs);
  }

  /** A failure that stands on its own: a test, or a package none of whose tests failed. */
  ghost predicate Stands(pairs: seq<FailKey>, k: FailKey) {
    k in pairs && (k.test == "" ==> forall t :: t != "" ==> FailKey(k.pkg, t) !in pairs)
  }

  method NormalizeFailed(pairs: seq<FailKey>) returns (out: set<FailKey>)
    ensures forall k :: k in out <==> Stands(pairs, k)
  {
    var withTest: set<string> := {};
    for i := 0 to |pairs|
      invariant forall p :: p in withTest <==> exists j :: 0 <= j < i && pairs[j].pkg == p && pairs[j].test != ""
    {
      if pairs[i].test != "" {
        withTest := withTest + {pairs[i].pkg};
      }
    }
    assert forall p :: p in withTest <==> exists t :: t != "" && FailKey(p, t) in pairs by {
      forall p ensures p in withTest <==> exists t :: t != "" && FailKey(p, t) in pairs {
        if p in withTest {
          var j :| 0 <= j < |pairs| && pairs[j].pkg == p && pairs[j].test != "";
          assert FailKey(p, pairs[j].test) == pairs[j];
        }
        if t :| t != "" && FailKey(p, t) in pairs {
          var j :| 0 <= j < |pairs| && pairs[j] == FailKey(p, t);
        }
      }
    }
    out := {};
    for i := 0 to |pairs|
      invariant forall k :: k in out <==> (exists j :: 0 <= j < i && pairs[j] == k) && (k.test != "" || k.pkg !in withTest)
    {
      if pairs[i].test != "" || pairs[i].pkg !in withTest {
        out := out + {pairs[i]};
      }
    }
  }

  function DisplayAll(ks: seq<FailKey>): (ds: seq<string>)
    ensures |ds| == |ks| && forall i :: 0 <= i < |ks| ==> ds[i] == ks[i].Display()
  {
    seq(|ks|, i requires 0 <= i < |ks| => ks[i].Display())
  }

  /** The displays of the set's failures, one each, in order. */
  ghost predicate Shows(s: set<FailKey>, out: seq<string>) {
    && Sorted(LessString, out)
    && (exists ks: seq<FailKey> :: Distinct(ks) && (forall k :: k in ks <==> k in s) && multiset(out) == multiset(DisplayAll(ks)))
  }

  /** The failures on one side only, for display. */
  method DiffSets(a: set<FailKey>, b: set<FailKey>) returns (onlyA: seq<string>, onlyB: seq<string>)
    ensures Shows(a - b, onlyA) && Shows(b - a, onlyB)
    ensures onlyA == [] && onlyB == [] <==> a == b
  {
    hide Shows;
    onlyA := Displays(a - b);
    onlyB := Displays(b - a);
    assert a - b == {} && b - a == {} <==> a == b by {
      if a - b == {} && b - a == {} {
        assert forall k :: k in a <==> k in b by {
          forall k ensures k in a <==> k in b {
            assert k !in a - b && k !in b - a;
          }
        }
      }
    }
  }

  method Displays(s: set<FailKey>) returns (out: seq<string>)
    ensures Shows(s, out) && |out| == |s|
  {
    hide LessString, DisplayAll, Picked, Shows, Sort;
    var left, shown := s, [];
    ghost var ks: seq<FailKey> := [];
    assert Picked(s, s, ks) && shown == DisplayAll(ks) by { NothingPicked(s); }
    while left != {}
      invariant left <= s && |shown| + |left| == |s|
      invariant Picked(s, left, ks) && shown == DisplayAll(ks)
      decreases left
    {
      var k :| k in left;
      PickedOneMore(s, left, ks, k);
      left, shown, ks := left - {k}, shown + [k.Display()], ks + [k];
    }
    out := Sort(LessString, shown);
    SortedShows(s, ks, out);
  }

  /** The failures taken out of the set so far, each once. */
  ghost predicate Picked(s: set<FailKey>, left: set<FailKey>, ks: seq<FailKey>) {
    Distinct(ks) && forall k :: k in ks <==> k in s && k !in left
  }

  lemma NothingPicked(s: set<FailKey>)
    ensures Picked(s, s, []) && DisplayAll([]) == []
  {
  }

  lemma PickedOneMore(s: set<FailKey>, left: set<FailKey>, ks: seq<FailKey>, k: FailKey)
    requires Picked(s, left, ks) && k in left && left <= s
    ensures Picked(s, left - {k}, ks + [k]) && DisplayAll(ks + [k]) == DisplayAll(ks) + [k.Display()]
  {
  }

  lemma SortedShows(s: set<FailKey>, ks: seq<FailKey>, out: seq<string>)
    requires Picked(s, {}, ks) && out == Sort(LessString, DisplayAll(ks))
    ensures Shows(s, out) && |out| == |ks|
  {
    hide LessString;
    StringOrder();
    SortSorts(LessString, DisplayAll(ks));
    assert |multiset(out)| == |multiset(DisplayAll(ks))|;
  }

  /** The failed pairs of every stream. */
  method RawFailedOfAll(ss: seq<Stream>) returns (r: Option<seq<FailKey>>)
    ensures r.Some? <==> Rereadable(ss)
    ensures r.Some? ==> forall k :: k in r.value <==> FailsAnywhere(MapsOf(ss), k)
  {
    hide FailsIn, AllKnown, Maps;
    ghost var said := MapsOf(ss);
    var all: seq<FailKey> := [];
    for i := 0 to |ss|
      invariant forall m :: 0 <= m < i ==> AllKnown(Maps(ss[m]))
      invariant forall k :: k in all <==> exists m :: 0 <= m < i && FailsIn(said[m], k)
    {
      var pairs := RawFailedPairs(ss[i]);
      if pairs.None? {
        return None;
      }
      all := all + pairs.value;
    }
    return Some(all);
  }

  /** A failure of the streams that stands on its own. */
  ghost predicate Standing(ss: seq<Said>, k: FailKey) {
    FailsAnywhere(ss, k) && (k.test == "" ==> forall t :: t != "" ==> !FailsAnywhere(ss, FailKey(k.pkg, t)))
  }

  ghost predicate AreStanding(s: set<FailKey>, ss: seq<Said>) { forall k :: k in s <==> Standing(ss, k) }

  /** The two derivations see the same failures. */
  ghost predicate SameFailures(ss: seq<Stream>) { forall k :: Standing(StructsOf(ss), k) <==> Standing(MapsOf(ss), k) }

  predicate AllClear(ss: seq<Stream>) { forall i, j :: 0 <= i < |ss| && 0 <= j < |ss[i]| ==> Clear(ss[i][j]) }

  datatype Checked = ListingRefused(error: CollectError) | RawRefused | Compared(onlyRaw: seq<string>, onlyListed: seq<string>)

  /** TWO DERIVATIONS COMPARED. Nothing is reported exactly when the two decoders see the same standing
      failures; on clear lines they always do, and refuse the same streams. */
  method CrossCheck(ss: seq<Stream>, idx: seq<int>) returns (r: Checked)
    requires |ss| == |idx|
    ensures r.ListingRefused? <==> !Listable(ss)
    ensures r.RawRefused? <==> Listable(ss) && !Rereadable(ss)
    ensures r.Compared? ==> (r == Compared([], []) <==> SameFailures(ss))
    ensures r.Compared? ==> exists raw, listed ::
      && AreStanding(raw, MapsOf(ss)) && AreStanding(listed, StructsOf(ss))
      && Shows(raw - listed, r.onlyRaw) && Shows(listed - raw, r.onlyListed)
    ensures AllClear(ss) ==> r.ListingRefused? || r == Compared([], [])
  {
    hide Listable, Rereadable, SameFailures, AllClear, FailsAnywhere, Shows, StructsOf, MapsOf, AreStanding;
    if AllClear(ss) { ClearStreamsAgree(ss); }
    var report := CollectFailures(ss, idx);
    if report.Err? {
      return ListingRefused(report.error);
    }
    var raw := RawFailedOfAll(ss);
    if raw.None? {
      return RawRefused;
    }
    var listed := EntryKeys(report.value.failed);
    ReportKeys(StructsOf(ss), idx, report.value);
    var fromRaw := NormalizeFailed(raw.value);
    var fromListing := NormalizeFailed(listed);
    SameStanding(ss, listed, raw.value, fromListing, fromRaw);
    var onlyRaw, onlyListed := DiffSets(fromRaw, fromListing);
    return Compared(onlyRaw, onlyListed);
  }

  lemma ReportKeys(ss: seq<Said>, idx: seq<int>, rep: Report)
    requires |ss| == |idx| && IsReport(ss, idx, rep)
    ensures forall k :: k in EntryKeys(rep.failed) <==> FailsAnywhere(ss, k)
  {
    hide FailsAnywhere, LessFail, ShardsOf;
    var ks := EntryKeys(rep.failed);
    forall k | FailsAnywhere(ss, k) ensures k in ks {
      var i :| 0 <= i < |rep.failed| && rep.failed[i].key == k;
      assert ks[i] == k;
    }
  }

  lemma StandsIsStanding(ss: seq<Said>, pairs: seq<FailKey>, k: FailKey)
    requires forall x :: x in pairs <==> FailsAnywhere(ss, x)
    ensures Stands(pairs, k) <==> Standing(ss, k)
  {
    hide FailsAnywhere;
  }

  lemma SameStanding(ss: seq<Stream>, a: seq<FailKey>, b: seq<FailKey>, na: set<FailKey>, nb: set<FailKey>)
    requires forall k :: k in a <==> FailsAnywhere(StructsOf(ss), k)
    requires forall k :: k in b <==> FailsAnywhere(MapsOf(ss), k)
    requires forall k :: k in na <==> Stands(a, k)
    requires forall k :: k in nb <==> Stands(b, k)
    ensures na == nb <==> SameFailures(ss)
    ensures AreStanding(na, StructsOf(ss)) && AreStanding(nb, MapsOf(ss))
  {
    hide FailsAnywhere, Standing, Stands;
    forall k ensures (k in na <==> Standing(StructsOf(ss), k)) && (k in nb <==> Standing(MapsOf(ss), k)) {
      StandsIsStanding(StructsOf(ss), a, k);
      StandsIsStanding(MapsOf(ss), b, k);
    }
  }

  /** On clear lines the two decoders accept the same streams and see the same failures. */
  lemma ClearStreamsAgree(ss: seq<Stream>)
    requires AllClear(ss)
    ensures Listable(ss) ==> Rereadable(ss) && SameFailures(ss)
  {
    hide StructRead, MapRead, Known, Clear, Standing;
    if Listable(ss) {
      forall i, j | 0 <= i < |ss| && 0 <= j < |ss[i]|
        ensures Known(MapRead(ss[i][j])) && Failing(StructRead(ss[i][j])) == Failing(MapRead(ss[i][j]))
      {
        ClearAgrees(ss[i][j]);
        assert Acceptable(Structs(ss[i]));
        assert Known(Structs(ss[i])[j]);
      }
      forall k ensures FailsAnywhere(StructsOf(ss), k) <==> FailsAnywhere(MapsOf(ss), k) {
        forall i | 0 <= i < |ss| ensures FailsIn(StructsOf(ss)[i], k) <==> FailsIn(MapsOf(ss)[i], k) {
          SameFailsIn(Structs(ss[i]), Maps(ss[i]), k);
        }
      }
      assert forall k :: Standing(StructsOf(ss), k) <==> Standing(MapsOf(ss), k) by {
        SameStandings(StructsOf(ss), MapsOf(ss));
      }
    }
  }

  lemma SameFailsIn(a: Said, b: Said, k: FailKey)
    requires |a| == |b| && forall j :: 0 <= j < |a| ==> Failing(a[j]) == Failing(b[j])
    ensures FailsIn(a, k) <==> FailsIn(b, k)
  {
    assert forall l :: FailLine(l, k) <==> k in Failing(l);
  }

  lemma SameStandings(a: seq<Said>, b: seq<Said>)
    requires forall k :: FailsAnywhere(a, k) <==> FailsAnywhere(b, k)
    ensures forall k :: Standing(a, k) <==> Standing(b, k)
  {
    hide FailsAnywhere;
  }

  /** ONE LINE TELLS: a stream of one event line is treated alike by both derivations exactly when the two
      decoders come to the same verdict on it. */
  lemma OneLine(l: Line)
    requires l.Object?
    ensures Listable([[l]]) <==> Known(StructRead(l))
    ensures Rereadable([[l]]) <==> Known(MapRead(l))
    ensures SameFailures([[l]]) <==> Failing(StructRead(l)) == Failing(MapRead(l))
    ensures SameVerdict(l) <==> (Listable([[l]]) <==> Rereadable([[l]])) && (Listable([[l]]) ==> SameFailures([[l]]))
  {
    hide KnownAction, Standing, FailsAnywhere, FieldsAreText, AllBounded, StructField, MapField, Failing;
    var s: Stream := [l];
    var ss := [s];
    assert ss[0] == s && s[0] == l;
    assert Structs(s)[0] == StructRead(l) && Maps(s)[0] == MapRead(l);
    assert Listable(ss) <==> Known(StructRead(l));
    assert Rereadable(ss) <==> Known(MapRead(l));
    assert StructsOf(ss) == [[StructRead(l)]] && MapsOf(ss) == [[MapRead(l)]] by {
      assert Structs(s) == [StructRead(l)] && Maps(s) == [MapRead(l)];
    }
    forall k ensures (Standing(StructsOf(ss), k) <==> k in Failing(StructRead(l))) && (Standing(MapsOf(ss), k) <==> k in Failing(MapRead(l))) {
      OneStanding(StructRead(l), k);
      OneStanding(MapRead(l), k);
    }
    if SameFailures(ss) {
      assert Failing(StructRead(l)) == Failing(MapRead(l));
    }
  }

  lemma OneStanding(l: Reading, k: FailKey)
    ensures Standing([[l]], k) <==> k in Failing(l)
  {
    var ss := [[l]];
    forall x ensures FailsAnywhere(ss, x) <==> x in Failing(l) {
      assert ss[0] == [l] && ss[0][0] == l;
      if x in Failing(l) { assert FailLine(ss[0][0], x); assert FailsIn(ss[0], x); }
    }
  }

  const FAILS: Member := Member("Action", Text("fail"))

  lemma TwoMembers(m: Member, n: Member, f: Field)
    ensures StructField([m, n], f) == if Folds(n.name, f) && n.value.Text? then n.value.s else if Folds(m.name, f) && m.value.Text? then m.value.s else ""
    ensures MapField([m, n], f) == if n.name == NameOf(f) then TextAt([n], 0) else if m.name == NameOf(f) then TextAt([m], 0) else ""
  {
    hide Folds, NameOf;
    assert [m, n][..1] == [m] && [m][..0] == [];
    assert StructField([m], f) == if Folds(m.name, f) && m.value.Text? then m.value.s else "";
    assert MapField([m], f) == if m.name == NameOf(f) then TextAt([m], 0) else "";
  }

  /** A package named in lower case: both decoders take the line, only the struct sees a failure, and the
      comparison reports it. */
  lemma LowerCasePackage()
    ensures var l := Object(false, [FAILS, Member("package", Text("p"))]);
      Listable([[l]]) && Rereadable([[l]]) && !SameFailures([[l]])
  {
    hide KnownAction, Listable, Rereadable, SameFailures, StructField, MapField;
    var m, n := FAILS, Member("package", Text("p"));
    var l := Object(false, [m, n]);
    FailIsKnown();
    OneLine(l);
    TwoMembers(m, n, Action);
    TwoMembers(m, n, Package);
    assert Folds(m.name, Action) && Folds(n.name, Package) && !Folds(n.name, Action);
    assert MapRead(l).pkg == "";
    assert StructRead(l).pkg == "p";
    assert FailKey("p", StructRead(l).test) in Failing(StructRead(l));
  }

  /** A package that is a number: the listing refuses the line and the second derivation takes it. */
  lemma NumberPackage()
    ensures var l := Object(false, [FAILS, Member("Package", Other)]);
      !Listable([[l]]) && Rereadable([[l]])
  {
    hide KnownAction, Listable, Rereadable, SameFailures, StructField, MapField;
    var m, n := FAILS, Member("Package", Other);
    var l := Object(false, [m, n]);
    FailIsKnown();
    OneLine(l);
    TwoMembers(m, n, Action);
    assert Folds(l.members[1].name, Package);
  }
}
