/** Merging the shard artifacts of one two-turn run: an accepted shard set is complete, and the merged
    artifact does not depend on how the run was cut into shards or in which order they are given. */
module ShardMerge {
  import opened Prelude
  import opened Sorting
  import opened Decimal

  /** One result row. `rest` stands for the fields no merge rule reads. */
  datatype Row = Row(
    index: int, member: string, arm: string, probe: string,
    expectedId: string, cohortExpected: bool, claimedFacts: int, status: string, scoredMembers: int,
    rest: string
  )

  datatype RowKey = RowKey(index: int, member: string, arm: string, probe: string)

  function KeyOf(r: Row): RowKey { RowKey(r.index, r.member, r.arm, r.probe) }

  /** What is decided once for the whole launch, so every shard must agree on it. */
  datatype Launch = Launch(
    corpusSha: string, transport: string, sourceCommit: string, sourceDirty: bool, sourceDiff: string,
    responderModel: string, responderTransport: string, responderEffort: string, dataPlane: string,
    granularity: string, concurrencyCap: int, provisioningMode: string,
    baseSha: string, annexPath: string, annexCorpusSha: string, annexSignedOff: bool, annexStale: bool,
    maxSerializedBytes: int
  )

  /** The plain counters of a report. */
  datatype Scalar =
    | CasesRun | PositiveApplied | WindowPositiveApplied | GateReachable | DisclosureAbsent | WrongCommit
    | OracleIdSchemeMismatch | FalseNoMatch | FactlessCommitted | StatusOverrideUncommitted | WindowCommit
    | WindowInferredTierRan | WindowArmError | WindowGated | WindowClassDefaultGated | RegimeAOfferComposed
    | RegimeATurn2Answered | WindowGatedOffered | WindowGatedSilent | WindowGatedAlreadyWidest
    | InferredKindHandleDecisive | InferredBaselineEquivalent | InferredKindInsensitivityAttested
    | InferredUnjustified | InferredPairInvalid | PairRetried | AnchorAntiVacuityDenominator
    | AnchorNonEnumerableKindExcluded | ControlsTotal | ControlsWitnessed | ControlsWitnessedCensusBacked
    | ProbeEligible | CensusPopulation | CensusComparison | CensusQueries | CensusRivalsAboveTau | CensusDuration

  /** The counters kept per key. */
  datatype Table = OfferMiss | NotApplicable | WrongRedeemed | ProbesTripped | ProbesRun | CensusState

  datatype Counter = One(scalar: Scalar) | Per(table: Table, key: string)

  /** A counter that is not there counts zero. */
  type Counts = map<Counter, int>

  datatype Shard = Shard(
    count: int, index: int, launch: Launch,
    startedAt: string, provisionMillis: int, caseIndices: seq<int>,
    counts: Counts, members: seq<string>,
    results: seq<Row>, samples: seq<int>, timings: seq<string>
  )

  // ---------------------------------------------------------------------------
  // A shard set is complete
  // ---------------------------------------------------------------------------

  datatype SetError =
    | NoShards
    | CountMismatch(at: nat)
    | OutOfRange(at: nat)
    | Duplicate(first: nat, second: nat)
    | Missing(indices: seq<int>)
    | LaunchMismatch(at: nat)

  ghost predicate Names(shards: seq<Shard>, k: int) { exists i :: 0 <= i < |shards| && shards[i].index == k }

  /** Every index below the shard count is named by exactly one shard, and no other index is. */
  ghost predicate Complete(shards: seq<Shard>) {
    && shards != []
    && (forall i :: 0 <= i < |shards| ==> shards[i].count == shards[0].count)
    && (forall i :: 0 <= i < |shards| ==> 0 <= shards[i].index < shards[0].count)
    && (forall k :: 0 <= k < shards[0].count ==> Names(shards, k))
    && (forall i, j :: 0 <= i < j < |shards| ==> shards[i].index != shards[j].index)
  }

  predicate SameLaunch(shards: seq<Shard>) {
    forall i :: 0 < i < |shards| ==> shards[i].launch == shards[0].launch
  }

  function IndexSet(shards: seq<Shard>): set<int> { set i | 0 <= i < |shards| :: shards[i].index }

  function Below(n: nat): set<int> { if n == 0 then {} else Below(n - 1) + {n - 1} }

  lemma {:induction false} BelowIs(n: nat)
    ensures |Below(n)| == n && forall k :: k in Below(n) <==> 0 <= k < n
  {
    if n > 0 { BelowIs(n - 1); }
  }

  lemma {:induction false} IndexSetSize(shards: seq<Shard>)
    requires forall i, j :: 0 <= i < j < |shards| ==> shards[i].index != shards[j].index
    ensures |IndexSet(shards)| == |shards|
  {
    if shards != [] {
      var n := |shards| - 1;
      var front := shards[..n];
      IndexSetSize(front);
      assert IndexSet(shards) == IndexSet(front) + {shards[n].index} by {
        forall k | k in IndexSet(shards) ensures k in IndexSet(front) + {shards[n].index} {
          var i :| 0 <= i < |shards| && shards[i].index == k;
          if i < n { assert front[i].index == k; }
        }
        forall k | k in IndexSet(front) ensures k in IndexSet(shards) {
          var i :| 0 <= i < n && front[i].index == k;
          assert shards[i].index == k;
        }
      }
      assert shards[n].index !in IndexSet(front);
    } else {
      assert IndexSet(shards) == {};
    }
  }

  lemma {:induction false} SubsetSize(a: set<int>, b: set<int>)
    requires a <= b
    ensures |a| <= |b| && (|a| == |b| <==> a == b)
  {
    assert b == a + (b - a);
    if |a| == |b| { assert b - a == {}; }
  }

  /** THE PIGEONHOLE: distinct indices in range cover the range exactly when there are as many as it
      has; and if there are not, some index is missing. */
  lemma CompleteByCount(shards: seq<Shard>, n: nat)
    requires forall i :: 0 <= i < |shards| ==> 0 <= shards[i].index < n
    requires forall i, j :: 0 <= i < j < |shards| ==> shards[i].index != shards[j].index
    ensures |shards| <= n
    ensures (forall k :: 0 <= k < n ==> Names(shards, k)) <==> |shards| == n
  {
    IndexSetSize(shards);
    BelowIs(n);
    assert IndexSet(shards) <= Below(n);
    SubsetSize(IndexSet(shards), Below(n));
    forall k ensures k in IndexSet(shards) <==> Names(shards, k) {
      if Names(shards, k) {
        var i :| 0 <= i < |shards| && shards[i].index == k;
        assert shards[i].index in IndexSet(shards);
      }
    }
    if forall k :: 0 <= k < n ==> Names(shards, k) {
      forall k | k in Below(n) ensures k in IndexSet(shards) { assert Names(shards, k); }
      assert IndexSet(shards) == Below(n);
    }
    if |shards| == n {
      forall k | 0 <= k < n ensures Names(shards, k) { assert k in Below(n); }
    }
  }

  /** The indices `seen` does not hold, in order. */
  method Missings(seen: map<int, nat>, n: nat) returns (missing: seq<int>)
    ensures StrictlySorted(LessInt, missing)
    ensures forall k :: k in missing <==> 0 <= k < n && k !in seen
  {
    missing := [];
    for k := 0 to n
      invariant StrictlySorted(LessInt, missing) && forall i :: 0 <= i < |missing| ==> missing[i] < k
      invariant forall j :: j in missing <==> 0 <= j < k && j !in seen
    {
      if k !in seen {
        missing := missing + [k];
      }
    }
  }

  /** `seen` is the index of every shard, each under its own position. */
  ghost predicate Indexes(seen: map<int, nat>, shards: seq<Shard>) {
    && (forall j :: 0 <= j < |shards| ==> shards[j].index in seen)
    && (forall k :: k in seen ==> seen[k] < |shards| && shards[seen[k]].index == k)
  }

  ghost predicate ProperIndices(shards: seq<Shard>, want: int) {
    && (forall j :: 0 <= j < |shards| ==> shards[j].count == want && 0 <= shards[j].index < want)
    && (forall j, k :: 0 <= j < k < |shards| ==> shards[j].index != shards[k].index)
  }

  /** Every shard states the count, an index below it, and an index no earlier shard states. */
  method CheckIndices(shards: seq<Shard>, want: int) returns (r: Result<map<int, nat>, SetError>)
    ensures r.Ok? <==> ProperIndices(shards, want)
    ensures r.Ok? ==> Indexes(r.value, shards)
    ensures r.Err? ==> !r.error.Missing?
    ensures r.Err? && r.error.Duplicate? ==>
      r.error.first < r.error.second < |shards| && shards[r.error.first].index == shards[r.error.second].index
  {
    hide ProperIndices, Indexes;
    var seen: map<int, nat> := map[];
    NoIndex(shards, want);
    for i := 0 to |shards|
      invariant ProperIndices(shards[..i], want) && Indexes(seen, shards[..i])
    {
      var s := shards[i];
      OneMoreIndex(seen, shards, i, want);
      if s.count != want {
        return Err(CountMismatch(i));
      }
      if s.index < 0 || s.index >= want {
        return Err(OutOfRange(i));
      }
      if s.index in seen {
        return Err(Duplicate(seen[s.index], i));
      }
      seen := seen[s.index := i];
    }
    assert shards[..|shards|] == shards;
    return Ok(seen);
  }

  lemma NoIndex(shards: seq<Shard>, want: int)
    ensures ProperIndices(shards[..0], want) && Indexes(map[], shards[..0])
  {
  }

  lemma OneMoreIndex(seen: map<int, nat>, shards: seq<Shard>, i: nat, want: int)
    requires i < |shards| && ProperIndices(shards[..i], want) && Indexes(seen, shards[..i])
    ensures var s := shards[i];
      if s.count == want && 0 <= s.index < want && s.index !in seen
      then ProperIndices(shards[..i + 1], want) && Indexes(seen[s.index := i], shards[..i + 1])
      else !ProperIndices(shards, want)
    ensures shards[i].index in seen ==> seen[shards[i].index] < i && shards[seen[shards[i].index]].index == shards[i].index
  {
    var s := shards[i];
    assert forall j :: 0 <= j < i ==> shards[..i][j] == shards[j];
    if s.index in seen {
      var j := seen[s.index];
      assert shards[..i][j].index == s.index;
    }
    if s.count == want && 0 <= s.index < want && s.index !in seen {
      var more := shards[..i + 1];
      assert forall j :: 0 <= j < i ==> more[j] == shards[..i][j];
      forall j, k | 0 <= j < k < |more| ensures more[j].index != more[k].index {
        assert more[j] == shards[..i][j];
      }
    }
  }

  lemma ProperIsComplete(shards: seq<Shard>)
    requires shards != []
    ensures Complete(shards) <==> ProperIndices(shards, shards[0].count) && |shards| == shards[0].count
    ensures ProperIndices(shards, shards[0].count) ==> shards[0].count > 0
    ensures ProperIndices(shards, shards[0].count) && |shards| != shards[0].count ==>
      !forall k :: 0 <= k < shards[0].count ==> Names(shards, k)
  {
    hide Names;
    if ProperIndices(shards, shards[0].count) {
      assert 0 <= shards[0].index < shards[0].count;
      CompleteByCount(shards, shards[0].count);
    }
  }

  /** The shard set is complete and comes from one launch; a partial set names what is missing. */
  method ValidateShardSet(shards: seq<Shard>) returns (r: Option<SetError>)
    ensures r.None? <==> Complete(shards) && SameLaunch(shards)
    ensures r.Some? && r.value.Missing? ==>
      && shards != [] && r.value.indices != [] && StrictlySorted(LessInt, r.value.indices)
      && forall k :: k in r.value.indices <==> 0 <= k < shards[0].count && !Names(shards, k)
    ensures r.Some? && r.value.Duplicate? ==>
      r.value.first < r.value.second < |shards| && shards[r.value.first].index == shards[r.value.second].index
  {
    if shards == [] {
      return Some(NoShards);
    }
    var want := shards[0].count;
    ProperIsComplete(shards);
    var read := CheckIndices(shards, want);
    if read.Err? {
      return Some(read.error);
    }
    if |shards| != want {
      var missing := Missings(read.value, want);
      MissingIsUnnamed(shards, read.value, missing);
      return Some(Missing(missing));
    }
    for i := 1 to |shards|
      invariant forall j :: 0 < j < i ==> shards[j].launch == shards[0].launch
    {
      if shards[i].launch != shards[0].launch {
        return Some(LaunchMismatch(i));
      }
    }
    return None;
  }

  lemma MissingIsUnnamed(shards: seq<Shard>, seen: map<int, nat>, missing: seq<int>)
    requires shards != []
    requires Indexes(seen, shards)
    requires forall k :: k in missing <==> 0 <= k < shards[0].count && k !in seen
    requires !forall k :: 0 <= k < shards[0].count ==> Names(shards, k)
    ensures missing != [] && forall k :: k in missing <==> 0 <= k < shards[0].count && !Names(shards, k)
  {
    forall k ensures k in seen <==> Names(shards, k) {
      if Names(shards, k) {
        var i :| 0 <= i < |shards| && shards[i].index == k;
        assert shards[i].index in seen;
      }
    }
    var k :| 0 <= k < shards[0].count && !Names(shards, k);
    assert k in missing;
  }

  // ---------------------------------------------------------------------------
  // Rows are unique
  // ---------------------------------------------------------------------------

  function ResultsOf(s: Shard): seq<Row> { s.results }

  function AllRows(shards: seq<Shard>): seq<Row> { FlatMap(ResultsOf, shards) }

  ghost predicate UniqueRows(rows: seq<Row>) {
    forall i, j :: 0 <= i < j < |rows| ==> KeyOf(rows[i]) != KeyOf(rows[j])
  }

  ghost predicate KeysOf(seen: set<RowKey>, rows: seq<Row>) {
    forall k :: k in seen <==> exists i :: 0 <= i < |rows| && KeyOf(rows[i]) == k
  }

  lemma RowOneMore(seen: set<RowKey>, rows: seq<Row>, r: Row)
    requires KeysOf(seen, rows) && UniqueRows(rows)
    ensures UniqueRows(rows + [r]) <==> KeyOf(r) !in seen
    ensures KeysOf(seen + {KeyOf(r)}, rows + [r])
  {
    hide KeyOf;
    var more, n := rows + [r], |rows|;
    assert forall i :: 0 <= i < n ==> more[i] == rows[i];
    if KeyOf(r) in seen {
      var i :| 0 <= i < n && KeyOf(rows[i]) == KeyOf(r);
      assert KeyOf(more[i]) == KeyOf(more[n]);
    }
    forall k ensures k in seen + {KeyOf(r)} <==> exists i :: 0 <= i < |more| && KeyOf(more[i]) == k {
      if k in seen {
        var i :| 0 <= i < n && KeyOf(rows[i]) == k;
        assert KeyOf(more[i]) == k;
      }
      assert KeyOf(more[n]) == KeyOf(r);
    }
  }

  lemma UniquePrefix(a: seq<Row>, b: seq<Row>)
    ensures UniqueRows(a + b) ==> UniqueRows(a)
  {
    assert forall i :: 0 <= i < |a| ==> (a + b)[i] == a[i];
  }

  /** No two rows of any shards share a key. */
  method ValidateResultUniqueness(shards: seq<Shard>) returns (ok: bool)
    ensures ok <==> UniqueRows(AllRows(shards))
  {
    hide KeysOf, UniqueRows, KeyOf, AllRows;
    var seen: set<RowKey> := {};
    NoRows(shards);
    for i := 0 to |shards|
      invariant KeysOf(seen, AllRows(shards[..i])) && UniqueRows(AllRows(shards[..i]))
    {
      var rows := shards[i].results;
      ghost var before := AllRows(shards[..i]);
      RowsStep(shards, i);
      assert before + rows[..0] == before;
      for j := 0 to |rows|
        invariant KeysOf(seen, before + rows[..j]) && UniqueRows(before + rows[..j])
      {
        RowOneMore(seen, before + rows[..j], rows[j]);
        assert before + rows[..j] + [rows[j]] == before + rows[..j + 1];
        if KeyOf(rows[j]) in seen {
          ghost var rest := AllRows(shards[i + 1..]);
          RowsSplit(shards, i + 1);
          assert before + rows == before + rows[..j + 1] + rows[j + 1..];
          UniquePrefix(before + rows[..j + 1], rows[j + 1..]);
          UniquePrefix(before + rows, rest);
          return false;
        }
        seen := seen + {KeyOf(rows[j])};
      }
      assert rows[..|rows|] == rows;
    }
    assert shards[..|shards|] == shards;
    return true;
  }

  lemma NoRows(shards: seq<Shard>)
    ensures AllRows(shards[..0]) == [] && KeysOf({}, []) && UniqueRows([])
  {
  }

  lemma RowsStep(shards: seq<Shard>, i: nat)
    requires i < |shards|
    ensures AllRows(shards[..i + 1]) == AllRows(shards[..i]) + shards[i].results
  {
    FlatMapStep(ResultsOf, shards, i);
  }

  lemma RowsSplit(shards: seq<Shard>, i: nat)
    requires i <= |shards|
    ensures AllRows(shards) == AllRows(shards[..i]) + AllRows(shards[i..])
  {
    FlatMapBoth(ResultsOf, shards[..i], shards[i..]);
    assert shards == shards[..i] + shards[i..];
  }

  predicate LessRow(a: Row, b: Row) {
    if a.index != b.index then a.index < b.index
    else if a.member != b.member then LessString(a.member, b.member)
    else if a.arm != b.arm then LessString(a.arm, b.arm)
    else LessString(a.probe, b.probe)
  }

  lemma RowTotal(x: Row, y: Row)
    ensures KeyOf(x) == KeyOf(y) || LessRow(x, y) || LessRow(y, x)
    ensures KeyOf(x) == KeyOf(y) ==> !LessRow(x, y)
  {
    StringTotal(x.member, y.member);
    StringTotal(x.arm, y.arm);
    StringTotal(x.probe, y.probe);
    StringIrreflexive(x.probe);
  }

  lemma RowTransitive(x: Row, y: Row, z: Row)
    requires LessRow(x, y) && LessRow(y, z)
    ensures LessRow(x, z)
  {
    StringsTransitive(x.member, y.member, z.member);
    StringsTransitive(x.arm, y.arm, z.arm);
    StringsTransitive(x.probe, y.probe, z.probe);
  }

  lemma StringsTransitive(a: string, b: string, c: string)
    ensures LessString(a, b) && LessString(b, c) ==> LessString(a, c) && a != c
  {
    if LessString(a, b) && LessString(b, c) {
      StringTransitive(a, b, c);
      StringIrreflexive(a);
    }
  }

  lemma LessRowOfKey(x: Row, y: Row, z: Row)
    requires KeyOf(x) == KeyOf(y)
    ensures LessRow(x, z) == LessRow(y, z) && LessRow(z, x) == LessRow(z, y)
  {
  }

  lemma RowOrder()
    ensures Weak(LessRow)
  {
    hide LessRow, KeyOf;
    forall x ensures !LessRow(x, x) { RowTotal(x, x); }
    forall x, y, z | LessRow(x, y) && LessRow(y, z) ensures LessRow(x, z) { RowTransitive(x, y, z); }
    forall x, y, z | LessRow(x, z) ensures LessRow(x, y) || LessRow(y, z) {
      RowTotal(x, y);
      if KeyOf(x) == KeyOf(y) {
        LessRowOfKey(x, y, z);
      } else if LessRow(y, x) {
        RowTransitive(y, x, z);
      }
    }
  }

  /** The row order separates rows whose keys differ. */
  lemma UniqueSeparates(rows: seq<Row>)
    requires UniqueRows(rows)
    ensures Separates(LessRow, multiset(rows))
  {
    hide LessRow, KeyOf;
    forall x, y | x in multiset(rows) && y in multiset(rows) && x != y ensures LessRow(x, y) || LessRow(y, x) {
      var i :| 0 <= i < |rows| && rows[i] == x;
      var j :| 0 <= j < |rows| && rows[j] == y;
      RowTotal(x, y);
      assert i < j || j < i;
    }
  }

  // ---------------------------------------------------------------------------
  // Byte statistics
  // ---------------------------------------------------------------------------

  const LEGACY_BYTE_CAP: int := 16_000

  datatype ByteStats = ByteStats(max: int, p50: int, p99: int, overConfigured: nat, overLegacy: nat)

  function Under(x: int): int -> bool { v => v < x }
  function UpTo(x: int): int -> bool { v => v <= x }
  function Over(x: int): int -> bool { v => v > x }

  function Positives(s: seq<int>): seq<int> {
    if s == [] then [] else Positives(s[..|s| - 1]) + if s[|s| - 1] <= 0 then [] else [s[|s| - 1]]
  }

  /** `x` is the element of rank `k`: at most `k` elements lie below it, more than `k` up to it. */
  ghost predicate IsRank(s: seq<int>, k: nat, x: int) {
    x in s && CountIf(Under(x), s) <= k < CountIf(UpTo(x), s)
  }

  /** What the statistics of a population are, without sorting anything. */
  ghost predicate IsStats(samples: seq<int>, configured: int, st: ByteStats) {
    var pos := Positives(samples);
    && st.overConfigured == CountIf(Over(configured), pos)
    && st.overLegacy == CountIf(Over(LEGACY_BYTE_CAP), pos)
    && (pos == [] ==> st.max == 0 && st.p50 == 0 && st.p99 == 0)
    && (pos != [] ==>
          && st.max in pos && (forall v :: v in pos ==> v <= st.max)
          && IsRank(pos, |pos| / 2, st.p50) && IsRank(pos, |pos| * 99 / 100, st.p99)
          && 0 < st.p50 <= st.p99 <= st.max)
  }

  lemma {:induction false} PositivesCount(s: seq<int>, v: int)
    ensures multiset(Positives(s))[v] == if v > 0 then multiset(s)[v] else 0
  {
    if s != [] {
      var n := |s| - 1;
      PositivesCount(s[..n], v);
      assert s == s[..n] + [s[n]];
    }
  }

  lemma PositivesIgnoreOrder(a: seq<int>, b: seq<int>)
    requires multiset(a) == multiset(b)
    ensures multiset(Positives(a)) == multiset(Positives(b))
  {
    forall v ensures multiset(Positives(a))[v] == multiset(Positives(b))[v] {
      PositivesCount(a, v);
      PositivesCount(b, v);
    }
  }

  lemma SortedRank(s: seq<int>, k: nat)
    requires Sorted(LessInt, s) && k < |s|
    ensures IsRank(s, k, s[k])
  {
    hide CountIf;
    var x := s[k];
    var a, b, c, d := s[..k], s[k..], s[..k + 1], s[k + 1..];
    assert s == a + b && s == c + d;
    forall i | 0 <= i < |b| ensures !Under(x)(b[i]) {
      assert i > 0 ==> !LessInt(s[k + i], s[k]);
    }
    forall i | 0 <= i < |c| ensures UpTo(x)(c[i]) {
      assert i < k ==> !LessInt(s[k], s[i]);
    }
    CountBoth(Under(x), a, b);
    CountNone(Under(x), b);
    CountBoth(UpTo(x), c, d);
    CountAll(UpTo(x), c);
  }

  lemma RankIgnoresOrder(a: seq<int>, b: seq<int>, k: nat, x: int)
    requires multiset(a) == multiset(b) && IsRank(a, k, x)
    ensures IsRank(b, k, x)
  {
    CountIgnoresOrder(Under(x), a, b);
    CountIgnoresOrder(UpTo(x), a, b);
    assert x in multiset(a);
    assert x in multiset(b);
  }

  /** At most one value has a rank, and ranks keep the order. */
  lemma RankIsMonotone(s: seq<int>, j: nat, k: nat, x: int, y: int)
    requires IsRank(s, j, x) && IsRank(s, k, y) && j <= k
    ensures x <= y
  {
    if y < x {
      CountGrows(UpTo(y), Under(x), s);
      assert false;
    }
  }

  /** The byte statistics, by sorting the positive samples. */
  method ResultByteStats(samples: seq<int>, configured: int) returns (st: ByteStats)
    ensures IsStats(samples, configured, st)
  {
    hide CountIf, Positives, IsRank, Sort, Sorted;
    var values: seq<int> := [];
    var max, overConfigured, overLegacy := 0, 0, 0;
    NoSamples(samples, configured);
    for i := 0 to |samples|
      invariant values == Positives(samples[..i])
      invariant if values == [] then max == 0 else max in values
      invariant max >= 0 && forall v :: v in values ==> 0 < v <= max
      invariant overConfigured == CountIf(Over(configured), values)
      invariant overLegacy == CountIf(Over(LEGACY_BYTE_CAP), values)
    {
      var b := samples[i];
      SampleStep(samples, i, configured);
      if b <= 0 {
        continue;
      }
      values := values + [b];
      if b > max {
        max := b;
      }
      if b > configured {
        overConfigured := overConfigured + 1;
      }
      if b > LEGACY_BYTE_CAP {
        overLegacy := overLegacy + 1;
      }
    }
    assert samples[..|samples|] == samples;
    if values == [] {
      return ByteStats(0, 0, 0, overConfigured, overLegacy);
    }
    var sorted := Sort(LessInt, values);
    var p99Index := |sorted| * 99 / 100;
    if p99Index >= |sorted| {
      // The last percentile lies inside any non-empty population.
      assert false;
    }
    SortedStats(values, sorted);
    return ByteStats(max, sorted[|sorted| / 2], sorted[p99Index], overConfigured, overLegacy);
  }

  lemma NoSamples(samples: seq<int>, configured: int)
    ensures Positives(samples[..0]) == []
    ensures CountIf(Over(configured), []) == 0 && CountIf(Over(LEGACY_BYTE_CAP), []) == 0
  {
  }

  lemma SampleStep(samples: seq<int>, i: nat, configured: int)
    requires i < |samples|
    ensures var pos, b := Positives(samples[..i]), samples[i];
      && Positives(samples[..i + 1]) == (if b <= 0 then pos else pos + [b])
      && CountIf(Over(configured), pos + [b]) == CountIf(Over(configured), pos) + (if b > configured then 1 else 0)
      && CountIf(Over(LEGACY_BYTE_CAP), pos + [b]) == CountIf(Over(LEGACY_BYTE_CAP), pos) + (if b > LEGACY_BYTE_CAP then 1 else 0)
  {
    var pos, b := Positives(samples[..i]), samples[i];
    assert samples[..i + 1][..i] == samples[..i];
    assert (pos + [b])[..|pos|] == pos;
  }

  lemma SortedStats(values: seq<int>, sorted: seq<int>)
    requires values != [] && sorted == Sort(LessInt, values)
    ensures |sorted| == |values|
    ensures IsRank(values, |values| / 2, sorted[|values| / 2])
    ensures IsRank(values, |values| * 99 / 100, sorted[|values| * 99 / 100])
    ensures sorted[|values| / 2] in values && sorted[|values| * 99 / 100] in values
    ensures sorted[|values| / 2] <= sorted[|values| * 99 / 100]
  {
    IntOrder();
    SortSorts(LessInt, values);
    assert |multiset(sorted)| == |multiset(values)|;
    var j, k := |values| / 2, |values| * 99 / 100;
    SortedRank(sorted, j);
    SortedRank(sorted, k);
    RankIgnoresOrder(sorted, values, j, sorted[j]);
    RankIgnoresOrder(sorted, values, k, sorted[k]);
    assert sorted[j] in multiset(values) && sorted[k] in multiset(values);
  }

  /** The statistics belong to the population, not to the order it is listed in. */
  lemma StatsIgnoreOrder(a: seq<int>, b: seq<int>, configured: int, st: ByteStats)
    requires multiset(a) == multiset(b) && IsStats(a, configured, st)
    ensures IsStats(b, configured, st)
  {
    hide Positives, CountIf, IsRank;
    PositivesIgnoreOrder(a, b);
    var p, q := Positives(a), Positives(b);
    assert |multiset(p)| == |multiset(q)|;
    CountIgnoresOrder(Over(configured), p, q);
    CountIgnoresOrder(Over(LEGACY_BYTE_CAP), p, q);
    if p != [] {
      RankIgnoresOrder(p, q, |p| / 2, st.p50);
      RankIgnoresOrder(p, q, |p| * 99 / 100, st.p99);
      assert st.max in multiset(p) && st.max in multiset(q);
      forall v | v in q ensures v <= st.max {
        assert v in multiset(q);
        assert v in multiset(p);
        assert v in p;
      }
    }
  }

  lemma StatsAreUnique(a: seq<int>, configured: int, st: ByteStats, tt: ByteStats)
    requires IsStats(a, configured, st) && IsStats(a, configured, tt)
    ensures st == tt
  {
    hide Positives, CountIf, IsRank;
    var p := Positives(a);
    if p != [] {
      RankIsMonotone(p, |p| / 2, |p| / 2, st.p50, tt.p50);
      RankIsMonotone(p, |p| / 2, |p| / 2, tt.p50, st.p50);
      RankIsMonotone(p, |p| * 99 / 100, |p| * 99 / 100, st.p99, tt.p99);
      RankIsMonotone(p, |p| * 99 / 100, |p| * 99 / 100, tt.p99, st.p99);
    }
  }

  // ---------------------------------------------------------------------------
  // Answer rate
  // ---------------------------------------------------------------------------

  predicate Answerable(r: Row) { r.arm == "positive" && !(r.expectedId == "" && !r.cohortExpected) }

  predicate RowAnswered(r: Row) {
    if r.claimedFacts < 1 then false
    else if r.cohortExpected then
      (r.status == "complete" || r.status == "partial" || r.status == "degraded") && r.scoredMembers >= 1
    else r.status == "complete"
  }

  predicate AnsweredRow(r: Row) { Answerable(r) && RowAnswered(r) }

  /** Which rows count: a positive row that expects an answer, and one that got it. An anchored row must be
      complete; a cohort row may also be partial or degraded, with a scored member. Both need a fact. */
  lemma AnsweredCases(r: Row)
    ensures Answerable(r) <==> r.arm == "positive" && (r.expectedId != "" || r.cohortExpected)
    ensures AnsweredRow(r) && !r.cohortExpected <==>
      r.arm == "positive" && r.expectedId != "" && !r.cohortExpected && r.claimedFacts >= 1 && r.status == "complete"
    ensures AnsweredRow(r) && r.cohortExpected <==>
      r.arm == "positive" && r.cohortExpected && r.claimedFacts >= 1 && r.scoredMembers >= 1 && r.status in COHORT_STATUSES
  {
  }

  const COHORT_STATUSES: set<string> := {"complete", "partial", "degraded"}

  function Rate(rows: seq<Row>): (rate: real)
    ensures IsShare(rate, CountIf(AnsweredRow, rows), CountIf(Answerable, rows))
    ensures 0.0 <= rate <= 1.0
    ensures rate == 1.0 <==> CountIf(Answerable, rows) > 0 && CountIf(AnsweredRow, rows) == CountIf(Answerable, rows)
  {
    CountGrows(AnsweredRow, Answerable, rows);
    var all, some := CountIf(Answerable, rows), CountIf(AnsweredRow, rows);
    Share(some, all);
    if all == 0 then 0.0 else some as real / all as real
  }

  /** The share that `some` is of `all`: nothing of nothing. */
  predicate IsShare(rate: real, some: nat, all: nat) {
    (all == 0 ==> rate == 0.0) && rate * all as real == some as real
  }

  lemma Share(some: nat, all: nat)
    requires some <= all
    ensures all > 0 ==> 0.0 <= some as real / all as real <= 1.0
    ensures all > 0 ==> (some as real / all as real == 1.0 <==> some == all)
    ensures all > 0 ==> IsShare(some as real / all as real, some, all)
  {
    if all > 0 {
      var q := some as real / all as real;
      assert q * all as real == some as real;
    }
  }

  lemma RateIs(rows: seq<Row>, some: nat, all: nat)
    requires some == CountIf(AnsweredRow, rows) && all == CountIf(Answerable, rows)
    ensures Rate(rows) == (if all == 0 then 0.0 else some as real / all as real) && IsShare(Rate(rows), some, all)
  {
    hide IsShare;
  }

  method AnswerRate(rows: seq<Row>) returns (rate: real)
    ensures rate == Rate(rows) && IsShare(rate, CountIf(AnsweredRow, rows), CountIf(Answerable, rows))
  {
    hide Answerable, RowAnswered, Rate, IsShare;
    var answerable, answered := 0, 0;
    for i := 0 to |rows|
      invariant answerable == CountIf(Answerable, rows[..i]) && answered == CountIf(AnsweredRow, rows[..i])
    {
      assert rows[..i + 1][..i] == rows[..i];
      if !Answerable(rows[i]) {
        continue;
      }
      answerable := answerable + 1;
      if RowAnswered(rows[i]) {
        answered := answered + 1;
      }
    }
    assert rows[..|rows|] == rows;
    RateIs(rows, answered, answerable);
    if answerable == 0 {
      return 0.0;
    }
    return answered as real / answerable as real;
  }

  lemma RateIgnoresOrder(a: seq<Row>, b: seq<Row>)
    requires multiset(a) == multiset(b)
    ensures Rate(a) == Rate(b)
  {
    CountIgnoresOrder(Answerable, a, b);
    CountIgnoresOrder(AnsweredRow, a, b);
  }

  // ---------------------------------------------------------------------------
  // The merge
  // ---------------------------------------------------------------------------

  datatype Merged = Merged(
    launch: Launch, startedAt: string, provisionMillis: int, caseIndices: seq<int>,
    counts: Counts, members: seq<string>, antiVacuityValid: bool, probes: seq<Probe>,
    results: seq<Row>, samples: seq<int>, stats: ByteStats, answerRate: real, timings: seq<string>
  )

  function SamplesOf(s: Shard): seq<int> { s.samples }
  function MembersOf(s: Shard): seq<string> { s.members }
  function CasesOf(s: Shard): seq<int> { s.caseIndices }
  function TimingsOf(s: Shard): seq<string> { s.timings }
  function CountOf(k: Counter): Shard -> int { (s: Shard) => At(s.counts, k) }

  /** The counts per key, added over all shards. */
  ghost predicate AreSums(shards: seq<Shard>, counts: Counts) {
    && (forall k :: k in counts <==> exists i :: 0 <= i < |shards| && k in shards[i].counts)
    && (forall k :: k in counts ==> counts[k] == Wrap(SumBy(CountOf(k), shards)))
  }

  predicate AntiVacuous(members: seq<string>, counts: Counts) {
    members != [] && forall i :: 0 <= i < |members| ==> At(counts, Per(WrongRedeemed, members[i])) >= 1
  }

  datatype ProbeKind = RemoveConfirmation | CorruptReceipt | StaleSupersededOffer

  const PROBE_KINDS: seq<ProbeKind> := [RemoveConfirmation, CorruptReceipt, StaleSupersededOffer]

  function KindName(kind: ProbeKind): string {
    match kind
    case RemoveConfirmation => "remove_confirmation"
    case CorruptReceipt => "corrupt_receipt"
    case StaleSupersededOffer => "stale_superseded_offer"
  }

  const COVERAGE_FLOOR: int := 5

  datatype Probe = Probe(kind: ProbeKind, runs: int, requiredMin: int, adequate: bool)

  /** One entry per kind of probe: its runs in the whole run, adequate when there was something to probe and
      either everything eligible or at least the floor was probed. */
  ghost predicate AreProbes(counts: Counts, probes: seq<Probe>) {
    var eligible := At(counts, One(ProbeEligible));
    && |probes| == |PROBE_KINDS|
    && (forall i :: 0 <= i < |probes| ==>
      && probes[i].kind == PROBE_KINDS[i] && probes[i].runs == At(counts, Per(ProbesRun, KindName(PROBE_KINDS[i])))
      && probes[i].requiredMin <= eligible && probes[i].requiredMin <= COVERAGE_FLOOR
      && (probes[i].requiredMin == eligible || probes[i].requiredMin == COVERAGE_FLOOR)
      && (probes[i].adequate <==> eligible > 0 && (probes[i].runs >= eligible || probes[i].runs >= COVERAGE_FLOOR)))
  }

  method ProbeCoverage(counts: Counts) returns (probes: seq<Probe>)
    ensures AreProbes(counts, probes) && |probes| == 3
    ensures probes[0].runs == At(counts, Per(ProbesRun, "remove_confirmation"))
    ensures probes[1].runs == At(counts, Per(ProbesRun, "corrupt_receipt"))
    ensures probes[2].runs == At(counts, Per(ProbesRun, "stale_superseded_offer"))
  {
    var eligible := At(counts, One(ProbeEligible));
    var requiredMin := eligible;
    if requiredMin > COVERAGE_FLOOR {
      requiredMin := COVERAGE_FLOOR;
    }
    probes := [];
    for i := 0 to |PROBE_KINDS|
      invariant |probes| == i
      invariant forall j :: 0 <= j < i ==>
        probes[j] == Probe(PROBE_KINDS[j], At(counts, Per(ProbesRun, KindName(PROBE_KINDS[j]))), requiredMin,
                           eligible > 0 && At(counts, Per(ProbesRun, KindName(PROBE_KINDS[j]))) >= requiredMin)
    {
      var runs := At(counts, Per(ProbesRun, KindName(PROBE_KINDS[i])));
      probes := probes + [Probe(PROBE_KINDS[i], runs, requiredMin, eligible > 0 && runs >= requiredMin)];
    }
  }

  /** Equal counts have equal coverage. */
  lemma ProbesAreUnique(counts: Counts, a: seq<Probe>, b: seq<Probe>)
    requires AreProbes(counts, a) && AreProbes(counts, b)
    ensures a == b
  {
    hide KindName, At, PROBE_KINDS;
    forall i | 0 <= i < |a| ensures a[i] == b[i] {}
  }

  ghost predicate IsEarliest(shards: seq<Shard>, at: string) {
    && (exists i :: 0 <= i < |shards| && shards[i].startedAt == at)
    && (forall i :: 0 <= i < |shards| ==> !LessString(shards[i].startedAt, at))
  }

  ghost predicate IsSlowest(shards: seq<Shard>, millis: int) {
    && (millis == 0 || exists i :: 0 <= i < |shards| && shards[i].provisionMillis == millis)
    && millis >= 0
    && (forall i :: 0 <= i < |shards| ==> shards[i].provisionMillis <= millis)
  }

  /** What depends only on the rows and samples of the run, not on its cut. */
  ghost predicate MergesPayload(shards: seq<Shard>, m: Merged) {
    && multiset(m.results) == multiset(AllRows(shards)) && Sorted(LessRow, m.results)
    && multiset(m.samples) == multiset(FlatMap(SamplesOf, shards)) && Sorted(LessInt, m.samples)
    && IsStats(FlatMap(SamplesOf, shards), m.launch.maxSerializedBytes, m.stats)
    && m.answerRate == Rate(AllRows(shards))
  }

  ghost predicate MergesSets(shards: seq<Shard>, m: Merged) {
    && StrictlySorted(LessString, m.members) && Elements(m.members) == Elements(FlatMap(MembersOf, shards))
    && StrictlySorted(LessInt, m.caseIndices) && Elements(m.caseIndices) == Elements(FlatMap(CasesOf, shards))
  }

  ghost predicate MergesCounts(shards: seq<Shard>, m: Merged) {
    && AreSums(shards, m.counts)
    && m.antiVacuityValid == AntiVacuous(m.members, m.counts)
    && AreProbes(m.counts, m.probes)
  }

  ghost predicate MergesProvenance(shards: seq<Shard>, m: Merged)
    requires shards != []
  {
    && m.launch == shards[0].launch
    && IsEarliest(shards, m.startedAt)
    && IsSlowest(shards, m.provisionMillis)
  }

  /** The union of the shards. */
  ghost predicate IsMerged(shards: seq<Shard>, m: Merged)
    requires shards != []
  {
    && MergesPayload(shards, m) && MergesSets(shards, m) && MergesCounts(shards, m) && MergesProvenance(shards, m)
    && m.timings == FlatMap(TimingsOf, shards)
  }

  /** One shard's counts added key by key, the keys in any order. */
  method AddCounts(counts: Counts, more: Counts) returns (sums: Counts)
    ensures sums == Plus(counts, more)
  {
    hide Wrap;
    sums := counts;
    var left := more.Keys;
    while left != {}
      invariant left <= more.Keys
      invariant sums.Keys == counts.Keys + (more.Keys - left)
      invariant forall k :: k in sums ==> sums[k] == if k in more && k !in left then Wrap(At(counts, k) + more[k]) else counts[k]
      decreases left
    {
      var k :| k in left;
      sums := sums[k := Wrap((if k in sums then sums[k] else 0) + more[k])];
      left := left - {k};
    }
    assert sums.Keys == Plus(counts, more).Keys;
  }

  function At(counts: Counts, k: Counter): int { if k in counts then counts[k] else 0 }

  function Plus(counts: Counts, more: Counts): Counts {
    map k | k in counts.Keys + more.Keys :: if k in more then Wrap(At(counts, k) + more[k]) else counts[k]
  }

  lemma SumsOneMore(shards: seq<Shard>, s: Shard, counts: Counts)
    requires AreSums(shards, counts)
    ensures AreSums(shards + [s], Plus(counts, s.counts))
  {
    var all, sums := shards + [s], Plus(counts, s.counts);
    forall k ensures k in sums <==> exists i :: 0 <= i < |all| && k in all[i].counts {
      if k in counts {
        var i :| 0 <= i < |shards| && k in shards[i].counts;
        assert k in all[i].counts;
      }
      if k in s.counts { assert k in all[|shards|].counts; }
    }
    forall k | k in sums ensures sums[k] == Wrap(SumBy(CountOf(k), all)) {
      SumOneMore(shards, s, counts, k);
    }
  }

  lemma SumOneMore(shards: seq<Shard>, s: Shard, counts: Counts, k: Counter)
    requires AreSums(shards, counts) && (k in counts || k in s.counts)
    ensures Wrap(SumBy(CountOf(k), shards + [s])) == Plus(counts, s.counts)[k]
  {
    hide Wrap;
    assert (shards + [s])[..|shards|] == shards;
    if k !in counts {
      assert forall i :: 0 <= i < |shards| ==> k !in shards[i].counts;
      NoneCounted(shards, k);
    }
    WrapTwice(SumBy(CountOf(k), shards), CountOf(k)(s));
  }

  lemma {:induction false} NoneCounted(shards: seq<Shard>, k: Counter)
    requires forall i :: 0 <= i < |shards| ==> k !in shards[i].counts
    ensures SumBy(CountOf(k), shards) == 0
  {
    if shards != [] { NoneCounted(shards[..|shards| - 1], k); }
  }

  /** What the loop over the shards has gathered. */
  datatype Gathered = Gathered(
    counts: Counts, members: set<string>, cases: set<int>,
    results: seq<Row>, samples: seq<int>, timings: seq<string>
  )

  ghost predicate Gathers(shards: seq<Shard>, g: Gathered) {
    && AreSums(shards, g.counts)
    && g.members == Elements(FlatMap(MembersOf, shards)) && g.cases == Elements(FlatMap(CasesOf, shards))
    && g.results == AllRows(shards) && g.samples == FlatMap(SamplesOf, shards) && g.timings == FlatMap(TimingsOf, shards)
  }

  lemma GathersNothing(shards: seq<Shard>)
    ensures Gathers(shards[..0], Gathered(map[], {}, {}, [], [], []))
  {
  }

  lemma GathersOneMore(shards: seq<Shard>, i: nat, g: Gathered)
    requires i < |shards| && Gathers(shards[..i], g)
    ensures var s := shards[i];
      Gathers(shards[..i + 1],
              Gathered(Plus(g.counts, s.counts),
                       g.members + Elements(s.members), g.cases + Elements(s.caseIndices),
                       g.results + s.results, g.samples + s.samples, g.timings + s.timings))
  {
    hide Wrap, Plus, AreSums;
    var s, front := shards[i], shards[..i];
    assert shards[..i + 1] == front + [s] && (front + [s])[..i] == front;
    SumsOneMore(front, s, g.counts);
    RowsStep(shards, i);
    FlatMapStep(SamplesOf, shards, i);
    FlatMapStep(TimingsOf, shards, i);
  }

  /** The earliest start. */
  method Earliest(shards: seq<Shard>) returns (at: string)
    requires shards != []
    ensures IsEarliest(shards, at)
  {
    hide LessString;
    at := shards[0].startedAt;
    StringTotal(at, at);
    for i := 1 to |shards|
      invariant exists j :: 0 <= j < i && shards[j].startedAt == at
      invariant forall j :: 0 <= j < i ==> !LessString(shards[j].startedAt, at)
    {
      if LessString(shards[i].startedAt, at) {
        NotLessThrough(shards[..i], at, shards[i].startedAt);
        assert forall j :: 0 <= j < i ==> shards[..i][j] == shards[j];
        at := shards[i].startedAt;
      }
      StringTotal(at, at);
    }
  }

  lemma NotLessThrough(shards: seq<Shard>, at: string, now: string)
    requires LessString(now, at) && forall j :: 0 <= j < |shards| ==> !LessString(shards[j].startedAt, at)
    ensures forall j :: 0 <= j < |shards| ==> !LessString(shards[j].startedAt, now)
  {
    hide LessString;
    forall j | 0 <= j < |shards| ensures !LessString(shards[j].startedAt, now) {
      StringsTransitive(shards[j].startedAt, now, at);
    }
  }

  /** The slowest provisioning, never below zero. */
  method Slowest(shards: seq<Shard>) returns (millis: int)
    ensures IsSlowest(shards, millis)
  {
    millis := 0;
    for i := 0 to |shards|
      invariant millis >= 0 && (millis == 0 || exists j :: 0 <= j < i && shards[j].provisionMillis == millis)
      invariant forall j :: 0 <= j < i ==> shards[j].provisionMillis <= millis
    {
      if shards[i].provisionMillis > millis {
        millis := shards[i].provisionMillis;
      }
    }
  }

  /** Every applicable member was redeemed at least once, and there is one. */
  method CheckAntiVacuity(members: seq<string>, counts: Counts) returns (ok: bool)
    ensures ok == AntiVacuous(members, counts)
  {
    var unsatisfied := 0;
    for i := 0 to |members|
      invariant unsatisfied >= 0
      invariant unsatisfied == 0 <==> forall j :: 0 <= j < i ==> At(counts, Per(WrongRedeemed, members[j])) >= 1
    {
      if At(counts, Per(WrongRedeemed, members[i])) < 1 {
        unsatisfied := unsatisfied + 1;
      }
    }
    return members != [] && unsatisfied == 0;
  }

  /** The merged artifact. */
  method MergeReports(shards: seq<Shard>) returns (m: Merged)
    requires shards != []
    ensures IsMerged(shards, m)
  {
    hide *;
    var g := Gathered(map[], {}, {}, [], [], []);
    GathersNothing(shards);
    for i := 0 to |shards|
      invariant Gathers(shards[..i], g)
    {
      var s := shards[i];
      GathersOneMore(shards, i, g);
      var counts := AddCounts(g.counts, s.counts);
      g := Gathered(counts,
                    g.members + Elements(s.members), g.cases + Elements(s.caseIndices),
                    g.results + s.results, g.samples + s.samples, g.timings + s.timings);
    }
    assert shards[..|shards|] == shards;
    var launch := shards[0].launch;
    var startedAt := Earliest(shards);
    var slowest := Slowest(shards);
    var samples := Sort(LessInt, g.samples);
    var stats := ResultByteStats(samples, launch.maxSerializedBytes);
    var rate := AnswerRate(g.results);
    StringOrder();
    IntOrder();
    var members := SortedElements(LessString, g.members);
    var cases := SortedElements(LessInt, g.cases);
    var valid := CheckAntiVacuity(members, g.counts);
    var probes := ProbeCoverage(g.counts);
    m := Merged(launch, startedAt, slowest, cases, g.counts, members, valid, probes,
                Sort(LessRow, g.results), samples, stats, rate, g.timings);
    GatheredIsMerged(shards, g, m);
  }

  /** The order of the merged rows: by case, then member, then arm, then probe. */
  lemma RowsByCase(shards: seq<Shard>, m: Merged, i: nat, j: nat)
    requires shards != [] && IsMerged(shards, m) && i < j < |m.results|
    ensures var a, b := m.results[i], m.results[j];
      && a.index <= b.index
      && (a.index == b.index ==> !LessString(b.member, a.member))
      && (a.index == b.index && a.member == b.member ==> !LessString(b.arm, a.arm))
      && (a.index == b.index && a.member == b.member && a.arm == b.arm ==> !LessString(b.probe, a.probe))
  {
    hide LessString, IsStats, Rate, FlatMap, AllRows, MergesSets, MergesCounts, MergesProvenance, LessRow;
    assert Sorted(LessRow, m.results);
    NotAfter(m.results[i], m.results[j]);
  }

  lemma NotAfter(a: Row, b: Row)
    requires !LessRow(b, a)
    ensures a.index <= b.index
    ensures a.index == b.index ==> !LessString(b.member, a.member)
    ensures a.index == b.index && a.member == b.member ==> !LessString(b.arm, a.arm)
    ensures a.index == b.index && a.member == b.member && a.arm == b.arm ==> !LessString(b.probe, a.probe)
  {
    hide LessString;
    StringIrreflexive(a.member);
    StringIrreflexive(a.arm);
  }

  lemma GatheredIsMerged(shards: seq<Shard>, g: Gathered, m: Merged)
    requires shards != [] && Gathers(shards, g)
    requires m.results == Sort(LessRow, g.results) && m.samples == Sort(LessInt, g.samples)
    requires IsStats(m.samples, m.launch.maxSerializedBytes, m.stats) && m.answerRate == Rate(g.results)
    requires StrictlySorted(LessString, m.members) && Elements(m.members) == g.members
    requires StrictlySorted(LessInt, m.caseIndices) && Elements(m.caseIndices) == g.cases
    requires m.counts == g.counts && m.timings == g.timings
    requires m.antiVacuityValid == AntiVacuous(m.members, m.counts) && AreProbes(m.counts, m.probes)
    requires m.launch == shards[0].launch && IsEarliest(shards, m.startedAt) && IsSlowest(shards, m.provisionMillis)
    ensures IsMerged(shards, m)
  {
    hide Sort, IsStats, Rate, StrictlySorted, AreSums, IsEarliest, IsSlowest, AntiVacuous, AreProbes, FlatMap, AllRows, Weak, Separates, Sorted, SumBy, Elements;
    RowOrder();
    IntOrder();
    SortSorts(LessRow, g.results);
    SortSorts(LessInt, g.samples);
    StatsIgnoreOrder(m.samples, g.samples, m.launch.maxSerializedBytes, m.stats);
  }

  // ---------------------------------------------------------------------------
  // The cut leaves no trace
  // ---------------------------------------------------------------------------

  /** Two shard sets hold the same run: the same rows and samples, members, cases and totals. */
  ghost predicate SameRun(a: seq<Shard>, b: seq<Shard>) {
    && multiset(AllRows(a)) == multiset(AllRows(b))
    && multiset(FlatMap(SamplesOf, a)) == multiset(FlatMap(SamplesOf, b))
    && Elements(FlatMap(MembersOf, a)) == Elements(FlatMap(MembersOf, b))
    && Elements(FlatMap(CasesOf, a)) == Elements(FlatMap(CasesOf, b))
    && (forall k :: Reports(a, k) <==> Reports(b, k))
    && (forall k :: SumBy(CountOf(k), a) == SumBy(CountOf(k), b))
  }

  ghost predicate Reports(shards: seq<Shard>, k: Counter) { exists i :: 0 <= i < |shards| && k in shards[i].counts }

  /** What of a merged artifact the cut must not change. */
  datatype Canon = Canon(
    caseIndices: seq<int>, counts: Counts, members: seq<string>, antiVacuityValid: bool, probes: seq<Probe>,
    results: seq<Row>, samples: seq<int>, stats: ByteStats, answerRate: real
  )

  function CanonOf(m: Merged): Canon {
    Canon(m.caseIndices, m.counts, m.members, m.antiVacuityValid, m.probes, m.results, m.samples, m.stats, m.answerRate)
  }

  lemma SamePayload(a: seq<Shard>, m: Merged, b: seq<Shard>, n: Merged)
    requires multiset(AllRows(a)) == multiset(AllRows(b))
    requires multiset(FlatMap(SamplesOf, a)) == multiset(FlatMap(SamplesOf, b))
    requires UniqueRows(AllRows(a)) && m.launch == n.launch
    requires MergesPayload(a, m) && MergesPayload(b, n)
    ensures m.results == n.results && m.samples == n.samples && m.stats == n.stats && m.answerRate == n.answerRate
  {
    hide FlatMap, AllRows, IsStats, Rate, Sorted, StrictOrder, UniqueRows;
    RowOrder();
    IntOrder();
    UniqueSeparates(AllRows(a));
    SortedIsUnique(LessRow, m.results, n.results);
    SortedIsUnique(LessInt, m.samples, n.samples);
    var p, q := FlatMap(SamplesOf, a), FlatMap(SamplesOf, b);
    StatsIgnoreOrder(p, q, m.launch.maxSerializedBytes, m.stats);
    StatsAreUnique(q, m.launch.maxSerializedBytes, m.stats, n.stats);
    RateIgnoresOrder(AllRows(a), AllRows(b));
  }

  lemma SameSets(a: seq<Shard>, m: Merged, b: seq<Shard>, n: Merged)
    requires Elements(FlatMap(MembersOf, a)) == Elements(FlatMap(MembersOf, b))
    requires Elements(FlatMap(CasesOf, a)) == Elements(FlatMap(CasesOf, b))
    requires MergesSets(a, m) && MergesSets(b, n)
    ensures m.members == n.members && m.caseIndices == n.caseIndices
  {
    hide FlatMap, StrictlySorted, TotalOrder, Elements;
    StringOrder();
    IntOrder();
    StrictIsUnique(LessString, m.members, n.members);
    StrictIsUnique(LessInt, m.caseIndices, n.caseIndices);
  }

  lemma SameSums(a: seq<Shard>, c: Counts, b: seq<Shard>, d: Counts)
    requires forall k :: Reports(a, k) <==> Reports(b, k)
    requires forall k :: SumBy(CountOf(k), a) == SumBy(CountOf(k), b)
    requires AreSums(a, c) && AreSums(b, d)
    ensures c == d
  {
    hide Wrap, SumBy;
    forall k ensures k in c <==> k in d {
      assert Reports(a, k) <==> Reports(b, k);
    }
    assert c.Keys == d.Keys;
  }

  /** THE CUT LEAVES NO TRACE: any two ways of cutting and ordering one run merge into the same
      rows, samples, statistics, rate, members, cases, totals and verdict. */
  lemma CutInvariance(a: seq<Shard>, m: Merged, b: seq<Shard>, n: Merged)
    requires a != [] && b != [] && a[0].launch == b[0].launch && UniqueRows(AllRows(a))
    requires SameRun(a, b) && IsMerged(a, m) && IsMerged(b, n)
    ensures CanonOf(m) == CanonOf(n)
  {
    hide MergesPayload, MergesSets, AreSums, AreProbes, FlatMap, AllRows, SumBy, Reports, UniqueRows, AntiVacuous, Wrap;
    SamePayload(a, m, b, n);
    SameSets(a, m, b, n);
    SameSums(a, m.counts, b, n.counts);
    ProbesAreUnique(m.counts, m.probes, n.probes);
  }

  lemma PermutedShard(a: seq<Shard>, b: seq<Shard>, i: nat) returns (j: nat)
    requires multiset(a) == multiset(b) && i < |a|
    ensures j < |b| && b[j] == a[i]
  {
    assert a[i] in multiset(a);
    assert a[i] in multiset(b);
    j :| 0 <= j < |b| && b[j] == a[i];
  }

  lemma PermutedReports(a: seq<Shard>, b: seq<Shard>, k: Counter)
    requires multiset(a) == multiset(b) && Reports(a, k)
    ensures Reports(b, k)
  {
    var i :| 0 <= i < |a| && k in a[i].counts;
    var j := PermutedShard(a, b, i);
    assert k in b[j].counts;
  }

  lemma PermutationIsSameRun(a: seq<Shard>, b: seq<Shard>)
    requires multiset(a) == multiset(b)
    ensures SameRun(a, b)
  {
    hide FlatMap, SumBy, Reports;
    FlatMapIgnoresOrder(ResultsOf, a, b);
    FlatMapIgnoresOrder(SamplesOf, a, b);
    FlatMapIgnoresOrder(MembersOf, a, b);
    ElementsIgnoreOrder(FlatMap(MembersOf, a), FlatMap(MembersOf, b));
    FlatMapIgnoresOrder(CasesOf, a, b);
    ElementsIgnoreOrder(FlatMap(CasesOf, a), FlatMap(CasesOf, b));
    forall k ensures Reports(a, k) <==> Reports(b, k) {
      if Reports(a, k) { PermutedReports(a, b, k); }
      if Reports(b, k) { PermutedReports(b, a, k); }
    }
    forall k ensures SumBy(CountOf(k), a) == SumBy(CountOf(k), b) { SumIgnoresOrder(CountOf(k), a, b); }
  }

  lemma EarliestIsUnique(a: seq<Shard>, x: string, b: seq<Shard>, y: string)
    requires multiset(a) == multiset(b) && IsEarliest(a, x) && IsEarliest(b, y)
    ensures x == y
  {
    hide LessString;
    var i :| 0 <= i < |a| && a[i].startedAt == x;
    var j := PermutedShard(a, b, i);
    var k :| 0 <= k < |b| && b[k].startedAt == y;
    var l := PermutedShard(b, a, k);
    StringTotal(x, y);
    assert !LessString(b[j].startedAt, y) && !LessString(a[l].startedAt, x);
  }

  lemma SlowestIsUnique(a: seq<Shard>, x: int, b: seq<Shard>, y: int)
    requires multiset(a) == multiset(b) && IsSlowest(a, x) && IsSlowest(b, y)
    ensures x <= y
  {
    if x != 0 {
      var i :| 0 <= i < |a| && a[i].provisionMillis == x;
      var j := PermutedShard(a, b, i);
      assert b[j].provisionMillis <= y;
    }
  }

  /** THE ORDER OF THE SHARDS LEAVES NO TRACE but in the timings, which keep it. */
  lemma OrderInvariance(a: seq<Shard>, m: Merged, b: seq<Shard>, n: Merged)
    requires multiset(a) == multiset(b) && SameLaunch(a) && UniqueRows(AllRows(a))
    requires a != [] && b != [] && IsMerged(a, m) && IsMerged(b, n)
    ensures m.(timings := n.timings) == n
    ensures multiset(m.timings) == multiset(n.timings)
  {
    hide MergesPayload, MergesSets, AreSums, AreProbes, FlatMap, AllRows, SumBy, Reports, UniqueRows, AntiVacuous, Wrap, IsEarliest, IsSlowest;
    var j := PermutedShard(b, a, 0);
    assert j > 0 ==> a[j].launch == a[0].launch;
    PermutationIsSameRun(a, b);
    SamePayload(a, m, b, n);
    SameSets(a, m, b, n);
    SameSums(a, m.counts, b, n.counts);
    ProbesAreUnique(m.counts, m.probes, n.probes);
    EarliestIsUnique(a, m.startedAt, b, n.startedAt);
    SlowestIsUnique(a, m.provisionMillis, b, n.provisionMillis);
    SlowestIsUnique(b, n.provisionMillis, a, m.provisionMillis);
    FlatMapIgnoresOrder(TimingsOf, a, b);
  }
}
