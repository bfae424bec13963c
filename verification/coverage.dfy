/** Merging Go coverage profiles. A profile is its lines; a record line prints and reads back as one
    block with a count. The merge is a fold over every record of every profile; its meaning is, per
    block, a commutative and associative join of that block's counts, so it depends neither on the
    order nor on the grouping of the profiles. */
module Coverage {
  import opened Prelude
  import opened Decimal
  import opened Sorting

  datatype Key = Key(file: string, startLine: int, startCol: int, endLine: int, endCol: int, stmts: int)

  datatype Record = Record(key: Key, count: int)

  datatype Mode = SetMode | CountMode | AtomicMode

  type Profile = seq<string>

  // ---------------------------------------------------------------------------
  // The record line
  // ---------------------------------------------------------------------------

  predicate InRange(n: int) { 0 <= n <= MAX_INT }

  /** The blocks a line can name: a non-empty file name on one line, numbers a machine int holds. */
  predicate Readable(k: Key) {
    && k.file != "" && '\n' !in k.file
    && InRange(k.startLine) && InRange(k.startCol) && InRange(k.endLine) && InRange(k.endCol) && InRange(k.stmts)
  }

  function PrintTail(k: Key, count: string): string
    requires Readable(k)
  {
    PrintNat(k.startLine) + ['.'] + (PrintNat(k.startCol) + [','] + (PrintNat(k.endLine) + ['.'] +
      (PrintNat(k.endCol) + [' '] + (PrintNat(k.stmts) + [' '] + count))))
  }

  function PrintRecord(r: Record): string
    requires Readable(r.key)
  {
    r.key.file + [':'] + PrintTail(r.key, PrintInt(r.count))
  }

  /** The position of the last colon, |s| when there is none. */
  function LastColon(s: string): (i: nat)
    ensures i <= |s|
    ensures i < |s| ==> s[i] == ':' && ':' !in s[i + 1..]
    ensures i == |s| ==> ':' !in s
  {
    if s == "" then 0
    else if s[|s| - 1] == ':' then |s| - 1
    else
      var i := LastColon(s[..|s| - 1]);
      if i == |s| - 1 then
        assert forall j :: 0 <= j < |s| - 1 ==> s[j] == s[..|s| - 1][j];
        |s|
      else
        assert s[i + 1..] == s[..|s| - 1][i + 1..] + [s[|s| - 1]];
        i
  }

  function ReadTail(file: string, tail: string): (r: Option<Record>)
    ensures r.Some? && file != "" && '\n' !in file ==> Readable(r.value.key) && InRange(r.value.count)
  {
    match ReadField(tail, '.')
    case None => None
    case Some((a, s1)) =>
      match ReadField(s1, ',')
      case None => None
      case Some((b, s2)) =>
        match ReadField(s2, '.')
        case None => None
        case Some((c, s3)) =>
          match ReadField(s3, ' ')
          case None => None
          case Some((d, s4)) =>
            match ReadField(s4, ' ')
            case None => None
            case Some((n, s5)) =>
              match Read(s5)
              case None => None
              case Some(count) => Some(Record(Key(file, a, b, c, d, n), count))
  }

  /** A record line: the file name is everything before the last colon, since no later field holds one. */
  function ReadRecord(line: string): (r: Option<Record>)
    ensures r.Some? ==> Readable(r.value.key) && InRange(r.value.count)
  {
    var i := LastColon(line);
    if i == 0 || i == |line| || '\n' in line[..i] then None else ReadTail(line[..i], line[i + 1..])
  }

  lemma TailHasNoColon(k: Key, count: string)
    requires Readable(k) && ':' !in count
    ensures ':' !in PrintTail(k, count)
  {
    var parts := [PrintNat(k.startLine), PrintNat(k.startCol), PrintNat(k.endLine), PrintNat(k.endCol), PrintNat(k.stmts)];
    forall i | 0 <= i < |parts| ensures ':' !in parts[i] {
      assert AllDigits(parts[i]);
    }
    assert ':' !in parts[0] && ':' !in parts[1] && ':' !in parts[2] && ':' !in parts[3] && ':' !in parts[4];
  }

  lemma ReadPrintedTail(k: Key, count: string)
    requires Readable(k)
    ensures ReadTail(k.file, PrintTail(k, count)) == if Read(count).Some? then Some(Record(k, Read(count).value)) else None
  {
    hide ReadField;
    var t4 := PrintNat(k.stmts) + [' '] + count;
    var t3 := PrintNat(k.endCol) + [' '] + t4;
    var t2 := PrintNat(k.endLine) + ['.'] + t3;
    var t1 := PrintNat(k.startCol) + [','] + t2;
    ReadPrintedField(k.startLine, '.', t1);
    ReadPrintedField(k.startCol, ',', t2);
    ReadPrintedField(k.endLine, '.', t3);
    ReadPrintedField(k.endCol, ' ', t4);
    ReadPrintedField(k.stmts, ' ', count);
  }

  lemma ReadPrintedCount(n: int)
    requires n <= MAX_INT
    ensures ':' !in PrintInt(n)
    ensures Read(PrintInt(n)) == if n >= 0 then Some(n) else None
  {
    if n >= 0 {
      ReadPrinted(n);
      assert AllDigits(PrintNat(n));
    } else {
      var s := PrintInt(n);
      assert s[0] == '-' && !IsDigit(s[0]);
      assert AllDigits(PrintNat(-n));
    }
  }

  lemma {:induction false} ColonSplits(file: string, tail: string)
    requires ':' !in tail
    ensures LastColon(file + [':'] + tail) == |file|
  {
    var s := file + [':'] + tail;
    if tail != "" {
      ColonSplits(file, tail[..|tail| - 1]);
      assert s[..|s| - 1] == file + [':'] + tail[..|tail| - 1];
      assert s[|s| - 1] == tail[|tail| - 1];
    }
  }

  /** RECORDS ROUND-TRIP: a printed record reads back as itself, exactly when its count is not
      negative; a negative one (a sum that wrapped) is no record line at all. */
  lemma PrintedRecordReadsBack(r: Record)
    requires Readable(r.key) && r.count <= MAX_INT
    ensures ReadRecord(PrintRecord(r)) == if r.count >= 0 then Some(r) else None
  {
    hide ReadTail, PrintTail, LastColon;
    var line := PrintRecord(r);
    var count := PrintInt(r.count);
    var tail := PrintTail(r.key, count);
    ReadPrintedCount(r.count);
    TailHasNoColon(r.key, count);
    ColonSplits(r.key.file, tail);
    assert line[..|r.key.file|] == r.key.file && line[|r.key.file| + 1..] == tail;
    ReadPrintedTail(r.key, count);
  }

  // ---------------------------------------------------------------------------
  // Counts
  // ---------------------------------------------------------------------------

  /** Two counts of one block: the larger in set mode, else the wrapped sum. */
  function Join(mode: Mode, a: Option<int>, b: Option<int>): Option<int> {
    if a.None? then b else if b.None? then a
    else if mode == SetMode then Some(if a.value >= b.value then a.value else b.value)
    else Some(Wrap(a.value + b.value))
  }

  predicate Word(a: Option<int>) { a.Some? ==> -MAX_INT - 1 <= a.value <= MAX_INT }

  lemma JoinLaws(mode: Mode, a: Option<int>, b: Option<int>, c: Option<int>)
    requires Word(a) && Word(b) && Word(c)
    ensures Join(mode, a, b) == Join(mode, b, a) && Word(Join(mode, a, b))
    ensures Join(mode, Join(mode, a, b), c) == Join(mode, a, Join(mode, b, c))
  {
    hide Wrap;
    if a.Some? && b.Some? && c.Some? {
      WrapTwice(a.value + b.value, c.value);
      WrapTwice(b.value + c.value, a.value);
    }
  }

  /** What a record says about a block. */
  function Says(r: Record, k: Key): Option<int> { if r.key == k then Some(r.count) else None }

  /** The join of everything the records say about a block. */
  function Total(mode: Mode, rs: seq<Record>, k: Key): Option<int> {
    if rs == [] then None else Join(mode, Total(mode, rs[..|rs| - 1], k), Says(rs[|rs| - 1], k))
  }

  predicate Words(rs: seq<Record>) { forall i :: 0 <= i < |rs| ==> -MAX_INT - 1 <= rs[i].count <= MAX_INT }

  lemma {:induction false} TotalIsWord(mode: Mode, rs: seq<Record>, k: Key)
    requires Words(rs)
    ensures Word(Total(mode, rs, k))
    ensures Total(mode, rs, k).Some? <==> exists i :: 0 <= i < |rs| && rs[i].key == k
  {
    if rs != [] {
      var n := |rs| - 1;
      TotalIsWord(mode, rs[..n], k);
      assert forall i :: 0 <= i < n ==> rs[i] == rs[..n][i];
    }
  }

  /** THE MERGE IS A HOMOMORPHISM PER BLOCK: the total of two groups is the join of their totals. */
  lemma {:induction false} TotalOfBoth(mode: Mode, a: seq<Record>, b: seq<Record>, k: Key)
    requires Words(a) && Words(b)
    ensures Total(mode, a + b, k) == Join(mode, Total(mode, a, k), Total(mode, b, k))
  {
    if b == [] {
      assert a + b == a;
    } else {
      var front, last := b[..|b| - 1], b[|b| - 1];
      var whole := a + b;
      assert whole[..|whole| - 1] == a + front && whole[|whole| - 1] == last;
      TotalOfBoth(mode, a, front, k);
      TotalIsWord(mode, a, k);
      TotalIsWord(mode, front, k);
      JoinLaws(mode, Total(mode, a, k), Total(mode, front, k), Says(last, k));
    }
  }

  /** The order of the records does not matter. */
  lemma {:induction false} TotalIgnoresOrder(mode: Mode, a: seq<Record>, b: seq<Record>, k: Key)
    requires Words(a) && Words(b) && multiset(a) == multiset(b)
    ensures Total(mode, a, k) == Total(mode, b, k)
  {
    hide Join, Says;
    assert |multiset(a)| == |multiset(b)|;
    if a != [] {
      var u, v := PullOut(a, b);
      var x := a[|a| - 1];
      WordsOf(u, x, v);
      TotalIgnoresOrder(mode, a[..|a| - 1], u + v, k);
      MoveToEnd(mode, u, x, v, k);
    }
  }

  lemma WordsOf(u: seq<Record>, x: Record, v: seq<Record>)
    requires Words(u + [x] + v)
    ensures Words(u) && Words([x]) && Words(v) && Words(u + v)
  {
    var b := u + [x] + v;
    forall i | 0 <= i < |u| ensures u[i] == b[i] {}
    assert b[|u|] == x;
    forall i | 0 <= i < |v| ensures v[i] == b[|u| + 1 + i] {}
  }

  lemma MoveToEnd(mode: Mode, u: seq<Record>, x: Record, v: seq<Record>, k: Key)
    requires Words(u) && Words([x]) && Words(v)
    ensures Total(mode, u + [x] + v, k) == Join(mode, Total(mode, u + v, k), Says(x, k))
  {
    assert [x][..0] == [] && [x][0] == x;
    assert Total(mode, [x], k) == Says(x, k);
    TotalIsWord(mode, u, k);
    TotalIsWord(mode, v, k);
    TotalOfBoth(mode, u + [x], v, k);
    TotalOfBoth(mode, u, [x], k);
    TotalOfBoth(mode, u, v, k);
    assert -MAX_INT - 1 <= [x][0].count <= MAX_INT;
    JoinSwaps(mode, Total(mode, u, k), Says(x, k), Total(mode, v, k));
  }

  lemma JoinSwaps(mode: Mode, a: Option<int>, b: Option<int>, c: Option<int>)
    requires Word(a) && Word(b) && Word(c)
    ensures Join(mode, Join(mode, a, b), c) == Join(mode, Join(mode, a, c), b)
  {
    hide Join;
    JoinLaws(mode, a, b, c);
    JoinLaws(mode, b, c, a);
    JoinLaws(mode, a, c, b);
  }

  /** A sum that never leaves the machine range is the plain sum. */
  function PlainSum(rs: seq<Record>, k: Key): int {
    if rs == [] then 0 else PlainSum(rs[..|rs| - 1], k) + if rs[|rs| - 1].key == k then rs[|rs| - 1].count else 0
  }

  ghost predicate IsGreatest(rs: seq<Record>, k: Key, n: int) {
    && (exists i :: 0 <= i < |rs| && rs[i] == Record(k, n))
    && (forall i :: 0 <= i < |rs| && rs[i].key == k ==> rs[i].count <= n)
  }

  /** What a total means in set mode: the greatest count any record gives the block. */
  lemma {:induction false} TotalIsGreatest(rs: seq<Record>, k: Key)
    requires Words(rs) && Total(SetMode, rs, k).Some?
    ensures IsGreatest(rs, k, Total(SetMode, rs, k).value)
  {
    var n := |rs| - 1;
    var front, last := rs[..n], rs[n];
    assert forall i :: 0 <= i < n ==> rs[i] == front[i];
    TotalIsWord(SetMode, front, k);
    if Total(SetMode, front, k).Some? {
      TotalIsGreatest(front, k);
      var i :| 0 <= i < n && front[i] == Record(k, Total(SetMode, front, k).value);
      assert rs[i] == front[i];
    }
  }

  /** What it means in the counting modes: the sum of the block's counts, wrapped to the machine word. */
  lemma {:induction false} TotalIsSum(mode: Mode, rs: seq<Record>, k: Key)
    requires Words(rs) && Total(mode, rs, k).Some? && mode != SetMode
    ensures Total(mode, rs, k).value == Wrap(PlainSum(rs, k))
  {
    var n := |rs| - 1;
    var front, last := rs[..n], rs[n];
    assert -MAX_INT - 1 <= last.count <= MAX_INT;
    if Total(mode, front, k).Some? {
      TotalIsSum(mode, front, k);
      WrapTwice(PlainSum(front, k), last.count);
    } else {
      NoneSums(mode, front, k);
    }
  }

  lemma {:induction false} NoneSums(mode: Mode, rs: seq<Record>, k: Key)
    requires Words(rs) && Total(mode, rs, k).None?
    ensures PlainSum(rs, k) == 0
  {
    if rs != [] {
      NoneSums(mode, rs[..|rs| - 1], k);
    }
  }

  // ---------------------------------------------------------------------------
  // Profiles
  // ---------------------------------------------------------------------------

  function StripCR(line: string): string {
    if line != "" && line[|line| - 1] == '\r' then StripCR(line[..|line| - 1]) else line
  }

  function ModeLine(mode: Mode): string {
    match mode case SetMode => "mode: set" case CountMode => "mode: count" case AtomicMode => "mode: atomic"
  }

  function ReadMode(line: string): Option<Mode> {
    if line == ModeLine(SetMode) then Some(SetMode)
    else if line == ModeLine(CountMode) then Some(CountMode)
    else if line == ModeLine(AtomicMode) then Some(AtomicMode)
    else None
  }

  /** Carriage returns at the end of a line do not count, and the three headers are the only ones. */
  lemma LinesAndHeaders(line: string)
    ensures StripCR(line + ['\r']) == StripCR(line)
    ensures line == "" || line[|line| - 1] != '\r' ==> StripCR(line) == line
    ensures ReadMode(line).Some? <==> line == "mode: set" || line == "mode: count" || line == "mode: atomic"
  {
    assert (line + ['\r'])[..|line|] == line;
  }

  /** A profile as far as it was read: its mode once the header came, and its records. */
  datatype Reading = Reading(mode: Option<Mode>, records: seq<Record>)

  function ReadLine(so: Reading, raw: string): Option<Reading> {
    var line := StripCR(raw);
    if Blank(line) then Some(so)
    else if so.mode.None? then
      (match ReadMode(line) case None => None case Some(m) => Some(so.(mode := Some(m))))
    else
      match ReadRecord(line) case None => None case Some(r) => Some(so.(records := so.records + [r]))
  }

  function ReadLines(p: Profile): Option<Reading> {
    if p == [] then Some(Reading(None, [])) else
    match ReadLines(p[..|p| - 1])
    case None => None
    case Some(so) => ReadLine(so, p[|p| - 1])
  }

  /** A prefix of a readable profile is readable, and a header once read stays. */
  lemma {:induction false} PrefixReads(p: Profile, k: nat)
    requires k <= |p| && ReadLines(p).Some?
    ensures ReadLines(p[..k]).Some?
    ensures ReadLines(p[..k]).value.mode.Some? ==> ReadLines(p).value.mode == ReadLines(p[..k]).value.mode
  {
    if k == |p| {
      assert p[..k] == p;
    } else {
      PrefixReads(p[..|p| - 1], k);
      assert p[..|p| - 1][..k] == p[..k];
    }
  }

  predicate BlankLine(raw: string) { Blank(StripCR(raw)) }

  /** The first line that is not blank. */
  ghost predicate FirstLine(p: Profile, i: int) {
    0 <= i < |p| && !BlankLine(p[i]) && forall j :: 0 <= j < i ==> BlankLine(p[j])
  }

  /** A profile as its format defines it: blank lines aside, a mode header first and nothing but records
      after it. */
  ghost predicate HasHeader(p: Profile, h: int, mode: Mode) {
    && 0 <= h < |p| && (forall i :: 0 <= i < h ==> BlankLine(p[i]))
    && !BlankLine(p[h]) && ReadMode(StripCR(p[h])) == Some(mode)
    && (forall i :: h < i < |p| && !BlankLine(p[i]) ==> ReadRecord(StripCR(p[i])).Some?)
  }

  /** THE READER READS THE FORMAT: a profile has a mode exactly when it has that header, and its records are
      those of the lines after it. */
  lemma {:induction false} ReadsTheFormat(p: Profile)
    ensures forall mode :: ModeOf(p) == Some(mode) <==> exists h :: HasHeader(p, h, mode)
    ensures ReadLines(p).Some? && ModeOf(p).None? <==> forall i :: 0 <= i < |p| ==> BlankLine(p[i])
    ensures forall h, mode, r :: HasHeader(p, h, mode) ==>
      (r in RecordsOf(p) <==> exists i :: h < i < |p| && !BlankLine(p[i]) && ReadRecord(StripCR(p[i])) == Some(r))
    ensures ModeOf(p).None? ==> RecordsOf(p) == []
  {
    hide ReadMode, ReadRecord, StripCR, Blank;
    if p != [] {
      var n := |p| - 1;
      var front := p[..n];
      ReadsTheFormat(front);
      assert forall i :: 0 <= i < n ==> front[i] == p[i];
      forall mode ensures ModeOf(p) == Some(mode) <==> exists h :: HasHeader(p, h, mode) {
        FormatStep(p, mode);
      }
      forall h, mode, r | HasHeader(p, h, mode)
        ensures r in RecordsOf(p) <==> exists i :: h < i < |p| && !BlankLine(p[i]) && ReadRecord(StripCR(p[i])) == Some(r)
      {
        if h < n {
          assert HasHeader(front, h, mode);
          assert forall i :: h < i < n ==> front[i] == p[i];
        }
        RecordsStep(p, h, mode, r);
      }
    }
  }

  lemma RecordsStep(p: Profile, h: int, mode: Mode, r: Record)
    requires p != [] && HasHeader(p, h, mode) && ModeOf(p) == Some(mode)
    requires h < |p| - 1 ==> ModeOf(p[..|p| - 1]) == Some(mode)
    requires h < |p| - 1 ==>
      (r in RecordsOf(p[..|p| - 1]) <==> exists i :: h < i < |p| - 1 && !BlankLine(p[i]) && ReadRecord(StripCR(p[i])) == Some(r))
    requires h == |p| - 1 ==> RecordsOf(p[..|p| - 1]) == [] && ModeOf(p[..|p| - 1]).None?
    ensures r in RecordsOf(p) <==> exists i :: h < i < |p| && !BlankLine(p[i]) && ReadRecord(StripCR(p[i])) == Some(r)
  {
    hide ReadMode, ReadRecord, StripCR, Blank;
    var n := |p| - 1;
    if h < n && !BlankLine(p[n]) {
      assert RecordsOf(p) == RecordsOf(p[..n]) + [ReadRecord(StripCR(p[n])).value];
    }
  }

  lemma FormatStep(p: Profile, mode: Mode)
    requires p != []
    requires var front := p[..|p| - 1];
      && (forall m :: ModeOf(front) == Some(m) <==> exists h :: HasHeader(front, h, m))
      && (ReadLines(front).Some? && ModeOf(front).None? <==> forall i :: 0 <= i < |front| ==> BlankLine(front[i]))
    ensures ModeOf(p) == Some(mode) <==> exists h :: HasHeader(p, h, mode)
  {
    hide ReadMode, ReadRecord, StripCR, Blank;
    var n := |p| - 1;
    var front := p[..n];
    assert forall i :: 0 <= i < n ==> front[i] == p[i];
    if ModeOf(p) == Some(mode) {
      if ModeOf(front).Some? {
        var h :| HasHeader(front, h, mode);
        assert HasHeader(p, h, mode);
      } else {
        assert HasHeader(p, n, mode);
      }
    }
    if h :| HasHeader(p, h, mode) {
      if h < n {
        assert HasHeader(front, h, mode);
      }
    }
  }

  function RecordsOf(p: Profile): seq<Record> { if ReadLines(p).Some? then ReadLines(p).value.records else [] }

  function ModeOf(p: Profile): Option<Mode> { if ReadLines(p).Some? then ReadLines(p).value.mode else None }

  function AllRecords(ps: seq<Profile>): seq<Record> {
    if ps == [] then [] else AllRecords(ps[..|ps| - 1]) + RecordsOf(ps[|ps| - 1])
  }

  /** Every profile reads, all in one mode, with a record somewhere. */
  ghost predicate Mergeable(ps: seq<Profile>, mode: Mode) {
    && (forall i :: 0 <= i < |ps| ==> ModeOf(ps[i]) == Some(mode))
    && AllRecords(ps) != []
  }

  predicate AllReadable(rs: seq<Record>) { forall i :: 0 <= i < |rs| ==> Readable(rs[i].key) }

  predicate GoodRecords(rs: seq<Record>) {
    AllReadable(rs) && forall i :: 0 <= i < |rs| ==> InRange(rs[i].count)
  }

  lemma {:induction false} ReadsGood(p: Profile)
    requires ReadLines(p).Some?
    ensures GoodRecords(ReadLines(p).value.records)
  {
    hide ReadRecord, Readable, StripCR, Blank, ReadMode;
    if p != [] {
      ReadsGood(p[..|p| - 1]);
    }
  }

  lemma {:induction false} AllGood(ps: seq<Profile>)
    ensures GoodRecords(AllRecords(ps)) && Words(AllRecords(ps))
  {
    if ps != [] {
      AllGood(ps[..|ps| - 1]);
      if ReadLines(ps[|ps| - 1]).Some? { ReadsGood(ps[|ps| - 1]); }
    }
  }

  // ---------------------------------------------------------------------------
  // The merge
  // ---------------------------------------------------------------------------

  predicate LessKey(a: Key, b: Key) {
    if a.file != b.file then LessString(a.file, b.file)
    else if a.startLine != b.startLine then a.startLine < b.startLine
    else if a.startCol != b.startCol then a.startCol < b.startCol
    else if a.endLine != b.endLine then a.endLine < b.endLine
    else if a.endCol != b.endCol then a.endCol < b.endCol
    else a.stmts < b.stmts
  }

  lemma KeyOrder()
    ensures TotalOrder(LessKey)
  {
    StringOrder();
    forall x, y ensures x == y || LessKey(x, y) || LessKey(y, x) {
      assert multiset{x.file, y.file}[x.file] > 0;
      StringTotal(x.file, y.file);
    }
    forall x, y, z | LessKey(x, y) && LessKey(y, z) ensures LessKey(x, z) {
      if LessString(x.file, y.file) && LessString(y.file, z.file) { StringTransitive(x.file, y.file, z.file); }
      StringTotal(x.file, z.file);
      StringTotal(x.file, y.file);
      StringTotal(y.file, z.file);
    }
  }

  /** The merge so far: the count of each block, the blocks in order of appearance, and how many
      records named a block already seen. */
  datatype Tally = Tally(blocks: map<Key, int>, order: seq<Key>, overlapping: nat)

  function AddRecord(mode: Mode, t: Tally, r: Record): Tally {
    if r.key in t.blocks then
      var was := t.blocks[r.key];
      var now := if mode == SetMode then (if was >= r.count then was else r.count) else Wrap(was + r.count);
      Tally(t.blocks[r.key := now], t.order, t.overlapping + 1)
    else
      Tally(t.blocks[r.key := r.count], t.order + [r.key], t.overlapping)
  }

  function TallyOf(mode: Mode, rs: seq<Record>): Tally {
    if rs == [] then Tally(map[], [], 0) else AddRecord(mode, TallyOf(mode, rs[..|rs| - 1]), rs[|rs| - 1])
  }

  /** The fold's books: each block's count is the join of its records, each block is listed once, and
      overlaps plus blocks make the records. */
  ghost predicate Books(mode: Mode, rs: seq<Record>, t: Tally) {
    && Distinct(t.order)
    && (forall k :: k in t.order <==> k in t.blocks)
    && (forall k :: Total(mode, rs, k) == if k in t.blocks then Some(t.blocks[k]) else None)
    && t.overlapping + |t.order| == |rs|
  }

  lemma BooksOfOneMore(mode: Mode, rs: seq<Record>, r: Record, t: Tally)
    requires Books(mode, rs, t)
    ensures Books(mode, rs + [r], AddRecord(mode, t, r))
  {
    hide Wrap;
    var t' := AddRecord(mode, t, r);
    var all := rs + [r];
    assert all[..|all| - 1] == rs && all[|all| - 1] == r;
    forall k ensures Total(mode, all, k) == if k in t'.blocks then Some(t'.blocks[k]) else None {
      assert Total(mode, all, k) == Join(mode, Total(mode, rs, k), Says(r, k));
    }
    assert forall k :: k in t'.order <==> k in t.order || (r.key !in t.blocks && k == r.key);
  }

  lemma {:induction false} TallyCounts(mode: Mode, rs: seq<Record>)
    ensures Books(mode, rs, TallyOf(mode, rs))
  {
    if rs != [] {
      var n := |rs| - 1;
      TallyCounts(mode, rs[..n]);
      BooksOfOneMore(mode, rs[..n], rs[n], TallyOf(mode, rs[..n]));
      assert rs[..n] + [rs[n]] == rs;
    }
  }

  /** What a merge of records is, whatever computed it: one record per block, strictly in block order,
      with the block's total. */
  ghost predicate IsMerge(mode: Mode, rs: seq<Record>, merged: seq<Record>) {
    && (forall i, j :: 0 <= i < j < |merged| ==> LessKey(merged[i].key, merged[j].key))
    && (forall i :: 0 <= i < |merged| ==> Total(mode, rs, merged[i].key) == Some(merged[i].count))
    && (forall k :: Total(mode, rs, k).Some? ==> exists i :: 0 <= i < |merged| && merged[i].key == k)
  }

  function Keys(rs: seq<Record>): (ks: seq<Key>)
    ensures |ks| == |rs| && forall i :: 0 <= i < |rs| ==> ks[i] == rs[i].key
  {
    seq(|rs|, i requires 0 <= i < |rs| => rs[i].key)
  }

  /** A merge is determined by the block totals. */
  lemma MergeIsUnique(mode: Mode, a: seq<Record>, b: seq<Record>, ma: seq<Record>, mb: seq<Record>)
    requires IsMerge(mode, a, ma) && IsMerge(mode, b, mb)
    requires forall k :: Total(mode, a, k) == Total(mode, b, k)
    ensures ma == mb
  {
    hide Total, LessKey;
    var ka, kb := Keys(ma), Keys(mb);
    KeyOrder();
    StrictIsDistinct(LessKey, ka);
    StrictIsDistinct(LessKey, kb);
    forall k ensures k in ka <==> k in kb {
      if k in ka {
        var i :| 0 <= i < |ka| && ka[i] == k;
        assert Total(mode, b, ma[i].key).Some?;
      }
      if k in kb {
        var i :| 0 <= i < |kb| && kb[i] == k;
        assert Total(mode, a, mb[i].key).Some?;
      }
    }
    SameElements(ka, kb);
    SortedIsUnique(LessKey, ka, kb);
    forall i | 0 <= i < |ma| ensures ma[i] == mb[i] {
      assert ka[i] == kb[i];
    }
  }

  /** The order of the merged blocks: by file, then by where the block starts, then by where it ends. */
  lemma MergedByPlace(mode: Mode, rs: seq<Record>, merged: seq<Record>, i: nat, j: nat)
    requires IsMerge(mode, rs, merged) && i < j < |merged|
    ensures var a, b := merged[i].key, merged[j].key;
      && (a.file == b.file || LessString(a.file, b.file))
      && (a.file == b.file ==> a.startLine <= b.startLine)
      && (a.file == b.file && a.startLine == b.startLine ==> a.startCol <= b.startCol)
      && (a.file == b.file && a.startLine == b.startLine && a.startCol == b.startCol ==> a.endLine <= b.endLine)
      && (a.(endCol := 0, stmts := 0) == b.(endCol := 0, stmts := 0) ==> a.endCol <= b.endCol)
  {
    assert LessKey(merged[i].key, merged[j].key);
  }

  datatype CoverError = FirstLineNotMode | ModesDiffer | NotARecord | NoModeHeader | NoRecords

  datatype Merged = Merged(mode: Mode, records: seq<Record>, shards: nat, overlapping: nat)

  /** The merged document, line by line. */
  function Document(mode: Mode, records: seq<Record>): (p: Profile)
    requires AllReadable(records)
    ensures |p| == |records| + 1
  {
    if records == [] then [ModeLine(mode)]
    else Document(mode, records[..|records| - 1]) + [PrintRecord(records[|records| - 1])]
  }

  /** The records of the sorted blocks are a merge. */
  lemma SortedTallyIsMerge(mode: Mode, rs: seq<Record>, t: Tally, keys: seq<Key>, merged: seq<Record>)
    requires Books(mode, rs, t) && keys == Sort(LessKey, t.order) && |merged| == |keys|
    requires forall i :: 0 <= i < |keys| ==> keys[i] in t.blocks && merged[i] == Record(keys[i], t.blocks[keys[i]])
    ensures IsMerge(mode, rs, merged)
  {
    hide Total, LessKey, Weak, Separates, Distinct, Sort;
    KeyOrder();
    SortIsStrict(LessKey, t.order);
    forall k | Total(mode, rs, k).Some? ensures exists i :: 0 <= i < |merged| && merged[i].key == k {
      assert k in t.order;
      assert k in multiset(t.order) && k in multiset(keys) && k in keys;
      var i :| 0 <= i < |keys| && keys[i] == k;
      assert merged[i].key == k;
    }
  }

  lemma KeysAreBlocks(mode: Mode, rs: seq<Record>, t: Tally)
    requires Books(mode, rs, t)
    ensures var keys := Sort(LessKey, t.order); |keys| == |t.order| && forall i :: 0 <= i < |keys| ==> keys[i] in t.blocks
  {
    hide LessKey, Total, Sort;
    var keys := Sort(LessKey, t.order);
    assert |multiset(keys)| == |multiset(t.order)|;
    forall i | 0 <= i < |keys| ensures keys[i] in t.blocks {
      assert keys[i] in multiset(keys) && keys[i] in multiset(t.order) && keys[i] in t.order;
    }
  }

  /** The blocks of a tally, sorted, with their counts. */
  method Arrange(t: Tally, ghost mode: Mode, ghost rs: seq<Record>) returns (merged: seq<Record>)
    requires Books(mode, rs, t)
    ensures IsMerge(mode, rs, merged) && |merged| == |t.order|
  {
    hide Books, LessKey, Sort, IsMerge;
    var keys := Sort(LessKey, t.order);
    KeysAreBlocks(mode, rs, t);
    merged := [];
    for i := 0 to |keys|
      invariant |merged| == i
      invariant forall j :: 0 <= j < i ==> merged[j] == Record(keys[j], t.blocks[keys[j]])
    {
      merged := merged + [Record(keys[i], t.blocks[keys[i]])];
    }
    SortedTallyIsMerge(mode, rs, t, keys, merged);
  }

  lemma ReadNothing(p: Profile)
    ensures ReadLines(p[..0]) == Some(Reading(None, []))
  {
  }

  lemma ReadOneMore(p: Profile, i: nat)
    requires i < |p|
    ensures ReadLines(p[..i]).Some? ==> ReadLines(p[..i + 1]) == ReadLine(ReadLines(p[..i]).value, p[i])
  {
    assert p[..i + 1][..i] == p[..i] && p[..i + 1][i] == p[i];
  }

  lemma TallyOfOneMore(mode: Mode, rs: seq<Record>, r: Record)
    ensures TallyOf(mode, rs + [r]) == AddRecord(mode, TallyOf(mode, rs), r)
  {
    var all := rs + [r];
    assert all[..|all| - 1] == rs;
  }

  /** One profile added to the tally, line by line; `mode` is the mode of the profiles before it. */
  method AddProfile(p: Profile, mode: Option<Mode>, tally: Tally, ghost rs: seq<Record>)
    returns (r: Result<(Mode, Tally), CoverError>)
    requires mode.Some? ==> tally == TallyOf(mode.value, rs)
    requires mode.None? ==> rs == [] && tally == Tally(map[], [], 0)
    ensures r.Ok? <==> ModeOf(p).Some? && (mode.Some? ==> mode == ModeOf(p))
    ensures r.Ok? ==> Some(r.value.0) == ModeOf(p) && r.value.1 == TallyOf(r.value.0, rs + RecordsOf(p))
    // What each refusal means.
    ensures r == Err(NoModeHeader) <==> forall i :: 0 <= i < |p| ==> BlankLine(p[i])
    ensures r == Err(FirstLineNotMode) ==> exists i :: FirstLine(p, i) && ReadMode(StripCR(p[i])).None?
    ensures r == Err(ModesDiffer) ==> mode.Some? && exists i :: FirstLine(p, i) && ReadMode(StripCR(p[i])).Some? && ReadMode(StripCR(p[i])) != mode
    ensures r == Err(NotARecord) ==> exists i :: 0 <= i < |p| && !BlankLine(p[i]) && !FirstLine(p, i) && ReadRecord(StripCR(p[i])).None?
    ensures r != Err(NoRecords)
  {
    hide ReadLines, TallyOf, AddRecord, ReadRecord, ReadMode, StripCR, Blank;
    var sawMode, m, t := false, mode, tally;
    ghost var recs: seq<Record> := [];
    ReadNothing(p);
    assert rs + [] == rs;
    for i := 0 to |p|
      invariant ReadLines(p[..i]) == Some(Reading(if sawMode then m else None, recs))
      invariant sawMode ==> m.Some? && (mode.Some? ==> mode == m)
      invariant !sawMode ==> m == mode && t == tally && recs == []
      invariant sawMode <==> exists j :: 0 <= j < i && !BlankLine(p[j])
      invariant sawMode ==> t == TallyOf(m.value, rs + recs)
    {
      ReadOneMore(p, i);
      if ReadLines(p).Some? { PrefixReads(p, i + 1); }
      var line := StripCR(p[i]);
      if Blank(line) {
        continue;
      }
      if !sawMode {
        var read := ReadMode(line);
        assert FirstLine(p, i);
        if read.None? {
          return Err(FirstLineNotMode);
        }
        if m.Some? && m != read {
          return Err(ModesDiffer);
        }
        m, sawMode := read, true;
        TallyOfNothing(m.value);
        continue;
      }
      var record := ReadRecord(line);
      if record.None? {
        return Err(NotARecord);
      }
      t := AddRecord(m.value, t, record.value);
      TallyOfOneMore(m.value, rs + recs, record.value);
      assert rs + recs + [record.value] == rs + (recs + [record.value]);
      recs := recs + [record.value];
    }
    assert p[..|p|] == p;
    if !sawMode {
      return Err(NoModeHeader);
    }
    return Ok((m.value, t));
  }

  lemma TallyOfNothing(mode: Mode)
    ensures TallyOf(mode, []) == Tally(map[], [], 0)
  {
  }

  /** The merge of Go coverage profiles. */
  method MergeCoverage(ps: seq<Profile>) returns (r: Result<Merged, CoverError>)
    ensures r.Ok? ==> Mergeable(ps, r.value.mode) && IsMerge(r.value.mode, AllRecords(ps), r.value.records)
    ensures r.Ok? ==> r.value.overlapping + |r.value.records| == |AllRecords(ps)| && r.value.shards == |ps|
    ensures r.Err? ==> forall mode :: !Mergeable(ps, mode)
    ensures r == Err(NoRecords) <==> AllRecords(ps) == [] && forall i :: 0 <= i < |ps| ==> ModeOf(ps[i]).Some? && ModeOf(ps[i]) == ModeOf(ps[0])
  {
    hide ReadLines, TallyOf, Books, IsMerge;
    var mode: Option<Mode> := None;
    var tally := Tally(map[], [], 0);
    assert ps[..0] == [];
    for i := 0 to |ps|
      invariant mode.None? <==> i == 0
      invariant mode.None? ==> tally == Tally(map[], [], 0)
      invariant mode.Some? ==> tally == TallyOf(mode.value, AllRecords(ps[..i]))
      invariant forall j :: 0 <= j < i ==> ModeOf(ps[j]) == mode
    {
      var added := AddProfile(ps[i], mode, tally, AllRecords(ps[..i]));
      if added.Err? {
        assert mode.Some? ==> i > 0;
        return Err(added.error);
      }
      assert ps[..i + 1][..i] == ps[..i];
      mode, tally := Some(added.value.0), added.value.1;
    }
    assert ps[..|ps|] == ps;
    if tally.order == [] {
      if mode.Some? { NoBlocksNoRecords(mode.value, AllRecords(ps)); }
      return Err(NoRecords);
    }
    TallyCounts(mode.value, AllRecords(ps));
    var merged := Arrange(tally, mode.value, AllRecords(ps));
    return Ok(Merged(mode.value, merged, |ps|, tally.overlapping));
  }

  lemma NoBlocksNoRecords(mode: Mode, rs: seq<Record>)
    requires TallyOf(mode, rs).order == []
    ensures rs == []
  {
    if rs != [] {
      TallyCounts(mode, rs);
      AlwaysTotal(mode, rs);
    }
  }

  lemma AlwaysTotal(mode: Mode, rs: seq<Record>)
    requires rs != []
    ensures Total(mode, rs, rs[|rs| - 1].key).Some?
  {
  }

  // ---------------------------------------------------------------------------
  // Order, grouping, and merging a merge
  // ---------------------------------------------------------------------------

  /** ANY ORDER, ANY CUT: two sets of profiles holding the same records in one mode merge to the same
      document. */
  lemma MergeIgnoresOrder(mode: Mode, ps: seq<Profile>, qs: seq<Profile>, mp: seq<Record>, mq: seq<Record>)
    requires multiset(AllRecords(ps)) == multiset(AllRecords(qs))
    requires IsMerge(mode, AllRecords(ps), mp) && IsMerge(mode, AllRecords(qs), mq)
    ensures mp == mq
  {
    AllGood(ps);
    AllGood(qs);
    forall k ensures Total(mode, AllRecords(ps), k) == Total(mode, AllRecords(qs), k) {
      TotalIgnoresOrder(mode, AllRecords(ps), AllRecords(qs), k);
    }
    MergeIsUnique(mode, AllRecords(ps), AllRecords(qs), mp, mq);
  }

  /** What a merge says about a block is what its records said. */
  lemma {:induction false} TotalOfSeparate(mode: Mode, rs: seq<Record>, k: Key)
    requires forall i, j :: 0 <= i < j < |rs| ==> rs[i].key != rs[j].key
    ensures forall i :: 0 <= i < |rs| && rs[i].key == k ==> Total(mode, rs, k) == Some(rs[i].count)
    ensures (forall i :: 0 <= i < |rs| ==> rs[i].key != k) ==> Total(mode, rs, k).None?
  {
    if rs != [] {
      var n := |rs| - 1;
      var front, last := rs[..n], rs[n];
      TotalOfSeparate(mode, front, k);
      assert forall i :: 0 <= i < n ==> front[i] == rs[i];
      if last.key == k {
        assert forall i :: 0 <= i < n ==> front[i].key != k;
      }
    }
  }

  lemma MergeKeepsTotals(mode: Mode, rs: seq<Record>, merged: seq<Record>, k: Key)
    requires IsMerge(mode, rs, merged)
    ensures Total(mode, merged, k) == Total(mode, rs, k)
  {
    KeyOrder();
    TotalOfSeparate(mode, merged, k);
    if Total(mode, rs, k).Some? {
      var i :| 0 <= i < |merged| && merged[i].key == k;
      assert Total(mode, merged, k) == Some(merged[i].count);
    }
  }

  predicate NoneWrapped(records: seq<Record>) {
    forall i :: 0 <= i < |records| ==> records[i].count >= 0
  }

  predicate AtMostMax(records: seq<Record>) { forall i :: 0 <= i < |records| ==> records[i].count <= MAX_INT }

  /** A document reads back as its own records, exactly when none of its counts wrapped below zero. */
  lemma {:induction false} DocumentReadsBack(mode: Mode, records: seq<Record>)
    requires AllReadable(records) && AtMostMax(records)
    ensures ReadLines(Document(mode, records)) == if NoneWrapped(records) then Some(Reading(Some(mode), records)) else None
  {
    hide ReadLine, PrintRecord, Readable;
    var doc := Document(mode, records);
    if records == [] {
      HeaderReads(mode);
      assert doc[..0] == [];
    } else {
      var n := |records| - 1;
      var front := records[..n];
      DocumentReadsBack(mode, front);
      assert doc[..|doc| - 1] == Document(mode, front);
      RecordLineReads(mode, front, records[n]);
      assert records == front + [records[n]];
      assert NoneWrapped(records) <==> NoneWrapped(front) && records[n].count >= 0;
    }
  }

  lemma HeaderReads(mode: Mode)
    ensures ReadLine(Reading(None, []), ModeLine(mode)) == Some(Reading(Some(mode), []))
  {
    var line := ModeLine(mode);
    assert !IsSpace(line[0]);
    assert StripCR(line) == line;
  }

  lemma RecordLineReads(mode: Mode, so: seq<Record>, r: Record)
    requires Readable(r.key) && r.count <= MAX_INT
    ensures ReadLine(Reading(Some(mode), so), PrintRecord(r)) ==
      if r.count >= 0 then Some(Reading(Some(mode), so + [r])) else None
  {
    hide ReadRecord, PrintRecord;
    var line := PrintRecord(r);
    EndsInDigit(r);
    assert StripCR(line) == line;
    assert !IsSpace(line[|line| - 1]);
    PrintedRecordReadsBack(r);
  }

  lemma EndsInDigit(r: Record)
    requires Readable(r.key)
    ensures PrintRecord(r) != "" && IsDigit(PrintRecord(r)[|PrintRecord(r)| - 1])
  {
    var count := PrintInt(r.count);
    assert IsDigit(count[|count| - 1]) by {
      var digits := PrintNat(if r.count < 0 then -r.count else r.count);
      assert count[|count| - 1] == digits[|digits| - 1];
    }
    var head := r.key.file + [':'] + (PrintNat(r.key.startLine) + ['.'] + (PrintNat(r.key.startCol) + [','] +
      (PrintNat(r.key.endLine) + ['.'] + (PrintNat(r.key.endCol) + [' '] + (PrintNat(r.key.stmts) + [' '])))));
    assert PrintRecord(r) == head + count;
  }

  /** The records of a merge are readable machine words. */
  lemma MergedAreReadable(mode: Mode, rs: seq<Record>, merged: seq<Record>)
    requires IsMerge(mode, rs, merged) && GoodRecords(rs) && Words(rs)
    ensures AllReadable(merged) && AtMostMax(merged)
  {
    forall i | 0 <= i < |merged| ensures Readable(merged[i].key) && merged[i].count <= MAX_INT {
      TotalIsWord(mode, rs, merged[i].key);
    }
  }

  function Concat<T>(ss: seq<seq<T>>): seq<T> {
    if ss == [] then [] else Concat(ss[..|ss| - 1]) + ss[|ss| - 1]
  }

  lemma {:induction false} AllRecordsOfBoth(ps: seq<Profile>, qs: seq<Profile>)
    ensures AllRecords(ps + qs) == AllRecords(ps) + AllRecords(qs)
  {
    hide RecordsOf;
    if qs == [] {
      assert ps + qs == ps;
    } else {
      var whole := ps + qs;
      var front := qs[..|qs| - 1];
      assert whole[..|whole| - 1] == ps + front && whole[|whole| - 1] == qs[|qs| - 1];
      AllRecordsOfBoth(ps, front);
    }
  }

  /** `doc` is the document of a group's merge, in which no sum wrapped. */
  ghost predicate IsDocumentOf(mode: Mode, group: seq<Profile>, merged: seq<Record>, doc: Profile) {
    IsMerge(mode, AllRecords(group), merged) && GoodRecords(merged) && doc == Document(mode, merged)
  }

  /** Every group's document, and what they say together about a block. */
  lemma {:induction false} GroupTotals(mode: Mode, groups: seq<seq<Profile>>, merges: seq<seq<Record>>, docs: seq<Profile>, k: Key)
    requires |groups| == |merges| == |docs|
    requires forall g :: 0 <= g < |groups| ==> IsDocumentOf(mode, groups[g], merges[g], docs[g])
    ensures Total(mode, AllRecords(docs), k) == Total(mode, AllRecords(Concat(groups)), k)
  {
    if groups != [] {
      var n := |groups| - 1;
      GroupTotals(mode, groups[..n], merges[..n], docs[..n], k);
      DocumentReadsBack(mode, merges[n]);
      AllRecordsOfBoth(Concat(groups[..n]), groups[n]);
      AllGood(docs[..n]);
      AllGood(Concat(groups[..n]));
      AllGood(groups[n]);
      TotalOfBoth(mode, AllRecords(docs[..n]), merges[n], k);
      TotalOfBoth(mode, AllRecords(Concat(groups[..n])), AllRecords(groups[n]), k);
      MergeKeepsTotals(mode, AllRecords(groups[n]), merges[n], k);
    }
  }

  /** MERGING MERGES: merging the groups' documents gives, record for record, the merge of everything at
      once, when no group's sum wrapped. With one group: merging a merge reproduces it. */
  lemma MergeOfMerges(mode: Mode, groups: seq<seq<Profile>>, merges: seq<seq<Record>>, docs: seq<Profile>,
                      outer: seq<Record>, direct: seq<Record>)
    requires |groups| == |merges| == |docs|
    requires forall g :: 0 <= g < |groups| ==> IsDocumentOf(mode, groups[g], merges[g], docs[g])
    requires IsMerge(mode, AllRecords(docs), outer) && IsMerge(mode, AllRecords(Concat(groups)), direct)
    ensures outer == direct
  {
    forall k ensures Total(mode, AllRecords(docs), k) == Total(mode, AllRecords(Concat(groups)), k) {
      GroupTotals(mode, groups, merges, docs, k);
    }
    MergeIsUnique(mode, AllRecords(docs), AllRecords(Concat(groups)), outer, direct);
  }

  /** A condition on the profiles alone: in the counting modes no block's counts add up to a sum whose low
      64 bits are a negative word. In set mode it always holds. */
  predicate NoSumWraps(mode: Mode, rs: seq<Record>) {
    mode == SetMode || forall i :: 0 <= i < |rs| ==> Wrap(PlainSum(rs, rs[i].key)) >= 0
  }

  /** The merged counts are free of wrapped ones exactly when the input's sums are. */
  lemma WrappedIffASumWraps(mode: Mode, rs: seq<Record>, merged: seq<Record>)
    requires GoodRecords(rs) && Words(rs) && IsMerge(mode, rs, merged)
    ensures NoneWrapped(merged) <==> NoSumWraps(mode, rs)
  {
    hide Wrap, PlainSum, Total, Readable;
    forall i | 0 <= i < |merged|
      ensures exists j :: 0 <= j < |rs| && rs[j].key == merged[i].key
      ensures mode == SetMode ==> merged[i].count >= 0
      ensures mode != SetMode ==> merged[i].count == Wrap(PlainSum(rs, merged[i].key))
    {
      TotalIsWord(mode, rs, merged[i].key);
      if mode == SetMode { TotalIsGreatest(rs, merged[i].key); } else { TotalIsSum(mode, rs, merged[i].key); }
    }
    forall j | 0 <= j < |rs| ensures exists i :: 0 <= i < |merged| && merged[i].key == rs[j].key {
      TotalIsWord(mode, rs, rs[j].key);
    }
  }

  /** MERGING A MERGE AGAIN: the merged document is a mergeable profile exactly when no block's sum in the
      profiles wrapped below zero, and merging it then reproduces it line for line. */
  lemma MergeIsIdempotent(mode: Mode, ps: seq<Profile>, merged: seq<Record>)
    requires Mergeable(ps, mode) && IsMerge(mode, AllRecords(ps), merged)
    ensures AllReadable(merged)
    ensures Mergeable([Document(mode, merged)], mode) <==> NoSumWraps(mode, AllRecords(ps))
    ensures NoneWrapped(merged) <==> NoSumWraps(mode, AllRecords(ps))
    ensures forall again :: NoneWrapped(merged) && IsMerge(mode, AllRecords([Document(mode, merged)]), again) ==> again == merged
  {
    hide ReadLines, Total, Document, Readable, NoSumWraps;
    AllGood(ps);
    WrappedIffASumWraps(mode, AllRecords(ps), merged);
    MergedAreReadable(mode, AllRecords(ps), merged);
    var doc := Document(mode, merged);
    DocumentReadsBack(mode, merged);
    assert [doc][..0] == [] && AllRecords([doc][..0]) == [];
    assert NoneWrapped(merged) ==> AllRecords([doc]) == merged;
    NonEmptyMerge(mode, AllRecords(ps), merged);
    forall again | NoneWrapped(merged) && IsMerge(mode, AllRecords([doc]), again) ensures again == merged {
      forall k ensures Total(mode, merged, k) == Total(mode, AllRecords(ps), k) {
        MergeKeepsTotals(mode, AllRecords(ps), merged, k);
      }
      MergeIsUnique(mode, merged, AllRecords(ps), again, merged);
    }
    assert ModeOf([doc][0]) == ModeOf(doc);
  }

  /** The profile of one block with one count. */
  function OneBlock(k: Key, count: int): Profile
    requires Readable(k)
  {
    Document(CountMode, [Record(k, count)])
  }

  lemma OneBlockReads(k: Key, count: int)
    requires Readable(k) && InRange(count)
    ensures ModeOf(OneBlock(k, count)) == Some(CountMode) && RecordsOf(OneBlock(k, count)) == [Record(k, count)]
  {
    hide ReadLines, Document, Readable;
    DocumentReadsBack(CountMode, [Record(k, count)]);
  }

  /** A RUN WHOSE SUM WRAPS: two profiles of one block, the greatest count and one more. They merge, into
      the most negative word, and the merged document is no profile the merge would take. */
  lemma WrappedProfiles(k: Key)
    requires Readable(k)
    ensures var ps := [OneBlock(k, MAX_INT), OneBlock(k, 1)];
      var merged := [Record(k, -MAX_INT - 1)];
      Mergeable(ps, CountMode) && IsMerge(CountMode, AllRecords(ps), merged) && !NoSumWraps(CountMode, AllRecords(ps)) &&
      !Mergeable([Document(CountMode, merged)], CountMode)
  {
    hide ReadLines, Document, Readable, OneBlock;
    var p, q := OneBlock(k, MAX_INT), OneBlock(k, 1);
    var ps, merged := [p, q], [Record(k, -MAX_INT - 1)];
    OneBlockReads(k, MAX_INT);
    OneBlockReads(k, 1);
    assert ps[..1] == [p] && [p][..0] == [];
    var rs := [Record(k, MAX_INT), Record(k, 1)];
    assert AllRecords(ps) == rs by {
      assert AllRecords([p]) == [Record(k, MAX_INT)];
    }
    TwoCounts(k);
    assert Mergeable(ps, CountMode);
    MergeIsIdempotent(CountMode, ps, merged);
    assert merged[0].count < 0;
  }

  lemma TwoCounts(k: Key)
    ensures IsMerge(CountMode, [Record(k, MAX_INT), Record(k, 1)], [Record(k, -MAX_INT - 1)])
  {
    var rs := [Record(k, MAX_INT), Record(k, 1)];
    var merged := [Record(k, -MAX_INT - 1)];
    assert rs[..1] == [rs[0]] && [rs[0]][..0] == [];
    forall x ensures Total(CountMode, rs, x) == if x == k then Some(-MAX_INT - 1) else None {
      assert Total(CountMode, [rs[0]], x) == Says(rs[0], x);
      assert Wrap(MAX_INT + 1) == -MAX_INT - 1;
    }
    assert merged[0].key == k;
  }

  lemma NonEmptyMerge(mode: Mode, rs: seq<Record>, merged: seq<Record>)
    requires IsMerge(mode, rs, merged) && rs != []
    ensures merged != []
  {
    AlwaysTotal(mode, rs);
  }
}
