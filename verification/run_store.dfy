/** The store of one leased run: its submission record (state, lease, cancel request) and its
    event log, as the in-memory store implements them under one mutex. The pure functions say
    what each call does; the class is the shared object replicas call, where any call may also
    be lost before or after it took effect. */
module RunStore {
  import opened Prelude
  import opened EventContract

  datatype SubmissionState = Running | Done | DoneUnsaved | Abandoned

  /** `holder` is empty for a record with no lease; `resultStored` is whether the reserved
      result is already stored under this record. */
  datatype Record = Record(
    state: SubmissionState,
    holder: string,
    expiresAt: int,
    cancelRequestedAt: Option<int>,
    resultStored: bool)

  datatype LeaseCheck = LeaseCheck(
    found: bool,
    state: SubmissionState,
    holder: string,
    renewed: bool,
    cancelRequestedAt: Option<int>)
  {
    /** Whether the record is running under `who`'s lease. */
    predicate Held(who: string) { found && state == Running && holder != "" && holder == who }
  }

  datatype Marker = ResultMarker(resultId: string) | UnsavedMarker | ErrorMarker(envelope: Payload)

  datatype Content = Data(event: Event) | End(marker: Marker)

  datatype Row = Row(seqNo: int, lastStage: Option<Stage>, content: Content)

  const NOT_FOUND := LeaseCheck(false, Abandoned, "", false, None)

  // ---------------------------------------------------------------------------
  // The record
  // ---------------------------------------------------------------------------

  /** A lease check, renewing to `renewUntil` when one is given and the lease is held. A renewal
      never shortens the lease. */
  function CheckLease(record: Option<Record>, who: string, renewUntil: Option<int>): (Option<Record>, LeaseCheck) {
    match record
    case None => (None, NOT_FOUND)
    case Some(r) =>
      var check := LeaseCheck(true, r.state, r.holder, false, r.cancelRequestedAt);
      if check.Held(who) && renewUntil.Some? then
        (Some(if renewUntil.value > r.expiresAt then r.(expiresAt := renewUntil.value) else r), check.(renewed := true))
      else
        (record, check)
  }

  /** A check answers what the record says; it renews exactly when asked to by the holder of a running
      record, and then the lease lasts at least as long as asked and as before. Nothing else moves. */
  lemma RenewalOnlyLengthens(record: Option<Record>, who: string, renewUntil: Option<int>)
    ensures var (next, check) := CheckLease(record, who, renewUntil);
      && check.found == record.Some? == next.Some?
      && (check.renewed <==> record.Some? && renewUntil.Some? && record.value.state == Running && record.value.holder == who != "")
      && (!check.renewed ==> next == record)
      && (record.Some? ==>
            && check.(renewed := false) == LeaseCheck(true, record.value.state, record.value.holder, false, record.value.cancelRequestedAt)
            && next.value.(expiresAt := 0) == record.value.(expiresAt := 0)
            && next.value.expiresAt >= record.value.expiresAt
            && (check.renewed ==> next.value.expiresAt >= renewUntil.value)
            && (next.value.expiresAt == record.value.expiresAt || Some(next.value.expiresAt) == renewUntil))
  {
  }

  /** Whether a sweep at `now` takes the record over. */
  predicate Reapable(record: Option<Record>, now: int) {
    && record.Some?
    && record.value.state == Running
    && record.value.holder != ""
    && now >= record.value.expiresAt
    && !record.value.resultStored
  }

  function Reap(record: Option<Record>, taker: string, now: int): Option<Record> {
    if Reapable(record, now) then Some(record.value.(state := Abandoned, holder := taker)) else record
  }

  /** A cancel request keeps the first time it was asked. */
  function RequestCancel(record: Option<Record>, now: int): Option<Record> {
    if record.Some? && record.value.state == Running && record.value.holder != "" && record.value.cancelRequestedAt.None?
    then Some(record.value.(cancelRequestedAt := Some(now)))
    else record
  }

  /** A record whose run came to an end: final in that state if it was running, or removed. */
  function Ended(record: Option<Record>, final: Option<SubmissionState>): Option<Record> {
    match final
    case None => None
    case Some(state) =>
      if record.Some? && record.value.state == Running && state != Running
      then Some(record.value.(state := state)) else record
  }

  // ---------------------------------------------------------------------------
  // The log
  // ---------------------------------------------------------------------------

  predicate HasEnd(rows: seq<Row>) {
    exists i :: 0 <= i < |rows| && rows[i].content.End?
  }

  predicate HasSeq(rows: seq<Row>, seqNo: int) {
    exists i :: 0 <= i < |rows| && rows[i].seqNo == seqNo
  }

  /** Append, then sort by seq (seqs are distinct). */
  function InsertBySeq(rows: seq<Row>, row: Row): seq<Row> {
    if rows == [] || rows[|rows| - 1].seqNo < row.seqNo then rows + [row]
    else InsertBySeq(rows[..|rows| - 1], row) + [rows[|rows| - 1]]
  }

  /** Drop the data rows at or below `bound`. */
  function Prune(rows: seq<Row>, bound: int): seq<Row> {
    if rows == [] then [] else
    (if rows[0].content.End? || rows[0].seqNo > bound then [rows[0]] else []) + Prune(rows[1..], bound)
  }

  /** The store's answer to an append: written, a terminal that was already there, or a seq refusal. */
  datatype AppendReply = Appended | AlreadyEnded | SeqRefused

  function Append(rows: seq<Row>, row: Row, maxEvents: nat): (seq<Row>, AppendReply) {
    if row.seqNo < 1 then (rows, SeqRefused)
    else if HasSeq(rows, row.seqNo) then
      if row.content.End? && exists i :: 0 <= i < |rows| && rows[i].seqNo == row.seqNo && rows[i].content.End?
      then (rows, AlreadyEnded) else (rows, SeqRefused)
    else if HasEnd(rows) then (rows, if row.content.End? then AlreadyEnded else SeqRefused)
    else if row.content.End? then (InsertBySeq(rows, row), Appended)
    else (Prune(InsertBySeq(rows, row), row.seqNo - maxEvents), Appended)
  }

  /** The terminal a takeover adds, one past the last row, unless the log already has one. */
  function EndAsLost(rows: seq<Row>, lost: Payload): seq<Row> {
    if HasEnd(rows) then rows
    else if rows == [] then [Row(1, None, End(ErrorMarker(lost)))]
    else rows + [Row(rows[|rows| - 1].seqNo + 1, rows[|rows| - 1].lastStage, End(ErrorMarker(lost)))]
  }

  /** The log ends with a takeover's terminal. */
  predicate TakenOver(rows: seq<Row>, lost: Payload) {
    rows != [] && rows[|rows| - 1].content == End(ErrorMarker(lost))
  }

  /** If the log has ended at all, a takeover ended it, or `own` did. */
  predicate EndedBy(rows: seq<Row>, lost: Payload, own: Option<Row>) {
    HasEnd(rows) ==> TakenOver(rows, lost) || (own.Some? && rows[|rows| - 1] == own.value)
  }

  // ---------------------------------------------------------------------------
  // The log of one writer
  // ---------------------------------------------------------------------------

  /** The last stage started in `es`. */
  function StartedBy(es: seq<Event>): Option<Stage> {
    if es == [] then None
    else if es[|es| - 1].body.Starts() then Some(es[|es| - 1].body.stage)
    else StartedBy(es[..|es| - 1])
  }

  /** The row a writer logs for the k-th event of `es`. */
  function DataRow(es: seq<Event>, k: nat): Row
    requires k < |es|
  {
    Row(k + 1, StartedBy(es[..k + 1]), Data(es[k]))
  }

  /** The first event the bounded log still holds. */
  function Oldest(n: nat, maxEvents: nat): nat { if n > maxEvents then n - maxEvents else 0 }

  /** The data rows of a writer that logged exactly `es`: the latest `maxEvents` of them. */
  ghost function LogRows(es: seq<Event>, maxEvents: nat): (rows: seq<Row>)
    ensures |rows| == |es| - Oldest(|es|, maxEvents)
    ensures forall i :: 0 <= i < |rows| ==> rows[i] == DataRow(es, Oldest(|es|, maxEvents) + i)
  {
    var lo := Oldest(|es|, maxEvents);
    seq(|es| - lo, i requires 0 <= i < |es| - lo => DataRow(es, lo + i))
  }

  /** The log of a run whose one writer logged `es`: their rows, and at most one terminal, which
      is last and takes the next seq. */
  ghost predicate LogOf(rows: seq<Row>, es: seq<Event>, maxEvents: nat) {
    var data := LogRows(es, maxEvents);
    rows == data || (exists t: Row :: t.content.End? && t.seqNo == |es| + 1 && rows == data + [t])
  }

  lemma LogRowsShape(es: seq<Event>, maxEvents: nat)
    ensures var rows := LogRows(es, maxEvents);
      && !HasEnd(rows)
      && (forall i :: 0 <= i < |rows| ==> rows[i].seqNo == Oldest(|es|, maxEvents) + i + 1 && rows[i].content.Data?)
      && (forall i :: 0 <= i < |rows| ==> rows[i].seqNo <= |es|)
  {
  }

  /** A data row at or above `bound + 1` is never pruned. */
  lemma {:induction false} PruneKeeps(rows: seq<Row>, bound: int)
    requires forall i :: 0 <= i < |rows| ==> rows[i].seqNo > bound
    ensures Prune(rows, bound) == rows
  {
    if rows != [] {
      PruneKeeps(rows[1..], bound);
    }
  }

  lemma PruneFirst(rows: seq<Row>, bound: int)
    requires rows != [] && rows[0].content.Data? && rows[0].seqNo <= bound
    requires forall i :: 1 <= i < |rows| ==> rows[i].seqNo > bound
    ensures Prune(rows, bound) == rows[1..]
  {
    PruneKeeps(rows[1..], bound);
  }

  /** The window moves by one: it grows, or it drops its oldest row. */
  lemma NextWindow(es: seq<Event>, e: Event, maxEvents: nat)
    requires maxEvents >= 1
    ensures var all := LogRows(es, maxEvents) + [DataRow(es + [e], |es|)];
      LogRows(es + [e], maxEvents) == if |es| < maxEvents then all else all[1..]
  {
    var all := LogRows(es, maxEvents) + [DataRow(es + [e], |es|)];
    var next := LogRows(es + [e], maxEvents);
    var moved := if |es| < maxEvents then all else all[1..];
    forall i | 0 <= i < |next| ensures next[i] == moved[i] {
      var k := Oldest(|es| + 1, maxEvents) + i;
      assert k < |es| ==> (es + [e])[..k + 1] == es[..k + 1];
    }
  }

  /** The next event of the one writer, appended to a log with no terminal, extends the log. */
  lemma AppendNext(es: seq<Event>, e: Event, maxEvents: nat)
    requires maxEvents >= 1
    ensures Append(LogRows(es, maxEvents), DataRow(es + [e], |es|), maxEvents) == (LogRows(es + [e], maxEvents), Appended)
  {
    hide *;
    var rows, row := LogRows(es, maxEvents), DataRow(es + [e], |es|);
    NextRow(es, e);
    LogRowsShape(es, maxEvents);
    NextWindow(es, e, maxEvents);
    AppendLatest(rows, row, maxEvents);
    PruneWindow(rows, row, |es|, maxEvents);
  }

  lemma NextRow(es: seq<Event>, e: Event)
    ensures DataRow(es + [e], |es|).seqNo == |es| + 1 && DataRow(es + [e], |es|).content.Data?
  {
  }

  /** An event later than every row of an open log is put last. */
  lemma AppendLatest(rows: seq<Row>, row: Row, maxEvents: nat)
    requires row.seqNo >= 1 && row.content.Data? && !HasEnd(rows)
    requires forall i :: 0 <= i < |rows| ==> rows[i].seqNo < row.seqNo
    ensures Append(rows, row, maxEvents) == (Prune(rows + [row], row.seqNo - maxEvents), Appended)
  {
    hide Prune;
    assert InsertBySeq(rows, row) == rows + [row];
  }

  /** Pruning after the newest row keeps a full window, or drops exactly its oldest row. */
  lemma PruneWindow(rows: seq<Row>, row: Row, n: nat, maxEvents: nat)
    requires maxEvents >= 1 && |rows| == n - Oldest(n, maxEvents) && row.seqNo == n + 1
    requires forall i :: 0 <= i < |rows| ==> rows[i].seqNo == Oldest(n, maxEvents) + i + 1 && rows[i].content.Data?
    ensures var all := rows + [row];
      Prune(all, row.seqNo - maxEvents) == if n < maxEvents then all else all[1..]
  {
    hide Prune;
    var all := rows + [row];
    if n < maxEvents {
      PruneKeeps(all, row.seqNo - maxEvents);
    } else {
      assert all[0] == rows[0];
      PruneFirst(all, row.seqNo - maxEvents);
    }
  }

  /** A terminal at the next seq, appended to a log with none, ends the log. */
  lemma AppendEnd(es: seq<Event>, t: Row, maxEvents: nat)
    requires t.content.End? && t.seqNo == |es| + 1
    ensures Append(LogRows(es, maxEvents), t, maxEvents) == (LogRows(es, maxEvents) + [t], Appended)
  {
    LogRowsShape(es, maxEvents);
  }

  /** A log with a terminal takes nothing more: a stale writer is refused, a second terminal is not written. */
  lemma EndedLogIsFinal(es: seq<Event>, t: Row, row: Row, maxEvents: nat)
    requires t.content.End? && t.seqNo == |es| + 1
    ensures Append(LogRows(es, maxEvents) + [t], row, maxEvents).0 == LogRows(es, maxEvents) + [t]
    ensures Append(LogRows(es, maxEvents) + [t], row, maxEvents).1 != Appended
    ensures row.content.Data? ==> Append(LogRows(es, maxEvents) + [t], row, maxEvents).1 == SeqRefused
  {
    var rows := LogRows(es, maxEvents) + [t];
    assert rows[|rows| - 1] == t;
  }

  /** An event already in the log is refused, which is what a retry after a lost reply meets. */
  lemma AppendTwice(es: seq<Event>, row: Row, maxEvents: nat)
    requires maxEvents >= 1 && es != [] && row.seqNo == |es| && row.content.Data?
    ensures Append(LogRows(es, maxEvents), row, maxEvents) == (LogRows(es, maxEvents), SeqRefused)
  {
    LogRowsShape(es, maxEvents);
    var rows := LogRows(es, maxEvents);
    assert rows[|rows| - 1].seqNo == row.seqNo;
  }

  /** A takeover leaves a log of the same events, with a terminal. */
  lemma TakeoverKeepsLog(rows: seq<Row>, es: seq<Event>, lost: Payload, maxEvents: nat)
    requires maxEvents >= 1 && LogOf(rows, es, maxEvents)
    ensures LogOf(EndAsLost(rows, lost), es, maxEvents) && HasEnd(EndAsLost(rows, lost))
  {
    var data := LogRows(es, maxEvents);
    LogRowsShape(es, maxEvents);
    if rows == data {
      var t := EndAsLost(rows, lost)[|rows|];
      assert t.content.End? && t.seqNo == |es| + 1 && EndAsLost(rows, lost) == data + [t];
    } else {
      var t: Row :| t.content.End? && t.seqNo == |es| + 1 && rows == data + [t];
      assert rows[|rows| - 1] == t;
    }
  }

  /** The row it adds: an error with the takeover's envelope, one past the last event, naming the last
      stage started. */
  lemma TakeoverRow(rows: seq<Row>, es: seq<Event>, lost: Payload, maxEvents: nat)
    requires maxEvents >= 1 && LogOf(rows, es, maxEvents)
    ensures EndAsLost(rows, lost) == if HasEnd(rows) then rows else rows + [Row(|es| + 1, StartedBy(es), End(ErrorMarker(lost)))]
  {
    if rows == LogRows(es, maxEvents) {
      LastRow(es, maxEvents);
    } else {
      assert rows[|rows| - 1].content.End?;
    }
  }

  lemma LastRow(es: seq<Event>, maxEvents: nat)
    requires maxEvents >= 1
    ensures var rows := LogRows(es, maxEvents);
      if es == [] then rows == [] else rows != [] && rows[|rows| - 1].seqNo == |es| && rows[|rows| - 1].lastStage == StartedBy(es)
  {
    hide StartedBy;
    var rows := LogRows(es, maxEvents);
    if es != [] {
      assert rows[|rows| - 1] == DataRow(es, |es| - 1) && es[..|es|] == es;
    }
  }

  /** Who ended the log: a takeover ends only a log without an end. */
  lemma TakeoverEnds(rows: seq<Row>, lost: Payload, own: Option<Row>)
    requires EndedBy(rows, lost, own)
    ensures EndedBy(EndAsLost(rows, lost), lost, own)
  {
  }

  /** Who ended the log, after an append of the next row or of an event sent again: a terminal the store
      took is the log's last row, and only a log that ended refuses an event it does not hold. */
  lemma AppendEnds(rows: seq<Row>, es: seq<Event>, row: Row, lost: Payload, own: Option<Row>, maxEvents: nat)
    requires maxEvents >= 1 && LogOf(rows, es, maxEvents)
    requires row.seqNo == |es| + 1 || (row.content.Data? && es != [] && row.seqNo == |es|)
    requires row.content.End? ==> own == Some(row)
    requires EndedBy(rows, lost, own)
    ensures var (after, reply) := Append(rows, row, maxEvents);
      && EndedBy(after, lost, own)
      && (reply == Appended && row.content.End? ==> after != [] && after[|after| - 1] == row)
      && (reply == AlreadyEnded ==> after == rows && HasEnd(rows))
      && (reply == SeqRefused ==> after == rows && row.content.Data? && (HasEnd(rows) || row.seqNo == |es|))
  {
    hide Prune;
    LogRowsShape(es, maxEvents);
    var data := LogRows(es, maxEvents);
    if rows == data {
      if row.content.End? {
        AppendEnd(es, row, maxEvents);
      } else if row.seqNo == |es| {
        AppendTwice(es, row, maxEvents);
      } else {
        AppendLatest(rows, row, maxEvents);
        PruneHasNoEnd(rows + [row], row.seqNo - maxEvents);
      }
    } else {
      var t: Row :| t.content.End? && t.seqNo == |es| + 1 && rows == data + [t];
      assert rows[|rows| - 1] == t;
      EndedLogIsFinal(es, t, row, maxEvents);
    }
  }

  lemma {:induction false} PruneHasNoEnd(rows: seq<Row>, bound: int)
    requires !HasEnd(rows)
    ensures !HasEnd(Prune(rows, bound))
  {
    if rows != [] {
      assert forall i :: 0 <= i < |rows| - 1 ==> rows[1..][i] == rows[i + 1];
      PruneHasNoEnd(rows[1..], bound);
    }
  }

  // ---------------------------------------------------------------------------
  // The shared object
  // ---------------------------------------------------------------------------

  /** What a caller of an append learns: the store's reply, or nothing because the call failed. */
  datatype AppendResult = Replied(reply: AppendReply) | CallFailed

  class Store {
    const maxEvents: nat
    var record: Option<Record>
    var rows: seq<Row>
    // The appends whose caller got no reply.
    ghost var failures: nat

    constructor (record: Option<Record>, maxEvents: nat)
      ensures this.record == record && rows == [] && this.maxEvents == maxEvents && failures == 0
    {
      this.maxEvents := maxEvents;
      this.record := record;
      rows, failures := [], 0;
    }

    /** One append. A failed call may have taken effect: its reply was lost. */
    method AppendRunEvent(row: Row) returns (result: AppendResult)
      modifies this`rows, this`failures
      ensures failures == old(failures) + if result.CallFailed? then 1 else 0
      ensures result.Replied? ==> (rows, result.reply) == Append(old(rows), row, maxEvents)
      ensures result.CallFailed? ==> rows == old(rows) || rows == Append(old(rows), row, maxEvents).0
    {
      var reachable: bool, answered: bool := *, *;
      if !reachable || !answered {
        failures := failures + 1;
      }
      if !reachable {
        return CallFailed;
      }
      var (next, reply) := Append(rows, row, maxEvents);
      rows := next;
      result := if answered then Replied(reply) else CallFailed;
    }

    /** One lease check, with the same freedom to fail after taking effect. */
    method CheckRunLease(who: string, renewUntil: Option<int>) returns (answer: Option<LeaseCheck>)
      modifies this`record
      ensures answer.Some? ==> (record, answer.value) == CheckLease(old(record), who, renewUntil)
      ensures answer.None? ==> record == old(record) || record == CheckLease(old(record), who, renewUntil).0
    {
      var reachable: bool, answered: bool := *, *;
      if !reachable {
        return None;
      }
      var (next, check) := CheckLease(record, who, renewUntil);
      record := next;
      answer := if answered then Some(check) else None;
    }

    /** A sweep of this run by `taker`: record and log change together or not at all. */
    method ReapLostRun(taker: string, lost: Payload, now: int) returns (taken: bool)
      modifies this
      ensures taken ==> old(record).Some? && old(record).value.state == Running && old(record).value.holder != ""
      ensures taken ==> old(record).value.expiresAt <= now && !old(record).value.resultStored
      ensures old(record).Some? && !taken ==>
        var r := old(record).value; r.state != Running || r.holder == "" || now < r.expiresAt || r.resultStored
      ensures record == if taken then Some(old(record).value.(state := Abandoned, holder := taker)) else old(record)
      ensures rows == if taken then EndAsLost(old(rows), lost) else old(rows)
      ensures failures == old(failures)
    {
      taken := Reapable(record, now);
      if taken {
        record := Reap(record, taker, now);
        rows := EndAsLost(rows, lost);
      }
    }

    /** An owner's cancel. It is noted only while the run is running under a lease, its first time
        is kept for good, and nothing else of the record moves. */
    method RequestRunCancel(now: int) returns (answer: Option<Record>)
      modifies this`record
      ensures answer == record && (record.Some? <==> old(record).Some?)
      ensures record.Some? ==> record.value.(cancelRequestedAt := None) == old(record).value.(cancelRequestedAt := None)
      ensures record.Some? && old(record).value.cancelRequestedAt.Some? ==> record == old(record)
      ensures record.Some? && old(record).value.cancelRequestedAt.None? ==>
        record.value.cancelRequestedAt ==
          if record.value.state == Running && record.value.holder != "" then Some(now) else None
    {
      record := RequestCancel(record, now);
      answer := record;
    }

    /** The run's own end: its save, its unsaved write, or the record's removal. */
    method EndRun(final: Option<SubmissionState>)
      modifies this`record
      ensures record == Ended(old(record), final)
    {
      record := Ended(record, final);
    }

    /** Other replicas between two calls of this one: any number of sweeps. */
    method Interference(lost: Payload)
      modifies this
      ensures (rows == old(rows) || rows == EndAsLost(old(rows), lost)) && failures == old(failures)
    {
      var sweeps: nat := *;
      while sweeps > 0
        invariant (rows == old(rows) || rows == EndAsLost(old(rows), lost)) && failures == old(failures)
      {
        var taker: string, now: int := *, *;
        var taken := ReapLostRun(taker, lost, now);
        sweeps := sweeps - 1;
      }
    }
  }

}
