/** The investigation event stream writer: one request's frames, written under one lock.
    A call is atomic (the lock), but inside it every contract check, log append and connection
    write may fail. `committed` is the sequence of frames the writer counts as written and
    `delivered` the frames the connection took whole; `Valid` is what every call keeps. */
module EventStream {
  import opened Prelude
  import opened EventContract
  import opened RunStore

  // ---------------------------------------------------------------------------
  // Byte caps
  // ---------------------------------------------------------------------------

  const FRAME_SLACK_BYTES: int := 0x1_0000
  const STREAM_MAX_BYTES: int := 0x80_0000

  datatype Caps = Caps(frameMax: int, total: int, reserve: int)

  /** The caps of a service that serializes at most `maxSerialized` bytes. */
  function WithByteCaps(maxSerialized: int): (caps: Caps)
    ensures caps.frameMax <= caps.reserve && 0 <= caps.total
  {
    var frameMax := maxSerialized + FRAME_SLACK_BYTES;
    Caps(frameMax, STREAM_MAX_BYTES, frameMax)
  }

  datatype Verdict = Fits | OverFrame | Exhausts | OverTotal

  /** Where the caps put a frame of `size` bytes after `written` bytes. */
  function Measure(caps: Caps, written: int, size: nat, terminal: bool): Verdict {
    if size > caps.frameMax then OverFrame
    else if !terminal && written + size > caps.total - caps.reserve then Exhausts
    else if terminal && written + size > caps.total then OverTotal
    else Fits
  }

  /** The reserve is right-sized exactly when it covers one frame: then, and only then (caps
      nothing could ever pass aside), a terminal of any size up to the frame cap fits after any
      non-terminal prefix the budget let through. */
  lemma ReserveCoversATerminal(caps: Caps)
    ensures (forall written: nat, size: nat :: written <= caps.total - caps.reserve ==>
               Measure(caps, written, size, true) != OverTotal)
      <==> caps.frameMax <= caps.reserve || caps.frameMax < 0 || caps.total < caps.reserve
  {
    if caps.reserve < caps.frameMax && 0 <= caps.frameMax && caps.reserve <= caps.total {
      var written: nat, size: nat := caps.total - caps.reserve, caps.frameMax;
      assert Measure(caps, written, size, true) == OverTotal;
    }
  }

  // ---------------------------------------------------------------------------
  // Vocabulary
  // ---------------------------------------------------------------------------

  datatype StreamError =
    | MarshalFailed
    | WireFailed
    | LogFailed
    | Panicked
    | TerminalWritten
    | FrameOverCap
    | BudgetExhausted
    | ContractRefused
  {
    /** The errors that end the stream for good. */
    predicate Fatal() { MarshalFailed? || WireFailed? || LogFailed? || Panicked? }
  }

  datatype TerminalKind = ResultEvent | ErrorEvent

  datatype Transition = Transition(stage: Stage, state: StageState, at: int)

  /** What the shared delivery produced: nothing (the request was cancelled), an answer body, or
      an error body, whose envelope is `None` when it cannot be decoded. */
  datatype Outcome = Nothing | AnswerBody(body: Payload) | ErrorBody(envelope: Option<Payload>)

  function KindOf(body: Body): TerminalKind
    requires body.Terminal()
  {
    if body.Answer? then ResultEvent else ErrorEvent
  }

  /** The terminal a frame sequence ends with. */
  function TerminalOf(es: seq<Event>): Option<TerminalKind> {
    if es != [] && es[|es| - 1].body.Terminal() then Some(KindOf(es[|es| - 1].body)) else None
  }

  /** The non-terminal frames of a sequence whose only terminal can be the last. */
  function Progress(es: seq<Event>): seq<Event> {
    if TerminalOf(es).Some? then es[..|es| - 1] else es
  }

  /** The open stage, and the last stage started, after a body. */
  function OpenAfter(body: Body, open: Option<Stage>): Option<Stage> {
    if body.Starts() then Some(body.stage) else if body.Completes() then None else open
  }

  function StartedAfter(body: Body, lastStarted: Option<Stage>): Option<Stage> {
    if body.Starts() then Some(body.stage) else lastStarted
  }

  type Encoder = Event -> Option<nat>

  function FrameBytes(encode: Encoder, e: Event): nat {
    if encode(e).Some? then encode(e).value else 0
  }

  function Bytes(encode: Encoder, es: seq<Event>): nat {
    if es == [] then 0 else Bytes(encode, es[..|es| - 1]) + FrameBytes(encode, es[|es| - 1])
  }

  /** The error terminal the writer builds always fits the stream: it repeats the reserved id of
      accepted and names the last stage started. Only the event's own schema can refuse it. */
  lemma ErrorTerminalIsInPlace(c: Check, es: seq<Event>, e: Event)
    requires Replay(es) == Some(c) && es != [] && !c.terminal
    requires e.body.Failure? && e.body.reservedResult == c.reserved && e.body.lastStage == c.lastStarted
    requires e.seqNo == |es| + 1 && e.requestId == c.requestId
    ensures Next(c, e).Some? <==> ValidEvent(e)
  {
    CheckAcceptsTheGrammar(es);
  }

  /** One more accepted frame, and what it does to the terminal. */
  lemma CommitFrame(es: seq<Event>, c: Check, e: Event)
    requires Replay(es) == Some(c) && Next(c, e).Some?
    requires TerminalOf(es).Some? <==> c.terminal
    ensures Replay(es + [e]) == Next(c, e)
    ensures TerminalOf(es + [e]).Some? <==> Next(c, e).value.terminal
    ensures e.body.Terminal() ==> Progress(es + [e]) == es
    ensures !e.body.Terminal() ==> Progress(es + [e]) == es + [e]
    ensures Progress(es) == es
  {
    var fs := es + [e];
    assert fs[..|fs| - 1] == es && fs[|fs| - 1] == e;
  }

  /** What an append of the writer's next row does to its log, at any point of a retry. */
  lemma AppendKeepsLog(rows: seq<Row>, base: seq<Event>, e: Event, es: seq<Event>, row: Row, maxEvents: nat)
    requires maxEvents >= 1 && LogOf(rows, es, maxEvents)
    requires row.content.Data? ==> (es == base || es == base + [e]) && row == DataRow(base + [e], |base|)
    requires row.content.End? ==> es == base && row.seqNo == |base| + 1
    ensures var (after, reply) := Append(rows, row, maxEvents);
      && LogOf(after, if reply == Appended && row.content.Data? then base + [e] else es, maxEvents)
      && (row.content.Data? && reply == Appended ==> es == base)
      && (row.content.Data? ==> reply != AlreadyEnded)
      && (row.content.End? ==> reply != SeqRefused && HasEnd(after))
  {
    var data := LogRows(es, maxEvents);
    if rows == data {
      if row.content.End? {
        AppendEnd(es, row, maxEvents);
        assert (data + [row])[|data|] == row;
      } else if es == base {
        AppendNext(base, e, maxEvents);
      } else {
        AppendTwice(es, row, maxEvents);
      }
    } else {
      var t: Row :| t.content.End? && t.seqNo == |es| + 1 && rows == data + [t];
      EndedLogIsFinal(es, t, row, maxEvents);
      assert rows[|data|] == t;
    }
  }

  lemma ProgressOfOneMore(es: seq<Event>, e: Event)
    requires TerminalOf(es).None?
    ensures Progress(es) == es
    ensures TerminalOf(es + [e]) == if e.body.Terminal() then Some(KindOf(e.body)) else None
    ensures Progress(es + [e]) == if e.body.Terminal() then es else es + [e]
  {
    var fs := es + [e];
    assert fs[..|fs| - 1] == es && fs[|fs| - 1] == e;
  }

  /** The stage a data row names is the last one started, this event included. */
  lemma StageOfRow(es: seq<Event>, c: Check, e: Event)
    requires Replay(es) == Some(c) && e.seqNo == |es| + 1
    ensures DataRow(es + [e], |es|) == Row(e.seqNo, StartedAfter(e.body, c.lastStarted), Data(e))
  {
    StartedIsReplayed(es);
    var fs := es + [e];
    assert fs[..|es| + 1] == fs && fs[..|fs| - 1] == es;
  }

  lemma {:induction false} StartedIsReplayed(es: seq<Event>)
    requires Replay(es).Some?
    ensures StartedBy(es) == Replay(es).value.lastStarted
  {
    if es != [] {
      StartedIsReplayed(es[..|es| - 1]);
    }
  }

  lemma BytesOfOneMore(encode: Encoder, es: seq<Event>, e: Event)
    ensures Bytes(encode, es + [e]) == Bytes(encode, es) + FrameBytes(encode, e)
  {
    var fs := es + [e];
    assert fs[..|fs| - 1] == es;
  }

  // ---------------------------------------------------------------------------
  // The writer's state
  // ---------------------------------------------------------------------------

  /** What one stream is opened with. */
  datatype Settings = Settings(
    caps: Caps,
    encode: Encoder,
    requestId: string,
    reserved: string,
    startedAt: int,
    leased: bool,
    appendAttempts: nat,
    lostEnvelope: Payload,
    budgetEnvelope: Payload,
    frameCapEnvelope: Payload,
    internalEnvelope: Payload)

  /** The fields the lock protects; `runCancelled` is whether this stream cancelled its run. */
  datatype Fields = Fields(
    check: Check,
    seqNo: int,
    lastElapsed: int,
    open: Option<Stage>,
    lastStarted: Option<Stage>,
    failed: Option<StreamError>,
    terminal: Option<TerminalKind>,
    written: int,
    budgetExhausted: bool,
    viewerGone: bool,
    resultMarker: Option<Marker>,
    logTerminalTaken: bool,
    runCancelled: bool)

  const UNOPENED := Fields(FRESH, 0, 0, None, None, None, None, 0, false, false, None, false, false)

  /** What happened: the frames the writer committed, those the connection took whole, every byte
      handed to it (torn frames included), every non-terminal event the log took, the marker the
      committed terminal was to be logged with, and whether a connection write failed. */
  datatype Trace = Trace(
    committed: seq<Event>,
    delivered: seq<Event>,
    wireBytes: int,
    logged: seq<Event>,
    marked: Option<Marker>,
    broken: bool)

  /** The committed frames, the counters and the byte budget agree. */
  ghost predicate Core(cfg: Settings, f: Fields, t: Trace) {
    && Replay(t.committed) == Some(f.check)
    && f.seqNo == |t.committed|
    && f.lastElapsed == f.check.lastElapsed
    && f.terminal == TerminalOf(t.committed)
    && (f.terminal.Some? <==> f.check.terminal)
    && (t.committed != [] ==> f.check.reserved == cfg.reserved && f.check.requestId == cfg.requestId)
    && f.written == Bytes(cfg.encode, t.committed)
    && f.written <= cfg.caps.total
    && (t.committed != [] ==> Bytes(cfg.encode, Progress(t.committed)) <= cfg.caps.total - cfg.caps.reserve)
  }

  /** The open stage and the last stage started are those of the committed frames. */
  predicate Synced(f: Fields) {
    f.open == f.check.open && f.lastStarted == f.check.lastStarted
  }

  /** A stream that ended early cancelled its run; the one exception is a leased run whose frame
      could not be encoded. */
  predicate Ends(leased: bool, f: Fields) {
    && (f.budgetExhausted ==> f.runCancelled && f.terminal != Some(ResultEvent))
    && (f.failed.Some? ==> f.failed.value.Fatal())
    && (f.failed.Some? ==> f.runCancelled || (leased && f.failed == Some(MarshalFailed)))
  }

  /** The connection saw the committed frames until the viewer was lost, and never more bytes than
      the stream may take. */
  ghost predicate Wire(cfg: Settings, f: Fields, t: Trace) {
    && t.delivered <= t.committed
    && (f.viewerGone ==> cfg.leased)
    && (!f.viewerGone ==> t.delivered == t.committed)
    && (!f.viewerGone && f.failed.None? ==> t.wireBytes == f.written)
    && 0 <= t.wireBytes <= cfg.caps.total
    && (f.viewerGone ==> t.wireBytes <= f.written)
  }

  /** A leased run's log: exactly the non-terminal frames committed so far, plus at most the one
      whose append failed the stream, plus at most one terminal. */
  ghost predicate Log(rows: seq<Row>, maxEvents: nat, f: Fields, t: Trace) {
    && maxEvents >= 1
    && LogOf(rows, t.logged, maxEvents)
    && Progress(t.committed) <= t.logged
    && |t.logged| <= |Progress(t.committed)| + 1
    && (f.failed.None? ==> t.logged == Progress(t.committed))
  }

  /** The marker a terminal is logged with; an answer's is the one noted for the run's result. */
  function MarkerOf(body: Body, noted: Option<Marker>): Option<Marker> {
    if body.Failure? then Some(ErrorMarker(body.envelope)) else if body.Answer? then noted else None
  }

  /** The log ends with that marker at that seq, or a takeover ended it first and the writer knows;
      with no marker, nothing but a takeover ended it. */
  predicate LogEnds(cfg: Settings, rows: seq<Row>, f: Fields, marker: Option<Marker>, seqNo: int) {
    match marker
    case None => EndedBy(rows, cfg.lostEnvelope, None)
    case Some(m) =>
      && rows != []
      && (rows[|rows| - 1] == Row(seqNo, f.lastStarted, End(m)) || (f.logTerminalTaken && TakenOver(rows, cfg.lostEnvelope)))
  }

  /** The end of a leased run's log is the committed terminal's, or a takeover's. */
  ghost predicate Ending(cfg: Settings, rows: seq<Row>, f: Fields, t: Trace) {
    && (f.terminal == Some(ErrorEvent) ==> t.committed != [] && t.marked == MarkerOf(t.committed[|t.committed| - 1].body, None))
    && (f.failed.None? ==> LogEnds(cfg, rows, f, if f.terminal.Some? then t.marked else None, f.seqNo))
  }

  /** A stream over its byte budget carries the budget terminal, unless that was stopped fairly; only a
      stream with no frame at all ends without one. */
  ghost predicate BudgetTold(cfg: Settings, f: Fields, t: Trace) {
    f.budgetExhausted && t.committed != [] ==>
      || t.committed[|t.committed| - 1] == Event(f.seqNo, cfg.requestId, ErrorBodyOf(cfg, f, cfg.budgetEnvelope))
      || StoppedFairly(cfg, f, ErrorBodyOf(cfg, f, cfg.budgetEnvelope), f)
  }

  /** Nothing fails by itself: a lost viewer or a wire failure means a failed connection write, and the
      other way round; a log failure, a failed store call or a takeover; an encoding failure, an
      event that cannot be encoded; a terminal found taken, a takeover or a lost reply. */
  ghost predicate Blame(cfg: Settings, rows: seq<Row>, failures: nat, f: Fields, t: Trace) {
    && (f.viewerGone || f.failed == Some(WireFailed) ==> t.broken)
    && (t.broken ==> f.viewerGone || f.failed.Some?)
    && (f.failed == Some(LogFailed) ==> failures > 0 || TakenOver(rows, cfg.lostEnvelope))
    && (f.failed == Some(MarshalFailed) ==> exists e :: cfg.encode(e).None?)
    && (f.logTerminalTaken ==> (f.terminal.Some? || f.failed.Some?) && (failures > 0 || TakenOver(rows, cfg.lostEnvelope)))
  }

  /** Everything but `Synced`, which a stage transition breaks between two frames. */
  ghost predicate Consistent(cfg: Settings, f: Fields, t: Trace) {
    && cfg.caps.frameMax <= cfg.caps.reserve && 0 <= cfg.caps.total
    && Core(cfg, f, t) && Ends(cfg.leased, f) && Wire(cfg, f, t)
  }

  predicate Writable(f: Fields) { f.failed.None? && !f.budgetExhausted && f.terminal.None? }

  /** The event a body becomes at the head of the stream. */
  function Head(cfg: Settings, f: Fields, body: Body): Event {
    Event(f.seqNo + 1, cfg.requestId, body)
  }

  /** The error terminal around an envelope. */
  function ErrorBodyOf(cfg: Settings, f: Fields, envelope: Payload): Body {
    Failure(cfg.reserved, f.lastStarted, envelope)
  }

  predicate OwnError(cfg: Settings, f: Fields, body: Body) {
    body.Failure? && body == ErrorBodyOf(cfg, f, body.envelope)
  }

  /** The fields after a frame is committed. */
  function Commit(f: Fields, event: Event, next: Check, size: nat): Fields {
    f.(check := next,
       seqNo := event.seqNo,
       written := f.written + size,
       lastElapsed := if event.body.Elapsed().Some? then event.body.Elapsed().value else f.lastElapsed,
       terminal := if event.body.Terminal() then Some(KindOf(event.body)) else f.terminal)
  }

  /** The contract accepted the frame and the caps let it through. */
  ghost predicate Passes(cfg: Settings, f: Fields, event: Event, size: nat) {
    && event == Head(cfg, f, event.body)
    && (event.body.Accepted? ==> event.body.reserved == cfg.reserved)
    && Next(f.check, event).Some?
    && cfg.encode(event) == Some(size)
    && Measure(cfg.caps, f.written, size, event.body.Terminal()) == Fits
  }

  /** An accepted step, as far as the writer reads the check. */
  lemma NextMovesAsWritten(c: Check, es: seq<Event>, e: Event)
    requires Replay(es) == Some(c) && Next(c, e).Some?
    ensures var next := Next(c, e).value;
      && next.open == OpenAfter(e.body, c.open)
      && next.lastStarted == StartedAfter(e.body, c.lastStarted)
      && next.lastElapsed == (if e.body.Elapsed().Some? then e.body.Elapsed().value else c.lastElapsed)
      && next.terminal == e.body.Terminal()
      && (es == [] ==> e.body.Accepted? && next.reserved == e.body.reserved && next.requestId == e.requestId)
      && (es != [] ==> next.reserved == c.reserved && next.requestId == c.requestId)
  {
    CheckAcceptsTheGrammar(es);
  }

  lemma FailureIsFatal(cfg: Settings, f: Fields, t: Trace)
    requires Consistent(cfg, f, t) && f.failed.Some?
    ensures f.failed.value.Fatal()
  {
  }

  /** The terminal-over-the-total branch is dead: whatever was let through, a terminal still fits. */
  lemma TerminalFits(cfg: Settings, f: Fields, t: Trace, size: nat)
    requires Consistent(cfg, f, t) && Writable(f) && t.committed != []
    ensures Measure(cfg.caps, f.written, size, true) != OverTotal
  {
  }

  /** Committing a frame that passes keeps the writer's books. */
  lemma CommitKeepsCore(cfg: Settings, f: Fields, t: Trace, event: Event, size: nat)
    requires Consistent(cfg, f, t) && Synced(f) && Writable(f) && Passes(cfg, f, event, size)
    ensures Core(cfg, Commit(f, event, Next(f.check, event).value, size), t.(committed := t.committed + [event]))
    ensures Next(f.check, event).value.open == OpenAfter(event.body, f.open)
    ensures Next(f.check, event).value.lastStarted == StartedAfter(event.body, f.lastStarted)
  {
    hide Next, Replay, Bytes, TerminalOf, Ends, Wire, Progress, StartedAfter, OpenAfter;
    CommitFrame(t.committed, f.check, event);
    BytesOfOneMore(cfg.encode, t.committed, event);
    ProgressOfOneMore(t.committed, event);
    NextMovesAsWritten(f.check, t.committed, event);
  }

  /** The books of the trace after a frame is committed. */
  function Committed(f: Fields, t: Trace, event: Event): Trace {
    t.(committed := t.committed + [event], marked := if event.body.Terminal() then MarkerOf(event.body, f.resultMarker) else t.marked)
  }

  /** Committing a frame that the log took keeps the log's books. */
  lemma CommitKeepsLog(cfg: Settings, rows: seq<Row>, maxEvents: nat, f: Fields, t: Trace, event: Event, next: Check, size: nat)
    requires maxEvents >= 1 && LogOf(rows, t.logged, maxEvents) && Writable(f) && TerminalOf(t.committed).None?
    requires t.logged == if event.body.Terminal() then t.committed else t.committed + [event]
    requires LogEnds(cfg, rows, f, MarkerOf(event.body, f.resultMarker), event.seqNo)
    ensures Log(rows, maxEvents, Commit(f, event, next, size), Committed(f, t, event))
    ensures Ending(cfg, rows, Commit(f, event, next, size), Committed(f, t, event))
  {
    hide LogOf, TakenOver, HasEnd, TerminalOf, Progress;
    ProgressOfOneMore(t.committed, event);
  }

  /** What one write may do, whatever failed inside it. Nothing moves unless the frame is committed;
      the one frame a refusal may leave behind is the budget terminal. */
  ghost predicate Wrote(cfg: Settings, f0: Fields, t0: Trace, body: Body, err: Option<StreamError>, f1: Fields, t1: Trace) {
    && f1.open == f0.open && f1.lastStarted == f0.lastStarted && f1.resultMarker == f0.resultMarker
    && t0.committed <= t1.committed && t0.delivered <= t1.delivered
    && (err.None? ==>
          && Writable(f0) && f1.failed.None? && !f1.budgetExhausted
          && t1.committed == t0.committed + [Head(cfg, f0, body)]
          && f1.check.open == OpenAfter(body, f0.open)
          && f1.check.lastStarted == StartedAfter(body, f0.lastStarted))
    && (err.Some? ==> Synced(f1) && (t1.committed == t0.committed || BudgetEnd(cfg, f0, t0, body, err, f1, t1)))
    && (err == Some(TerminalWritten) <==> f0.failed.None? && !f0.budgetExhausted && f0.terminal.Some?)
    && (!Writable(f0) ==> f1 == f0 && t1 == t0 && err.Some?)
    && (f0.failed.Some? ==> err == f0.failed)
    && (f0.viewerGone ==> f1.viewerGone && t1.delivered == t0.delivered)
    && (body.Terminal() ==> f1.budgetExhausted == f0.budgetExhausted)
    && (err.None? ==> t1.marked == if body.Terminal() then MarkerOf(body, f0.resultMarker) else t0.marked)
    && (err.Some? && err.value.Fatal() <==> f1.failed.Some?)
    && (err.None? ==> Next(f0.check, Head(cfg, f0, body)).Some? && f1.written == f0.written + FrameBytes(cfg.encode, Head(cfg, f0, body)))
    && (err.None? && !body.Terminal() ==> Writable(f1))
    && (Writable(f0) && Next(f0.check, Head(cfg, f0, body)).None? ==> err == Some(ContractRefused) && f1 == f0 && t1 == t0)
    && (Writable(f0) && Next(f0.check, Head(cfg, f0, body)).Some? && err.Some? ==> Stopped(cfg, f0, body, err, f1))
  }

  /** What can keep a frame the contract accepts off the stream. */
  ghost predicate Stopped(cfg: Settings, f0: Fields, body: Body, err: Option<StreamError>, f1: Fields) {
    || f1.failed.Some?
    || (err == Some(FrameOverCap) && FrameBytes(cfg.encode, Head(cfg, f0, body)) > cfg.caps.frameMax)
    || (f1.budgetExhausted && !body.Terminal() && Spent(cfg, f0, FrameBytes(cfg.encode, Head(cfg, f0, body))))
  }

  /** So many more bytes would cross into the reserve. */
  predicate Spent(cfg: Settings, f: Fields, size: int) { f.written + size > cfg.caps.total - cfg.caps.reserve }

  /** The frame would have crossed the budget, and the stream ended inside its reserve. */
  ghost predicate BudgetEnd(cfg: Settings, f0: Fields, t0: Trace, body: Body, err: Option<StreamError>, f1: Fields, t1: Trace) {
    && Writable(f0) && !body.Terminal() && err == Some(BudgetExhausted) && f1.budgetExhausted
    && t1.committed == t0.committed + [Head(cfg, f0, ErrorBodyOf(cfg, f0, cfg.budgetEnvelope))]
  }

  /** A terminal the writer builds itself is stopped only by a failed stream, its schema or its size. */
  ghost predicate StoppedFairly(cfg: Settings, f0: Fields, body: Body, f1: Fields) {
    || f1.failed.Some?
    || !ValidEvent(Head(cfg, f0, body))
    || FrameBytes(cfg.encode, Head(cfg, f0, body)) > cfg.caps.frameMax
  }

  /** Milliseconds since the start, never below the last value written. */
  function ElapsedAtTime(cfg: Settings, f: Fields, at: int): (ms: int)
    ensures ms >= f.lastElapsed && ms >= at - cfg.startedAt && (ms == f.lastElapsed || ms == at - cfg.startedAt)
  {
    if at - cfg.startedAt < f.lastElapsed then f.lastElapsed else at - cfg.startedAt
  }

  /** A stamp so late that the contract refuses it: what counts is the stamp, not the clock. */
  predicate TooLate(cfg: Settings, f: Fields, at: int) { ElapsedAtTime(cfg, f, at) - f.lastElapsed > MAX_SILENCE_MS }

  predicate CanCarry(cfg: Settings, f: Fields, at: int) {
    ElapsedAtTime(cfg, f, at) <= MAX_INTEGER && f.seqNo + 1 <= MAX_INTEGER
  }

  /** Values a frame can carry. */
  predicate InRange(cfg: Settings, f: Fields, tr: Transition) {
    ElapsedAtTime(cfg, f, tr.at) <= MAX_INTEGER && f.seqNo + 2 <= MAX_INTEGER && tr.stage.Order() != 0
  }

  predicate OverCap(cfg: Settings, frames: seq<Event>) {
    exists i :: 0 <= i < |frames| && FrameBytes(cfg.encode, frames[i]) > cfg.caps.frameMax
  }

  /** The stage may start or complete now, and its stamp is not too late. */
  predicate Takes(cfg: Settings, f: Fields, stage: Stage, state: StageState, at: int) {
    && !TooLate(cfg, f, at)
    && ElapsedAtTime(cfg, f, at) <= MAX_INTEGER && f.seqNo + 1 <= MAX_INTEGER && stage.Order() != 0
    && (if state == Completed then f.open == Some(stage)
        else f.open.None? && (f.lastStarted.None? || f.lastStarted.value.Order() < stage.Order()))
  }

  /** The contract takes the next stage frame exactly then. */
  lemma StageAcceptedIff(cfg: Settings, f: Fields, t: Trace, stage: Stage, state: StageState, at: int)
    requires Consistent(cfg, f, t) && Synced(f) && Writable(f) && t.committed != []
    ensures Next(f.check, Head(cfg, f, StageChange(stage, state, ElapsedAtTime(cfg, f, at)))).Some? <==>
      Takes(cfg, f, stage, state, at)
  {
    hide Bytes, Progress, TerminalOf, Replay;
    HistoryIsValid(t.committed);
  }

  /** An open stage is one of the vocabulary, and was opened by a committed frame. */
  lemma OpenIsKnown(cfg: Settings, f: Fields, t: Trace)
    requires Consistent(cfg, f, t) && Synced(f)
    ensures f.open.Some? ==> t.committed != [] && f.open.value.Order() != 0
    ensures f.lastStarted.Some? ==> f.lastStarted.value.Order() != 0
    ensures f.seqNo == |t.committed| && f.lastElapsed >= 0
  {
    hide Bytes, Progress, TerminalOf, Next;
    if t.committed != [] { HistoryIsValid(t.committed); }
  }

  lemma BytesOfFrames(encode: Encoder, frames: seq<Event>)
    ensures |frames| == 1 ==> Bytes(encode, frames) == FrameBytes(encode, frames[0])
    ensures |frames| == 2 ==> Bytes(encode, frames) == FrameBytes(encode, frames[0]) + FrameBytes(encode, frames[1])
  {
    if |frames| == 2 { assert frames[..1] == [frames[0]] && [frames[0]][..0] == []; }
    if |frames| == 1 { assert frames[..0] == []; }
  }

  /** A heartbeat that is too late is refused. */
  lemma LateBeatIsRefused(cfg: Settings, f: Fields, open: Option<Stage>, at: int)
    requires f.lastElapsed == f.check.lastElapsed && TooLate(cfg, f, at)
    ensures Next(f.check, Head(cfg, f, Heartbeat(open, ElapsedAtTime(cfg, f, at)))).None?
  {
  }

  /** The contract takes a heartbeat of an accepted stream if and only if its stamp is in time. */
  lemma BeatAcceptedIff(cfg: Settings, f: Fields, t: Trace, at: int)
    requires Consistent(cfg, f, t) && Synced(f) && Writable(f) && t.committed != []
    ensures Next(f.check, Head(cfg, f, Heartbeat(f.open, ElapsedAtTime(cfg, f, at)))).Some? <==>
      !TooLate(cfg, f, at) && CanCarry(cfg, f, at)
  {
    hide Bytes, Progress, TerminalOf, Replay;
    HistoryIsValid(t.committed);
    OpenIsKnown(cfg, f, t);
  }

  predicate Answerable(f: Fields, result: Payload) {
    f.open.None? && f.seqNo + 1 <= MAX_INTEGER && result.text != "" && result.conforms
  }

  /** A stream is accepted once. */
  lemma AcceptedOnce(cfg: Settings, f: Fields, t: Trace, body: Body)
    requires Consistent(cfg, f, t) && body.Accepted?
    ensures Next(f.check, Head(cfg, f, body)).Some? <==> t.committed == [] && ValidEvent(Head(cfg, f, body))
  {
    hide Bytes, Progress, TerminalOf;
    if t.committed != [] { HistoryIsValid(t.committed); }
  }

  function AcceptedBody(cfg: Settings, budgetSeconds: int, submissionId: string, threadId: string): Body {
    Accepted(cfg.reserved, submissionId, threadId, cfg.startedAt, budgetSeconds)
  }

  /** The contract takes a conforming answer if and only if no stage is open. */
  lemma AnswerAcceptedIff(cfg: Settings, f: Fields, t: Trace, result: Payload)
    requires Consistent(cfg, f, t) && Synced(f) && Writable(f) && t.committed != []
    ensures Next(f.check, Head(cfg, f, Answer(result))).Some? <==> Answerable(f, result)
  {
    hide Bytes, Progress, TerminalOf, Replay;
    HistoryIsValid(t.committed);
  }

  /** The stage frames one transition becomes: a stage never goes back, a stage still open when a
      later one starts is completed first, and only the open stage completes. */
  function StageFrames(cfg: Settings, f: Fields, tr: Transition): seq<Event> {
    var ms := ElapsedAtTime(cfg, f, tr.at);
    match tr.state
    case Started =>
      if f.lastStarted.Some? && tr.stage.Order() <= f.lastStarted.value.Order() then []
      else if f.open.Some? then
        [Event(f.seqNo + 1, cfg.requestId, StageChange(f.open.value, Completed, ms)),
         Event(f.seqNo + 2, cfg.requestId, StageChange(tr.stage, Started, ms))]
      else [Event(f.seqNo + 1, cfg.requestId, StageChange(tr.stage, Started, ms))]
    case Completed =>
      if f.open != Some(tr.stage) then []
      else [Event(f.seqNo + 1, cfg.requestId, StageChange(tr.stage, Completed, ms))]
  }

  /** The terminal an outcome asks for; an error body that cannot be decoded is an internal error. */
  function OutcomeBody(cfg: Settings, f: Fields, outcome: Outcome): (body: Body)
    requires !outcome.Nothing?
    ensures body.Terminal()
  {
    match outcome
    case AnswerBody(result) => Answer(result)
    case ErrorBody(Some(envelope)) => ErrorBodyOf(cfg, f, envelope)
    case ErrorBody(None) => ErrorBodyOf(cfg, f, cfg.internalEnvelope)
  }

  /** The terminal served in place of an outcome's own: the frame cap's when the contract would have
      taken the outcome, an internal error when it would not. */
  function Fallback(cfg: Settings, f: Fields, body: Body): Body {
    ErrorBodyOf(cfg, f, if Next(f.check, Head(cfg, f, body)).Some? then cfg.frameCapEnvelope else cfg.internalEnvelope)
  }

  /** One terminal was committed: the outcome's own, or its fallback. */
  ghost predicate Closed(cfg: Settings, f0: Fields, t0: Trace, body: Body, t1: Trace) {
    || t1.committed == t0.committed + [Head(cfg, f0, body)]
    || t1.committed == t0.committed + [Head(cfg, f0, Fallback(cfg, f0, body))]
  }

  /** What no call undoes: the history only grows; nothing follows a terminal or a failure; a lost
      viewer receives nothing more. */
  ghost predicate Grows(f0: Fields, t0: Trace, f1: Fields, t1: Trace) {
    && t0.committed <= t1.committed && t0.delivered <= t1.delivered
    && (f0.terminal.Some? ==> f1.terminal == f0.terminal && t1.committed == t0.committed && t1.marked == t0.marked)
    && (f0.failed.Some? ==> f1.failed.Some? && t1 == t0)
    && (f0.viewerGone ==> f1.viewerGone && t1.delivered == t0.delivered)
  }

  // ---------------------------------------------------------------------------
  // The writer
  // ---------------------------------------------------------------------------

  class InvestigationStream {
    const cfg: Settings
    // The run's event log, null for a run its connection owns.
    const store: Store?
    var f: Fields
    ghost var t: Trace

    /** What holds between two frames of one call. */
    ghost predicate Sound()
      reads this, store
    {
      && (cfg.leased <==> store != null)
      && Consistent(cfg, f, t) && BudgetTold(cfg, f, t)
      && (store != null ==> Log(store.rows, store.maxEvents, f, t) && Ending(cfg, store.rows, f, t))
      && Blame(cfg, if store == null then [] else store.rows, if store == null then 0 else store.failures, f, t)
    }

    /** What every call keeps. */
    ghost predicate Valid()
      reads this, store
    {
      Sound() && Synced(f)
    }

    constructor (cfg: Settings, store: Store?)
      requires cfg.caps.frameMax <= cfg.caps.reserve && 0 <= cfg.caps.total
      requires cfg.leased <==> store != null
      requires store != null ==> store.rows == [] && store.maxEvents >= 1
      ensures Valid() && t == Trace([], [], 0, [], None, false) && f == UNOPENED && this.cfg == cfg && this.store == store
    {
      this.cfg, this.store := cfg, store;
      f, t := UNOPENED, Trace([], [], 0, [], None, false);
      new;
      assert store != null ==> LogRows([], store.maxEvents) == [];
    }

    /** One frame to the connection; a failed write may have put any part of it on the wire. */
    method WriteFrame(size: nat) returns (ok: bool)
      modifies this`t
      ensures t == old(t).(wireBytes := t.wireBytes, broken := old(t.broken) || !ok)
      ensures ok ==> t.wireBytes == old(t.wireBytes) + size
      ensures !ok ==> old(t.wireBytes) <= t.wireBytes <= old(t.wireBytes) + size
    {
      ok := *;
      ghost var torn: int := *;
      t := t.(wireBytes := t.wireBytes + (if ok || torn > size then size else if torn < 0 then 0 else torn),
              broken := t.broken || !ok);
    }

    /** How often an append is tried: as configured, and at least once. */
    function Attempts(): (n: nat)
      ensures n >= 1 && n >= cfg.appendAttempts && (n == 1 || n == cfg.appendAttempts)
    {
      if cfg.appendAttempts < 1 then 1 else cfg.appendAttempts
    }

    /** One row to the run's log, retried while the store cannot be reached; other replicas may
        sweep the run between two attempts. */
    method AppendRow(row: Row, ghost e: Event) returns (result: AppendResult)
      requires store != null && store.maxEvents >= 1 && LogOf(store.rows, t.logged, store.maxEvents)
      requires row.content.Data? ==> row == DataRow(t.logged + [e], |t.logged|)
      requires row.content.End? ==> row.seqNo == |t.logged| + 1
      requires EndedBy(store.rows, cfg.lostEnvelope, None)
      modifies store, this`t
      // It gives up only when every attempt failed; a reply with no failed call before it means what it says.
      ensures old(store.failures) <= store.failures <= old(store.failures) + Attempts()
      ensures result.CallFailed? <==> store.failures == old(store.failures) + Attempts()
      ensures EndedBy(store.rows, cfg.lostEnvelope, if row.content.End? then Some(row) else None)
      ensures result == Replied(Appended) && row.content.End? ==> store.rows != [] && store.rows[|store.rows| - 1] == row
      ensures result == Replied(AlreadyEnded) ==> store.failures > old(store.failures) || TakenOver(store.rows, cfg.lostEnvelope)
      ensures result == Replied(SeqRefused) ==> store.failures > old(store.failures) || TakenOver(store.rows, cfg.lostEnvelope)
      ensures t == old(t).(logged := t.logged) && LogOf(store.rows, t.logged, store.maxEvents)
      ensures t.logged == old(t.logged) || (row.content.Data? && t.logged == old(t.logged) + [e])
      ensures result == Replied(Appended) && row.content.Data? ==> t.logged == old(t.logged) + [e]
      ensures row.content.Data? ==> result != Replied(AlreadyEnded)
      ensures row.content.End? && result.Replied? ==> HasEnd(store.rows) && result.reply != SeqRefused
    {
      ghost var base, own := t.logged, if row.content.End? then Some(row) else None;
      var attempts := Attempts();
      result := CallFailed;
      var attempt := 0;
      while attempt < attempts
        invariant t == old(t).(logged := t.logged) && LogOf(store.rows, t.logged, store.maxEvents)
        invariant t.logged == base || (row.content.Data? && t.logged == base + [e])
        invariant result == CallFailed && attempt <= attempts && store.failures == old(store.failures) + attempt
        invariant EndedBy(store.rows, cfg.lostEnvelope, own)
        invariant attempt == 0 ==> t.logged == base && EndedBy(store.rows, cfg.lostEnvelope, None)
      {
        ghost var before := store.rows;
        store.Interference(cfg.lostEnvelope);
        TakeoverKeepsLog(before, t.logged, cfg.lostEnvelope, store.maxEvents);
        TakeoverEnds(before, cfg.lostEnvelope, own);
        if attempt == 0 { TakeoverEnds(before, cfg.lostEnvelope, None); }
        ghost var rows := store.rows;
        result := store.AppendRunEvent(row);
        AppendKeepsLog(rows, base, e, t.logged, row, store.maxEvents);
        AppendEnds(rows, t.logged, row, cfg.lostEnvelope, own, store.maxEvents);
        if row.content.Data? && store.rows == Append(rows, row, store.maxEvents).0 && Append(rows, row, store.maxEvents).1 == Appended {
          t := t.(logged := base + [e]);
        }
        if result.Replied? {
          return;
        }
        attempt := attempt + 1;
      }
    }

    /** An event to the log before the connection: a frame as its row, a terminal as its marker. */
    method AppendToLog(event: Event) returns (err: Option<StreamError>)
      requires Valid() && store != null && Writable(f) && event == Head(cfg, f, event.body)
      modifies store, this
      ensures t == old(t).(logged := t.logged)
      ensures f == old(f).(failed := f.failed, runCancelled := f.runCancelled, logTerminalTaken := f.logTerminalTaken)
      ensures err == f.failed && (err.Some? ==> Valid())
      ensures err.None? ==> f.runCancelled == old(f.runCancelled)
      ensures err.None? ==> LogOf(store.rows, t.logged, store.maxEvents)
      ensures err.None? ==> t.logged == if event.body.Terminal() then t.committed else t.committed + [event]
      ensures err.None? ==> LogEnds(cfg, store.rows, f, MarkerOf(event.body, f.resultMarker), event.seqNo)
      ensures store.failures >= old(store.failures)
      ensures err.Some? ==> store.failures > old(store.failures) || TakenOver(store.rows, cfg.lostEnvelope)
      ensures f.logTerminalTaken && !old(f.logTerminalTaken) ==>
        event.body.Terminal() && (store.failures > old(store.failures) || TakenOver(store.rows, cfg.lostEnvelope))
      ensures event.body.Answer? && f.resultMarker.None? ==> store.rows == old(store.rows)
    {
      hide Next, Replay, Bytes, LogOf, Progress, TerminalOf, DataRow, HasEnd, TakenOver, StoppedFairly;
      ProgressOfOneMore(t.committed, event);
      var stage := StartedAfter(event.body, f.lastStarted);
      var row: Row;
      match event.body {
        case Answer(_) =>
          if f.resultMarker.None? {
            // The record's final state is unknown: the terminal is not logged.
            return None;
          }
          row := Row(event.seqNo, stage, End(f.resultMarker.value));
        case Failure(_, _, envelope) =>
          row := Row(event.seqNo, stage, End(ErrorMarker(envelope)));
        case _ =>
          row := Row(event.seqNo, stage, Data(event));
          StageOfRow(t.committed, f.check, event);
      }
      var result := AppendRow(row, event);
      if result.CallFailed? || result.reply == SeqRefused {
        f := f.(failed := Some(LogFailed), runCancelled := true);
        return f.failed;
      }
      if row.content.End? && result.reply == AlreadyEnded {
        f := f.(logTerminalTaken := true);
      }
      return None;
    }

    /** A failed write, or a frame that cannot be encoded, ends the stream; it also ends the run
        unless the run is leased. */
    method Fail(why: StreamError) returns (err: Option<StreamError>)
      modifies this`f
      ensures f == old(f).(failed := Some(why), runCancelled := old(f.runCancelled) || store == null) && err == f.failed
    {
      f := f.(failed := Some(why), runCancelled := f.runCancelled || store == null);
      return f.failed;
    }

    method FailEncoding(ghost event: Event) returns (err: Option<StreamError>)
      requires Valid() && Writable(f) && cfg.encode(event).None?
      modifies this`f
      ensures Valid() && err == f.failed
      ensures f == old(f).(failed := Some(MarshalFailed), runCancelled := old(f.runCancelled) || store == null)
    {
      hide Replay, Bytes, LogOf, Progress, TerminalOf;
      err := Fail(MarshalFailed);
    }

    /** The frame to the connection, while there is one. A leased run outlives its viewer. */
    method Deliver(event: Event, size: nat) returns (err: Option<StreamError>)
      requires cfg.leased <==> store != null
      requires Wire(cfg, f, t) && f.failed.None? && f.written + size <= cfg.caps.total
      modifies this
      ensures f == old(f).(viewerGone := f.viewerGone, failed := err, runCancelled := f.runCancelled)
      ensures t == old(t).(delivered := t.delivered, wireBytes := t.wireBytes, broken := t.broken)
      ensures t.broken <==> old(t.broken) || (f.viewerGone && !old(f.viewerGone)) || err.Some?
      ensures err.Some? ==> err == Some(WireFailed) && !cfg.leased && f.runCancelled && Wire(cfg, f, t)
      ensures old(f.viewerGone) ==> f.viewerGone && t.delivered == old(t.delivered)
      ensures err.None? ==>
        && f.runCancelled == old(f.runCancelled)
        && 0 <= t.wireBytes <= f.written + size
        && (f.viewerGone ==> cfg.leased && t.delivered == old(t.delivered))
        && (!f.viewerGone ==> t.delivered == t.committed + [event] && t.wireBytes == f.written + size)
    {
      if f.viewerGone {
        return None;
      }
      var ok := WriteFrame(size);
      if ok {
        t := t.(delivered := t.delivered + [event]);
      } else if store == null {
        err := Fail(WireFailed);
        return;
      } else {
        f := f.(viewerGone := true);
      }
      return None;
    }

    /** The frame passed the contract and the caps: log first, then the connection, then commit. */
    method Put(event: Event, size: nat) returns (err: Option<StreamError>)
      requires Valid() && Writable(f) && Passes(cfg, f, event, size)
      modifies this, store
      ensures Sound()
      ensures f.open == old(f.open) && f.lastStarted == old(f.lastStarted) && f.resultMarker == old(f.resultMarker)
      ensures !f.budgetExhausted && err == f.failed && old(t.delivered) <= t.delivered
      ensures err.Some? ==> err.value.Fatal()
      ensures old(f.viewerGone) ==> f.viewerGone && t.delivered == old(t.delivered)
      ensures err.None? ==> t.committed == old(t.committed) + [event] && f.written == old(f.written) + size
      ensures err.None? && !event.body.Terminal() ==> f.terminal.None?
      ensures err.None? ==> f.check.open == OpenAfter(event.body, f.open) && f.check.lastStarted == StartedAfter(event.body, f.lastStarted)
      ensures err.Some? ==> Synced(f) && t.committed == old(t.committed) && t.marked == old(t.marked)
      ensures err.None? ==> t.marked == if event.body.Terminal() then MarkerOf(event.body, old(f.resultMarker)) else old(t.marked)
    {
      hide Next, Replay, Bytes, LogOf, Progress, TerminalOf, HasEnd, TakenOver, StoppedFairly, Ending;
      ghost var f0, t0 := f, t;
      if store != null {
        err := AppendToLog(event);
        if err.Some? {
          return;
        }
      }
      err := Deliver(event, size);
      if err.Some? {
        return;
      }
      CommitKeepsCore(cfg, f0, t0, event, size);
      ProgressOfOneMore(t.committed, event);
      var next := Next(f.check, event).value;
      if store != null { CommitKeepsLog(cfg, store.rows, store.maxEvents, f, t, event, next, size); }
      t := Committed(f, t, event);
      f := Commit(f, event, next, size);
    }

    /** The contract's verdict on the next frame. */
    method Examine(event: Event) returns (next: Option<Check>)
      requires Valid() && Writable(f) && event == Head(cfg, f, event.body)
      ensures next == Next(f.check, event)
      ensures next.Some? && event.body.Terminal() ==> t.committed != []
      ensures next.None? && OwnError(cfg, f, event.body) && t.committed != [] ==> !ValidEvent(event)
    {
      next := Next(f.check, event);
      if next.Some? {
        NextMovesAsWritten(f.check, t.committed, event);
      }
      if OwnError(cfg, f, event.body) && t.committed != [] {
        ErrorTerminalIsInPlace(f.check, t.committed, event);
      }
    }

    /** One event to the wire. */
    method Write(body: Body) returns (err: Option<StreamError>)
      requires Valid()
      requires body.Accepted? ==> body.reserved == cfg.reserved
      modifies this, store
      ensures Sound()
      ensures Wrote(cfg, old(f), old(t), body, err, f, t)
      ensures old(Writable(f)) && OwnError(cfg, old(f), body) && old(t.committed) != [] && err.Some? ==>
        StoppedFairly(cfg, old(f), body, f)
      decreases if body.Terminal() then 0 else 2, 1
    {
      hide Next, Consistent, Log, ValidEvent;
      if f.failed.Some? {
        FailureIsFatal(cfg, f, t);
        return f.failed;
      }
      if f.budgetExhausted {
        return Some(BudgetExhausted);
      }
      if f.terminal.Some? {
        return Some(TerminalWritten);
      }
      var event := Head(cfg, f, body);
      var next := Examine(event);
      if next.None? {
        return Some(ContractRefused);
      }
      var frame := cfg.encode(event);
      if frame.None? {
        err := FailEncoding(event);
        return;
      }
      err := Place(body, frame.value);
    }

    /** A frame the contract took, against the byte caps. */
    method Place(body: Body, size: nat) returns (err: Option<StreamError>)
      requires Valid() && Writable(f) && Next(f.check, Head(cfg, f, body)).Some?
      requires body.Accepted? ==> body.reserved == cfg.reserved
      requires cfg.encode(Head(cfg, f, body)) == Some(size) && (body.Terminal() ==> t.committed != [])
      modifies this, store
      ensures Sound()
      ensures Wrote(cfg, old(f), old(t), body, err, f, t)
      ensures OwnError(cfg, old(f), body) && err.Some? ==> StoppedFairly(cfg, old(f), body, f)
      decreases if body.Terminal() then 0 else 2, 0
    {
      hide Next, Consistent, Log, ValidEvent;
      if body.Terminal() {
        TerminalFits(cfg, f, t, size);
      }
      match Measure(cfg.caps, f.written, size, body.Terminal()) {
        case OverFrame =>
          return Some(FrameOverCap);
        case Exhausts =>
          err := ExhaustBudget();
        case OverTotal =>
          // The reserve is at least the frame cap, and no terminal is the first frame.
          assert false;
        case Fits =>
          err := Put(Head(cfg, f, body), size);
      }
    }

    /** The next non-terminal frame would cross the budget: the stream ends with an error inside
        the reserve, and the run is cancelled. */
    method ExhaustBudget() returns (err: Option<StreamError>)
      requires Valid() && Writable(f)
      modifies this, store
      ensures Valid() && f.budgetExhausted && f.runCancelled && err.Some?
      ensures f.open == old(f.open) && f.lastStarted == old(f.lastStarted) && f.resultMarker == old(f.resultMarker)
      ensures old(t.delivered) <= t.delivered && err != Some(TerminalWritten)
      ensures old(f.viewerGone) ==> f.viewerGone && t.delivered == old(t.delivered)
      ensures err.value.Fatal() <==> f.failed.Some?
      ensures t.committed == old(t.committed) ||
        (err == Some(BudgetExhausted) &&
         t.committed == old(t.committed) + [Head(cfg, old(f), ErrorBodyOf(cfg, old(f), cfg.budgetEnvelope))])
      ensures old(t.committed) != [] && t.committed == old(t.committed) ==>
        StoppedFairly(cfg, old(f), ErrorBodyOf(cfg, old(f), cfg.budgetEnvelope), f)
      decreases 1, 0
    {
      hide Next, Replay, Bytes, LogOf, Progress, TerminalOf;
      err := Write(ErrorBodyOf(cfg, f, cfg.budgetEnvelope));
      if err.None? {
        ProgressOfOneMore(old(t.committed), Head(cfg, old(f), ErrorBodyOf(cfg, old(f), cfg.budgetEnvelope)));
        err := Some(BudgetExhausted);
      }
      f := f.(budgetExhausted := true, runCancelled := true);
    }

    /** The first event. */
    method Accept(budgetSeconds: int, submissionId: string, threadId: string) returns (err: Option<StreamError>)
      requires Valid()
      modifies this, store
      ensures Valid() && Grows(old(f), old(t), f, t)
      ensures err.None? ==>
        old(t.committed) == [] && t.committed == [Head(cfg, old(f), AcceptedBody(cfg, budgetSeconds, submissionId, threadId))]
      ensures err.None? ==> f.open == old(f.open) && f.lastStarted == old(f.lastStarted) && Writable(f)
      ensures err.None? ==> f.written == old(f.written) + FrameBytes(cfg.encode, t.committed[0])
      ensures old(t.committed) != [] ==> t.committed == old(t.committed)
      ensures old(t.committed) == [] && old(Writable(f)) && err.Some? ==>
        var body := AcceptedBody(cfg, budgetSeconds, submissionId, threadId);
        !ValidEvent(Head(cfg, old(f), body)) || Stopped(cfg, old(f), body, err, f)
    {
      hide Next, Consistent, Log, ValidEvent;
      AcceptedOnce(cfg, f, t, AcceptedBody(cfg, budgetSeconds, submissionId, threadId));
      ghost var before := t;
      err := Write(AcceptedBody(cfg, budgetSeconds, submissionId, threadId));
      if err.None? {
        AcceptedIsFirst(cfg, f, t);
      }
    }

    /** One stage frame, with the fields moved once it is committed. */
    method WriteStage(stage: Stage, state: StageState, at: int) returns (err: Option<StreamError>)
      requires Valid()
      modifies this, store
      ensures Valid() && Grows(old(f), old(t), f, t)
      ensures f.resultMarker == old(f.resultMarker)
      ensures err.None? ==>
        && t.committed == old(t.committed) + [Event(old(f.seqNo) + 1, cfg.requestId, StageChange(stage, state, ElapsedAtTime(cfg, old(f), at)))]
        && f.lastElapsed == ElapsedAtTime(cfg, old(f), at)
        && f.open == (if state == Started then Some(stage) else None)
        && f.lastStarted == (if state == Started then Some(stage) else old(f.lastStarted))
        && Writable(f)
        && f.written == old(f.written) + FrameBytes(cfg.encode, t.committed[|old(t.committed)|])
      ensures old(t.committed) != [] && old(Writable(f)) && !Takes(cfg, old(f), stage, state, at) ==>
        err == Some(ContractRefused) && f == old(f) && t == old(t)
      ensures old(t.committed) != [] && old(Writable(f)) && Takes(cfg, old(f), stage, state, at) && err.Some? ==>
        Stopped(cfg, old(f), StageChange(stage, state, ElapsedAtTime(cfg, old(f), at)), err, f)
      ensures !old(Writable(f)) ==> f == old(f) && t == old(t) && err.Some?
    {
      hide Next, Replay, Bytes, LogOf, Progress;
      if t.committed != [] && Writable(f) {
        StageAcceptedIff(cfg, f, t, stage, state, at);
      }
      var body := StageChange(stage, state, ElapsedAtTime(cfg, f, at));
      err := Write(body);
      if err.None? {
        assert t.committed[|t.committed| - 1].body == body;
        f := f.(open := OpenAfter(body, f.open), lastStarted := StartedAfter(body, f.lastStarted));
        LastElapsedIsReplayed(t.committed);
      }
    }

    /** The transition starts a later stage: the open one is completed first. */
    method StartStage(tr: Transition) returns (err: Option<StreamError>)
      requires Valid() && tr.state == Started
      requires f.lastStarted.None? || f.lastStarted.value.Order() < tr.stage.Order()
      modifies this, store
      ensures Valid() && Grows(old(f), old(t), f, t)
      ensures err.None? ==> t.committed == old(t.committed) + StageFrames(cfg, old(f), tr)
      ensures err.None? ==> Writable(f) && f.open == Some(tr.stage) && f.lastStarted == Some(tr.stage)
      ensures old(t.committed) != [] && TooLate(cfg, old(f), tr.at) ==>
        f == old(f) && t == old(t) && (err.None? ==> StageFrames(cfg, old(f), tr) == [])
      ensures old(t.committed) != [] && old(Writable(f)) && !TooLate(cfg, old(f), tr.at) && InRange(cfg, old(f), tr) && err.Some? ==>
        || f.failed.Some? || OverCap(cfg, StageFrames(cfg, old(f), tr))
        || Spent(cfg, old(f), Bytes(cfg.encode, StageFrames(cfg, old(f), tr)))
    {
      hide Next, Consistent, Log;
      ghost var frames := StageFrames(cfg, f, tr);
      OpenIsKnown(cfg, f, t);
      BytesOfFrames(cfg.encode, frames);
      if f.open.Some? {
        ghost var first := Head(cfg, f, StageChange(f.open.value, Completed, ElapsedAtTime(cfg, f, tr.at)));
        assert frames[0] == first;
        err := WriteStage(f.open.value, Completed, tr.at);
        if err.Some? {
          return;
        }
        OpenIsKnown(cfg, f, t);
      }
      ghost var last := Head(cfg, f, StageChange(tr.stage, Started, ElapsedAtTime(cfg, f, tr.at)));
      assert frames[|frames| - 1] == last;
      err := WriteStage(tr.stage, Started, tr.at);
    }

    /** One engine transition. */
    method Advance(tr: Transition) returns (err: Option<StreamError>)
      requires Valid()
      modifies this, store
      ensures Valid() && Grows(old(f), old(t), f, t)
      ensures err.None? ==> t.committed == old(t.committed) + StageFrames(cfg, old(f), tr)
      ensures err.None? && StageFrames(cfg, old(f), tr) != [] ==>
        Writable(f) && f.open == (if tr.state == Started then Some(tr.stage) else None)
      // A later stage is never dropped: it is started, after the open one is completed; the open stage's
      // completion closes it; anything else commits nothing.
      ensures tr.state == Started && (old(f.lastStarted).None? || old(f.lastStarted).value.Order() < tr.stage.Order()) && err.None? ==>
        && f.open == Some(tr.stage) && f.lastStarted == Some(tr.stage)
        && |t.committed| == |old(t.committed)| + (if old(f.open).Some? then 2 else 1)
        && t.committed[|t.committed| - 1].body == StageChange(tr.stage, Started, ElapsedAtTime(cfg, old(f), tr.at))
        && (old(f.open).Some? ==>
              t.committed[|old(t.committed)|].body == StageChange(old(f.open).value, Completed, ElapsedAtTime(cfg, old(f), tr.at)))
      ensures tr.state == Completed && old(f.open) == Some(tr.stage) && err.None? ==>
        && f.open.None? && |t.committed| == |old(t.committed)| + 1
        && t.committed[|t.committed| - 1].body == StageChange(tr.stage, Completed, ElapsedAtTime(cfg, old(f), tr.at))
      ensures (if tr.state == Started then old(f.lastStarted).Some? && tr.stage.Order() <= old(f.lastStarted).value.Order()
               else old(f.open) != Some(tr.stage)) ==> err.None? && f == old(f) && t == old(t)
      // A stamp past the silence bound commits nothing, whatever the clock says; one inside it is
      // stopped by nothing but a failed stream, the byte budget or the frame cap.
      ensures old(t.committed) != [] && TooLate(cfg, old(f), tr.at) ==>
        f == old(f) && t == old(t) && (err.None? ==> StageFrames(cfg, old(f), tr) == [])
      ensures old(t.committed) != [] && old(Writable(f)) && !TooLate(cfg, old(f), tr.at) && InRange(cfg, old(f), tr) && err.Some? ==>
        || f.failed.Some? || OverCap(cfg, StageFrames(cfg, old(f), tr))
        || Spent(cfg, old(f), Bytes(cfg.encode, StageFrames(cfg, old(f), tr)))
    {
      hide Next, Consistent, Log;
      match tr.state {
        case Started =>
          if f.lastStarted.Some? && tr.stage.Order() <= f.lastStarted.value.Order() {
            return None;
          }
          err := StartStage(tr);
        case Completed =>
          if f.open != Some(tr.stage) {
            return None;
          }
          ghost var frames := StageFrames(cfg, f, tr);
          assert frames[0] == Head(cfg, f, StageChange(tr.stage, Completed, ElapsedAtTime(cfg, f, tr.at)));
          BytesOfFrames(cfg.encode, frames);
          err := WriteStage(tr.stage, Completed, tr.at);
      }
    }

    method Beat(now: int) returns (err: Option<StreamError>)
      requires Valid()
      modifies this, store
      ensures Valid() && Grows(old(f), old(t), f, t)
      ensures err.None? ==> t.committed == old(t.committed) + [Head(cfg, old(f), Heartbeat(old(f.open), ElapsedAtTime(cfg, old(f), now)))]
      ensures TooLate(cfg, old(f), now) ==> err.Some? && f == old(f) && t == old(t)
      ensures err.None? ==> Writable(f) && f.written == old(f.written) + FrameBytes(cfg.encode, t.committed[|t.committed| - 1])
      ensures f.open == old(f.open) && f.lastStarted == old(f.lastStarted)
      ensures err.Some? ==> |t.committed| <= |old(t.committed)| + 1
      // In time, nothing but a failed stream, the frame cap or the byte budget keeps it off.
      ensures old(Writable(f)) && old(t.committed) != [] && !TooLate(cfg, old(f), now) && CanCarry(cfg, old(f), now) && err.Some? ==>
        Stopped(cfg, old(f), Heartbeat(old(f.open), ElapsedAtTime(cfg, old(f), now)), err, f)
    {
      hide Next, Replay, Bytes, LogOf, Progress, TerminalOf, StoppedFairly;
      if TooLate(cfg, f, now) {
        LateBeatIsRefused(cfg, f, f.open, now);
      }
      if Writable(f) && t.committed != [] {
        BeatAcceptedIff(cfg, f, t, now);
      }
      err := Write(Heartbeat(f.open, ElapsedAtTime(cfg, f, now)));
    }

    /** The terminal from what the delivery produced; it reports the terminal the stream carries. */
    method Finish(outcome: Outcome) returns (reported: Option<TerminalKind>)
      requires Valid()
      modifies this, store
      ensures Valid() && Grows(old(f), old(t), f, t) && f.open == old(f.open)
      ensures reported.Some? ==> reported == TerminalOf(t.committed)
      ensures old(f.terminal).None? || old(f.budgetExhausted) ==> reported == TerminalOf(t.committed)
      ensures old(f.budgetExhausted) ==> f == old(f) && t == old(t)
      // A terminal that a finish or an abort already wrote is neither repeated nor reported again.
      ensures old(f.terminal).Some? && !old(f.budgetExhausted) ==> reported.None? && t.committed == old(t.committed)
      ensures reported == Some(ResultEvent) ==>
        outcome.AnswerBody? && t.committed == old(t.committed) + [Head(cfg, old(f), Answer(outcome.body))]
      // An answer is committed only with no stage open; then nothing but a failed stream or the frame
      // cap keeps a conforming one off the stream.
      ensures reported == Some(ResultEvent) ==> old(f.open).None?
      ensures old(Writable(f)) && old(t.committed) != [] && outcome.AnswerBody? && Answerable(old(f), outcome.body) ==>
        || reported == Some(ResultEvent) || f.failed.Some?
        || FrameBytes(cfg.encode, Head(cfg, old(f), Answer(outcome.body))) > cfg.caps.frameMax
      ensures t.committed == old(t.committed) || (!outcome.Nothing? && Closed(cfg, old(f), old(t), OutcomeBody(cfg, old(f), outcome), t))
      ensures reported == Some(ResultEvent) ==> t.marked == old(f.resultMarker)
      // The error that ends it is the delivered one, unless that one is itself stopped; an answer that
      // cannot be sent ends with the frame cap's error when only its size is in the way.
      ensures old(Writable(f)) && old(t.committed) != [] && outcome.ErrorBody? ==>
        var envelope := if outcome.envelope.Some? then outcome.envelope.value else cfg.internalEnvelope;
        || t.committed == old(t.committed) + [Event(old(f.seqNo) + 1, cfg.requestId, Failure(cfg.reserved, old(f.lastStarted), envelope))]
        || StoppedFairly(cfg, old(f), Failure(cfg.reserved, old(f.lastStarted), envelope), f)
      ensures old(Writable(f)) && old(t.committed) != [] && outcome.AnswerBody? && reported == Some(ErrorEvent) ==>
        var envelope := if Answerable(old(f), outcome.body) then cfg.frameCapEnvelope else cfg.internalEnvelope;
        t.committed == old(t.committed) + [Event(old(f.seqNo) + 1, cfg.requestId, Failure(cfg.reserved, old(f.lastStarted), envelope))]
      // Never a silent end: an outcome with no terminal means a failed stream, or a fallback its own
      // schema or the frame cap stops.
      ensures old(Writable(f)) && old(t.committed) != [] && !outcome.Nothing? && reported.None? ==>
        StoppedFairly(cfg, old(f), Fallback(cfg, old(f), OutcomeBody(cfg, old(f), outcome)), f)
    {
      hide Next, Replay, Bytes, LogOf, Progress, TerminalOf;
      if f.budgetExhausted {
        return f.terminal;
      }
      if outcome.Nothing? {
        return None;
      }
      OpenIsKnown(cfg, f, t);
      if outcome.AnswerBody? && t.committed != [] && Writable(f) {
        AnswerAcceptedIff(cfg, f, t, outcome.body);
      }
      reported := Conclude(OutcomeBody(cfg, f, outcome));
      if old(f.terminal).None? { ProgressOfOneMore(old(t.committed), Head(cfg, old(f), OutcomeBody(cfg, old(f), outcome))); }
    }

    /** The outcome's own terminal, or the fallback when the contract or the frame cap refuses it. */
    method Conclude(body: Body) returns (reported: Option<TerminalKind>)
      requires Valid() && !f.budgetExhausted && body.Terminal()
      modifies this, store
      ensures Valid() && Grows(old(f), old(t), f, t) && f.open == old(f.open)
      ensures old(f.terminal).None? ==> reported == TerminalOf(t.committed)
      ensures old(f.terminal).Some? ==> reported.None? && t.committed == old(t.committed)
      ensures reported == Some(ResultEvent) ==>
        body.Answer? && t.committed == old(t.committed) + [Head(cfg, old(f), body)] && t.marked == old(f.resultMarker)
      ensures old(Writable(f)) && old(t.committed) != [] && OwnError(cfg, old(f), body) ==>
        t.committed == old(t.committed) + [Head(cfg, old(f), body)] || StoppedFairly(cfg, old(f), body, f)
      ensures t.committed == old(t.committed) || Closed(cfg, old(f), old(t), body, t)
      ensures old(Writable(f)) && Next(old(f).check, Head(cfg, old(f), body)).None? ==> reported != Some(ResultEvent)
      ensures old(Writable(f)) && Next(old(f).check, Head(cfg, old(f), body)).Some? ==>
        || (reported == Some(KindOf(body)) && t.committed == old(t.committed) + [Head(cfg, old(f), body)])
        || f.failed.Some? || FrameBytes(cfg.encode, Head(cfg, old(f), body)) > cfg.caps.frameMax
      ensures old(Writable(f)) && old(t.committed) != [] && reported.None? ==>
        StoppedFairly(cfg, old(f), Fallback(cfg, old(f), body), f)
    {
      hide Next, Replay, Bytes, LogOf, Progress, TerminalOf;
      var err := Write(body);
      if err.None? {
        ProgressOfOneMore(old(t.committed), Head(cfg, old(f), body));
        return Some(KindOf(body));
      }
      if f.failed.Some? || err == Some(TerminalWritten) {
        return None;
      }
      assert err == Some(FrameOverCap) <==> Next(f.check, Head(cfg, f, body)).Some?;
      reported := FinishWith(if err == Some(FrameOverCap) then cfg.frameCapEnvelope else cfg.internalEnvelope);
    }

    /** The fallback terminal of an outcome that could not be streamed. */
    method FinishWith(fallback: Payload) returns (reported: Option<TerminalKind>)
      requires Valid() && Writable(f)
      modifies this, store
      ensures Valid() && Grows(old(f), old(t), f, t) && f.open == old(f.open)
      ensures reported == TerminalOf(t.committed) && reported != Some(ResultEvent)
      ensures t.committed == old(t.committed) + if reported.None? then [] else [Head(cfg, old(f), ErrorBodyOf(cfg, old(f), fallback))]
      ensures reported.None? && old(t.committed) != [] ==> StoppedFairly(cfg, old(f), ErrorBodyOf(cfg, old(f), fallback), f)
    {
      hide Next, Replay, Bytes, LogOf, Progress, TerminalOf;
      var err := Write(ErrorBodyOf(cfg, f, fallback));
      if err.Some? {
        return None;
      }
      ProgressOfOneMore(old(t.committed), Head(cfg, old(f), ErrorBodyOf(cfg, old(f), fallback)));
      return Some(ErrorEvent);
    }

    /** The end of a stream whose handler panicked. */
    method Abort()
      requires Valid()
      modifies this, store
      ensures Valid() && Grows(old(f), old(t), f, t)
      ensures old(f.terminal).Some? || old(f.failed).Some? ==> f == old(f) && t == old(t)
      ensures t.committed == old(t.committed) ||
        t.committed == old(t.committed) + [Head(cfg, old(f), ErrorBodyOf(cfg, old(f), cfg.internalEnvelope))]
      ensures old(Writable(f)) && old(t.committed) != [] && t.committed == old(t.committed) ==>
        StoppedFairly(cfg, old(f), ErrorBodyOf(cfg, old(f), cfg.internalEnvelope), f)
    {
      hide Next, Replay, Bytes, LogOf, Progress, TerminalOf;
      if f.terminal.Some? || f.failed.Some? {
        return;
      }
      var err := Write(ErrorBodyOf(cfg, f, cfg.internalEnvelope));
      if err.None? {
        assert t.committed[|t.committed| - 1].body.Failure?;
      }
    }

    /** A panic on the pump: nothing more is written, and the run ends. */
    method FailAfterPanic()
      requires Valid()
      modifies this`f
      ensures Valid() && f == old(f).(failed := Some(Panicked), runCancelled := true)
    {
      f := f.(failed := Some(Panicked), runCancelled := true);
    }

    /** The record's final state, known before the terminal is written. */
    method MarkResult(marker: Option<Marker>)
      requires Valid()
      modifies this`f
      ensures Valid() && f == old(f).(resultMarker := marker)
    {
      f := f.(resultMarker := marker);
    }

    /** Another replica sweeps the run. */
    method Swept(taker: string, now: int)
      requires Valid() && store != null
      modifies store
      ensures Valid()
    {
      hide Consistent, LogOf, BudgetTold, StoppedFairly, TakenOver, HasEnd, EndAsLost;
      ghost var before := store.rows;
      var taken := store.ReapLostRun(taker, cfg.lostEnvelope, now);
      SweepEnds(cfg, before, f, t);
      TakeoverKeepsLog(before, t.logged, cfg.lostEnvelope, store.maxEvents);
    }
  }

  /** A sweep of the log leaves its end where it was, or ends it as taken over. */
  lemma SweepEnds(cfg: Settings, rows: seq<Row>, f: Fields, t: Trace)
    requires Ending(cfg, rows, f, t)
    ensures Ending(cfg, EndAsLost(rows, cfg.lostEnvelope), f, t)
    ensures TakenOver(rows, cfg.lostEnvelope) ==> EndAsLost(rows, cfg.lostEnvelope) == rows
  {
    var m := if f.terminal.Some? then t.marked else None;
    if f.failed.None? && m.Some? {
      assert rows[|rows| - 1].content.End?;
    }
    if TakenOver(rows, cfg.lostEnvelope) { assert rows[|rows| - 1].content.End?; }
  }

  lemma AcceptedIsFirst(cfg: Settings, f: Fields, t: Trace)
    requires Consistent(cfg, f, t) && t.committed != [] && t.committed[|t.committed| - 1].body.Accepted?
    ensures |t.committed| == 1
  {
    hide Next, Bytes;
    CheckAcceptsTheGrammar(t.committed);
    assert AllowedAt(t.committed, |t.committed| - 1);
  }

  lemma LastElapsedIsReplayed(es: seq<Event>)
    requires Replay(es).Some? && es != [] && es[|es| - 1].body.Elapsed().Some?
    ensures Replay(es).value.lastElapsed == es[|es| - 1].body.Elapsed().value
  {
    PaceOf(Replay(es[..|es| - 1]).value, es[|es| - 1]);
  }

  // ---------------------------------------------------------------------------
  // Whole runs
  // ---------------------------------------------------------------------------

  /** One locked call, or a step of another replica, in the order the lock admits them. */
  datatype Step =
    | DoAccept(budgetSeconds: int, submissionId: string, threadId: string)
    | DoAdvance(transition: Transition)
    | DoBeat(now: int)
    | DoFinish(outcome: Outcome)
    | DoAbort
    | DoPanic
    | DoMark(marker: Option<Marker>)
    | DoSweep(taker: string, sweptAt: int)

  /** The step carries no stamp that the contract could still take. */
  predicate Silent(cfg: Settings, f: Fields, step: Step) {
    match step
    case DoAdvance(tr) => TooLate(cfg, f, tr.at)
    case DoBeat(now) => TooLate(cfg, f, now)
    case _ => true
  }

  predicate AllSilent(cfg: Settings, f: Fields, steps: seq<Step>) {
    forall i :: 0 <= i < |steps| ==> Silent(cfg, f, steps[i])
  }

  /** Nothing was committed but at most an error terminal. */
  ghost predicate OnlyFailed(t0: Trace, t1: Trace) {
    || t1.committed == t0.committed
    || (|t1.committed| == |t0.committed| + 1 && t1.committed[..|t0.committed|] == t0.committed
        && t1.committed[|t0.committed|].body.Failure?)
  }

  /** Such a stream stands where it stood: same open stage, same elapsed value, no answer. */
  lemma StandsStill(cfg: Settings, f0: Fields, t0: Trace, f1: Fields, t1: Trace)
    requires Consistent(cfg, f0, t0) && Synced(f0) && Consistent(cfg, f1, t1) && Synced(f1) && OnlyFailed(t0, t1)
    ensures f1.open == f0.open && f1.lastElapsed == f0.lastElapsed
    ensures f1.terminal == f0.terminal || f1.terminal == Some(ErrorEvent)
  {
    hide Bytes, Progress, Next;
    if t1.committed != t0.committed {
      assert t1.committed[..|t1.committed| - 1] == t0.committed;
      NextMovesAsWritten(f0.check, t0.committed, t1.committed[|t0.committed|]);
    }
  }

  /** Any run: any calls in any order, any failures inside them. And the run of a stage left open past
      the silence bound: while no stamp lies inside the bound, the stage stays open and no answer is
      ever committed, whatever else is called. */
  method Drive(stream: InvestigationStream, steps: seq<Step>)
    requires stream.Valid()
    modifies stream, stream.store
    ensures stream.Valid() && Grows(old(stream.f), old(stream.t), stream.f, stream.t)
    ensures old(stream.f.open).Some? && old(stream.f.terminal).None? && AllSilent(stream.cfg, old(stream.f), steps) ==>
      stream.f.open == old(stream.f.open) && stream.f.terminal != Some(ResultEvent)
    ensures stream.f.budgetExhausted && stream.t.committed != [] ==>
      var last := Failure(stream.cfg.reserved, stream.f.lastStarted, stream.cfg.budgetEnvelope);
      stream.t.committed[|stream.t.committed| - 1].body == last || StoppedFairly(stream.cfg, stream.f, last, stream.f)
  {
    hide Consistent, Log, Silent, OnlyFailed;
    var i := 0;
    ghost var silent := stream.f.open.Some? && stream.f.terminal.None? && AllSilent(stream.cfg, stream.f, steps);
    while i < |steps|
      invariant stream.Valid() && Grows(old(stream.f), old(stream.t), stream.f, stream.t)
      invariant silent ==>
        && stream.f.open == old(stream.f.open) && stream.f.lastElapsed == old(stream.f.lastElapsed)
        && stream.f.terminal != Some(ResultEvent)
    {
      ghost var f0, t0 := stream.f, stream.t;
      if silent { SilentIsByElapsed(stream.cfg, old(stream.f), f0, steps[i]); }
      TakeStep(stream, steps[i]);
      GrowsOn(old(stream.f), old(stream.t), f0, t0, stream.f, stream.t);
      if silent { StandsStill(stream.cfg, f0, t0, stream.f, stream.t); }
      i := i + 1;
    }
  }

  lemma SilentIsByElapsed(cfg: Settings, f: Fields, g: Fields, step: Step)
    requires f.lastElapsed == g.lastElapsed
    ensures Silent(cfg, f, step) == Silent(cfg, g, step)
  {
  }

  method TakeStep(stream: InvestigationStream, step: Step)
    requires stream.Valid()
    modifies stream, stream.store
    ensures stream.Valid() && Grows(old(stream.f), old(stream.t), stream.f, stream.t)
    ensures old(stream.f.open).Some? && Silent(stream.cfg, old(stream.f), step) ==> OnlyFailed(old(stream.t), stream.t)
  {
    hide Consistent, Log, Next;
    OpenIsKnown(stream.cfg, stream.f, stream.t);
    match step {
      case DoAccept(budget, submission, thread) => var err := stream.Accept(budget, submission, thread);
      case DoAdvance(tr) => var err := stream.Advance(tr);
      case DoBeat(now) => var err := stream.Beat(now);
      case DoFinish(outcome) =>
        ghost var f0, t0 := stream.f, stream.t;
        var reported := stream.Finish(outcome);
        if f0.open.Some? { FinishedOpen(stream.cfg, f0, t0, outcome, stream.t); }
      case DoAbort => stream.Abort();
      case DoPanic => stream.FailAfterPanic();
      case DoMark(marker) => stream.MarkResult(marker);
      case DoSweep(taker, now) =>
        if stream.store != null {
          stream.Swept(taker, now);
        }
    }
  }

  /** With a stage open a finish commits nothing but an error. */
  lemma FinishedOpen(cfg: Settings, f0: Fields, t0: Trace, outcome: Outcome, t1: Trace)
    requires !outcome.Nothing? || t1.committed == t0.committed
    requires t1.committed == t0.committed || Closed(cfg, f0, t0, OutcomeBody(cfg, f0, outcome), t1)
    requires t1.committed != [] ==> !t1.committed[|t1.committed| - 1].body.Answer? || t1.committed == t0.committed
    ensures OnlyFailed(t0, t1)
  {
    hide Next;
  }

  /** WHEN AN OPEN RUN CAN STILL BE ANSWERED. Completing the open stage and answering commits the answer
      if and only if the completion's stamp lies inside the silence bound, bytes, failures and the
      contract's largest integer aside. */
  method CompleteAndAnswer(stream: InvestigationStream, at: int, result: Payload) returns (reported: Option<TerminalKind>)
    requires stream.Valid() && Writable(stream.f) && stream.f.open.Some? && result.text != "" && result.conforms
    modifies stream, stream.store
    ensures stream.Valid() && Grows(old(stream.f), old(stream.t), stream.f, stream.t)
    ensures reported == Some(ResultEvent) ==> !TooLate(stream.cfg, old(stream.f), at)
    ensures var cfg, f0, tr := stream.cfg, old(stream.f), Transition(old(stream.f.open).value, Completed, at);
      var answer := Event(f0.seqNo + 2, cfg.requestId, Answer(result));
      !TooLate(cfg, f0, at) && InRange(cfg, f0, tr) ==>
        || reported == Some(ResultEvent) || stream.f.failed.Some?
        || OverCap(cfg, StageFrames(cfg, f0, tr) + [answer]) || Spent(cfg, f0, Bytes(cfg.encode, StageFrames(cfg, f0, tr)))
  {
    hide Next, Consistent, Log;
    ghost var cfg, f0, t0 := stream.cfg, stream.f, stream.t;
    OpenIsKnown(cfg, f0, t0);
    var tr := Transition(stream.f.open.value, Completed, at);
    ghost var frames, answer := StageFrames(cfg, f0, tr), Event(f0.seqNo + 2, cfg.requestId, Answer(result));
    CapOfMore(cfg, frames, answer);
    var err := stream.Advance(tr);
    if err.Some? {
      return None;
    }
    OpenIsKnown(cfg, stream.f, stream.t);
    ghost var f1, t1 := stream.f, stream.t;
    reported := stream.Finish(AnswerBody(result));
    GrowsOn(f0, t0, f1, t1, stream.f, stream.t);
    assert frames == [frames[0]] && f1.seqNo == f0.seqNo + 1;
  }

  lemma CapOfMore(cfg: Settings, frames: seq<Event>, e: Event)
    ensures OverCap(cfg, frames) || FrameBytes(cfg.encode, e) > cfg.caps.frameMax ==> OverCap(cfg, frames + [e])
  {
    var all := frames + [e];
    assert forall i :: 0 <= i < |frames| ==> all[i] == frames[i];
    assert all[|frames|] == e;
  }

  const ENVELOPE: Payload := Payload("{}", true)
  const SMALL: Encoder := (e: Event) => Some(100)
  const PLAIN: Settings :=
    Settings(WithByteCaps(1_000), SMALL, "r", "reserved", 0, false, 1, ENVELOPE, Payload("budget", true), Payload("cap", true), Payload("internal", true))

  /** A RUN THAT CANNOT ANSWER: accepted, one stage started, its completion stamped eleven seconds and a
      millisecond later. Unless the connection fails, the stage stays open, the conforming answer is
      refused and an internal error ends the stream. */
  method SilentRun() returns (stream: InvestigationStream, reported: Option<TerminalKind>)
    ensures fresh(stream) && stream.Valid() && stream.cfg == PLAIN
    ensures stream.f.failed.Some? ||
      (reported == Some(ErrorEvent) && stream.f.open == Some(Interpreting) && |stream.t.committed| == 3
       && stream.t.committed[2].body == Failure("reserved", Some(Interpreting), Payload("internal", true)))
  {
    hide Next, Consistent, Log;
    stream := new InvestigationStream(PLAIN, null);
    reported := None;
    SmallFrames();
    assert PLAIN.encode == SMALL && PLAIN.caps.frameMax == 66_536 && PLAIN.caps.total == 8_388_608;
    assert |"reserved"| == 8;
    var err := stream.Accept(60, "", "");
    if err.Some? {
      assert stream.f.failed.Some?;
      return;
    }
    assert stream.f.written == 100;
    OpenIsKnown(PLAIN, stream.f, stream.t);
    ghost var f1, start := stream.f, Transition(Interpreting, Started, 0);
    StampOfStart(PLAIN, f1, stream.t);
    assert StageFrames(PLAIN, f1, start) == [Event(2, "r", StageChange(Interpreting, Started, 0))];
    BytesOfFrames(SMALL, StageFrames(PLAIN, f1, start));
    err := stream.Advance(Transition(Interpreting, Started, 0));
    if err.Some? {
      assert stream.f.failed.Some?;
      return;
    }
    LastStamp(PLAIN, stream.f, stream.t);
    OpenIsKnown(PLAIN, stream.f, stream.t);
    err := stream.Advance(Transition(Interpreting, Completed, 11_001));
    ghost var f2, t2 := stream.f, stream.t;
    OpenIsKnown(PLAIN, f2, t2);
    reported := stream.Finish(AnswerBody(ENVELOPE));
    assert ValidEvent(Head(PLAIN, f2, Fallback(PLAIN, f2, Answer(ENVELOPE))));
    assert TerminalOf(t2.committed).None?;
  }

  lemma StampOfStart(cfg: Settings, f: Fields, t: Trace)
    requires Consistent(cfg, f, t) && |t.committed| == 1 && cfg.startedAt == 0
    ensures f.lastElapsed == 0 && ElapsedAtTime(cfg, f, 0) == 0
  {
    hide Bytes, Progress, TerminalOf;
    assert t.committed[..0] == [] && Replay(t.committed[..0]) == Some(FRESH);
  }

  /** The same service with room for two frames and a terminal. */
  const TIGHT: Settings := PLAIN.(caps := Caps(100, 300, 100))

  /** A RUN THAT SPENDS ITS BUDGET: accepted, one heartbeat, and a second one that would cross into the
      reserve. Unless the connection fails, the stream ends with the budget's error inside the reserve, and
      the answer that comes later is not streamed: the finish reports the error. */
  method BudgetRun() returns (stream: InvestigationStream, reported: Option<TerminalKind>)
    ensures fresh(stream) && stream.Valid() && stream.cfg == TIGHT
    ensures stream.f.failed.Some? ||
      (reported == Some(ErrorEvent) && |stream.t.committed| == 3 && stream.f.runCancelled
       && stream.t.committed[2].body == Failure("reserved", None, Payload("budget", true)))
  {
    hide Next, Consistent, Log, WithByteCaps;
    stream := new InvestigationStream(TIGHT, null);
    reported := None;
    SmallFrames();
    assert TIGHT.encode == SMALL && TIGHT.caps == Caps(100, 300, 100) && |"reserved"| == 8;
    var err := stream.Accept(60, "", "");
    if err.Some? {
      assert stream.f.failed.Some?;
      return;
    }
    OpenIsKnown(TIGHT, stream.f, stream.t);
    StampOfStart(TIGHT, stream.f, stream.t);
    err := stream.Beat(0);
    if err.Some? {
      assert stream.f.failed.Some?;
      return;
    }
    LastStamp(TIGHT, stream.f, stream.t);
    OpenIsKnown(TIGHT, stream.f, stream.t);
    ghost var f1, t1 := stream.f, stream.t;
    err := stream.Beat(0);
    assert err.Some? by { if err.None? { SpentFrame(TIGHT, stream.f, stream.t); } }
    if stream.f.failed.Some? {
      return;
    }
    SpentIsCancelled(TIGHT, stream.f, stream.t);
    OpenIsKnown(TIGHT, stream.f, stream.t);
    ghost var told := ErrorBodyOf(TIGHT, stream.f, TIGHT.budgetEnvelope);
    assert ValidEvent(Head(TIGHT, stream.f, told));
    assert stream.t.committed[|stream.t.committed| - 1].body == told;
    reported := stream.Finish(AnswerBody(ENVELOPE));
  }

  /** A committed frame that is no terminal left the reserve alone. */
  lemma SpentFrame(cfg: Settings, f: Fields, t: Trace)
    requires Consistent(cfg, f, t) && t.committed != [] && f.terminal.None?
    ensures f.written <= cfg.caps.total - cfg.caps.reserve
  {
    hide Next, Bytes, Replay;
  }

  lemma SpentIsCancelled(cfg: Settings, f: Fields, t: Trace)
    requires Consistent(cfg, f, t) && f.budgetExhausted
    ensures f.runCancelled
  {
    hide Next, Bytes, Replay;
  }

  /** The writer's elapsed value is the last one committed. */
  lemma LastStamp(cfg: Settings, f: Fields, t: Trace)
    requires Consistent(cfg, f, t) && t.committed != [] && t.committed[|t.committed| - 1].body.Elapsed().Some?
    ensures f.lastElapsed == t.committed[|t.committed| - 1].body.Elapsed().value
  {
    hide Bytes, Progress, TerminalOf, Next;
    LastElapsedIsReplayed(t.committed);
  }

  lemma SmallFrames()
    ensures forall e :: FrameBytes(SMALL, e) == 100
  {
  }

  lemma GrowsOn(f0: Fields, t0: Trace, f1: Fields, t1: Trace, f2: Fields, t2: Trace)
    requires Grows(f0, t0, f1, t1) && Grows(f1, t1, f2, t2)
    ensures Grows(f0, t0, f2, t2)
  {
  }

  // ---------------------------------------------------------------------------
  // What a reader of the stream may rely on, in every state a run reaches
  // ---------------------------------------------------------------------------

  /** Frames and terminal: the committed frames obey the contract's grammar, carry seq 1..n with one
      request id, never go back in time, and at most the last is a terminal. */
  lemma FramesInOrder(cfg: Settings, f: Fields, t: Trace)
    requires Consistent(cfg, f, t)
    ensures InGrammar(t.committed)
    ensures forall i :: 0 <= i < |t.committed| ==> t.committed[i].seqNo == i + 1 && t.committed[i].requestId == cfg.requestId
    ensures forall i :: 0 <= i < |t.committed| && t.committed[i].body.Terminal() ==>
      i == |t.committed| - 1 && f.terminal == Some(KindOf(t.committed[i].body))
    ensures forall i, j :: 0 <= i < j < |t.committed| && t.committed[i].body.Elapsed().Some? && t.committed[j].body.Elapsed().Some? ==>
      t.committed[i].body.Elapsed().value <= t.committed[j].body.Elapsed().value
  {
    hide Next, Bytes;
    var es := t.committed;
    CheckAcceptsTheGrammar(es);
    ElapsedNeverDecreases(es);
    forall i | 0 <= i < |es|
      ensures es[i].seqNo == i + 1 && es[i].requestId == cfg.requestId
      ensures es[i].body.Terminal() ==> i == |es| - 1
    {
      assert AllowedAt(es, i) && AllowedAt(es, |es| - 1);
    }
  }

  /** Stage grammar: starts strictly increase, and the writer's two stage fields are a replay of the
      committed frames. */
  lemma StagesInOrder(cfg: Settings, f: Fields, t: Trace)
    requires Consistent(cfg, f, t) && Synced(f)
    ensures forall i, j :: 0 <= i < j < |t.committed| && t.committed[i].body.Starts() && t.committed[j].body.Starts() ==>
      t.committed[i].body.stage.Order() < t.committed[j].body.stage.Order()
    ensures forall j :: 0 <= j < |t.committed| && t.committed[j].body.Completes() ==> OpenAt(t.committed, j, t.committed[j].body.stage)
    ensures forall s :: OpenAt(t.committed, |t.committed|, s) <==> f.open == Some(s)
    ensures forall s :: LastStartedAt(t.committed, |t.committed|, s) <==> f.lastStarted == Some(s)
  {
    hide Next, Bytes, OpenAt, LastStartedAt;
    var es := t.committed;
    CheckAcceptsTheGrammar(es);
    forall j | 0 <= j < |es|
      ensures forall i :: 0 <= i < j && es[i].body.Starts() && es[j].body.Starts() ==> es[i].body.stage.Order() < es[j].body.stage.Order()
      ensures es[j].body.Completes() ==> OpenAt(es, j, es[j].body.stage)
    {
      assert AllowedAt(es, j);
    }
  }

  /** Byte budget: no run puts more than the total on the wire, torn frames included, and until a
      terminal is committed the frames stay out of the reserve. */
  lemma BytesWithinBudget(cfg: Settings, f: Fields, t: Trace)
    requires Consistent(cfg, f, t)
    ensures t.wireBytes <= cfg.caps.total && Bytes(cfg.encode, t.committed) <= cfg.caps.total
    ensures forall i :: 0 <= i < |t.committed| && !t.committed[i].body.Terminal() ==>
      Bytes(cfg.encode, t.committed[..i + 1]) <= cfg.caps.total - cfg.caps.reserve
  {
    hide Next, Bytes;
    var es := t.committed;
    FramesInOrder(cfg, f, t);
    forall i | 0 <= i < |es| && !es[i].body.Terminal()
      ensures Bytes(cfg.encode, es[..i + 1]) <= cfg.caps.total - cfg.caps.reserve
    {
      BytesOfPrefix(cfg.encode, Progress(es), i + 1);
      assert Progress(es)[..i + 1] == es[..i + 1];
    }
  }

  /** A prefix takes no more bytes than the whole. */
  lemma {:induction false} BytesOfPrefix(encode: Encoder, es: seq<Event>, k: nat)
    requires k <= |es|
    ensures Bytes(encode, es[..k]) <= Bytes(encode, es)
  {
    if k == |es| {
      assert es[..k] == es;
    } else {
      BytesOfPrefix(encode, es[..|es| - 1], k);
      assert es[..|es| - 1][..k] == es[..k];
    }
  }

  /** Log before wire: on a leased run every frame the connection took whole is a committed one, and
      every non-terminal one of them was in the log first, at its own seq. */
  lemma LogBeforeWire(cfg: Settings, rows: seq<Row>, maxEvents: nat, f: Fields, t: Trace)
    requires Consistent(cfg, f, t) && Log(rows, maxEvents, f, t)
    ensures t.delivered <= t.committed
    ensures forall m :: 0 <= m < |t.delivered| && !t.delivered[m].body.Terminal() ==>
      m < |t.logged| && t.logged[m] == t.delivered[m] && t.delivered[m].seqNo == m + 1
    ensures f.failed.None? ==> t.logged == Progress(t.committed)
  {
    hide Next, Bytes;
    FramesInOrder(cfg, f, t);
  }

  /** Attach anywhere: a client that saw seq k finds in the log every later non-terminal frame the
      bounded log still covers, each with its own content, and at most one terminal, last. */
  lemma AttachFindsEveryEvent(cfg: Settings, rows: seq<Row>, maxEvents: nat, f: Fields, t: Trace, m: nat)
    requires Consistent(cfg, f, t) && Log(rows, maxEvents, f, t)
    requires Oldest(|t.logged|, maxEvents) <= m < |Progress(t.committed)|
    ensures var i := m - Oldest(|t.logged|, maxEvents);
      i < |rows| && rows[i].seqNo == m + 1 && rows[i].content == Data(t.committed[m])
    ensures forall i :: 0 <= i < |rows| && rows[i].content.End? ==> i == |rows| - 1 && rows[i].seqNo == |t.logged| + 1
  {
    hide Next, Bytes, Replay;
    LogRowsShape(t.logged, maxEvents);
    assert t.logged[m] == Progress(t.committed)[m] == t.committed[m];
  }

  /** Attach after the end: the log of a leased run that committed its terminal and did not fail ends with
      that terminal, at its own seq: an error with its own envelope, an answer with the marker noted for
      it. The one exception is a takeover that came first, which the writer then knows; and an answer
      whose marker is not known leaves the log open to a takeover. */
  lemma AttachFindsTheEnd(cfg: Settings, rows: seq<Row>, maxEvents: nat, failures: nat, f: Fields, t: Trace)
    requires Consistent(cfg, f, t) && Log(rows, maxEvents, f, t) && Ending(cfg, rows, f, t) && Blame(cfg, rows, failures, f, t)
    requires f.failed.None? && f.terminal.Some?
    ensures var end := t.committed[|t.committed| - 1];
      var marker := if end.body.Failure? then Some(ErrorMarker(end.body.envelope)) else t.marked;
      if marker.Some? then
        && rows != []
        && (rows[|rows| - 1] == Row(end.seqNo, f.lastStarted, End(marker.value)) || (f.logTerminalTaken && TakenOver(rows, cfg.lostEnvelope)))
      else !HasEnd(rows) || TakenOver(rows, cfg.lostEnvelope)
    ensures failures == 0 && f.logTerminalTaken ==> TakenOver(rows, cfg.lostEnvelope)
  {
    hide Next, Bytes, Replay, LogOf;
    FramesInOrder(cfg, f, t);
  }

  /** An undisturbed run: with no failed connection write or store call, no takeover and every event
      encodable, nothing but a panic fails the stream, and every committed frame was delivered whole. */
  lemma UndisturbedRun(cfg: Settings, rows: seq<Row>, failures: nat, f: Fields, t: Trace)
    requires Consistent(cfg, f, t) && Blame(cfg, rows, failures, f, t)
    requires !t.broken && failures == 0 && !TakenOver(rows, cfg.lostEnvelope) && forall e :: cfg.encode(e).Some?
    ensures f.failed.None? || f.failed == Some(Panicked)
    ensures !f.viewerGone && !f.logTerminalTaken && t.delivered == t.committed
    ensures f.failed.None? ==> t.wireBytes == Bytes(cfg.encode, t.committed)
  {
    hide Next, Bytes, Replay;
  }

  /** A stream that ended early cancelled its run: one that failed, unless it is leased and a frame could
      not be encoded, and one that spent its budget, which then never carries an answer. */
  lemma EarlyEndCancels(cfg: Settings, f: Fields, t: Trace)
    requires Consistent(cfg, f, t)
    ensures f.failed.Some? && !(cfg.leased && f.failed == Some(MarshalFailed)) ==> f.runCancelled
    ensures f.budgetExhausted ==> f.runCancelled && forall i :: 0 <= i < |t.committed| ==> !t.committed[i].body.Answer?
  {
    hide Next, Bytes;
    FramesInOrder(cfg, f, t);
  }
}
