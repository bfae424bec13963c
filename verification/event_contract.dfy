/** The investigation event contract: one event's own validity, the stream check that
    every producer and consumer feeds event by event, and the stream grammar stated
    declaratively. The main theorem says that the check accepts exactly the grammar. */
module EventContract {
  import opened Prelude

  /** The closed, ordered stage vocabulary; `Unknown` is any other spelling. */
  datatype Stage =
    | Interpreting
    | ResolvingSubjects
    | ReadingFacts
    | Synthesizing
    | Validating
    | Unknown(name: string)
  {
    function Order(): nat {
      match this
      case Interpreting => 1
      case ResolvingSubjects => 2
      case ReadingFacts => 3
      case Synthesizing => 4
      case Validating => 5
      case Unknown(_) => 0
    }
  }

  datatype StageState = Started | Completed

  /** A result body or an error envelope. `conforms` is the verdict of the payload's own
      schema validator, which is foreign code. */
  datatype Payload = Payload(text: string, conforms: bool)

  /** The type-dependent part of an event. */
  datatype Body =
    | Accepted(reserved: string, submissionId: string, threadId: string, startedAt: int, budgetSeconds: int)
    | StageChange(stage: Stage, state: StageState, stageElapsed: int)
    | Heartbeat(openStage: Option<Stage>, beatElapsed: int)
    | Answer(result: Payload)
    | Failure(reservedResult: string, lastStage: Option<Stage>, envelope: Payload)
  {
    predicate Terminal() { Answer? || Failure? }

    /** The elapsed_ms field, absent on accepted and on both terminals. */
    function Elapsed(): Option<int> {
      match this
      case StageChange(_, _, ms) => Some(ms)
      case Heartbeat(_, ms) => Some(ms)
      case _ => None
    }

    predicate Starts() { StageChange? && state == Started }

    predicate Completes() { StageChange? && state == Completed }
  }

  datatype Event = Event(seqNo: int, requestId: string, body: Body)

  const MAX_INTEGER: int := 0x1F_FFFF_FFFF_FFFF
  const MAX_SILENCE_MS: int := 11_000

  predicate LengthBetween(s: string, lo: nat, hi: nat) { lo <= |s| <= hi }

  /** One event against the event schema, without its place in a stream. The client
      correlation id grammar and UTF-8 validity are foreign checks folded into `conforms`. */
  predicate ValidEvent(e: Event) {
    && LengthBetween(e.requestId, 1, 256)
    && 1 <= e.seqNo <= MAX_INTEGER
    && match e.body
       case Accepted(reserved, _, _, _, budget) => LengthBetween(reserved, 8, 256) && 1 <= budget <= MAX_INTEGER
       case StageChange(stage, _, ms) => stage.Order() != 0 && 0 <= ms <= MAX_INTEGER
       case Heartbeat(open, ms) => (open.Some? ==> open.value.Order() != 0) && 0 <= ms <= MAX_INTEGER
       case Answer(result) => result.text != "" && result.conforms
       case Failure(reserved, last, envelope) =>
         && LengthBetween(reserved, 8, 256)
         && (last.Some? ==> last.value.Order() != 0)
         && envelope.conforms
  }

  /** The state of the stream check. */
  datatype Check = Check(
    count: nat,
    requestId: string,
    reserved: string,
    lastSeq: int,
    lastElapsed: int,
    lastStarted: Option<Stage>,
    open: Option<Stage>,
    terminal: bool)

  const FRESH := Check(0, "", "", 0, 0, None, None, false)

  /** The check's opening rules: accepted first and only first, seq by one, one request id. */
  function Place(c: Check, e: Event): Option<Check> {
    if c.count == 0 then
      if e.body.Accepted? && e.seqNo == 1 then Some(c.(requestId := e.requestId, reserved := e.body.reserved)) else None
    else
      if e.body.Accepted? || e.seqNo != c.lastSeq + 1 || e.requestId != c.requestId then None else Some(c)
  }

  /** The elapsed_ms rules: never back, never more than the silence bound ahead. */
  function Pace(c: Check, e: Event): Option<Check> {
    match e.body.Elapsed()
    case None => Some(c)
    case Some(ms) =>
      if ms < c.lastElapsed || ms - c.lastElapsed > MAX_SILENCE_MS then None else Some(c.(lastElapsed := ms))
  }

  /** The per-type rules. */
  function Kind(c: Check, e: Event): Option<Check> {
    match e.body
    case Accepted(_, _, _, _, _) => Some(c)
    case StageChange(stage, Started, _) =>
      if c.open.Some? || (c.lastStarted.Some? && stage.Order() <= c.lastStarted.value.Order()) then None
      else Some(c.(open := Some(stage), lastStarted := Some(stage)))
    case StageChange(stage, Completed, _) =>
      if c.open != Some(stage) then None else Some(c.(open := None))
    case Heartbeat(open, _) => if open != c.open then None else Some(c)
    case Answer(_) => if c.open.Some? then None else Some(c.(terminal := true))
    case Failure(reserved, last, _) =>
      if reserved != c.reserved || last != c.lastStarted then None else Some(c.(terminal := true))
  }

  /** One step of the check: `None` is a refusal, and a refusal has no next state. */
  function Next(c: Check, e: Event): Option<Check> {
    if !ValidEvent(e) || c.terminal then None else
    match Place(c, e)
    case None => None
    case Some(c1) =>
      match Pace(c1, e)
      case None => None
      case Some(c2) =>
        match Kind(c2, e)
        case None => None
        case Some(c3) => Some(c3.(count := c3.count + 1, lastSeq := e.seqNo))
  }

  /** The check fed a whole sequence, in order. */
  function Replay(es: seq<Event>): Option<Check> {
    if es == [] then Some(FRESH) else
    match Replay(es[..|es| - 1])
    case None => None
    case Some(c) => Next(c, es[|es| - 1])
  }

  // ---------------------------------------------------------------------------
  // The grammar, stated on positions rather than on a running state
  // ---------------------------------------------------------------------------

  /** Stage `s` is open just before position `j`: it started, and no stage event came since. */
  ghost predicate OpenAt(es: seq<Event>, j: int, s: Stage)
    requires 0 <= j <= |es|
  {
    exists i :: 0 <= i < j && es[i].body.Starts() && es[i].body.stage == s && NoStageEvent(es, i + 1, j)
  }

  ghost predicate NoStageEvent(es: seq<Event>, lo: int, hi: int)
    requires 0 <= lo && hi <= |es|
  {
    forall k :: lo <= k < hi ==> !es[k].body.StageChange?
  }

  /** `s` is the last stage started before position `j`. */
  ghost predicate LastStartedAt(es: seq<Event>, j: int, s: Stage)
    requires 0 <= j <= |es|
  {
    exists i :: 0 <= i < j && es[i].body.Starts() && es[i].body.stage == s && NoStart(es, i + 1, j)
  }

  ghost predicate NoStart(es: seq<Event>, lo: int, hi: int)
    requires 0 <= lo && hi <= |es|
  {
    forall k :: lo <= k < hi ==> !es[k].body.Starts()
  }

  /** `ms` is the elapsed value in force before position `j`: the last one carried, 0 when none was. */
  ghost predicate ElapsedAt(es: seq<Event>, j: int, ms: int)
    requires 0 <= j <= |es|
  {
    || (ms == 0 && NoElapsed(es, 0, j))
    || exists i :: 0 <= i < j && es[i].body.Elapsed() == Some(ms) && NoElapsed(es, i + 1, j)
  }

  ghost predicate NoElapsed(es: seq<Event>, lo: int, hi: int)
    requires 0 <= lo && hi <= |es|
  {
    forall k :: lo <= k < hi ==> es[k].body.Elapsed().None?
  }

  ghost predicate NoneOpenAt(es: seq<Event>, j: int)
    requires 0 <= j <= |es|
  {
    forall s :: !OpenAt(es, j, s)
  }

  /** What the contract asks of the event at position `j`, given the ones before it. */
  ghost predicate AllowedAt(es: seq<Event>, j: int)
    requires 0 <= j < |es|
  {
    var e := es[j];
    && ValidEvent(e)
    && e.seqNo == j + 1
    && e.requestId == es[0].requestId
    && (e.body.Accepted? <==> j == 0)
    && (forall i :: 0 <= i < j ==> !es[i].body.Terminal())
    && (e.body.Elapsed().Some? ==>
          forall ms :: ElapsedAt(es, j, ms) ==> 0 <= e.body.Elapsed().value - ms <= MAX_SILENCE_MS)
    && match e.body
       case Accepted(_, _, _, _, _) => true
       case StageChange(s, Started, _) =>
         && NoneOpenAt(es, j)
         && forall i :: 0 <= i < j && es[i].body.Starts() ==> es[i].body.stage.Order() < s.Order()
       case StageChange(s, Completed, _) => OpenAt(es, j, s)
       case Heartbeat(None, _) => NoneOpenAt(es, j)
       case Heartbeat(Some(s), _) => OpenAt(es, j, s)
       case Answer(_) => NoneOpenAt(es, j)
       case Failure(reserved, last, _) =>
         && es[0].body.Accepted? && reserved == es[0].body.reserved
         && match last
            case None => NoStart(es, 0, j)
            case Some(s) => LastStartedAt(es, j, s)
  }

  ghost predicate InGrammar(es: seq<Event>) {
    forall j :: 0 <= j < |es| ==> AllowedAt(es, j)
  }

  // ---------------------------------------------------------------------------
  // The check's state is the history
  // ---------------------------------------------------------------------------

  /** What a check state says about the events it consumed. */
  ghost predicate Reflects(c: Check, es: seq<Event>) {
    && c.count == |es|
    && c.lastSeq == |es|
    && (es == [] ==> c == FRESH)
    && (es != [] ==> es[0].body.Accepted? && c.requestId == es[0].requestId && c.reserved == es[0].body.reserved)
    && (forall ms :: ElapsedAt(es, |es|, ms) <==> ms == c.lastElapsed)
    && (forall s :: OpenAt(es, |es|, s) <==> c.open == Some(s))
    && (forall s :: LastStartedAt(es, |es|, s) <==> c.lastStarted == Some(s))
    && (c.lastStarted.None? <==> NoStart(es, 0, |es|))
    && (forall i :: 0 <= i < |es| && es[i].body.Starts() ==>
          c.lastStarted.Some? && es[i].body.stage.Order() <= c.lastStarted.value.Order())
    && (c.open.Some? ==> c.open == c.lastStarted)
    && (c.terminal <==> exists i :: 0 <= i < |es| && es[i].body.Terminal())
  }

  /** Positions up to |es| of `es + [e]` see only `es`. */
  lemma PrefixLocal(es: seq<Event>, e: Event, j: int)
    requires 0 <= j <= |es|
    ensures forall s :: OpenAt(es + [e], j, s) <==> OpenAt(es, j, s)
    ensures forall s :: LastStartedAt(es + [e], j, s) <==> LastStartedAt(es, j, s)
    ensures forall ms :: ElapsedAt(es + [e], j, ms) <==> ElapsedAt(es, j, ms)
    ensures NoStart(es + [e], 0, j) <==> NoStart(es, 0, j)
  {
    var fs := es + [e];
    assert forall k :: 0 <= k < j ==> fs[k] == es[k];
    forall i | 0 <= i <= j
      ensures NoStageEvent(fs, i, j) <==> NoStageEvent(es, i, j)
      ensures NoStart(fs, i, j) <==> NoStart(es, i, j)
      ensures NoElapsed(fs, i, j) <==> NoElapsed(es, i, j)
    {
    }
    forall s ensures OpenAt(fs, j, s) <==> OpenAt(es, j, s) {
      if OpenAt(fs, j, s) {
        var i :| 0 <= i < j && fs[i].body.Starts() && fs[i].body.stage == s && NoStageEvent(fs, i + 1, j);
        assert es[i].body.Starts() && NoStageEvent(es, i + 1, j);
      }
      if OpenAt(es, j, s) {
        var i :| 0 <= i < j && es[i].body.Starts() && es[i].body.stage == s && NoStageEvent(es, i + 1, j);
        assert fs[i].body.Starts() && NoStageEvent(fs, i + 1, j);
      }
    }
    forall s ensures LastStartedAt(fs, j, s) <==> LastStartedAt(es, j, s) {
      if LastStartedAt(fs, j, s) {
        var i :| 0 <= i < j && fs[i].body.Starts() && fs[i].body.stage == s && NoStart(fs, i + 1, j);
        assert es[i].body.Starts() && NoStart(es, i + 1, j);
      }
      if LastStartedAt(es, j, s) {
        var i :| 0 <= i < j && es[i].body.Starts() && es[i].body.stage == s && NoStart(es, i + 1, j);
        assert fs[i].body.Starts() && NoStart(fs, i + 1, j);
      }
    }
    forall ms ensures ElapsedAt(fs, j, ms) <==> ElapsedAt(es, j, ms) {
      if i :| 0 <= i < j && fs[i].body.Elapsed() == Some(ms) && NoElapsed(fs, i + 1, j) {
        assert es[i].body.Elapsed() == Some(ms) && NoElapsed(es, i + 1, j);
      }
      if i :| 0 <= i < j && es[i].body.Elapsed() == Some(ms) && NoElapsed(es, i + 1, j) {
        assert fs[i].body.Elapsed() == Some(ms) && NoElapsed(fs, i + 1, j);
      }
    }
  }

  lemma AllowedIsLocal(es: seq<Event>, e: Event, j: int)
    requires 0 <= j < |es|
    ensures AllowedAt(es + [e], j) <==> AllowedAt(es, j)
  {
    PrefixLocal(es, e, j);
    var fs := es + [e];
    assert forall k :: 0 <= k < |es| ==> fs[k] == es[k];
    assert NoneOpenAt(fs, j) <==> NoneOpenAt(es, j);
  }

  /** How one more event moves the open stage ... */
  lemma OpenStep(es: seq<Event>, e: Event, s: Stage)
    ensures OpenAt(es + [e], |es| + 1, s) <==>
      (e.body.Starts() && e.body.stage == s) || (!e.body.StageChange? && OpenAt(es, |es|, s))
  {
    var fs, n := es + [e], |es|;
    PrefixLocal(es, e, n);
    assert fs[n] == e;
    if OpenAt(fs, n + 1, s) {
      var i :| 0 <= i < n + 1 && fs[i].body.Starts() && fs[i].body.stage == s && NoStageEvent(fs, i + 1, n + 1);
      if i < n {
        assert NoStageEvent(fs, i + 1, n);
        assert OpenAt(fs, n, s);
      }
    }
    if e.body.Starts() && e.body.stage == s {
      assert NoStageEvent(fs, n + 1, n + 1);
    }
    if !e.body.StageChange? && OpenAt(fs, n, s) {
      var i :| 0 <= i < n && fs[i].body.Starts() && fs[i].body.stage == s && NoStageEvent(fs, i + 1, n);
      assert NoStageEvent(fs, i + 1, n + 1);
    }
  }

  /** ... the last stage started ... */
  lemma LastStartedStep(es: seq<Event>, e: Event, s: Stage)
    ensures LastStartedAt(es + [e], |es| + 1, s) <==>
      (e.body.Starts() && e.body.stage == s) || (!e.body.Starts() && LastStartedAt(es, |es|, s))
  {
    var fs, n := es + [e], |es|;
    PrefixLocal(es, e, n);
    assert fs[n] == e;
    if LastStartedAt(fs, n + 1, s) {
      var i :| 0 <= i < n + 1 && fs[i].body.Starts() && fs[i].body.stage == s && NoStart(fs, i + 1, n + 1);
      if i < n {
        assert NoStart(fs, i + 1, n);
        assert LastStartedAt(fs, n, s);
      }
    }
    if e.body.Starts() && e.body.stage == s {
      assert NoStart(fs, n + 1, n + 1);
    }
    if !e.body.Starts() && LastStartedAt(fs, n, s) {
      var i :| 0 <= i < n && fs[i].body.Starts() && fs[i].body.stage == s && NoStart(fs, i + 1, n);
      assert NoStart(fs, i + 1, n + 1);
    }
  }

  /** ... and the elapsed value in force. */
  lemma ElapsedStep(es: seq<Event>, e: Event, ms: int)
    ensures ElapsedAt(es + [e], |es| + 1, ms) <==>
      e.body.Elapsed() == Some(ms) || (e.body.Elapsed().None? && ElapsedAt(es, |es|, ms))
  {
    var fs, n := es + [e], |es|;
    PrefixLocal(es, e, n);
    assert fs[n] == e;
    if i :| 0 <= i < n && fs[i].body.Elapsed() == Some(ms) && NoElapsed(fs, i + 1, n + 1) {
      assert NoElapsed(fs, i + 1, n);
      assert ElapsedAt(fs, n, ms);
    }
    if e.body.Elapsed() == Some(ms) {
      assert NoElapsed(fs, n + 1, n + 1);
    }
    if e.body.Elapsed().None? {
      if NoElapsed(fs, 0, n) { assert NoElapsed(fs, 0, n + 1); }
      if i :| 0 <= i < n && fs[i].body.Elapsed() == Some(ms) && NoElapsed(fs, i + 1, n) {
        assert NoElapsed(fs, i + 1, n + 1);
      }
    }
    if NoElapsed(fs, 0, n + 1) { assert NoElapsed(fs, 0, n); }
  }

  lemma NoStartStep(es: seq<Event>, e: Event)
    ensures NoStart(es + [e], 0, |es| + 1) <==> NoStart(es, 0, |es|) && !e.body.Starts()
  {
    var fs, n := es + [e], |es|;
    assert fs[n] == e;
    assert forall k :: 0 <= k < n ==> fs[k] == es[k];
    if NoStart(fs, 0, n + 1) {
      forall k | 0 <= k < n ensures !es[k].body.Starts() {
        assert !fs[k].body.Starts();
      }
    }
  }

  /** A check step is accepted exactly at an allowed position. */
  lemma StepIsAllowed(c: Check, es: seq<Event>, e: Event)
    requires Reflects(c, es)
    ensures Next(c, e).Some? <==> AllowedAt(es + [e], |es|)
  {
    hide ValidEvent, OpenAt, LastStartedAt, ElapsedAt;
    var fs, n := es + [e], |es|;
    assert fs[n] == e && (es != [] ==> fs[0] == es[0]);
    PrefixLocal(es, e, n);
    assert forall k :: 0 <= k < n ==> fs[k] == es[k];
    assert NoneOpenAt(fs, n) <==> c.open.None? by {
      if c.open.Some? { assert OpenAt(fs, n, c.open.value); }
    }
    assert (forall i :: 0 <= i < n ==> !fs[i].body.Terminal()) <==> !c.terminal;
    assert forall ms :: ElapsedAt(fs, n, ms) <==> ms == c.lastElapsed;
    assert ElapsedAt(fs, n, c.lastElapsed);
    if e.body.StageChange? { StartOrder(c, es, e); }
    assert NoStart(fs, 0, n) <==> c.lastStarted.None?;
  }

  /** An accepted step moves the check's three stage and time fields as the history moves. */
  lemma StepMovesHistory(c: Check, es: seq<Event>, e: Event, fs: seq<Event>, m: int)
    requires Reflects(c, es) && Next(c, e).Some? && fs == es + [e] && m == |fs|
    ensures forall s :: OpenAt(fs, m, s) <==> Next(c, e).value.open == Some(s)
    ensures forall s :: LastStartedAt(fs, m, s) <==> Next(c, e).value.lastStarted == Some(s)
    ensures forall ms :: ElapsedAt(fs, m, ms) <==> ms == Next(c, e).value.lastElapsed
  {
    hide ValidEvent, OpenAt, LastStartedAt, ElapsedAt;
    var c' := Next(c, e).value;
    var n := |es|;
    forall s ensures OpenAt(fs, m, s) <==> c'.open == Some(s) {
      assert OpenAt(es, n, s) <==> c.open == Some(s);
      OpenStep(es, e, s);
    }
    forall s ensures LastStartedAt(fs, m, s) <==> c'.lastStarted == Some(s) {
      assert LastStartedAt(es, n, s) <==> c.lastStarted == Some(s);
      LastStartedStep(es, e, s);
    }
    forall ms ensures ElapsedAt(fs, m, ms) <==> ms == c'.lastElapsed {
      assert ElapsedAt(es, n, ms) <==> ms == c.lastElapsed;
      ElapsedStep(es, e, ms);
    }
  }

  /** The check state after an accepted step still is the history. */
  lemma StepReflects(c: Check, es: seq<Event>, e: Event)
    requires Reflects(c, es) && Next(c, e).Some?
    ensures Reflects(Next(c, e).value, es + [e])
  {
    hide ValidEvent, OpenAt, LastStartedAt, ElapsedAt;
    var fs, n := es + [e], |es|;
    var c' := Next(c, e).value;
    StepMovesHistory(c, es, e, fs, |fs|);
    assert fs[n] == e && (es != [] ==> fs[0] == es[0]);
    NoStartStep(es, e);
    assert c'.terminal <==> exists i :: 0 <= i < |fs| && fs[i].body.Terminal() by {
      if e.body.Terminal() { assert fs[n].body.Terminal(); }
    }
  }

  /** The check compares with the last start only; the grammar with every start. */
  lemma StartOrder(c: Check, es: seq<Event>, e: Event)
    requires Reflects(c, es) && e.body.StageChange?
    ensures (c.lastStarted.Some? ==> c.lastStarted.value.Order() < e.body.stage.Order()) <==>
      forall i :: 0 <= i < |es| && es[i].body.Starts() ==> es[i].body.stage.Order() < e.body.stage.Order()
  {
    if c.lastStarted.Some? {
      assert LastStartedAt(es, |es|, c.lastStarted.value);
    }
  }

  lemma FreshReflectsNothing()
    ensures Reflects(FRESH, [])
  {
    assert ElapsedAt([], 0, 0);
  }

  /** THE CONTRACT THEOREM. The event-by-event check accepts a sequence exactly when every
      position obeys the declarative grammar, and its state is then the stream's history. */
  lemma {:induction false} CheckAcceptsTheGrammar(es: seq<Event>)
    ensures Replay(es).Some? <==> InGrammar(es)
    ensures Replay(es).Some? ==> Reflects(Replay(es).value, es)
  {
    hide Next, AllowedAt, Reflects;
    if es == [] {
      FreshReflectsNothing();
    } else {
      var n := |es| - 1;
      var front, e := es[..n], es[n];
      CheckAcceptsTheGrammar(front);
      assert es == front + [e];
      forall j | 0 <= j < n ensures AllowedAt(es, j) <==> AllowedAt(front, j) {
        AllowedIsLocal(front, e, j);
      }
      if Replay(front).Some? {
        StepIsAllowed(Replay(front).value, front, e);
        if Replay(es).Some? { StepReflects(Replay(front).value, front, e); }
      }
    }
  }

  /** A refused prefix stays refused. */
  lemma {:induction false} PrefixAccepted(es: seq<Event>, k: nat)
    requires k <= |es| && Replay(es).Some?
    ensures Replay(es[..k]).Some?
  {
    if k == |es| {
      assert es[..k] == es;
    } else {
      var front := es[..|es| - 1];
      PrefixAccepted(front, k);
      assert front[..k] == es[..k];
    }
  }

  /** One step past the silence bound carries no elapsed value and leaves stage and time alone. */
  lemma SilentStep(c: Check, e: Event, clock: int)
    requires Next(c, e).Some? && clock - c.lastElapsed > MAX_SILENCE_MS
    requires e.body.Elapsed().Some? ==> e.body.Elapsed().value >= clock
    ensures e.body.Elapsed().None?
    ensures Next(c, e).value.lastElapsed == c.lastElapsed && Next(c, e).value.open == c.open
    ensures c.open.Some? ==> !e.body.Answer?
  {
  }

  ghost predicate NoEarlierThan(es: seq<Event>, clock: int) {
    forall i :: 0 <= i < |es| && es[i].body.Elapsed().Some? ==> es[i].body.Elapsed().value >= clock
  }

  ghost predicate NoAnswer(es: seq<Event>) {
    forall i :: 0 <= i < |es| ==> !es[i].body.Answer?
  }

  /** Once the clock is past the silence bound, no stage event and no heartbeat is ever accepted
      again; and a stage left open at that moment rules out an answer. Such a stream can only
      end with an error, or end without a terminal. */
  lemma {:induction false} SilentStreamCannotAnswer(es: seq<Event>, more: seq<Event>, clock: int)
    requires Replay(es + more).Some?
    requires Replay(es).Some? && clock - Replay(es).value.lastElapsed > MAX_SILENCE_MS
    requires NoEarlierThan(more, clock)
    ensures NoElapsed(more, 0, |more|)
    ensures Replay(es + more).value.lastElapsed == Replay(es).value.lastElapsed
    ensures Replay(es + more).value.open == Replay(es).value.open
    ensures Replay(es).value.open.Some? ==> NoAnswer(more)
  {
    hide Next;
    if more == [] {
      assert es + more == es;
    } else {
      var n := |more| - 1;
      var front, last := more[..n], more[n];
      var whole := es + more;
      assert whole[..|whole| - 1] == es + front && whole[|whole| - 1] == last;
      assert Replay(es + front).Some?;
      SilentStreamCannotAnswer(es, front, clock);
      SilentStep(Replay(es + front).value, last, clock);
      assert NoElapsed(front, 0, n);
      assert more == front + [last];
    }
  }

  /** The stream can still be answered by events whose elapsed values are not before `stamp`. */
  ghost predicate CanStillAnswer(es: seq<Event>, stamp: int) {
    exists more :: Replay(es + more).Some? && NoEarlierThan(more, stamp) && !NoAnswer(more)
  }

  /** An answer needs a stage event first when a stage is open. */
  lemma AnswerNeedsCompletion(es: seq<Event>, more: seq<Event>, j: int) returns (k: int)
    requires Replay(es).Some? && Replay(es).value.open.Some? && InGrammar(es + more)
    requires 0 <= j < |more| && more[j].body.Answer?
    ensures 0 <= k < j && more[k].body.StageChange?
  {
    hide Next;
    var all, s := es + more, Replay(es).value.open.value;
    CheckAcceptsTheGrammar(es);
    assert OpenAt(es, |es|, s);
    var i :| 0 <= i < |es| && es[i].body.Starts() && es[i].body.stage == s && NoStageEvent(es, i + 1, |es|);
    assert AllowedAt(all, |es| + j) && all[|es| + j] == more[j];
    assert !OpenAt(all, |es| + j, s);
    assert all[i] == es[i];
    assert !NoStageEvent(all, i + 1, |es| + j);
    assert forall l :: 0 <= l < |es| ==> all[l] == es[l];
    var l :| i + 1 <= l < |es| + j && all[l].body.StageChange?;
    k := l - |es|;
  }

  /** The event's own values are in range wherever it stands in an accepted stream. */
  lemma AcceptedIsValid(es: seq<Event>, more: seq<Event>, j: int)
    requires Replay(es + more).Some? && 0 <= j < |more|
    ensures InGrammar(es + more) && ValidEvent(more[j]) && more[j].seqNo == |es| + j + 1
  {
    hide Next;
    CheckAcceptsTheGrammar(es + more);
    assert (es + more)[|es| + j] == more[j];
    assert AllowedAt(es + more, |es| + j);
  }

  /** An accepted stream's ids, its elapsed value and its open stage are in range. */
  lemma HistoryIsValid(es: seq<Event>)
    requires Replay(es).Some? && es != []
    ensures var c := Replay(es).value;
      && c.count == |es| && c.lastSeq == |es| && LengthBetween(c.requestId, 1, 256)
      && 0 <= c.lastElapsed <= MAX_INTEGER && (c.open.Some? ==> c.open.value.Order() != 0)
      && (c.lastStarted.Some? ==> c.lastStarted.value.Order() != 0)
  {
    hide Next;
    CheckAcceptsTheGrammar(es);
    var c := Replay(es).value;
    assert AllowedAt(es, 0);
    assert ElapsedAt(es, |es|, c.lastElapsed);
    if !NoElapsed(es, 0, |es|) {
      var i :| 0 <= i < |es| && es[i].body.Elapsed() == Some(c.lastElapsed) && NoElapsed(es, i + 1, |es|);
      assert AllowedAt(es, i);
    }
    if c.lastStarted.Some? {
      assert LastStartedAt(es, |es|, c.lastStarted.value);
      var i :| 0 <= i < |es| && es[i].body.Starts() && es[i].body.stage == c.lastStarted.value && NoStart(es, i + 1, |es|);
      assert AllowedAt(es, i);
    }
  }

  const GOOD_RESULT: Payload := Payload("{}", true)

  /** Completing the open stage inside the silence bound, then answering, is accepted. */
  lemma CompleteThenAnswer(es: seq<Event>, stamp: int)
    requires Replay(es).Some? && es != [] && !Replay(es).value.terminal && Replay(es).value.open.Some?
    requires Replay(es).value.lastElapsed <= stamp <= MAX_INTEGER
    requires stamp - Replay(es).value.lastElapsed <= MAX_SILENCE_MS && |es| + 2 <= MAX_INTEGER
    ensures CanStillAnswer(es, stamp)
  {
    hide Next, Replay, ValidEvent;
    var c := Replay(es).value;
    HistoryIsValid(es);
    var done := Event(|es| + 1, c.requestId, StageChange(c.open.value, Completed, stamp));
    var answer := Event(|es| + 2, c.requestId, Answer(GOOD_RESULT));
    CompletionIsTaken(c, done);
    AnswerIsTaken(Next(c, done).value, answer);
    ReplayOneMore(es, done);
    ReplayOneMore(es + [done], answer);
    var more := [done, answer];
    assert es + [done] + [answer] == es + more;
    assert more[1].body.Answer?;
  }

  lemma CompletionIsTaken(c: Check, e: Event)
    requires c.count > 0 && !c.terminal && c.open.Some? && c.open.value.Order() != 0 && 0 <= c.lastElapsed
    requires LengthBetween(c.requestId, 1, 256) && 0 <= c.lastSeq < MAX_INTEGER
    requires e.body.Completes() && e.body.stage == c.open.value
    requires c.lastElapsed <= e.body.stageElapsed <= MAX_INTEGER && e.body.stageElapsed - c.lastElapsed <= MAX_SILENCE_MS
    requires e.seqNo == c.lastSeq + 1 && e.requestId == c.requestId
    ensures Next(c, e) ==
      Some(c.(open := None, lastElapsed := e.body.stageElapsed, count := c.count + 1, lastSeq := e.seqNo))
  {
  }

  lemma AnswerIsTaken(c: Check, e: Event)
    requires c.count > 0 && !c.terminal && c.open.None? && LengthBetween(c.requestId, 1, 256) && 0 <= c.lastSeq < MAX_INTEGER
    requires e.body == Answer(GOOD_RESULT) && e.seqNo == c.lastSeq + 1 && e.requestId == c.requestId
    ensures Next(c, e).Some?
  {
  }

  lemma ReplayOneMore(es: seq<Event>, e: Event)
    ensures Replay(es + [e]) == if Replay(es).None? then None else Next(Replay(es).value, e)
  {
    assert (es + [e])[..|es|] == es;
  }

  /** THE NEXT STAMP DECIDES. An accepted stream with an open stage can still be answered if and only
      if its next elapsed value may lie within the silence bound of the last one; with no stage open
      it always can. (Values and seqs past the contract's largest integer aside.) */
  lemma AnsweredIffInTime(es: seq<Event>, stamp: int)
    requires Replay(es).Some? && es != [] && !Replay(es).value.terminal
    ensures CanStillAnswer(es, stamp) <==>
      if Replay(es).value.open.None? then |es| + 1 <= MAX_INTEGER
      else stamp - Replay(es).value.lastElapsed <= MAX_SILENCE_MS && stamp <= MAX_INTEGER && |es| + 2 <= MAX_INTEGER
  {
    hide Next, Replay, ValidEvent;
    var c := Replay(es).value;
    HistoryIsValid(es);
    if CanStillAnswer(es, stamp) {
      AnswerWasInTime(es, stamp);
    }
    if c.open.None? && |es| + 1 <= MAX_INTEGER {
      AnswerAtOnce(es, stamp);
    }
    var next := if stamp < c.lastElapsed then c.lastElapsed else stamp;
    if c.open.Some? && stamp - c.lastElapsed <= MAX_SILENCE_MS && stamp <= MAX_INTEGER && |es| + 2 <= MAX_INTEGER {
      CompleteThenAnswer(es, next);
      var more: seq<Event> :| Replay(es + more).Some? && NoEarlierThan(more, next) && !NoAnswer(more);
      assert NoEarlierThan(more, stamp);
    }
  }

  lemma AnswerAtOnce(es: seq<Event>, stamp: int)
    requires Replay(es).Some? && es != [] && !Replay(es).value.terminal && Replay(es).value.open.None?
    requires |es| + 1 <= MAX_INTEGER
    ensures CanStillAnswer(es, stamp)
  {
    hide Next, Replay, ValidEvent;
    HistoryIsValid(es);
    var answer := Event(|es| + 1, Replay(es).value.requestId, Answer(GOOD_RESULT));
    AnswerIsTaken(Replay(es).value, answer);
    ReplayOneMore(es, answer);
    assert [answer][0].body.Answer? && NoEarlierThan([answer], stamp);
  }

  lemma AnswerWasInTime(es: seq<Event>, stamp: int)
    requires Replay(es).Some? && es != [] && CanStillAnswer(es, stamp)
    ensures |es| + 1 <= MAX_INTEGER
    ensures Replay(es).value.open.Some? ==>
      stamp - Replay(es).value.lastElapsed <= MAX_SILENCE_MS && stamp <= MAX_INTEGER && |es| + 2 <= MAX_INTEGER
  {
    hide Next, Replay;
    var more: seq<Event> :| Replay(es + more).Some? && NoEarlierThan(more, stamp) && !NoAnswer(more);
    var j :| 0 <= j < |more| && more[j].body.Answer?;
    AcceptedIsValid(es, more, j);
    if Replay(es).value.open.Some? {
      if stamp - Replay(es).value.lastElapsed > MAX_SILENCE_MS {
        SilentStreamCannotAnswer(es, more, stamp);
        assert false;
      }
      var k := AnswerNeedsCompletion(es, more, j);
      AcceptedIsValid(es, more, k);
      assert more[k].body.Elapsed().Some?;
    }
  }

  /** A stream one stage into its run. */
  const STARTED: seq<Event> := [
    Event(1, "r", Accepted("reserved", "", "", 0, 60)),
    Event(2, "r", StageChange(Interpreting, Started, 0))
  ]

  /** It can be answered when the next stamp is 11 seconds on, and no more a millisecond later. */
  lemma SilenceWitness()
    ensures Replay(STARTED).Some? && CanStillAnswer(STARTED, 11_000) && !CanStillAnswer(STARTED, 11_001)
  {
    assert STARTED[..1] == [STARTED[0]] && [STARTED[0]][..0] == [];
    assert Replay([STARTED[0]]) == Next(FRESH, STARTED[0]);
    assert Replay(STARTED) == Next(Next(FRESH, STARTED[0]).value, STARTED[1]);
    AnsweredIffInTime(STARTED, 11_000);
    AnsweredIffInTime(STARTED, 11_001);
  }

  /** elapsed_ms never decreases along an accepted stream, and the check's value is the largest. */
  lemma {:induction false} ElapsedNeverDecreases(es: seq<Event>)
    requires Replay(es).Some?
    ensures forall i :: 0 <= i < |es| && es[i].body.Elapsed().Some? ==>
      es[i].body.Elapsed().value <= Replay(es).value.lastElapsed
    ensures forall i, j :: 0 <= i < j < |es| && es[i].body.Elapsed().Some? && es[j].body.Elapsed().Some? ==>
      es[i].body.Elapsed().value <= es[j].body.Elapsed().value
  {
    hide Next;
    if es != [] {
      var n := |es| - 1;
      var front, e := es[..n], es[n];
      ElapsedNeverDecreases(front);
      PaceOf(Replay(front).value, e);
      assert forall i :: 0 <= i < n ==> es[i] == front[i];
    }
  }

  lemma PaceOf(c: Check, e: Event)
    requires Next(c, e).Some?
    ensures c.lastElapsed <= Next(c, e).value.lastElapsed
    ensures e.body.Elapsed().Some? ==> e.body.Elapsed().value == Next(c, e).value.lastElapsed
  {
  }
}
