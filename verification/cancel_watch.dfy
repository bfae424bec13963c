/** The cancel-effective line of one run. A watcher goroutine logs it when the run's context is
    cancelled; the handler, when the run is over, stops the watcher or waits for it, and logs the
    line itself when the stop won the race. The state machine below takes every interleaving of
    the cancel, the watcher and any number of handler calls. */
module CancelWatch {
  import opened Prelude

  /** The watcher goroutine: not started, about to log, about to close its channel, closed. */
  datatype Watcher = NotStarted | Logging | Closing | Closed

  /** Where a handler call stands: outside, waiting for the watcher's channel, or about to read the
      context's error after a stop that won. */
  datatype Handler = Outside | Waiting | Reading

  datatype Watch = Watch(
    cancelled: bool,
    armed: bool,
    watcher: Watcher,
    ended: bool,
    handler: Handler,
    lines: nat,
    // What the handler's first call met: whether the cancel came before its stop.
    cancelledAtStop: bool)

  const START := Watch(false, true, NotStarted, false, Outside, 0, false)

  datatype Action =
    | Cancel
    | StartWatcher
    | WatcherLogs
    | WatcherCloses
    | EndCancelWatch
    | ChannelReceived
    | ErrorRead

  /** An action whose moment it is; `None` when it cannot happen now. A cancel closes the context
      before the watcher starts, and starting and stopping the watcher exclude each other. */
  function Act(w: Watch, a: Action): Option<Watch> {
    match a
    case Cancel => if w.cancelled then None else Some(w.(cancelled := true))
    case StartWatcher =>
      if w.cancelled && w.armed then Some(w.(armed := false, watcher := Logging)) else None
    case WatcherLogs =>
      if w.watcher == Logging then Some(w.(watcher := Closing, lines := w.lines + 1)) else None
    case WatcherCloses =>
      if w.watcher == Closing then Some(w.(watcher := Closed)) else None
    case EndCancelWatch =>
      if w.handler != Outside then None
      else if w.ended then Some(w)
      else if w.armed then Some(w.(ended := true, armed := false, handler := Reading, cancelledAtStop := w.cancelled))
      else Some(w.(ended := true, handler := Waiting, cancelledAtStop := w.cancelled))
    case ChannelReceived =>
      if w.handler == Waiting && w.watcher == Closed then Some(w.(handler := Outside)) else None
    case ErrorRead =>
      if w.handler == Reading then Some(w.(handler := Outside, lines := if w.cancelled then w.lines + 1 else w.lines))
      else None
  }

  /** A run: the actions in order, those whose moment it is not being skipped. */
  function Run(w: Watch, actions: seq<Action>): Watch {
    if actions == [] then w
    else
      var before := Run(w, actions[..|actions| - 1]);
      var after := Act(before, actions[|actions| - 1]);
      if after.Some? then after.value else before
  }

  /** The first call of the handler is over. */
  predicate Returned(w: Watch) { w.ended && w.handler == Outside }

  predicate Steady(w: Watch) {
    && (w.armed ==> w.watcher == NotStarted && !w.ended)
    && (!w.armed && !w.ended ==> w.watcher != NotStarted)
    && (w.watcher != NotStarted ==> w.cancelled && !w.armed)
    && (w.handler != Outside ==> w.ended)
    && (w.handler == Waiting ==> w.watcher != NotStarted)
    && (w.handler == Reading ==> w.watcher == NotStarted && w.lines == 0)
    && (w.watcher == Logging ==> w.lines == 0)
    && (w.watcher in {Closing, Closed} ==> w.lines == 1)
    && (w.watcher == NotStarted && w.lines > 0 ==> Returned(w))
    && (Returned(w) ==> w.watcher in {NotStarted, Closed})
    && w.lines <= 1
    && (w.lines == 1 ==> w.cancelled)
    && (w.cancelledAtStop ==> w.cancelled && w.ended)
    && (Returned(w) && w.watcher == NotStarted && w.cancelledAtStop ==> w.lines == 1)
    && (w.ended && w.watcher != NotStarted ==> w.cancelledAtStop)
  }

  lemma {:induction false} AlwaysSteady(actions: seq<Action>)
    ensures Steady(Run(START, actions))
  {
    if actions != [] {
      AlwaysSteady(actions[..|actions| - 1]);
    }
  }

  /** THE LINE IS LOGGED ONCE. In every interleaving: never twice, never without a cancel, and
      exactly once by the time the handler's call returns when the cancel came before its stop. */
  lemma LoggedExactlyOnce(actions: seq<Action>)
    ensures var w := Run(START, actions);
      && w.lines <= 1
      && (!w.cancelled ==> w.lines == 0)
      && (Returned(w) && w.cancelledAtStop ==> w.lines == 1)
  {
    AlwaysSteady(actions);
  }

  /** After the call returned, nothing is logged any more, whatever still happens. */
  lemma {:induction false} QuietAfterReturn(before: seq<Action>, after: seq<Action>)
    requires Returned(Run(START, before))
    ensures Run(START, before + after).lines == Run(START, before).lines
    ensures Returned(Run(START, before + after))
  {
    if after == [] {
      assert before + after == before;
    } else {
      var front := after[..|after| - 1];
      QuietAfterReturn(before, front);
      AlwaysSteady(before + front);
      var whole := before + after;
      assert whole[..|whole| - 1] == before + front && whole[|whole| - 1] == after[|after| - 1];
    }
  }

  /** What the watcher still has to do. */
  function Remaining(w: Watch): nat {
    match w.watcher case NotStarted => 3 case Logging => 2 case Closing => 1 case Closed => 0
  }

  /** NO WAIT FOR A WATCHER THAT WILL NOT RUN. Whenever the handler waits, the watcher is running,
      and its own remaining steps alone bring the handler back. */
  lemma WaitAlwaysEnds(actions: seq<Action>)
    requires Run(START, actions).handler == Waiting
    ensures Returned(Run(START, actions + [WatcherLogs, WatcherCloses, ChannelReceived]))
    ensures Remaining(Run(START, actions)) <= 2
  {
    AlwaysSteady(actions);
    RunOneMore(actions, WatcherLogs);
    RunOneMore(actions + [WatcherLogs], WatcherCloses);
    RunOneMore(actions + [WatcherLogs] + [WatcherCloses], ChannelReceived);
    assert actions + [WatcherLogs] + [WatcherCloses] + [ChannelReceived] == actions + [WatcherLogs, WatcherCloses, ChannelReceived];
  }

  lemma RunOneMore(actions: seq<Action>, a: Action)
    ensures var (before, after) := (Run(START, actions), Run(START, actions + [a]));
      after == if Act(before, a).Some? then Act(before, a).value else before
  {
    var whole := actions + [a];
    assert whole[..|whole| - 1] == actions;
  }

  lemma {:induction false} RunBoth(w: Watch, a: seq<Action>, b: seq<Action>)
    ensures Run(w, a + b) == Run(Run(w, a), b)
  {
    hide Act;
    if b == [] {
      assert a + b == a;
    } else {
      var whole := a + b;
      assert whole[..|whole| - 1] == a + b[..|b| - 1];
      RunBoth(w, a, b[..|b| - 1]);
    }
  }

  function Step(w: Watch, a: Action): Watch { if Act(w, a).Some? then Act(w, a).value else w }

  lemma RunThree(w: Watch, a: Action, b: Action, c: Action)
    ensures Run(w, [a, b, c]) == Step(Step(Step(w, a), b), c)
  {
    hide Act;
    assert [a, b, c][..2] == [a, b] && [a, b][..1] == [a] && [a][..0] == [];
    assert Run(w, [a]) == Step(w, a);
    assert Run(w, [a, b]) == Step(Step(w, a), b);
  }

  /** The handler's call, and what is left to the watcher and to it. */
  const CALL: seq<Action> := [EndCancelWatch, WatcherLogs, WatcherCloses]
  const RETURN: seq<Action> := [ChannelReceived, ErrorRead, ErrorRead]

  /** THE HANDLER CAN ALWAYS LEAVE: from every state its call ends by steps nobody can prevent. */
  lemma CallAlwaysEnds(actions: seq<Action>)
    ensures Returned(Run(START, actions + CALL + RETURN))
  {
    AlwaysSteady(actions);
    var w := Run(START, actions);
    RunBoth(START, actions, CALL);
    RunThree(w, EndCancelWatch, WatcherLogs, WatcherCloses);
    AlwaysSteady(actions + CALL);
    RunBoth(START, actions + CALL, RETURN);
    RunThree(Run(START, actions + CALL), ChannelReceived, ErrorRead, ErrorRead);
  }

  /** A CANCEL IS NEVER MISSED. Before the handler's call a cancel can come in every state, and the watcher
      alone can log it. */
  lemma CancelIsLogged(actions: seq<Action>)
    requires !Run(START, actions).ended
    ensures Run(START, actions + [Cancel, StartWatcher, WatcherLogs]).lines == 1
  {
    hide Run;
    AlwaysSteady(actions);
    RunBoth(START, actions, [Cancel, StartWatcher, WatcherLogs]);
    RunThree(Run(START, actions), Cancel, StartWatcher, WatcherLogs);
  }

  lemma {:induction false} StopIsRemembered(w: Watch, more: seq<Action>)
    requires w.ended && w.cancelledAtStop
    ensures Run(w, more).ended && Run(w, more).cancelledAtStop
  {
    if more != [] { StopIsRemembered(w, more[..|more| - 1]); }
  }

  /** And if the handler's call comes before the watcher, the call leaves the line logged. */
  lemma StopLogsTheCancel(actions: seq<Action>)
    requires !Run(START, actions).ended
    ensures Run(START, actions + [Cancel] + CALL + RETURN).lines == 1
  {
    hide Run, CALL, RETURN;
    AlwaysSteady(actions);
    RunOneMore(actions, Cancel);
    var asked := actions + [Cancel];
    AlwaysSteady(asked);
    RunOneMore(asked, EndCancelWatch);
    var stop := asked + [EndCancelWatch];
    CallAlwaysEnds(asked);
    var rest := [WatcherLogs, WatcherCloses] + RETURN;
    RunBoth(START, stop, rest);
    StopIsRemembered(Run(START, stop), rest);
    CallStops();
    assert stop + rest == asked + CALL + RETURN;
    LoggedExactlyOnce(asked + CALL + RETURN);
  }

  lemma CallStops()
    ensures CALL == [EndCancelWatch] + [WatcherLogs, WatcherCloses]
  {
  }
}
