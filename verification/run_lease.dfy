/** The holder of a run lease: a loop that samples the clock, renews the lease it holds, polls for
    a cancel, and gives the run up when it lost the lease or was cut off for a whole term. The
    loop's step is `Tick`; `Hold` is the loop; `World` is every interleaving of the loop with the
    clock, other replicas' sweeps, cancel requests and the run's own completion. */
module RunLease {
  import opened Prelude
  import opened RunStore
  import EventContract

  datatype Timing = Timing(ttl: int, renewInterval: int)

  datatype LostReason = RenewalUnreachable | RecordGone | RecordFinal | TakenOver

  /** The holder loop: its three local variables while it runs, and how it ended. */
  datatype Loop =
    | Looping(leaseUntil: int, lastHeld: int, cancelSeen: bool)
    | FinishedQuietly
    | LeaseLost(reason: LostReason, at: int)

  /** What a sample of the loop meets: the store's check, or none. */
  datatype Sample = Sample(now: int, check: Option<LeaseCheck>)

  datatype Cause = CancelRequested | LostLease

  predicate RenewalDue(timing: Timing, leaseUntil: int, now: int) {
    leaseUntil <= now + (timing.ttl - timing.renewInterval)
  }

  /** The renewal a sample asks for, if one is due. */
  function RenewUntil(timing: Timing, leaseUntil: int, now: int): (r: Option<int>)
    ensures r.Some? <==> now >= leaseUntil - timing.ttl + timing.renewInterval
    ensures r.Some? ==> r.value - now == timing.ttl
  {
    if RenewalDue(timing, leaseUntil, now) then Some(now + timing.ttl) else None
  }

  /** Why a check that is not held ends the loop; `None` when the run's own end made it final. */
  function LossOf(check: LeaseCheck, who: string): Option<LostReason> {
    if check.found && (check.state == Done || check.state == DoneUnsaved) then None
    else if !check.found then Some(RecordGone)
    else if check.holder == who then Some(RecordFinal)
    else Some(TakenOver)
  }

  /** One pass of the loop body. */
  function Tick(timing: Timing, who: string, loop: Loop, s: Sample): Loop {
    match loop
    case Looping(leaseUntil, lastHeld, cancelSeen) =>
      (match s.check
       case None => if s.now - lastHeld >= timing.ttl then LeaseLost(RenewalUnreachable, s.now) else loop
       case Some(check) =>
         if !check.Held(who) then
           (match LossOf(check, who)
            case None => FinishedQuietly
            case Some(reason) => LeaseLost(reason, s.now))
         else
           Looping(if check.renewed then s.now + timing.ttl else leaseUntil, s.now, cancelSeen || check.cancelRequestedAt.Some?))
    case _ => loop
  }

  function Hold(timing: Timing, who: string, loop: Loop, samples: seq<Sample>): Loop {
    if samples == [] then loop
    else Tick(timing, who, Hold(timing, who, loop, samples[..|samples| - 1]), samples[|samples| - 1])
  }

  /** What reaches a run: its owner asks to cancel it, or its holder gives it up. */
  datatype Signal = Ask(at: int) | GiveUp

  /** What one pass tells the run. */
  function Tells(timing: Timing, who: string, loop: Loop, s: Sample): seq<Signal> {
    if !loop.Looping? then [] else
    match s.check
    case None => if s.now - loop.lastHeld >= timing.ttl then [GiveUp] else []
    case Some(check) =>
      if !check.Held(who) then if LossOf(check, who).None? then [] else [GiveUp]
      else if check.cancelRequestedAt.Some? && !loop.cancelSeen then [Ask(check.cancelRequestedAt.value)]
      else []
  }

  /** What a run remembers: the time of the first request, and why it was cancelled first. */
  datatype Told = Told(tReq: Option<int>, cause: Option<Cause>)

  function Hear(told: Told, x: Signal): Told {
    Told(if told.tReq.None? && x.Ask? then Some(x.at) else told.tReq,
         if told.cause.Some? then told.cause else Some(if x.Ask? then CancelRequested else LostLease))
  }

  function Hears(told: Told, xs: seq<Signal>): Told {
    if xs == [] then told else Hear(Hears(told, xs[..|xs| - 1]), xs[|xs| - 1])
  }

  /** What was remembered is still remembered. */
  predicate Recalls(before: Told, after: Told) {
    (before.tReq.Some? ==> after.tReq == before.tReq) && (before.cause.Some? ==> after.cause == before.cause)
  }

  /** The sample found the lease held and a cancel on the record. */
  predicate BringsCancel(s: Sample, who: string) {
    s.check.Some? && s.check.value.Held(who) && s.check.value.cancelRequestedAt.Some?
  }

  /** FIRST COME, FIRST KEPT: what a run remembers of any signals is the first request among them and
      the first signal of all, unless it remembered earlier ones already. */
  lemma {:induction false} FirstIsKept(told: Told, xs: seq<Signal>)
    ensures told.cause.Some? ==> Hears(told, xs).cause == told.cause
    ensures told.cause.None? ==>
      Hears(told, xs).cause == if xs == [] then None else Some(if xs[0].Ask? then CancelRequested else LostLease)
    ensures told.tReq.Some? ==> Hears(told, xs).tReq == told.tReq
    ensures told.tReq.None? ==>
      match Hears(told, xs).tReq
      case None => forall i :: 0 <= i < |xs| ==> xs[i].GiveUp?
      case Some(at) => exists i :: 0 <= i < |xs| && xs[i] == Ask(at) && forall j :: 0 <= j < i ==> xs[j].GiveUp?
  {
    if xs != [] {
      var n := |xs| - 1;
      var front := xs[..n];
      FirstIsKept(told, front);
      assert forall i :: 0 <= i < n ==> front[i] == xs[i];
      if told.tReq.None? && Hears(told, front).tReq.Some? {
        var i :| 0 <= i < n && front[i] == Ask(Hears(told, front).tReq.value) && forall j :: 0 <= j < i ==> front[j].GiveUp?;
        assert xs[i] == Ask(Hears(told, xs).tReq.value);
      } else if told.tReq.None? && xs[n].Ask? {
        assert xs[n] == Ask(Hears(told, xs).tReq.value);
      }
    }
  }

  // ---------------------------------------------------------------------------
  // The run object
  // ---------------------------------------------------------------------------

  /** One run this replica holds. The first cancel time and the first cause are kept. */
  class LeasedRun {
    const key: string
    const holder: string
    const expiresAt: int
    var tReq: Option<int>
    var cause: Option<Cause>

    constructor (key: string, holder: string, expiresAt: int)
      ensures this.key == key && this.holder == holder && this.expiresAt == expiresAt && tReq.None? && cause.None?
    {
      this.key, this.holder, this.expiresAt, tReq, cause := key, holder, expiresAt, None, None;
    }

    function Heard(): Told
      reads this
    {
      Told(tReq, cause)
    }

    method Cancel(why: Cause)
      modifies this`cause
      ensures cause == if old(cause).None? then Some(why) else old(cause)
    {
      if cause.None? { cause := Some(why); }
    }

    method RequestCancel(at: int)
      modifies this
      ensures tReq == if old(tReq).None? then Some(at) else old(tReq)
      ensures cause == if old(cause).None? then Some(CancelRequested) else old(cause)
    {
      if tReq.None? { tReq := Some(at); }
      Cancel(CancelRequested);
    }
  }

  // ---------------------------------------------------------------------------
  // The loop
  // ---------------------------------------------------------------------------

  /** Other code on this host and other replicas, between two passes: the owner may cancel here or
      through the store, a sweep may take the run, the run may end. */
  method Meanwhile(run: LeasedRun, store: Store, ghost before: seq<Signal>, ghost told: Told)
    returns (ghost heard: seq<Signal>)
    requires run.Heard() == Hears(told, before)
    modifies run, store
    ensures run.Heard() == Hears(told, heard)
    ensures before <= heard && forall i :: |before| <= i < |heard| ==> heard[i].Ask?
    ensures Recalls(old(run.Heard()), run.Heard())
  {
    heard := before;
    var steps: nat := *;
    while steps > 0
      invariant run.Heard() == Hears(told, heard) && Recalls(old(run.Heard()), run.Heard())
      invariant before <= heard && forall i :: |before| <= i < |heard| ==> heard[i].Ask?
    {
      var who: int, at: int, taker: string, lost: EventContract.Payload, final: Option<SubmissionState> := *, *, *, *, *;
      if who == 0 {
        run.RequestCancel(at);
        heard := heard + [Ask(at)];
      } else if who == 1 {
        var answer := store.RequestRunCancel(at);
      } else if who == 2 {
        var taken := store.ReapLostRun(taker, lost, at);
      } else {
        store.EndRun(final);
      }
      steps := steps - 1;
    }
  }

  /** What the passes saw and sent, pass by pass. */
  ghost predicate Passes(timing: Timing, who: string, first: Loop, samples: seq<Sample>, sent: seq<Option<int>>) {
    && |sent| == |samples|
    && forall i :: 0 <= i < |samples| ==> PassIs(timing, who, Hold(timing, who, first, samples[..i]), samples[i], sent[i])
  }

  /** A pass asks for the renewal that is due, and an answer is the store's to that very question. */
  ghost predicate PassIs(timing: Timing, who: string, loop: Loop, s: Sample, sent: Option<int>) {
    && loop.Looping?
    && sent == RenewUntil(timing, loop.leaseUntil, s.now)
    && (s.check.Some? ==> exists record: Option<Record> :: s.check.value == CheckLease(record, who, sent).1)
  }

  /** Everything the passes told the run is among what the run heard, and only the loop gives up. */
  ghost predicate Relayed(timing: Timing, who: string, first: Loop, samples: seq<Sample>, heard: seq<Signal>) {
    && (forall i, x :: 0 <= i < |samples| && x in Tells(timing, who, Hold(timing, who, first, samples[..i]), samples[i]) ==> x in heard)
    && (GiveUp in heard <==> Hold(timing, who, first, samples).LeaseLost?)
  }

  /** The holder loop, one pass per tick until it ends, with anything happening in between. Each pass
      sends the renewal that is due; the loop's state is the step definition over the passes it made;
      and the run keeps the first request, whether it came from this host or from the store, and the
      first cause. */
  method HoldRunLease(timing: Timing, run: LeasedRun, store: Store, start: int, ticks: seq<int>)
    returns (end: Loop, samples: seq<Sample>, ghost sent: seq<Option<int>>, ghost heard: seq<Signal>)
    modifies run, store
    ensures |samples| <= |ticks| && forall i :: 0 <= i < |samples| ==> samples[i].now == ticks[i]
    ensures end == Hold(timing, run.holder, Looping(run.expiresAt, start, false), samples)
    ensures |samples| < |ticks| ==> !end.Looping?
    ensures Passes(timing, run.holder, Looping(run.expiresAt, start, false), samples, sent)
    ensures Relayed(timing, run.holder, Looping(run.expiresAt, start, false), samples, heard)
    ensures run.Heard() == Hears(old(run.Heard()), heard)
    // A cancel that any pass found on the held record has reached the run.
    ensures (exists i :: 0 <= i < |samples| && BringsCancel(samples[i], run.holder)) ==> run.tReq.Some? && run.cause.Some?
  {
    hide Passes, Relayed, Hold, Hears;
    ghost var first, told := Looping(run.expiresAt, start, false), run.Heard();
    var leaseUntil, lastHeld, cancelSeen := run.expiresAt, start, false;
    samples, sent, heard := [], [], [];
    NoPassYet(timing, run.holder, first, told);
    for i := 0 to |ticks|
      invariant |samples| == i && forall j :: 0 <= j < i ==> samples[j].now == ticks[j]
      invariant Hold(timing, run.holder, first, samples) == Looping(leaseUntil, lastHeld, cancelSeen)
      invariant Passes(timing, run.holder, first, samples, sent)
      invariant Relayed(timing, run.holder, first, samples, heard)
      invariant run.Heard() == Hears(told, heard)
      invariant cancelSeen ==> run.tReq.Some? && run.cause.Some?
      invariant (exists j :: 0 <= j < i && BringsCancel(samples[j], run.holder)) ==> cancelSeen
    {
      ghost var before, loop := heard, Looping(leaseUntil, lastHeld, cancelSeen);
      heard := Meanwhile(run, store, heard, told);
      var now := ticks[i];
      var renewUntil := RenewUntil(timing, leaseUntil, now);
      ghost var record := store.record;
      var check := store.CheckRunLease(run.holder, renewUntil);
      assert check.Some? ==> check.value == CheckLease(record, run.holder, renewUntil).1;
      var s := Sample(now, check);
      OnePassMore(timing, run.holder, first, samples, sent, before, heard, s, renewUntil);
      OneSignalMore(told, heard);
      samples, sent := samples + [s], sent + [renewUntil];
      match check {
        case None =>
          if now - lastHeld >= timing.ttl {
            run.Cancel(LostLease);
            heard := heard + [GiveUp];
            end := LeaseLost(RenewalUnreachable, now);
            return;
          }
          assert heard + [] == heard;
        case Some(answer) =>
          if !answer.Held(run.holder) {
            var loss := LossOf(answer, run.holder);
            if loss.None? {
              assert heard + [] == heard;
              end := FinishedQuietly;
            } else {
              run.Cancel(LostLease);
              heard := heard + [GiveUp];
              end := LeaseLost(loss.value, now);
            }
            return;
          }
          lastHeld := now;
          if answer.renewed {
            leaseUntil := renewUntil.value;
          }
          if answer.cancelRequestedAt.Some? && !cancelSeen {
            cancelSeen := true;
            run.RequestCancel(answer.cancelRequestedAt.value);
            heard := heard + [Ask(answer.cancelRequestedAt.value)];
          } else {
            assert heard + [] == heard;
          }
      }
    }
    end := Looping(leaseUntil, lastHeld, cancelSeen);
  }

  lemma NoPassYet(timing: Timing, who: string, first: Loop, told: Told)
    requires first.Looping?
    ensures Hold(timing, who, first, []) == first && Passes(timing, who, first, [], [])
    ensures Relayed(timing, who, first, [], []) && Hears(told, []) == told
  {
  }

  lemma OneSignalMore(told: Told, xs: seq<Signal>)
    ensures forall x :: Hears(told, xs + [x]) == Hear(Hears(told, xs), x)
  {
    forall x ensures Hears(told, xs + [x]) == Hear(Hears(told, xs), x) {
      assert (xs + [x])[..|xs|] == xs;
    }
  }

  lemma OnePassMore(timing: Timing, who: string, first: Loop, samples: seq<Sample>, sent: seq<Option<int>>,
                    before: seq<Signal>, heard: seq<Signal>, s: Sample, renewUntil: Option<int>)
    requires Passes(timing, who, first, samples, sent) && Relayed(timing, who, first, samples, before)
    requires before <= heard && forall i :: |before| <= i < |heard| ==> heard[i].Ask?
    requires PassIs(timing, who, Hold(timing, who, first, samples), s, renewUntil)
    ensures var loop := Hold(timing, who, first, samples);
      && Hold(timing, who, first, samples + [s]) == Tick(timing, who, loop, s)
      && Passes(timing, who, first, samples + [s], sent + [renewUntil])
      && Relayed(timing, who, first, samples + [s], heard + Tells(timing, who, loop, s))
  {
    hide Tick, Tells, Hold, Passes, Relayed;
    HoldStep(timing, who, first, samples, s);
    PassesMore(timing, who, first, samples, sent, s, renewUntil);
    RelayedMore(timing, who, first, samples, before, heard, s);
  }

  lemma HoldStep(timing: Timing, who: string, first: Loop, samples: seq<Sample>, s: Sample)
    ensures Hold(timing, who, first, samples + [s]) == Tick(timing, who, Hold(timing, who, first, samples), s)
    ensures forall i :: 0 <= i <= |samples| ==> (samples + [s])[..i] == samples[..i]
    ensures samples[..|samples|] == samples
  {
    assert (samples + [s])[..|samples|] == samples;
  }

  lemma PassesMore(timing: Timing, who: string, first: Loop, samples: seq<Sample>, sent: seq<Option<int>>, s: Sample, renewUntil: Option<int>)
    requires Passes(timing, who, first, samples, sent)
    requires PassIs(timing, who, Hold(timing, who, first, samples), s, renewUntil)
    ensures Passes(timing, who, first, samples + [s], sent + [renewUntil])
  {
    hide Hold, PassIs, Tick;
    HoldStep(timing, who, first, samples, s);
    var more, asks := samples + [s], sent + [renewUntil];
    forall i | 0 <= i < |more| ensures PassIs(timing, who, Hold(timing, who, first, more[..i]), more[i], asks[i]) {
      assert more[..i] == samples[..i];
    }
  }

  lemma RelayedMore(timing: Timing, who: string, first: Loop, samples: seq<Sample>, before: seq<Signal>, heard: seq<Signal>, s: Sample)
    requires Relayed(timing, who, first, samples, before) && Hold(timing, who, first, samples).Looping?
    requires before <= heard && forall i :: |before| <= i < |heard| ==> heard[i].Ask?
    ensures Relayed(timing, who, first, samples + [s], heard + Tells(timing, who, Hold(timing, who, first, samples), s))
  {
    hide Hold, Tells, Tick;
    HoldStep(timing, who, first, samples, s);
    var loop := Hold(timing, who, first, samples);
    var more, told := samples + [s], heard + Tells(timing, who, loop, s);
    forall i, x | 0 <= i < |more| && x in Tells(timing, who, Hold(timing, who, first, more[..i]), more[i]) ensures x in told {
      assert more[..i] == samples[..i];
      if i < |samples| {
        assert x in before;
        assert x in heard;
      }
    }
    GivesUpWhenLost(timing, who, loop, s);
    assert GiveUp in heard <==> GiveUp in before;
  }

  lemma GivesUpWhenLost(timing: Timing, who: string, loop: Loop, s: Sample)
    requires loop.Looping?
    ensures GiveUp in Tells(timing, who, loop, s) <==> Tick(timing, who, loop, s).LeaseLost?
  {
  }

  lemma {:induction false} EndedLoopIgnoresTheRest(timing: Timing, who: string, loop: Loop, samples: seq<Sample>, k: nat)
    requires k <= |samples| && !Hold(timing, who, loop, samples[..k]).Looping?
    ensures Hold(timing, who, loop, samples) == Hold(timing, who, loop, samples[..k])
  {
    if k == |samples| {
      assert samples[..k] == samples;
    } else {
      var front := samples[..|samples| - 1];
      assert front[..k] == samples[..k];
      EndedLoopIgnoresTheRest(timing, who, loop, front, k);
    }
  }

  // ---------------------------------------------------------------------------
  // The registry of local runs
  // ---------------------------------------------------------------------------

  /** Adding a run replaces whatever run its key named; a remover deletes the key only while it still
      names that very run. */
  datatype RegistryOp<R> = AddRun(key: string, run: R) | RemoveRun(key: string, run: R)

  function Register<R(==)>(runs: map<string, R>, op: RegistryOp<R>): map<string, R> {
    match op
    case AddRun(key, run) => runs[key := run]
    case RemoveRun(key, run) => if key in runs && runs[key] == run then runs - {key} else runs
  }

  function RegisterAll<R(==)>(ops: seq<RegistryOp<R>>): map<string, R> {
    if ops == [] then map[] else Register(RegisterAll(ops[..|ops| - 1]), ops[|ops| - 1])
  }

  class Registry {
    var runs: map<string, LeasedRun>

    constructor ()
      ensures runs == map[]
    {
      runs := map[];
    }

    method Add(run: LeasedRun)
      modifies this
      ensures runs == Register(old(runs), AddRun(run.key, run))
    {
      runs := runs[run.key := run];
    }

    method Remove(run: LeasedRun)
      modifies this
      ensures runs == Register(old(runs), RemoveRun(run.key, run))
    {
      if run.key in runs && runs[run.key] == run {
        runs := runs - {run.key};
      }
    }

    /** Cancels the run this replica holds under `key`; false when it holds none. */
    method Cancel(key: string, at: int) returns (held: bool)
      modifies runs.Values
      ensures runs == old(runs) && (held <==> key in runs)
      ensures held ==> runs[key].Heard() == Hear(old(runs[key].Heard()), Ask(at))
      ensures forall k :: k in runs && !(held && runs[k] == runs[key]) ==> runs[k].Heard() == old(runs[k].Heard())
    {
      held := key in runs;
      if held {
        var run := runs[key];
        run.RequestCancel(at);
      }
    }
  }

  /** A run is current for its key: added, and neither replaced nor removed since. */
  ghost predicate Current<R>(ops: seq<RegistryOp<R>>, key: string, run: R) {
    exists i :: 0 <= i < |ops| && ops[i] == AddRun(key, run) && Undisturbed(ops, i, key, run)
  }

  ghost predicate Undisturbed<R>(ops: seq<RegistryOp<R>>, i: int, key: string, run: R)
    requires 0 <= i < |ops|
  {
    forall j :: i < j < |ops| && ops[j].key == key ==> ops[j].RemoveRun? && ops[j].run != run
  }

  /** THE REGISTRY NEVER LOSES A NEWER RUN. Over any history of additions and removals, a key names a
      run exactly when that run is current: an older run's late remover evicts nothing. */
  lemma {:induction false} RegistryHoldsTheCurrentRun<R>(ops: seq<RegistryOp<R>>, key: string, run: R)
    ensures key in RegisterAll(ops) && RegisterAll(ops)[key] == run <==> Current(ops, key, run)
  {
    if ops != [] {
      var n := |ops| - 1;
      var front, last := ops[..n], ops[n];
      RegistryHoldsTheCurrentRun(front, key, run);
      if Current(front, key, run) && !(last.key == key && (last.AddRun? || last.run == run)) {
        var i :| 0 <= i < n && front[i] == AddRun(key, run) && Undisturbed(front, i, key, run);
        assert ops[i] == AddRun(key, run) && Undisturbed(ops, i, key, run);
      }
      if Current(ops, key, run) {
        var i :| 0 <= i < |ops| && ops[i] == AddRun(key, run) && Undisturbed(ops, i, key, run);
        if i < n {
          assert front[i] == AddRun(key, run);
          assert Undisturbed(front, i, key, run);
          assert ops[n] == last;
        }
      }
      if last == AddRun(key, run) {
        assert ops[n] == AddRun(key, run) && Undisturbed(ops, n, key, run);
      }
    }
  }

  // ---------------------------------------------------------------------------
  // The protocol: one shared record, one clock, every interleaving
  // ---------------------------------------------------------------------------

  /** The shared record, the clock, the loop of the replica that was admitted with the lease, and what
      its run was told. `sampledAt` is the loop's last sample, or its start. */
  datatype World = World(now: int, record: Option<Record>, loop: Loop, sampledAt: int, told: Told)

  /** A sample's call may be answered, may take effect and lose its answer, or may never arrive. */
  datatype Call = AnsweredCall | LostAnswer | LostCall

  datatype Move =
    | Elapse(ticks: nat)
    | TakeSample(call: Call)
    | Sweep(taker: string)
    | AskCancel
    | AskHere
    | EndRun(final: Option<SubmissionState>)
    | StoreResult

  /** One move. A cancel reaches the run here at once, or through the record at the next held sample. */
  function Play(timing: Timing, who: string, w: World, m: Move): World {
    match m
    case Elapse(ticks) => w.(now := w.now + ticks)
    case TakeSample(call) =>
      if !w.loop.Looping? then w else
      var (next, check) := CheckLease(w.record, who, RenewUntil(timing, w.loop.leaseUntil, w.now));
      var s := Sample(w.now, if call == AnsweredCall then Some(check) else None);
      World(w.now, if call == LostCall then w.record else next, Tick(timing, who, w.loop, s), w.now,
            Hears(w.told, Tells(timing, who, w.loop, s)))
    case Sweep(taker) => w.(record := Reap(w.record, taker, w.now))
    case AskCancel => w.(record := RequestCancel(w.record, w.now))
    case AskHere => w.(told := Hear(w.told, Ask(w.now)))
    case EndRun(final) => w.(record := Ended(w.record, final))
    case StoreResult => if w.record.Some? then w.(record := Some(w.record.value.(resultStored := true))) else w
  }

  function PlayAll(timing: Timing, who: string, w: World, moves: seq<Move>): World {
    if moves == [] then w
    else Play(timing, who, PlayAll(timing, who, w, moves[..|moves| - 1]), moves[|moves| - 1])
  }

  /** The record is running under `who`'s lease. */
  predicate Holds(record: Option<Record>, who: string) {
    record.Some? && record.value.state == Running && record.value.holder != "" && record.value.holder == who
  }

  /** A run as admission leaves it: the loop starts from the lease admission wrote. */
  predicate Admitted(w: World, who: string) {
    && Holds(w.record, who)
    && w.loop == Looping(w.record.value.expiresAt, w.now, false)
    && w.sampledAt == w.now
  }

  predicate Sane(timing: Timing) { 0 < timing.renewInterval <= timing.ttl }

  // A lost lease stays lost.

  /** A lease once lost (taken over, completed, removed) never comes back, and no later sample of the
      old holder changes the record: it never renews again. */
  lemma LostStaysLost(timing: Timing, who: string, w: World, m: Move)
    requires !Holds(w.record, who)
    ensures !Holds(Play(timing, who, w, m).record, who)
    ensures m.TakeSample? ==> Play(timing, who, w, m).record == w.record
  {
  }

  lemma {:induction false} LostForGood(timing: Timing, who: string, w: World, moves: seq<Move>)
    requires !Holds(w.record, who)
    ensures !Holds(PlayAll(timing, who, w, moves).record, who)
  {
    if moves != [] {
      LostForGood(timing, who, w, moves[..|moves| - 1]);
    }
  }

  // The loop's view of its lease.

  /** While the loop runs, the store's lease end is at least the one the loop counts on: a lost answer
      can only make the store's later. Its last held sample was not after its last sample. */
  ghost predicate Agrees(w: World, who: string) {
    w.loop.Looping? ==>
      && (Holds(w.record, who) ==> w.loop.leaseUntil <= w.record.value.expiresAt)
      && w.loop.lastHeld <= w.sampledAt <= w.now
  }

  lemma {:induction false} LeaseViewIsSafe(timing: Timing, who: string, w0: World, moves: seq<Move>)
    requires Sane(timing) && Admitted(w0, who)
    ensures Agrees(PlayAll(timing, who, w0, moves), who)
  {
    if moves != [] {
      LeaseViewIsSafe(timing, who, w0, moves[..|moves| - 1]);
    }
  }

  // Timing.

  /** Every state of the run keeps the next sample within `gap` of the last one. */
  ghost predicate OnTime(timing: Timing, who: string, w0: World, moves: seq<Move>, gap: nat) {
    forall k :: 0 <= k <= |moves| ==>
      PlayAll(timing, who, w0, moves[..k]).loop.Looping? ==>
        PlayAll(timing, who, w0, moves[..k]).now <= PlayAll(timing, who, w0, moves[..k]).sampledAt + gap
  }

  ghost predicate AlwaysAnswered(moves: seq<Move>) {
    forall k :: 0 <= k < |moves| ==> moves[k].TakeSample? ==> moves[k].call == AnsweredCall
  }

  lemma OnTimePrefix(timing: Timing, who: string, w0: World, moves: seq<Move>, gap: nat)
    requires moves != [] && OnTime(timing, who, w0, moves, gap)
    ensures OnTime(timing, who, w0, moves[..|moves| - 1], gap)
  {
    var front := moves[..|moves| - 1];
    forall k | 0 <= k <= |front| ensures front[..k] == moves[..k] {
    }
  }

  /** THE LEASE IS NEVER LATE. A holder that samples at most ttl - renewInterval apart, starts early
      enough and is answered every time, has an unexpired lease in every state while it holds: no
      sweep ever takes its run over. */
  lemma {:induction false} TimelyHolderKeepsItsLease(timing: Timing, who: string, w0: World, moves: seq<Move>, gap: nat)
    requires Sane(timing) && Admitted(w0, who)
    requires gap <= timing.ttl - timing.renewInterval
    requires w0.now + gap < w0.record.value.expiresAt
    requires OnTime(timing, who, w0, moves, gap) && AlwaysAnswered(moves)
    ensures var w := PlayAll(timing, who, w0, moves);
      Holds(w.record, who) ==> w.loop.Looping? && w.now < w.record.value.expiresAt && !Reapable(w.record, w.now)
    ensures var w := PlayAll(timing, who, w0, moves);
      Holds(w.record, who) ==> w.sampledAt + gap < w.record.value.expiresAt
  {
    assert moves[..|moves|] == moves;
    if moves != [] {
      var n := |moves| - 1;
      OnTimePrefix(timing, who, w0, moves, gap);
      LeaseViewIsSafe(timing, who, w0, moves[..n]);
      TimelyHolderKeepsItsLease(timing, who, w0, moves[..n], gap);
      var w := PlayAll(timing, who, w0, moves[..n]);
      if !Holds(w.record, who) {
        LostStaysLost(timing, who, w, moves[n]);
      }
    }
  }

  /** THE OVERLAP IS BOUNDED. Whatever the store answers, a holder that samples at most `gap` apart has
      stopped before `slack + gap` past the lease end it counts on: that is how long a run taken over
      the moment its lease ended can still have two replicas at work. `slack` is the renew interval,
      or how much of the first term had gone when the loop started, whichever is more. */
  lemma {:induction false} OverlapIsBounded(timing: Timing, who: string, w0: World, moves: seq<Move>, gap: nat, slack: int)
    requires Sane(timing) && Admitted(w0, who)
    requires timing.renewInterval <= slack && w0.now + timing.ttl - w0.record.value.expiresAt <= slack
    requires OnTime(timing, who, w0, moves, gap)
    ensures var w := PlayAll(timing, who, w0, moves);
      w.loop.Looping? ==>
        && w.now < w.loop.leaseUntil + slack + gap
        && w.sampledAt < w.loop.lastHeld + timing.ttl
        && w.loop.lastHeld + timing.ttl <= w.loop.leaseUntil + slack
  {
    assert moves[..|moves|] == moves;
    if moves != [] {
      OnTimePrefix(timing, who, w0, moves, gap);
      OverlapIsBounded(timing, who, w0, moves[..|moves| - 1], gap, slack);
    }
  }

  // Being cut off.

  /** The time of the last sample that was answered, or of the start. */
  function LastAnswered(timing: Timing, who: string, w0: World, moves: seq<Move>): int {
    if moves == [] then w0.now
    else if moves[|moves| - 1] == TakeSample(AnsweredCall) then PlayAll(timing, who, w0, moves[..|moves| - 1]).now
    else LastAnswered(timing, who, w0, moves[..|moves| - 1])
  }

  lemma {:induction false} LastHeldIsLastAnswered(timing: Timing, who: string, w0: World, moves: seq<Move>)
    requires Admitted(w0, who) && PlayAll(timing, who, w0, moves).loop.Looping?
    ensures PlayAll(timing, who, w0, moves).loop.lastHeld == LastAnswered(timing, who, w0, moves)
  {
    if moves != [] {
      var n := |moves| - 1;
      var v := PlayAll(timing, who, w0, moves[..n]);
      if v.loop.Looping? {
        LastHeldIsLastAnswered(timing, who, w0, moves[..n]);
      } else {
        EndedStaysEnded(timing, who, v, moves[n]);
      }
    }
  }

  /** CUT OFF FOR A WHOLE TERM, AND NO SOONER. In every interleaving a sample that gets no answer ends the
      loop, and cancels its run, if and only if the last answered one is a whole term old; a younger one
      changes nothing. */
  lemma CutOffIff(timing: Timing, who: string, w0: World, moves: seq<Move>, call: Call)
    requires Admitted(w0, who) && PlayAll(timing, who, w0, moves).loop.Looping? && call != AnsweredCall
    ensures var v := PlayAll(timing, who, w0, moves);
      var w := Play(timing, who, v, TakeSample(call));
      if v.now - LastAnswered(timing, who, w0, moves) >= timing.ttl
      then w.loop == LeaseLost(RenewalUnreachable, v.now) && w.told == Hear(v.told, GiveUp)
      else w.loop == v.loop && w.told == v.told
  {
    hide PlayAll, LastAnswered;
    LastHeldIsLastAnswered(timing, who, w0, moves);
    var told := PlayAll(timing, who, w0, moves).told;
    assert Hears(told, [GiveUp]) == Hear(told, GiveUp) by { assert [GiveUp][..0] == []; }
  }

  // A cancel through the record.

  /** Whoever asked the run to cancel also cancelled it. */
  predicate Heeds(told: Told) { told.tReq.Some? ==> told.cause.Some? }

  lemma {:induction false} SeenIsTold(timing: Timing, who: string, w0: World, moves: seq<Move>)
    requires Admitted(w0, who) && Heeds(w0.told)
    ensures var w := PlayAll(timing, who, w0, moves); Heeds(w.told) && (w.loop.Looping? && w.loop.cancelSeen ==> w.told.tReq.Some?)
  {
    if moves != [] {
      var v, m := PlayAll(timing, who, w0, moves[..|moves| - 1]), moves[|moves| - 1];
      SeenIsTold(timing, who, w0, moves[..|moves| - 1]);
      SignalsAreHeeded(timing, who, v, m);
    }
  }

  lemma SignalsAreHeeded(timing: Timing, who: string, v: World, m: Move)
    requires Heeds(v.told) && (v.loop.Looping? && v.loop.cancelSeen ==> v.told.tReq.Some?)
    ensures var w := Play(timing, who, v, m);
      Heeds(w.told) && Recalls(v.told, w.told) && (w.loop.Looping? && w.loop.cancelSeen ==> w.told.tReq.Some?)
  {
    forall x ensures Hears(v.told, [x]) == Hear(v.told, x) { assert [x][..0] == []; }
  }

  /** A STORED CANCEL IS HEARD. In every interleaving, an answered sample of a holder whose record carries a
      cancel leaves the run asked and cancelled: with the record's time and for that request, unless an
      earlier request or cause came first. */
  lemma StoredCancelIsHeard(timing: Timing, who: string, w0: World, moves: seq<Move>)
    requires Admitted(w0, who) && Heeds(w0.told)
    requires var v := PlayAll(timing, who, w0, moves);
      v.loop.Looping? && Holds(v.record, who) && v.record.value.cancelRequestedAt.Some?
    ensures var v := PlayAll(timing, who, w0, moves);
      var w := Play(timing, who, v, TakeSample(AnsweredCall));
      && w.loop.Looping? && Recalls(v.told, w.told)
      && w.told.tReq == (if v.told.tReq.Some? then v.told.tReq else v.record.value.cancelRequestedAt)
      && w.told.cause == (if v.told.cause.Some? then v.told.cause else Some(CancelRequested))
  {
    hide PlayAll;
    SeenIsTold(timing, who, w0, moves);
    var v := PlayAll(timing, who, w0, moves);
    forall x ensures Hears(v.told, [x]) == Hear(v.told, x) { assert [x][..0] == []; }
  }

  /** Told so far, or not sampled since. */
  lemma {:induction false} HeardOrUnsampled(timing: Timing, who: string, w0: World, before: seq<Move>, after: seq<Move>)
    requires Admitted(w0, who) && Heeds(w0.told) && AlwaysAnswered(after)
    requires var w1 := PlayAll(timing, who, w0, before); w1.record.Some? && w1.record.value.cancelRequestedAt.Some?
    ensures var w1, w := PlayAll(timing, who, w0, before), PlayAll(timing, who, w0, before + after);
      w.loop.Looping? ==> w.sampledAt == w1.sampledAt || w.told.tReq.Some?
    decreases |after|
  {
    hide Play;
    if after == [] {
      assert before + after == before;
    } else {
      var n := |after| - 1;
      var moves, m := before + after[..n], after[n];
      assert (before + after)[..|moves|] == moves && (before + after)[|moves|] == m;
      HeardOrUnsampled(timing, who, w0, before, after[..n]);
      var w1, v := PlayAll(timing, who, w0, before), PlayAll(timing, who, w0, moves);
      SeenIsTold(timing, who, w0, moves);
      SignalsAreHeeded(timing, who, v, m);
      PlayBoth(timing, who, w0, before, after[..n]);
      FirstCancelKept(timing, who, w1, after[..n], w1.record.value.cancelRequestedAt.value);
      SampleFinds(timing, who, v, m);
      if m == TakeSample(AnsweredCall) && v.loop.Looping? && Holds(v.record, who) {
        StoredCancelIsHeard(timing, who, w0, moves);
      }
    }
  }

  /** Only a sample moves the sampling time, and an answered one that does not end the loop found it held. */
  lemma SampleFinds(timing: Timing, who: string, v: World, m: Move)
    ensures var w := Play(timing, who, v, m);
      && (!m.TakeSample? ==> w.sampledAt == v.sampledAt && w.loop == v.loop)
      && (m == TakeSample(AnsweredCall) && w.loop.Looping? ==> v.loop.Looping? && Holds(v.record, who))
  {
  }

  /** THE CANCEL IS HEARD IN TIME. Once the owner asked for the cancel of a held run, a holder that samples
      at most `gap` apart and is answered has heard it within `gap`, or its loop has ended. */
  lemma CancelHeardInTime(timing: Timing, who: string, w0: World, before: seq<Move>, after: seq<Move>, gap: nat)
    requires Sane(timing) && Admitted(w0, who) && Heeds(w0.told)
    requires var v := PlayAll(timing, who, w0, before); v.loop.Looping? && Holds(v.record, who)
    requires OnTime(timing, who, w0, before + [AskCancel] + after, gap) && AlwaysAnswered(after)
    ensures var v, w := PlayAll(timing, who, w0, before), PlayAll(timing, who, w0, before + [AskCancel] + after);
      w.loop.Looping? && w.now > v.now + gap ==> w.told.tReq.Some? && w.told.cause.Some?
  {
    hide Play, Holds, PlayAll;
    var asked := before + [AskCancel];
    Asked(timing, who, w0, before);
    LeaseViewIsSafe(timing, who, w0, before);
    HeardOrUnsampled(timing, who, w0, asked, after);
    SeenIsTold(timing, who, w0, asked + after);
    var moves := asked + after;
    assert moves[..|moves|] == moves;
  }

  lemma Asked(timing: Timing, who: string, w0: World, before: seq<Move>)
    requires Holds(PlayAll(timing, who, w0, before).record, who)
    ensures var v, w := PlayAll(timing, who, w0, before), PlayAll(timing, who, w0, before + [AskCancel]);
      && w.sampledAt == v.sampledAt && w.now == v.now && w.loop == v.loop
      && w.record.Some? && w.record.value.cancelRequestedAt.Some?
  {
    assert (before + [AskCancel])[..|before|] == before;
  }

  /** A record's cancel time is the first one asked, however often it is asked again. */
  lemma {:induction false} FirstCancelKept(timing: Timing, who: string, w0: World, moves: seq<Move>, at: int)
    requires w0.record.Some? && w0.record.value.cancelRequestedAt == Some(at)
    ensures var w := PlayAll(timing, who, w0, moves);
      w.record.Some? ==> w.record.value.cancelRequestedAt == Some(at)
  {
    if moves != [] {
      FirstCancelKept(timing, who, w0, moves[..|moves| - 1], at);
    }
  }

  // Noticing a loss.

  /** What a holder must conclude from the record of a run that is no longer its own. */
  function Verdict(record: Option<Record>, who: string, now: int): Loop {
    match record
    case None => LeaseLost(RecordGone, now)
    case Some(r) =>
      if r.state == Done || r.state == DoneUnsaved then FinishedQuietly
      else LeaseLost(if r.holder == who then RecordFinal else TakenOver, now)
  }

  /** The sample at move `k` of the run ended the loop: the loop still ran, no later than `deadline`, the
      record was not its own, and the verdict is the record's; a loss also cancels the run, for the
      lost lease unless it was cancelled before, and a quiet end tells the run nothing. */
  ghost predicate NoticedAt(timing: Timing, who: string, w0: World, moves: seq<Move>, k: nat, deadline: int)
    requires k < |moves|
  {
    var v, after := PlayAll(timing, who, w0, moves[..k]), PlayAll(timing, who, w0, moves[..k + 1]);
    && moves[k] == TakeSample(AnsweredCall)
    && v.loop.Looping? && v.now <= deadline && !Holds(v.record, who)
    && after.loop == Verdict(v.record, who, v.now)
    && after.told == (if after.loop.LeaseLost? then Hear(v.told, GiveUp) else v.told)
  }

  lemma EndedStaysEnded(timing: Timing, who: string, w: World, m: Move)
    requires !w.loop.Looping?
    ensures Play(timing, who, w, m).loop == w.loop
  {
  }

  /** Some sample from move `lo` on ended the loop in time, and it stayed ended. */
  ghost predicate Noticed(timing: Timing, who: string, w0: World, moves: seq<Move>, lo: nat, deadline: int) {
    exists k :: lo <= k < |moves| && NoticedAt(timing, who, w0, moves, k, deadline)
      && PlayAll(timing, who, w0, moves).loop == PlayAll(timing, who, w0, moves[..k + 1]).loop
  }

  /** THE LOSS IS NOTICED IN TIME. However a run lost its lease, a loop that samples at most `gap` apart
      and is answered from then on has ended within `gap` of the loss, by a sample that found the
      verdict its record called for. */
  lemma {:induction false} NoticedInTime(timing: Timing, who: string, w0: World, before: seq<Move>, after: seq<Move>, gap: nat)
    requires Sane(timing) && Admitted(w0, who)
    requires var w1 := PlayAll(timing, who, w0, before); w1.loop.Looping? && !Holds(w1.record, who)
    requires OnTime(timing, who, w0, before + after, gap) && AlwaysAnswered(after)
    ensures var w1, w := PlayAll(timing, who, w0, before), PlayAll(timing, who, w0, before + after);
      && (w.loop.Looping? ==> w.now <= w1.now + gap)
      && (!w.loop.Looping? ==> Noticed(timing, who, w0, before + after, |before|, w1.now + gap))
    decreases |after|
  {
    hide Play, Noticed, OnTime, Holds;
    var moves := before + after;
    StillUnseen(timing, who, w0, before, after, gap);
    if after == [] {
      assert moves == before;
    } else {
      var n := |after| - 1;
      var front, m := after[..n], after[n];
      assert moves == before + front + [m] && moves[..|moves| - 1] == before + front;
      OnTimePrefix(timing, who, w0, moves, gap);
      NoticedInTime(timing, who, w0, before, front, gap);
      LostForGoodAfter(timing, who, w0, before, front);
      var w1, v := PlayAll(timing, who, w0, before), PlayAll(timing, who, w0, before + front);
      if v.loop.Looping? {
        NoticedNow(timing, who, w0, before + front, m, |before|, w1.now + gap);
      } else {
        NoticedBefore(timing, who, w0, before + front, m, |before|, w1.now + gap);
      }
    }
  }

  lemma NoticedNow(timing: Timing, who: string, w0: World, moves: seq<Move>, m: Move, lo: nat, deadline: int)
    requires var v := PlayAll(timing, who, w0, moves); v.loop.Looping? && !Holds(v.record, who) && v.now <= deadline
    requires lo <= |moves| && (m.TakeSample? ==> m.call == AnsweredCall)
    ensures !PlayAll(timing, who, w0, moves + [m]).loop.Looping? ==> Noticed(timing, who, w0, moves + [m], lo, deadline)
  {
    var all, k := moves + [m], |moves|;
    assert all[..k] == moves && all[..k + 1] == all;
    if m.TakeSample? {
      OneSampleEnds(timing, who, PlayAll(timing, who, w0, moves));
      assert NoticedAt(timing, who, w0, all, k, deadline);
    }
  }

  lemma NoticedBefore(timing: Timing, who: string, w0: World, moves: seq<Move>, m: Move, lo: nat, deadline: int)
    requires Noticed(timing, who, w0, moves, lo, deadline) && !PlayAll(timing, who, w0, moves).loop.Looping?
    ensures Noticed(timing, who, w0, moves + [m], lo, deadline) && !PlayAll(timing, who, w0, moves + [m]).loop.Looping?
  {
    var all := moves + [m];
    assert all[..|moves|] == moves;
    EndedStaysEnded(timing, who, PlayAll(timing, who, w0, moves), m);
    hide Play;
    var k :| lo <= k < |moves| && NoticedAt(timing, who, w0, moves, k, deadline)
      && PlayAll(timing, who, w0, moves).loop == PlayAll(timing, who, w0, moves[..k + 1]).loop;
    assert all[..k] == moves[..k] && all[..k + 1] == moves[..k + 1];
    assert NoticedAt(timing, who, w0, all, k, deadline);
  }

  lemma OneSampleEnds(timing: Timing, who: string, v: World)
    requires v.loop.Looping? && !Holds(v.record, who)
    ensures var w := Play(timing, who, v, TakeSample(AnsweredCall));
      w.loop == Verdict(v.record, who, v.now) && w.told == if w.loop.LeaseLost? then Hear(v.told, GiveUp) else v.told
  {
    assert Hears(v.told, [GiveUp]) == Hear(v.told, GiveUp) by { assert [GiveUp][..0] == []; }
  }

  lemma LostForGoodAfter(timing: Timing, who: string, w0: World, before: seq<Move>, after: seq<Move>)
    requires !Holds(PlayAll(timing, who, w0, before).record, who)
    ensures !Holds(PlayAll(timing, who, w0, before + after).record, who)
  {
    PlayBoth(timing, who, w0, before, after);
    LostForGood(timing, who, PlayAll(timing, who, w0, before), after);
  }

  lemma {:induction false} PlayBoth(timing: Timing, who: string, w0: World, a: seq<Move>, b: seq<Move>)
    ensures PlayAll(timing, who, w0, a + b) == PlayAll(timing, who, PlayAll(timing, who, w0, a), b)
    decreases |b|
  {
    hide Play;
    if b == [] {
      assert a + b == a;
    } else {
      var n := |b| - 1;
      assert (a + b)[..|a| + n] == a + b[..n];
      PlayBoth(timing, who, w0, a, b[..n]);
    }
  }

  /** While the loop has not ended it has not sampled since the loss, so no more than `gap` has passed,
      and it still counts on the same lease end. */
  lemma {:induction false} StillUnseen(timing: Timing, who: string, w0: World, before: seq<Move>, after: seq<Move>, gap: nat)
    requires Sane(timing) && Admitted(w0, who)
    requires var w1 := PlayAll(timing, who, w0, before); w1.loop.Looping? && !Holds(w1.record, who)
    requires OnTime(timing, who, w0, before + after, gap)
    ensures var w1, w := PlayAll(timing, who, w0, before), PlayAll(timing, who, w0, before + after);
      w.loop.Looping? ==>
        && w.loop.leaseUntil == w1.loop.leaseUntil
        && (AlwaysAnswered(after) ==> w.sampledAt == w1.sampledAt && w.now <= w1.now + gap)
    decreases |after|
  {
    var moves := before + after;
    LeaseViewIsSafe(timing, who, w0, before);
    if after == [] {
      assert moves == before && moves[..|moves|] == moves;
    } else {
      var n := |after| - 1;
      var front, m := after[..n], after[n];
      assert moves[..|moves| - 1] == before + front && moves[|moves| - 1] == m;
      OnTimePrefix(timing, who, w0, moves, gap);
      StillUnseen(timing, who, w0, before, front, gap);
      LostForGoodAfter(timing, who, w0, before, front);
      assert moves[..|moves|] == moves;
      var v := PlayAll(timing, who, w0, before + front);
      if !v.loop.Looping? { EndedStaysEnded(timing, who, v, m); }
    }
  }

  /** TWO REPLICAS AT WORK, BUT NOT FOR LONG. From the sweep that took the run over, whatever the store
      answers, the old holder has stopped before `slack + gap` has passed. */
  lemma TakeoverOverlapIsBounded(
    timing: Timing, who: string, w0: World, before: seq<Move>, taker: string, after: seq<Move>, gap: nat, slack: int
  )
    requires Sane(timing) && Admitted(w0, who)
    requires timing.renewInterval <= slack && w0.now + timing.ttl - w0.record.value.expiresAt <= slack
    requires OnTime(timing, who, w0, before + [Sweep(taker)] + after, gap)
    requires var w1 := PlayAll(timing, who, w0, before); Holds(w1.record, who) && Reapable(w1.record, w1.now)
    ensures var w1, w := PlayAll(timing, who, w0, before), PlayAll(timing, who, w0, before + [Sweep(taker)] + after);
      w.loop.Looping? ==> w.now < w1.now + slack + gap
  {
    var swept := before + [Sweep(taker)];
    var w1, w2 := PlayAll(timing, who, w0, before), PlayAll(timing, who, w0, swept);
    assert swept[..|before|] == before;
    LeaseViewIsSafe(timing, who, w0, before);
    OverlapIsBounded(timing, who, w0, swept + after, gap, slack);
    if w2.loop.Looping? {
      StillUnseen(timing, who, w0, swept, after, gap);
    } else {
      EndedForGood(timing, who, w0, swept, after);
    }
  }

  lemma {:induction false} EndedForGood(timing: Timing, who: string, w0: World, before: seq<Move>, after: seq<Move>)
    requires !PlayAll(timing, who, w0, before).loop.Looping?
    ensures PlayAll(timing, who, w0, before + after).loop == PlayAll(timing, who, w0, before).loop
    decreases |after|
  {
    if after == [] {
      assert before + after == before;
    } else {
      var n := |after| - 1;
      var moves := before + after;
      assert moves[..|moves| - 1] == before + after[..n];
      EndedForGood(timing, who, w0, before, after[..n]);
      EndedStaysEnded(timing, who, PlayAll(timing, who, w0, before + after[..n]), after[n]);
    }
  }
}
