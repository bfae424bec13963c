# Verified models of the service's protocols and tools

This project models, in Dafny 4.11, seven components of the repository whose correctness is spread over many
functions or many steps, and proves what they promise on every input, every run and every interleaving.

`dafny verify dfyconfig.toml` checks everything. Each module follows one component:

| file | component |
|---|---|
| `event_contract.dfy` | the investigation event contract: an event-by-event check against a declarative grammar |
| `run_store.dfy` | the shared run record and the bounded run event log |
| `event_stream.dfy` | the stream writer: sequence, stages, byte budget, terminals, log before wire |
| `cancel_watch.dfy` | the race between a cancel, its watcher and the handler that stops watching |
| `run_lease.dfy` | the lease holder's loop, the local registry, and the lease protocol |
| `coverage.dfy`, `decimal.dfy` | the coverage merge, its record format and its machine integers |
| `junit.dfy`, `junit_merge.dfy`, `junit_reread.dfy` | the JUnit token machine, the JUnit merge, and the merged report read again |
| `failures.dfy` | the failure listing and its independent re-derivation |
| `shard_merge.dfy` | the merge of a two-turn run's shard artifacts |
| `variable_walk.dfy`, `operation_policy.dfy` | the walk over input types and the variable policy |
| `credentials.dfy` | device login, refresh and logout against a server that may answer anything |
| `direct_calls.dfy` | which calls a function makes itself, and the mint anchor |
| `sorting.dfy`, `prelude.dfy` | sorting, counting and small value types the others share |

Three ideas recur. A stateful component is a class whose whole state is a value, so what every call keeps is a
predicate on values, and what readers rely on are lemmas about that predicate. What may go wrong outside (a
connection, a store, a server, another replica) is an arbitrary choice inside a method or an arbitrary function of
time. And a fold or a token machine is proved equal to a definition that does not mention its accumulators: a grammar,
a tree, a rank, a per-block total, a place in a syntax tree.

## What the proofs found

- The contract's silence bound (11 s) is kept by stamps, not by the clock. A stream with an open stage can still be
  answered if and only if its next stamp may lie within 11 s of the last one (`EventContract.AnsweredIffInTime`,
  with `EventContract.SilenceWitness` on either side of the bound). On the writer: completing the open stage and
  answering succeeds if and only if the completion's stamp is in time (`EventStream.CompleteAndAnswer`); while no
  stamp is, the stage stays open and no answer is committed, whatever is called (`EventStream.Drive`). One connection
  write may take 30 s, so a run can get there; `EventStream.SilentRun` is such a run.
- A log append whose reply is lost is refused on the retry, because its seq is already there, and the run then
  fails although its event was stored (`RunStore.AppendTwice`). The store's documentation asks for the next seq;
  the code refuses only a seq that exists or a log that ended.
- A second `finish` reports no terminal, also when the stream carries one (`EventStream.InvestigationStream.Finish`).
- Coverage counts wrap at 64 bits. The merged document is a profile that can be merged again if and only if, in the
  counting modes, no block's counts in the input add up to a sum that wraps below zero
  (`Coverage.MergeIsIdempotent`); `Coverage.WrappedProfiles` are two profiles for which it fails.
- A merged JUnit report passes the merge's own check exactly when no printed total wrapped negative and no optional
  root counter that some shard carries leaves out suites of a shard that does not; `JUnitReread.UnbalancedShards`
  is a pair of accepted reports whose merged report the merge refuses.
- The two decoders behind the failure listing and its re-derivation differ: the struct decoder matches names up to
  case, skips nulls, refuses a field that is not text and ignores what it does not know; the map decoder takes exact
  names only, reads anything but text as empty, and refuses numbers beyond a float. They come to the same verdict
  whatever the texts of a line if and only if the line is clear, a condition on its names and the kinds of its values
  (`Failures.ClearIff`). `Failures.LowerCasePackage` is a line both take with different failures, and
  `Failures.NumberPackage` one that only the second takes.
- The policy generator's prefix tests see one list level. A path under a refused path through two list levels is
  allowed, and its ancestor is not: `OperationPolicy.NestedListsEscape`, with both conditions exact in
  `OperationPolicy.AllowedUnderRefusedIff` and `OperationPolicy.UpwardClosedIff`. The generator's later load of
  the artifact is not part of this model.
- A new login removes the selected credential only, and writes where it can. With both the keyring and the token file
  in use, the token file's credential may be written over while it is live and unrevoked; with at most one of them in
  use no credential leaves its place but confirmed inactive (`Credentials.Client.Login`). For every such pair whose
  keyring token has ended there is a run that loses the other: `Credentials.OverwritingLogin`.

## Model

| member | source | states |
|---|---|---|
| `EventContract.CheckAcceptsTheGrammar` | internal/contracts/v1/context_fabric_investigation_event_stream.go:62-146 | the stateful check accepts a sequence of events if and only if every position obeys a declarative grammar (seq, request id, first and last, stage order, what is open, pace), and its state is then the history of the sequence |
| `EventContract.PrefixAccepted` | internal/contracts/v1/context_fabric_investigation_event_stream.go:62-124 | every prefix of an accepted stream is accepted |
| `EventContract.ElapsedNeverDecreases` | internal/contracts/v1/context_fabric_investigation_event_stream.go:62-124 | elapsed values never go back along an accepted stream, and the check remembers the largest |
| `EventContract.SilentStreamCannotAnswer` | internal/contracts/v1/context_fabric_investigation_event_stream.go:52-124 | when every later stamp is past the silence bound, no stage event or heartbeat is accepted again, and a stage left open rules out an answer for good |
| `EventContract.AnsweredIffInTime` | internal/contracts/v1/context_fabric_investigation_event_stream.go:52-124 | an accepted stream with an open stage can still be answered if and only if its next stamp may lie within the silence bound; with no open stage it always can, the largest integer aside |
| `EventContract.SilenceWitness` | internal/contracts/v1/context_fabric_investigation_event_stream.go:52-124 | a stream one stage into its run can be answered with a next stamp at 11000 ms and no more at 11001 ms |
| `EventContract.StepReflects` | internal/contracts/v1/context_fabric_investigation_event_stream.go:62-146 | one accepted event moves the check's state exactly as it moves the declared history: the open stage, the last start, the elapsed value |
| `RunStore.AppendNext` | internal/contextfabric/memoryinvestigation/runs.go:78-138 | the one writer's next event, appended to a log without a terminal, gives exactly the log of one more event, the oldest row dropped when the log is full |
| `RunStore.AppendEnd` | internal/contextfabric/memoryinvestigation/runs.go:78-138 | a terminal at the next seq ends the log and drops no event |
| `RunStore.EndedLogIsFinal` | internal/contextfabric/memoryinvestigation/runs.go:78-138 | a log with a terminal never changes again: events are refused, a second terminal is not written |
| `RunStore.AppendTwice` | internal/contextfabric/memoryinvestigation/runs.go:78-138 | an event already in the log is refused, so a retry after a lost reply meets a refusal |
| `RunStore.TakeoverKeepsLog` | internal/contextfabric/memoryinvestigation/runs.go:190-228 | a takeover leaves the log of the same events, ended by exactly one terminal |
| `RunStore.TakeoverRow` | internal/contextfabric/memoryinvestigation/runs.go:190-228 | the row a takeover adds to an open log: an error with its envelope, one past the last event, naming the last stage started; an ended log is left alone |
| `RunStore.AppendEnds` | internal/contextfabric/memoryinvestigation/runs.go:78-138 | a terminal the store took is the log's last row, only a log that ended refuses an event it does not hold, and who ended the log does not change |
| `RunStore.RenewalOnlyLengthens` | internal/contextfabric/memoryinvestigation/runs.go:31-51 | a check answers what the record says and renews exactly for the holder of a running record, never to an earlier end; nothing else moves |
| `RunStore.Store.AppendRunEvent` | internal/contextfabric/memoryinvestigation/runs.go:78-138 | one atomic append; a failed call is counted and may have taken effect |
| `RunStore.Store.CheckRunLease` | internal/contextfabric/memoryinvestigation/runs.go:31-51 | one atomic check that renews only for the holder of a running record, and may lose its answer |
| `RunStore.Store.ReapLostRun` | internal/contextfabric/memoryinvestigation/runs.go:190-228 | a sweep takes a run exactly when its lease has ended and it is still running, record and log together |
| `RunStore.Store.RequestRunCancel` | internal/contextfabric/memoryinvestigation/runs.go:53-66 | an owner's cancel is noted only while the record is running under a lease, its first time is kept for good, nothing else of the record moves, and the caller gets the record as it then is |
| `EventStream.WithByteCaps` | internal/api/context_fabric_event_stream.go:102-107 | for every configured size the reserve covers one frame, whatever the total |
| `EventStream.ReserveCoversATerminal` | internal/api/context_fabric_event_stream.go:90-107 | a terminal fits after every prefix the budget lets through if and only if the reserve is at least the frame cap, degenerate caps aside |
| `EventStream.TerminalFits` | internal/api/context_fabric_event_stream.go:265-283 | in every reachable state the branch that refuses a terminal over the total is dead |
| `EventStream.InvestigationStream.Write` | internal/api/context_fabric_event_stream.go:232-312 | whatever fails, the invariant is kept; without an error exactly this frame is committed; with one nothing moves, but for the budget terminal; a terminal the writer builds itself is stopped only by a failed stream, its schema or its size |
| `EventStream.InvestigationStream.Put` | internal/api/context_fabric_event_stream.go:284-312 | log, then connection, then commit: a failed append or write commits nothing |
| `EventStream.InvestigationStream.WriteFrame` | internal/api/context_fabric_event_stream.go:315-323 | a failed connection write may have put any part of the frame on the wire |
| `EventStream.InvestigationStream.Deliver` | internal/api/context_fabric_event_stream.go:289-301 | losing the viewer fails a stream its connection owns and leaves a leased one running, with nothing more delivered |
| `EventStream.InvestigationStream.AppendToLog` | internal/api/context_fabric_event_stream.go:327-375 | after a success the log is the committed events plus this one at its own seq; an error ends it with its own envelope and an answer with the marker noted for it, unless a takeover ended it first and the writer noted that; it fails, ending stream and run, only after a failed store call or a takeover |
| `EventStream.InvestigationStream.AppendRow` | internal/api/context_fabric_run_lease.go:288-304 | bounded retries with takeovers in between leave a log of the same events, or of one more; it gives up exactly when every attempt failed, a terminal the store took is the last row, and a refusal without a failed call means a takeover |
| `EventStream.InvestigationStream.ExhaustBudget` | internal/api/context_fabric_event_stream.go:381-396 | the run is cancelled and an accepted stream ends with the budget terminal inside the reserve, unless that terminal is stopped by a failure, its schema or the frame cap |
| `EventStream.BudgetRun` | internal/api/context_fabric_event_stream.go:381-396 | a run whose third frame would cross into the reserve ends with the budget error, and its later answer is reported as that error |
| `EventStream.InvestigationStream.Accept` | internal/api/context_fabric_event_stream.go:443-450 | the accepted event is only ever the first frame |
| `EventStream.InvestigationStream.Advance` | internal/api/context_fabric_event_stream.go:433-490 | any transition, repeated, late or out of order, becomes exactly the frames the stage rule gives: nothing backwards, the open stage completed before the next starts, only the open stage completed; a stamp past the silence bound commits nothing, and one inside it is stopped only by a failed stream, the frame cap or the byte budget |
| `EventStream.StageAcceptedIff` | internal/api/context_fabric_event_stream.go:433-490 | in every reachable state the contract takes a stage frame if and only if the stage may start or complete now and its stamp is in time |
| `EventStream.AnswerAcceptedIff` | internal/api/context_fabric_event_stream.go:532-575 | in every reachable state the contract takes a conforming answer if and only if no stage is open |
| `EventStream.CompleteAndAnswer` | internal/api/context_fabric_event_stream.go:433-575 | completing the open stage and answering reports the result if and only if the completion's stamp lies inside the silence bound, failures and bytes aside |
| `EventStream.SilentRun` | internal/api/context_fabric_event_stream.go:433-575 | a run from its first frame: a completion stamped 11001 ms on leaves the stage open, and the conforming answer ends as an internal error |
| `EventStream.InvestigationStream.Beat` | internal/api/context_fabric_event_stream.go:492-498 | a heartbeat names the stage that is open and a time not before the last; in time it is stopped only by a failed stream, the frame cap or the byte budget |
| `EventStream.BeatAcceptedIff` | internal/api/context_fabric_event_stream.go:492-498 | in every reachable state the contract takes the writer's heartbeat if and only if its stamp is in time |
| `EventStream.InvestigationStream.Finish` | internal/api/context_fabric_event_stream.go:532-575 | what it reports is the committed terminal; a result is reported only for the outcome's own answer, committed now with no stage open, and then nothing but a failed stream or the frame cap keeps a conforming one away; a decoded error is committed with its own envelope unless that is stopped; an answer that cannot be sent ends with the frame cap's error when only its size is in the way, else with an internal error; an outcome without a terminal means a failed stream or that the fallback of this very outcome was stopped by its schema or the frame cap |
| `EventStream.InvestigationStream.Abort` | internal/api/context_fabric_event_stream.go:580-588 | a stream that already ended or failed is left as it is; an accepted, writable one ends with the internal-error terminal, or was stopped by a failure, its schema or the frame cap |
| `EventStream.InvestigationStream.FailAfterPanic` | internal/api/context_fabric_event_stream.go:406-417 | nothing is written any more and the run is cancelled |
| `EventStream.Drive` | internal/api/context_fabric_event_stream.go:502-588 | over any sequence of calls by the competing writers, with any failures and takeovers: the invariant holds throughout, history only grows, nothing follows a terminal or a failure, and a lost viewer receives nothing more; with a stage open and every stamp past the silence bound, the stage stays open and no result is ever committed; a stream over its budget carries the budget terminal, unless that was stopped fairly |
| `EventStream.FramesInOrder` | internal/api/context_fabric_event_stream.go:232-312 | in every reachable state the committed frames are in the grammar, carry seq 1..n with one request id, never go back in time, and only the last can be a terminal, the one the writer remembers |
| `EventStream.StagesInOrder` | internal/api/context_fabric_event_stream.go:452-490 | committed starts strictly increase, only the open stage completes, and the two stage fields equal a replay of the committed frames |
| `EventStream.BytesWithinBudget` | internal/api/context_fabric_event_stream.go:232-312 | the wire never carries more than the total, torn frames included, and every non-terminal prefix stays out of the reserve |
| `EventStream.LogBeforeWire` | internal/api/context_fabric_event_stream.go:284-375 | on a leased run delivered frames are a prefix of the committed ones, and each non-terminal one lies in the log at its own seq; a stream that has not failed has logged exactly what it committed |
| `EventStream.AttachFindsEveryEvent` | internal/contextfabric/memoryinvestigation/runs.go:141-172 | a client that attaches later finds every committed event the bounded log still covers, with its content, and at most one terminal, last |
| `EventStream.AttachFindsTheEnd` | internal/api/context_fabric_event_stream.go:327-375 | the log of a leased run that committed its terminal and did not fail ends with that terminal's own marker at its own seq, or with the takeover's that came first; without a noted marker an answer leaves the log to a takeover |
| `EventStream.UndisturbedRun` | internal/api/context_fabric_event_stream.go:232-417 | with no failed connection write or store call, no takeover and every event encodable, nothing but a panic fails the stream and every committed frame was delivered whole |
| `EventStream.EarlyEndCancels` | internal/api/context_fabric_event_stream.go:366-428 | a stream that failed cancelled its run, unless it is leased and a frame could not be encoded; one that spent its budget cancelled it too and carries no answer |
| `EventStream.ErrorTerminalIsInPlace` | internal/api/context_fabric_event_stream.go:381-396 | the contract never refuses the writer's own error terminal for its place in the stream |
| `CancelWatch.LoggedExactlyOnce` | internal/api/context_fabric_event_stream.go:678-704 | in every interleaving the cancel line is written at most once, never without a cancel, and exactly once by the time the handler's call returns when the cancel came before its stop |
| `CancelWatch.QuietAfterReturn` | internal/api/context_fabric_event_stream.go:678-704 | after that call returned nothing is logged any more |
| `CancelWatch.WaitAlwaysEnds` | internal/api/context_fabric_event_stream.go:678-704 | whenever the handler waits, the watcher is running, and its own remaining steps end the wait |
| `CancelWatch.CallAlwaysEnds` | internal/api/context_fabric_event_stream.go:678-704 | from every reachable state the handler's call ends by the watcher's and its own steps |
| `CancelWatch.CancelIsLogged` | internal/api/context_fabric_event_stream.go:678-704 | before the handler's call a cancel can come in every state and the watcher alone logs it |
| `CancelWatch.StopLogsTheCancel` | internal/api/context_fabric_event_stream.go:678-704 | when the call comes before the watcher, the call leaves the line logged |
| `RunLease.HoldRunLease` | internal/api/context_fabric_run_lease.go:194-264 | against any store, with local and remote cancels, sweeps and the run's end between any two passes: each pass sends exactly the renewal that is due, the loop's state is the step definition over the answers it got, and the run remembers exactly the signals it was sent, its own cancels and the loop's; a cancel that any pass found on the held record has reached the run |
| `RunLease.FirstIsKept` | internal/api/context_fabric_run_lease.go:143-151 | over any signals, wherever they come from, a run remembers the first request's time and the first cause |
| `RunLease.EndedLoopIgnoresTheRest` | internal/api/context_fabric_run_lease.go:194-264 | once the loop has ended, no later sample changes its verdict |
| `RunLease.RegistryHoldsTheCurrentRun` | internal/api/context_fabric_run_lease.go:159-191 | over any history of additions and removals a key names a run if and only if that run was added last and not removed itself: an older run's remover evicts nothing |
| `RunLease.Registry.Cancel` | internal/api/context_fabric_run_lease.go:182-191 | it answers whether the run is held here; the run hears the request, which sets an unset time and never moves the first; no other held run is touched |
| `RunLease.LeasedRun.RequestCancel` | internal/api/context_fabric_run_lease.go:143-151 | the first request's time and the first cause are kept |
| `RunLease.LostForGood` | internal/api/context_fabric_run_lease.go:194-264 | in every interleaving of samples, sweeps, cancels, completion and removal a lease once lost never comes back |
| `RunLease.LostStaysLost` | internal/api/context_fabric_run_lease.go:207-262 | the old holder's samples never change the record again |
| `RunLease.NoticedInTime` | internal/api/context_fabric_run_lease.go:194-264 | in every interleaving in which the lease was lost, a loop that samples at most a gap apart and is answered has ended within the gap of the loss: quietly exactly when the run's own save made the record final, else lost with the reason and the run cancelled for it unless it was cancelled before |
| `RunLease.StoredCancelIsHeard` | internal/api/context_fabric_run_lease.go:254-260 | in every interleaving an answered sample of a holder whose record carries a cancel leaves the run asked and cancelled, with the record's time unless an earlier request came |
| `RunLease.CancelHeardInTime` | internal/api/context_fabric_run_lease.go:194-264 | a holder that samples at most a gap apart and is answered has heard the owner's cancel within the gap, or its loop has ended |
| `RunLease.CutOffIff` | internal/api/context_fabric_run_lease.go:220-235 | in every interleaving an unanswered sample ends the loop, and cancels the run, if and only if the last answered one is a whole term old |
| `RunLease.LeaseViewIsSafe` | internal/api/context_fabric_run_lease.go:197-253 | in every interleaving, lost answers included, the loop never believes in a later lease end than the store's |
| `RunLease.TimelyHolderKeepsItsLease` | internal/api/context_fabric_run_lease.go:197-253 | a holder that samples at most ttl minus the renew interval apart and is always answered has an unexpired lease in every state while it holds, so no sweep takes it |
| `RunLease.OverlapIsBounded` | internal/api/context_fabric_run_lease.go:197-253 | whatever the store answers, the loop has stopped within slack plus one sampling gap past the lease end it counts on |
| `RunLease.TakeoverOverlapIsBounded` | internal/api/context_fabric_run_lease.go:197-253 | from any sweep that takes the run over, whatever the store answers, the old holder has stopped before slack plus one sampling gap has passed |
| `RunLease.FirstCancelKept` | internal/contextfabric/memoryinvestigation/runs.go:53-66 | over every run the record keeps the first cancel time |
| `Coverage.PrintedRecordReadsBack` | ci/mergetestreports/main.go:287-294 | a printed record reads back as itself if and only if its count is not negative |
| `Coverage.TotalOfBoth` | ci/mergetestreports/main.go:324-425 | the total of a block is a homomorphism: over two lists it is the join of the two totals |
| `Coverage.TotalIgnoresOrder` | ci/mergetestreports/main.go:324-425 | a block's total does not depend on the order of the records |
| `Coverage.TotalIsGreatest` | ci/mergetestreports/main.go:324-425 | in set mode a block's total is the greatest of its counts |
| `Coverage.TotalIsSum` | ci/mergetestreports/main.go:324-425 | in count and atomic mode a block's total is the 64-bit sum of its counts |
| `Coverage.AddProfile` | ci/mergetestreports/main.go:330-392 | a profile is accepted if and only if it reads and keeps the mode, and then adds exactly its records |
| `Coverage.ReadsTheFormat` | ci/mergetestreports/main.go:330-392 | a profile reads in a mode if and only if, blank lines aside, its first line is that header and all others are records; its records are those lines' |
| `Coverage.LinesAndHeaders` | ci/mergetestreports/main.go:341-363 | carriage returns at the end of a line do not count, and the three mode headers are the only ones |
| `Coverage.MergeCoverage` | ci/mergetestreports/main.go:324-425 | it succeeds if and only if the profiles read in one mode with a record somewhere; the output holds each block once, in order, with its total; overlaps plus blocks are the records |
| `Coverage.MergeIsUnique` | ci/mergetestreports/main.go:324-425 | a merge is determined by the block totals alone |
| `Coverage.MergedByPlace` | ci/mergetestreports/main.go:401-417 | the merged blocks stand by file, then by start, then by end |
| `Coverage.MergeIgnoresOrder` | ci/mergetestreports/main.go:324-425 | profiles that hold the same records, in any order and cut, merge to the same document |
| `Coverage.MergeOfMerges` | ci/mergetestreports/main.go:324-425 | merging the merges of groups gives the merge of everything, when no group's sum wrapped |
| `Coverage.MergeIsIdempotent` | ci/mergetestreports/main.go:324-425 | the merged document can be merged again if and only if no block's counts in the input sum to a negative word, and then reproduces itself line for line |
| `Coverage.WrappedProfiles` | ci/mergetestreports/main.go:324-425 | two count-mode profiles, of the greatest count and of one, that merge to a document the merge refuses |
| `Coverage.DocumentReadsBack` | ci/mergetestreports/main.go:324-425 | a printed profile reads back as its mode and records, or not at all when a count is negative |
| `JUnit.ParseJUnit` | ci/mergetestreports/main.go:612-720 | the token loop accepts only token sequences that are the text of one document tree, and answers on every tree, errors included, what the tree says |
| `JUnit.ScanTokens` | ci/mergetestreports/main.go:620-720 | the loop with its depth counter, flags and slice offset refines the machine that carries the decoder's stack and the open suite's tokens |
| `JUnit.MachineReadsTheTree` | ci/mergetestreports/main.go:612-720 | on every document the machine's answer is the structural reading: root counters, suites with their own slices in order, failures from depth four on |
| `JUnit.AcceptedIsATree` | ci/mergetestreports/main.go:612-720 | what the machine accepts is one well-nested document with nothing but blanks after its root |
| `JUnit.PassesNode` | ci/mergetestreports/main.go:612-720 | inside a suite a subtree only extends the suite's slice and the failure count |
| `JUnitMerge.CheckCounters` | ci/mergetestreports/main.go:524-556 | a shard passes if and only if every counter it carries equals what it is checked against, and its counters are then added to the totals |
| `JUnitMerge.ConsistentIff` | ci/mergetestreports/main.go:524-556 | name by name: tests, skipped and disabled are the suites' sums, failures the failure elements, errors unchecked, each only when carried |
| `JUnitMerge.TakeSuites` | ci/mergetestreports/main.go:558-567 | suites are taken in order, refused if and only if a named suite repeats over all shards |
| `JUnitMerge.MergeJUnit` | ci/mergetestreports/main.go:509-589 | it succeeds if and only if every report parses and is consistent, no named suite repeats and there is a suite; totals are the sums, suites the shards' slices in order |
| `JUnitReread.MergedReadsBack` | ci/mergetestreports/main.go:509-720 | the merged document reads back as the totals, all suites in order and all failures, or is refused, exactly when a printed total wrapped negative |
| `JUnitReread.MergedPassesItsOwnCheck` | ci/mergetestreports/main.go:509-720 | the merged report is mergeable if and only if no printed total is negative and each optional counter some shard carries leaves out nothing elsewhere |
| `JUnitReread.AllOrNone` | ci/mergetestreports/main.go:483-556 | carrying each optional counter in every root or in none is enough |
| `JUnitReread.UnbalancedShards` | ci/mergetestreports/main.go:524-556 | two token sequences that are accepted together and whose merged document is refused |
| `JUnitReread.MergeOfMerged` | ci/mergetestreports/main.go:509-589 | merging an accepted merged document alone gives it back, token for token |
| `Failures.CollectStream` | ci/mergetestreports/main.go:858-905 | a stream is accepted if and only if the struct decoder takes every line with a known action and one is an event; each failure is noted once for the shard |
| `Failures.CollectFailures` | ci/mergetestreports/main.go:858-922 | the listing holds exactly the distinct failed pairs of the streams, strictly sorted, each with exactly the shards that have it, in order |
| `Failures.CountsAddUp` | ci/mergetestreports/main.go:858-922 | the per-shard failure counts add up to the lengths of the entries' shard lists |
| `Failures.RawFailedPairs` | ci/mergetestreports/main.go:989-1019 | the second reader accepts a stream if and only if the map decoder takes every line with a known action, and then finds exactly the failures that decoder sees |
| `Failures.RefusedIff` | ci/mergetestreports/main.go:858-1019 | the struct decoder refuses an object exactly for space that is not JSON's or a field, in any spelling, that is neither text nor null; the map decoder exactly for a number no float can hold, in any member |
| `Failures.FoldIs` | ci/mergetestreports/main.go:747-751 | which characters match an ASCII letter of a field's name: its two cases, and the long s and the Kelvin sign |
| `Failures.ClearIff` | ci/mergetestreports/main.go:858-1019 | the two decoders come to the same verdict on a line whatever its texts, if and only if the line is clear: both or neither can take it, and each field that matters has its last spelling in any case as its last exact one |
| `Failures.OneLine` | ci/mergetestreports/main.go:858-1019 | a stream of one line is accepted and read alike by both derivations if and only if the decoders agree on the line |
| `Failures.LowerCasePackage` | ci/mergetestreports/main.go:747-1019 | a package named in lower case is taken by both, listed by the first and seen by the second as no failure |
| `Failures.NumberPackage` | ci/mergetestreports/main.go:747-1019 | a package that is a number is refused by the listing and accepted by the second reader |
| `Failures.NormalizeFailed` | ci/mergetestreports/main.go:970-988 | a package pair stands if and only if no test of that package does |
| `Failures.DiffSets` | ci/mergetestreports/main.go:1083-1099 | each side lists, sorted, exactly one display per failure that is only there, and both are empty if and only if the sets are equal |
| `Failures.CrossCheck` | ci/mergetestreports/main.go:1346-1382 | the comparison reports exactly the standing failures that one decoder sees and the other does not; on clear lines the second derivation accepts what the listing accepts and nothing is reported |
| `Failures.DisplayIsNotAnIdentity` | ci/mergetestreports/main.go:760-773 | two different failures can share a display name |
| `ShardMerge.ValidateShardSet` | cmd/acr-trial-merge-two-turn/main.go:1103-1223 | accepted if and only if every index below the count is named by exactly one shard and all shards agree on the launch; a partial set is refused with exactly the missing indices, in order |
| `ShardMerge.CompleteByCount` | cmd/acr-trial-merge-two-turn/main.go:1103-1131 | distinct indices in range cover the range if and only if there are as many as it has |
| `ShardMerge.ValidateResultUniqueness` | cmd/acr-trial-merge-two-turn/main.go:1265-1277 | accepted if and only if no two rows of any shards share a key |
| `ShardMerge.ResultByteStats` | cmd/acr-trial-merge-two-turn/main.go:979-1007 | p50 and p99 are the elements of their ranks by counting, max is the greatest, p50 <= p99 <= max, the clamp is dead, and the counters count the positive samples over their caps |
| `ShardMerge.StatsIgnoreOrder` | cmd/acr-trial-merge-two-turn/main.go:979-1007 | the statistics belong to the population, not to its order |
| `ShardMerge.StatsAreUnique` | cmd/acr-trial-merge-two-turn/main.go:979-1007 | a population has one set of statistics |
| `ShardMerge.AnswerRate` | cmd/acr-trial-merge-two-turn/main.go:923-945 | the rate times the answerable rows is the answered rows, and it is 0 when none is answerable |
| `ShardMerge.AnsweredCases` | cmd/acr-trial-merge-two-turn/main.go:923-970 | which rows are answerable and answered: anchored rows need a complete answer, cohort rows also take partial and degraded with a scored member, both need a fact |
| `ShardMerge.UniqueSeparates` | cmd/acr-trial-merge-two-turn/main.go:1455-1471 | the canonical row order is total on rows with unique keys |
| `ShardMerge.RowsByCase` | cmd/acr-trial-merge-two-turn/main.go:1455-1471 | the merged rows stand by case, then member, then arm, then probe |
| `ShardMerge.MergeReports` | cmd/acr-trial-merge-two-turn/main.go:1287-1509 | the merged artifact holds all rows and samples sorted, statistics and rate of the whole population, unions of members and cases, the 64-bit sums of all 37 counters and six tables, the recomputed verdict and probe coverage, earliest start and slowest provisioning |
| `ShardMerge.ProbeCoverage` | cmd/acr-trial-merge-two-turn/main.go:1564-1588 | a probe kind is adequate if and only if something was eligible and its runs reach all of it or the floor |
| `ShardMerge.CutInvariance` | cmd/acr-trial-merge-two-turn/main.go:1287-1509 | two ways of cutting and ordering one run merge into the same rows, samples, statistics, rate, members, cases, totals, coverage and verdict |
| `ShardMerge.OrderInvariance` | cmd/acr-trial-merge-two-turn/main.go:1287-1509 | shards in another order give the same artifact but for the order of the timings |
| `VariableWalk.WalkListsEveryInput` | cmd/operationpolicy/generate.go:284-335 | the walk succeeds if and only if every input path has a known input type that is not inside itself; then it lists every input path exactly once, as what it is, parents first |
| `VariableWalk.WalkIsExact` | cmd/operationpolicy/generate.go:287-327 | the same for one input and everything below it, for any chain of types above it |
| `VariableWalk.ChainGrows` | cmd/operationpolicy/generate.go:319-325 | each level down leaves fewer types off the chain, so the walk ends on every schema |
| `VariableWalk.AncestorIsObject` | cmd/operationpolicy/generate.go:284-335 | whatever an input path passes through is an input object |
| `OperationPolicy.RefusedSelfOrAncestor` | cmd/operationpolicy/generate.go:679-696 | the loop returns the refusal at the longest refused prefix, or none exactly when there is none |
| `OperationPolicy.PersonVariables` | cmd/operationpolicy/generate.go:339-353 | the person scan, in node order |
| `OperationPolicy.ScanIs` | cmd/operationpolicy/generate.go:339-372 | looked up by path, the scan says of each node exactly whether it has a person-named step, else which of its values are |
| `OperationPolicy.BuildRule` | cmd/operationpolicy/generate.go:393-470 | a node is accepted if and only if, when it is declared or leads to something declared, nothing forbids it, and its refused values are known; its rule is then determined |
| `OperationPolicy.BuildVariables` | cmd/operationpolicy/generate.go:357-473 | it succeeds if and only if the walk does, all declared paths are input paths and every node is acceptable; one rule per node, in the walk's order |
| `OperationPolicy.OneRulePerInput` | cmd/operationpolicy/generate.go:393-472 | every input path has exactly one rule, no other path has one, and a rule stands before the rules below it |
| `OperationPolicy.NoPersonAllowed` | cmd/operationpolicy/generate.go:339-470 | an allowed rule has no person-named step, an allowed enum lists only its own non-person values and at least one, and every person value of an enum off the person paths is refused |
| `OperationPolicy.RefusedValuesAre` | cmd/operationpolicy/generate.go:457-469 | an enum refuses exactly its person values with the person code and its other declared values with their declared refusals; no other kind refuses values |
| `OperationPolicy.AllowedAsDeclared` | cmd/operationpolicy/generate.go:425-444 | an allowed input is set by its declared source, by the client when none is declared, and a forced one has its value; an object only on the way is the client's; what is not allowed cannot be set |
| `OperationPolicy.RefusalIsNearest` | cmd/operationpolicy/generate.go:445-456 | a rule is allowed or carries a refusal, never both; a refused path carries the person code or its nearest refused ancestor's |
| `OperationPolicy.AllowedUnderRefusedIff` | cmd/operationpolicy/generate.go:403-413 | nothing at or below a refused path is allowed, if and only if no declared path lies under a refused one through two list levels |
| `OperationPolicy.UpwardClosedIff` | cmd/operationpolicy/generate.go:396-411 | allowed paths are closed upward, if and only if each input that a declared path leaves through two list levels is declared itself |
| `OperationPolicy.SingleListsAreSafe` | cmd/operationpolicy/generate.go:357-473 | with at most one list level per input both hold without condition |
| `OperationPolicy.NestedListsEscape` | cmd/operationpolicy/generate.go:403-413 | a refused grid whose cells are allowed is accepted |
| `Credentials.Client.PollGrant` | cmd/acr-mcp/lifecycle.go:239-344 | against any answers the loop ends within the grant; each wait is the first interval plus five seconds per slow_down so far; it polls on after every answer that leaves the grant open and ends on one only with a missed wait or a grant that is over; after any number of open answers a token that comes in time and lands is a success; an invalidated grant, and nothing else, restarts; every token received is stored and verified, revoked, or reported |
| `Credentials.Client.KeepIssued` | cmd/acr-mcp/lifecycle.go:251-291 | success if and only if the token is stored, read back as the selected one and acknowledged; once read back it stays whatever the acknowledgement says; else it is revoked and lies nowhere but where its removal failed, or is reported |
| `Credentials.Client.DropIssued` | cmd/acr-mcp/lifecycle.go:292-299 | a token in an unusable response is revoked or reported, and nothing local changes |
| `Credentials.Client.Acknowledge` | cmd/acr-mcp/lifecycle.go:366-394 | the outcome is that of the first definite answer among at most three, and nothing local changes |
| `Credentials.Client.RevokeIssued` | cmd/acr-mcp/lifecycle.go:434-436 | only an explicit success counts for a token issued moments ago |
| `Credentials.Client.RevokeEstablished` | cmd/acr-mcp/lifecycle.go:446-451 | success means the server confirmed the token inactive |
| `Credentials.Client.Attempt` | cmd/acr-mcp/lifecycle.go:188-344 | one authorization, at most 120 polls; refused at its start it fails without a poll; a grant that lands succeeds; a restart only with nothing received |
| `Credentials.Client.SettleSaved` | cmd/acr-mcp/lifecycle.go:92-135 | a saved credential is left alone if and only if it is valid and acknowledged or owes no acknowledgement; once it is inactive or its window closed, a new login starts unless it could not be ended or removed; it is removed only when confirmed inactive |
| `Credentials.Client.Authorize` | cmd/acr-mcp/lifecycle.go:142-159 | at most two authorizations, the second only after an invalidated one, and the last one's outcome is the login's |
| `Credentials.Client.Login` | cmd/acr-mcp/lifecycle.go:67-160 | at most two authorizations and 240 polls; with nothing saved it is attempted, a good saved credential is success without an attempt, and a grant that lands is success; every token received accounted for; a credential leaves its place only confirmed inactive, but for the token file's when the keyring held another |
| `Credentials.Client.Refresh` | cmd/acr-mcp/lifecycle.go:472-540 | success if and only if a persistent credential gets a successor that is written and read back; no other location is touched; a successor that could not be stored is taken back and the credential restored, unless that fails, or reported; nothing is purged |
| `Credentials.Client.Logout` | cmd/acr-mcp/lifecycle.go:559-623 | without --local, if anything at all was removed then every local credential had been confirmed inactive; success leaves nothing, and comes whenever there is something, every token is ended and every removal works; with --local no token is ended |
| `Credentials.Client.Purge` | internal/sidecar/credential_purge.go:244-303 | a location is removed only while it holds the token captured there, what can be removed is, and what stays is known to be stuck |
| `Credentials.DistinctTokens` | internal/sidecar/credential_material.go:82-93 | each credential value exactly once |
| `Credentials.Client.Session` | cmd/acr-mcp/lifecycle.go:50-623 | over every run of login, refresh and logout, all that was purged is dead; a credential in the environment or the keyring leaves its place only dead or replaced by its refreshed successor, and so does the token file's when at most one of keyring and token file was in use at the start |
| `Credentials.OverwritingLogin` | cmd/acr-mcp/lifecycle.go:67-344 | for every ended keyring token and live token-file token, a login that succeeds and leaves the live one neither stored, revoked nor reported |
| `DirectCalls.DirectCallOffsets` | ci/checkendpointprofiles/main.go:1324-1347 | the visitor with its stack and counter returns exactly the offsets of calls that have a place in the tree with no function literal above |
| `DirectCalls.OwnIsCallsItself` | ci/checkendpointprofiles/main.go:1320-1347 | the recursive definition of own calls is the one by places in the tree |
| `DirectCalls.CallSites` | ci/checkendpointprofiles/main.go:1153-1189 | exactly the offsets of matching calls of the file, each once, in order |
| `DirectCalls.CheckMintCall` | ci/checkendpointprofiles/main.go:1353-1399 | a mint anchor is accepted if and only if the function itself makes the mint call at exactly one offset |
| `DirectCalls.NestedIsNeverOwn` | ci/checkendpointprofiles/main.go:1353-1399 | although calls can share an offset, a call inside a literal never shares one with a call of the function's own |

## Left out

- HTTP handlers, headers, logging, metrics, SQL, file and temporary-file writes: no hard property of their own.
- JSON, XML and GraphQL lexing, regular expressions other than the coverage record, hashing and schema libraries: the models start from decoded tokens, events, types and syntax nodes. XML names are local names; entity and namespace handling is the decoder's.
- Cobertura parsing and its profile check: mostly field checks.
- `Failures.CrossCheck`: the comparison with the failures of the merged JUnit document is left out; what ties that document to the event streams is another program's output.
- `Failures.RawFailedPairs`: lines of 64 MiB and more, which its scanner refuses, are not modelled.
- `newShardSet` and the listing of shard files in the report merger: argument and file checks.
- `chainWalker` and the row and route parity of the endpoint profiles: heuristics over Go types.
- The frame encoder is an arbitrary function that may fail on any event; no event is claimed to pass the contract and fail to encode.
- Event bodies: correlation-id grammar, UTF-8 and the schemas of result and error bodies are one flag, `conforms`.
- `pump` is modelled by `EventStream.Drive`, which admits every order of the calls a pump, a handler and an abort can make under the lock; channels and timers are not.
- The run store holds one run; keys of other runs, paging and retention are not modelled. The in-memory store is the one modelled; the SQL store is not part of this model.
- `EventStream.InvestigationStream`: the mutable fields are one record value, `f`, beside a ghost trace; the mutex is the atomicity of a call.
- In-place sorts (rows, samples, keys, blocks) are modelled on sequences by `Sorting.Sort`; any sort gives the same result, by `Sorting.SortedIsUnique`.
- Floating point: times in JUnit reports are real numbers behind an abstract reader and printer, assumed to read back what they print; the answer rate is an exact quotient.
- `JUnit.CountAttr` and its siblings: the small attribute scans are recursive functions, not loops.
- `ShardMerge.MergeReports`: timing summaries are not modelled; a counter that no shard carries reads as zero.
- `ShardMerge.CutInvariance`: leaves the timings, the start and the provisioning time out, because they belong to the shards and not to the run.
- `VariableWalk.WalkListsEveryInput`: asks for distinct field and variable names, which schema and document validation ensure before the walk.
- `OperationPolicy.BuildVariables`: paths are sequences of steps, not joined strings; the person test is an arbitrary predicate; bounds of a variable are copied as one value.
- `Credentials.Client.PollGrant`: asks for a positive interval and lifetime, which the device contract pins to 5 seconds of a 600-second grant (a zero lifetime would mean no deadline); a wait that ends after the grant's deadline counts as failed.
- `Credentials.Client`: what each moment brings (answers, failures, tokens that end) is an arbitrary function `fate` of the moment, so every statement is for all of them and can say what follows from which answers; the server is truthful except that it may call a token issued in this command invalid while it is live.
- `Credentials.Client.Refresh`: the rollback and its receipt are one call that confirms the successor inactive or fails; the receipt's contents are not modelled.
- `DirectCalls.NestedIsNeverOwn`: asks that a literal's text holds exactly the calls inside it, which Go positions give.
- Output policies, outputs walking and the artifact loader of the policy generator: they would add more of the same walk.
