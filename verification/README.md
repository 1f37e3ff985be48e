# Verification of the worker's execution plane

A Dafny model of the algorithms in `worker/`, `shared/` and `scripts/` that carry the execution plane's strongest
guarantees, with proofs of those guarantees. `dafny verify dfyconfig.toml` checks everything.

| part | files |
|---|---|
| Redact-once bounded tail, span merging, JSON redaction, the secret registry, the events scan | `Redaction`, `StderrTail`, `StderrTailProofs`, `JsonRedaction`, `EventsScan`, `SecretRegistry`, `EventsSecrecy` |
| Fair shard admission and verdict merging | `ShardAdmission`, `ShardFairness`, `ShardVerdicts` |
| Claim budgets, back-pressure, shedding, over-claim inhibition | `ClaimAdmission`, `ClaimSafety` |
| The ramp with its virtual clock, and the executor's claim pass | `RampUp`, `ExecutorLoop` |
| Process groups under pid and pgid reuse, orphan and zombie reaping | `ProcessTable`, `ProcGroups`, `OrphanReaper`, `ChildRegistry`, `ZombieReaper` |
| Content-addressed cache, bundle trees, eviction, bundle addresses | `BundleAddress`, `CacheMachine`, `CacheSafety`, `CacheRuns`, `CacheHazards`, `BundleTrees`, `MaterialCache`, `CacheEviction` |
| The landing protocol of `.uv-cache` | `PrewarmMachine`, `PrewarmSafety`, `UvCachePrewarm` |
| Crash restarts and their rolling limit, rolling log files | `Supervisor`, `ExecutorLog` |

`Sorting` is Python's `sorted` as a specification; `Basics` holds stock pieces.

Objects the code updates in place are classes with the same fields, and each method is proved against a specification
function or an invariant; the properties are lemmas about those. Where processes interleave, the world is a state machine
of single system calls. The code's own methods then act on a class that holds its state, with a method `Interleave` before
every read or call: its contract, not its body, says what everyone else may do meanwhile, so a caller can rely on nothing
more. Clock readings, failures of system calls, what the Host answers and what commands return are parameters or
nondeterministic choices; an operation's contract says which of them, or which instant of the world, a failure can come from.

## Assumptions

- Processes: a (pid, start time) pair is never reused; a pgid is not reissued while it has members; a process that leaves a
  group does not rejoin it; a zombie only waits to be reaped; a child is adopted only once its parent is gone. The verifying
  scan of `group_identity` and the listing of children are one step each; every other read is its own step.
- Registered children: their owners and the scan are the only ones in the process that wait for them, an owner forgets a child
  after it has waited, and an owner learns the return code at or after the instant at which its wait takes the status.
- Cache: no content hash is an upload id, and no hash or id begins with another id followed by `-v2g`; temporary names are never drawn twice; rename is atomic; SHA-256 is any
  function, and two manifests are told apart where it does not collide on their texts. A call may be killed, or any of its
  system calls fail, at any point.
- Prewarm: one invocation per process and nonces never drawn twice. The base does not change while it is cloned.
- Fairness: the first shard a tick tries is started, leases are distinct, between ticks the snapshot is pruned and appended
  to, and a tick cut short by a thread that cannot be started had skipped a lease that stays in the snapshot.
- Claim loop: the agent and code targets do not change, and hot reloads keep the ramp enabled.
- The Host is any function from rounds to answers, restricted only where a theorem says so: it respects the requested limits,
  it answers one claim per call and grants a pool only while the pool's active count is below the declared capacity, or, for
  the bounds from below, it gives all it is asked for.

## Where the code and its documentation differ

- The lookback margin is documented as the longest literal. One character more is still safe, two are not
  (`NoSecretEscapes`, `LongerLiteralLeaks`).
- `evict_to_capacity` also lists in-flight `.part` directories, and `assemble_bundle_tree` makes missing parents again, so an
  "existing directory is complete" only as long as no eviction picks a live part directory between its first and last link.
  `BundleCompleteUnlessTorn` is that equivalence; `TearingLandsPartialTree` shows the failure from every intermediate point.
- With a repeated path in a manifest, the copy fallback writes through the first link. Bundle creation refuses repeated
  paths; the theorems use exactly that, and `RepeatedPathCorruptsTree` gives a run for every manifest of nonempty
  content-addressed members that breaks it.
- The group check says that a recycled pgid is never signalled. Proof and signal are two steps: a signal hits the proved
  incarnation exactly if the group is never empty in between (`SignalHitsProvedIff`); `LateSignalCanHitRecycledGroup` is a
  history in which it hits another.
- `scan_once` re-reads a zombie right before it waits, but the two are separate steps. A wait takes the judged zombie exactly
  if nobody else reaps it in between (`TakesTheJudgedUnlessReaped`); `LateWaitCanTakeRecycledPid` is a history in which it
  takes another one's status. A registered child its owner has not waited is safe in every history.
- A restart count of 1 is described as "the crashed executor had run stably". It is also 1 for the first crash after the
  counter stood at 0, however short the run (`KeptOnlyOutsideCrashLoop`, `ShortFirstCrashKeepsClaims`).
- A sharded beat in which no shard failed but none answered before the deadline returns empty verdicts, not the documented
  absence of verdicts: `Merge` counts skips and failures only (`OnlyStragglers`).
- Skipped shards are described as a round-robin delay. A thread that cannot be started ends the tick after the anchors were
  consumed. The next tick resumes at a shard skipped before that exactly if one of its leases is still there, and otherwise
  starts from the head (`CursorForgottenIff`). `NoStarvation` needs no more than that; without it, runs whose ticks all start
  their first shard starve every shard from the third on (`FailedStartsStarve`).

## Model

| member | source | states |
|---|---|---|
| Redaction.MergeSpans | shared/redaction.py:89-99 | the result is ascending, strictly separated, and covers exactly the positions the input spans cover |
| Redaction.MergedCoverIsUnique | shared/redaction.py:89-99 | a separated cover is determined by the positions it covers, so merging is idempotent and independent of order, nesting and splitting |
| Redaction.ApplySpans | shared/redaction.py:102-116 | for any offset: each maximal covered run inside the window becomes one marker and every other character is kept, position by position |
| JsonRedaction.SucceedsIff | shared/redaction.py:63-86 | redaction of a JSON value goes through exactly when every string can be redacted and no two keys of one object redact to the same text |
| JsonRedaction.RedactsEveryString | shared/redaction.py:63-86 | the result has the input's nesting, order and non-string leaves, and its strings are the input's strings redacted one by one, keys included |
| JsonRedaction.ShapeAndStringsDetermine | shared/redaction.py:63-86 | a JSON value is determined by its shape and its strings, so the two facts above fix the result |
| JsonRedaction.UnchangedIff | shared/redaction.py:63-86 | the result equals the input exactly when redaction changes none of its strings |
| Utf8.EncodePointIs | shared/stderr_tail.py:85 | each character is encoded in the shortest UTF-8 form that gives it back, a surrogate as a question mark |
| StderrTail.StderrTail.constructor | shared/stderr_tail.py:46-51 | an empty buffer for an empty stream |
| StderrTail.StderrTail.Append | shared/stderr_tail.py:53-57 | the buffer is the last part of the whole stream and never holds more than twice the kept length |
| StderrTail.StderrTail.Trim | shared/stderr_tail.py:59-61 | the buffer becomes exactly the last kept characters of the stream |
| StderrTail.StderrTail.Finish | shared/stderr_tail.py:63-92 | the output is a function of the whole stream alone, however it was chunked; the retained text is its last kept characters |
| StderrTail.EmitWindow | shared/stderr_tail.py:71-92 | redact once, open the window at the start of any run that straddles it, cut |
| StderrTail.Widen | shared/stderr_tail.py:82-84 | the window start moves back to the beginning of the hidden run that reaches it |
| StderrTail.CutTail | shared/stderr_tail.py:86-104 | the bytes returned run to the very end but for one final newline; uncut, from the start; cut, from after the first newline of the last 8 KiB, or else the first space, or else the first tab, or else all of them |
| StderrTail.FinalCutIsSlice | shared/stderr_tail.py:86-104 | the specification of the cut keeps exactly that stretch, at most the tail size |
| StderrTail.CutAtIsUnique | shared/stderr_tail.py:86-104 | there is only one such stretch |
| StderrTailProofs.NoSecretEscapes | shared/pi_events_scan.py:121-137 | for every stream, literals up to one character longer than the margin, and a span function that reports all of them: the output is the cut, up to its end, of the stream's redaction from a window that opens 8 Ki characters before the end, or earlier only at the start of a hidden run, and every position of every occurrence in the WHOLE stream is hidden in it |
| StderrTailProofs.PlainTail | shared/stderr_tail.py:71-92 | without a redactor: the same cut of the encoding of the stream's last 8 Ki characters |
| StderrTailProofs.TailIsSliceOfWholeRedaction | shared/pi_events_scan.py:121-137 | with an exact redactor the encoding of the whole stream redacted in one go ends in the window, and the output is the cut of that end |
| StderrTailProofs.LongerLiteralLeaks | shared/pi_events_scan.py:121-137 | the bound is sharp: for every margin a literal two characters longer than it leaks a character |
| StderrTailProofs.SecretsReachingTheWindow | shared/pi_events_scan.py:130-137 | an occurrence that reaches the emitted window lies whole in the retained text |
| EventsScan.EventsDir.ReadLines | shared/pi_events_scan.py:224-244 | the line loop: kept lines staged, every non-object line verbatim in the tail buffer, the error state folded; it fails exactly when some line raises |
| EventsScan.EventsDir.ScanAndCompress | shared/pi_events_scan.py:220-297 | for every schedule of failures: absent or empty is left alone; success rewrites the file; any whole-scan failure returns nothing and leaves the file truncated, or raw only without a redactor or when truncation failed; a positive original size only when rewritten; when nothing raises, at every kill point the raw file or the persisted tail is there |
| EventsScan.EventsDir.FailWhole | shared/pi_events_scan.py:279-295 | the failure arm: staging cleared and raw text destroyed, each independently of the other |
| EventsScan.EventsDir.Rewrite | shared/pi_events_scan.py:223-278 | persist the tail, then swap the staging file in; two views of the disk in that order |
| EventsScan.OutputIsRedacted | shared/pi_events_scan.py:66-94 | every line of the rewritten file comes from one relevant event line: the line itself if redaction changes nothing, otherwise the redacted event written out |
| EventsScan.OutputIsComplete | shared/pi_events_scan.py:66-94 | and none is lost: the file holds every relevant line that can be redacted and written, and no other, in the order of the lines |
| EventsScan.StrayIsVerbatim | shared/pi_events_scan.py:231-239 | the stray stream is exactly the lines that are no objects, verbatim and in order |
| EventsScan.LastEventDecides | shared/pi_events_scan.py:231-240 | the error state is what the last event line makes of the state before it |
| EventsScan.AttributionIsKept | shared/pi_events_scan.py:248-262 | the attribution is never lost: the error redacted, or the fixed text exactly where redaction fails |
| SecretRegistry.ValueSpans | worker/upload/secret_registry.py:140-158 | the search loop reports every occurrence of every literal, overlaps included, and then what the shape rules report |
| SecretRegistry.AllLiteralSpansCover | worker/upload/secret_registry.py:140-158 | the literal spans cover exactly the positions of all occurrences of all literals |
| SecretRegistry.RedactText | shared/redaction.py:58-62 | a text is redacted at the positions its spans cover, or not at all if the span function raises |
| SecretRegistry.SnapshotProtects | worker/upload/secret_registry.py:161-176 | one read of the registry gives a span function that reports every registered literal, a redactor that replaces what it reports, and a length no literal exceeds |
| SecretRegistry.SnapshotReportsNoMore | worker/upload/secret_registry.py:140-158 | it reports the positions of the literals' occurrences and of the shape rules' matches, and no others |
| EventsSecrecy.OutputHides | shared/pi_events_scan.py:66-94 | every line of the rewritten file is a relevant event with every literal occurrence in each of its strings, keys included, hidden |
| EventsSecrecy.AttributionHides | shared/pi_events_scan.py:248-262 | the attribution is the fixed text or the error with every occurrence hidden |
| EventsSecrecy.TailIsHidden | shared/pi_events_scan.py:121-137 | the tail is empty or a stretch of the stray stream with every occurrence in the whole of it hidden |
| EventsSecrecy.ScanForUpload | worker/upload/prepare.py:137-150 | end to end, whichever operations fail: if the result is built, no raw text is in the run directory, and the file, the attribution, the tail and the sink hide every occurrence of every literal |
| ShardAdmission.ShardThreadLimiter.NoteSkip | worker/relay_thread_limiter.py:54-62 | the skipped shard's leases join the anchors, in order |
| ShardAdmission.ShardThreadLimiter.TakeRotation | worker/relay_thread_limiter.py:64-82 | the rotation starts at the shard of the first anchor still in the snapshot, and the anchors are consumed |
| ShardAdmission.ShardThreadLimiter.Start | worker/relay_thread_limiter.py:84-101 | a slot is taken exactly if one is free and the thread starts; a thread that cannot be started gives it back and raises |
| ShardAdmission.ShardThreadLimiter.constructor | worker/relay_thread_limiter.py:49-52 | all slots free, no anchors |
| ShardAdmission.StartShards | worker/relay_shards.py:141-155 | shards are tried in order up to the first thread that cannot be started; one is skipped only when as many before it were started as slots were free at the start of the tick, and each one started holds a slot |
| ShardAdmission.AdmitShards | worker/relay_shards.py:93-155 | one tick: chunk, rotate, start every shard while a slot is free; the next cursor is the leases skipped until the end, in admission order |
| ShardFairness.ChunksAt | worker/relay_shards.py:93-96 | the i-th shard is the leases from 64 i on, 64 of them or up to the end |
| ShardFairness.EnoughSlotsAdmitAll | worker/relay_shards.py:141-155 | a tick that finds as many free slots as it has shards and can start every thread admits every lease |
| ShardFairness.TickProgress | worker/relay_thread_limiter.py:30-82 | a tick that starts its first shard and does not admit a lease, whether it gets through its shards or is cut short, brings the cursor strictly closer to that lease, up to the leases appended meanwhile, if a lease it noted is still in the snapshot |
| ShardFairness.WholeTickRemembers | worker/relay_shards.py:140-155 | a tick that gets through all its shards has noted every lease it did not admit |
| ShardFairness.CursorForgottenIff | worker/relay_thread_limiter.py:64-82 | however a tick of several shards ends, the next one starts from a lease that it noted exactly if one is still in the snapshot; otherwise from the head |
| ShardFairness.DelayShrinks | worker/relay_thread_limiter.py:30-82 | over any run that keeps its cursor the cyclic distance from cursor to lease falls by one a tick |
| ShardFairness.NoStarvation | worker/relay_shards.py:84-92 | in every run where each tick starts its first shard and, if it is cut short by a thread that cannot be started, some lease it had noted stays in the snapshot: a lease that stays is admitted within as many ticks as the first snapshot has leases plus leases appended, despite re-chunking and held slots |
| ShardFairness.NoStarvationWithoutNewcomers | worker/relay_shards.py:84-92 | without newcomers, within as many ticks as the first snapshot has leases |
| ShardFairness.FailedStartsStarve | worker/relay_thread_limiter.py:64-101 | the kept cursor is needed: for every length there is a run, each of whose ticks starts its first shard, that admits nothing from the third shard on, because every other tick is cut short at its second thread |
| ShardVerdicts.Merge | worker/relay_shards.py:102-186 | degraded if any shard met the old endpoint; otherwise unauthorized if any got a 401; no verdict exactly if skipped plus failed shards make up all of them; otherwise the merged lists of the shards that answered |
| ShardVerdicts.LostIff | worker/relay_shards.py:132-138 | a lease is reported lost exactly if a shard holding it answered in time and named it |
| ShardVerdicts.SettledIff | worker/relay_shards.py:132-138 | an execution is reported settled exactly if a shard holding a lease of it answered in time and named it |
| ShardVerdicts.CancelledIff | worker/relay_shards.py:132-138 | a cancellation is passed on exactly if a shard answered in time with it |
| ShardVerdicts.FailuresAre | worker/relay_shards.py:110-131 | the failures counted are the shards that came back without a verdict |
| ShardVerdicts.OnlyStragglers | worker/relay_shards.py:157-186 | when the shards started are all still out at the deadline, the round reports three empty lists, not the absence of a verdict |
| ShardVerdicts.CompletionOrderIsImmaterial | worker/relay_shards.py:132-138 | the completion order of the shards does not change what is reported |
| ClaimShaping.AvailabilityIs | worker/transfer_controls.py:29-39 | back-pressure in full: all of the base up to half the hard mark, nothing from the hard mark on, in between the base times the distance to the hard mark over the width of the band, rounded down |
| ClaimShaping.AvailabilityIsBounded | worker/transfer_controls.py:29-39 | so never more than the base, nor less than zero |
| ClaimShaping.AvailabilityDecays | worker/transfer_controls.py:29-39 | a deeper upload queue never raises availability |
| ClaimShaping.LoadFactorIs | worker/load_shedding.py:32-40 | no decay up to one process per core, a straight line to a quarter at three, a quarter from there on |
| ClaimShaping.ShedIs | worker/load_shedding.py:43-47 | the least whole number not below the product, and at least one; nothing is left alone |
| ClaimShaping.ShedIsBounded | worker/load_shedding.py:43-47 | so shedding keeps a positive value positive and never raises it |
| ClaimAdmission.ClaimRunContext.ReapCompleted | worker/executor_reap.py:15-20 | finished futures leave both the active set and the kinds, and counts fall accordingly |
| ClaimAdmission.ClaimRunContext.PassBudgets | worker/claim_budget.py:48-69 | the budgets, declarations and released deferrals of a pass are the specification's |
| ClaimAdmission.ClaimRunContext.SubmitClaim | worker/claim_batch.py:131-142 | one claim spends its pool's budget and joins the active set, or raises with nothing else changed |
| ClaimAdmission.ClaimRunContext.SubmitAll | worker/claim_batch.py:198-208 | a batch is submitted in order up to the first spawn failure, which lights the probe; each success puts it out |
| ClaimAdmission.ClaimRunContext.DrainBudget | worker/claim_batch.py:212-259 | the claim loop refines its specification for any Host |
| ClaimAdmission.RequestIsGreatest | worker/claim_batch.py:53-63 | each pool asks for the most it may take within the batch limit, and the batch for the most of both |
| ClaimAdmission.SubmitIs | worker/claim_batch.py:131-209 | the claims before the failed one run, they and the failed one are paid for, and the probe is lit exactly by a failure |
| ClaimAdmission.Progress | worker/claim_batch.py:234-258 | a nonempty round that neither raises nor over-claims shrinks what is left to claim: the loop terminates for every Host |
| ClaimSafety.PassBudgetIs | worker/claim_budget.py:48-69 | a pass in full: each budget is what back-pressure leaves of the pool's room, a deferral is lifted exactly when that is positive, and only a pool still deferred declares less than its target, namely what is active |
| ClaimSafety.RoomIsGranted | worker/claim_budget.py:48-69 | with claiming on and the upload queue at or below the soft mark a pool with room is not held and its budget is exactly its room |
| ClaimSafety.GrantIsShed | worker/load_shedding.py:92-108 | a pass drains each budget shed by the load factor, or as it is when the load is not known |
| ClaimSafety.DeliveredIsRunOrDropped | worker/claim_batch.py:131-209 | conservation: for any Host, every execution delivered in a pass runs or is counted as dropped |
| ClaimSafety.FilledPass | worker/claim_batch.py:212-259 | the other bound: with claiming on, no load, a short upload queue and a Host that gives what it is asked for, one pass fills both pools to their capacity |
| ClaimSafety.RespectfulPass | worker/claim_batch.py:212-258 | against a Host that respects the requested limits a pass drives no budget negative, defers no pool, and leaves each active count at most its count before or its capacity, with load shedding and back-pressure included |
| ClaimSafety.LoadedPass | worker/load_shedding.py:28-47 | the same for the factor of any load average, which lies between 0 and 1 and stalls no pool that had a budget |
| ClaimSafety.ProbingPassDropsOne | worker/claim_batch.py:180-209 | after a lane-spawn failure a pass in which no submit succeeds drops at most one execution and keeps probing |
| ClaimSafety.ContainedPass | worker/claim_budget.py:35-69 | against a Host that ignores limits, a pass keeps agents within effective + 1 and code within its target at every round, and a held pool gains nothing |
| ClaimSafety.HeldPools | worker/claim_budget.py:54-68 | either pool at or past its capacity keeps its deferral, and a deferred pool declares no more than is active |
| ClaimSafety.OverClaimContainment | worker/claim_budget.py:35-69 | over whole runs of passes and completions with non-decreasing effective capacity, agent executions never exceed effective + 1 and code executions never exceed their target |
| RampUp.RampUpState.ReconfigureWith | worker/ramp_up.py:152-170 | a changed configuration restarts or closes the window, the same one changes nothing |
| RampUp.RampUpState.ObserveAt | worker/ramp_up.py:172-216 | the new state and view are the specification's |
| RampUp.OnlyUp | worker/ramp_up.py:152-242 | over any pauses and hot reloads that keep the ramp enabled, the capacities of successive passes never decrease and never exceed the target |
| RampUp.PausesCostNothing | worker/ramp_up.py:172-216 | a run with pauses uses, pass for pass, the capacities of the run with each stretch from the last claiming pass to the first resumed one cut out |
| RampUp.FreshWindow | worker/ramp_up.py:127-216 | both theorems from a fresh window |
| RampUp.TiersAre | worker/ramp_up.py:188-208 | a tier lasts from its number of intervals on to the next, and the time shown is what is left of it |
| RampUp.WindowKeepsSchedule | worker/ramp_up.py:172-216 | over any fresh window, pauses included, each claiming pass works with exactly the initial capacity plus one step for every whole interval of claiming time so far, capped by the target |
| RampUp.PassIsDue | worker/ramp_up.py:172-216 | whatever was reloaded: the capacity of a claiming pass in an open window, from its clock and what was reported before |
| RampUp.PassIsShown | worker/ramp_up.py:201-216 | the window closes exactly when the target is used, and until then the time to the next tier is shown |
| RampUp.ClockIsClaimingTime | worker/ramp_up.py:172-200 | the virtual clock is the sum of the gaps between adjacent claiming passes |
| ExecutorLoop.ClaimPass | worker/executor.py:257-290 | one pass on the ramp and the claim context in place: the ramp's capacity, the pass budget, shedding and the drain refine the loop's step |
| ExecutorLoop.PassGoesUp | worker/ramp_up.py:224-242 | a pass works with the capacity that the ramp has reached after it, never less than before and at most the target |
| ExecutorLoop.LoopIsContained | worker/executor.py:240-290 | the loop as a whole, against a Host that ignores limits: at every round of every pass agents are within the capacity the ramp has reached plus one and code within its target, over any pauses, loads, queue depths and reloads that keep the ramp enabled |
| ExecutorLoop.ColdStartIsContained | worker/executor.py:150-290 | the same from a cold start, with no assumption on capacities |
| ExecutorLoop.PassFillsTheRamp | worker/executor.py:257-290 | the other bound for the loop: against a Host that gives what it is asked for, a claiming pass without load or congestion fills agents up to the ramp's capacity and code up to its target |
| ProcessTable.MembershipIsConvex | worker/proc_groups.py:122-137 | a member seen at two instants was a member at every instant in between |
| ProcessTable.IncarnationIsPinned | worker/proc_groups.py:122-137 | while one member stays, the pgid keeps naming the same incarnation of the group |
| ProcessTable.SameGroupIff | worker/proc_groups.py:122-137 | a pgid that has members at two instants names one incarnation at both exactly if the group was never empty in between |
| ProcessTable.Kernel.ReadStat | worker/procfs.py:57-63 | a read sees the table at some later instant |
| ProcessTable.Kernel.WaitPid | worker/zombie_reaper.py:158-163 | a wait takes the status of a zombie child if that is what has the pid at that instant, and nothing else |
| ProcGroups.MemberIndex.Forget | worker/proc_groups.py:67-69 | one pid leaves both maps |
| ProcGroups.MemberIndex.Refresh | worker/proc_groups.py:53-65 | for every pid that stands still meanwhile the index says exactly what a full scan of the current table says, whatever happens to the others; its two maps agree |
| ProcGroups.MemberIndex.MembersOf | worker/proc_groups.py:71-74 | the members of one group, exact for every pid that stands still |
| ProcGroups.IdentifyGroup | worker/proc_groups.py:93-119 | an identity exactly if a candidate of the group carries the marker; it pins exactly the candidates then in the group, all of one incarnation |
| ProcGroups.StillOwned | worker/proc_groups.py:122-137 | with steps between all reads: owned exactly if a pinned member is in the group now, and then the pgid names the pinned incarnation |
| ProcGroups.RefreshIdentity | worker/proc_groups.py:140-165 | with steps between all reads: every pin of the result belongs to the verified incarnation, and every candidate in the group throughout is pinned |
| ProcGroups.GoneStaysGone | worker/proc_groups.py:122-137 | pinned members found missing never return, so a negative answer stays right |
| OrphanReaper.CollectTargets | worker/orphan_reaper.py:34-54 | exactly the records with a number above 1 that is not our own group become verified targets or are discarded; one is discarded only if at some instant of the pass no process listed for its group was in it with its marker; of a verified group every listed process that stays in it is pinned |
| OrphanReaper.TermGroup | worker/orphan_reaper.py:79-86 | TERM is sent only after a proof that the pgid denotes the verified incarnation; the pins then include everyone in the group since the refresh began; otherwise nothing is sent and nobody first pinned is left |
| OrphanReaper.KillGroup | worker/orphan_reaper.py:96-100 | KILL is sent after such a proof, or nobody pinned is left |
| OrphanReaper.TermGroups | worker/orphan_reaper.py:67-87 | the TERM phase: every signal follows a proof of a verified incarnation, exactly the targets marked as termed get one, and every other one has nobody left |
| OrphanReaper.SignalGroups | worker/orphan_reaper.py:90-100 | the KILL phase: every signal follows such a proof, and no group with a pinned member left is spared |
| OrphanReaper.ReapOrphanedAgents | worker/orphan_reaper.py:30-64 | the whole pass: every signal follows a proof that the pgid denotes the incarnation in which the record's marker was seen, never our own group; exactly the targets marked as termed got one TERM each; for each of them, whoever was in the group when its refresh began in this pass and is still there was in it at a TERM and at a KILL, even if everyone first pinned has gone; of every other target nobody first pinned is left; and no orphan is spared: if some listed process of a record's group held its marker throughout the pass, the record is a termed target and whoever was in the group throughout was in it at a TERM and at a KILL; exactly the records with a signallable number are unlinked |
| OrphanReaper.SignalHitsProvedIff | worker/orphan_reaper.py:79-100 | a signal that finds the group populated hits the proved incarnation exactly if the group was never empty between proof and signal |
| OrphanReaper.LateSignalCanHitRecycledGroup | worker/orphan_reaper.py:79-100 | the gap that is left: a history in which the group empties after the proof and the signal hits a recycled pgid |
| ChildRegistry.ManagedChildren.Spawn | worker/zombie_reaper.py:85-90 | with the lock free: a child is created and registered in one step, and its status is owed from that instant |
| ChildRegistry.ManagedChildren.Forget | worker/zombie_reaper.py:92-100 | only the given waited child leaves the table, and what is owed stays |
| ChildRegistry.ManagedChildren.PidsLocked | worker/zombie_reaper.py:102-106 | the shield is exactly the pids of registered children not known to be waited; the table keeps just those |
| ChildRegistry.ManagedChildren.WaitPid | worker/zombie_reaper.py:158-163 | the scan's wait, at a later instant than its decision: under the lock, for an unshielded pid, the process whose status it takes is at that instant no registered child its owner has not waited |
| ChildRegistry.EventKeepsOwed | worker/zombie_reaper.py:78-106 | through every exit, adoption, owner wait, learned return code, registration and drop, each status still owed to an owner stays waitable, and under the lock no child is registered or dropped |
| ZombieReaper.ZombieReaper.SameZombie | worker/zombie_reaper.py:167-175 | true exactly if the judged zombie child is there at the re-read |
| ZombieReaper.ZombieReaper.ScanOnce | worker/zombie_reaper.py:134-165 | with exits, adoptions, owner waits and, while the lock is free, registered spawns between all reads: every status taken is recorded, and none of them is at that instant that of a registered child its owner has not waited; every wait is decided on a foreign-session zombie child or on one remembered from the previous scan; while this process lives no unshielded zombie child present at the start is left, but for same-session ones first seen by this scan, which it remembers for the next |
| ZombieReaper.ZombieReaper.Run | worker/zombie_reaper.py:134-198 | over any number of scans: every wait is decided on a foreign-session zombie child, or on one that was a zombie child between the start of the scan before and the start of this one; no process whose status is taken is owed to an owner |
| ZombieReaper.SameUnlessReaped | worker/zombie_reaper.py:167-175 | a process found later under a zombie's pid is that zombie exactly if nobody reaped it in between |
| ZombieReaper.TakesTheJudgedUnlessReaped | worker/zombie_reaper.py:156-163 | a wait takes the zombie it was decided on exactly if nobody else reaped that one between re-read and wait |
| ZombieReaper.LateWaitCanTakeRecycledPid | worker/zombie_reaper.py:156-163 | the gap that is left: a history in which the late wait takes the status of a recycled pid |
| ZombieReaper.ZombieStays | worker/zombie_reaper.py:134-165 | while its parent lives a zombie stays as it is until it is reaped and then never returns |
| BundleAddress.TextIdentifiesManifest | shared/material_bundle.py:35-54 | two manifests hash the same text exactly when they hold the same multiset of (address, path) pairs; empty and control-character manifests are refused alike |
| BundleAddress.JoinIsInjective | shared/material_bundle.py:53-54 | joining newline-free lines can be undone |
| BundleAddress.TextLeIff | shared/material_bundle.py:53 | the lines are sorted by the first character in which two differ |
| BundleAddress.LineIsInjective | shared/material_bundle.py:53 | a line determines its entry |
| BundleAddress.ControlCharactersWouldCollide | shared/material_bundle.py:39-44 | without the control-character check two different manifests share one text |
| CacheSafety.StepKeepsInv | shared/material_cache.py:127-165 | every system call of every materializer, assembler and evictor keeps the invariant |
| CacheSafety.SealedStays | shared/material_cache.py:127-162 | a file nobody is writing keeps its bytes and nobody starts to write it |
| CacheSafety.CopyIsFresh | shared/material_bundle.py:100-103 | with distinct paths the copy fallback never writes through an existing link |
| CacheRuns.CachedFilesHash | shared/material_cache.py:113-117 | in every interleaving, killed anywhere: a regular file at a content-hash address has bytes hashing to it |
| CacheRuns.BundleCompleteUnlessTorn | shared/material_bundle.py:15-18 | a directory at a bundle address was built from a manifest with that address, its files hash to their members, and it is complete if and only if no eviction picked its part directory between the first link and the last |
| CacheRuns.BundlesAreComplete | shared/material_bundle.py:78-84 | if no eviction picks a live, part-filled part directory, every directory at a bundle address holds exactly its manifest's members |
| CacheHazards.TearingLandsPartialTree | shared/material_cache.py:224-251 | that assumption is needed at every intermediate point of every assembler whose remaining members are cached: from there, with its part directory evicted, a run lands a partial tree at the final address |
| CacheHazards.EveryBundleCanLandPartial | shared/material_cache.py:224-251 | for every manifest of two or more members that exist there is a run from an empty cache that ends in a partial tree at its address |
| CacheHazards.RepeatedPathCorruptsTree | shared/material_bundle.py:96-103 | distinct paths are needed: for every manifest of nonempty content-addressed members with a repeated path there is a run from an empty cache, with no other such bundle, after which a landed tree holds a file that does not hash to its member, and so does the cached file itself if the two members differ |
| MaterialCache.Cache.Download | shared/material_cache.py:135-147 | the bytes received are the stream's chunks in order, exactly if every one is read and written |
| MaterialCache.Cache.MaterializeStream | shared/material_cache.py:127-165 | on success there is an instant of the call at which the file at its address hashes to it; what this call landed is the stream, of the declared size and hash; a file that is there throughout is a hit; it fails only if an operation does, the stream is not what was declared, or at some instant its part is gone or a directory has its address; no step of the call, its closing eviction pass included, removes that file or a pinned entry; a part file is left only on a failure and only if it cannot be unlinked |
| MaterialCache.Cache.EvictUnpinned | shared/material_cache.py:240-256 | a pass down any queue, with anyone else's steps in between, removes none of the pinned entries, and each other one that can be removed is gone at some instant |
| MaterialCache.OthersKeepCall | shared/material_cache.py:134-165 | no step but its own changes a call's record, except to mark a build torn, makes its part appear, or writes the files of a copy in progress |
| MaterialCache.RemovalIsCounted | shared/material_cache.py:240-256 | whatever takes the entry at an address away counts as a removal |
| MaterialCache.Cache.PlaceMember | shared/material_bundle.py:96-103 | one more member in the part directory, by link, or by copy where linking fails; not so only if the path or the operations are refused, or at some instant the member is not cached or the part directory gone |
| MaterialCache.Cache.AssembleBundleTree | shared/material_bundle.py:70-115 | on success the tree at the manifest's address holds only this manifest's members, each with its own bytes, and all of them unless it was torn, if the texts of the two manifests do not collide and no name looks like another's generation; it fails only if the manifest, a path or an operation is refused, or at some instant a member is not cached, the part directory is gone or torn, or a file has the address; a part directory is left only if it cannot be deleted |
| BundleTrees.TreeServesItsManifest | shared/material_bundle.py:78-84 | in every run: a directory at the address of a manifest holds only that manifest's members with their own bytes, and all of them if and only if it was not torn |
| BundleTrees.AddressTextIsInjective | shared/material_cache.py:76-97 | one text, one member: two generations of one upload never share a text, nor do a generation and none; only a name that starts like another id with a generation can be mistaken for it, or a digest that is an id |
| BundleTrees.GenerationsApart | shared/material_cache.py:82-87 | after a repair the new generation has another text than every generation before, and than none |
| BundleTrees.DecimalIsInjective | shared/material_cache.py:97 | a number is recovered from its digits |
| BundleTrees.AddressedIff | shared/material_bundle.py:35-54 | a manifest has an address exactly if it is not empty and no address or path in it has a control character; it is the hash of a text |
| BundleTrees.UnsafePathIff | shared/material_bundle.py:61-70 | a path is refused exactly if it is empty or absolute, has a backslash or a control character, or has nothing, a dot or two dots between slashes |
| BundleTrees.AddressIdentifiesManifest | shared/material_bundle.py:35-54 | two manifests without a collision have one address exactly if they hold the same lines equally often; no two generations of one upload count as a collision |
| CacheEviction.CacheRoot.Measure | shared/material_cache.py:230-236 | the accounted size of every entry that can be examined |
| CacheEviction.CacheRoot.EvictFrom | shared/material_cache.py:240-256 | removals are tried down the queue only while over budget |
| CacheEviction.CacheRoot.EvictToCapacity | shared/material_cache.py:222-256 | the shortest prefix of the unpinned entries in age order that brings the accounted size within budget, or all of them; pins stay, whatever fails |
| CacheEviction.ShortestOldestPrefix | shared/material_cache.py:240-256 | when no removal fails, an entry is removed exactly if its elders alone leave the cache over budget |
| CacheEviction.EvictionAccountingIsExact | shared/material_cache.py:233-256 | whatever fails, the accounted total is the size sum of the entries not deleted |
| CacheEviction.QueueIsByAge | shared/material_cache.py:228-240 | the queue holds exactly the candidates that can be examined and are not pinned, oldest first |
| CacheEviction.OncePerCandidate | shared/material_cache.py:228-240 | each of them once, and each that can be examined is counted once |
| PrewarmSafety.StepKeepsInv | scripts/uv_cache_prewarm.py:130-192 | every step of every invocation, cp child, kill, sweep and outsider keeps the invariant |
| PrewarmSafety.OthersLeaveStagingAlone | scripts/uv_cache_prewarm.py:118-127 | no step of anyone else, sweeps decided before a pid was reused included, touches a running invocation's staging directory, clone or progress |
| PrewarmSafety.JudgedIsOver | scripts/uv_cache_prewarm.py:118-127 | what a sweep judges stale is no running invocation's |
| PrewarmSafety.CacheIsNeverPartial | scripts/uv_cache_prewarm.py:170-188 | in every run, while a clone is the .uv-cache every file of the base is in it with its content |
| PrewarmSafety.LandingIsComplete | scripts/uv_cache_prewarm.py:175-188 | a landing renames exactly the base over nothing or an empty directory |
| PrewarmSafety.NonemptyCacheIsKept | scripts/uv_cache_prewarm.py:178-186 | a .uv-cache with anything in it is never replaced or changed by an invocation |
| PrewarmSafety.PrewarmedMeansLanded | scripts/uv_cache_prewarm.py:187-188 | "prewarmed" is returned only by an invocation whose complete clone landed at some point of the run |
| PrewarmSafety.ReusedNameLandsPartialClone | scripts/uv_cache_prewarm.py:138-140 | with names drawn from the pid alone a sweep in flight lets a partial clone land: the nonce is needed |
| UvCachePrewarm.Worktree.SweepLeftovers | scripts/uv_cache_prewarm.py:118-127 | every leftover that is there when they are listed and can be removed is, at some later instant of the sweep, gone or a living other process's |
| UvCachePrewarm.Worktree.RunCopy | scripts/uv_cache_prewarm.py:173-177 | cp ends with a complete clone exactly if it comes through |
| UvCachePrewarm.Worktree.RenameIntoPlace | scripts/uv_cache_prewarm.py:175-188 | over a free place the rename lands if it comes through; "skipped-concurrent" and "failed-landing" only if at some instant a nonempty directory, or no directory, was there, or the rename failed |
| UvCachePrewarm.Worktree.CloneAndLand | scripts/uv_cache_prewarm.py:148-188 | each status has its reason: "prewarmed" only if at some instant its own clone was renamed into place and the .uv-cache was the whole base, any other only if something was in the way or failed |
| UvCachePrewarm.Worktree.Prewarm | scripts/uv_cache_prewarm.py:130-192 | one invocation with anyone else's steps in between: "prewarmed" means that at some instant of it its own complete clone became the .uv-cache, and every other status has its reason, so a free place is landed on; its staging directory is gone whatever the status, if it can be removed |
| Supervisor.KeepSpaces | worker/restart_policy.py:40-64 | one more kept resume, decided from the last eight stamps and stamped later, leaves every two stamps three apart at least a window apart |
| Supervisor.AtMostThreePerWindow | worker/restart_policy.py:32-37 | at most three kept resumes fall within any rolling window |
| Supervisor.LastOfMore | worker/supervisor.py:106-107 | trimming after each stamp retains what trimming the whole history would |
| Supervisor.RecentAre | worker/restart_policy.py:55-56 | as many stamps are counted as are less than an hour old |
| Supervisor.DelayDoubles | worker/restart_policy.py:21-24 | the first delay is the initial one, and each further crash doubles it up to the cap |
| Supervisor.KeptOnlyOutsideCrashLoop | worker/restart_policy.py:40-64 | claims are kept exactly if they were on, the run was stable or the counter stood at zero, and fewer than three kept resumes are less than an hour old |
| Supervisor.WorkerSupervisor.StartProcess | worker/supervisor.py:93-137 | at most one executor runs, the generation grows exactly on a spawn, and the switch survives only a crash restart whose verdict keeps it |
| Supervisor.WorkerSupervisor.DecideClaims | worker/supervisor.py:100-109 | the kept stamps stay spaced |
| Supervisor.WorkerSupervisor.Start | worker/supervisor.py:83-91 | a start spawns at most one executor, turns claims off unless one runs, and keeps the crash counter and the kept resumes |
| Supervisor.WorkerSupervisor.Stop | worker/supervisor.py:139-167 | the shutdown flag is set, and the executor is gone if it dies within the waits |
| Supervisor.WorkerSupervisor.Restart | worker/supervisor.py:180-191 | a restart replaces an executor that dies in time, clears the crash counter and turns claims off |
| Supervisor.WorkerSupervisor.Collect | worker/supervisor.py:209-225 | only the collector of the current generation reacts; refusal stops, anything else backs off |
| Supervisor.WorkerSupervisor.RestartAfterBackoff | worker/supervisor.py:228-232 | an executor is spawned exactly if no stop came, none was spawned since and none runs; the switch and the stamps are left alone when nothing is tried, and otherwise follow the verdict |
| Supervisor.ShortFirstCrashKeepsClaims | worker/supervisor.py:209-232 | a first executor that crashes at once is restarted with claims kept |
| ExecutorLog.ExecutorLogSink.Rotate | worker/executor_log.py:104-119 | the files are the old ones one number up and an empty current file; a failing rename stops it with a suffix of the text still there |
| ExecutorLog.ExecutorLogSink.Write | worker/executor_log.py:82-102 | the files always hold a suffix of everything written, in at most the last backup's number, none above the limit; a line that fits is appended to the current file and changes no other; the sink mutes and reports exactly when a rotation is due and one of its renames fails; closed drops |
| ExecutorLog.FullFileIsRotated | worker/executor_log.py:96-119 | a line that does not fit starts a new file, and every older one moves up by one |
| ExecutorLog.ExecutorLogSink.Close | worker/executor_log.py:121-126 | a closed sink changes no file |
| ExecutorLog.ExecutorLogSink.Resume | worker/executor_log.py:128-130 | a resumed sink writes again |
| ExecutorLog.ShiftKeepsSuffix | worker/executor_log.py:112-118 | one rename loses nothing, or exactly the oldest file, whatever gaps the numbering has |
| ExecutorLog.RotatedByNumber | worker/executor_log.py:104-119 | number by number, where each file of a rotation comes from |
| ExecutorLog.RotationDropsOnlyTheOldest | worker/executor_log.py:104-111 | a rotation loses the last backup, and that only when the one before it takes its place |
| ExecutorLog.AtMostBackupsPlusOne | worker/executor_log.py:107-111 | at most backups + 1 files |

## Left out

- Host logic: claims, leases and sweeps are an environment, and only the stated assumptions about it are used.
- Sockets, HTTP clients, subprocess and thread creation, S3 and Postgres: only their outcomes appear, as choices.
- JSON parsing and printing, SHA-256, and the shape rules of the secret registry are arbitrary functions with the facts needed;
  which environment values become literals, and their line-ending and byte variants, are a list.
- Floating point: load factors and clocks are reals, and mtimes are integers; no rounding is modelled.
- `pgid_members` where /proc is absent, and the `ps` fallback of the group check.
- `collect_group` and the background thread of the zombie reaper: the scan alone is modelled, under the lock that both hold.
- Nested directories: a bundle tree is a map from relative paths to files, so clashes between a file and a directory of the
  same name, which the code meets with an error, can only show as an operation that fails.
- The refusal of an empty cache address: it is a call that fails.
- Sampling and caching of the load average: a pass gets a load factor, or none.
- Shard directories of the cache and their removal when empty; an error there is a failed step of a call.
- The order of paths of equal age and size in an eviction is any total order.
- Symbolic links in the prewarm: a staging leftover or a final entry that is no directory is one kind of entry, and an
  unresolvable base counts as no base. SIGTERM is the step that stops the clone and leaves through the clean-up.
- The base changing while it is cloned: documented by the script as accepted.
- The supervisor's log lines, status files, token lookup and backoff sleeping.
- Partial writes of a log line: a write either succeeds or the sink mutes at a failing rename.
- The split of structured events into their own log file, and the choice of log paths.
- Configuration loading and validation, the panel text of the ramp, and everything in the user interface.
- ExecutorLog.ExecutorLogSink.Write: assumes at least one backup, as every sink in the repository has; with none, a rotation
  would still leave a first backup.
- The executor's loop with a changing target: a lowered target leaves running executions above it until they finish.
- MaterialCache.Cache.EvictUnpinned: which entries a pass picks is `EvictToCapacity`'s contract; here the queue is any.
