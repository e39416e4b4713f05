# AutoMind: verified model of the backend's stateful cores

AutoMind's Python backend keeps a digital twin of each vehicle under optimistic locking, lets an agent act on it
behind a deterministic safety gate, throttles access to AI providers, and answers questions from an ingested
handbook. This project models those cores in Dafny and proves what they guarantee over every input, every run and
every interleaving. `dafny verify dfyconfig.toml` checks all of it.

## What is modelled

**Vehicle store, safety gate and agent.** `VehicleProperties`, `SafetyPolicy` and `ToolRegistry` are the pure
parts. `VehicleHal` has the stored row as its committed history with the audit table beside it; a write is a
transaction in two atomic parts, a read that may return any committed row and a compare-and-set that may be lost
before or after it takes effect. The atomic in-memory adapter is the reference. `AgentSystem` is the step system:
any interleaving of manual writers, which may change the gear and never pass the gate, and agent runs, which load a
snapshot, plan, pass the registry and the gate, and then execute call by call. `AgentGuarantees` has what holds in
every run, `AgentPlans` which field of which row each plan sets, `AgentConflicts` when a run loses to other writers and whether it can still commit, `AgentLostReplies` which
commits a run is not told of, `AgentEndings` how a run just past the gate can end, `AgentReplies` what the reply claims
against what the audit table holds. `VehicleSystem` has the loops as the program runs them (the adapter's transaction, `execute_tools`, the
theme apply) over a store that other clients change at every wait. What the outside does around a write is its
`Turn`, a parameter: the steps of others, the row read, the fault. Each method returns, as a ghost, the run of the step
system it took part in, so the guarantees apply to it, and its contract says which run that is.

**Admission and throttling.** `AiAdmission` is the lease protocol over a Redis sorted set with its process-local
fallback and kill switch, for any number of processes, with a Redis call failing before or after it takes effect.
`RateLimit` is the fixed-window limiter with its capped table, the Redis script, and the switch between the two.
`Resilience` is the circuit breaker whose guarded calls run outside its lock.

**Handbook.** `TextTools`, `MarkdownParser` and `Chunking` take a document's lines to overlapping chunks;
`Reranker`, `QueryRewriter` and `KnowledgeQuery` are the retrieval loop; `KnowledgeStore` is the idempotent,
versioned document store, and `Ingestion` the way into it: reading, chunking, batched embedding, checksum.

## What the proofs turned up

- A run that lost a race has lost for good: some continuation commits another of its calls if and only if no other
  writer has committed since its own row (`CanStillCommitIff`). A run owns one version more than it was told of if and
  only if in some step its commit took effect and the reply was lost (`LostCommitIff`), and that can happen at any
  approved call while its row is the latest (`ReplyCanBeLost`).
- The reply "this operation was not executed" is given whenever one command was blocked, even when others of the run
  committed. Just past the gate, it can turn out false if and only if some command was approved, some was rejected, and
  the snapshot is still the latest row (`BlockedReplyCanBeFalseIff`, with a run in `ABlockedRunMayHaveCommitted`).
- "Could not be completed" can turn out false if and only if there are commands, all were approved, and the snapshot is
  still the latest row (`RetryReplyCanBeFalseIff`): the last reply is lost, as in `ARetriedRunMayBeComplete`.
- `set_enabled(False)` answers "disabled" even when its Redis write is lost, and under fallback another process may
  not see a disable that was stored. `DisableHoldsIff` says exactly when the answer holds, for reads that reach Redis
  and reads that do not; `LostDisableIsUndone` and `UnreachedDisableIsUnseen` are instances where it does not.
- The limiter lets through up to 2 * limit - 1 calls in 60 seconds, and some run reaches that for every limit. When
  calls switch between Redis and memory the two count separately: at most twice that (`SwitchingAtMostDoubles`), which
  is reached too.
- A half-open breaker lets every call through, not one probe (`AdmittedIff`).
- Every chunk ends later than the one before it if and only if the overlap is at most half the window size
  (`WindowsProgressIff`); above that a text of letters with one full stop gives two chunks with the same end.
- The checksum covers bytes and pipeline but not the kind of document. The same bytes ingested first as Markdown and
  then as PDF keep the first rows under the second's chunk count (`TwoKindsDisagree`); the two agree if and only if
  both readings make equally many chunks (`TwoReadingsAgreeIff`), which for a small ASCII PDF means a single page
  (`ASmallPdf`). Count and rows agree throughout a run if and only if no kept ingest came with another number of
  chunks (`CountAlwaysAgreesIff`), and a key always ingested as one kind with one batch size is safe
  (`OneKindAlwaysAgrees`).
- A theme apply is not atomic: its second write commits if and only if no other writer has since the first
  (`SecondZoneCommitsIff`), and a light switched in between leaves half a theme (`ThemeStopsHalfway`).
- The rows recorded as selected are the cited hits exactly when no lower-ranked row repeats a cited chunk
  (`SelectedAreCitedIff`).

## Assumptions

- Vehicle rows are created at version 0 with values in range, different clients use different request ids, and
  nothing writes `speed_kph` after creation: no code of the repository does.
- Where `SessionReads` is asked for, a run's reads return its own row or a newer one. A request has one session
  (`apps/api/api/dependencies.py:62-71`); after a commit it holds the row that commit returned
  (`apps/api/infrastructure/vehicle_hal.py:108-127`), after a failure the transaction block rolls back. The
  execution loop in `VehicleSystem` reads so. Without that assumption `ALostRaceIsFinal` and `LostRacesLeaveAPrefix` still
  hold; `AStaleReadIsNotFinal` shows what the assumption excludes.
- Clocks do not run backwards. A process reads the clock before it sends the acquire script, which may run later.
- Lease tokens are fresh. The hash is injective. A provider that embeds each text on its own is assumed only where
  `BatchingIsInvisible` says so.

## Model

| member | source | states |
|---|---|---|
| VehicleProperties.LensLaws | apps/api/domain/vehicle/properties.py:118-177 | reading back what was applied gives it, no other stored cell moves, a second apply overrides the first, and applying the old value restores the row |
| VehicleProperties.ReadsItsField | apps/api/domain/vehicle/properties.py:118-141 | each property is read from its own column, the zoned ones from the side of their zone, and refused without one |
| VehicleProperties.NormalizedIsWritable | apps/api/domain/vehicle/properties.py:41-115 | a normalized value is in its property's range, normalizing it again changes nothing, and writing it to a valid row succeeds and keeps the row valid |
| VehicleProperties.NormalizesIff | apps/api/domain/vehicle/properties.py:69-115 | exactly which zones and values each property accepts, as what value they are stored, and which of the three errors anything else gives |
| SafetyPolicy.ApprovalTransfers | apps/api/domain/safety/policy.py:30-83 | what the gate approved on one row is safe on every row with the same gear and speed |
| SafetyPolicy.GateDecides | apps/api/domain/safety/policy.py:30-83 | for every command, row and observed speed: approved if and only if a door OPEN finds gear P, a stored speed at most 0 and no observed speed above 0, CHARGING finds gear P, and a gear command a stored speed at most 0; and the code of each refusal |
| ToolRegistry.AcceptedMeansWritten | apps/api/tools/registry.py:35-106 | every command the registry accepts passes normalization with its zone and value unchanged, and none addresses the gear or a read-only property: what the gate judged is what is written |
| ToolRegistry.AcceptedIff | apps/api/tools/registry.py:35-47 | exactly which planned calls are accepted, under which tool name, and the two errors |
| AgentPlans.PlanLands | apps/api/tools/registry.py:81-106 | an accepted plan, written to any valid row, leaves that row with the one field the plan names (the driver's window for the driver's zone, and so on for each tool and zone) set to its value, the next version, and nothing else changed |
| AgentPlans.CommandsAreTheAcceptedPlans | apps/api/agents/graph.py:110-125 | each accepted plan becomes the command at its place among the accepted ones, and there are no others |
| AgentPlans.PlansReachTheirRows | apps/api/agents/graph.py:146-211 | in every run, when a plan's call is reported done, the row at the reported version is the row before it with the plan's field set and nothing else changed |
| AgentPlans.GatedPlansReachTheirRows | apps/api/agents/graph.py:110-211 | the same from the gate on: plan i of those handed to the gate, through registry, gate and execution, to its row |
| AgentSystem.ExecutorRefusesIff | apps/api/tools/registry.py:60-71 | the executor refuses a call as not permitted if and only if the engine did not approve it or did not issue its permit |
| VehicleHal.InMemoryVehicleHal.SetProperty | tests/fakes.py:54-79 | the atomic reference: the write takes effect on the expected version or changes nothing, and logs one request id per success |
| VehicleHal.ReferenceAnswers | tests/fakes.py:54-79 | the reference by its answers: another vehicle, another version, a refused value, or a row with the one cell written at the next version, reported with its old and new value |
| VehicleHal.BeginRefines | apps/api/infrastructure/vehicle_hal.py:78-89 | for a normalized write, the read half opens a transaction on a committed row, or fails with the version conflict the reference would raise on that row |
| VehicleHal.CommitRefines | apps/api/infrastructure/vehicle_hal.py:91-134 | a commit is the reference applied to the latest row: it takes effect only if the reference accepts, leaves the reference's row and one audit row of that write, answers as the reference unless the reply is lost, and touches no other vehicle |
| VehicleHal.HistoryIsSerial | apps/api/infrastructure/vehicle_hal.py:78-125 | the committed rows are the states of the reference run serially on the audited writes in state_version order |
| VehicleHal.AuditReplays | apps/api/infrastructure/vehicle_hal.py:87-125 | new values replayed forward from the created row give the current row; old values undone backward from it give the created row |
| VehicleHal.AuditVersionsAreDense | apps/api/infrastructure/vehicle_hal.py:115-125 | audit rows carry state_version 1 up to the row's version, each once, in order |
| VehicleHal.NoWriteIsLost | apps/api/infrastructure/vehicle_hal.py:91-107 | although each update rewrites every mutable column, every property reads as the last audited write to it, or as created |
| AgentSystem.StepKeepsInv | apps/api/agents/graph.py:60-218 | every atomic step of every client (load, gate, begin, commit, with any fault or stale read) keeps the system's invariant |
| AgentSystem.RunKeepsInv | apps/api/agents/graph.py:60-218 | so does every interleaving of any length |
| AgentGuarantees.InterleavingsAreSerial | apps/api/infrastructure/vehicle_hal.py:68-134 | linearizability: whatever the interleaving, each vehicle's row is what the reference leaves when it runs the audited writes one after the other, and each property holds its last audited value |
| AgentGuarantees.AuditIsReversible | apps/api/infrastructure/vehicle_hal.py:87-125 | in every run the audit table replays forward to the current row and backward to the created row |
| AgentGuarantees.AgentWritesLandSafely | apps/api/agents/graph.py:127-211 | whatever writers did since the snapshot, an agent's door OPEN lands on a standing vehicle in P and belongs to a run whose observed speed, if any, was not above 0; its CHARGING lands on a vehicle in P, and it never writes the gear |
| AgentGuarantees.AcknowledgedCommitsAreAdjacent | apps/api/agents/graph.py:146-211 | no other writer's commit lies between two acknowledged commits of a run, and each audit row is that call's write |
| AgentConflicts.AConflictIsFinal | apps/api/agents/graph.py:175-192 | one version conflict makes every later call of the run fail, when the run's reads are its session's |
| AgentConflicts.ALostRaceIsFinal | apps/api/agents/graph.py:175-192 | whatever rows reads return: once a call loses to a newer row, no later call of that run commits |
| AgentConflicts.SessionConflictsAreLost | apps/api/infrastructure/vehicle_hal.py:79-113 | with its session's reads, each version conflict of a run is against a newer row than its own |
| AgentConflicts.CommitsAreAnApprovedPrefix | apps/api/agents/graph.py:150-211 | with its session's reads, when its failures are version conflicts, the run's commits are a prefix of its approved calls |
| AgentConflicts.LostRacesLeaveAPrefix | apps/api/agents/graph.py:150-211 | the same whatever rows reads return, when each failure lost to a newer row |
| AgentConflicts.NextCallCommitsIff | apps/api/agents/graph.py:174-188 | an approved call that reads the run's own row undisturbed commits if and only if no other writer has committed since that row |
| AgentConflicts.CanStillCommitIff | apps/api/agents/graph.py:146-211 | for a run with an approved call ahead, some continuation of any steps of any clients commits another of its calls if and only if its row is still the latest |
| AgentGuarantees.OwnCommits | apps/api/agents/graph.py:174-192 | a run's commits are exactly the versions after its snapshot that it was told of, and at most one more, which a call was told had failed in storage |
| AgentGuarantees.OutcomesAlign | apps/api/agents/graph.py:148-211 | outcome i is about command i, and is a block exactly when the rules refuse command i on the snapshot and observed speed, with that refusal's code, although the command is looked up by the number of outcomes |
| AgentGuarantees.RowsStayInRange | apps/api/domain/vehicle/service.py:41-59 | every row any run commits keeps all properties in range and the speed it was created with |
| AgentReplies.CompletionIsTrue | apps/api/agents/graph.py:220-242 | a reply that n settings were completed is true: all n commands of the run are in the audit table, in order, at the versions right after the snapshot |
| AgentReplies.ReplyIs | apps/api/agents/graph.py:220-243 | the reply from the outcomes: the first blocked call's code; else a request to retry if any failed; else charge and range, the warmed side by the hint, the number of calls, or without a call the planner's words or the default text |
| AgentLostReplies.OwnRowsAreCounted | apps/api/agents/graph.py:174-211 | a run's rows in the audit table number its acknowledged commits, plus one exactly when a storage failure hides a commit, all of its own vehicle |
| AgentLostReplies.LostCommitIff | apps/api/agents/graph.py:175-192 | such a hidden commit exists if and only if in some step a commit of the run took effect whose reply was lost |
| AgentLostReplies.ReplyCanBeLost | apps/api/infrastructure/vehicle_hal.py:46-66 | it can happen at every approved call of a run whose row is the latest: the call is recorded as a storage failure, its row is in the audit table |
| AgentEndings.NoRowsBehind | apps/api/agents/graph.py:174-192 | a run that is behind before its first call never gets a row into the audit table, whatever follows |
| AgentEndings.CommitOneAndEnd | apps/api/agents/graph.py:146-218 | a run in front with an approved call ahead has an ending with a row in the audit table |
| AgentEndings.CommitAllUnheard | apps/api/agents/graph.py:146-218 | a run in front with all calls approved has an ending in which all commit and the last is recorded as failed |
| AgentReplies.BlockedReplyCanBeFalseIff | apps/api/agents/graph.py:127-228 | just past the gate, some continuation ends with the reply that the operation was not executed and a command of the run in the audit table, if and only if some command was approved, some rejected, and the snapshot is still the latest row |
| AgentReplies.ABlockedRunMayHaveCommitted | apps/api/agents/graph.py:227-228 | an instance for every vehicle that is not in P: a light is switched, a door refused, and the reply says not executed |
| AgentReplies.RetryReplyCanBeFalseIff | apps/api/agents/graph.py:127-230 | just past the gate, some continuation ends with the reply that the operation could not be completed and every command in the audit table, if and only if there are commands, all were approved, and the snapshot is still the latest row |
| AgentReplies.RetryReplyIsTrueIff | apps/api/agents/graph.py:229-230 | in terms of the run's steps: that reply is true unless all calls but one succeeded and some commit took effect whose reply was lost |
| AgentReplies.ARetriedRunMayBeComplete | apps/api/agents/graph.py:229-230 | an instance for every vehicle: a light is switched, the reply to its commit is lost, and the answer is that it could not be completed |
| VehicleSystem.System.UpdateAndAudit | apps/api/infrastructure/vehicle_hal.py:91-134 | computes its commit half: store and reply after compare-and-set and audit append, for every fault |
| VehicleSystem.System.SetProperty | apps/api/infrastructure/vehicle_hal.py:46-134 | the whole transaction in its turn, with other clients before it and between its halves: it opens on the row the turn reads or fails as its read half does, and then answers and stores as its commit half does under the turn's fault |
| VehicleSystem.System.Execute | apps/api/tools/registry.py:60-78 | one approved call is exactly the turn's steps of the step system; it adds one outcome to the run and moves its current row only on success |
| VehicleSystem.System.ExecuteTools | apps/api/agents/graph.py:146-218 | the execution loop, one turn an action, is exactly those turns' steps, with its session's reads, and yields one outcome per action, so every guarantee above holds of it |
| VehicleSystem.System.WriteThroughService | apps/api/domain/vehicle/service.py:41-59 | a manual write fails with exactly the reason its turn gives (invalid value, storage, unknown vehicle, another row read, another row stored since, a lost reply) and otherwise is one commit of the normalized value right on the expected version, returned with the value before |
| VehicleSystem.System.ApplyZone | apps/api/aigc/service.py:287-326 | one zone of a theme: a temperature outside 16 to 30 is refused before anything is written; otherwise it is the service write of that temperature in its turn |
| VehicleSystem.System.ApplyTheme | apps/api/aigc/service.py:285-345 | its result and steps for every two turns; success is exactly two adjacent commits, ends at expected_version + 2 and leaves both temperatures set and nothing else changed; a failure of the second leaves the first in place |
| VehicleSystem.WriteNowCommitsIff | apps/api/infrastructure/vehicle_hal.py:78-134 | a service write on the row it expects, undisturbed, is one commit if and only if that row is the latest, and otherwise stores nothing |
| VehicleSystem.SecondZoneCommitsIff | apps/api/aigc/service.py:319-326 | after a theme's first commit its second write commits if and only if no other writer has since; otherwise the first stays alone |
| VehicleSystem.ThemeStopsHalfway | apps/api/aigc/service.py:287-326 | a run on any vehicle: a light switched between the two writes leaves the driver's temperature set, the passenger's not |
| AiAdmission.AiAdmissionController.AcquireLease | apps/api/core/ai_admission.py:89-118 | lease or refusal, the stored token and the local tokens, for each Redis fault and both fallback policies |
| AiAdmission.AcquireAnswers | apps/api/core/ai_admission.py:89-118 | in every run: the lease or error of an acquire and what it stores, by path; on the local path it is granted if and only if the process holds fewer than limit memory leases |
| AiAdmission.AcquireStores | apps/api/core/ai_admission.py:22-32 | what an acquire leaves in Redis, with its reply or without: the tokens that still count, none that had expired by its time, and at most its own |
| AiAdmission.AiAdmissionController.ReleaseLease | apps/api/core/ai_admission.py:120-128 | what a release frees, in Redis or locally, for each fault |
| AiAdmission.ReleaseFreesOne | apps/api/core/ai_admission.py:120-128 | in every reachable state: of the stored tokens that count a release takes out its own and no other, unless its call did not run, and a process's local tokens lose a released token |
| AiAdmission.ReleasedIsGone | apps/api/core/ai_admission.py:120-128 | a released Redis lease whose call ran is never stored, granted or counted again, whatever follows |
| AiAdmission.AiAdmissionController.ReadEnabled | apps/api/core/ai_admission.py:64-75 | the answer and the remembered flag, for each fault and policy |
| AiAdmission.AiAdmissionController.WriteEnabled | apps/api/core/ai_admission.py:77-87 | the stored key, the flag and the answer, for each fault and policy |
| AiAdmission.FailClosedNeverExceedsLimit | apps/api/core/ai_admission.py:89-128 | fail closed with Redis: over all processes, ticks and Redis errors, the leases neither released nor expired number at most the limit |
| AiAdmission.LiveLeasesStayStored | apps/api/core/ai_admission.py:22-32 | neither the purge by score nor the key's expiry ever drops a lease that is neither released nor expired |
| AiAdmission.FallbackIsBounded | apps/api/core/ai_admission.py:107-128 | N processes hold at most (N + 1) * limit unexpired leases, and a process's local tokens are exactly its unreleased memory leases, so each release frees its slot |
| AiAdmission.GrantedIffRoom | apps/api/core/ai_admission.py:22-32 | an acquire at time t is granted if and only if fewer than limit stored tokens expire after t; a delayed script errs only towards refusing |
| AiAdmission.GrantedIffFewerHeld | apps/api/core/ai_admission.py:22-32 | in every run without a lost reply or lost release, the stored tokens that count are exactly the Redis leases held, so an acquire is granted if and only if fewer than limit are held |
| AiAdmission.TokensDoNotLinger | apps/api/core/ai_admission.py:120-128 | a token, leaked or not, keeps its expiry and delays nobody for longer than one lease from any moment it is stored |
| AiAdmission.KeyExpires | apps/api/core/ai_admission.py:22-32 | the sorted set's key never outlives the moment by more than one lease, or one second if that is longer |
| AiAdmission.StoredDisableHolds | apps/api/core/ai_admission.py:64-87 | fail closed: once a disable is stored every process answers disabled, through any Redis failures and stale flags, until some process stores an enable |
| AiAdmission.SwitchHoldsIff | apps/api/core/ai_admission.py:64-87 | for an enable as for a disable: what set_enabled answers, and what each later read answers, in terms of the stored key, the policy, and the reader's last read |
| AiAdmission.SwitchIsLocalWithoutRedis | apps/api/core/ai_admission.py:64-87 | without Redis a process answers what it was last told, for either value |
| AiAdmission.DisableHoldsIff | apps/api/core/ai_admission.py:64-87 | set_enabled(False) always answers disabled; exactly when later reads agree, both those that reach Redis and those that do not, in terms of the stored key, the policy, and the reader's last read |
| AiAdmission.UnreachedDisableIsUnseen | apps/api/core/ai_admission.py:64-75 | an instance: under fallback, a process that is switched on and does not reach Redis answers enabled although a disable is stored |
| AiAdmission.LostDisableIsUndone | apps/api/core/ai_admission.py:64-87 | an instance: with an enable stored, a lost disable is undone by the same process's next read |
| RateLimit.RedisRateLimiter.AllowInMemory | apps/api/core/rate_limit.py:81-95 | the new table and the decision of one call, pruning, overflow and window rollover included |
| RateLimit.RedirectedIff | apps/api/core/rate_limit.py:84-89 | a call counts in the overflow bucket if and only if its key has no bucket and 10,000 windows are open; pruning drops no open window and happens only then |
| RateLimit.FewKeysCountApart | apps/api/core/rate_limit.py:84-89 | in every run with at most 10,000 keys each call counts in its own bucket |
| RateLimit.EachCallIsToldByHistory | apps/api/core/rate_limit.py:90-103 | each decision from the calls so far alone: the calls on its key since the window it falls into was opened count against the limit, the remaining number is what they leave, the wait is the rest of that minute but a second at least |
| RateLimit.RoundIsNearest | apps/api/core/rate_limit.py:95 | the rounded wait is the nearest whole number of seconds, the even one of two |
| RateLimit.BoundedEqualsUnbounded | apps/api/core/rate_limit.py:84-94 | over every run, the pruned and capped limiter decides exactly as an unbounded, never pruned one given the same calls with redirected keys replaced |
| RateLimit.TableIsBounded | apps/api/core/rate_limit.py:84-94 | the table never exceeds 10,001 entries, of which at most 10,000 are not the overflow entry |
| RateLimit.AtMostTwiceTheLimit | apps/api/core/rate_limit.py:81-103 | any half-open 60-second interval allows at most 2 * limit - 1 calls on a bucket, in every run |
| RateLimit.TheBoundIsReached | apps/api/core/rate_limit.py:81-103 | for every limit some run allows exactly 2 * limit - 1 |
| RateLimit.RedisAdmitsTheSame | apps/api/core/rate_limit.py:18-23 | the Redis script admits exactly the calls the unbounded table admits, so the same bound holds |
| RateLimit.RedisRateLimiter.AllowCall | apps/api/core/rate_limit.py:49-63 | one call with Redis answering, failing before the script, failing after it, or absent |
| RateLimit.CallCountsWhereItArrives | apps/api/core/rate_limit.py:18-63 | a call that reaches Redis raises its key's count by one, opening a minute when none is running, and touches no other key; that count decides if the reply arrives, and otherwise the process's own table does |
| RateLimit.SwitchingAtMostDoubles | apps/api/core/rate_limit.py:49-63 | however calls switch between Redis and memory, with replies lost, any 60-second interval allows at most 2 * (2 * limit - 1) calls on the buckets of one name |
| RateLimit.TwiceTheBoundIsReached | apps/api/core/rate_limit.py:49-63 | for every limit some run of switching calls allows exactly that many |
| Resilience.CircuitBreaker.Gate | apps/api/core/resilience.py:28-30 | a call is admitted if and only if the breaker is not open at that moment |
| Resilience.CircuitBreaker.Complete | apps/api/core/resilience.py:31-42 | how success, failure and cancellation change the breaker |
| Resilience.StateFollowsLog | apps/api/core/resilience.py:27-42 | over interleaved calls, the failure count is the trailing run of failures in the completion log, and the breaker is tripped exactly while that run reaches the threshold, since its last failure |
| Resilience.StateIs | apps/api/core/resilience.py:21-25 | closed, half open or open, from the log and the time alone |
| Resilience.AdmittedIff | apps/api/core/resilience.py:22-30 | a call may start if and only if the log is not tripped or the recovery time has passed since the last failure |
| Resilience.NoEarlyCall | apps/api/core/resilience.py:27-42 | no call begins within the recovery time of a tripping failure unless a call in flight succeeded in between |
| TextTools.NormalizeKeeps | apps/api/rag/chunking.py:54 | normalizing keeps the words, every character that is not whitespace, in order, and whether there is whitespace between two of them; what whitespace it leaves is single spaces, none at the ends |
| MarkdownParser.ParseMarkdown | apps/api/rag/chunking.py:18-44 | the buffering parser yields one block per maximal run of text lines that is not blank, with the heading and page in force |
| MarkdownParser.HeadingIff | apps/api/rag/chunking.py:8-39 | the headings are exactly the lines of one to six #, whitespace and more, under the stripped text after the #s |
| MarkdownParser.PageMarkerReads | apps/api/rag/chunking.py:7-35 | a comment of the word page in any case, a colon and a decimal number, in any spacing, is the marker of that number |
| MarkdownParser.PageMarkerIsOne | apps/api/rag/chunking.py:7-35 | and every marker is a line of that form |
| MarkdownParser.NumberIsRead | apps/api/rag/chunking.py:31-35 | every number is read as it is written in decimal |
| MarkdownParser.BlocksConserve | apps/api/rag/chunking.py:18-44 | each non-whitespace character of a text line is in exactly one block, in order, with the gaps between characters (a line end is one), under the last preceding heading and the last preceding page marker; blocks hold nothing else, are stripped and none is empty |
| Chunking.StopIsLastFullStop | apps/api/rag/chunking.py:57-61 | a window ends with the text, or right after the last full stop of its second half, or at its full size when there is none |
| Chunking.ChunkBlock | apps/api/rag/chunking.py:54-77 | the window loop appends exactly the block's pieces, numbered on from the drafts before it: no window is dropped as blank |
| Chunking.ChunkBlocks | apps/api/rag/chunking.py:47-78 | invalid sizes are refused; otherwise all pieces of all blocks, in order, with ordinals 0 to n - 1 |
| Chunking.StopsAreMonotone | apps/api/rag/chunking.py:57-61 | a window that starts later never ends earlier |
| Chunking.WindowsFit | apps/api/rag/chunking.py:55-77 | windows start at 0, end with the text, move right without a gap, are at most max_chars long and share exactly overlap_chars with the one before, or all but one character of it if that is less |
| Chunking.WindowsProgressIff | apps/api/rag/chunking.py:57-77 | in every normalized text each window ends later than the one before it if and only if the overlap is at most half the size |
| Chunking.ChunkCountIsBounded | apps/api/rag/chunking.py:55-77 | a block of length L yields at most ceil(L / (max_chars // 2 + 1 - overlap_chars)) chunks, or L when that stride is below 1 |
| Chunking.WindowsAreNotBlank | apps/api/rag/chunking.py:62-63 | no window of normalized text strips to nothing |
| Chunking.EachChunkHolds | apps/api/rag/chunking.py:62-74 | a chunk carries its block's tags, is normalized, and is its share of the overlap followed by what it adds, with the gaps between characters |
| Chunking.ChunksConserve | apps/api/rag/chunking.py:53-78 | each chunk of a block repeats at most overlap_chars from the end of the chunk before it; without these repeats the chunks say exactly what the block says, characters and gaps, in order, under its tags |
| Chunking.DocumentSurvives | apps/api/rag/chunking.py:18-78 | of the chunks of a parsed document: ordinals are 0 to n - 1, token counts half the length and at least 1, each is normalized and repeats at most overlap_chars from the end of the one before it under the same tags, and without the repeats their contents are the non-whitespace characters of the text lines with the gaps between the same ones, in order, each chunk tagged with the right heading and page |
| Reranker.Rerank | apps/api/rag/reranker.py:26-38 | the scoring loop and the sort compute the reranked list |
| Reranker.ScoreIs | apps/api/rag/reranker.py:26-38 | the score: 65 parts the hybrid score and 35 parts the larger of the part of the query's tokens found and four fifths of the part of its aliases' tokens found; clamping changes nothing for hybrid scores in [0, 1] |
| Reranker.RerankedIsOrdered | apps/api/rag/reranker.py:26-38 | scores lie in [0, 1], the list is a stable permutation of the scored hits, best first, and repeats no chunk the search did not repeat |
| QueryRewriter.RewriteSays | apps/api/rag/rewrite.py:20-27 | whitespace aside, a rewrite is the query, then the additions of the keys that occur in it, then the late addition from the second attempt on |
| QueryRewriter.RewriteWords | apps/api/rag/rewrite.py:20-27 | word for word: the query's words, then those of each addition, then those of the late addition |
| TextTools.MatchingAt | apps/api/rag/rewrite.py:20-27 | each key that occurs gives its addition at its place among those that occur, and nothing else is added |
| QueryRewriter.RewriteChangesIff | apps/api/rag/rewrite.py:20-27 | a rewrite differs from the query, and the second from the first, if and only if an expansion key occurs in the query |
| KnowledgeQuery.KnowledgeService.Query | apps/api/rag/service.py:37-114 | attempts are recorded as 0, 1, ... on their own rewrites, at most three; the query stops at the first confident one; when the last is confident the answer names and quotes its first hit and there are min(3, top_k, hits) citations, citation i with title, section, page and snippet of hit i, else there are none and no evidence; a refusal made one attempt if no key occurs in the query and 1 + max_retries otherwise |
| KnowledgeQuery.KnowledgeService.ConfidentIff | apps/api/rag/service.py:59-63 | an attempt is confident if and only if some hit among its first top_k reaches the threshold |
| KnowledgeQuery.KnowledgeService.BestScoreIs | apps/api/rag/service.py:60-62 | the best observed score is the largest of 0 and the first hits' scores, and absent exactly while no attempt had a hit to offer |
| KnowledgeQuery.SnippetIs | apps/api/rag/service.py:138-140 | a snippet is the whole normalized text where it fits, else its first limit - 1 characters, less a space at their end, and an ellipsis |
| KnowledgeQuery.SelectedAreCitedIff | apps/api/infrastructure/knowledge_repository.py:214-238 | the rows recorded as selected are the cited hits if and only if no lower-ranked row repeats the chunk of a cited one |
| KnowledgeQuery.CitationsAreTheSelectedRows | apps/api/rag/service.py:59-82 | when the search returns each chunk once, the citations are exactly the rows recorded as selected |
| KnowledgeQuery.SnippetFits | apps/api/rag/service.py:138-140 | a snippet never exceeds its limit, is the whole normalized text if and only if that fits, and is otherwise a prefix of it and one more character |
| Ingestion.EmbedDrafts | apps/api/rag/ingestion.py:103-112 | the batching loop computes the batchwise embedding, stopping at the first provider error or count mismatch |
| Ingestion.EachBatchIsAsked | apps/api/rag/ingestion.py:103-112 | for any provider: all chunks go out, each with its own vector of its own batch's answer, if every batch is answered with a vector a chunk; otherwise the error is that of the first batch that is not |
| Ingestion.BatchingIsInvisible | apps/api/rag/ingestion.py:103-112 | for every batch size from 1 on, chunk i gets the vector of its own text |
| Ingestion.RowsSayTheDocument | apps/api/rag/ingestion.py:60-112 | from the bytes to the rows: unreadable, empty of text and batch size 0 give their errors, and with a positive size the rows of a document taken in say what its text lines say under their headings and page markers, or what its pages say under their numbers from 1 on, each row embedded and repeating at most 100 characters of the one before |
| Ingestion.HashedSeparates | apps/api/rag/ingestion.py:114-117 | the hashed text determines the document's bytes and the index fingerprint, although the bytes may contain the separator |
| KnowledgeStore.KnowledgeRepository.ReplaceDocument | apps/api/infrastructure/knowledge_repository.py:36-107 | the new documents and rows, for a kept checksum, a new version, a new document, and a missing embedding, which rolls everything back |
| KnowledgeStore.ReplaceIsIdempotent | apps/api/infrastructure/knowledge_repository.py:47-107 | a kept checksum leaves identity, version and rows and may be repeated without effect; any other leaves exactly the new rows under the next version; counts of chunks and of distinct pages are the new rows' in both; other documents are untouched |
| KnowledgeStore.RefusedIff | apps/api/infrastructure/knowledge_repository.py:47-107 | a replace is refused, changing nothing, if and only if a row has no embedding and the document is not stored and indexed under its checksum |
| Ingestion.DocumentIngestionService.IngestDocument | apps/api/rag/ingestion.py:31-86 | reading Markdown lines or PDF pages into blocks, then the whole way to the store, with every error on it |
| Ingestion.DocumentIngestionService.IngestBlocks | apps/api/rag/ingestion.py:88-131 | chunking at 700 and 100, embedding in batches, checksum and replace; a document without chunks or a provider error changes nothing |
| Ingestion.StoreFollowsIngests | apps/api/rag/ingestion.py:88-131 | after any run of ingests a document exists for exactly the keys taken in; checksum, description and count are those of the latest ingest, the rows those of the latest that was not kept, with the same bytes and pipeline, and the version counts the changes of either |
| Ingestion.CountAlwaysAgreesIff | apps/api/infrastructure/knowledge_repository.py:47-61 | throughout a run the count of a key is that of its rows if and only if no kept ingest of it came with another number of chunks |
| Ingestion.OneKindAgreesIff | apps/api/rag/ingestion.py:70-112 | of a key always ingested as one kind, count and rows agree if and only if the ingests behind the two both embedded their chunks or both, with a negative batch size, none |
| Ingestion.OneKindAlwaysAgrees | apps/api/rag/ingestion.py:70-112 | a key always ingested as one kind of document with one batch size, of any sign, keeps count and rows in step, whatever the provider does |
| Ingestion.TwoKindsDisagree | apps/api/rag/ingestion.py:114-117 | the same bytes taken in as one kind and then as the other leave the first rows under the second count, at version 1 |
| Ingestion.TwoReadingsAgreeIff | apps/api/rag/ingestion.py:65-74 | after the same bytes are taken in as lines and then as pages, rows are those of the lines, the count that of the pages, and they agree if and only if both make equally many chunks |
| Ingestion.ASmallPdf | apps/api/rag/ingestion.py:65-74 | an input of that kind: a PDF of plain ASCII lines that fit one window, with a little text on each page, leaves one row under the number of its pages |
| TextTools.JoinedWordsAreShort | apps/api/rag/chunking.py:54 | normalizing never makes a text longer than it is without its leading whitespace |

## Left out

- HTTP routes, sign-in, rate-limit headers, server-sent events, the web front end, telemetry, logging and trace tables.
- Model, image, embedding and search providers: what they return is a parameter, or a step that may fail. Failures of the repository while it records hits or completes a query are not modelled.
- The intent router and the coercions of argument parsing: plans start as typed arguments, and floats are exact reals.
- Two replies are fixed texts about temperatures and seats; that the router planned those values is not part of this model. The wording of replies and of the grounded answer around its snippet is left out.
- `updated_at` and other clock columns, and the `backend` strings of limiter and admission controller.
- Upper-casing beyond ASCII in property choices: `str.upper` maps some other letters to ASCII, the model keeps them.
- Splitting a text into lines, and digits other than 0 to 9 in page markers: the parser starts from lines.
- Tokenization: the reranker takes any tokenizer. The full-text column and the vector and text scores of a hit are not kept.
- Rounding and delays of Redis time-to-live values, and what a caller may conclude from `retry_after_seconds`.
- Restarts: a process keeps its local tokens, table and breaker for the whole run.
- Two first ingests of one source key at the same time: the repository's transactions are atomic here.
- Document metadata; decoding bytes and extracting the text of PDF pages, which are parameters that may fail; theme validation before the vehicle is touched.
