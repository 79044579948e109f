# manager-core: admission, replacement, translation, parsing, metering

This project models seven parts of `manager-core` in Dafny and proves what they
are relied on for.

* **GPU admission.** Several manager processes share a directory lock made of
  single filesystem calls, and under it a ledger of memory leases. The lock is
  a step relation over any number of attempts, in which any call may fail, any
  process may crash and a lock may be judged stale at any moment
  (`AdmissionLock`, `AdmissionRecovery`, `AdmissionProgress`). Read and written
  back under that lock by any number of managers, the lease file is that of one
  sequential run (`AdmissionSerial`). The ledger, the budget arithmetic and the
  preview are functions (`AdmissionBudget`, `AdmissionLedger`,
  `AdmissionPreview`), and the controller's methods are proved against them
  (`AdmissionController`). What a launch is told, and when, is said of the
  telemetry, the policy and the leases alone (`AdmissionAnswers`).
* **Container replacement.** Docker is a map from names to containers with a
  script of faults, and records every state that it passes through, so that
  "at every step" can be said (`ContainerReplacement`); when each operation
  returns is said of the commands that fail (`ReplacementAnswers`).
* **Streaming translation.** Chat-completion deltas become bracketed, indexed
  message events. A protocol automaton says which event sequences are valid
  (`ClaudeEvents`); the translator is a state machine over deltas
  (`ClaudeBridge`, `ClaudeInvariant`, `ClaudeConservation`), it refines the
  one-shot translator of the same file (`ClaudeRefinement`), and runs as a class
  (`ClaudeTranslator`). What a client reads is a function of the deltas alone
  (`ClaudeMessage`), and so are stop reasons and one-shot tool blocks
  (`ClaudeAnswers`).
* **GGUF headers.** A recursive decoder with a capturing and a skipping mode
  and a partial-buffer mode (`GgufValues`, `GgufHeader`), the buffer reader and
  the loop that grows the buffer (`GgufReader`), and the accounting of tensor
  sizes (`GgufTensors`, `GgufBlocks`, `GgufAccounts`). The decoder is the
  inverse of a writer of headers: it accepts exactly what can be written and
  reports what was (`GgufSpelling`, `GgufLists`, `GgufContents`, `GgufFiles`,
  `GgufReports`). The format is that of ggml's `docs/gguf.md`, section "File
  Structure".
* **Gateway metering and gate.** The incremental event-stream parser
  (`SseEvents`, `SseMeter`, `SseParser`, `SseAnswers`; compare section 9.2.6 of
  the WHATWG HTML Living Standard), the output estimator (`OutputEstimator`,
  `OutputAnswers`), and the per-key concurrency gate with its queues
  (`RequestGate`, and with settings that differ from request to request
  `RequestGateConservation`; what each request is told is in
  `RequestGateAnswers`).
* **Authentication failures.** A pruned, bounded window of failures for each
  client against the full history (`AuthFailureGuard`), and its answers against
  the calls that were made to it (`AuthFailureAnswers`).
* **Context compression.** The budgeted split of a conversation
  (`MessageSplit`) and the estimator with its prefix search (`TokenEstimate`,
  `TokenAnswers`).

Loops and objects of the source are methods and classes, proved equal to a
function of their old state; what the source promises is proved about those
functions. Where a promise fails for some inputs, the lemma states the exact
condition: a replacement may be rolled back again only while its container has
the backup name, or when the first command of the retry is refused; a stream of
tool arguments reads like the one-shot answer only when they are empty or a JSON
object; an event that fits the memory cap by less than its separator is metered
or not depending on the chunking; a key off the whitelist with an array of an
undefined type splits the two header reads; a raised limit lets a newcomer
overtake; a fragment that arrives after the block of its tool was closed is not
sent; a chain of tool calls that carry results is torn by the split. A lemma
beside each names an input for which it fails.

One comment of the source says something else than its code, and the model
follows the code: a ban is announced for more than `maxFailures` failures
(`auth-failure-guard.js:4-6`) and issued at the `maxFailures`-th
(`auth-failure-guard.js:83`).

`dafny verify dfyconfig.toml` checks the whole project.

## Model

| member | source | states |
|---|---|---|
| AdmissionLock.MutualExclusion | manager-core/gpu-admission.js:99-220 | after any interleaving of single filesystem calls of any number of attempts, with crashes, failing calls and staleness at any moment, at most one live attempt is between its owner write and its release |
| AdmissionLock.HolderKeepsDirectory | manager-core/gpu-admission.js:159-220 | a live holder's token stays in the lock directory until the holder itself moves it |
| AdmissionLock.IdentityNeverChanges | manager-core/gpu-admission.js:119-139 | a retirer past its second read faces that token until it has moved the directory, so the identity-changed refusal is never reached |
| AdmissionLock.ExecKeeps | manager-core/gpu-admission.js:99-220 | the whole lock invariant (one occupant, one claimant per target, directories and targets justified) survives every run |
| AdmissionLock.CallKeeps | manager-core/gpu-admission.js:99-220 | one filesystem call of one live attempt keeps the invariant |
| AdmissionLock.CrashKeeps | manager-core/gpu-admission.js:99-220 | a crash at any point keeps the invariant |
| AdmissionLock.BeginKeeps | manager-core/gpu-admission.js:152-157 | a new attempt with a fresh token keeps the invariant |
| AdmissionLock.CallKeepsOwner | manager-core/gpu-admission.js:162-169 | the token in the lock directory always belongs to a known attempt |
| AdmissionLock.CallKeepsDirectory | manager-core/gpu-admission.js:99-220 | a call of one attempt leaves the directory of every other occupant alone |
| AdmissionLock.AcquireKeepsClaim | manager-core/gpu-admission.js:159-204 | an acquiring attempt never disturbs the directory that another attempt is retiring |
| AdmissionLock.RetireKeepsClaim | manager-core/gpu-admission.js:99-150 | a retiring attempt never disturbs the directory that another claimant is retiring |
| AdmissionRecovery.TakesOverOrphan | manager-core/gpu-admission.js:99-204 | a waiter running alone retires an unclaimed orphan and takes the lock |
| AdmissionRecovery.TakesFreeLock | manager-core/gpu-admission.js:159-170 | a waiter that finds no lock directory and whose calls succeed holds the lock |
| AdmissionRecovery.ClaimedOrphanStaysForever | manager-core/gpu-admission.js:110-116 | an abandoned retirement claim keeps the orphaned directory in place for good, as designed |
| AdmissionRecovery.DeadOwnerRecoverableIff | manager-core/gpu-admission.js:99-204 | in every reachable state whose lock belongs to a dead process, a waiter can still come to hold it if and only if there is no retirement claim on that owner or the claimant is alive |
| AdmissionRecovery.ClaimantLetsGo | manager-core/gpu-admission.js:110-149 | a live claimant can always give its claim back without touching the directory |
| AdmissionSerial.FileIsSequential | manager-core/gpu-admission.js:633-662 | however any number of managers interleave their reads and writes of the lease file under the lock, and crash, the file is that of the written operations run one after another |
| AdmissionSerial.NoLostUpdate | manager-core/gpu-admission.js:654-662 | a holder that has read the file writes on top of everything written before |
| AdmissionSerial.NoOvercommitAcrossManagers | manager-core/gpu-admission.js:654-951 | with fixed policy and telemetry, no interleaving of any number of managers, with crashes, overcommits a GPU |
| AdmissionSerial.HolderOperates | manager-core/gpu-admission.js:654-662 | a holder that reads and writes puts its operation into the file; whoever does not hold the lock changes nothing |
| AdmissionProgress.BeginsAndCrashes | manager-core/gpu-admission.js:152-157 | a running process can always start an attempt; a crash ends the attempts of its process and changes nothing else |
| AdmissionProgress.ReleaseFreesLock | manager-core/gpu-admission.js:99-150 | in every reachable state, a live holder whose release meets no failing call frees the lock, with no claim and no directory left behind |
| AdmissionProgress.FailChangesNoFile | manager-core/gpu-admission.js:99-204 | a failing call changes no file or directory, and its attempt goes on to clean up, to wait or to end, as its phase says |
| AdmissionProgress.AbandonsEmptyDirectory | manager-core/gpu-admission.js:171-185 | after a failed write of the owner file the directory is removed exactly when it is still empty |
| AdmissionProgress.StealsFromDeadOnly | manager-core/gpu-admission.js:186-196 | a waiter begins to retire a directory only when its owner file was readable and names a dead process |
| AdmissionProgress.ForeignDirectoryStays | manager-core/gpu-admission.js:133-149 | a directory that was moved aside and names another owner is not deleted |
| AdmissionBudget.NormalizeMaxUtilization | manager-core/gpu-admission.js:47-51 | a fraction from 0.1 to 0.99 is kept, a percentage from 10 to 99 is its hundredth, and everything else is the nearer bound, with numbers above 1 read as percentages |
| AdmissionBudget.RequestsLargestEstimate | manager-core/gpu-admission.js:346-373 | a launch asks for the largest of its estimates (table or plain number, share of the device, share of free memory), rounded up, and for nothing exactly when it has none |
| AdmissionBudget.AdmittedWithinBudget | manager-core/gpu-admission.js:427-455 | an admitted reservation, clamped or not, is positive and leaves all pending ones within free memory less the reserve and under the utilization limit |
| AdmissionBudget.FirstAliasDecides | manager-core/gpu-admission.js:346-357 | the table entry that counts is that of the first alias with a positive entry |
| AdmissionBudget.BudgetIsLargest | manager-core/gpu-admission.js:427-438 | the available memory is the largest amount that, on top of the pending reservations, stays within free memory less the reserve and under the utilization limit |
| AdmissionBudget.DecidesByBudget | manager-core/gpu-admission.js:427-455 | a launch fits a GPU if and only if its request and the pending reservations keep both limits; it is clamped, to the largest amount that keeps them, if and only if it does not fit, its pool is capped and its least useful amount (at least 1 MiB) keeps them; otherwise it is blocked |
| AdmissionBudget.RequestedByFraction | manager-core/gpu-admission.js:346-373 | a request sized by one fraction asks for that fraction of its base, rounded up, and for at least 1 MiB |
| AdmissionBudget.FractionFits | manager-core/gpu-admission.js:346-373 | with one knob, a fraction fits one GPU exactly when its share of the base fits the budget |
| AdmissionBudget.FractionFitsBelow | manager-core/gpu-admission.js:414-455 | on one GPU the suggested fraction and everything below it fits, and no larger thousandth does |
| AdmissionLedger.SelectsWhatIsNamed | manager-core/gpu-admission.js:308-333 | a launch that names GPUs gets exactly the matches of its aliases, or none when one of them has no telemetry; otherwise it gets all GPUs or the first |
| AdmissionLedger.DecideAll | manager-core/gpu-admission.js:495-537 | one decision for each selected GPU, each against that GPU's own pending reservations |
| AdmissionLedger.DecidesWhenEach | manager-core/gpu-admission.js:495-537 | a plan exists when every selected GPU can be decided |
| AdmissionLedger.ReservedWithout | manager-core/gpu-admission.js:295-306 | retiring leases leaves exactly the reservations counted with those leases excluded |
| AdmissionLedger.ReservedPrune | manager-core/gpu-admission.js:283-306 | expiry never raises what is reserved on a GPU |
| AdmissionLedger.ReservedRenewIn | manager-core/gpu-admission.js:899-914 | a renewal does not change what is reserved on any GPU |
| AdmissionLedger.ReservedCommitIn | manager-core/gpu-admission.js:916-939 | a commit does not change what is reserved on any GPU |
| AdmissionLedger.AcquireWithinBudget | manager-core/gpu-admission.js:685-790 | after a granted acquire every selected GPU is within its budget, whatever the telemetry was before |
| AdmissionLedger.AcquireElsewhere | manager-core/gpu-admission.js:685-790 | an acquire does not raise what is reserved on a GPU that it did not select |
| AdmissionLedger.ApplySafe | manager-core/gpu-admission.js:685-951 | every acquire, renew, commit, release and expiry keeps a GPU within its budget |
| AdmissionLedger.NoOvercommit | manager-core/gpu-admission.js:283-951 | over whole runs from an empty ledger under fixed policy and telemetry, whenever anything is reserved on a GPU the sum is within both of its budgets |
| AdmissionAnswers.SelectsSome | manager-core/gpu-admission.js:308-333 | with telemetry, a selection exists if and only if every GPU that the launch names has telemetry, and it is not empty |
| AdmissionAnswers.PlanDecidesEach | manager-core/gpu-admission.js:495-537 | a launch is decided if and only if each selected GPU has an estimate, and is blocked if and only if some selected GPU has room neither for the whole request nor for a clamped one |
| AdmissionAnswers.AcquireAnswers | manager-core/gpu-admission.js:685-790 | an acquire is refused for want of policy, telemetry, a named GPU or an estimate exactly when the first of these is missing, for want of memory exactly when some selected GPU neither fits the request nor may clamp it, and is granted in every other case |
| AdmissionAnswers.GrantedLease | manager-core/gpu-admission.js:746-790 | a granted lease is pending for its whole time to live and reserves on each selected GPU the request, or all that is left when that does not fit |
| AdmissionAnswers.RunsAdmit | manager-core/gpu-admission.js:685-790 | in every run of the ledger, a launch that has room on all GPUs that it selects gets a pending lease for its time to live |
| AdmissionAnswers.RunsRefuse | manager-core/gpu-admission.js:685-712 | a launch whose policy or telemetry cannot be read gets none; only in the latter case what had expired is dropped |
| AdmissionAnswers.PruneKeeps | manager-core/gpu-admission.js:283-293 | a lease survives pruning if and only if its stamp lies ahead |
| AdmissionAnswers.WithoutKeeps | manager-core/gpu-admission.js:941-951 | dropping ids keeps every lease with another id, and no lease with one of them |
| AdmissionAnswers.HoldsUntilStamp | manager-core/gpu-admission.js:283-306 | wherever a lease stands in the ledger, it holds its reservations until the instant of its stamp and nothing from then on |
| AdmissionAnswers.AcquireLeaves | manager-core/gpu-admission.js:685-790 | a grant adds its lease to those that are still ahead and not named for retirement; a refusal retires nothing, and drops what had expired exactly when it is for want of telemetry or of memory |
| AdmissionAnswers.RenewChangesOne | manager-core/gpu-admission.js:899-914 | a renewal gives the pending lease of its id another time to live, and leaves every other lease as it is, in place |
| AdmissionAnswers.CommitChangesOne | manager-core/gpu-admission.js:916-939 | with a cooldown, a commit leaves the lease of its id committed, under the container name if one is given, with its reservations until the cooldown ends; every other lease stays as it is, in place |
| AdmissionAnswers.ReleaseDropsOne | manager-core/gpu-admission.js:916-951 | a release, and a commit without a cooldown, drop the leases of that id and keep every other one that is still ahead |
| AdmissionPreview.EachGivesBack | manager-core/gpu-admission.js:541-551 | on each GPU the released memory, rounded and no more than was used, moves from used to free, and free memory stays within the total |
| AdmissionPreview.PreviewPredictsAcquire | manager-core/gpu-admission.js:834-897 | on the same ledger, once the released memory shows in the telemetry, the preview says ok or warn exactly when acquire grants, with the same per-GPU reservations, block exactly when it refuses for lack of memory, and otherwise the same error |
| AdmissionPreview.ExcludedIff | manager-core/gpu-admission.js:852-870 | the preview sets aside what the launch names for retirement and, in a replacement, all leases of the container |
| AdmissionPreview.PreviewPredictsRetiring | manager-core/gpu-admission.js:834-897 | without that cover too, acquire does what the preview says when it retires all that the preview set aside |
| AdmissionPreview.MaxFractionIsLeast | manager-core/gpu-admission.js:529-530 | the suggestion for several GPUs is the least of theirs, and none when one has none |
| AdmissionPreview.FractionOnSelected | manager-core/gpu-admission.js:414-537 | the suggestion fits every selected GPU, and one thousandth more does not fit them all |
| AdmissionPreview.SuggestedFraction | manager-core/gpu-admission.js:346-373 | turning the only knob to the suggestion or below is admitted without a clamp; turning it one thousandth further is refused unless a pool cap allows a clamp |
| AdmissionController.RefusedReplacementRestores | manager-core/gpu-admission.js:796-819 | a refused replacement whose rollback returns leaves Docker as it was and keeps every unexpired lease, those named for retirement included |
| AdmissionController.ReplacementAdmitsIff | manager-core/gpu-admission.js:796-819 | memory is asked for exactly when the replacement began; the launch is admitted if and only if it began and the memory was granted, and is rolled back once when it was refused |
| AdmissionController.ReplacementKeepsPrevious | manager-core/gpu-admission.js:796-819 | whatever command fails, at every step the replaced container exists under its original or its backup name |
| AdmissionController.Controller.PruneExpired | manager-core/gpu-admission.js:283-293 | the loop keeps exactly the unexpired leases, in order |
| AdmissionController.Controller.ActiveReservedMb | manager-core/gpu-admission.js:295-306 | the loop sums the reservations of a GPU over all leases but the excluded ones |
| AdmissionController.Controller.DecideAdmission | manager-core/gpu-admission.js:495-537 | the loop decides every selected GPU as the ledger's specification does |
| AdmissionController.Controller.AcquireUnlocked | manager-core/gpu-admission.js:685-790 | answer and new ledger are those of the specification, on every error path too |
| AdmissionController.Controller.RenewById | manager-core/gpu-admission.js:899-914 | reports a renewal exactly when an unexpired pending lease has the id, and then that lease expires one lease time from now; nothing else but expiry changes |
| AdmissionController.Controller.CommitById | manager-core/gpu-admission.js:916-939 | reports a commit exactly when an unexpired lease has the id; without a cooldown no lease with the id remains |
| AdmissionController.Controller.ReleaseById | manager-core/gpu-admission.js:941-951 | reports a release exactly when an unexpired lease has the id, and no lease with the id remains |
| AdmissionController.Controller.Evaluate | manager-core/gpu-admission.js:834-897 | the preview is that of the specification and the ledger is left alone |
| AdmissionController.Controller.AcquirePrepared | manager-core/gpu-admission.js:796-819 | Docker, ledger and outcome are those of prepare, acquire and, on refusal, one rollback |
| ContainerReplacement.BeginKeepsPrevious | manager-core/container-replacement.js:47-88 | beginning a replacement never loses the previous container, whatever command fails |
| ContainerReplacement.BeginOutcome | manager-core/container-replacement.js:47-97 | a begun replacement has stopped the container and given it the backup name, and nothing else; a refused inspection or a foreign owner changes nothing |
| ContainerReplacement.RefusedPrepareRestores | manager-core/container-replacement.js:73-88 | one refused command while preparing leaves every container as it was |
| ContainerReplacement.RollbackKeepsPrevious | manager-core/container-replacement.js:107-123 | one rollback attempt never loses the previous container, whatever command fails |
| ContainerReplacement.RollbackRestores | manager-core/container-replacement.js:107-123 | a rollback that returns has put the container back under its name and in its running state |
| ContainerReplacement.CommitRemovesOnlyBackup | manager-core/container-replacement.js:98-106 | a commit touches the backup only, and has removed it when it returns |
| ContainerReplacement.RetryKeepsPreviousIffBackup | manager-core/container-replacement.js:107-123 | a further rollback attempt keeps the previous container if and only if the container still has its backup name or the first command of the attempt, the removal, is refused |
| ContainerReplacement.RetryLosesPrevious | manager-core/container-replacement.js:107-123 | a rollback whose restart is refused throws with the container under its original name, and a second rollback then returns without it |
| ContainerReplacement.BegunBackupIsNew | manager-core/container-replacement.js:73-97 | a replacement begins only when its backup name is free |
| ContainerReplacement.ExecKeeps | manager-core/container-replacement.js:39-45 | a command that is harmless for the previous container keeps it, at the state after the command and on failure |
| ReplacementAnswers.BeginsIff | manager-core/container-replacement.js:47-97 | a replacement of an existing container begins if and only if it is not owned by another manager, the backup name is free and no command fails (inspect, stop if it runs, rename); the inspection and the foreign owner have their own refusals |
| ReplacementAnswers.BeginsOnNothing | manager-core/container-replacement.js:47-60 | without a container of that name a replacement begins with an inspection and nothing else |
| ReplacementAnswers.EndsOnce | manager-core/container-replacement.js:98-123 | a committed or rolled back replacement stays so: the same call does nothing, the other one throws |
| ReplacementAnswers.CommitsIff | manager-core/container-replacement.js:98-106 | a commit returns if and only if its one command, the removal of the backup, works; a failing one can be tried again |
| ReplacementAnswers.EndsOnNothing | manager-core/container-replacement.js:98-123 | without a previous container a commit runs no command, and a rollback removes the new container |
| ReplacementAnswers.RollsBackIff | manager-core/container-replacement.js:107-123 | a rollback returns if and only if all its commands work: removal, inspection, renaming, and the start of a container that ran before |
| ReplacementAnswers.RollsBackWithoutBackup | manager-core/container-replacement.js:107-123 | when the backup is gone a rollback still removes the new container and returns |
| ContainerReplacement.Replacement.CommitReplacement | manager-core/container-replacement.js:98-106 | Docker, handle and ending are those of the specification |
| ContainerReplacement.Replacement.RollbackReplacement | manager-core/container-replacement.js:107-123 | Docker, handle and ending are those of the specification |
| ContainerReplacement.BeginReplacement | manager-core/container-replacement.js:47-97 | a replacement object exists exactly when the replacement began, and carries its handle |
| ClaudeEvents.ScanMatchesContents | manager-core/claude-bridge.js:303-502 | a client that accepts the events reassembles one content for each block |
| ClaudeInvariant.HandleTextKeeps | manager-core/claude-bridge.js:303-327 | a text delta keeps the event stream well-bracketed and appends the text at the end of the message |
| ClaudeInvariant.HandleToolKeeps | manager-core/claude-bridge.js:338-369 | a tool delta keeps it well-bracketed: at most one open block, the newest, and argument deltas only to it |
| ClaudeInvariant.RunKeeps | manager-core/claude-bridge.js:303-404 | every sequence of deltas keeps the protocol invariant, the contents of all blocks, and the tools that they belong to |
| ClaudeInvariant.TextConserved | manager-core/claude-bridge.js:393-401 | the text deltas concatenate to exactly the text that arrived |
| ClaudeInvariant.FinishConservesText | manager-core/claude-bridge.js:460-502 | so do the text blocks of a completed message, late tool blocks and the empty block included |
| ClaudeInvariant.FailConservesText | manager-core/claude-bridge.js:443-458 | so do those of a failed stream |
| ClaudeInvariant.ErroredRunIsBracketed | manager-core/claude-bridge.js:443-458 | a failed stream is a valid prefix of the protocol with at most one open block |
| ClaudeInvariant.EmitAllLateKeeps | manager-core/claude-bridge.js:462-485 | the tools that never started get whole, closed blocks at the next indices |
| ClaudeInvariant.FinishKeeps | manager-core/claude-bridge.js:460-502 | finishing closes every block and leaves the message with exactly the contents that the specification assembles |
| ClaudeInvariant.CompletedRunIsBracketed | manager-core/claude-bridge.js:303-502 | a completed run has at least one block, consecutive indices, each opened and closed once, and as many tool blocks as the reported tool count |
| ClaudeConservation.OpenToolCarriesFragments | manager-core/claude-bridge.js:328-369 | while a tool's block is open it carries every fragment so far, those from before its name included |
| ClaudeConservation.ArgumentsAreFragments | manager-core/claude-bridge.js:338-353 | what is buffered for a tool is exactly what arrived for it |
| ClaudeConservation.ClosedToolStays | manager-core/claude-bridge.js:308-316 | a closed tool block is never written to again |
| ClaudeConservation.ToolArgumentsConserved | manager-core/claude-bridge.js:328-369 | the block of a tool carries, however the stream goes on, exactly the fragments that had arrived when it was closed |
| ClaudeConservation.CarriesAllIff | manager-core/claude-bridge.js:338-369 | so it carries all the fragments of the tool if and only if none arrives after its close |
| ClaudeConservation.InterleavedFragmentIsLost | manager-core/claude-bridge.js:338-369 | of two interleaved calls, the fragment that arrives for the first after the second has begun is not sent |
| ClaudeMessage.StreamAssembles | manager-core/claude-bridge.js:303-404 | after every sequence of deltas the client has read exactly the blocks that the deltas assemble: a text continues a text and begins a block behind a tool; a tool's block begins with the first delta that has a name, under the latest id or `call_` and its number, with all arguments so far, and takes later ones only while it is the newest block |
| ClaudeMessage.RunLinks | manager-core/claude-bridge.js:303-404 | the state of every stream is a function of its deltas: the tools, their ids, arguments and whether they have a block, and which block is open |
| ClaudeMessage.PayloadAssembles | manager-core/claude-bridge.js:391-404 | a payload brings its text first, and then its tool deltas, in order |
| ClaudeMessage.FinishedMessage | manager-core/claude-bridge.js:460-502 | a finished message has the blocks that the deltas assemble, then one for each tool that sent arguments and never a name, by number, with the input of the one-shot answer, or one empty text when there is nothing |
| ClaudeRefinement.RunIgnoresReasons | manager-core/claude-bridge.js:404 | finish reasons do not influence the blocks, and the last one alone decides the stop reason |
| ClaudeRefinement.RunCalls | manager-core/claude-bridge.js:338-369 | named calls sent one after another become one tool block each, with all of their fragments |
| ClaudeRefinement.ReadCalls | manager-core/claude-bridge.js:227-256 | those blocks read as the one-shot tool blocks exactly when all arguments are empty or JSON objects |
| ClaudeRefinement.StreamRefinesOneShot | manager-core/claude-bridge.js:197-256 | for text followed by named calls, in any chunking, the stop reason is the one-shot one, and the reassembled content is the one-shot content if and only if every call's arguments are empty or a JSON object |
| ClaudeAnswers.StreamStopsFor | manager-core/claude-bridge.js:460-545 | a stream that did not fail ends with tool use if it holds a tool block; otherwise with max tokens if and only if the last finish reason is `length`, with stop sequence if and only if it is `content_filter`, with tool use if and only if it is `tool_calls` or `function_call`, and else with end of turn |
| ClaudeAnswers.ResponseStopsFor | manager-core/claude-bridge.js:197-225 | so does the one-shot answer, for its tool calls and its finish reason |
| ClaudeAnswers.UsesForCalls | manager-core/claude-bridge.js:227-256 | each tool call becomes one tool use in order: a missing id is a random one, a missing name is `tool`, an object is kept, another value is wrapped and a text that is no JSON is kept raw |
| ClaudeAnswers.ResponseHolds | manager-core/claude-bridge.js:197-225 | the one-shot answer holds the text if there is any, then the tool uses, and an empty text if there is neither |
| ClaudeRefinement.LateToolReadsOneShot | manager-core/claude-bridge.js:462-485 | the late block of a tool without a name reads as the one-shot block of that call, for a codec whose parsed values and two wrappers print back |
| ClaudeRefinement.SomeCodecIsLawful | manager-core/claude-bridge.js:249-256 | such a codec exists |
| ClaudeRefinement.ArrayArgumentsDiffer | manager-core/claude-bridge.js:249-256 | a streamed call with the arguments [1] is not read as the one-shot answer, which wraps the array |
| ClaudeTranslator.Translator.HandleToolDelta | manager-core/claude-bridge.js:338-369 | the fields and the events written are those of the specification (take a tool delta) |
| ClaudeTranslator.Translator.HandleChunk | manager-core/claude-bridge.js:391-404 | the fields and the events written are those of the specification (take text, tool deltas and finish reason of one payload, in that order) |
| ClaudeTranslator.Translator.FinishStream | manager-core/claude-bridge.js:460-502 | the fields and the events written are those of the specification (end a stream that did not fail) |
| ClaudeTranslator.TranslateStream | manager-core/claude-bridge.js:266-502 | a whole translation writes well-bracketed events that carry exactly the text that arrived and as many tool blocks as it reports |
| GgufValues.TakeForetells | manager-core/gguf-metadata.js:185-207 | bytes read from a prefix of a file are those of the file; a request for more names the end of the read, and a refused read stays refused |
| GgufSpelling.LittleEndianIsPositional | manager-core/gguf-metadata.js:99-107 | the number of little-endian bytes is the sum of each byte times the power of 256 of its position |
| GgufSpelling.BigEndianIsPositional | manager-core/gguf-metadata.js:99-107 | the number of big-endian bytes is that sum over the reversed bytes |
| GgufSpelling.SpellingReadsBack | manager-core/gguf-metadata.js:99-107 | every number below 256 to the n-th is what its spelling in n bytes reads as, in either byte order |
| GgufSpelling.NumberIsSpelled | manager-core/gguf-metadata.js:99-107 | all bytes are the spelling of the number that they read as |
| GgufSpelling.ReadUintIff | manager-core/gguf-metadata.js:185-220 | a number is read at an offset if and only if its spelling stands there |
| GgufSpelling.ReadCountIff | manager-core/gguf-metadata.js:209-220 | a count is read if and only if its spelling stands there and a double can hold it |
| GgufContents.FixedSizes | manager-core/gguf-metadata.js:13-50 | the sizes of the fixed value types are those of the format |
| GgufContents.KeptWithoutPlaceholders | manager-core/gguf-metadata.js:227-254 | without placeholders a value is kept with null in the place of each |
| GgufContents.SkipsWritten | manager-core/gguf-metadata.js:256-292 | the bytes of a stored value whose lists have defined types are skipped to their end |
| GgufContents.ReadsWritten | manager-core/gguf-metadata.js:276-292 | the bytes of a stored value read back as that value, long strings and lists replaced as documented, and the read ends behind it |
| GgufContents.SkippedIsWritten | manager-core/gguf-metadata.js:256-292 | whatever can be skipped is the bytes of such a value |
| GgufContents.ReadIsWritten | manager-core/gguf-metadata.js:276-292 | whatever can be captured is the bytes of a stored value, and that value is reported |
| GgufFiles.PairReadsBack | manager-core/gguf-metadata.js:343-357 | the bytes of a key and value read back as that pair |
| GgufFiles.PairIsWritten | manager-core/gguf-metadata.js:343-357 | whatever reads as a pair is the bytes of that pair |
| GgufFiles.TensorReadsBack | manager-core/gguf-metadata.js:363-387 | the bytes of a tensor info read back as its name, dimensions, type id and offset |
| GgufFiles.TensorIsWritten | manager-core/gguf-metadata.js:363-387 | whatever reads as a tensor info is the bytes of that info |
| GgufFiles.CountsReadIff | manager-core/gguf-metadata.js:335-339 | version and counts are accepted if and only if the version is 1 to 3 and a double can hold both counts; anything else is refused, and not asked more bytes for |
| GgufFiles.HeaderReadsBack | manager-core/gguf-metadata.js:330-390 | a header written with given version, pairs and tensors, in either byte order, is read as exactly those, and the read ends behind it |
| GgufFiles.HeaderIsWritten | manager-core/gguf-metadata.js:330-390 | every accepted file begins with the bytes of a well-formed header, and the report is what is written there |
| GgufReports.MetadataIsLastPut | manager-core/gguf-metadata.js:340-358 | under each whitelisted key the metadata hold the value stored last under it that is not dropped as too long, and nothing else |
| GgufReports.ParametersAreElements | manager-core/gguf-metadata.js:360-388 | the parameter count is the number of elements of all tensors of the file |
| GgufValues.SkipIsRead | manager-core/gguf-metadata.js:238-292 | skipping a value, nested arrays included, moves exactly as far as capturing it, and fails on a value that can be captured only if some array in it declares an undefined element type |
| GgufValues.FixedItems | manager-core/gguf-metadata.js:256-261 | items of a fixed-size type take exactly their total size, and can be read exactly when that fits |
| GgufValues.NullsForPlaceholders | manager-core/gguf-metadata.js:227-292 | without placeholders the same bytes are read, and the value is the one with placeholders, at any depth, made null |
| GgufValues.ReadForetells | manager-core/gguf-metadata.js:276-292 | what reading a value from a prefix of a file says holds for every longer prefix and for the file |
| GgufValues.SkipForetells | manager-core/gguf-metadata.js:256-292 | what skipping a value in a prefix of a file says holds for every longer prefix and for the file |
| GgufHeader.ManyForetell | manager-core/gguf-metadata.js:342-388 | a list of items read from a prefix inherits what each item says about longer prefixes |
| GgufHeader.PairForetells | manager-core/gguf-metadata.js:343-357 | what reading one key-value pair from a prefix says holds for every longer prefix |
| GgufHeader.TensorForetells | manager-core/gguf-metadata.js:363-387 | what reading one tensor info from a prefix says holds for every longer prefix |
| GgufHeader.PrefixForetells | manager-core/gguf-metadata.js:330-390 | a header or a failure from a prefix is that of the file; a request for more bytes exceeds the prefix, is repeated by every longer prefix still below it, and is never more than the header needs |
| GgufHeader.NarrowPairRead | manager-core/gguf-metadata.js:343-357 | the narrow read of a pair succeeds where the widened one does unless an array in it, under a key off the whitelist, is of an undefined type |
| GgufHeader.SameMetadata | manager-core/gguf-metadata.js:305-358 | the whitelisted metadata of the narrow read is that of the widened one |
| GgufHeader.UndefinedArraySplits | manager-core/gguf-metadata.js:256-292 | a file with an empty array of type 13 under a key off the whitelist is accepted by the widened read and refused by the narrow one |
| GgufHeader.NarrowReadIff | manager-core/gguf-metadata.js:330-390 | a file whose widened read succeeds can be read narrowly if and only if no key off the whitelist holds an array of an undefined type; both reads then end at the same offset with the same counts, metadata and parameter count |
| GgufReader.BufferReader.SkipArr | manager-core/gguf-metadata.js:256-271 | the answer is that of the specification at the old offset, and on success the offset is where it ends (skip an array) |
| GgufReader.BufferReader.Skip | manager-core/gguf-metadata.js:276-284 | the answer is that of the specification at the old offset, and on success the offset is where it ends (skip a value) |
| GgufReader.BufferReader.Read | manager-core/gguf-metadata.js:276-292 | the answer is that of the specification at the old offset, and on success the offset is where it ends (read a value) |
| GgufReader.BufferReader.ReadArr | manager-core/gguf-metadata.js:281-292 | the answer is that of the specification at the old offset, and on success the offset is where it ends (read an array) |
| GgufReader.BufferReader.Pairs | manager-core/gguf-metadata.js:340-358 | the answer is that of the specification at the old offset, and on success the offset is where it ends (read all pairs, with the metadata that grows beside them) |
| GgufReader.BufferReader.Tensors | manager-core/gguf-metadata.js:360-388 | the answer is that of the specification at the old offset, and on success the offset is where it ends (read all tensor infos, with the parameter count) |
| GgufReader.BufferReader.Parse | manager-core/gguf-metadata.js:330-390 | the answer is that of the specification at the old offset, and on success the offset is where it ends (read the whole header) |
| GgufReader.HeadForetellsWhole | manager-core/gguf-metadata.js:559-566 | the report from the first bytes is that of the whole file unless it asks for more, and what it asks for is needed |
| GgufReader.RequestRepeats | manager-core/gguf-metadata.js:185-193 | a longer head that still falls short of a request asks for the same, and one that satisfies it asks for something beyond itself or nothing |
| GgufReader.ReadHead | manager-core/model-inspector/content-digest.js:72-90 | the grow-and-retry loop ends with the answer of the whole file, unless the header runs past the largest head that is read |
| GgufTensors.SizeIsRowsOfBlocks | manager-core/model-inspector/ggml-types.js:81-95 | a tensor's size is its row length in blocks times the block bytes times the remaining dimensions |
| GgufBlocks.PlainTypes | manager-core/model-inspector/ggml-types.js:19-58 | the float and integer types have blocks of one element of their size |
| GgufBlocks.SmallTypes | manager-core/model-inspector/ggml-types.js:19-58 | the types with blocks of 32 elements take their packed bits and their scales |
| GgufBlocks.KTypes | manager-core/model-inspector/ggml-types.js:19-58 | the K types take 256 packed elements with their scales |
| GgufBlocks.IndexedTypes | manager-core/model-inspector/ggml-types.js:19-58 | so do the IQ and ternary types |
| GgufBlocks.OtherTypes | manager-core/model-inspector/ggml-types.js:19-58 | no other type id has a size |
| GgufTensors.ByOffset | manager-core/gguf-metadata.js:446 | the tensors, none lost, in order of offset |
| GgufTensors.ByOffsetIsStable | manager-core/gguf-metadata.js:446 | tensors with the same offset keep their order |
| GgufTensors.TypesAddUp | manager-core/gguf-metadata.js:469-471 | the sizes by type add up to the tensor bytes |
| GgufTensors.MismatchesIffOverlap | manager-core/gguf-metadata.js:455-468 | no size mismatch is counted if and only if every tensor ends before every later one begins |
| GgufTensors.BytesFit | manager-core/gguf-metadata.js:455-473 | without a mismatch the tensor bytes fit below the end of the data, which is the end of the last tensor |
| GgufTensors.DataEndIsLast | manager-core/gguf-metadata.js:472 | the end of the data is the largest end of a tensor, whatever their order |
| GgufTensors.AlignUp | manager-core/gguf-metadata.js:320-322 | the least multiple of the alignment that is not below the value |
| GgufTensors.AccountFor | manager-core/gguf-metadata.js:455-473 | the loop accounts for every tensor, by its own size or by the gap behind it |
| GgufTensors.SummarizeTensorBytes | manager-core/gguf-metadata.js:445-501 | sizes by type add up; exact means known sizes side by side; the total is the header and the aligned end of the data; the file is short exactly when the data end lies past it |
| GgufTensors.HeaderIsPlaced | manager-core/gguf-metadata.js:360-388 | the widened read gives every tensor that the header counts an offset and a type id of 32 bits |
| GgufTensors.WeighHeader | manager-core/gguf-metadata.js:512-540 | the weights are reported exactly for the headers that parse, and account for every tensor that the header counts |
| GgufTensors.TotalIsAligned | manager-core/gguf-metadata.js:513-516 | the total of a parsed header is a multiple of its alignment and lies past the header |
| GgufTensors.PrefixWeighsAsFile | manager-core/gguf-metadata.js:559-566 | the weights of a header parsed from the first bytes of a file are those of the file |
| GgufAccounts.TensorSays | manager-core/model-inspector/ggml-types.js:80-97 | a tensor has a size if and only if its type has blocks, its rows are whole blocks, and elements and bytes can be counted in a double; the size is that of its blocks |
| GgufAccounts.CountsWhatItTakes | manager-core/gguf-metadata.js:455-468 | a tensor counts its size; one without a size reaches to the next tensor, or from the last one to the end of the data, when that is known and not before it |
| GgufAccounts.BytesOfTypes | manager-core/gguf-metadata.js:469-471 | the total is what all tensors count, and each type with a tensor has an entry with what its tensors count |
| GgufAccounts.UnknownAreUnsized | manager-core/gguf-metadata.js:455-464 | as many tensors are unknown as have no size, and exactly their types are listed |
| GgufAccounts.OnlyLastIsUnbounded | manager-core/gguf-metadata.js:455-464 | no more than the last tensor is unbounded, and exactly when it has no size and the end of the data is unknown or lies before it |
| GgufAccounts.MismatchedRunInto | manager-core/gguf-metadata.js:465-468 | as many sizes are mismatched as run into the next tensor |
| GgufAccounts.AlignmentIsLast | manager-core/gguf-metadata.js:513-516 | the alignment is the last `general.alignment` if that is a positive whole number, and 32 otherwise |
| GgufAccounts.HeaderIsLaidOut | manager-core/gguf-metadata.js:445-516 | the data begin at the first multiple of the alignment behind the header, the total ends at the first one behind the last tensor, and the file is short if and only if a tensor ends past it |
| SseEvents.FindsLeftmost | manager-core/gateway-utils.js:468-475 | the boundary is the leftmost of the three separators, with its length |
| SseAnswers.SeparatorsAreEmptyLines | manager-core/gateway-utils.js:468-475 | the three separators are an empty line in each of the three line endings |
| SseAnswers.BytesAreUtf8 | manager-core/gateway-utils.js:675-678 | the size of a text is that of its code points in UTF-8 |
| SseAnswers.EndsOnce | manager-core/gateway-utils.js:698-708 | a stream that has ended is not metered again |
| SseEvents.BoundaryStays | manager-core/gateway-utils.js:468-475 | more text never moves a boundary that was found |
| SseEvents.TailFindsBoundary | manager-core/gateway-utils.js:657-666 | text without a boundary can be cut to its last three units without changing where the next boundary falls |
| SseMeter.MeteredAppend | manager-core/gateway-utils.js:667-674 | the log of a longer text is that of the text, and then that of its rest with the addition |
| SseEvents.OversizedEvent | manager-core/gateway-utils.js:675-678 | pending text over the cap belongs to an event over the cap, or to one that fits by less than its separator |
| SseEvents.BandSplit | manager-core/gateway-utils.js:667-678 | a text with an event that fits by less than its separator can be cut so that this event is dropped |
| SseMeter.PendingWithinCap | manager-core/gateway-utils.js:656-697 | after every push, whatever came before, the pending text is within the cap |
| SseMeter.DrainTracks | manager-core/gateway-utils.js:656-679 | a drain leaves the parser where the whole text so far leaves it: its log, its pending text, and a flag that tells whether all of the unfinished event was forwarded |
| SseMeter.PassesMetered | manager-core/gateway-utils.js:667-674 | the loop over boundaries meters the terminated events of the pending text, the first with its own flag and the others with that of the latest chunk |
| SseMeter.LogOfText | manager-core/gateway-utils.js:656-708 | the events metered are those of the concatenated text, a last unterminated one included, each marked as forwarded exactly when all of it and of its separator was |
| SseMeter.BandDropsEvent | manager-core/gateway-utils.js:667-678 | a text cut into two forwarded chunks inside the separator of an event that fits by less than that separator is metered with fewer events than it has, whatever was forwarded |
| SseMeter.DrainDrains | manager-core/gateway-utils.js:656-679 | after a drain nothing is left to drain, so the end of the stream adds only a last event |
| SseMeter.FullEventIsDropped | manager-core/gateway-utils.js:627-678 | a usage report that fills the cap is metered when it arrives with its separator, and is not metered when the last unit of the separator comes in a chunk of its own |
| SseMeter.ChunkingIrrelevantIff | manager-core/gateway-utils.js:656-708 | for every way to cut a text into chunks, what is metered depends only on the text and on which of its units were forwarded, if and only if no event fits the cap by less than its separator |
| SseParser.IndexOf | manager-core/gateway-utils.js:471 | the first occurrence of a separator, or none |
| SseParser.FindSseEventBoundary | manager-core/gateway-utils.js:468-475 | the leftmost of the separators that occur is the boundary of the specification |
| SseParser.Parser.DrainEvents | manager-core/gateway-utils.js:667-674 | the new state is that of the specification |
| SseParser.Parser.DrainPending | manager-core/gateway-utils.js:656-679 | the new state is that of the specification |
| SseParser.Parser.PushText | manager-core/gateway-utils.js:682-697 | the new state is that of the specification, and the pending text stays within the cap |
| SseParser.Parser.FinishText | manager-core/gateway-utils.js:698-708 | the new state is that of the specification |
| SseParser.MeterResponse | manager-core/gateway-utils.js:613-724 | a whole response, forwarded in part or in full, meters the events of its text when no event fits the cap by less than its separator |
| OutputEstimator.CountsSplit | manager-core/gateway-utils.js:498-527 | a text cut in two counts like the whole; a word cut in two is counted once |
| OutputEstimator.FitsWhole | manager-core/gateway-utils.js:513-527 | a text that fits the rest of the sample is sampled whole |
| OutputEstimator.RunTracks | manager-core/gateway-utils.js:490-534 | within sample and channels, the counts are those of each channel's text taken as one |
| OutputEstimator.EstimateOfTexts | manager-core/gateway-utils.js:477-551 | within the sample cap and 256 channels the estimate depends only on the text of each channel, however it was cut and interleaved |
| OutputAnswers.CountsAreWhere | manager-core/gateway-utils.js:498-527 | the counts are the numbers of ideographs, of runs of word characters and of other characters that are no space |
| OutputAnswers.EstimateIs | manager-core/gateway-utils.js:536-551 | the estimate is the weight of the counts rounded up and a token for every four bytes beyond the sample, rounded up, at least 1 after any text and at most a hundred million |
| OutputAnswers.OneTextIsWeighed | manager-core/gateway-utils.js:477-551 | a text on its own within the sample is estimated by the weight of its characters |
| OutputAnswers.SampleIsLongest | manager-core/gateway-utils.js:513-527 | the sample is the longest run of whole characters that fits |
| OutputAnswers.EveryByteCounts | manager-core/gateway-utils.js:490-534 | every byte that arrives is sampled or counted beyond the sample, up to four hundred million of these |
| OutputEstimator.StreamEstimator.ObserveChannel | manager-core/gateway-utils.js:490-534 | the new counters are those of the specification |
| OutputEstimator.StreamEstimator.Sample | manager-core/gateway-utils.js:513-527 | the loop samples whole characters while they fit, and counts them |
| RequestGate.ExecKeeps | manager-core/gateway-utils.js:1812-1891 | every run of arrivals, closes, timeouts and answers, for any number of keys with fixed settings, keeps slots, queues and log in order |
| RequestGate.ApplyKeeps | manager-core/gateway-utils.js:1812-1891 | each of these steps keeps the invariant |
| RequestGate.FirstInFirstOut | manager-core/gateway-utils.js:1812-1827 | slots of a key are granted in order of arrival, and nobody who still waits arrived before someone with a slot |
| RequestGate.SettledOnce | manager-core/gateway-utils.js:1854-1890 | a request is told something at most once, and waits in its queue exactly while it has been told nothing |
| RequestGate.SlotsConserved | manager-core/gateway-utils.js:1812-1851 | slots in use are the grants not given back and never exceed the limit; none is idle while anyone waits; the queue is within its limit; with nothing held nothing is kept for the key |
| RequestGateAnswers.NewcomerIsTold | manager-core/gateway-utils.js:1829-1890 | in every run, under any settings, a newcomer gets a slot while fewer are held than it allows; else it is told that the limit is exceeded when it allows no queue, that the queue is full when that holds as many as it allows, and waits at the end in every other case |
| RequestGateAnswers.NewcomerWaitsIff | manager-core/gateway-utils.js:1829-1890 | while a key keeps its settings, a newcomer is at the end of the queue if and only if all slots are taken and the queue has room; it is told that the queue is full, or the limit exceeded, if and only if all are taken and the queue holds its limit, which is positive, or zero |
| RequestGateAnswers.LeaverIsTold | manager-core/gateway-utils.js:1854-1887 | a waiting request that closes is told so, one whose time runs out that it timed out, and those behind it move up; one that does not wait changes nothing |
| RequestGateAnswers.SlotIsPassedOn | manager-core/gateway-utils.js:2057-2065 | a slot given back goes to the first waiter if the settings still allow one more, stays free otherwise, and is given back once |
| RequestGateAnswers.CancelledIsPassedOver | manager-core/gateway-utils.js:1812-1827 | waiters that cancelled leave the queue without a slot, and the first that did not is next |
| RequestGateAnswers.GrantsAreLogged | manager-core/gateway-utils.js:1812-1827 | those that were granted a slot are exactly those that were told so |
| RequestGateAnswers.ExecIsPlay | manager-core/gateway-utils.js:1829-1890 | runs in which each key keeps its settings are runs like all others |
| RequestGateConservation.SlotsAlwaysConserved | manager-core/gateway-utils.js:1812-1891 | with settings that differ from request to request, slots in use are still the grants not given back and never exceed the highest limit, and the queue stays within the highest queue limit |
| RequestGateConservation.AlwaysSettledOnce | manager-core/gateway-utils.js:1854-1890 | with such settings, a request is still told something at most once, and waits in its queue exactly until then |
| RequestGateConservation.WaitInOrder | manager-core/gateway-utils.js:1829-1890 | with such settings, those that wait for a key still wait in order of arrival |
| RequestGate.OvertakesIff | manager-core/gateway-utils.js:1829-1832 | a newcomer gets a slot ahead of a waiting queue if and only if its settings allow more slots than those the queue formed under |
| RequestGate.RaisedLimitOvertakes | manager-core/gateway-utils.js:1829-1832 | with one slot taken and one request waiting, a newcomer that is allowed two slots gets one |
| RequestGate.PassesOn | manager-core/gateway-utils.js:2057-2065 | giving back a slot while someone waits passes it to the first waiter |
| RequestGate.ActionTouchesOneKey | manager-core/gateway-utils.js:1812-1891 | an arrival, close, timeout or answer leaves the slots, the queue and the requests of every other key alone |
| RequestGate.KeyByKey | manager-core/gateway-utils.js:1812-1891 | so a step that keeps the invariant of its own key keeps that of all keys |
| RequestGate.Gateway.EnterConcurrency | manager-core/service-policy.js:782-788 | a slot is taken exactly when fewer than the limit are in use |
| RequestGate.Gateway.WaitForConcurrency | manager-core/gateway-utils.js:1829-1890 | the new state is that of the specification: a slot, a place at the end of the queue, or a refusal |
| RequestGate.Gateway.StopWaiting | manager-core/gateway-utils.js:1871-1887 | a close or a timeout takes the request out of its queue and settles it |
| RequestGate.Gateway.ResolveNextWaiter | manager-core/gateway-utils.js:1812-1827 | the loop grants the first waiter that did not cancel, if a slot is free |
| RequestGate.Gateway.ReleaseSlot | manager-core/gateway-utils.js:2057-2065 | a slot is given back once, and passed on |
| RequestGate.RemoveWaiter | manager-core/gateway-utils.js:1807-1810 | the queue without its first entry for the waiter |
| AuthFailureGuard.FailureAgrees | manager-core/auth-failure-guard.js:77-104 | one more failure is answered alike from the pruned window and from the full history, and leaves fewer failures stored than ban a client |
| AuthFailureGuard.InactiveIsNone | manager-core/auth-failure-guard.js:50-54 | an inactive entry cannot be told from a missing one, then or later |
| AuthFailureGuard.PruneMatches | manager-core/auth-failure-guard.js:50-64 | a prune cannot be observed, except that evicted clients are forgotten |
| AuthFailureGuard.OldestGoFirst | manager-core/auth-failure-guard.js:55-63 | evicted and kept keys are the active ones in order of insertion, the evicted ones first |
| AuthFailureGuard.CallRefines | manager-core/auth-failure-guard.js:50-135 | one record, check, clear or describe answers as the full history does and keeps keys and failures within their bounds |
| AuthFailureGuard.RunRefines | manager-core/auth-failure-guard.js:50-135 | every run with non-decreasing times answers as the full history does that forgets the evicted clients |
| AuthFailureGuard.EvictsIff | manager-core/auth-failure-guard.js:55-90 | a record evicts if and only if the full history then counts against more clients than the cap |
| AuthFailureGuard.NewestStays | manager-core/auth-failure-guard.js:55-90 | the client that just failed is never the one evicted |
| AuthFailureGuard.FewClientsRefine | manager-core/auth-failure-guard.js:50-135 | while no more clients are active than the cap, nothing is evicted and the guard bans, blocks and reports exactly as the full history of failures does |
| AuthFailureAnswers.HistoryTells | manager-core/auth-failure-guard.js:77-104 | what is kept for a client is the number of its failures inside the window since it was last banned, cleared or evicted, and the end of its last ban |
| AuthFailureAnswers.RecordBansIff | manager-core/auth-failure-guard.js:77-104 | in every run a failure is answered with a ban if and only if it is the `maxFailures`-th that counts, and otherwise with the number that count and how many are left |
| AuthFailureAnswers.CheckBlocksIff | manager-core/auth-failure-guard.js:66-75 | in every run a check is answered with the end of the client's last ban while that lies ahead and the client was not cleared or evicted since, and with 0 if and only if there is no such ban |
| AuthFailureAnswers.CountersAreAnswers | manager-core/auth-failure-guard.js:66-104 | the counters of bans and of blocked requests are the numbers of such answers |
| AuthFailureAnswers.DescribesBans | manager-core/auth-failure-guard.js:116-135 | a report names exactly the clients whose last ban has not ended, with those counters |
| AuthFailureAnswers.EvictsIffTooMany | manager-core/auth-failure-guard.js:55-90 | only a failure evicts, and if and only if it leaves more clients banned or with failures that count than the cap |
| AuthFailureGuard.FailureGuard.PruneEntries | manager-core/auth-failure-guard.js:50-64 | the new state and the answer are those of the specification (loops over inactive and excess entries) |
| AuthFailureGuard.FailureGuard.CheckClient | manager-core/auth-failure-guard.js:66-75 | the new state and the answer are those of the specification (checks a client) |
| AuthFailureGuard.FailureGuard.RecordFailure | manager-core/auth-failure-guard.js:77-104 | the new state and the answer are those of the specification (records a failure) |
| AuthFailureGuard.FailureGuard.ClearClient | manager-core/auth-failure-guard.js:106-108 | the new state and the answer are those of the specification (clears a client) |
| AuthFailureGuard.FailureGuard.DescribeGuard | manager-core/auth-failure-guard.js:116-135 | the new state and the answer are those of the specification (prunes and reports) |
| TokenEstimate.EstimateTokenCount | manager-core/claude-compression.js:15-54 | the loop computes the weighed counts of the whole text |
| TokenEstimate.WordsAreRuns | manager-core/claude-compression.js:31-40 | the words counted are the maximal runs of word characters |
| TokenAnswers.Classes | manager-core/claude-compression.js:15-30 | the character classes are the ideographs, the ASCII letters and digits, and the word characters with `_ . / : -` |
| TokenAnswers.CountsAreWhere | manager-core/claude-compression.js:15-54 | the counts are the numbers of ideographs and of other printing characters |
| TokenAnswers.RunsAreCounted | manager-core/claude-compression.js:31-40 | the words are as many as the places where a run of word characters begins |
| TokenAnswers.EstimateIsWeight | manager-core/claude-compression.js:15-54 | the estimate is 0.9 for an ideograph, 1.3 for a word and 0.35 for another printing character, rounded up, and at least 1 for a text that is not empty |
| TokenEstimate.EstimateGrows | manager-core/claude-compression.js:15-54 | a prefix is never estimated higher than the whole |
| TokenEstimate.ClipLength | manager-core/claude-compression.js:453-462 | the binary search ends at the longest prefix within the budget |
| MessageSplit.SelectRecent | manager-core/claude-compression.js:99-109 | the loop selects a suffix: at least four messages if there are as many, and not more than four over the budget, and no longer one would do |
| MessageSplit.RecentFromUnique | manager-core/claude-compression.js:99-109 | those conditions leave one suffix only |
| MessageSplit.SplitIsPartition | manager-core/claude-compression.js:111-113 | kept and summarised messages together are all messages |
| MessageSplit.SelectInOrder | manager-core/claude-compression.js:111-113 | each list holds its messages in their original order |
| MessageSplit.EveryPosition | manager-core/claude-compression.js:111-113 | each list holds every message that belongs to it |
| MessageSplit.SelectEnds | manager-core/claude-compression.js:104-111 | the kept list ends with the whole selected suffix |
| MessageSplit.KeptWholeIff | manager-core/claude-compression.js:99-133 | tool pairs are kept whole under every budget if and only if the chains of the conversation hold: whenever a message pairs with an earlier one that pairs with another earlier one, that other one pairs with a message as late, or with one that is always kept |
| MessageSplit.SelectedByTotal | manager-core/claude-compression.js:99-109 | every suffix that holds the last four messages is selected by some budget |
| MessageSplit.OrderlyIsClosed | manager-core/claude-compression.js:116-133 | the chains hold, and tool pairs are kept whole wherever the split falls, when messages that ask for tools bring no results and results come in the next message |
| MessageSplit.ChainsHoldIsClosed | manager-core/claude-compression.js:99-133 | chains that hold are kept whole by the suffix of any one budget |
| MessageSplit.ChainIsTorn | manager-core/claude-compression.js:116-133 | a conversation in which a message brings one result and asks for the next tool can be split between a kept result and its call |
| MessageSplit.CollectNeeds | manager-core/claude-compression.js:117-126 | the loop collects the ids that the selected messages bring and ask for |
| MessageSplit.IsNeeded | manager-core/claude-compression.js:127-132 | a message is added exactly when it asks for or brings a needed id |
| MessageSplit.ExpandToolPairs | manager-core/claude-compression.js:116-133 | the selection grows by exactly the messages that pair with a selected one |
| MessageSplit.SplitMessages | manager-core/claude-compression.js:99-114 | the whole split: the suffix and its partners are kept, in order, and everything else is summarised |

## Left out

- Floating point: megabytes, fractions and weights are reals and integers, and a parameter count or an aligned size past 2^53 is not rounded.
- AdmissionLock.MutualExclusion: assumes what the source assumes, that tokens are unique and that the liveness probe never calls a live process dead; reading the owner file is one step.
- AdmissionRecovery.TakesOverOrphan: heartbeats, retry delays and timeouts are left out, since safety must not depend on them; that a release and a recovery succeed is stated for runs in which their calls do.
- AdmissionSerial.FileIsSequential: the lease file is replaced in one step, as by a rename; the copy that follows many refused renames is left out.
- AdmissionLedger.NoOvercommit: the keys of the GPUs in the telemetry are taken to be distinct, as device indices are.
- AdmissionPreview.SuggestedFraction: for a request that is sized by one fraction alone, on GPUs that report their total memory.
- Normalising telemetry, policies and lease files, message texts, knob lists and rounding for display are left out; so are failures to read the policy or the lease file.
- AdmissionAnswers.GrantedLease: the instance and container names of a lease are not shortened to their column lengths.
- ContainerReplacement.RefusedPrepareRestores: one refused command; when the restart of a stopped container is refused too, it stays stopped, as in the source.
- Sweeping stale backup containers, event callbacks and name sanitising are left out.
- The byte framing of the translated stream is left out: deltas are given. Its line-end replacement works on each chunk by itself and depends on the chunking.
- ClaudeRefinement.LateToolReadsOneShot: JSON parsing and printing are a codec whose parsed values print back, which leaves out a number too large for a double.
- UTF-8 decoding is a function; generated ids are marked as such and not compared.
- A client that disconnects ends the translation without further events; usage recording is left out.
- ClaudeRefinement.StreamRefinesOneShot: text before tool calls, and calls one after another with an id and a name in the first fragment; what any other interleaving comes to is in ClaudeMessage.
- GgufContents.ReadsWritten: a number in the metadata is reported as its type, its bytes and their order; what JavaScript number or string that becomes is left out.
- GGUF errors are one failure without text; the order of keys in the result objects and a key named `__proto__` are left out; the whitelist is any predicate on keys.
- The file reader's own buffering is left out: it answers like a buffer that holds the whole file.
- GgufReader.ReadHead: the file does not change or shrink between reads.
- GgufTensors.SummarizeTensorBytes: warnings are the counts they are made from.
- GgufTensors.WeighHeader: which metadata values convert to a safe integer is a parameter.
- Splitting an event into data lines and reading usage from it are left out: the metering results are about the events that are handed on. Invalid chunks that disable the parser do not occur with text.
- Walking a delta for its texts is left out: the estimator is given channels, by number, and texts.
- RequestGate.ExecKeeps: each key keeps its settings during a run; what still holds when they differ is in RequestGateConservation, and what changes is OvertakesIff. A queue is a value of the map, so the sharing of one array between waiters is not modelled.
- Rejecting, timing out and answering over HTTP is left out; a grant is answered or closed later by a step of its own.
- AuthFailureGuard.RunRefines: times are natural numbers and do not decrease; the ban callback, reset and the masking of addresses are left out.
- TokenEstimate.ClipLength: the prefix search alone; the marker that is appended to a clipped text can push it past the budget.
- The estimate cache, the exact tokenizer and the texts of summaries are left out.
- The audit export lock, the billing queue, download jobs, gateway trust, health and benchmarks are left out: they promise less, or rest on code that is not here.
