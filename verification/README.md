# git-sync connector: verification model

A Dafny model of the connector that mirrors git repositories from an origin to a replica. It covers the
small mutex-protected state machines of `internal/gitsync` and the protocol they form together, and the
filter of credential parameters in `internal/plugin`. `dafny verify dfyconfig.toml` checks the whole project.

How it is built:

- Each locked section of the source is one atomic step. Code that updates fields is a class whose methods
  are proved equal to a function from the old state to the new one; what the source promises is then proved
  of those functions over every run (a sequence of states and steps of any length and any interleaving).
- Beside each step function stands what it means, in the fields or the text a caller sees and both ways round:
  when a claim is granted, which attempts a swap cancels, when a configuration is accepted, how long a
  repository waits, which mirror goes, which parameter is forwarded.
- Code that loops over buffers and slices is a method with a loop, proved against a specification of the
  whole input that does not mention the loop.
- Where the code does not meet what its comments promise, a lemma gives the input or run for which it
  fails and another says exactly when it holds.

The modules:

| module | of the source |
|---|---|
| Providers, ClientState, ClientRuns, ClientSafety, Client | the client lock: provider sets, claims, finishes, configurations, swaps, the origin probe |
| ClientSwaps, ClientEffects, ClaimGates | what a swap does to credentials, what each step does to the fields of a status, and claims together with the gates they ask |
| Slots, Manager, SyncSystem, SyncSystemSafety | the resizable semaphore, the manager, and both together with the client and its runners |
| Text, PushReport, PushBatch, PushStage | the push report readers, the splitting of a push, and the push stage as a refinement of one push |
| ProviderGates, GateRuns, Scheduler, SchedulerRuns | provider gates, the runs of what uses them, the scheduler, and its runs |
| MirrorTree, MirrorFates, MirrorGrace, MirrorRaces | mirror collection: one sweep and what becomes of each directory, a process of sweeps and configurations, and its races |
| Reloader | the live reload |
| Streams, AttributeLines | the two-ended and the capped buffer, the `.gitattributes` scan and the grammar of its lines |
| QueryFilter, QueryParams | the raw-query filter, and what it does said of the raw text |
| Basics, Option, Sorting | what the others share: times, sequences without repetition, optional values, names in order |

Assumptions, each stated where it is used:

- Push: nobody else writes the replica between the plan and the last push. git holds no two refs one inside
  the other, and refuses of an explicit push what `PushBatch.Refused` says; a process that stops for any
  other reason may have done any part of its work.
- Gates: the scheduler's lock is held while a probe is being started. Where a poll must also be one step
  with respect to claims, the lemma says so (`ClaimsNeverExceedGrantsThatStood` names the exact condition).
  Probes are spaced under a constant interval and a clock that does not run backwards where the scheduler
  reads it under its lock; what claims read may be out of order. Requests are handled one after the other.
- Collection: `MirrorGrace` takes a sweep, and accepting a configuration, as one step each under a strictly
  increasing clock; `MirrorRaces` takes every step apart and needs neither.
- A provider store lists each name and each host once, as its loader checks.

Where code and comments disagree, the model follows the code:

- `claimMirror` is said to move a mirror while its repository is still not configured
  (internal/gitsync/gc.go:37-39). The client's lock is not held from the check to the move, so a
  configuration accepted in between can name it: `MirrorRaces.MovedWhileConfiguredIff`, which also says that
  no sync can start in between, so no data a sync uses is lost.
- `beginProbe` is said to be undone by what it returns (internal/gitsync/providergate.go:137-138). A claim
  does not take the scheduler's lock and can use the pass first; taking the probe back then revives an
  older pass: `GateRuns.ClaimInsideAPoll`.
- A deleted provider file is said to fail closed after the settle (internal/gitsync/reload.go:133-134).
  It shares its digest with a file that could not be opened; if that was reported as unusable before,
  polling never notices the deletion: `Reloader.DeletedAfterUnopenable`, with the exact condition in
  `Reloader.ConvergesIff`.

## Model

| member | source | states |
|---|---|---|
| Providers.BuildProviderSet | internal/gitsync/providers.go:41-63 | the loop over the listed providers gives the set, and the number of generations drawn, of one pass over the list in order: unlistable hosts skipped, an unchanged credential of the same name and host keeping its generation |
| Providers.BuildIsValid | internal/gitsync/providers.go:41-68 | from a sound previous set every build is sound: host index and names are inverse, no two providers share a generation, new generations lie above all earlier ones, and a provider kept from before has name, host and credential unchanged |
| Providers.BuildHoldsOnlyListed | internal/gitsync/providers.go:41-63 | nothing enters a set that is not listed: every name and every host of it is of a listed provider |
| Providers.BuildHoldsEveryListed | internal/gitsync/providers.go:41-63 | every listed provider with a usable host is in the set under its name and host, with its own entry |
| Providers.EqualSwapDrawsNothing | internal/gitsync/providers.go:41-97 | a replacement judged equal to the set in force draws no generation at all |
| Providers.GenerationKeptIff | internal/gitsync/providers.go:41-68 | a listed provider has a generation of before if and only if the previous set had that name with the same host, authentication, user name and token; it then is the one it had there |
| ClientSwaps.ListedIsInForce | internal/gitsync/providerswap.go:28-37 | after a swap the set in force holds each listed provider with its own base URL, authentication, user name, token and host and no other provider, and the epoch moves if and only if that was not so already |
| ClientSwaps.CancelsWhatChanged | internal/gitsync/providerswap.go:51-58 | in every run a running attempt is cancelled at a step if and only if that is a swap whose file no longer lists its provider with the same host, authentication, user name and token |
| ClientSwaps.CancelledUntilItEnds | internal/gitsync/attempts.go:14-27 | a cancelled attempt stays cancelled until it ends |
| ClientSwaps.BoundByHost | internal/gitsync/config.go:102-118 | in every reachable state a repository is matched if and only if a provider in force has its origin host, is then bound to that provider and generation and fetches from its own origin, and is otherwise bound to nothing |
| Client.Client.ClaimTask | internal/gitsync/attempts.go:56-106 | grants exactly if the repository is configured, matched, has a replica and is pinned, its provider is in step, no attempt is registered and the gate admits it; the task is the fields of the repository and its provider under the next number, and a refusal leaves the registry alone |
| ClaimGates.GrantedIff | internal/gitsync/attempts.go:56-106 | in every run of client and gates a claim is granted if and only if its repository is configured, has a replica, a provider in force for its host, is pinned and not running, and the gate of its credential, if there is one, finds its pass |
| ClaimGates.GrantedTask | internal/gitsync/attempts.go:76-105 | a granted task holds, field by field, what the repository and the provider in force for its host hold then, under the next number, and its attempt is the only change of the registry |
| ClaimGates.PassIsUsedUpIffGranted | internal/gitsync/attempts.go:97-102 | a refused claim uses up no pass and changes no registration; a granted one uses up the pass if its credential has a gate |
| ClaimGates.AttemptsNeverExceedPasses | internal/gitsync/attempts.go:97-102 | over every interleaving of claims, swaps, polls, requests and refusals, a repository starts no more attempts with a credential that has a gate than it was granted passes through it |
| Client.Client.EndAttempt | internal/gitsync/attempts.go:113-125 | ends exactly the attempt with the given number: a later attempt is left registered and untouched (stale), and whether the ended one had been superseded is reported |
| Client.Client.RecordOutcome | internal/gitsync/client.go:545-571 | keeps an outcome if and only if the attempt was not superseded, the repository is still bound as it was and the sync was not cancelled |
| Client.Client.FinishSync | internal/gitsync/client.go:532-571 | unregisters the attempt, clears the mark, and records result and run record exactly when the outcome is to be kept |
| ClientEffects.FinishChanges | internal/gitsync/client.go:532-571 | in every run a finish ends its own attempt and no other, clears the marks of the repository it is about, and leaves its result unless the outcome is of the present attempt, target and binding, not superseded and not cancelled |
| ClientEffects.RecordsChange | internal/gitsync/client.go:532-571 | under that condition, and no other, it changes one run record |
| ClientEffects.ResultShown | internal/gitsync/client.go:555-564 | the result shown is the outcome, but a success that could not decide its warnings keeps those of a success before it |
| ClientEffects.RecordShown | internal/gitsync/client.go:573-604 | the record of a kept outcome holds its start and end in whole seconds, its duration in milliseconds rounded toward zero and its push count; last success, newest commit and default branch stay from before, if of the same target, unless it has its own |
| Client.Client.StartAttempt | internal/gitsync/client.go:512-519 | notes the start only for the repository that still has this target |
| Client.Client.SetSyncing | internal/gitsync/client.go:497-507 | sets or clears the mark of a configured repository and nothing else |
| ClientEffects.MarksChange | internal/gitsync/client.go:497-519 | in every run a start is noted only on the repository with the target and binding of the task, a mark only on the one it names, and nothing else changes |
| Client.Client.RejectConfig | internal/gitsync/config.go:149-157 | a rejection changes nothing but the reported error |
| Client.Client.BuildRepos | internal/gitsync/config.go:222-256 | the loop over the received repositories stops at the first bad one with its reason, or lists every repository |
| ClientEffects.BuiltIff | internal/gitsync/config.go:222-256 | a list is built if and only if every id is valid and occurs once, and then gives exactly the listed repositories |
| ClientEffects.BadFor | internal/gitsync/config.go:222-236 | otherwise the first repository at fault gives the reason, an invalid id before a repeated one |
| Client.Client.Check | internal/gitsync/config.go:185-236 | every reason for which a configuration is refused, in order, none of them changing the client |
| ClientEffects.RejectedFor | internal/gitsync/config.go:185-221 | the reason of a refusal is the first check that fails, in the order of the source |
| Client.Client.ApplyConfig | internal/gitsync/config.go:176-295 | refused, the client changes only its reported error; accepted, repositories are bound to the providers in force and carry result, mark and start only from a repository of the same identity |
| ClientEffects.AcceptedIff | internal/gitsync/config.go:176-295 | a configuration is accepted if and only if the host is pinned, it decodes, lists at most 4096 repositories with valid ids once each and none on another host, and version and limits are usable; a refused one changes only the reported error |
| ClientEffects.RepositoryConfigured | internal/gitsync/config.go:238-279 | what an accepted message makes of a listed repository, in its fields: replica and push token only if both are usable, marks and result only from the same binding, origin and replica |
| ClientEffects.RecordSurvivesIff | internal/gitsync/config.go:297-316 | a record survives an accepted configuration if and only if its repository is listed with the target it was made against, or nothing is listed |
| Client.Client.ReconcileRuns | internal/gitsync/config.go:306-316 | drops exactly the records of another target and, if anything is listed, of repositories no longer listed |
| Client.Client.RebindAll | internal/gitsync/providerswap.go:39-50 | every repository is bound as the new set matches its host, and those worth syncing again at once are picked |
| ClientEffects.RepositoryRebound | internal/gitsync/providerswap.go:39-50 | a swap that changes the set derives binding, provider, origin and match anew, drops the last result if the binding changed, and leaves the rest; one that does not leaves every repository alone |
| ClientEffects.ResyncIff | internal/gitsync/providerswap.go:39-50 | resynced are exactly the repositories now matched with a binding they did not have, unless queued with nothing claimed |
| Client.Client.CancelSuperseded | internal/gitsync/providerswap.go:51-58 | flags and cancels, in place, exactly the attempts whose credential the new set no longer holds |
| Client.Client.ReplaceProviders | internal/gitsync/providerswap.go:35-65 | replacing the set rebinds, cancels, begins a new epoch and forgets the origin check, all in one section |
| Client.Client.SetProviders | internal/gitsync/providerswap.go:28-103 | an equal set changes nothing and cancels nobody; another one leaves the state of the swap step and names who to resync and who was stopped |
| Client.Client.MaybeProbe | internal/gitsync/originprobe.go:32-70 | a probe starts only when connected, with providers, alone, and nine tenths of the spacing after the last one (a clock that stepped back counts as due) |
| ClientEffects.ProbeBeginsIff | internal/gitsync/originprobe.go:32-70 | in every run a probe begins if and only if connected, with providers, alone, and 270 seconds after the last one began, or 27 before any configuration was accepted, or if the clock went back |
| Client.Client.FinishProbe | internal/gitsync/originprobe.go:88-102 | the result is kept only if the connection and the providers are those the probe began with; otherwise it is discarded |
| Client.Client.LeaveProbe | internal/gitsync/originprobe.go:72-107 | a discarded probe gives its turn back unless another took it |
| ClientEffects.ProbeReports | internal/gitsync/originprobe.go:84-107 | what a probe found is reported if and only if its connection is still there and its providers are in force; else it changes nothing and gives its turn back |
| ClientEffects.LastsIff | internal/gitsync/client.go:409-417 | a connection is still there if and only if none was opened or closed since |
| ClientEffects.SwapForgetsCheck | internal/gitsync/providerswap.go:59-64 | a swap that changes the providers forgets the check, tells the running probe to stop and lets the next begin at once; any other leaves all that alone |
| ClientEffects.ProbesAreSpaced | internal/gitsync/originprobe.go:13-17 | two probes that begin one after the other are spaced, unless providers changed or the first was discarded in between, or the clock went back |
| Client.Client.InstallConfig | internal/gitsync/config.go:262-288 | installing binds each repository to the providers in force in the same section, replaces the whole set and brings the run records in line |
| Client.Client.OnConnected | internal/gitsync/client.go:409-417 | a new connection gets a new number, by which a probe of an older one is told apart |
| Client.Client.OnDisconnected | internal/gitsync/originprobe.go:43-46 | an ended connection stops probes and their results, and changes nothing else |
| ClientRuns.InvAlways | internal/gitsync/attempts.go:56-106 | claims, finishes, marks, configurations, swaps, connections and probes, in any order, keep the joint invariant of providers, repositories, attempts and records |
| ClientRuns.ClaimNeverOutOfStep | internal/gitsync/attempts.go:69-75 | in every reachable state the provider a repository is bound to is in the set in force with that generation: the defensive refusal of a claim cannot happen |
| ClientSafety.NoUnrevocableCredential | internal/gitsync/attempts.go:56-106 | in every reachable state a registered attempt was cancelled or holds the very credential now in force, and each repository is bound exactly as its host matches |
| ClientSafety.GenerationDenotesOneCredential | internal/gitsync/providers.go:41-68 | over all swaps, a generation in force at two moments stands for the same name, host and credential at both and was in force in between |
| ClientSafety.GenerationHasOneName | internal/gitsync/providers.go:14-17 | two bindings that ever hold one generation are the same binding |
| ClientSafety.ReplacedCredentialNeverCounts | internal/gitsync/attempts.go:31-34 | once a credential is replaced, no attempt claimed with it is ever kept, even if the same credential is restored |
| ClientSafety.ResultBelongsToItsTarget | internal/gitsync/client.go:532-571 | across reconfigurations and swaps a recorded result is the invalid-replica marker or was kept from an attempt with the present binding, origin and replica |
| ClientSafety.KeptUsedTheCredentialInForce | internal/gitsync/client.go:532-571 | an outcome that is kept is of the present target and was made with the credential in force at that moment |
| ClientSafety.WarningsWereReported | internal/gitsync/client.go:555-564 | warnings carried over by an undecided success were reported by a kept attempt at the same target under the same credential |
| ClientSafety.RecordIsFold | internal/gitsync/client.go:577-604 | each run record is the fold of the recording step over exactly the outcomes kept since it was loaded or created, in order |
| ClientSafety.RecordsAreOfConfiguredTargets | internal/gitsync/config.go:306-316 | while anything is configured, every record is of a listed repository with that origin and replica |
| ClientSafety.LastSuccessMovesOnSuccess | internal/gitsync/client.go:577-604 | the last-success time moves only on a kept success, to its end in whole seconds |
| ClientSafety.OriginCheckIsOfTheProvidersInForce | internal/gitsync/originprobe.go:88-102 | a reported origin check came from a probe that began with the very set now in force; a probe of another set is cancelled |
| ClientSafety.EpochNamesOneSet | internal/gitsync/providerswap.go:30-37 | an epoch number stands for one provider set for the whole run |
| ClientSafety.CancelledRepositoriesResync | internal/gitsync/providerswap.go:39-86 | a repository whose attempt a swap stops is resynced with the new credential or is no longer bound |
| Slots.SlotPool.GrantLocked | internal/gitsync/slots.go:84-95 | serves the oldest waiters, as many as there is room for, and no other |
| Slots.SlotPool.TryAcquire | internal/gitsync/slots.go:30-40 | a slot at once only if nobody waits and there is room; otherwise the last place in the queue |
| Slots.SlotPool.Abandon | internal/gitsync/slots.go:56-65 | a waiter that gives up leaves the queue, or hands on the slot it was granted meanwhile |
| Slots.SlotPool.Release | internal/gitsync/slots.go:68-73 | frees one slot and serves who waits |
| Slots.SlotPool.Resize | internal/gitsync/slots.go:76-81 | the limit becomes at least one, and what it makes room for is served |
| Slots.LimitIsTheLast | internal/gitsync/slots.go:76-81 | over every sequence of operations the capacity is that of the last resize, or one |
| Slots.SlotsAccountedAlways | internal/gitsync/slots.go:30-95 | over every sequence of operations the slots held are the holders plus the granted who have not woken, and somebody waits only while the pool is full |
| Slots.OpMovesOnlyItsOwn | internal/gitsync/slots.go:30-95 | an operation changes nobody else: holders hold and waiters wait, granted or not |
| Slots.GrantsFollowArrival | internal/gitsync/slots.go:84-95 | while a waiter stays queued nobody that queued behind it gets a slot |
| Slots.GrantsStayWithinLimit | internal/gitsync/slots.go:84-95 | whenever somebody gains a slot no more are held than the limit |
| Slots.OnlyTheHolderLosesASlot | internal/gitsync/slots.go:76-81 | a slot is lost only by its own release or abandoning: shrinking revokes nothing |
| Manager.SyncManager.Launch | internal/gitsync/manager.go:119-137 | starts a run only if none is in flight, otherwise leaves a rerun mark if asked; a new idle channel is made when the first run starts |
| Manager.SyncManager.Settle | internal/gitsync/manager.go:148-163 | another pass follows just when one is marked and the context lives; otherwise the repository leaves the set |
| Manager.SyncManager.RemoveInflight | internal/gitsync/manager.go:222-227 | the idle channel is closed when the last run leaves, and was open before |
| SyncSystemSafety.SystemInvAlways | internal/gitsync/manager.go:93-205 | every interleaving of runners, triggers, configurations and swaps keeps the joint invariant of manager, pool, client and program counters |
| SyncSystemSafety.NeverTwoRunners | internal/gitsync/manager.go:119-163 | no repository ever has two runners, and every runner is counted in flight |
| SyncSystemSafety.ClaimRefusalsAreDead | internal/gitsync/attempts.go:69-96 | wherever a runner reaches its claim, the provider is in step and no attempt is running: both defensive refusals are unreachable |
| SyncSystemSafety.FinisherIsNeverStale | internal/gitsync/attempts.go:113-125 | a finishing runner always finds its own attempt registered, never a later one |
| SyncSystemSafety.AttemptsHoldSlots | internal/gitsync/manager.go:167-205 | each registered attempt belongs to the one runner of its repository, which holds a slot |
| SyncSystemSafety.NoTriggerIsLost | internal/gitsync/manager.go:148-163 | a runner exits only with no trigger of its repository unserved, or because its context ended |
| SyncSystemSafety.OwedIsTriggeredSince | internal/gitsync/manager.go:119-137 | explains "unserved" in the row above: on the list at a trigger, off it only when the runner reaches its claim or ends |
| SyncSystemSafety.BurstsFoldIntoOneRerun | internal/gitsync/manager.go:119-163 | however many triggers arrive, at most two passes begin after the last one and nothing stays marked after the second |
| SyncSystemSafety.IdleIsSignalledOnce | internal/gitsync/manager.go:222-246 | the idle channel is closed exactly when nothing runs, and every close is of an open one |
| SyncSystemSafety.TriggerStartsOrMarks | internal/gitsync/manager.go:119-137 | in every run a trigger starts a runner if and only if its repository has none, and otherwise marks a rerun exactly if it asks for one |
| SyncSystemSafety.PassFollowsIff | internal/gitsync/manager.go:148-163 | in every run a runner goes on after a pass if and only if a rerun was marked and its context lives; the mark is gone either way |
| SyncSystemSafety.SlotsFollowLimits | internal/gitsync/config.go:280-284 | once a configuration was accepted there are as many slots as the last accepted one asks for, at least one |
| Text.LinesAreTheText | internal/gitsync/pushbatch.go:217-230 | the lines a reader is measured against are the text: joined they give it back and none holds a newline |
| PushReport.PushPlan.Write | internal/gitsync/pushbatch.go:217-230 | after any writes the plan so far is that of the whole text so far, however it was cut into chunks; an over-long line is noticed wherever it was cut |
| PushReport.PushPlan.EndLine | internal/gitsync/pushbatch.go:232-289 | one line is taken in exactly as its whole text asks, though only its bounded start was kept |
| PushReport.PushPlan.Unusable | internal/gitsync/pushbatch.go:303-306 | the plan and whether it may be used depend only on the concatenation of the writes, a last line without newline included |
| PushReport.PushCounter.Write | internal/gitsync/syncstats.go:61-89 | the automaton is in the state of the whole text so far, whatever the chunks |
| PushReport.PushCounter.EndLine | internal/gitsync/syncstats.go:92-103 | counts a completed line by its first two bytes and resets for the next |
| PushReport.PushCounter.RetainRejection | internal/gitsync/syncstats.go:108-117 | appends the placeholder row of a rejected line if the bound allows it whole |
| PushReport.PushCounter.Settle | internal/gitsync/syncstats.go:120-131 | the counts of changed and rejected refs and the rejection text are functions of the concatenated text; the counter can go on to another push |
| PushReport.SharedCounterAddsUp | internal/gitsync/syncstats.go:45-50 | settled in between, a counter shared by two pushes counts the sum of what each changed |
| PushReport.UsablePlanIsCounted | internal/gitsync/pushbatch.go:197-289 | over any text, if the plan is usable its creates and updates plus its deletes equal what the counter counts on the same text |
| PushReport.PlanNamesAreValid | internal/gitsync/pushbatch.go:308-327 | no untrusted name gets through: all names of a plan may stand in a refspec, and what is retained is within the bound |
| PushReport.UsableIff | internal/gitsync/pushbatch.go:197-306 | a plan fails closed: over any text it is usable if and only if every line with a flag of the plan is short enough and names one safe ref, mapped to itself or deleted, and the names kept stay within 64 MiB |
| PushReport.NamedIff | internal/gitsync/pushbatch.go:232-271 | a line of the plan is read as a name just when it is of bounded length and says exactly that name, and the name is a branch or tag of bounded length without a forbidden byte |
| PushReport.RejectedIff | internal/gitsync/syncstats.go:92-103 | a push counts as rejected if and only if some line of its report has the flag of a refusal |
| PushReport.ChangesAreLines | internal/gitsync/syncstats.go:92-103 | the count of changed refs is the number of lines with the flag of a created, updated, forced or deleted ref |
| PushReport.RowIs | internal/gitsync/syncstats.go:105-117 | of a refused ref only the reason is kept, cut at 1024 bytes and without its carriage return, never a name |
| PushReport.ReasonsAreKept | internal/gitsync/syncstats.go:105-117 | the reasons kept stay within 8 KiB, and are all of them if they fit |
| PushReport.ShadowIff | internal/gitsync/pushbatch.go:293-301 | the names kept as shadows are those of a branch or tag whose own name begins with refs/ |
| PushReport.ReportIsReadBack | internal/gitsync/pushbatch.go:197-289 | reading a report back gives exactly what it reported, entry by entry |
| PushBatch.SplitConflicts | internal/gitsync/pushbatch.go:342-375 | the loops over bytes and prefixes split the refs, in order, by whether one is too long, shadowed, or above or below a ref to delete |
| PushBatch.Conflicts | internal/gitsync/pushbatch.go:353-373 | the checks of one ref against deleted names, their directories and the shadows decide exactly that |
| PushBatch.ChosenInOrder | internal/gitsync/pushbatch.go:353-375 | free and held refs are those that qualify, each where it stood among the others |
| Basics.FilterInOrder | internal/gitsync/pushbatch.go:353-375 | what the rows on order mean by it: the places kept are exactly those that qualify, from the left |
| PushBatch.PartitionBatches | internal/gitsync/pushbatch.go:379-396 | the batches are the refs in order, none lost or repeated, each within both bounds or a single ref, each as long as the bounds allow; the buffer reused in place never reaches a batch already cut |
| PushBatch.OneWayToCut | internal/gitsync/pushbatch.go:379-396 | those properties leave exactly one way to cut |
| PushBatch.CostIsText | internal/gitsync/pushbatch.go:379-396 | the cost that bounds a batch is the length of its refspecs as text, a separator after each |
| PushStage.PlanPush | internal/gitsync/pushbatch.go:168-195 | there is a plan only if git ran to its end, refused nothing and every status line could be read, and then it is the one the whole report states, its names sorted, however the report was cut into writes |
| PushStage.PlannedIff | internal/gitsync/pushbatch.go:168-195 | over any text there is a plan if and only if git ran to its end in time, no line is that of a refused ref and the report is usable; else planning is pending only if its context ended |
| PushStage.RunStage | internal/gitsync/pushbatch.go:65-98 | batches run in order and stop at the first that fails; the last push prunes; a plan that cannot be made pushes nothing |
| PushStage.BatchedWhen | internal/gitsync/pushbatch.go:75-98 | with a limit, statistics and too many or uncountable refs, a plan that writes more than the limit is cut: its free refs in order, at most the limit each and within the argument bound; in every other case there is no batch, and a plan that is missing when due changes no ref |
| PushStage.BatchedIffMoreThanABatch | internal/gitsync/pushbatch.go:75-111 | a stage that can plan is batched if and only if more refs are to be created or updated than a batch may hold, whether the refs could be counted or not |
| PushStage.StoppedByTheFirst | internal/gitsync/pushbatch.go:127-166 | a stage that a process stops ends as the first such process does: pending if cancelled, failed if not |
| PushStage.FreeIffNeverRefused | internal/gitsync/pushbatch.go:329-341 | the split is exact: of the refs short enough to list, those put in batches are just those that git accepts in every intermediate state, those held back just those it refuses in every one |
| PushStage.InterimIsStorable | internal/gitsync/pushbatch.go:14-33 | whatever part of the batched refs was sent, no two refs of the replica are in a directory/file conflict |
| PushStage.NoBatchIsRefused | internal/gitsync/pushbatch.go:80-98 | no batch holds a ref that git would refuse where it is sent, and every batch fits the argument bound |
| PushStage.StageRefinesOnePush | internal/gitsync/pushbatch.go:65-98 | a stage succeeds just when no process stops, and then replica and count are those of the one push that prunes |
| PushStage.NothingDeletedBeforeTheLastPush | internal/gitsync/pushbatch.go:14-33 | stopped before the last push, in whatever way, nothing was deleted and every ref has its old value or the mirror's |
| PushStage.NotPlanningChangesNothing | internal/gitsync/pushbatch.go:100-111 | a mirror that fits one batch would not have been batched had it been planned |
| PushStage.ReportGivesThePlan | internal/gitsync/pushbatch.go:170-195 | a report of every ref of either side is read as exactly the plan of the push, and refused just when the names to keep outgrow the bound |
| PushStage.AnyOrderWillDo | internal/gitsync/pushbatch.go:192-193 | sorting the names of a plan leaves it the plan of the same push |
| PushStage.ReportIsCounted | internal/gitsync/syncstats.go:38-49 | reading the report of a push with the counter gives the number of refs that differed among those the push is about, and no rejection |
| PushStage.TallyIsReported | internal/gitsync/pushbatch.go:65-98 | so the tally of each batch, and of the last push, is what the counter reads in its report |
| PushStage.StageFromReport | internal/gitsync/pushbatch.go:65-98 | from the text git reports of the planned push to the replica: the stage succeeds just when no process stops and the plan it asked for, if any, could be made, and then replica and count are those of the one push that prunes; if a batch stops, nothing is lost |
| ProviderGates.ProviderGates.Arm | internal/gitsync/providergate.go:109-122 | a refusal closes the gate from now for the tier, never adding up; an unbound repository has no gate |
| ProviderGates.ProviderGates.Succeeded | internal/gitsync/providergate.go:125-135 | only a sync that began after the refusal opens the gate, and then its passes go too |
| ProviderGates.ProviderGates.Begin | internal/gitsync/providergate.go:139-162 | grants the pass, moves the gate on, and says what taking it back needs |
| ProviderGates.ProviderGates.TakeBackProbe | internal/gitsync/providergate.go:150-161 | restores the end only if nobody moved it since, and the pass that was there |
| ProviderGates.ProviderGates.AdmitManual | internal/gitsync/providergate.go:166-178 | a closed gate grants one pass unless the last was less than the gap ago |
| ProviderGates.ProviderGates.Claim | internal/gitsync/providergate.go:184-199 | through a gate only with a pass for that credential, which is used up |
| ProviderGates.ProviderGates.DropPass | internal/gitsync/providergate.go:202-206 | one repository's pass goes, nothing else |
| ProviderGates.ProviderGates.Retain | internal/gitsync/providergate.go:218-239 | keeps exactly the gates in use, the passes through them of listed repositories, and those repositories' marks |
| ProviderGates.TakingBackAtOnceRestores | internal/gitsync/providergate.go:137-162 | beginning a probe and taking it back at once leaves no trace |
| GateRuns.PassesAlwaysNameGates | internal/gitsync/providergate.go:109-239 | whatever interleaves, every outstanding pass names an existing gate |
| GateRuns.StepOfGate | internal/gitsync/providergate.go:109-239 | a gate is there after a refusal and until disuse or a success begun after it; until when it is closed is set by refusals, by probes begun and taken back, and by the claim that passes once it elapsed, and by nothing else |
| GateRuns.StepOfPass | internal/gitsync/providergate.go:139-239 | a pass comes with a probe or a request let in, goes with its claim, its gate, its repository or when dropped, and is restored when a probe is taken back |
| GateRuns.StepOfMark | internal/gitsync/providergate.go:164-178 | the time of the last request let in moves only with a request let in, and goes with its repository |
| GateRuns.ClaimsNeverExceedGrants | internal/gitsync/providergate.go:184-199 | over any run a repository claims through a gate no more often than it was granted a pass through it |
| GateRuns.ClaimsNeverExceedGrantsThatStood | internal/gitsync/providergate.go:139-199 | not counting grants taken back either, provided each probe taken back still has its pass |
| GateRuns.TakesAPassAwayIff | internal/gitsync/providergate.go:150-161 | taking a probe back removes a pass if and only if the probe's own pass is still there |
| GateRuns.OneStepKeepsThePass | internal/gitsync/scheduler.go:216-283 | with a poll as one step it always is |
| GateRuns.ClaimInsideAPoll | internal/gitsync/providergate.go:184-199 | it fails otherwise: a run in which a claim slips into a poll, two claims get through and one of two grants was taken back |
| GateRuns.ProbesAreSpaced | internal/gitsync/scheduler.go:228-265 | within one life of a gate two probes, the first of which starts, are at least one interval apart by the polls' clock, though looking at the gate and beginning the probe are steps apart and claims with any clock come in between |
| GateRuns.ManualPassesAreSpaced | internal/gitsync/providergate.go:164-178 | the passes granted to requests for a repository that stays configured are at least the gap apart, requests being handled one after the other |
| GateRuns.GateOpensOnlyOnProof | internal/gitsync/providergate.go:16-24 | over any run a gate goes only when its credential is out of use, or on a success that began after every refusal of that credential; no pass through it is left |
| GateRuns.SuccessOpensIff | internal/gitsync/providergate.go:125-135 | over any run a success opens its gate if and only if its sync began after every refusal of the credential so far |
| Scheduler.BackoffFloor | internal/gitsync/scheduler.go:400-410 | the doubling loop gives max(interval, min(interval*2^(failures-1), cap)), or max(interval, cap) for credential errors, for any number of failures and without leaving the range of a 64-bit duration |
| Scheduler.FloorDoubles | internal/gitsync/scheduler.go:397-410 | the backoff of one failure is the interval and each further one doubles it up to an hour; the three credential errors wait an hour from the first; an interval beyond an hour stays |
| Scheduler.DelayBounds | internal/gitsync/scheduler.go:384-395 | every delay is at least nine tenths of the interval; after failures it is from the floor to a fifth above, first runs are staggered by at most two minutes |
| Scheduler.EveryDelayIsDrawn | internal/gitsync/scheduler.go:384-395 | the jitter is real: every delay within the spread is that of some draw |
| Scheduler.MoreFailuresWaitNoLess | internal/gitsync/scheduler.go:397-410 | the floor never falls with more failures and never exceeds the interval or the cap |
| Scheduler.DispatchHoldsBack | internal/gitsync/scheduler.go:270-283 | a dispatched repository is not due again for nine tenths of the interval, or its backoff |
| Scheduler.Scheduler.Reconcile | internal/gitsync/scheduler.go:147-171 | entries of an unchanged target stay as they are, others start fresh, the rest go; gates of unused credentials go |
| Scheduler.Scheduler.RecordCompletion | internal/gitsync/scheduler.go:176-211 | a cancelled sync or one of another target changes nothing; a success resets, a failure counts, a refused credential closes its gate |
| SchedulerRuns.FailuresAreCounted | internal/gitsync/scheduler.go:173-211 | over any run of completions, ticks and reconciliations, while a target stays scheduled its failure count is the number of its failed syncs since it was new or succeeded; cancelled syncs and those of others do not count |
| SchedulerRuns.LastErrorIsKept | internal/gitsync/scheduler.go:188-195 | the error it waits for is that of the last of those failures |
| SchedulerRuns.StaggeredWhileNew | internal/gitsync/scheduler.go:205-209 | the wide spread lasts from configuration until a second sync has ended or one has failed |
| SchedulerRuns.DelayAfter | internal/gitsync/scheduler.go:377-395 | the wait from what happened: after n failures in a row the backoff of n with the last error and up to a fifth; else of a new target the interval and up to two minutes, and later the interval give or take a tenth |
| SchedulerRuns.MeasuredFrom | internal/gitsync/scheduler.go:205-211 | it is measured from the last of: the target being new, a counted completion, a start by a tick |
| SchedulerRuns.NextRunWaits | internal/gitsync/scheduler.go:216-283 | a tick starts a sync no sooner than that wait after that moment |
| SchedulerRuns.ComesDue | internal/gitsync/scheduler.go:223-239 | a tick looks at exactly the repositories whose wait is over; the first one after a suspension puts those off for less than two minutes and leaves the others alone |
| SchedulerRuns.ScheduledAreWanted | internal/gitsync/scheduler.go:144-161 | what is scheduled is what the last reconciliation wanted, under the target it wanted |
| SchedulerRuns.StepOfDraw | internal/gitsync/scheduler.go:205-211 | the jitter is drawn anew just when the time it is added to moves, and a start ends a hold |
| Scheduler.Scheduler.DueIDs | internal/gitsync/scheduler.go:287-296 | exactly the due repositories, each once, sorted by name |
| Sorting.SortedIsSorted | internal/gitsync/scheduler.go:287-296 | the names come in byte order, a rearrangement of those given |
| Sorting.LeqIsByteOrder | internal/gitsync/scheduler.go:287-296 | byte order: one name comes before another if it is the start of it or smaller at the first byte that differs |
| Scheduler.Scheduler.Dispatch | internal/gitsync/scheduler.go:270-283 | a sync that was not started takes back what was granted for it and leaves its entry |
| Scheduler.Scheduler.Poll | internal/gitsync/scheduler.go:216-266 | suspended it changes nothing; otherwise tries, entries and gates are those of one tick over the due repositories, spread out first after a suspension |
| Scheduler.TickTriesOnlyDue | internal/gitsync/scheduler.go:230-266 | nothing is tried early or through a closed gate |
| Scheduler.TickTriesAllDue | internal/gitsync/scheduler.go:230-266 | every due repository is tried unless a probe of its credential started before it; of each credential at most one probe starts, and those with fewest failures are tried first |
| Scheduler.ByFailuresIsSorted | internal/gitsync/scheduler.go:251-253 | the candidates for a probe come in order of their failures |
| Scheduler.ByFailuresIsStable | internal/gitsync/scheduler.go:251-253 | of two with as many failures the one that came first stays first |
| Scheduler.ProbesAreGateSteps | internal/gitsync/scheduler.go:254-265 | the probes of a poll are legal steps of the gates, each gate looked at and its probe begun and settled before the next, so what holds of all runs of the gates holds of the scheduler |
| MirrorTree.Sweeper.SweepMirrors | internal/gitsync/gc.go:118-150 | before the clock floor or without a root nothing is touched or counted; otherwise tree and counts are those of clearing leftovers and then sweeping each listed mirror |
| MirrorTree.Sweeper.MirrorCandidates | internal/gitsync/gc.go:160-168 | only names of the mirror format are looked at |
| MirrorFates.MirrorNameIff | internal/gitsync/gc.go:71-72 | the mirror format: 64 lower-case hexadecimal digits and .git |
| MirrorFates.TombstoneIff | internal/gitsync/gc.go:73-74 | the name of a mirror set aside: that, a dot and 16 such digits |
| MirrorFates.CandidatesAre | internal/gitsync/gc.go:160-168 | looked at are exactly the listed names of that form, in the order listed |
| MirrorTree.Sweeper.SweepOne | internal/gitsync/gc.go:191-230 | one mirror is skipped, cleared, left, marked or retired as its verdict says, and counted accordingly |
| MirrorTree.Sweeper.RemoveDue | internal/gitsync/gc.go:233-257 | an unclaimed mirror stays; a claimed one is moved aside and removed, or stays in the trash if removal fails |
| MirrorTree.Sweeper.MoveToTrash | internal/gitsync/gc.go:261-288 | a mirror leaves its name only for a new tombstone in a real trash directory, identity unchanged; a trash directory that cannot be inspected or made leaves the tree as it was |
| MirrorTree.Sweeper.RecoverTombstones | internal/gitsync/gc.go:293-338 | only real directories with a tombstone's name leave the trash; if the trash directory itself cannot be inspected that is counted and nothing is touched |
| MirrorTree.Sweeper.WriteMarker | internal/gitsync/gc.go:369-411 | the mark becomes now, or stays and counts as failed |
| MirrorTree.Sweeper.ClearMarker | internal/gitsync/gc.go:414-428 | a configured mirror loses its mark, and that is counted if there was one |
| MirrorTree.DueMeans | internal/gitsync/gc.go:191-230 | explains the term "due" of the rows below: not configured, not busy, and a believable mark a whole grace period old with no configuration since that named it |
| MirrorTree.SweepIsOneByOne | internal/gitsync/gc.go:118-150 | what a sweep makes of a mirror is a function of the mirror as it was and of whether it could be moved when its turn came |
| MirrorTree.MoveDependsOnItself | internal/gitsync/gc.go:261-288 | whether a mirror can be moved does not depend on what else is swept: tombstones of different mirrors never collide; only a missing trash directory may have been made for an earlier one |
| MirrorTree.SweepTakesOnlyTheDue | internal/gitsync/gc.go:191-257 | over a whole sweep a mirror disappears only if it was due and claimed; otherwise it is the same directory, its mark unchanged, cleared or set to now; names not listed are untouched |
| MirrorFates.MirrorFate | internal/gitsync/gc.go:118-257 | over a whole sweep a mirror goes if and only if it is a real directory of no configured repository and no sync, with a believable mark a whole grace period old, may be claimed and can be moved; one without a good mark is marked now, a configured one loses its mark, every other keeps what it had |
| MirrorFates.LeftoverFate | internal/gitsync/gc.go:293-338 | of what an earlier sweep left, an entry goes if and only if the trash could be inspected and it is listed, is a real directory with the name of one set aside, and can be removed; foreign entries stay |
| MirrorFates.TrashAfterOne | internal/gitsync/gc.go:233-276 | sweeping a mirror adds to the trash at most that mirror, under its own name there, and only if it was moved and could not be removed |
| MirrorFates.TrashStays | internal/gitsync/gc.go:259-276 | sweeping mirrors takes nothing out of the trash |
| MirrorFates.CountedAs | internal/gitsync/gc.go:80-88 | each mirror is counted once, as what became of it, and one left alone not at all |
| MirrorFates.LeftoverCountedAs | internal/gitsync/gc.go:307-337 | each entry of the trash is counted by why it stays or that it went |
| MirrorTree.RemovalsAreCounted | internal/gitsync/gc.go:233-257 | explains the counter "removed": it rises only when the mirror is gone from root and trash alike |
| MirrorGrace.ConfiguredMarks.NoteConfigured | internal/gitsync/gc.go:501-507 | each named mirror is marked as configured now, the others keep their time |
| MirrorGrace.GraceHolds | internal/gitsync/gc.go:191-230 | over any process run, a mirror that is taken carries a mark at least the grace period old, is not configured or in flight, and no configuration accepted after the mark named it, however sweeps were paused |
| MirrorGrace.TakenIff | internal/gitsync/gc.go:118-257 | over any process run a sweep takes a listed mirror if and only if the last configuration was accepted and lists something, no critical update is pending, the clock is plausible, and the mirror is an unused directory of no configured repository whose mark is seven days old with no configuration since that named it, and can be moved |
| MirrorGrace.OrphanedThroughout | internal/gitsync/gc.go:551-577 | if this process wrote the mark, the repository was out of the configuration at every moment from mark to removal |
| MirrorRaces.InvAlways | internal/gitsync/gc.go:691-698 | with every lock and file operation its own step, each directory is in one place and a running sync works in the one under its name |
| MirrorRaces.MovedOnlyWhileIdle | internal/gitsync/gc.go:684-698 | a mirror is moved aside only while no sync of it is queued or running, and no sync works in that directory |
| MirrorRaces.NothingStartsWhileClaimed | internal/gitsync/gc.go:684-698 | from check to move no sync of the mirror is in flight and none can be launched |
| MirrorRaces.MovedIsNeverUsedAgain | internal/gitsync/gc.go:33-39 | a directory once moved aside is never again a mirror or the directory of a sync |
| MirrorRaces.RemovedIsInNobodysUse | internal/gitsync/gc.go:293-338 | what is removed is in no sync's use and under no mirror's name |
| MirrorRaces.MovedWhileConfiguredIff | internal/gitsync/gc.go:586-602 | at the check the repository is not configured; at the move it is if and only if a configuration accepted in between names it, and even then no sync of it has started and none later works in the moved directory |
| MirrorRaces.MovedWhileConfigured | internal/gitsync/gc.go:684-698 | that does happen: a run in which the repository is configured again between check and move |
| Reloader.ReloaderLoop.OnTick | internal/gitsync/reload.go:208-214 | a tick looks only when no settle is due |
| Reloader.ReloaderLoop.OnSettle | internal/gitsync/reload.go:215-219 | a settle confirms and waits again only if the change moved on |
| Reloader.ReloaderLoop.OnHup | internal/gitsync/reload.go:220-225 | a SIGHUP drops what was pending and acts at once, a missing file excepted |
| Reloader.ReloaderLoop.Sight | internal/gitsync/reload.go:232-245 | a digest in force or remembered as bad starts nothing |
| Reloader.ReloaderLoop.Confirm | internal/gitsync/reload.go:248-269 | the second sighting cancels, refuses, starts over or decides |
| Reloader.ReloaderLoop.Force | internal/gitsync/reload.go:274-287 | an operator's request applies at once unless the file is missing or unchanged |
| Reloader.ReloaderLoop.Decide | internal/gitsync/reload.go:291-309 | what held is put in force, or remembered as unusable |
| Reloader.PendingIffArmed | internal/gitsync/reload.go:174-228 | in every reachable state a change is pending exactly when the settle timer runs |
| Reloader.AppliesWhatItRead | internal/gitsync/reload.go:291-309 | explains "applies" in the rows below, one step at a time: only what was just read and is usable, or a missing file; unusable content never changes what is in force |
| Reloader.LastReadIsTheLatest | internal/gitsync/reload.go:204-226 | explains "last read" in the row below: every event reads and is remembered, except a tick that finds a settle due |
| Reloader.AppliedOnlyAfterItHeld | internal/gitsync/reload.go:125-134 | without a SIGHUP a configuration is applied only when the last two reads saw the same digest |
| Reloader.AppliedIff | internal/gitsync/reload.go:174-309 | in every run looking applies nothing; a SIGHUP applies usable content that is not in force at once; a settle applies usable content, or a missing file, that the read before it saw too; nothing else changes what is in force |
| Reloader.AwaitsIff | internal/gitsync/reload.go:230-287 | a wait begins exactly with content not in force and not remembered as bad, at a look or a settle that sees other content, and at a SIGHUP that finds no file |
| Reloader.RememberedIs | internal/gitsync/reload.go:232-309 | unusable content is remembered when a settle or a SIGHUP decides on it, with what an undecided look saw; applying anything, or a look that finds what is in force, forgets both |
| Reloader.EmptyOnlyAfterASettle | internal/gitsync/reload.go:271-287 | the empty configuration is applied only by a settle whose file is missing and whose last two reads agree |
| Reloader.ConvergesIff | internal/gitsync/reload.go:174-309 | content that every read shows is in force after two reads, and its store (nothing for a missing file) handed to the client, if and only if its digest was in force, pending or not remembered as bad |
| Reloader.DeletedAfterUnopenable | internal/gitsync/configload.go:129-136 | the condition can fail: a file that could not be opened and is then deleted has the same digest, and the empty configuration is never applied |
| Reloader.LooseFileIsTakenUp | internal/gitsync/reload.go:248-269 | a file whose mode the look could not judge is in force after one tick and two settles |
| Reloader.RefusedLookIsNotRepeated | internal/gitsync/reload.go:252-260 | one that cannot be tightened is refused once and not looked at again |
| Streams.LimitedBuffer.Write | internal/gitsync/probe.go:271-288 | whatever the chunks, the head is the start and the tail the end of the text so far |
| Streams.LimitedBuffer.Bytes | internal/gitsync/probe.go:290-296 | the text if it fits, else its first max/2 bytes, the marker and its last max-max/2 bytes |
| Streams.BothEndsAre | internal/gitsync/probe.go:271-296 | what is kept is the whole text if it fits, and otherwise begins and ends as the text does with the marker in between |
| Streams.CappedBuffer.Write | internal/gitsync/lfs.go:158-166 | whatever the chunks, the first max bytes, and whether more came |
| Streams.AttributesScanner.Write | internal/gitsync/lfs.go:238-267 | the scan stands where one pass over the bytes inspected so far would stand |
| Streams.AttributesScanner.Found | internal/gitsync/lfs.go:278-283 | true if and only if, of the first mebibyte, some line short enough sets the filter; asking again changes nothing |
| AttributeLines.SetsLFSIff | internal/gitsync/lfs.go:224-283 | a file sets the filter if and only if some line within its first mebibyte, shorter than 2048 bytes, does; a byte order mark is left out on the very first only |
| Streams.AssignsLFSFilter | internal/gitsync/lfs.go:290-332 | true just when git reads the line, its pattern is not negative, every attribute name is valid and one attribute is the filter |
| AttributeLines.AssignsIff | internal/gitsync/lfs.go:285-332 | a line sets the filter if and only if after blanks it is a pattern, plain or quoted, that is not negative, every run of what follows is a well-formed attribute and one is filter=lfs |
| AttributeLines.PlainIff | internal/gitsync/lfs.go:307-311 | a plain pattern is what stands before the first blank, unless it begins with #; a line without a blank is none |
| AttributeLines.QuotedIff | internal/gitsync/lfs.go:300-306 | a quoted pattern is a row of plain bytes and escaped ones between two quotes, and what follows is the attributes |
| AttributeLines.FieldsAreRuns | internal/gitsync/lfs.go:317-317 | the attributes are the runs without a blank between blanks or the ends |
| AttributeLines.NamedWell | internal/gitsync/lfs.go:318-326 | an attribute is well formed if it is a name, one with a mark before it, or one with an equals sign and anything after it |
| Streams.ClosingQuote | internal/gitsync/lfs.go:336-346 | the first quote that no unescaped backslash precedes |
| QueryFilter.StripQueryParamsFromRaw | internal/plugin/handler.go:120-163 | the index loop returns what the filter over the parameters says: verbatim if nothing is to be stripped, else the others in order with their separators |
| QueryParams.GetsThroughIff | internal/plugin/handler.go:120-163 | on the raw text: with names to strip, a parameter, its name cut at the first equals sign, stands between separators of the result if and only if it stood so in the query, the name decodes, and its normal form is not to be stripped |
| QueryParams.ForwardedIff | internal/plugin/handler.go:88-223 | a parameter of a request is forwarded if and only if nothing is to be stripped, or its name decodes and is neither a configured name nor, where the local credential is applied, one of private_token, job_token, access_token and token |
| QueryParams.HasParamIff | internal/plugin/handler.go:111-119 | a parameter in the text is one of the pieces the query is cut into |
| QueryFilter.PiecesAreTheQuery | internal/plugin/handler.go:111-119 | the three facts that make the parameters the query: they give it back, no parameter holds a separator, and only the first has none before it |
| QueryFilter.WrittenOutIsTheQuery | internal/plugin/handler.go:111-119 | parameters and separators written out are the query again |
| QueryFilter.KeptAre | internal/plugin/handler.go:136-151 | exactly the non-empty parameters whose name decodes and is not to be stripped are kept |
| QueryFilter.KeptInOrder | internal/plugin/handler.go:136-151 | they stay in order, each as often as it stands in the query |
| QueryFilter.ReturnsTheKept | internal/plugin/handler.go:136-163 | the result, read again, consists of exactly those parameters, in order, each after the separator it had unless it comes first |
| QueryFilter.NothingStrippedSurvives | internal/plugin/handler.go:120-163 | no parameter of the result would be stripped |
| QueryFilter.FilteringIsIdempotent | internal/plugin/handler.go:120-163 | filtering twice is filtering once |
| QueryFilter.VerbatimIffNothingStripped | internal/plugin/handler.go:100-103 | the query is forwarded byte for byte if and only if it holds nothing to strip |
| QueryFilter.CanonicalIsFixedIff | internal/plugin/handler.go:179-190 | a normal form is its own normal form if and only if it holds nothing that decodes again |
| QueryParams.DecodesIff | internal/plugin/handler.go:166-182 | a name decodes just when two hexadecimal digits follow each percent sign in it |
| QueryParams.EscapesDoNotHide | internal/plugin/handler.go:165-190 | a byte written as an escape in either case, or a blank as a plus sign, is the same name |
| QueryParams.SameNameIff | internal/plugin/handler.go:183-190 | two plain names are one if and only if they agree letter by letter but for case, dots, blanks and underscores being one |
| QueryParams.LeadingBracketsDoNotHide | internal/plugin/handler.go:183-184 | brackets before a name, plain or escaped, are not part of it |
| QueryFilter.BracketsDoNotHide | internal/plugin/handler.go:165-178 | array syntax after a name, a bracket of either kind plain or percent-encoded, does not change its normal form |
| QueryFilter.QueryStripSet | internal/plugin/handler.go:201-223 | the normal forms of the configured names, with a credential, and the defaults, with a direct transport |
| QueryFilter.ConfiguredNamesMatch | internal/plugin/handler.go:192-200 | every spelling with the normal form of a configured name is stripped, and plain names have fixed normal forms |

## Left out

- git processes, their environments, timeouts and process groups: a push is an operation on maps of refs with a report, a sync only its outcome.
- The gateway connection, JSON decoding, signing, heartbeats and log text: a configuration arrives decoded.
- URL parsing and canonical hosts, regular expressions over stderr and time formats: a host key, an error type and a time are given.
- Files, permissions, atomic renames and digests: a read is a bundle with a digest, a mark an optional time, the run-state file the records it held. The digests of targets and of repository ids are taken to be one-to-one.
- Saving the run state (internal/gitsync/client.go:613-670): a flush in progress clears the dirty flag before it writes, so that the state is on disk when `Wait` returns is not claimed.
- "A syncing mark implies a sync in flight": the identity compared across configurations ignores the origin of unbound repositories (internal/gitsync/config.go:139-141), so a mark can be carried to another origin and stay.
- PushStage.PlanPush: learning the default branch after a failed plan is left out, as after any failed push.
- PushBatch.SplitConflicts: as the source says, a ref named `refs/refs/heads/x` on either side is not in a plan and would still make a shorter name ambiguous; the refs of a plan are branches and tags only.
- Scheduler.DelayBounds: jitter is a real number in [0, 1); rounding of floating point is not modelled.
- SyncSystem: fairness and real time. That a queued sync eventually runs is not claimed, only what holds when a runner exits.
- MirrorTree.Sweeper.WriteMarker: the temporary file and its rename are one step that succeeds or fails; a failure that has already removed an irregular mark leaves an unreadable mark in the model, and neither is believed.
- Streams.AttributesScanner.Found: parsing the `ls-tree` entry and the decision which branch to read are left out.
- QueryFilter.QueryStripSet: lower-casing is that of ASCII letters; the source folds all of Unicode.
- The newest-commit tracker, the symref reader and the aggregation of several probes into one result: small and of the same kind as readers that are modelled.
- The operator's commands, preflight, HTTP forwarding and TLS pools.
