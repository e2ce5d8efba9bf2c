# devcontainer-manager: a verified model of its control plane

The manager keeps four pieces of state in step with the outside world. This project models each of
them and proves what they promise over every input, every failure pattern and every interleaving.

* **File synchronization** (`SessionNames`, `Mutagen`, `SyncController`, `SyncTheorems`, `SyncRuns`,
  `SyncReports`, `SyncOutcomes`, `SyncOverlaps`).
  `Reconcile` drives Mutagen's sessions towards the configured ones. The daemon is a class whose
  calls may succeed, fail without effect or fail after taking effect; a `Weather` value holds those
  outcomes, the endpoint probes and the identifiers the daemon would mint. The methods (nested loops,
  listing, sweep in any order) are proved equal to a function over the flattened work list, and the
  theorems are about that function.
* **Summaries** (`SyncSummaries`). Sessions are folded, in place, into one summary per container.
* **Browser tokens** (`BrowserTokens`, `TokenTheorems`, `TokenAnswers`, `PairingSteps`, `PairingAgreement`).
  Pairing codes, the token cache and the store. `TokenAnswers` is about single requests and what follows them,
  `TokenTheorems` about sequential runs of whole requests, `PairingSteps` about requests cut at their lock
  boundaries and interleaved arbitrarily; undisturbed, the cut requests are the whole ones.
  `PairingAgreement` says what interleaving does to the agreement of cache and store.
* **The published snapshot** (`T3Status`, `Service`, `ServiceTheorems`). Overlapping reconciles and token
  refreshes write the same map; requests look environments up in it twice.
* **Spawning a stage** (`SpawnStage`, `SpawnTheorems`, `SpawnAnswers`). The command exchange with an arbitrary
  backend, one retry after a 401, and a refreshed token.
* **Configuration reload** (`ConfigWatch`). The file watcher's debounce.

`Model` holds the values they share. `dafny verify dfyconfig.toml` checks everything.

## Assumptions

They are the preconditions of the theorems, never of the modelled operations. Listed containers have
distinct identifiers and, for the daemon theorems, distinct short IDs. The daemon's identifiers are new
at every creation, non-empty, never a session's name and never begin with `dcm-`. Convergence also
assumes that no foreign session carries a wanted name and that calls with a target land; "the only
session of its name" assumes that it was so at the start; safety and survival assume nothing about calls
or uniqueness. Codes and tokens are random and hence never drawn twice; an environment's store key is
fixed and one-to-one. That restarts are invisible assumes that rows can be read and that saves do not
fail after writing. Spawn at most once, and the exact conditions for more, assume that the backend does
not act on a request it answers with 401.

## What is false, and exactly when it holds

* One reconcile does not reach the desired state from every start: the listing keeps one session per
  name, so of two orphans with one name only one is terminated (`TwinOrphans`). `NoOrphanSurvives` and `Converges` are
  equivalences with the absence of such orphans; `ConvergesEventually` says how many reconciles suffice.
* A `Save` that fails after writing leaves the cache behind the store: `HalfSaveAgreement` gives the
  exact condition, `FailedBootstrap` that under which another token's answer changes, `HalfSaveExample` a run in which a superseded token is granted. The sequential
  theorems therefore ask for saves that either take effect or fail cleanly.
* Interleaved, cache and store can come to disagree in two more ways, because the row is read, deleted
  and re-inserted outside the lock. A bootstrap can land before the re-insert of the token that was read
  (`InterleavingExample`: two live tokens for one environment), or before the deletion of the expired row
  that was read (`DeletionExample`: a live token without a row, which a restart refuses).
  `StepAgreement` gives the exact condition of every step, `AgreementInterleaved` that of whole runs,
  `OneLiveInterleaved` that of one live token per environment.
* Overlapping reconciles can create a session twice. `UniqueInterleaved` gives the exact condition for any
  interleaving on listings of any age, `OverlapUnique` for reconciles that listed the daemon in the same state,
  `OverlapExample` an instance, and `OverlapNeverHeals` shows that later reconciles keep both sessions. The
  theorems about runs are therefore about serial reconciles.
* A refreshed token can be lost to a reconcile in flight: `WrittenTokenSurvives` gives the exact
  condition, `LostTokenExample` a reachable instance.
* A backend that acts on a request it answers with 401 can apply a command twice: `AppliedTwice` says exactly when.
* The applied commands need not be a prefix of the plan: a backend can accept a command without acting on it
  (`GapExample`: thread and turn without their project). `SpawnExactly` gives the exact condition, and that
  under which success means that the whole plan was applied.
* A cached token is refused at the very instant it expires, a stored row is not. With a store the
  answer at that instant is a grant (`CacheRefinesStore`), without one a refusal (`MemoryOnlyExact`).

## Model

| member | source | states |
|---|---|---|
| `SessionNames.SessionNameInjective` | internal/syncx/controller.go:177-204 | a session name determines the short ID and the sync index, for every rule, path and digest |
| `SessionNames.DecimalRoundTrip` | internal/syncx/controller.go:179 | rendering an index writes digits only and loses nothing |
| `SessionNames.SessionNameReserved` | internal/syncx/controller.go:179 | every session name carries the manager's prefix |
| `SessionNames.SameNameSameDigest` | internal/syncx/controller.go:177-180 | at one place, two entries share a name exactly when the digests of container, rule, index and both paths agree |
| `Mutagen.Daemon.ListOwned` | internal/syncx/mutagen.go:88-118 | the listing has a key for every owned session and only truthful entries, whichever of several namesakes is kept |
| `Mutagen.Daemon.Create` | internal/syncx/mutagen.go:120-142 | a creation adds one owned running session under the new identifier exactly when it lands, reported as failed or not |
| `Mutagen.Daemon.Pause` | internal/syncx/mutagen.go:144-162 | pauses exactly the sessions selected by name or identifier, when it lands |
| `Mutagen.Daemon.Resume` | internal/syncx/mutagen.go:164-182 | resumes exactly the sessions selected, when it lands |
| `Mutagen.Daemon.Terminate` | internal/syncx/mutagen.go:184-202 | removes exactly the sessions selected, when it lands |
| `SyncController.Reconcile` | internal/syncx/controller.go:41-112 | sessions reported, daemon state reached and calls issued are those of the work list and the sweep, for every weather; disabled or unlistable means no call at all |
| `SyncController.ReconcileEntries` | internal/syncx/controller.go:59-99 | one container's entries are handled in order |
| `SyncController.ReconcileEntry` | internal/syncx/controller.go:62-98 | one entry causes at most one call and one reported session |
| `SyncController.Sweep` | internal/syncx/controller.go:101-110 | exactly the listed, unwanted sessions are terminated; the result does not depend on the iteration order |
| `SyncController.JobsAppended` | internal/syncx/controller.go:58-100 | the work on a list is the work on its parts in sequence |
| `SyncController.Untouched` | internal/syncx/controller.go:47-56 | without a listing the daemon is never called |
| `SyncController.ReportKeepsSlot` | internal/syncx/controller.go:62-98 | whatever happens, a reported session keeps its name, container and index |
| `SyncController.EndpointVerdict` | internal/syncx/controller.go:145-158 | endpoints are valid exactly when the container's end could be probed and exactly one kind of thing is found at the two ends |
| `SyncController.PullReverses` | internal/syncx/controller.go:114-143 | files flow between the manager's path and the container's URL, made of its user, identifier and path; "pull" exchanges the two ends, and the mode is not part of the name |
| `SyncTheorems.NamesAreDistinct` | internal/syncx/controller.go:58-64 | all desired names of containers with distinct short IDs differ, without any hash assumption |
| `SyncTheorems.SweepExact` | internal/syncx/controller.go:101-110 | a session disappears only if it is owned, unwanted and its own termination landed |
| `SyncTheorems.SafeUnderEveryFailure` | internal/syncx/controller.go:62-110 | for any mix of failed and half-applied calls: live and wanted sessions survive with their identifiers, only wanted new names appear, foreign sessions stay |
| `SyncTheorems.OwnedNamesBounded` | internal/syncx/controller.go:62-110 | (live and wanted) is within the owned names afterwards, which are within (live or wanted), whatever fails |
| `SyncTheorems.DriveLocal` | internal/syncx/controller.go:62-98 | the sessions of a wanted name are affected by their own entry only |
| `SyncTheorems.AfterLocal` | internal/syncx/controller.go:57-111 | the same for a whole reconcile, sweep included |
| `SyncTheorems.UniquenessKept` | internal/syncx/controller.go:85-98 | a reconcile never gives a name a second owned session |
| `SyncTheorems.NoOrphanSurvives` | internal/syncx/controller.go:101-110 | once terminations land, no orphan is left if and only if no two orphans shared a listed name |
| `SyncTheorems.TwinOrphans` | internal/syncx/mutagen.go:101-116 | two owned sessions of one unwanted name, of which one survives |
| `SyncTheorems.Converges` | internal/syncx/controller.go:57-111 | once calls land, the desired state is reached if and only if no two orphans shared a listed name; owned names are then exactly (live and wanted) or creatable; stopped paused, healthy unpaused, invalid endpoints unchanged |
| `SyncTheorems.SettledIsFixed` | internal/syncx/controller.go:85-110 | in the desired state a further reconcile, whatever fails in it, changes, creates and terminates nothing |
| `SyncRuns.RoundSafe` | internal/syncx/controller.go:41-112 | what every possible round keeps |
| `SyncRuns.IdentityKept` | internal/syncx/controller.go:62-110 | over every run in which an entry stays listed, its session keeps its identifier and stays the only one of its name |
| `SyncRuns.SessionKept` | internal/syncx/controller.go:62-110 | the same for every session of the entry, without assuming that it is the only one |
| `SyncRuns.ForeignersSurvive` | internal/syncx/controller.go:101-110 | sessions of others survive every run |
| `SyncRuns.SecondReconcile` | internal/syncx/controller.go:85-110 | the second reconcile reports the same names in the same order and leaves the daemon as it is |
| `SyncRuns.FixpointRun` | internal/syncx/controller.go:85-110 | so does every later one, under any failures |
| `SyncRuns.ConvergesThenRests` | internal/syncx/controller.go:41-112 | from any start in which no two orphans share a listed name, one landing reconcile reaches the desired state, and in any run after it nothing changes and only pauses and resumes are issued |
| `SyncRuns.ConvergesEventually` | internal/syncx/controller.go:41-112 | from every start, also with several orphans of one name, as many landing rounds as there are orphans, and at least one, reach the desired state |
| `SyncOverlaps.RoundPlayed` | internal/syncx/controller.go:41-112 | a reconcile is its events, one after the other, the sweep in any order |
| `SyncOverlaps.StaleListing` | internal/syncx/controller.go:85-98 | a job acting on an outdated listing keeps names unique if and only if it does not create what the daemon already has |
| `SyncOverlaps.UniqueInterleaved` | internal/app/service.go:84-86 | in every interleaving of any number of reconciles, however old their listings: names stay unique all along if and only if no creation is of a name the daemon owns by then |
| `SyncOverlaps.OverlapUnique` | internal/app/service.go:84-86 | reconciles that list the daemon in the same state, in every interleaving, sweeps included, keep names unique if and only if no two of them create the same name |
| `SyncOverlaps.OverlapDuplicates` | internal/app/service.go:84-86 | where two of them do, the daemon ends up with both sessions |
| `SyncOverlaps.OverlapNeverHeals` | internal/app/service.go:84-86 | no later run of reconciles removes such a duplicate while its entry stays listed |
| `SyncOverlaps.OverlapExample` | internal/app/service.go:84-86 | such an overlap is possible |
| `SyncReports.HealthyIsMirrored` | internal/syncx/controller.go:62-98 | a session reported as healthy is there afterwards, owned and unpaused; a reported identifier other than the name belongs to an owned session of that name |
| `SyncReports.ReadyMeansMirrored` | internal/app/service.go:364-390 | a container whose summary says "ready" has every one of its sync entries mirrored by a running session |
| `SyncOutcomes.EntryOutcome` | internal/syncx/controller.go:62-98 | on containers and probes: a landing reconcile pauses the sessions of a stopped container's entry, gives a usable entry of a running one an owned, unpaused session, and leaves an unusable one alone |
| `SyncOutcomes.ReportOutcome` | internal/syncx/controller.go:62-98 | every entry is reported, and the report says what was found: paused, unusable endpoints with their error, an unreachable daemon, the listed session's own status and identifier, or how the creation ended |
| `SyncOutcomes.HealthyExactly` | internal/syncx/mutagen.go:323-343 | when exactly an entry is reported as healthy: faulted, disconnected and paused sessions never are |
| `SyncSummaries.ApplySyncSummaries` | internal/app/service.go:364-390 | every container's summary is replaced in place by the fold of its sessions, nothing else changes |
| `SyncSummaries.FoldMeaning` | internal/app/service.go:370-387 | "ready" exactly when every own session is healthy, otherwise decided by the last unhealthy one; the error is the first one |
| `SyncSummaries.SummaryDisabled` | internal/app/service.go:365-369 | a container is summarised as disabled exactly when syncing is off or it has no sync entries |
| `SyncSummaries.OneSessionPerSlot` | internal/syncx/controller.go:58-99 | exactly one session per configured (container, sync index), in order, under any outcome |
| `SyncSummaries.SummaryCounts` | internal/app/service.go:364-389 | a container counts its configured entries, which are its reported sessions; the "idle" branch is dead |
| `SyncSummaries.SummaryTotal` | internal/app/service.go:364-389 | the counts add up to the number of sessions |
| `BrowserTokens.TokenStore.Save` | internal/t3/token_store.go:50-60 | an upsert of the key's only row, when it lands |
| `BrowserTokens.TokenStore.Delete` | internal/t3/token_store.go:77-80 | removes the key's row, when it lands |
| `BrowserTokens.Gateway.GeneratePairingCode` | internal/t3/gateway.go:154-161 | adds one code with its lifetime |
| `BrowserTokens.Gateway.HandleBootstrap` | internal/t3/gateway.go:286-317 | a live code of the environment is spent and one token minted, saved, and made the only cached one of that environment; a failed save spends the code and yields nothing |
| `BrowserTokens.Gateway.DeleteBrowserTokens` | internal/t3/gateway.go:361-367 | removes exactly one environment's tokens |
| `BrowserTokens.Gateway.AuthorizedWithStore` | internal/t3/gateway.go:327-359 | decision and new state of one authorization, cache first, row second, expired rows deleted |
| `TokenTheorems.AgreementKept` | internal/t3/gateway.go:286-367 | every request keeps each cached token equal to its row or expired |
| `TokenTheorems.AgreementOverRuns` | internal/t3/gateway.go:286-367 | so does every run, restarts included |
| `TokenTheorems.CacheRefinesStore` | internal/t3/gateway.go:327-359 | the answer is the row's answer; with an unreadable row only what the row would grant is granted |
| `TokenTheorems.HalfSaveAgreement` | internal/t3/gateway.go:303-310 | a save that fails after writing keeps the agreement if and only if the environment has no live cached token |
| `TokenTheorems.HalfSaveExample` | internal/t3/gateway.go:303-310 | a run in which it does not |
| `TokenTheorems.RestartInvisible` | internal/t3/gateway.go:333-358 | restarts anywhere in a run change no answer, outstanding codes excepted |
| `TokenTheorems.CacheIsInvisible` | internal/t3/gateway.go:333-358 | a gateway without a cache gives the same answers to every run |
| `TokenTheorems.MemoryOnlyKept` | internal/t3/gateway.go:293-310 | without a store the cache is the last token of every environment; other environments are not touched |
| `TokenTheorems.MemoryOnlyRuns` | internal/t3/gateway.go:293-342 | over every run and restart |
| `TokenTheorems.MemoryOnlyExact` | internal/t3/gateway.go:327-342 | exactly the last token is granted, strictly before its expiry, and it is the only one |
| `TokenAnswers.CodeLifetime` | internal/t3/gateway.go:154-161 | a code can be redeemed by its environment for 300 seconds; other codes are not touched |
| `TokenAnswers.BootstrapAnswer` | internal/t3/gateway.go:286-317 | a token is answered exactly when the code can be redeemed and no failing save stands in the way; the code is then spent in either case |
| `TokenAnswers.BootstrapGrants` | internal/t3/gateway.go:286-359 | the token answered is granted at once and for a day, whether or not the store can be read |
| `TokenAnswers.FailedBootstrap` | internal/t3/gateway.go:303-308 | without an answer the cache stays, and other tokens' answers change if and only if the failed save had replaced the row they depended on |
| `TokenAnswers.SuccessfulBootstrap` | internal/t3/gateway.go:303-310 | the environment's last token is replaced in cache and store, other environments are left alone |
| `TokenAnswers.AuthorizeLeaves` | internal/t3/gateway.go:333-358 | a granted token is granted again until it expires even if the store cannot be read; a row is deleted exactly when it was read, has expired and the deletion lands |
| `PairingSteps.StepKeepsInv` | internal/t3/gateway.go:286-359 | every step of every thread keeps codes, mints, copies and threads consistent |
| `PairingSteps.PairingSafety` | internal/t3/gateway.go:286-359 | in every interleaving: grants only for tokens paired for that environment with a live code and within the minted expiry, copies never extend it, no code yields two tokens |
| `PairingSteps.UndisturbedGenerate` | internal/t3/gateway.go:154-161 | a generation is one step, and the request of the sequential model |
| `PairingSteps.UndisturbedBootstrap` | internal/t3/gateway.go:286-317 | the steps of a bootstrap, with nothing in between, are the request of the sequential model |
| `PairingSteps.UndisturbedAuthorize` | internal/t3/gateway.go:327-359 | so are those of an authorization, and a grant is recorded exactly when the request is granted |
| `PairingSteps.MemoryOnlyInterleaved` | internal/t3/gateway.go:293-342 | without a store, in every interleaving: one token per environment, and exactly the last one published since the restart is granted, strictly before it expires |
| `PairingAgreement.InsertAgreement` | internal/t3/gateway.go:354-358 | a re-insert keeps cache and store in agreement if and only if the row is still the one read or the token has expired |
| `PairingAgreement.DeleteAgreement` | internal/t3/gateway.go:349-353 | the unlocked deletion of an expired row keeps it if and only if it does not land or the environment has no live token by now |
| `PairingAgreement.SaveAgreement` | internal/t3/gateway.go:303-308 | a save keeps it if and only if it did not fail after writing, or every other token of the environment has expired |
| `PairingAgreement.StepAgreement` | internal/t3/gateway.go:286-359 | every step of every thread keeps the agreement if and only if it meets its condition; only those three kinds of step have one |
| `PairingAgreement.AgreementInterleaved` | internal/t3/gateway.go:286-359 | in every interleaving cache and store agree all along if and only if every save, deletion and re-insert met its condition; then, whenever the lock is free, they agree and no environment has two live tokens |
| `PairingAgreement.OneLiveStep` | internal/t3/gateway.go:309-310 | exactly the re-insert of a live token next to another live one gives an environment a second one |
| `PairingAgreement.OneLiveInterleaved` | internal/t3/gateway.go:286-359 | in every interleaving no environment ever has two live cached tokens if and only if no re-insert of the run was of that kind |
| `PairingAgreement.InterleavingExample` | internal/t3/gateway.go:343-358 | a reachable state with two live tokens for one environment |
| `PairingAgreement.DeletionExample` | internal/t3/gateway.go:343-353 | a reachable state in which a live token that was never superseded has lost its row, and is refused after a restart |
| `T3Status.ReconcileContainer` | internal/t3/gateway.go:103-152 | the container's status is updated in place, no other container changes |
| `T3Status.ReconciledBacked` | internal/t3/gateway.go:103-152 | routable exactly when probed successfully, and then enabled, running and backed; the token changes only by being issued |
| `T3Status.ReconciledRest` | internal/t3/gateway.go:103-152 | nothing but the T3 status is touched |
| `T3Status.ReconciledStatus` | internal/t3/gateway.go:103-152 | the status of a container, case by case, from its rule, state and address and the answers of its backend |
| `T3Status.BackendAddress` | internal/t3/gateway.go:122-134 | requests go to the container's own IP at the configured port, or 3773; it is published under the reported identifier, or else the first twelve characters of its own |
| `T3Status.AddressesDiffer` | internal/t3/gateway.go:122-126 | two containers share an address only if they share an IP |
| `Service.State.Reconcile` | internal/app/service.go:100-132 | publishes what is computed from the list and the snapshot, and drives the daemon accordingly |
| `Service.State.Snapshot` | internal/app/service.go:107-112 | a copy of the published map |
| `Service.State.WriteToken` | internal/app/service.go:282-286 | changes one entry's token, or leaves a stub for a container that is gone |
| `Service.State.Environment` | internal/app/service.go:319-338 | the first lookup finds an environment, with the identifier of a container that serves it, exactly when a non-empty identifier is published |
| `Service.State.ContainerByEnv` | internal/app/service.go:340-349 | finds an entry of the environment if and only if there is one |
| `Service.Prepare` | internal/app/service.go:113-118 | tokens are carried over before each container is reconciled |
| `Service.BuildIndex` | internal/app/service.go:122-125 | the list keyed by identifier |
| `ServiceTheorems.ComputedConsistent` | internal/app/service.go:113-125 | every computed snapshot is consistent, whatever the daemon, the backends and the snapshot it started from |
| `ServiceTheorems.PublishedWhole` | internal/app/service.go:107-129 | exactly the listed containers are published, as discovered but for T3 and sync, with one session per configured entry in order, or none with syncing off |
| `ServiceTheorems.SyncIgnoresT3` | internal/app/service.go:113-119 | the T3 side of a reconcile has no influence on what is synchronized |
| `ServiceTheorems.RefreshedExactly` | internal/app/service.go:282-286 | a token write sets that token, also for a container that is gone, and nothing else |
| `ServiceTheorems.RefreshedConsistent` | internal/app/service.go:282-286 | a token write keeps a snapshot consistent, also when its container has vanished |
| `ServiceTheorems.StepKeepsInv` | internal/app/service.go:100-132 | every step of every overlapping task keeps the invariant |
| `ServiceTheorems.SnapshotConsistent` | internal/app/service.go:107-129 | in every interleaving: session counts match, sessions belong to published containers, entries are filed under their own identifier or are empty stubs |
| `ServiceTheorems.TokenProvenance` | internal/app/service.go:277-287 | in every interleaving a published token was issued for that same container |
| `ServiceTheorems.RoutableIsBacked` | internal/app/service.go:260-276 | in every reachable state, the container that the second lookup finds for a non-empty environment ID has a ready backend |
| `ServiceTheorems.EnvironmentIsPublished` | internal/app/service.go:319-355 | in every reachable state, the environment found is published under its container's identifier, its key in the token store |
| `ServiceTheorems.WrittenTokenSurvives` | internal/app/service.go:107-129 | a token written while a reconcile is in flight survives its publication if and only if the reconcile brings that very token itself |
| `ServiceTheorems.LostTokenExample` | internal/app/service.go:107-129 | a reachable state in which a publication puts a superseded token back |
| `ServiceTheorems.TokenStable` | internal/app/service.go:113-118 | with serial reconciles a listed container is issued a token at most once and keeps it |
| `SpawnStage.SelectionFor` | internal/t3/gateway.go:638-652 | the selection is for the agent's own provider: an existing one of that provider is kept, anything else gives way to the agent's default model |
| `SpawnStage.DefaultSelections` | internal/t3/gateway.go:638-670 | the provider and model of an agent without a selection |
| `SpawnStage.ProjectFor` | internal/t3/gateway.go:628-636 | finds the first project with the workspace's cleaned root, if there is one |
| `SpawnStage.Backend.BackendJson` | internal/t3/gateway.go:485-530 | one call: attempts, refresh, token left behind and result |
| `SpawnStage.Backend.OpenStageThread` | internal/t3/gateway.go:413-478 | lists the projects, then dispatches the plan until a command fails |
| `SpawnTheorems.AppliedOnce` | internal/t3/gateway.go:508-519 | if 401 answers are clean, a dispatched command is applied at most once despite the retry; and once on success, if accepted commands are acted on |
| `SpawnTheorems.AppliedTwice` | internal/t3/gateway.go:508-519 | exactly when one call applies its command twice |
| `SpawnTheorems.SpawnAtMostOnce` | internal/t3/gateway.go:413-530 | if 401 answers are clean, the applied commands are some of the plan's, in order and none twice |
| `SpawnTheorems.SpawnExactly` | internal/t3/gateway.go:413-530 | if 401 answers are clean, the applied commands are a prefix of the plan if and only if nothing is applied after a command that was accepted without being acted on; success means the whole plan if and only if there was no such command |
| `SpawnTheorems.SpawnPrefix` | internal/t3/gateway.go:413-530 | so a backend that acts on the commands it accepts applies a prefix of the plan, and all of it on success |
| `SpawnTheorems.GapExample` | internal/t3/gateway.go:413-530 | a backend against which a spawn succeeds and creates a thread for a project that was never created |
| `SpawnTheorems.PlanShape` | internal/t3/gateway.go:418-474 | a project is created exactly when no root matches; thread and turn refer to it and to each other |
| `SpawnTheorems.PlanSelection` | internal/t3/gateway.go:418-422 | every command carries the found project's selection if it is for the agent's provider, and the agent's default otherwise |
| `SpawnTheorems.ExchangeThreads` | internal/t3/gateway.go:508-516 | a call makes at most two attempts and one refresh, each attempt under the latest token |
| `SpawnTheorems.SpawnThreads` | internal/t3/gateway.go:413-459 | so does the whole spawn, against every backend |
| `SpawnTheorems.SpawnRefreshesOnce` | internal/t3/gateway.go:413-516 | if refreshed tokens are accepted, the whole spawn refreshes at most once |
| `SpawnAnswers.CallAnswer` | internal/t3/gateway.go:508-530 | a call succeeds exactly when its last attempt was answered 2xx with a body that decodes, and then returns that body |
| `SpawnAnswers.SpawnAnswer` | internal/t3/gateway.go:413-478 | a spawn succeeds exactly when the last attempts of all its calls were so answered |
| `ConfigWatch.WatchConfig` | internal/app/service.go:163-207 | the watcher's loop over the choices of its select statement |
| `ConfigWatch.NoProblemMeansValid` | internal/config/config.go:179-202 | validation passes exactly the configurations whose matchers all compile and whose sync entries are all valid |
| `ConfigWatch.OneEntryFile` | internal/config/config.go:190-200 | which sync entries pass, field by field |
| `ConfigWatch.LoadsExactly` | internal/config/config.go:131-177 | a file is loaded exactly when it can be read and is valid; what is loaded are the file's own rules, switches and port, with defaults only where it says nothing |
| `ConfigWatch.Debounced` | internal/app/service.go:175-205 | over every timed run: the log records every handled event and every attempt; attempts only after the quiet time, armed exactly while an event is pending, attempts never outnumber events |
| `ConfigWatch.StoredIsValid` | internal/app/service.go:191-198 | the stored configuration is what the file said when it was last readable and valid, or the initial one if it never was; and it is valid, matchers included |

## Left out

- SyncTheorems.Converges: says nothing about mode, ignores and permissions, because they are not part of a session's name and an existing session is only resumed.
- SyncController.Reconcile: a method runs without interruption; overlapping runs are the event sequences of `SyncOverlaps`, which the service can produce because it starts the reconciler from three places without a lock.
- Mutagen.Daemon.ListOwned: states that the library reports without a session are not represented.
- ConfigWatch.WatchConfig: the reconcile that follows a reload and the decoding of the YAML file are not modelled; which regular expressions compile is a parameter.
- SpawnStage.Backend.OpenStageThread: titles, timestamps and path cleaning are inputs, and the writing of the retain-scope file that precedes the exchange is not modelled.
- The gRPC connection that `ensureConnected` and `reset` manage: a refused dial is a call that fails without effect.
- A database write of a killed process that commits after the restart.
- Creation specifications, labels other than ownership, and the mapping of modes to Mutagen's names.
- The HTTP and websocket proxies, header and JSON handling, the dashboard, logging, and parsing of the Bearer header (section 2.1 of RFC 6750), which is an optional token here.
- Public and websocket base URLs and probe times in the T3 status.
- Docker discovery, rule matching, user resolution and network attachment: the container list and each container's rule are inputs.
- Hashing, random generation and wall-clock precision: parameters, freshness assumptions and integer time.
