# Verification of the Herdr host adapter

This project models the Herdr host adapter of Muxe and proves what it promises. It is written in Dafny;
`dafny verify dfyconfig.toml` checks all of it.

| file | what it models |
|---|---|
| `Lifecycle.dfy`, `LifecycleTheorems.dfy`, `LifecycleProgress.dfy`, `SuspendResponse.dfy`, `Adapter.dfy` | loss, reconnect, suspend, resume and shutdown as a step system: every lock-held region and every step of the monitor is atomic, and the steps interleave in any order; what never happens, and what does happen when nothing stops it; then the adapter object, each method proved to be one of those steps |
| `Dispatch.dfy` | the registry of accepted dispatches: admission, terminals, joining, draining |
| `PostDismissal.dfy` | creations that wait for the UI pane to close: the push-then-snapshot race against close events, across losses, suspends and resumes |
| `PendingPane.dfy`, `PendingPaneJobs.dfy` | closing a registered, never used pane: a compare-and-mark before a request that must not be repeated, in jobs that each incarnation runs one at a time; as interleaved steps and as an object that takes them |
| `TabSwap.dfy`, `TabSwapHosts.dfy` | swapping two tabs with two moves, against a host that honours them and against any host |
| `Codec.dfy`, `Handshake.dfy` | the binary command endpoint: canonical integers, framed messages, the welcome and snapshot protocol, the manifest |
| `Json.dfy`, `SchemaCache.dfy` | canonical JSON, and the cache of normalized schemas |
| `WireFields.dfy`, `NativeValidation.dfy`, `NativeTexts.dfy`, `ComparisonCache.dfy`, `ComparisonSources.dfy`, `ComparisonRuns.dfy` | wire names and values of native actions, their validation, and the cache of validation outcomes |
| `SchemaDocument.dfy`, `SchemaMeaning.dfy`, `SchemaFaults.dfy`, `SchemaPaths.dfy`, `SchemaRuns.dfy` | the schema document: parsing, pointers, references and validation through them; what it means to fit a schema, whom faults blame and where they are found; and what references mean for the cache of outcomes |
| `Portable.dfy`, `PortableRequests.dfy` | portable actions: what loading a configuration checks and what dispatch sends |

Two forms recur. A protocol is a pure step function with an invariant that every step keeps, so that what is
proved holds of every interleaving; a class with the real fields is proved to take exactly these steps, its
history kept in fields of its own. An algorithm is a method with a loop, proved against a function, and the
function is then related to an independent statement of what it should do.

## Assumptions

- SHA-256 is an ideal hash: no two canonical values have one digest. Serialising a canonical value to bytes
  loses nothing, so the values stand for the bytes.
- A lease is a pair of endpoint token and epoch, compared by value. Epochs, continuity, suspend generations
  and the join counter do not reach the largest 64-bit number, where the program would saturate.
- Execution IDs are fresh for each request. The host does not reuse a pane ID within an incarnation. An
  incarnation has one runtime, by `HealthyPeriodIsContiguous`, and so one request queue.
- Connecting, waiting, timers, the reconnect deadline, the room in the event queue and the answers of the host
  are choices made in any way whatever. The JSON reader, the schema keywords that look at one node only, the
  table of bundled methods, key parsing and the rendering of directories are arbitrary functions. Where it
  matters, those keywords report the place they are given (`Located`), and the keys of an object are all gone
  through (`Ordered`).

## Where the code falls short of its description

- A suspend is not always answered, because two comparisons of leases can filter the attempt out. Where the
  monitor is when the attempt is requested decides it: `AlwaysAnsweredExactly` proves that every run without
  shutdown answers the attempt in time if and only if the monitor is on track, which is never in doubt while the
  adapter is healthy (`HealthySuspendIsAnswered`). `SuspendCanStrand` gives a run in which a suspend begins while
  the monitor gives the host up: the recorded loss names the lease of the epoch before, and the monitor leaves.
  `SuspendCanSpin` gives one in which the monitor comes back with a stream to another endpoint and parks with it
  again and again. `StrandedUntilShutdown` and `SpinsUntilShutdown` prove that then only shutdown helps.
- The outcome cache is keyed by the digest of `/schemas/request`, but references in a schema are followed in the
  whole document. The cache is right for all documents whose references stay in the request part, as those of the
  bundled schema do (`ContainedDocumentsAgree`). It is wrong for every request part in which the validation of
  some accepted action comes, through references, members and items, to a reference to a place outside
  (`OutsideReferenceGoesStale`, `AgreesOnRequestExactly`).
- A key list is not parsed when the configuration is loaded, only when the action is dispatched. So a list with a
  spelling that is no key is accepted and never sent (`UnspeltKeysLoad`); `ProbedResolvesExactly` gives the exact
  condition.
- A request that waits for its pane is forgotten when that pane closes while the adapter is suspended
  (`SuspendForgets`). `StuckExactly` gives the exact condition in every reachable state. Only a loss or shutdown,
  a further event of the pane, or another caller for it ends the wait; `NothingIsForgotten` holds for every pane
  whose closing was read.
- The path of a schema error does not always lead back to the field: a tilde is written `~0` and a slash `~1`,
  and neither is turned back. `SpellingRecoveredExactly` gives the exact condition.
- Dispatch asks for the captured pane before anything else, so an action that is only about a tab fails without
  one; see `NotSentUnplaced`.

## Model

| member | source | states |
|---|---|---|
| `Adapter.HerdrAdapter.Connect` | crates/muxe-adapter-herdr/src/adapter.rs:496-571 | A new adapter is healthy in epoch 1, its first stream is the monitor's, and it has announced itself once. |
| `Adapter.HerdrAdapter.MarkLost` | crates/muxe-adapter-herdr/src/adapter.rs:199-212 | A loss report changes nothing unless it names the current healthy lease and neither shutdown nor suspend was requested; then it ends the epoch and moves continuity on with it. |
| `Adapter.HerdrAdapter.InstallReconnected` | crates/muxe-adapter-herdr/src/adapter.rs:633-668 | A reconnected runtime becomes current only for the lost epoch it was made for; health, runtime and the Reconnected event change together or not at all. |
| `Adapter.HerdrAdapter.BeginOrJoinSuspend` | crates/muxe-adapter-herdr/src/adapter.rs:746-788 | The first suspend opens a numbered attempt for the current lease and makes the adapter unhealthy; later ones join it; after a terminal loss the attempt is answered at once; after shutdown nothing changes. |
| `Adapter.HerdrAdapter.FinishSuspend` | crates/muxe-adapter-herdr/src/adapter.rs:830-842 | Only the attempt of this generation, while still requested, takes the phase. |
| `Adapter.HerdrAdapter.StopSuspend` | crates/muxe-adapter-herdr/src/adapter.rs:862-871 | Shutdown answers whatever attempt there is. |
| `Adapter.HerdrAdapter.GiveUpHost` | crates/muxe-adapter-herdr/src/adapter.rs:844-860 | A terminal loss is recorded, and answers the attempt only if that names the same lease. |
| `Adapter.HerdrAdapter.RequestShutdown` | crates/muxe-adapter-herdr/src/adapter.rs:2797-2806 | Shutdown makes the adapter unhealthy for good. |
| `Adapter.HerdrAdapter.AdmitResumeCall` | crates/muxe-adapter-herdr/src/adapter.rs:674-687 | A resume is admitted unless the registry is closed or shutdown was requested. |
| `Adapter.HerdrAdapter.ReadPriorIncarnation` | crates/muxe-adapter-herdr/src/adapter.rs:2682-2692 | A resume notes the epoch, continuity and lease it starts from. |
| `Adapter.HerdrAdapter.CheckReleased` | crates/muxe-adapter-herdr/src/adapter.rs:2693-2707 | A resume goes on only when the attempt it saw has released that very lease. |
| `Adapter.HerdrAdapter.InstallResumed` | crates/muxe-adapter-herdr/src/adapter.rs:2741-2787 | The last locked region of a resume: runtime, epoch, continuity, health, the slot and the event change together, exactly when nothing has moved since the resume began. |
| `Adapter.HerdrAdapter.CommitResume` | crates/muxe-adapter-herdr/src/adapter.rs:2730-2791 | Without room for its event a resume installs nothing. |
| `Adapter.HerdrAdapter.TurnActive` | crates/muxe-adapter-herdr/src/adapter.rs:3002-3056 | The monitor's steps while it reads events, each the step of the state machine it stands for. |
| `Adapter.HerdrAdapter.TurnRecovery` | crates/muxe-adapter-herdr/src/adapter.rs:3114-3218 | Its steps from a marked loss to a fresh stream. |
| `Adapter.HerdrAdapter.TurnInstall` | crates/muxe-adapter-herdr/src/adapter.rs:3163-3200 | Its steps from a fresh stream to the install, a suspend or the terminal loss. |
| `Adapter.HerdrAdapter.TurnSuspend` | crates/muxe-adapter-herdr/src/adapter.rs:2961-3000 | Its steps from parking to the answer of the suspend attempt. |
| `Adapter.HerdrAdapter.TurnResting` | crates/muxe-adapter-herdr/src/adapter.rs:3231-3247 | Taking the resumed stream from the slot, waiting for it, and leaving. |
| `Adapter.HerdrAdapter.Execute` | crates/muxe-adapter-herdr/src/adapter.rs:3002-3100 | Any schedule of these steps, run on the object, ends in the state the state machine predicts, with the invariant kept; so the theorems below hold of the object. |
| `Adapter.HerdrAdapter.ConnectAndExecute` | crates/muxe-adapter-herdr/src/adapter.rs:496-571 | From its connection on, whatever the schedule, the adapter holds at most one stream, its monitor has one where it needs one, and its events form a chain that ends at the runtime it stands for. |
| `Adapter.HerdrAdapter.SuspendForActivation` | crates/muxe-adapter-herdr/src/adapter.rs:2664-2674 | A suspend that reports success leaves no stream, and the adapter where it stood, unhealthy; asked of a healthy adapter it has an answer once the monitor had thirteen turns without shutdown; after a shutdown it is refused. |
| `Lifecycle.ApplyInv` | crates/muxe-adapter-herdr/src/adapter.rs:193-229 | Every step of every participant keeps the invariant that ties epochs, lease equality, the slot and the monitor's position together. |
| `Lifecycle.AfterInv` | crates/muxe-adapter-herdr/src/adapter.rs:193-229 | The invariant holds in every state of every interleaving. |
| `LifecycleTheorems.StepEvolves` | crates/muxe-adapter-herdr/src/adapter.rs:610-871 | What one step may do to the core: epochs never go back, a healthy epoch stays as it is or is dead for good, a final state stays final, a stopped attempt stays stopped. |
| `LifecycleTheorems.StepPublishes` | crates/muxe-adapter-herdr/src/adapter.rs:2853-2935 | A step publishes Reconnected exactly when it makes the adapter healthy, with the identities and continuity it installs. |
| `LifecycleTheorems.HealthyPeriodIsContiguous` | crates/muxe-adapter-herdr/src/adapter.rs:199-228 | Between two healthy states of one epoch every state is healthy in it on the same runtime, without a suspend or shutdown in between. |
| `LifecycleTheorems.OriginTokenInjective` | crates/muxe-adapter-herdr/src/adapter.rs:2949-2951 | The origin token determines the server identity and the epoch, whatever text the server calls itself. |
| `LifecycleTheorems.AcceptedOriginIsCurrent` | crates/muxe-adapter-herdr/src/adapter.rs:1045-1109 | An origin that is accepted was captured in the present healthy period, from the runtime that is still current, if it was captured in a healthy state at all. |
| `LifecycleTheorems.SuspendedMeansReleased` | crates/muxe-adapter-herdr/src/adapter.rs:790-815 | When a suspend is reported done, the attempt still names the current lease, the adapter is suspended and unhealthy, the monitor owns no stream and the slot is empty. |
| `LifecycleTheorems.OneSubscription` | crates/muxe-adapter-herdr/src/adapter.rs:2961-3000 | In every run the slot and the monitor never hold a stream each. |
| `LifecycleTheorems.MonitorNeverPanics` | crates/muxe-adapter-herdr/src/adapter.rs:3018-3030 | The monitor always owns a stream where it expects one. |
| `LifecycleTheorems.StrandedUntilShutdown` | crates/muxe-adapter-herdr/src/adapter.rs:844-860 | An attempt that the monitor can no longer answer is answered by shutdown and by nothing else. |
| `LifecycleTheorems.SuspendCanStrand` | crates/muxe-adapter-herdr/src/adapter.rs:3078-3098 | Such an attempt exists: a run in which a suspend begins while the loss of the epoch before is being given up as terminal. |
| `LifecycleTheorems.FinalityHolds` | crates/muxe-adapter-herdr/src/adapter.rs:2793-2806 | After shutdown or a terminal loss no run becomes healthy, installs a runtime or publishes Reconnected, and a stopped attempt stays as it is. |
| `LifecycleTheorems.ReconnectsFormAChain` | crates/muxe-adapter-herdr/src/adapter.rs:2974-2993 | Announcements of any run form a chain: each Reconnected starts from the identity announced before it, with a larger continuity, after an Unhealthy. |
| `SuspendResponse.TurnBringsCloser` | crates/muxe-adapter-herdr/src/adapter.rs:3002-3100 | On track, every turn of the monitor answers the requested attempt, or keeps it on track and brings its answer closer. |
| `SuspendResponse.AnsweredInTime` | crates/muxe-adapter-herdr/src/adapter.rs:746-860 | On track, a run without shutdown that gives the monitor the turns it needs answers the attempt. |
| `SuspendResponse.OffTrackRun` | crates/muxe-adapter-herdr/src/adapter.rs:3163-3200 | Off track there are runs of any number of turns, without shutdown, in which the attempt is never answered. |
| `SuspendResponse.AlwaysAnsweredExactly` | crates/muxe-adapter-herdr/src/adapter.rs:746-860 | So a requested attempt is answered in every run without shutdown that gives the monitor its turns, thirteen at most, if and only if the monitor is on track when it is asked: it neither opens or installs a successor nor gives the host up, and a stream it parks with has the lease the attempt names. |
| `SuspendResponse.HealthySuspendIsAnswered` | crates/muxe-adapter-herdr/src/adapter.rs:2664-2674 | A suspend that begins while the adapter is healthy is always answered. |
| `SuspendResponse.SpinsUntilShutdown` | crates/muxe-adapter-herdr/src/adapter.rs:817-828 | A monitor that holds a stream of another lease than the attempt names never answers it while no shutdown comes. |
| `SuspendResponse.SuspendCanSpin` | crates/muxe-adapter-herdr/src/adapter.rs:3163-3175 | Such a run exists: the host comes back at another endpoint, and the suspend begins after the new stream was opened and before it was installed. |
| `LifecycleProgress.LossIsRepaired` | crates/muxe-adapter-herdr/src/adapter.rs:3031-3218 | A reported loss of the current lease is repaired: whatever runtime the host comes back as, after eight turns that go well the adapter is healthy on that very runtime in the epoch the loss moved to, the monitor reads its stream, and the loss and one reconnect were announced, in this order. |
| `LifecycleProgress.ComesBack` | crates/muxe-adapter-herdr/src/adapter.rs:3114-3218 | From any point of a reconnect the same holds, in the turns that are left. |
| `LifecycleProgress.StaleReportIsIgnored` | crates/muxe-adapter-herdr/src/adapter.rs:199-212 | A report about another lease changes nothing, and the monitor reads on. |
| `LifecycleProgress.FailureIsRetried` | crates/muxe-adapter-herdr/src/adapter.rs:3202-3218 | An attempt that fails with time left is made again. |
| `LifecycleProgress.HostIsGivenUp` | crates/muxe-adapter-herdr/src/adapter.rs:844-860 | A host that stays away is given up: the loss is recorded with its error and announced under the last identity, the monitor ends, and a later suspend is told at once. |
| `LifecycleProgress.HealthySuspendReleases` | crates/muxe-adapter-herdr/src/adapter.rs:2961-3000 | A suspend asked of a healthy adapter succeeds within nine turns that go well: no stream is left, the lease is the one it had, and Unhealthy was announced once. |
| `LifecycleProgress.DrainFailureIsReported` | crates/muxe-adapter-herdr/src/adapter.rs:2961-3000 | A send queue that cannot be drained is reported to the caller with its error. |
| `LifecycleProgress.ResumeInstalls` | crates/muxe-adapter-herdr/src/adapter.rs:2680-2791 | A resume that nobody disturbs makes the runtime it assembled current, whatever host that is, in the next epoch, healthy, with its stream in the slot, and announces it once. |
| `LifecycleProgress.FullQueueInstallsNothing` | crates/muxe-adapter-herdr/src/adapter.rs:2730-2740 | Without room for its event the call ends and changes nothing else. |
| `LifecycleProgress.ResumedStreamIsRead` | crates/muxe-adapter-herdr/src/adapter.rs:3231-3247 | The monitor takes the resumed stream and reads it, within two turns. |
| `LifecycleProgress.ShutdownEndsTheMonitor` | crates/muxe-adapter-herdr/src/adapter.rs:2793-2806 | After a shutdown the monitor ends within nine turns, however they go, and leaves no suspend waiting. |
| `LifecycleProgress.OriginAcceptedExactly` | crates/muxe-adapter-herdr/src/adapter.rs:1045-1109 | An origin captured in a healthy state is accepted later if and only if the adapter is healthy in the very same epoch. |
| `Dispatch.DispatchTasks.AdmitDispatchTask` | crates/muxe-adapter-herdr/src/adapter.rs:984-1011 | An execution is admitted unless the registry is closed, holds its ID or its task cannot start; then it is registered and running. |
| `Dispatch.DispatchTasks.SendUnsentFailure` | crates/muxe-adapter-herdr/src/adapter.rs:1417-1427 | An execution that fails before admission sends one terminal of its own. |
| `Dispatch.DispatchTasks.FinishTask` | crates/muxe-adapter-herdr/src/adapter.rs:1164-1172 | A task sends its one terminal as it ends. |
| `Dispatch.DispatchTasks.TryReceive` | crates/muxe-adapter-herdr/src/adapter.rs:2604-2662 | The consumer takes the oldest terminal. |
| `Dispatch.DispatchTasks.FinishDispatchTerminal` | crates/muxe-adapter-herdr/src/adapter.rs:1013-1024 | The finished task is removed and its terminal handed out; that task runs no more. |
| `Dispatch.DispatchTasks.TakeAll` | crates/muxe-adapter-herdr/src/adapter.rs:2810-2818 | A shutdown call closes the registry, takes every registered task and counts them as joining. |
| `Dispatch.DispatchTasks.JoinTask` | crates/muxe-adapter-herdr/src/adapter.rs:2836-2843 | One taken task less to join, once it has ended. |
| `Dispatch.DispatchTasks.FinalizeRegistry` | crates/muxe-adapter-herdr/src/adapter.rs:2844-2848 | A shutdown call finalizes the registry once it has joined what it took. |
| `Dispatch.DispatchTasks.DispatchesFullyDrained` | crates/muxe-adapter-herdr/src/adapter.rs:1026-1032 | Drained means closed, finalized, nothing registered and nothing joining. |
| `Dispatch.AfterInv` | crates/muxe-adapter-herdr/src/adapter.rs:984-1032 | In every run the books balance, and the terminals sent so far only grow, in order. |
| `Dispatch.OnePlace` | crates/muxe-adapter-herdr/src/adapter.rs:984-1024 | Every admitted execution either runs and has sent nothing, or has sent exactly one terminal, which is queued, in hand or delivered. |
| `Dispatch.DrainedMeansSent` | crates/muxe-adapter-herdr/src/adapter.rs:1026-1032 | Drained implies that every admitted execution has sent its single terminal and nothing is left to join. |
| `Dispatch.DrainedIsFinal` | crates/muxe-adapter-herdr/src/adapter.rs:1026-1032 | Once drained, always drained; nothing is admitted any more. |
| `Dispatch.JoiningCountsTaken` | crates/muxe-adapter-herdr/src/adapter.rs:2810-2849 | However many shutdown calls overlap, the counter is the number of taken tasks not yet joined. |
| `Dispatch.DrainedExactly` | crates/muxe-adapter-herdr/src/adapter.rs:1026-1032 | Drained is reported exactly when some shutdown call has taken and later, with all it took joined, finalized, every taken task is joined, and nothing is registered. |
| `Dispatch.WhereaboutsMove` | crates/muxe-adapter-herdr/src/adapter.rs:984-1032 | Where each execution is, and what each step does to it: only its own admission, end, removal, taking and joining move it, in this order. |
| `Dispatch.TerminalsMove` | crates/muxe-adapter-herdr/src/adapter.rs:1164-1172 | A terminal is sent by an unsent failure or the end of a running task and by nothing else, and delivered by the consumer alone. |
| `Dispatch.AllIsDelivered` | crates/muxe-adapter-herdr/src/adapter.rs:2604-2662 | A consumer that goes on delivers every terminal sent, in the order they were sent. |
| `Dispatch.DispatchTasks.RunAndAsk` | crates/muxe-adapter-herdr/src/adapter.rs:2793-2850 | Whatever the schedule, the registry answers that it is drained in exactly that case, and then every admitted execution has sent its one terminal. |
| `PostDismissal.PostDismissalQueue.Push` | crates/muxe-adapter-herdr/src/adapter.rs:1370-1386 | The request joins the end of its pane's list. |
| `PostDismissal.PostDismissalQueue.Claim` | crates/muxe-adapter-herdr/src/adapter.rs:1407-1427 | All requests of the pane leave the queue together, in order. |
| `PostDismissal.PostDismissalQueue.ReclaimAfterFailedSnapshot` | crates/muxe-adapter-herdr/src/adapter.rs:3275-3294 | Exactly the caller's own request is removed; the answer says whether it was still queued. |
| `PostDismissal.PostDismissalQueue.TakeAll` | crates/muxe-adapter-herdr/src/adapter.rs:1429-1440 | The whole queue is emptied and returned. |
| `PostDismissal.AfterInv` | crates/muxe-adapter-herdr/src/adapter.rs:1370-1440 | In every run the queue holds exactly the queued requests, each once, and each has a reason to be woken. |
| `PostDismissal.NothingIsForgotten` | crates/muxe-adapter-herdr/src/adapter.rs:1370-1427 | No lost wake-up, over any losses, suspends and resumes: once events are drained and callers have returned nothing waits for a pane that is gone, unless the closing of that very pane went unread. |
| `PostDismissal.SuspendForgets` | crates/muxe-adapter-herdr/src/adapter.rs:2961-3000 | A pane whose closing goes unread: it closes while the adapter is suspended, and its request is still queued after the resume. |
| `PostDismissal.ForgottenStays` | crates/muxe-adapter-herdr/src/adapter.rs:1370-1440 | A request that waits for a pane that is gone, with no event of it to be read and no caller under way that will find it gone, stays queued in every run without a loss, a shutdown, another event of the pane or a new caller for it. |
| `PostDismissal.StuckExactly` | crates/muxe-adapter-herdr/src/adapter.rs:1370-1440 | In every reachable state a queued request is stuck in this way if and only if it is forgotten as described; and then the closing of its pane went unread. |
| `PostDismissal.ForgottenWhenQuiet` | crates/muxe-adapter-herdr/src/adapter.rs:1370-1440 | Once events are drained and callers have returned, the forgotten requests are those whose pane is gone. |
| `PostDismissal.AnotherEventWakes` | crates/muxe-adapter-herdr/src/adapter.rs:1407-1427 | A further event of the pane takes a forgotten request out of the queue. |
| `PostDismissal.AnotherCallerWakes` | crates/muxe-adapter-herdr/src/adapter.rs:1387-1405 | So does another caller for the pane, whose snapshot does not show it. |
| `PostDismissal.LeavesQueueOnly` | crates/muxe-adapter-herdr/src/adapter.rs:1407-1440 | A request leaves the queue only by a loss or shutdown, an event of its pane, a snapshot without its pane, or the failed snapshot of its own caller. |
| `PostDismissal.NoEarlyStart` | crates/muxe-adapter-herdr/src/adapter.rs:1314-1328 | Nothing starts before its pane closed, exited or was missing from a snapshot. |
| `PostDismissal.PlacesMoveOn` | crates/muxe-adapter-herdr/src/adapter.rs:1370-1440 | A request only moves on: once started, failed or retracted, it stays so. |
| `PostDismissal.ExactlyOneOutcome` | crates/muxe-adapter-herdr/src/adapter.rs:1387-1405 | A refused caller has no host request and no terminal, ever; every other request has at most one, and exactly one once handled. |
| `PostDismissal.SnapshotDecides` | crates/muxe-adapter-herdr/src/adapter.rs:1387-1427 | A caller that is shown its pane leaves its request queued; one that is not takes all requests of the pane. |
| `PostDismissal.FailedSnapshotExactly` | crates/muxe-adapter-herdr/src/adapter.rs:3275-3294 | A caller whose snapshot fails takes back its own request and is refused, unless the request was taken before; every other request stays as it is. |
| `PostDismissal.ClosingStarts` | crates/muxe-adapter-herdr/src/adapter.rs:1407-1427 | A waiting request is taken by the event of its pane's closing and then launched: started once, or failed with one terminal. |
| `PostDismissal.MissedExactly` | crates/muxe-adapter-herdr/src/adapter.rs:2961-3000 | A closing is missed exactly when nobody listened or its event was dropped unread. |
| `PostDismissal.FirstComeFirstServed` | crates/muxe-adapter-herdr/src/adapter.rs:1370-1386 | The requests of a pane keep the order in which they came. |
| `PendingPane.PendingPanes.Register` | crates/muxe-adapter-herdr/src/adapter.rs:2350-2402 | A registration makes an open record. |
| `PendingPane.PendingPanes.PendingCloseRecord` | crates/muxe-adapter-herdr/src/adapter.rs:1450-1469 | A close finds the record only if session, pane, tab and incarnation are the registered ones. |
| `PendingPane.PendingPanes.Mark` | crates/muxe-adapter-herdr/src/adapter.rs:2449-2460 | Compare and mark in one region: only the record that was read is marked. |
| `PendingPane.PendingPanes.Reopen` | crates/muxe-adapter-herdr/src/adapter.rs:1631-1648 | Only the record this close marked is opened again. |
| `PendingPane.PendingPanes.Remove` | crates/muxe-adapter-herdr/src/adapter.rs:2497-2502 | A released lease, or one whose pane is gone, is removed, and no other. |
| `PendingPane.PendingPanes.Clear` | crates/muxe-adapter-herdr/src/adapter.rs:2667-2670 | A loss, a suspend or a shutdown drops every lease. |
| `PendingPane.PendingPanes.TakeCloserStep` | crates/muxe-adapter-herdr/src/runtime.rs:421-453 | The regions of one close; a close begins to run only when the queue of its incarnation has no other job. |
| `PendingPane.PendingPanes.AbandonClose` | crates/muxe-adapter-herdr/src/runtime.rs:537-544 | A close whose caller is dropped before it runs leaves; one that runs goes on without its caller. |
| `PendingPane.PendingPanes.Execute` | crates/muxe-adapter-herdr/src/adapter.rs:2404-2502 | Any schedule on the object is a run: no two requests close one registration when the first is final, and an open record has no final close. |
| `PendingPane.AfterInv` | crates/muxe-adapter-herdr/src/adapter.rs:2404-2502 | The lease invariant holds in every interleaving of registrations, closes, releases and clears. |
| `PendingPane.NoCloseAfterAFinalOne` | crates/muxe-adapter-herdr/src/adapter.rs:2404-2495 | In every run, also when a lease is released or registered again under a close: once a close of a registration succeeded or may have reached the host, no later request closes it; each ran under the incarnation, and named the pane, that were registered. |
| `PendingPane.OpenMeansNothingApplied` | crates/muxe-adapter-herdr/src/adapter.rs:2404-2495 | An open record has had only rejected or unsent closes, and no close of its registration is on its way. |
| `PendingPane.OneCloseAtATime` | crates/muxe-adapter-herdr/src/runtime.rs:421-453 | Two closes of one incarnation, or of one registration, are never between mark and settlement together. |
| `PendingPane.ReopenedOnlyAfterRefusal` | crates/muxe-adapter-herdr/src/adapter.rs:2482-2491 | A marked record opens only when it is registered again, or the close of its own registration was rejected or never sent. |
| `PendingPaneJobs.BeginsExactly` | crates/muxe-adapter-herdr/src/adapter.rs:1450-1469 | A claim begins a close if and only if the lease stands and was registered for this very incarnation, session, pane and temporary tab, by the session that asks. |
| `PendingPaneJobs.EveryCloseWasShown` | crates/muxe-adapter-herdr/src/adapter.rs:2416-2466 | Every pane.close ever sent comes after a look, in the same job, that showed the very pane it names. |
| `PendingPaneJobs.JobSends` | crates/muxe-adapter-herdr/src/adapter.rs:2416-2466 | A job on an open record that nobody replaces, which is shown its pane, marks and sends, puts one pane.close of the registered pane into the history of its registration, whatever others do in between. |
| `PendingPaneJobs.JobSettles` | crates/muxe-adapter-herdr/src/adapter.rs:2466-2492 | Then the outcome decides what is left: nothing when the pane is closed, the open record when the request was refused or never sent, the marked one otherwise. |
| `PendingPaneJobs.OtherLooksSendNothing` | crates/muxe-adapter-herdr/src/adapter.rs:2418-2448 | Any other look ends the job without a request; a pane that is gone takes its lease along. |
| `PendingPaneJobs.ChangedLeaseSendsNothing` | crates/muxe-adapter-herdr/src/adapter.rs:2449-2460 | A lease that was dropped, replaced or marked in the meantime is not marked, and nothing is sent. |
| `PendingPaneJobs.WaitsForItsTurn` | crates/muxe-adapter-herdr/src/runtime.rs:421-453 | A waiting close runs exactly when its queue has no job, and leaves unharmed when it is given up. |
| `PendingPaneJobs.JobsEnd` | crates/muxe-adapter-herdr/src/runtime.rs:421-453 | Whatever the host answers, the steps of a job end it, so its queue is never stuck. |
| `TabSwap.TabList` | crates/muxe-adapter-herdr/src/adapter.rs:4251-4312 | A list is read exactly when every row is a tab and no number repeats in its workspace; rows keep their order and position. |
| `TabSwap.AnyHost` | crates/muxe-adapter-herdr/src/adapter.rs:4140-4248 | Whatever the host answers: at most two moves after one list; success means the last list showed the two tabs exchanged, or they are one tab; an unknown outcome is reported exactly when a move's reply was lost. |
| `TabSwap.MoveLands` | crates/muxe-adapter-herdr/src/adapter.rs:4983-5052 | A move with the insert index of the swap puts the tab at the position asked for, and shifts those between by one. |
| `TabSwap.TwoMovesExchange` | crates/muxe-adapter-herdr/src/adapter.rs:4157-4196 | The two moves exchange two tabs and leave every other where it was, for every list and pair of positions. |
| `TabSwap.SwapExchanges` | crates/muxe-adapter-herdr/src/adapter.rs:4140-4220 | With a host that honours insert indices the swap succeeds and leaves exactly the two tabs exchanged, adjacent and equal ones included. |
| `TabSwap.SwapUndoesItself` | crates/muxe-adapter-herdr/src/adapter.rs:4140-4220 | The same swap again restores the list. |
| `TabSwap.MissingTabMovesNothing` | crates/muxe-adapter-herdr/src/adapter.rs:4314-4346 | A tab or number that is not there is refused before any move. |
| `TabSwapHosts.ReadExactly` | crates/muxe-adapter-herdr/src/adapter.rs:4251-4312 | Which lists can be read, row by row, and what is read of them. |
| `TabSwapHosts.NotStarted` | crates/muxe-adapter-herdr/src/adapter.rs:4140-4156 | Without a readable list that shows source and target as two tabs nothing moves; success is reported only when the number names the source itself. |
| `TabSwapHosts.MovesExactly` | crates/muxe-adapter-herdr/src/adapter.rs:4157-4196 | The first move asks for the target in the source's place; the second is sent exactly when the host then shows it there, and starts from where the source is shown. |
| `TabSwapHosts.SuccessExactly` | crates/muxe-adapter-herdr/src/adapter.rs:4197-4248 | Success after two moves is reported exactly when the last answer shows each tab where the other was. |
| `Codec.ByteBuffer.EncodeInteger` | crates/muxe-adapter-herdr/src/commands.rs:517-530 | Appends the canonical bytes of the integer. |
| `Codec.ByteBuffer.EncodeString` | crates/muxe-adapter-herdr/src/commands.rs:531-534 | Appends the length and the bytes of the text. |
| `Codec.ByteBuffer.EncodeControl` | crates/muxe-adapter-herdr/src/commands.rs:535-551 | Replaces the buffer with header and message exactly when kind and data fit, else leaves it as it was. |
| `Codec.ControlFits` | crates/muxe-adapter-herdr/src/commands.rs:536-542 | Nineteen bytes always hold tag and lengths, so an accepted message is within the frame limit and its length within the header. |
| `Codec.Cursor.TakeBytes` | crates/muxe-adapter-herdr/src/commands.rs:429-438 | Takes exactly the bytes asked for, or none when too few are left. |
| `Codec.Cursor.Integer` | crates/muxe-adapter-herdr/src/commands.rs:439-462 | Reads one canonical integer; says why it cannot, and what is left. |
| `Codec.Cursor.String` | crates/muxe-adapter-herdr/src/commands.rs:463-472 | Reads one length-prefixed text, which must be valid UTF-8. |
| `Codec.DecodeFrame` | crates/muxe-adapter-herdr/src/commands.rs:483-516 | The decoder against its specification, error by error. |
| `Codec.IntegerExactly` | crates/muxe-adapter-herdr/src/commands.rs:439-462 | An integer is read from exactly the bytes the encoder writes for it, for every 64-bit value and whatever follows. |
| `Codec.TextExactly` | crates/muxe-adapter-herdr/src/commands.rs:463-472 | The same for a text. |
| `Codec.ControlFrameExactly` | crates/muxe-adapter-herdr/src/commands.rs:483-516 | A message is decoded as a control message exactly when it is the encoder's output for that kind and data within the limit. |
| `Codec.ShutdownFrameExactly` | crates/muxe-adapter-herdr/src/commands.rs:491-504 | The same for a shutdown message, with and without a reason. |
| `Codec.RoundTrip` | crates/muxe-adapter-herdr/src/commands.rs:535-551 | Whatever the encoder accepts is decoded to the same kind and data. |
| `Codec.OtherFrameExactly` | crates/muxe-adapter-herdr/src/commands.rs:505-516 | Exactly the messages within the limit that begin with another 32-bit tag are skipped, whatever follows the tag. |
| `Codec.RefusedExactly` | crates/muxe-adapter-herdr/src/commands.rs:483-516 | Exactly the messages that are none of the three are refused. |
| `Codec.ByteStream.ReadFrame` | crates/muxe-adapter-herdr/src/commands.rs:378-395 | One message is read whole; an empty, oversized or cut-short one is an error. |
| `Codec.MessageArrives` | crates/muxe-adapter-herdr/src/commands.rs:378-395 | A message with its header is read back whole, whatever follows it. |
| `Codec.MessageExactly` | crates/muxe-adapter-herdr/src/commands.rs:378-395 | A message is read from a stream exactly when its header and all of it are there, and it has from one byte to two mebibytes. |
| `Codec.UnreadExactly` | crates/muxe-adapter-herdr/src/commands.rs:378-395 | Otherwise the header says empty or too large, or the stream ends too early; each exactly when it does. |
| `Codec.EncodableExactly` | crates/muxe-adapter-herdr/src/commands.rs:535-551 | The encoder takes every kind and data of up to 2097133 bytes together, and the frame then has at most 2097156. |
| `Codec.SentIsHeard` | crates/muxe-adapter-herdr/src/commands.rs:378-551 | Any number of encoded messages sent one after the other are heard as they were sent, in order. |
| `Handshake.ResolveSnapshot` | crates/muxe-adapter-herdr/src/commands.rs:131-166 | One pass over the manifest finds the only command meant, or says that there is none, more than one, or one that cannot be invoked. |
| `Handshake.FoundExactly` | crates/muxe-adapter-herdr/src/commands.rs:131-166 | An ID is found exactly when some command matches, all that match agree on ID and action, and the action is known. |
| `Handshake.OrderIsIrrelevant` | crates/muxe-adapter-herdr/src/commands.rs:131-166 | The order and repetition of commands do not matter. |
| `Handshake.LabelsDecide` | crates/muxe-adapter-herdr/src/commands.rs:131-150 | A list of labels, even an empty one, takes the place of the single label. |
| `Handshake.NotFoundExactly` | crates/muxe-adapter-herdr/src/commands.rs:131-166 | Why nothing is found: nothing matches, two that match disagree, or all that match cannot be invoked. |
| `Handshake.WelcomeExactly` | crates/muxe-adapter-herdr/src/commands.rs:283-310 | A welcome is accepted exactly when it says generation 1, the four codecs and command.invoke by their names, and no error. |
| `Handshake.AnswerFrame` | crates/muxe-adapter-herdr/src/commands.rs:283-329 | Each frame is answered as its meaning and the welcome so far demand. |
| `Handshake.Resolve` | crates/muxe-adapter-herdr/src/commands.rs:270-329 | The reading loop, on a stream of bytes, is the run over the frames that the stream holds. |
| `Handshake.SucceedsExactly` | crates/muxe-adapter-herdr/src/commands.rs:270-329 | A command is found exactly when the only welcome before the first snapshot is accepted, everything else before it is skipped, no shutdown comes first, no read is cut short, and the snapshot means that command. |
| `Handshake.AnswersExactly` | crates/muxe-adapter-herdr/src/commands.rs:270-329 | The answer of a run, refusals included, is decided by the first thing that ends it. |
| `Handshake.ProtocolExactly` | crates/muxe-adapter-herdr/src/commands.rs:270-329 | With the names the endpoint uses, the peer's bytes give a command exactly when the frames in them are one accepted welcome, then a snapshot in which the binding means it, with nothing but skippable frames besides. |
| `Handshake.Discover` | crates/muxe-adapter-herdr/src/commands.rs:235-340 | The lookup, on the byte stream, finds a command that the frames mean, and fails only when they mean none. |
| `Json.CanonIsCanonical` | crates/muxe-adapter-herdr/src/cache.rs:453-466 | A canonical form has its keys in order at every depth and means what the value meant. |
| `Json.CanonDecidesMeaning` | crates/muxe-adapter-herdr/src/cache.rs:453-466 | Two values have one canonical form exactly when they differ at most in the order of object members, at any depth. |
| `Json.CanonFixed` | crates/muxe-adapter-herdr/src/cache.rs:453-466 | Canonicalizing is idempotent, and its fixed points are exactly the canonical values. |
| `SchemaCache.HerdrCache.NormalizedSchema` | crates/muxe-adapter-herdr/src/cache.rs:172-210 | For any cache content the answer is the canonical request part of the document; what is a hit, what is stored and when an error is returned are stated exactly. |
| `SchemaCache.HerdrCache.AskTwice` | crates/muxe-adapter-herdr/src/cache.rs:172-210 | An immediate repeat after an answer is a hit with the same value. |
| `SchemaCache.FreshIsVerified` | crates/muxe-adapter-herdr/src/cache.rs:199-208 | What is stored on a miss passes every check of a later hit. |
| `SchemaCache.ForgedEntriesGiveNothingElse` | crates/muxe-adapter-herdr/src/cache.rs:186-198 | A stored entry, however it came there, gives the right value or none. |
| `SchemaCache.ReorderedDocumentsShareAnEntry` | crates/muxe-adapter-herdr/src/cache.rs:436-441 | Documents that differ only in member order share one key and one answer. |
| `WireFields.CheckWireFields` | crates/muxe-adapter-herdr/src/validation.rs:164-182 | The loop returns the wire fields in order, or the first fault. |
| `WireFields.AcceptsExactly` | crates/muxe-adapter-herdr/src/validation.rs:164-219 | Fields are accepted exactly when, at every depth, spellings have no underscore and are distinct and values can be represented; order, spelling and value are kept. |
| `WireFields.WireNameInjective` | crates/muxe-adapter-herdr/src/validation.rs:230-240 | Accepted spellings keep their identity on the wire. |
| `WireFields.ParamsAreTheFields` | crates/muxe-adapter-herdr/src/validation.rs:190-195 | The parameters are exactly the fields, each under its wire name. |
| `WireFields.SpellingRecoveredExactly` | crates/muxe-adapter-herdr/src/validation.rs:242-246 | An error path leads back to the source spelling exactly when that has neither a slash nor a tilde. |
| `WireFields.TildeIsNotRecovered` | crates/muxe-adapter-herdr/src/schema.rs:1234-1244 | An accepted spelling that is reported under another name. |
| `WireFields.SentValueStands` | crates/muxe-adapter-herdr/src/validation.rs:197-219 | What is sent for a value says what the value says, at every depth: the same scalar, the same items in order, one member per field; and a placeholder of the declared type for a context value. |
| `WireFields.TreeGivesBack` | crates/muxe-adapter-herdr/src/validation.rs:197-219 | Literal values that are sent alike are alike, but for the order of fields. |
| `NativeValidation.FindBinding` | crates/muxe-adapter-herdr/src/validation.rs:35-63 | The loop over the fields of a configured command finds its one binding, or the first fault. |
| `NativeValidation.ValidateNativeCandidate` | crates/muxe-adapter-herdr/src/validation.rs:27-77 | One native action is validated as the configured command or against its method. |
| `NativeValidation.ConfiguredAcceptedExactly` | crates/muxe-adapter-herdr/src/validation.rs:27-77 | A configured command is accepted exactly when its only field is a literal valid binding and the schema declares the invoking method. |
| `NativeValidation.DirectAcceptedExactly` | crates/muxe-adapter-herdr/src/validation.rs:101-133 | Any other action is accepted exactly when its method is known and unary, its fields acceptable, and the schema finds no fault. |
| `NativeTexts.DirectFaultExactly` | crates/muxe-adapter-herdr/src/validation.rs:101-133 | Which fault a direct action is refused for, in the order they are looked for. |
| `NativeTexts.RefusedExactly` | crates/muxe-adapter-herdr/src/validation.rs:164-182 | A structural fault is that of the first field with one. |
| `NativeTexts.ConfiguredFaultExactly` | crates/muxe-adapter-herdr/src/validation.rs:27-77 | Which fault a configured command is refused for. |
| `NativeTexts.SelectorExactly` | crates/muxe-adapter-herdr/src/commands.rs:56-58 | A selector is valid exactly when its UTF-8 encoding has from 1 to 1024 bytes and it holds no control character. |
| `NativeTexts.Utf8Exactly` | crates/muxe-adapter-herdr/src/commands.rs:463-472 | Bytes are taken for text exactly when they are the UTF-8 encoding of some text. |
| `ComparisonCache.SameKey` | crates/muxe-adapter-herdr/src/cache.rs:311-335 | Batches share a key only if the validator sees the same requests and the documents have one request part. |
| `ComparisonCache.StoredIsFound` | crates/muxe-adapter-herdr/src/cache.rs:214-241 | What is stored for a key is what a lookup of it gives. |
| `ComparisonCache.OutcomeCache.ValidateBatch` | crates/muxe-adapter-herdr/src/adapter.rs:1510-1609 | The cached batch validator, branch by branch, with the entries it leaves. |
| `ComparisonCache.ValidateAfresh` | crates/muxe-adapter-herdr/src/adapter.rs:1611-1630 | The uncached batch validator. |
| `ComparisonCache.SpellingsRefuseTheSame` | crates/muxe-adapter-herdr/src/adapter.rs:1526-1542 | A batch with bad spellings is refused for the same candidates, in the same order, as without the cache. |
| `ComparisonCache.OneBatch` | crates/muxe-adapter-herdr/src/adapter.rs:1510-1609 | Over the documents admitted: with truthful entries the cached verdict is the uncached one exactly when no store is needed or the store succeeds; a failed store refuses the batch. |
| `ComparisonCache.OneBatchKeepsTruth` | crates/muxe-adapter-herdr/src/adapter.rs:1582-1600 | Validating a batch leaves only truthful entries, however its store ends. |
| `ComparisonSources.SameBatch` | crates/muxe-adapter-herdr/src/cache.rs:311-335 | Batches share a key only if they are the same batch in the source, context paths included, asked of one request schema. |
| `ComparisonSources.OutcomeFormat` | crates/muxe-adapter-herdr/src/cache.rs:214-310 | The members of a stored outcome. |
| `ComparisonSources.OutcomeReadExactly` | crates/muxe-adapter-herdr/src/cache.rs:214-225 | A stored entry is read as these outcomes exactly when its five key members, versions included, are those of the key and its outcomes are exactly these. |
| `ComparisonSources.SchemaFormat` | crates/muxe-adapter-herdr/src/cache.rs:172-210 | The members of a stored schema, and its key. |
| `ComparisonRuns.AgreesExactly` | crates/muxe-adapter-herdr/src/adapter.rs:1510-1630 | Whatever documents are admitted and whatever judges them: from an empty cache, over any run of batches, the cached verdict agrees with the uncached one if and only if admitted documents with one request part never judge an action differently. |
| `SchemaDocument.TokensBack` | crates/muxe-adapter-herdr/src/schema.rs:1029-1050 | A pointer written from tokens, with slashes and tildes escaped, is read back as those tokens. |
| `SchemaDocument.IndexExactly` | crates/muxe-adapter-herdr/src/schema.rs:1029-1050 | An item is pointed to by its position in decimal, without a needless zero, and by nothing else. |
| `SchemaMeaning.ParsesExactly` | crates/muxe-adapter-herdr/src/schema.rs:118-183 | A document is taken exactly when it has two unsigned version numbers, zero included, and a request part that is a list of alternatives. |
| `SchemaDocument.RequestPartDecides` | crates/muxe-adapter-herdr/src/schema.rs:240-263 | Documents with one request part, from which no reference leads out, find the same first fault with every call of every method. |
| `SchemaDocument.CallIsRefused` | crates/muxe-adapter-herdr/src/schema.rs:402-480 | Wherever on its way validation of a call follows a reference to a node that refuses everything, the call is refused. |
| `SchemaMeaning.ValidExactly` | crates/muxe-adapter-herdr/src/schema.rs:402-480 | Validation finds no fault exactly when the value fits the schema, as said keyword by keyword: every required member present, every member allowed and fitting, every item fitting, some alternative fitting, and for oneOf just one. |
| `SchemaMeaning.CallFitsExactly` | crates/muxe-adapter-herdr/src/schema.rs:240-263 | A call is accepted exactly when its method is declared once, what describes the parameters can be found, and they fit it. |
| `SchemaFaults.ProperIsSpared` | crates/muxe-adapter-herdr/src/schema.rs:402-480 | Where every node that a value meets is well formed, the value is blamed or nothing is: no fault of the schema is reported. |
| `SchemaFaults.ProperChoiceExactly` | crates/muxe-adapter-herdr/src/schema.rs:904-964 | A choice among well-formed alternatives is fitted exactly when one of them fits, and for oneOf no two. |
| `SchemaFaults.BrokenIsBlamed` | crates/muxe-adapter-herdr/src/schema.rs:402-430 | A node that nests too deep, is no object, has an unknown keyword or a dangling reference is blamed whatever the value. |
| `SchemaFaults.RequiredFaultExactly` | crates/muxe-adapter-herdr/src/schema.rs:882-902 | A missing name is the value's fault exactly when every name before it is present and is a name. |
| `SchemaPaths.ReportedFieldIsGiven` | crates/muxe-adapter-herdr/src/validation.rs:242-246 | A schema fault that names a field names one of the action, under its own spelling unless a slash or a tilde is in it. |
| `SchemaRuns.ContainedDocumentsAgree` | crates/muxe-adapter-herdr/src/adapter.rs:1510-1630 | Over every run of batches and parsing documents whose reachable references resolve under the request part, the cached verdict is the uncached one. |
| `SchemaRuns.OutsideReferenceGoesStale` | crates/muxe-adapter-herdr/src/schema.rs:1029-1050 | For any parsing document and any action it accepts whose validation comes, through references, members and items, to a reference to a place outside the request part: another parsing document with the same request part refuses the action, and the cache accepts it. |
| `SchemaRuns.AgreesOnRequestExactly` | crates/muxe-adapter-herdr/src/cache.rs:311-335 | Over all documents with a given request part, one that is self-contained or that the validation of some accepted action leaves, the cache agrees with validation if and only if it is self-contained. |
| `SchemaRuns.DefinitionsLeadOut` | crates/muxe-adapter-herdr/src/schema.rs:108-166 | Such a request part: one method whose parameters are described at a place like `#/definitions/X`; every call leads there. |
| `SchemaRuns.MemberLeadsOut` | crates/muxe-adapter-herdr/src/schema.rs:774-866 | Another: the parameters declare a member that is described there; every call with that member leads there. |
| `SchemaRuns.EmptyActionLeadsOut` | crates/muxe-adapter-herdr/src/schema.rs:240-263 | Of the first kind, the action without fields is accepted by some document and leads out. |
| `Portable.DispatchSendsWhatLoadingAccepted` | crates/muxe-adapter-herdr/src/adapter.rs:1795-1949 | What loading accepted is what dispatch sends: its values resolve exactly when its key list, if any, spells keys; then the described fields exactly, every required parameter, no undeclared one, and values the schema has accepted; and something is sent exactly when the pane, and the tab if named, were captured. |
| `Portable.ProbedResolvesExactly` | crates/muxe-core/src/action.rs:1594-1610 | An action whose values could be probed resolves at dispatch if and only if the texts of its key list spell keys. |
| `Portable.UnspeltKeysLoad` | crates/muxe-adapter-herdr/src/adapter.rs:1985-2008 | A key list with the empty spelling is accepted when the configuration is loaded and does not resolve at dispatch. |
| `Portable.Sent` | crates/muxe-adapter-herdr/src/adapter.rs:3342-3433 | Action by action, the request built after resolution has exactly the described fields with their probed values. |
| `Portable.NotSentUnplaced` | crates/muxe-adapter-herdr/src/adapter.rs:4385-4413 | Without the pane, or the tab it names, nothing is sent. |
| `Portable.WholeProbesAgree` | crates/muxe-adapter-herdr/src/adapter.rs:2167-2217 | The whole-request check probes each config-backed field with the same value as the check parameter by parameter. |
| `PortableRequests.SendsExactly` | crates/muxe-adapter-herdr/src/adapter.rs:3342-3433 | For every action of literal or absent values, whatever was captured: dispatch sends a request if and only if a table asks for it that spells out, action by action, the method, the captured pane or tab, and each parameter from the configured value. |
| `PortableRequests.LoadingExactly` | crates/muxe-adapter-herdr/src/adapter.rs:1795-1949 | Loading accepts such an action if and only if every required parameter is among those sent, every one sent is declared, and the schema accepts each. |
| `PortableRequests.WholeLoadingExactly` | crates/muxe-adapter-herdr/src/adapter.rs:2167-2217 | The same where the method declares no parameters and the request is judged as a whole. |
| `PortableRequests.KindsExactly` | crates/muxe-adapter-herdr/src/adapter.rs:3645-3780 | Which actions are one request, which are left to others, and which the host cannot run. |
| `PortableRequests.KeyProbesExactly` | crates/muxe-adapter-herdr/src/adapter.rs:1985-2008 | A key list is probed exactly when every entry is a text or will be one from the context; each as it is spelt, or by its placeholder, in order. |
| `PortableRequests.MarkersFitExactly` | crates/muxe-adapter-herdr/src/adapter.rs:2010-2039 | A value that the context will supply fits a parameter exactly when the schema takes values of the type that its placeholder has. |
| `PortableRequests.ContextFieldExactly` | crates/muxe-adapter-herdr/src/adapter.rs:1916-1950 | A configured parameter that the context will supply is accepted exactly when the schema takes values of that type; but a zoom mode never is. |
| `PortableRequests.RefusedWhenUndeclared` | crates/muxe-adapter-herdr/src/adapter.rs:1795-1850 | Loading refuses an action whose method the schema does not declare, with an object for its parameters and names for the required ones. |

## Left out

- AnsweredInTime: counts turns of the monitor, each an await that ended; that the monitor is given its turns is not proved.
- AgreesOnRequestExactly: leaves open the request parts that references leave only inside alternatives or property names, to a place that parsing itself needs, or where no action is accepted; there a changed target need not change a verdict.
- DrainedMeansSent: says that every terminal was sent, not that it was handed out: the program checks for an empty queue and for a drained registry in two steps.
- AgreesExactly: the entries start empty and change only through the cache; a forged entry for the right key could hold any outcomes, and only its refusals are validated again.
- DispatchSendsWhatLoadingAccepted: holds of literal and absent values; a context value is checked at load time by its declared type only. Keys and directories are rendered after loading and are excluded from the comparison of values.
- Wide inputs: positions, lengths and counts are unbounded naturals, except for the 64-bit integers and 32-bit tags of the codec.
- Sockets, child processes, wakers and the greeting that opens the command endpoint; a read that is interrupted is one flag per read, and replacing the socket during discovery one flag at the end.
- The order in which the requests claimed together are started and reported, and the grouping of tasks into one queue of sent requests.
- The order in which a request queue takes its jobs, and its capacity: a close that waits may be taken in any order.
- File ownership, permissions, links and syncing of cache files, beyond an entry that can be read or not and a write that may fail.
- The managed plugin manifest, pane opening and command-bearing creations (layout and plugin requests).
- Message texts and source positions of diagnostics; which candidate is refused, and why, is kept.
- JSON text: parsing and printing; a JSON number is a whole number or the bits of a finite double.
- What the local keywords of a JSON schema check (types, constants, formats, ranges, lengths, patterns, counts), and the bundled method table.
- `hash_configured_requests` and its structural encoding of unvalidated candidates, which the adapter does not use for lookups.
- Actions that need several requests or belong to the broker: only that they are not single requests is modelled.
- The Zellij adapter, broker, palette, release tools and benchmarks.
